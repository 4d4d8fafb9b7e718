/** What subscription webhooks keep over every run: refunds, expiry, and how many rows are active. */
module SubscriptionRuns {
  import opened Basics
  import opened Subscriptions

  // ----- the refund -----

  lemma ShareShrinks(less: int, more: int, total: int)
    requires less <= more && total > 0
    ensures less as real / total as real <= more as real / total as real
  {
    var t := total as real;
    assert (more as real / t) - (less as real / t) == (more - less) as real / t;
  }

  lemma ProductShrinks(price: real, a: real, b: real)
    requires price >= 0.0 && a <= b
    ensures price * a <= price * b
  {
  }

  /** For a period that has begun, the refund lies between nothing and the price. */
  lemma RefundIsBounded(start: int, end: int, price: real, now: int)
    requires start <= now
    ensures 0 <= RefundOf(start, end, price, now)
    ensures price >= 0.0 ==> RefundOf(start, end, price, now) as real <= price
  {
    if end - start > 0 && end > now && price > 0.0 {
      ShareShrinks(end - now, end - start, end - start);
      var share := (end - now) as real / (end - start) as real;
      assert (end - start) as real / (end - start) as real == 1.0;
      ProductShrinks(price, share, 1.0);
    }
  }

  /** It never grows as time passes. */
  lemma RefundNeverGrows(start: int, end: int, price: real, now: int, later: int)
    requires now <= later
    ensures RefundOf(start, end, price, later) <= RefundOf(start, end, price, now)
  {
    if end - start > 0 && price > 0.0 {
      ShareShrinks(end - later, end - now, end - start);
      ProductShrinks(price, (end - later) as real / (end - start) as real, (end - now) as real / (end - start) as real);
    }
  }

  lemma ShareTimesTotal(price: real, part: real, total: real)
    requires total > 0.0
    ensures price * (part / total) * total == price * part
  {
    assert part / total * total == part;
  }

  lemma FloorTimes(x: real, t: real)
    requires t > 0.0
    ensures x.Floor as real * t <= x * t < (x.Floor + 1) as real * t
  {
    ProductShrinks(t, x.Floor as real, x);
    assert ((x.Floor + 1) as real - x) * t > 0.0;
  }

  lemma ShareIsFloored(start: int, end: int, price: real, now: int)
    requires start <= now && end - now > REFUND_CUTOFF && price > 0.0
    ensures var r := RefundOf(start, end, price, now); var total := (end - start) as real;
      r as real * total <= price * (end - now) as real < (r + 1) as real * total
  {
    var t := (end - start) as real;
    var x := price * ((end - now) as real / t);
    RefundIsFloor(start, end, price, now);
    assert RefundOf(start, end, price, now) == x.Floor;
    FloorTimes(x, t);
    assert x * t == price * (end - now) as real by { ShareTimesTotal(price, (end - now) as real, t); }
  }

  lemma RefundIsFloor(start: int, end: int, price: real, now: int)
    requires start <= now && end - now > REFUND_CUTOFF && price > 0.0
    ensures RefundOf(start, end, price, now) == (price * ((end - now) as real / (end - start) as real)).Floor
  {
    ProductShrinks(price, 0.0, (end - now) as real / (end - start) as real);
  }

  /**
   More than 15 days before the end the refund is the price's share of the remaining time, rounded down:
   r/price <= remaining/total < (r+1)/price, times in milliseconds.
   */
  lemma RefundIsProRata(start: int, end: int, price: real, now: int)
    requires start <= now && end - now > 15 * 86400000 && price > 0.0
    ensures var r := RefundOf(start, end, price, now); var total := (end - start) as real;
      r as real * total <= price * (end - now) as real < (r + 1) as real * total
  {
    ShareIsFloored(start, end, price, now);
  }

  /** Exactly when nothing is refunded; in particular within 15 days of the end. Times are in milliseconds. */
  lemma RefundIsZeroIff(start: int, end: int, price: real, now: int)
    requires start <= now
    ensures RefundOf(start, end, price, now) == 0 <==>
      end - now <= 15 * 86400000 || price * (end - now) as real < (end - start) as real
  {
    RefundIsBounded(start, end, price, now);
    if end - now > REFUND_CUTOFF {
      if price <= 0.0 {
        ProductShrinks((end - now) as real, price, 0.0);
      } else {
        RefundIsProRata(start, end, price, now);
        ProductShrinks((end - start) as real, 1.0, Max(1, RefundOf(start, end, price, now)) as real);
      }
    }
  }

  /** Superseded in the moment it is activated, a plan longer than 15 days is refunded in full, a shorter one not at all. */
  lemma FreshPeriodRefund(price: real, days: nat, now: int)
    requires price >= 0.0
    ensures RefundOf(now, now + days * 86400000, price, now) == if days > 15 then price.Floor else 0
  {
    if days > 15 && price > 0.0 {
      assert (days * DAY) as real / (days * DAY) as real == 1.0;
    }
  }

  // ----- expiry and refunds over runs -----

  predicate Expires(s: State, i: nat) {
    i < |s.rows| && s.rows[i].status == Expired
  }

  predicate CreditsFit(c: Catalog, s: State) {
    && (forall i, j :: 0 <= i < j < |s.credits| ==> s.credits[i].row != s.credits[j].row)
    && (forall x <- s.credits ::
          && Expires(s, x.row) && s.rows[x.row].plan in c.plans
          && 0 < x.amount && x.amount as real <= c.plans[s.rows[x.row].plan].price)
  }

  /** An active period has begun. */
  predicate Begun(s: State) {
    forall x <- s.rows :: x.status == Active ==> x.start <= s.now
  }

  lemma StepKeepsExpired(c: Catalog, s: State, e: Event, i: nat)
    requires i < |s.rows|
    ensures var t := Step(c, s, e);
      && i < |t.rows| && t.rows[i].user == s.rows[i].user && t.rows[i].plan == s.rows[i].plan
      && (s.rows[i].status in {Expired, Cancelled} ==> t.rows[i].status in {Expired, Cancelled})
      && (s.rows[i].status == Expired ==> t.rows[i].status == Expired)
  {
  }

  /** An expired (or cancelled) subscription never becomes active again, whatever webhooks arrive in whatever order. */
  lemma {:induction false} ExpiredStaysExpired(c: Catalog, s: State, es: seq<Event>, i: nat)
    requires i < |s.rows| && s.rows[i].status in {Expired, Cancelled}
    ensures i < |Run(c, s, es).rows| && Run(c, s, es).rows[i].status in {Expired, Cancelled}
    decreases |es|
  {
    if es != [] {
      StepKeepsExpired(c, s, es[0], i);
      ExpiredStaysExpired(c, Step(c, s, es[0]), es[1..], i);
    }
  }

  lemma SupersedeKeepsCredits(c: Catalog, s: State, i: nat)
    requires CreditsFit(c, s) && Begun(s) && i < |s.rows| && s.rows[i].status == Active && CanSupersede(c, s, i)
    ensures CreditsFit(c, Supersede(c, s, i)) && Begun(Supersede(c, s, i))
  {
    assert s.rows[i] in s.rows;
    RefundIsBounded(s.rows[i].start, s.rows[i].end, c.plans[s.rows[i].plan].price, s.now);
    var t := Supersede(c, s, i);
    forall x | x in t.credits
      ensures Expires(t, x.row) && t.rows[x.row].plan in c.plans
      ensures 0 < x.amount && x.amount as real <= c.plans[t.rows[x.row].plan].price
    {
      if x in s.credits {
        assert Expires(s, x.row);
      }
    }
    forall j | 0 <= j < |s.credits| ensures s.credits[j].row != i {
      assert s.credits[j] in s.credits;
      assert Expires(s, s.credits[j].row);
    }
  }

  lemma RewriteKeepsCredits(c: Catalog, s: State, k: nat, x: Subscription)
    requires CreditsFit(c, s) && Begun(s) && k < |s.rows| && x.plan == s.rows[k].plan
    requires s.rows[k].status == Expired ==> x.status == Expired
    requires x.status == Active ==> x.start <= s.now
    ensures CreditsFit(c, s.(rows := s.rows[k := x])) && Begun(s.(rows := s.rows[k := x]))
  {
    var t := s.(rows := s.rows[k := x]);
    forall y | y in t.credits
      ensures Expires(t, y.row) && t.rows[y.row].plan in c.plans
      ensures 0 < y.amount && y.amount as real <= c.plans[t.rows[y.row].plan].price
    {
      assert Expires(s, y.row);
    }
  }

  lemma AppendKeepsCredits(c: Catalog, s: State, x: Subscription)
    requires CreditsFit(c, s) && Begun(s) && (x.status == Active ==> x.start <= s.now)
    ensures CreditsFit(c, s.(rows := s.rows + [x])) && Begun(s.(rows := s.rows + [x]))
  {
    var t := s.(rows := s.rows + [x]);
    forall y | y in t.credits
      ensures Expires(t, y.row) && t.rows[y.row].plan in c.plans
      ensures 0 < y.amount && y.amount as real <= c.plans[t.rows[y.row].plan].price
    {
      assert Expires(s, y.row);
    }
  }

  lemma ActivateKeepsCredits(c: Catalog, s: State, k: nat, found: Option<nat>)
    requires CreditsFit(c, s) && Begun(s) && k < |s.rows| && s.rows[k].plan in c.plans && MayActivate(s.rows[k].status)
    requires IsCurrentActive(s, s.rows[k].user, found)
    ensures CreditsFit(c, DoActivate(c, s, k, found)) && Begun(DoActivate(c, s, k, found))
  {
    var days := c.plans[s.rows[k].plan].durationDays;
    if found.Some? && found.value != k {
      if CanSupersede(c, s, found.value) {
        SupersedeKeepsCredits(c, s, found.value);
        var t := Supersede(c, s, found.value);
        RewriteKeepsCredits(c, t, k, ActiveRow(t.rows[k], days, s.now));
      }
    } else {
      RewriteKeepsCredits(c, s, k, ActiveRow(s.rows[k], days, s.now));
    }
  }

  lemma StepKeepsCredits(c: Catalog, s: State, e: Event)
    requires CreditsFit(c, s) && Begun(s)
    ensures CreditsFit(c, Step(c, s, e)) && Begun(Step(c, s, e))
  {
    match e {
      case Webhook(g, name, found) =>
        var k := ByGateway(s.rows, g);
        if k.Some? && Step(c, s, e) != s {
          if StatusFor(name) == Some(Active) {
            ActivateKeepsCredits(c, s, k.value, found);
          } else {
            var x := ExpiredRow(s.rows[k.value], s.now);
            RewriteKeepsCredits(c, s, k.value, x);
            AppendKeepsCredits(c, s.(rows := s.rows[k.value := x]),
                               Subscription(s.rows[k.value].user, c.standard.value, None, Active, s.now, INFINITE_END));
          }
        }
      case Checkout(u, p, g) =>
        if Step(c, s, e) != s {
          AppendKeepsCredits(c, s, Subscription(u, p, Some(g), Pending, s.now, s.now + c.plans[p].durationDays * DAY));
        }
      case Fund(_) =>
        forall x | x in s.credits ensures Expires(Step(c, s, e), x.row) { assert Expires(s, x.row); }
      case Tick(_) =>
        forall x | x in s.credits ensures Expires(Step(c, s, e), x.row) { assert Expires(s, x.row); }
    }
  }

  /** Over any run every subscription is refunded at most once, only when superseded, and never more than its price. */
  lemma {:induction false} RefundedAtMostOnce(c: Catalog, s: State, es: seq<Event>)
    requires CreditsFit(c, s) && Begun(s)
    ensures CreditsFit(c, Run(c, s, es))
    decreases |es|
  {
    if es != [] {
      StepKeepsCredits(c, s, es[0]);
      RefundedAtMostOnce(c, Step(c, s, es[0]), es[1..]);
    }
  }

  // ----- how many rows are active -----

  predicate ActiveFor(s: State, u: UserId, i: nat) {
    i < |s.rows| && s.rows[i].user == u && s.rows[i].status == Active
  }

  predicate AtMostOneActive(s: State) {
    forall i, j :: 0 <= i < j < |s.rows| && s.rows[i].status == Active && s.rows[j].status == Active ==>
      s.rows[i].user != s.rows[j].user
  }

  /** Another active row of the same user. */
  predicate Rival(s: State, k: nat, i: nat) {
    k < |s.rows| && i != k && ActiveFor(s, s.rows[k].user, i)
  }

  ghost predicate OnlyActive(s: State, u: UserId, k: nat) {
    ActiveFor(s, u, k) && forall i: nat :: ActiveFor(s, u, i) ==> i == k
  }

  /**
   An activation that goes through, from at most one active row, ends with exactly the activated row active if and only
   if the user's other active row, if any, has not run past its end date: the lookup does not see a lapsed row.
   */
  lemma ActivationLeavesOne(c: Catalog, s: State, k: nat, found: Option<nat>)
    requires AtMostOneActive(s) && k < |s.rows| && s.rows[k].plan in c.plans && MayActivate(s.rows[k].status)
    requires IsCurrentActive(s, s.rows[k].user, found)
    requires found.Some? && found.value != k ==> CanSupersede(c, s, found.value)
    ensures var t := DoActivate(c, s, k, found);
      OnlyActive(t, s.rows[k].user, k) <==> forall i: nat :: Rival(s, k, i) ==> s.rows[i].end > s.now
  {
    var u := s.rows[k].user;
    var t := DoActivate(c, s, k, found);
    if i: nat :| Rival(s, k, i) && s.rows[i].end <= s.now {
      assert forall j :: 0 <= j < |s.rows| && Current(s, u, j) ==> j == i;
      assert ActiveFor(t, u, i);
    } else {
      forall i: nat | ActiveFor(t, u, i) ensures i == k {
        if i != k {
          assert Rival(s, k, i);
          assert Current(s, u, i);
        }
      }
    }
  }

  /** The steps after which a user has two active rows. */
  ghost predicate Doubles(c: Catalog, s: State, e: Event) {
    && e.Webhook? && Step(c, s, e) != s
    && ByGateway(s.rows, e.gateway).Some?
    && var k := ByGateway(s.rows, e.gateway).value;
       && (StatusFor(e.name) == Some(Active) ==> exists i: nat :: Rival(s, k, i) && s.rows[i].end <= s.now)
       && (StatusFor(e.name) == Some(Expired) ==> exists i: nat :: Rival(s, k, i))
  }

  lemma ActivationBalance(c: Catalog, s: State, k: nat, found: Option<nat>)
    requires AtMostOneActive(s) && k < |s.rows| && s.rows[k].plan in c.plans && MayActivate(s.rows[k].status)
    requires IsCurrentActive(s, s.rows[k].user, found)
    requires found.Some? && found.value != k ==> CanSupersede(c, s, found.value)
    ensures AtMostOneActive(DoActivate(c, s, k, found)) <==> !exists i: nat :: Rival(s, k, i) && s.rows[i].end <= s.now
  {
    ActivationLeavesOne(c, s, k, found);
    var t := DoActivate(c, s, k, found);
    var u := s.rows[k].user;
    assert ActiveFor(t, u, k);
    if OnlyActive(t, u, k) {
      forall i, j | 0 <= i < j < |t.rows| && t.rows[i].status == Active && t.rows[j].status == Active
        ensures t.rows[i].user != t.rows[j].user
      {
        assert t.rows[i].user == u ==> ActiveFor(t, u, i);
        assert t.rows[j].user == u ==> ActiveFor(t, u, j);
      }
    } else {
      var i: nat :| ActiveFor(t, u, i) && i != k;
      assert !AtMostOneActive(t);
    }
  }

  lemma ExpiryBalance(c: Catalog, s: State, k: nat)
    requires AtMostOneActive(s) && k < |s.rows| && c.standard.Some?
    ensures AtMostOneActive(DoExpire(c, s, k)) <==> !exists i: nat :: Rival(s, k, i)
  {
    var t := DoExpire(c, s, k);
    var n := |s.rows|;
    if i: nat :| Rival(s, k, i) {
      assert t.rows[i].status == Active && t.rows[n].status == Active && t.rows[i].user == t.rows[n].user;
    } else {
      forall i, j | 0 <= i < j < |t.rows| && t.rows[i].status == Active && t.rows[j].status == Active
        ensures t.rows[i].user != t.rows[j].user
      {
        assert i != k && j != k;
        if j == n {
          assert !Rival(s, k, i);
        } else {
          assert t.rows[i] == s.rows[i] && t.rows[j] == s.rows[j];
        }
      }
    }
  }

  /**
   Exactly which steps give a user a second active row: activating while another active row has lapsed, and expiring
   anything while another row is active, for each effective expiry adds a default row.
   */
  lemma StepKeepsOneActiveIff(c: Catalog, s: State, e: Event)
    requires AtMostOneActive(s)
    ensures AtMostOneActive(Step(c, s, e)) <==> !Doubles(c, s, e)
  {
    if e.Webhook? && Step(c, s, e) != s {
      var k := ByGateway(s.rows, e.gateway).value;
      if StatusFor(e.name) == Some(Active) {
        ActivationBalance(c, s, k, e.found);
      } else {
        ExpiryBalance(c, s, k);
      }
    }
  }

  /** An expiry webhook, with a default plan: the row is expired and an active default row is appended. */
  lemma ExpiryAppends(c: Catalog, s: State, g: int, name: EventName, found: Option<nat>)
    requires c.standard.Some? && ByGateway(s.rows, g).Some? && StatusFor(name) == Some(Expired)
    requires s.rows[ByGateway(s.rows, g).value].plan in c.plans
    ensures var k := ByGateway(s.rows, g).value; var t := Step(c, s, Webhook(g, name, found)); var n := |s.rows|;
      && |t.rows| == n + 1 && t.rows[k] == ExpiredRow(s.rows[k], s.now)
      && t.rows[n] == Subscription(s.rows[k].user, c.standard.value, None, Active, s.now, INFINITE_END)
      && (forall i :: 0 <= i < n && i != k ==> t.rows[i] == s.rows[i])
  {
  }

  lemma {:induction false} NewestIsFound(rows: seq<Subscription>, g: int, k: nat)
    requires k < |rows| && rows[k].gateway == Some(g) && forall j :: k < j < |rows| ==> rows[j].gateway != Some(g)
    ensures ByGateway(rows, g) == Some(k)
  {
    if k < |rows| - 1 {
      NewestIsFound(Init(rows), g, k);
    }
  }

  /** Halted and then cancelled, the gateway's usual sequence: two default rows are active at once. */
  lemma ExpiredTwice(c: Catalog, s: State, g: int, found: Option<nat>)
    requires c.standard.Some? && ByGateway(s.rows, g).Some? && s.rows[ByGateway(s.rows, g).value].plan in c.plans
    ensures var t := Step(c, Step(c, s, Webhook(g, Halted, found)), Webhook(g, CancelledByUser, found));
      |t.rows| == |s.rows| + 2 && !AtMostOneActive(t)
  {
    var n := |s.rows|;
    var t1 := Step(c, s, Webhook(g, Halted, found));
    ExpiryAppends(c, s, g, Halted, found);
    NewestIsFound(t1.rows, g, ByGateway(s.rows, g).value);
    ExpiryAppends(c, t1, g, CancelledByUser, found);
    var t2 := Step(c, t1, Webhook(g, CancelledByUser, found));
    assert t2.rows[n].status == Active && t2.rows[n + 1].status == Active && t2.rows[n].user == t2.rows[n + 1].user;
  }

  /** Without a default plan an expiry webhook reports success and changes nothing: the row stays active. */
  lemma ExpiryNeedsDefault(c: Catalog, s: State, g: int, name: EventName, found: Option<nat>)
    requires ByGateway(s.rows, g).Some? && StatusFor(name) == Some(Expired)
    requires s.rows[ByGateway(s.rows, g).value].plan in c.plans
    ensures var t := Step(c, s, Webhook(g, name, found)); var k := ByGateway(s.rows, g).value;
      && (c.standard.None? <==> t == s)
      && (c.standard.Some? <==> |t.rows| == |s.rows| + 1)
      && (t.rows[k].status == Expired <==> c.standard.Some? || s.rows[k].status == Expired)
  {
    var k := ByGateway(s.rows, g).value;
    assert c.standard.Some? ==> |DoExpire(c, s, k).rows| == |s.rows| + 1;
  }
}
