/** What each gateway webhook and each checkout comes to, by name and in plain milliseconds. */
module SubscriptionSteps {
  import opened Basics
  import opened Subscriptions
  import opened SubscriptionRuns

  /** Row `k` is the newest with gateway id `g`. */
  predicate IsNewest(rows: seq<Subscription>, g: int, k: nat) {
    k < |rows| && rows[k].gateway == Some(g) && forall j :: k < j < |rows| ==> rows[j].gateway != Some(g)
  }

  predicate Activates(name: EventName) {
    name == Authenticated || name == Activated || name == Charged || name == Resumed
  }

  predicate Ends(name: EventName) {
    name == Halted || name == CancelledByUser || name == Completed || name == PausedByUser
  }

  /** A webhook for an unknown subscription, or of an unknown name, fails and changes nothing. */
  lemma UnknownIsRefused(c: Catalog, s: State, g: int, name: EventName, found: Option<nat>)
    requires name == Unknown || forall x <- s.rows :: x.gateway != Some(g)
    ensures Step(c, s, Webhook(g, name, found)) == s && !Succeeds(c, s, g, name, found)
  {
    var k := ByGateway(s.rows, g);
    assert k.Some? ==> s.rows[k.value] in s.rows;
  }

  /** "Still pending" never changes anything; it succeeds exactly if the plan is known. */
  lemma PendingOutcome(c: Catalog, s: State, g: int, found: Option<nat>, k: nat)
    requires IsNewest(s.rows, g, k)
    ensures Step(c, s, Webhook(g, StillPending, found)) == s
    ensures Succeeds(c, s, g, StillPending, found) <==> s.rows[k].plan in c.plans
  {
    NewestIsFound(s.rows, g, k);
  }

  /** Expired from now on. */
  predicate EndedNow(before: Subscription, after: Subscription, now: int) {
    after == before.(status := Expired, end := now)
  }

  /**
   The four ending names. With a default plan the row expires now and an active default row without end is added;
   without one, and for an unknown plan, nothing changes, which only in the former case is reported as a success.
   */
  lemma EndingOutcome(c: Catalog, s: State, g: int, name: EventName, found: Option<nat>, k: nat)
    requires Ends(name) && IsNewest(s.rows, g, k)
    ensures var t := Step(c, s, Webhook(g, name, found)); var n := |s.rows|;
      if s.rows[k].plan in c.plans && c.standard.Some? then
        && |t.rows| == n + 1 && EndedNow(s.rows[k], t.rows[k], s.now)
        && t.rows[n] == Subscription(s.rows[k].user, c.standard.value, None, Active, s.now, 253402300799999)
        && (forall i :: 0 <= i < n && i != k ==> t.rows[i] == s.rows[i])
        && t == s.(rows := t.rows)
      else t == s
    ensures Succeeds(c, s, g, name, found) <==> s.rows[k].plan in c.plans
  {
    NewestIsFound(s.rows, g, k);
  }

  /** The current active row that has to make way, if it is not the activated one itself. */
  function Superseded(found: Option<nat>, k: nat): Option<nat> {
    if found == Some(k) then None else found
  }

  /** It can make way if its plan is known and, where a refund is owed, the wallet can take it. */
  predicate MakesWay(c: Catalog, s: State, prior: Option<nat>) {
    prior.Some? && prior.value < |s.rows| ==>
      && s.rows[prior.value].plan in c.plans
      && (RefundOf(s.rows[prior.value].start, s.rows[prior.value].end, c.plans[s.rows[prior.value].plan].price, s.now) > 0 ==>
            s.rows[prior.value].user in s.funded)
  }

  /**
   The four activating names, for a row that is pending, unpaid or active, of a known plan, and with the user's current
   active row as looked up. If that row can make way, it expires now and is refunded, and the row is active from now for
   the plan's days of 86 400 000 milliseconds; otherwise nothing changes and the failure is reported.
   */
  lemma ActivationOutcome(c: Catalog, s: State, g: int, name: EventName, found: Option<nat>, k: nat)
    requires Activates(name) && IsNewest(s.rows, g, k) && s.rows[k].plan in c.plans
    requires s.rows[k].status == Pending || s.rows[k].status == PaymentFailed || s.rows[k].status == Active
    requires IsCurrentActive(s, s.rows[k].user, found)
    ensures var t := Step(c, s, Webhook(g, name, found)); var prior := Superseded(found, k);
      if MakesWay(c, s, prior) then
        && |t.rows| == |s.rows| && t.funded == s.funded && t.now == s.now
        && t.rows[k] == s.rows[k].(status := Active, start := s.now,
                                   end := s.now + c.plans[s.rows[k].plan].durationDays * 86400000)
        && (forall i :: 0 <= i < |s.rows| && i != k && prior != Some(i) ==> t.rows[i] == s.rows[i])
        && (prior.Some? ==> EndedNow(s.rows[prior.value], t.rows[prior.value], s.now))
        && t.credits == s.credits + RefundsFor(c, s, prior)
      else t == s
    ensures Succeeds(c, s, g, name, found) <==> MakesWay(c, s, Superseded(found, k))
  {
    NewestIsFound(s.rows, g, k);
    assert s.credits + [] == s.credits;
  }

  /** One credit for a positive refund, none otherwise. */
  function RefundsFor(c: Catalog, s: State, prior: Option<nat>): seq<Credit> {
    if prior.Some? && prior.value < |s.rows| && s.rows[prior.value].plan in c.plans then
      var x := s.rows[prior.value];
      var refund := RefundOf(x.start, x.end, c.plans[x.plan].price, s.now);
      if refund > 0 then [Credit(prior.value, refund)] else []
    else []
  }

  /** An activating name for a row that has expired or been cancelled is reported as a success and changes nothing. */
  lemma ExpiredIsNotRevived(c: Catalog, s: State, g: int, name: EventName, found: Option<nat>, k: nat)
    requires Activates(name) && IsNewest(s.rows, g, k) && (s.rows[k].status == Expired || s.rows[k].status == Cancelled)
    ensures Step(c, s, Webhook(g, name, found)) == s && Succeeds(c, s, g, name, found)
  {
    NewestIsFound(s.rows, g, k);
  }

  /** An activating name for a row of an unknown plan fails and changes nothing. */
  lemma UnknownPlanIsRefused(c: Catalog, s: State, g: int, name: EventName, found: Option<nat>, k: nat)
    requires Activates(name) && IsNewest(s.rows, g, k) && s.rows[k].plan !in c.plans
    requires s.rows[k].status == Pending || s.rows[k].status == PaymentFailed || s.rows[k].status == Active
    ensures Step(c, s, Webhook(g, name, found)) == s && !Succeeds(c, s, g, name, found)
  {
    NewestIsFound(s.rows, g, k);
  }

  /** Every webhook falls under one of the statements above. */
  lemma NamesAreCovered(name: EventName)
    ensures name == Unknown || name == StillPending || Ends(name) || Activates(name)
    ensures !(Ends(name) && Activates(name))
  {
  }

  /** The user has the plan already: a pending row, or an active one not past its end. */
  predicate HasIt(s: State, x: Subscription, user: UserId, plan: int) {
    x.user == user && x.plan == plan && (x.status == Pending || (x.status == Active && x.end > s.now))
  }

  /** A checkout adds one pending row for the plan's days exactly if the plan is for sale and the user does not have it. */
  lemma CheckoutOutcome(c: Catalog, s: State, user: UserId, plan: int, g: int)
    ensures Step(c, s, Checkout(user, plan, g))
         == if plan in c.plans && c.plans[plan].forSale && forall x <- s.rows :: !HasIt(s, x, user, plan)
            then s.(rows := s.rows + [Subscription(user, plan, Some(g), Pending,
                                                   s.now, s.now + c.plans[plan].durationDays * 86400000)])
            else s
  {
    if x :| x in s.rows && HasIt(s, x, user, plan) {
      var i :| 0 <= i < |s.rows| && s.rows[i] == x;
      assert HasPlan(s, user, plan);
    } else {
      assert forall i :: 0 <= i < |s.rows| ==> s.rows[i] in s.rows;
    }
  }
}
