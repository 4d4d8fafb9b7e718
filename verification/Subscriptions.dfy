/**
 Subscriptions driven by gateway webhooks
 (src/application/usecases/webhook/razorpaySubscriptionWebhookHandler.usecase.ts,
 src/application/usecases/subscription/checkoutUserSubscription.usecase.ts).
 */
module Subscriptions {
  import opened Basics

  datatype Status = Pending | Active | Expired | Cancelled | PaymentFailed

  datatype Plan = Plan(price: real, durationDays: int, forSale: bool)

  /** The plans on offer and the active default plan, if there is one; fixed for a run. */
  datatype Catalog = Catalog(plans: map<int, Plan>, standard: Option<int>)

  datatype Subscription = Subscription(user: UserId, plan: int, gateway: Option<int>, status: Status, start: int, end: int)

  /** A pro-rated refund credited to a wallet for a superseded subscription. */
  datatype Credit = Credit(row: nat, amount: int)

  /** Rows in order of creation; `funded` are the users whose wallet can be credited. */
  datatype State = State(rows: seq<Subscription>, credits: seq<Credit>, funded: set<UserId>, now: int)

  datatype EventName =
    | Authenticated | Activated | Charged | Resumed | StillPending
    | Halted | CancelledByUser | Completed | PausedByUser | Unknown

  /** `found` is the repository's answer to "the current active row"; ties in the end date leave it a choice. */
  datatype Event =
    | Webhook(gateway: int, name: EventName, found: Option<nat>)
    | Checkout(user: UserId, plan: int, gateway: int)
    | Fund(user: UserId)
    | Tick(ms: nat)

  const DAY := 24 * 60 * 60 * 1000
  const REFUND_CUTOFF := 15 * DAY
  const INFINITE_END := 253402300799999

  // ----- repository reads -----

  /** `findByRazorpaySubscriptionId`: the newest row with this gateway id. */
  function ByGateway(rows: seq<Subscription>, g: int): (r: Option<nat>)
    ensures r.Some? ==> r.value < |rows| && rows[r.value].gateway == Some(g)
    ensures r.Some? ==> forall j :: r.value < j < |rows| ==> rows[j].gateway != Some(g)
    ensures r.None? ==> forall x <- rows :: x.gateway != Some(g)
  {
    if rows == [] then None
    else
      assert rows == Init(rows) + [Last(rows)];
      if Last(rows).gateway == Some(g) then Some(|rows| - 1) else ByGateway(Init(rows), g)
  }

  predicate Current(s: State, user: UserId, i: nat) {
    i < |s.rows| && s.rows[i].user == user && s.rows[i].status == Active && s.rows[i].end > s.now
  }

  /** `findCurrentActiveByUserId`: an active row not past its end, with the latest end. */
  predicate IsCurrentActive(s: State, user: UserId, found: Option<nat>) {
    match found
    case None => forall i :: 0 <= i < |s.rows| ==> !Current(s, user, i)
    case Some(i) => Current(s, user, i) && forall j :: 0 <= j < |s.rows| && Current(s, user, j) ==> s.rows[j].end <= s.rows[i].end
  }

  // ----- the handler -----

  function StatusFor(name: EventName): Option<Status> {
    match name
    case Authenticated => Some(Active)
    case Activated => Some(Active)
    case Charged => Some(Active)
    case Resumed => Some(Active)
    case StillPending => Some(Pending)
    case Halted => Some(Expired)
    case CancelledByUser => Some(Expired)
    case Completed => Some(Expired)
    case PausedByUser => Some(Expired)
    case Unknown => None
  }

  predicate MayActivate(s: Status) {
    s in {Pending, PaymentFailed, Active}
  }

  function RefundOf(start: int, end: int, price: real, now: int): int {
    if price <= 0.0 then 0
    else if end <= now then 0
    else if end - now <= REFUND_CUTOFF then 0
    else if end - start <= 0 then 0
    else Max(0, (price * ((end - now) as real / (end - start) as real)).Floor)
  }

  /** The refund due for row `i` if it is superseded now. */
  function RefundFor(c: Catalog, s: State, i: nat): int
    requires i < |s.rows| && s.rows[i].plan in c.plans
  {
    RefundOf(s.rows[i].start, s.rows[i].end, c.plans[s.rows[i].plan].price, s.now)
  }

  /** Can row `i` be superseded: its plan is known, and the wallet is there if a refund is due. */
  predicate CanSupersede(c: Catalog, s: State, i: nat)
    requires i < |s.rows|
  {
    s.rows[i].plan in c.plans && (RefundFor(c, s, i) > 0 ==> s.rows[i].user in s.funded)
  }

  function ExpiredRow(x: Subscription, now: int): Subscription {
    x.(status := Expired, end := now)
  }

  function Supersede(c: Catalog, s: State, i: nat): State
    requires i < |s.rows| && CanSupersede(c, s, i)
  {
    s.(rows := s.rows[i := ExpiredRow(s.rows[i], s.now)],
       credits := if RefundFor(c, s, i) > 0 then s.credits + [Credit(i, RefundFor(c, s, i))] else s.credits)
  }

  function ActiveRow(x: Subscription, days: int, now: int): Subscription {
    x.(status := Active, start := now, end := now + days * DAY)
  }

  function DoActivate(c: Catalog, s: State, k: nat, found: Option<nat>): State
    requires k < |s.rows| && s.rows[k].plan in c.plans
  {
    var days := c.plans[s.rows[k].plan].durationDays;
    if found.Some? && found.value != k && found.value < |s.rows| then
      if !CanSupersede(c, s, found.value) then s
      else
        var t := Supersede(c, s, found.value);
        t.(rows := t.rows[k := ActiveRow(t.rows[k], days, s.now)])
    else
      s.(rows := s.rows[k := ActiveRow(s.rows[k], days, s.now)])
  }

  /** Expiry falls back to the default plan; without one it reports success and saves nothing. */
  function DoExpire(c: Catalog, s: State, k: nat): State
    requires k < |s.rows|
  {
    if c.standard.None? then s
    else
      var standby := Subscription(s.rows[k].user, c.standard.value, None, Active, s.now, INFINITE_END);
      s.(rows := s.rows[k := ExpiredRow(s.rows[k], s.now)] + [standby])
  }

  function DoWebhook(c: Catalog, s: State, g: int, name: EventName, found: Option<nat>): State {
    match ByGateway(s.rows, g)
    case None => s
    case Some(k) =>
      match StatusFor(name)
      case None => s
      case Some(to) =>
        if to == Active && !MayActivate(s.rows[k].status) then s
        else if s.rows[k].plan !in c.plans then s
        else if to == Active then
          if IsCurrentActive(s, s.rows[k].user, found) then DoActivate(c, s, k, found) else s
        else if to == Expired then DoExpire(c, s, k)
        else s
  }

  /**
   What the handler reports. An activation of a row that may not be activated is reported as a success, before its plan
   is even looked up, and so is an expiry without a default plan.
   */
  predicate Succeeds(c: Catalog, s: State, g: int, name: EventName, found: Option<nat>) {
    var k := ByGateway(s.rows, g);
    && k.Some? && StatusFor(name).Some?
    && (|| (StatusFor(name).value == Active && !MayActivate(s.rows[k.value].status))
        || (&& s.rows[k.value].plan in c.plans
            && (StatusFor(name).value == Active && found.Some? && found.value != k.value ==>
                  found.value < |s.rows| && CanSupersede(c, s, found.value))))
  }

  /** A checkout adds a pending row unless the user already has the plan, active or pending. */
  predicate HasPlan(s: State, user: UserId, plan: int) {
    exists i :: 0 <= i < |s.rows| && s.rows[i].user == user && s.rows[i].plan == plan
      && (s.rows[i].status == Pending || (s.rows[i].status == Active && s.rows[i].end > s.now))
  }

  function DoCheckout(c: Catalog, s: State, user: UserId, plan: int, g: int): State {
    if HasPlan(s, user, plan) || plan !in c.plans || !c.plans[plan].forSale then s
    else s.(rows := s.rows + [Subscription(user, plan, Some(g), Pending, s.now, s.now + c.plans[plan].durationDays * DAY)])
  }

  function Step(c: Catalog, s: State, e: Event): State {
    match e
    case Webhook(g, name, found) => DoWebhook(c, s, g, name, found)
    case Checkout(u, p, g) => DoCheckout(c, s, u, p, g)
    case Fund(u) => s.(funded := s.funded + {u})
    case Tick(ms) => s.(now := s.now + ms)
  }

  function Run(c: Catalog, s: State, es: seq<Event>): State
    decreases |es|
  {
    if es == [] then s else Run(c, Step(c, s, es[0]), es[1..])
  }

  // ----- the handler in the source's form -----

  class SubscriptionEntity {
    const loaded: Subscription
    var status: Status
    var start: int
    var end: int

    constructor (row: Subscription)
      ensures Row() == row
    {
      loaded := row;
      status, start, end := row.status, row.start, row.end;
    }

    function Row(): Subscription
      reads this
    {
      loaded.(status := status, start := start, end := end)
    }

    method SetStatus(to: Status)
      modifies this`status
      ensures Row() == old(Row()).(status := to)
    {
      status := to;
    }

    method SetStart(at: int)
      modifies this`start
      ensures Row() == old(Row()).(start := at)
    {
      start := at;
    }

    method SetEnd(at: int)
      modifies this`end
      ensures Row() == old(Row()).(end := at)
    {
      end := at;
    }
  }

  class WebhookHandler {
    const catalog: Catalog
    var rows: seq<Subscription>
    var credits: seq<Credit>
    var funded: set<UserId>
    var now: int

    constructor (c: Catalog, s: State)
      ensures catalog == c && Snapshot() == s
    {
      catalog := c;
      rows, credits, funded, now := s.rows, s.credits, s.funded, s.now;
    }

    function Snapshot(): State
      reads this
    {
      State(rows, credits, funded, now)
    }

    /** `ok` is the reported result; success is also reported for events that are ignored. */
    method Handle(g: int, name: EventName, found: Option<nat>) returns (ok: bool)
      requires forall k :: ByGateway(rows, g) == Some(k) ==> IsCurrentActive(Snapshot(), rows[k].user, found)
      modifies this`rows, this`credits
      ensures Snapshot() == DoWebhook(catalog, old(Snapshot()), g, name, found)
      ensures ok <==> Succeeds(catalog, old(Snapshot()), g, name, found)
      ensures !ok ==> Snapshot() == old(Snapshot())
    {
      var pending := ByGateway(rows, g);
      if pending.None? {
        return false;
      }
      var k := pending.value;
      var to := StatusFor(name);
      if to.None? {
        return false;
      }
      if to.value == Active && !MayActivate(rows[k].status) {
        return true;
      }
      if rows[k].plan !in catalog.plans {
        return false;
      }
      if to.value == Active {
        ok := Activate(k, found);
      } else if to.value == Expired {
        Expire(k);
        ok := true;
      } else {
        ok := true;
      }
    }

    /** Supersede the current active row, if it is another one, and start the period. */
    method Activate(k: nat, found: Option<nat>) returns (ok: bool)
      requires k < |rows| && rows[k].plan in catalog.plans && (found.Some? ==> found.value < |rows|)
      modifies this`rows, this`credits
      ensures Snapshot() == DoActivate(catalog, old(Snapshot()), k, found)
      ensures ok <==> (found.Some? && found.value != k ==> CanSupersede(catalog, old(Snapshot()), found.value))
      ensures !ok ==> Snapshot() == old(Snapshot())
    {
      var entity := new SubscriptionEntity(rows[k]);
      if found.Some? && found.value != k {
        ok := ExpireOld(found.value);
        if !ok {
          return;
        }
      }
      entity.SetStatus(Active);
      entity.SetStart(now);
      entity.SetEnd(now + catalog.plans[rows[k].plan].durationDays * DAY);
      rows := rows[k := entity.Row()];
      ok := true;
    }

    /** Without a default plan the changed entity is dropped; otherwise the default row is saved first. */
    method Expire(k: nat)
      requires k < |rows|
      modifies this`rows
      ensures Snapshot() == DoExpire(catalog, old(Snapshot()), k)
    {
      var entity := new SubscriptionEntity(rows[k]);
      entity.SetStatus(Expired);
      entity.SetEnd(now);
      if catalog.standard.None? {
        return;
      }
      rows := rows + [Subscription(rows[k].user, catalog.standard.value, None, Active, now, INFINITE_END)];
      rows := rows[k := entity.Row()];
    }

    /** Refund, then expire the row being superseded. */
    method ExpireOld(i: nat) returns (ok: bool)
      requires i < |rows|
      modifies this`rows, this`credits
      ensures ok <==> CanSupersede(catalog, old(Snapshot()), i)
      ensures Snapshot() == if ok then Supersede(catalog, old(Snapshot()), i) else old(Snapshot())
    {
      if rows[i].plan !in catalog.plans {
        return false;
      }
      var refund := RefundOf(rows[i].start, rows[i].end, catalog.plans[rows[i].plan].price, now);
      if refund > 0 {
        if rows[i].user !in funded {
          return false;
        }
        credits := credits + [Credit(i, refund)];
      }
      var entity := new SubscriptionEntity(rows[i]);
      entity.SetStatus(Expired);
      entity.SetEnd(now);
      rows := rows[i := entity.Row()];
      return true;
    }
  }
}
