/** The states an auction can be in: everything some run from a fresh draft arrives at. */
module LifecycleReachable {
  import opened Basics
  import opened Auctions
  import opened Bidding
  import opened Lifecycle
  import opened LifecycleInvariant

  ghost predicate Reachable(cfg: Config, s: State) {
    exists draft, es: seq<Event> :: Fresh(draft) && s == Run(cfg, draft, es)
  }

  lemma RunIsReachable(cfg: Config, draft: State, es: seq<Event>)
    requires Fresh(draft)
    ensures Reachable(cfg, Run(cfg, draft, es))
  {
  }

  lemma {:induction false} RunAppend(cfg: Config, s: State, a: seq<Event>, b: seq<Event>)
    ensures Run(cfg, s, a + b) == Run(cfg, Run(cfg, s, a), b)
    decreases |a|
  {
    if a == [] {
      assert a + b == b;
    } else {
      RunAppend(cfg, Step(cfg, s, a[0]), a[1..], b);
      assert (a + b)[1..] == a[1..] + b;
    }
  }

  lemma RunOfOne(cfg: Config, s: State, e: Event)
    ensures Run(cfg, s, [e]) == Step(cfg, s, e)
  {
    assert [e][1..] == [];
  }

  lemma StepIsReachable(cfg: Config, s: State, e: Event)
    requires Reachable(cfg, s)
    ensures Reachable(cfg, Step(cfg, s, e))
  {
    var draft, es: seq<Event> :| Fresh(draft) && s == Run(cfg, draft, es);
    RunAppend(cfg, draft, es, [e]);
    RunOfOne(cfg, s, e);
    assert Step(cfg, s, e) == Run(cfg, draft, es + [e]);
  }

  /** The invariant holds in every reachable state. */
  lemma ReachableIsInv(cfg: Config, s: State)
    requires Reachable(cfg, s)
    ensures Inv(cfg, s)
  {
    var draft, es: seq<Event> :| Fresh(draft) && s == Run(cfg, draft, es);
    FreshIsInv(cfg, draft);
    RunKeepsInv(cfg, draft, es);
  }

  lemma ReachableShape(cfg: Config, s: State)
    requires Reachable(cfg, s)
    ensures Shape(s) && Money(cfg, s)
  {
    ReachableIsInv(cfg, s);
  }

  lemma ReachableRows(cfg: Config, s: State)
    requires Reachable(cfg, s)
    ensures Sound(BookOf(s), s.now) && RowsFit(cfg, s)
  {
    ReachableIsInv(cfg, s);
  }
}
