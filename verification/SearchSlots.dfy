/** The guard that limits concurrent searches: a counting semaphore, a counter
    of searches in flight, and a peak that is raised by compare-and-swap. */
module SearchSlots {

  /** Where a search is in the life of its guard. */
  datatype Search =
    | Before
    | Acquired                          // has a permit
    | Counted(now: nat)                 // has raised the counter to now
    | Comparing(now: nat, observed: nat)
    | Running                           // the constructor is done
    | Leaving                           // has lowered the counter
    | After                             // has returned the permit

  /** best is the largest value of the counter that a search obtained so far. */
  datatype State = State(searches: seq<Search>, permits: nat, inFlight: nat, peak: nat, best: nat)

  /** A read of the peak may be stale: it returns some value that the peak has
      had.  A weak compare-and-swap may fail although the values agree. */
  datatype Action =
    | Acquire
    | Count
    | Load(seen: nat)
    | Pass
    | Swap
    | SwapFails(seen: nat)
    | Uncount
    | Release

  predicate Enabled(s: State, i: nat, a: Action)
  {
    i < |s.searches| &&
    var t := s.searches[i];
    match a
    case Acquire => t.Before? && s.permits > 0
    case Count => t.Acquired?
    case Load(seen) => t.Counted? && seen <= s.peak
    case Pass => t.Comparing? && t.now <= t.observed
    case Swap => t.Comparing? && t.now > t.observed && s.peak == t.observed
    case SwapFails(seen) => t.Comparing? && t.now > t.observed && seen <= s.peak
    case Uncount => t.Running? && s.inFlight > 0
    case Release => t.Leaving?
  }

  function Next(s: State, i: nat, a: Action): Search
    requires Enabled(s, i, a)
  {
    var t := s.searches[i];
    match a
    case Acquire => Acquired
    case Count => Counted(s.inFlight + 1)
    case Load(seen) => Comparing(t.now, seen)
    case Pass => Running
    case Swap => Running
    case SwapFails(seen) => Comparing(t.now, seen)
    case Uncount => Leaving
    case Release => After
  }

  function Step(s: State, i: nat, a: Action): State
    requires Enabled(s, i, a)
  {
    s.(searches := s.searches[i := Next(s, i, a)],
       permits := if a.Acquire? then s.permits - 1 else if a.Release? then s.permits + 1 else s.permits,
       inFlight := if a.Count? then s.inFlight + 1 else if a.Uncount? then s.inFlight - 1 else s.inFlight,
       peak := if a.Swap? then s.searches[i].now else s.peak,
       best := if a.Count? && s.inFlight + 1 > s.best then s.inFlight + 1 else s.best)
  }

  function Start(n: nat, cap: nat): State
  {
    State(seq(n, _ => Before), cap, 0, 0, 0)
  }

  /** Actions together with the searches that take them. */
  ghost predicate IsRun(n: nat, cap: nat, steps: seq<(nat, Action)>, s: State)
    decreases |steps|
  {
    if steps == [] then s == Start(n, cap)
    else
      var last := steps[|steps| - 1];
      exists t :: IsRun(n, cap, steps[..|steps| - 1], t) && Enabled(t, last.0, last.1) && s == Step(t, last.0, last.1)
  }

  // ----- counting -----

  function Holds(t: Search): nat
  {
    if t.Before? || t.After? then 0 else 1
  }

  function Flies(t: Search): nat
  {
    if t.Counted? || t.Comparing? || t.Running? then 1 else 0
  }

  /** Searches that hold a permit. */
  function Holders(searches: seq<Search>): nat
  {
    if searches == [] then 0 else Holds(searches[0]) + Holders(searches[1..])
  }

  /** Searches that are counted. */
  function Flying(searches: seq<Search>): nat
  {
    if searches == [] then 0 else Flies(searches[0]) + Flying(searches[1..])
  }

  lemma {:induction false} CountsUpdate(searches: seq<Search>, i: nat, t: Search)
    requires i < |searches|
    ensures Holders(searches[i := t]) + Holds(searches[i]) == Holders(searches) + Holds(t)
    ensures Flying(searches[i := t]) + Flies(searches[i]) == Flying(searches) + Flies(t)
  {
    hide Holds, Flies;
    var r := searches[i := t];
    if i == 0 {
      assert r[1..] == searches[1..];
    } else {
      CountsUpdate(searches[1..], i - 1, t);
      assert r[0] == searches[0] && r[1..] == searches[1..][i - 1 := t];
    }
  }

  lemma {:induction false} FlyingHold(searches: seq<Search>)
    ensures Flying(searches) <= Holders(searches)
  {
    if searches != [] { FlyingHold(searches[1..]); }
  }

  /** A search that has not raised the peak yet. */
  predicate Pending(t: Search)
  {
    t.Counted? || t.Comparing?
  }

  /** The peak has reached the largest value, or a search is about to raise it
      that far. */
  ghost predicate Covered(s: State)
  {
    s.best <= s.peak || exists i :: 0 <= i < |s.searches| && Pending(s.searches[i]) && s.searches[i].now == s.best
  }

  ghost predicate Inv(s: State, cap: nat)
  {
    && s.permits + Holders(s.searches) == cap && s.inFlight == Flying(s.searches)
    && s.peak <= s.best <= cap && Covered(s)
    && (forall i :: 0 <= i < |s.searches| && Pending(s.searches[i]) ==> s.searches[i].now <= s.best)
    && (forall i :: 0 <= i < |s.searches| && s.searches[i].Comparing? ==> s.searches[i].observed <= s.peak)
  }

  lemma {:induction false} CountsKept(s: State, i: nat, a: Action, cap: nat)
    requires Enabled(s, i, a) && s.permits + Holders(s.searches) == cap && s.inFlight == Flying(s.searches)
    ensures var r := Step(s, i, a);
      r.permits + Holders(r.searches) == cap && r.inFlight == Flying(r.searches) <= Holders(r.searches)
  {
    hide Holders, Flying;
    CountsUpdate(s.searches, i, Next(s, i, a));
    FlyingHold(Step(s, i, a).searches);
  }

  lemma {:induction false} PeakKept(s: State, i: nat, a: Action, cap: nat)
    requires Enabled(s, i, a) && Inv(s, cap) && Step(s, i, a).inFlight <= cap
    ensures var r := Step(s, i, a);
      && s.peak <= r.peak <= r.best <= cap && Covered(r)
      && (forall k :: 0 <= k < |r.searches| && Pending(r.searches[k]) ==> r.searches[k].now <= r.best)
      && (forall k :: 0 <= k < |r.searches| && r.searches[k].Comparing? ==> r.searches[k].observed <= r.peak)
  {
    hide Holders, Flying;
    var r := Step(s, i, a);
    forall k | 0 <= k < |r.searches| && k != i ensures r.searches[k] == s.searches[k] {}
    if r.best > r.peak {
      if a.Count? && r.best == s.inFlight + 1 {
        assert Pending(r.searches[i]) && r.searches[i].now == r.best;
      } else {
        var k :| 0 <= k < |s.searches| && Pending(s.searches[k]) && s.searches[k].now == s.best;
        assert Pending(r.searches[k]) && r.searches[k].now == r.best;
      }
    }
  }

  /** Every step keeps the invariant, and the peak never falls. */
  lemma {:induction false} StepKeeps(s: State, i: nat, a: Action, cap: nat)
    requires Enabled(s, i, a) && Inv(s, cap)
    ensures Inv(Step(s, i, a), cap) && s.peak <= Step(s, i, a).peak
  {
    hide Holders, Flying, Covered;
    CountsKept(s, i, a, cap);
    PeakKept(s, i, a, cap);
  }

  lemma {:induction false} NobodyYet(n: nat)
    ensures Holders(seq(n, _ => Before)) == 0 && Flying(seq(n, _ => Before)) == 0
  {
    if n > 0 {
      NobodyYet(n - 1);
      assert seq(n, _ => Before)[1..] == seq(n - 1, _ => Before);
    }
  }

  /** Over every interleaving of any number of searches. */
  lemma {:induction false} RunKeeps(n: nat, cap: nat, steps: seq<(nat, Action)>, s: State)
    requires IsRun(n, cap, steps, s)
    ensures Inv(s, cap)
    decreases |steps|
  {
    hide Inv, Step, Enabled;
    if steps == [] {
      StartHolds(n, cap);
    } else {
      var last, before := steps[|steps| - 1], steps[..|steps| - 1];
      var t :| IsRun(n, cap, before, t) && Enabled(t, last.0, last.1) && s == Step(t, last.0, last.1);
      RunKeeps(n, cap, before, t);
      StepKeeps(t, last.0, last.1, cap);
    }
  }

  lemma {:induction false} StartHolds(n: nat, cap: nat)
    ensures Inv(Start(n, cap), cap)
  {
    NobodyYet(n);
  }

  /** Permits and holders make up the cap; no more searches are in flight than
      hold a permit; and the peak stays within the cap. */
  lemma {:induction false} Limits(n: nat, cap: nat, steps: seq<(nat, Action)>, s: State)
    requires IsRun(n, cap, steps, s)
    ensures s.permits + Holders(s.searches) == cap
    ensures s.inFlight == Flying(s.searches) <= Holders(s.searches) <= cap
    ensures s.peak <= cap
  {
    RunKeeps(n, cap, steps, s);
    FlyingHold(s.searches);
  }

  /** Once every constructor is done, the peak is the largest value of the
      counter that any of them obtained, however many of the compare-and-swaps
      failed without cause. */
  lemma {:induction false} PeakIsBest(n: nat, cap: nat, steps: seq<(nat, Action)>, s: State)
    requires IsRun(n, cap, steps, s) && forall i :: 0 <= i < |s.searches| ==> !Pending(s.searches[i])
    ensures s.peak == s.best
  {
    RunKeeps(n, cap, steps, s);
  }

  /** A search is never kept from counting down. */
  lemma {:induction false} CounterIsPositive(n: nat, cap: nat, steps: seq<(nat, Action)>, s: State, i: nat)
    requires IsRun(n, cap, steps, s) && i < |s.searches| && s.searches[i].Running?
    ensures Enabled(s, i, Uncount)
  {
    RunKeeps(n, cap, steps, s);
    SomeoneFlies(s.searches, i);
  }

  /** A search gets a permit exactly while fewer than cap hold one. */
  lemma {:induction false} AcquireExactly(n: nat, cap: nat, steps: seq<(nat, Action)>, s: State, i: nat)
    requires IsRun(n, cap, steps, s) && i < |s.searches|
    ensures Enabled(s, i, Acquire) <==> s.searches[i].Before? && Holders(s.searches) < cap
  {
    RunKeeps(n, cap, steps, s);
  }

  /** As long as a search is not over, some search can move, and not only by a
      compare-and-swap that fails without cause. */
  lemma {:induction false} NoDeadlock(n: nat, cap: nat, steps: seq<(nat, Action)>, s: State, i: nat) returns (j: nat, a: Action)
    requires IsRun(n, cap, steps, s) && cap > 0 && i < |s.searches| && !s.searches[i].After?
    ensures Enabled(s, j, a) && (a.SwapFails? ==> s.searches[j].observed != s.peak)
  {
    hide IsRun;
    RunKeeps(n, cap, steps, s);
    if k :| 0 <= k < |s.searches| && Holds(s.searches[k]) == 1 {
      j := k;
      var t := s.searches[k];
      if t.Running? { SomeoneFlies(s.searches, k); }
      a := if t.Acquired? then Count
           else if t.Counted? then Load(s.peak)
           else if t.Comparing? then (if t.now <= t.observed then Pass else if s.peak == t.observed then Swap else SwapFails(s.peak))
           else if t.Running? then Uncount
           else Release;
    } else {
      NobodyHolds(s.searches);
      j, a := i, Acquire;
    }
  }

  lemma {:induction false} NobodyHolds(searches: seq<Search>)
    requires forall k :: 0 <= k < |searches| ==> Holds(searches[k]) != 1
    ensures Holders(searches) == 0
  {
    if searches != [] { NobodyHolds(searches[1..]); }
  }

  lemma {:induction false} SomeoneFlies(searches: seq<Search>, i: nat)
    requires i < |searches| && Flies(searches[i]) == 1
    ensures Flying(searches) > 0
  {
    if i > 0 { SomeoneFlies(searches[1..], i - 1); }
  }
}
