/** What the buffer/resolve protocol promises, for every schedule. */
module PendingGuarantees {
  import opened PendingProtocol

  // ------------------------------------------------------------ no stranded entry

  lemma {:induction false} StepPastSpin(s: State, a: Action)
    requires Control(s) && PastSpin(s.resolver) && (s.resolver == Resolved ==> s.ring.buffer == [])
    ensures PastSpin(Step(s, a).resolver) && Step(s, a).ring.pushed == s.ring.pushed
    ensures s.resolver == Resolved ==> Step(s, a).resolver == Resolved && Step(s, a).ring == s.ring
  {
    match a
    case Run(t) => if t < |s.appends| { assert s.appends[t] != Push; }
    case _ =>
  }

  lemma {:induction false} NothingPushedPastSpin(s: State, acts: seq<Action>)
    requires Inv(s) && PastSpin(s.resolver)
    ensures PastSpin(After(s, acts).resolver)
    ensures After(s, acts).ring.pushed == s.ring.pushed
    ensures s.resolver == Resolved ==> After(s, acts).resolver == Resolved && After(s, acts).ring == s.ring
  {
    if acts != [] {
      var init := acts[..|acts| - 1];
      NothingPushedPastSpin(s, init);
      RunKeepsInv(s, init);
      StepPastSpin(After(s, init), acts[|acts| - 1]);
    }
  }

  /** Once the spin loop has seen `buffering == 0` no later step pushes; once `resolve` has
      returned the ring buffer is empty and stays empty. */
  lemma {:induction false} NoStrandedEntry(capacity: nat, acts: seq<Action>, more: seq<Action>)
    requires capacity > 0
    requires PastSpin(After(Init(capacity), acts).resolver)
    ensures After(Init(capacity), acts + more).ring.pushed == After(Init(capacity), acts).ring.pushed
    ensures After(Init(capacity), acts).resolver == Resolved ==>
              && After(Init(capacity), acts).ring.buffer == []
              && After(Init(capacity), acts + more).ring.buffer == []
  {
    var s := After(Init(capacity), acts);
    EveryRunIsSafe(capacity, acts);
    AfterConcat(Init(capacity), acts, more);
    NothingPushedPastSpin(s, more);
  }

  // ------------------------------------------------------------ exactly once

  ghost predicate AllFinished(s: State) {
    forall t :: 0 <= t < |s.appends| ==> s.appends[t] == Finished
  }

  function DeliveredTimes(s: State, e: nat): nat {
    Occurs(Entries(s.delivered), e)
  }

  /** After a resolved run an entry has reached the sink exactly once, or it was evicted,
      and never both. */
  lemma {:induction false} DeliveredOnceUnlessEvicted(capacity: nat, acts: seq<Action>, e: nat)
    requires capacity > 0
    requires After(Init(capacity), acts).resolver == Resolved
    requires AllFinished(After(Init(capacity), acts))
    ensures var s := After(Init(capacity), acts);
            DeliveredTimes(s, e) + Occurs(s.ring.evicted, e) == if e < |s.appends| then 1 else 0
  {
    EveryRunIsSafe(capacity, acts);
    var s := After(Init(capacity), acts);
    assert Places(s, e) == if e < |s.appends| then 1 else 0;
    assert s.discarded == [];
  }

  /** With room for everything that was pushed, nothing is lost and nothing is sent twice. */
  lemma {:induction false} ExactlyOnce(capacity: nat, acts: seq<Action>, e: nat)
    requires capacity > 0
    requires After(Init(capacity), acts).resolver == Resolved
    requires AllFinished(After(Init(capacity), acts))
    requires |After(Init(capacity), acts).ring.pushed| <= capacity
    ensures var s := After(Init(capacity), acts);
            DeliveredTimes(s, e) == if e < |s.appends| then 1 else 0
  {
    DeliveredOnceUnlessEvicted(capacity, acts, e);
    EveryRunIsSafe(capacity, acts);
    CapacityFixed(Init(capacity), acts);
  }

  lemma {:induction false} CapacityFixed(s: State, acts: seq<Action>)
    ensures After(s, acts).ring.capacity == s.ring.capacity
  {
    if acts != [] {
      CapacityFixed(s, acts[..|acts| - 1]);
    }
  }

  lemma {:induction false} StaysDropped(s: State, acts: seq<Action>)
    requires Inv(s) && s.resolver == Dropped
    ensures After(s, acts).resolver == Dropped
  {
    if acts != [] {
      StaysDropped(s, acts[..|acts| - 1]);
    }
  }

  /** If the resolver is dropped instead, the sink never receives anything. */
  lemma {:induction false} DroppedDeliversNothing(capacity: nat, acts: seq<Action>, more: seq<Action>)
    requires capacity > 0
    requires After(Init(capacity), acts).resolver == Dropped
    ensures After(Init(capacity), acts + more).delivered == []
  {
    EveryRunIsSafe(capacity, acts);
    EveryRunIsSafe(capacity, acts + more);
    AfterConcat(Init(capacity), acts, more);
    StaysDropped(After(Init(capacity), acts), more);
  }

  // ------------------------------------------------------------ drop-oldest

  /** Before the drain the ring buffer holds the last min(capacity, n) of the n pushes, in
      push order, and exactly the earlier ones were evicted. */
  lemma {:induction false} BufferHoldsNewest(capacity: nat, acts: seq<Action>)
    requires capacity > 0 && !PastSpin(After(Init(capacity), acts).resolver)
    ensures var r := After(Init(capacity), acts).ring;
            var cut := Excess(|r.pushed|, capacity);
            r.evicted == r.pushed[..cut] && r.buffer == r.pushed[cut..]
  {
    EveryRunIsSafe(capacity, acts);
    CapacityFixed(Init(capacity), acts);
    var s := After(Init(capacity), acts);
    OrderBeforeDrain(s.ring, s.delivered, s.resolver);
  }

  lemma {:induction false} OrderBeforeDrain(r: Ring, delivered: seq<Delivery>, resolver: Resolver)
    requires InOrder(r, delivered, resolver) && !PastSpin(resolver)
    ensures var cut := Excess(|r.pushed|, r.capacity);
            r.evicted == r.pushed[..cut] && r.buffer == r.pushed[cut..]
  {
    var none: seq<nat> := [];
    assert Held(resolver) == none && DrainedOf(delivered) == none;
    assert r.evicted + none + none + r.buffer == r.evicted + r.buffer;
  }

  lemma {:induction false} OrderAfterDrain(r: Ring, delivered: seq<Delivery>)
    requires InOrder(r, delivered, Resolved)
    ensures DrainedOf(delivered) == r.pushed[Excess(|r.pushed|, r.capacity)..]
  {
    assert r.evicted + DrainedOf(delivered) + [] + [] == r.evicted + DrainedOf(delivered);
  }

  /** What `resolve` drained is exactly the last min(capacity, n) pushes, in push order. */
  lemma {:induction false} DrainsNewestInOrder(capacity: nat, acts: seq<Action>)
    requires capacity > 0 && After(Init(capacity), acts).resolver == Resolved
    ensures var s := After(Init(capacity), acts);
            DrainedOf(s.delivered) == s.ring.pushed[Excess(|s.ring.pushed|, capacity)..]
  {
    EveryRunIsSafe(capacity, acts);
    CapacityFixed(Init(capacity), acts);
    var s := After(Init(capacity), acts);
    OrderAfterDrain(s.ring, s.delivered);
  }

  /** The buffer never outgrows its capacity, and only a full buffer evicts. */
  lemma {:induction false} EvictsOnlyWhenFull(capacity: nat, acts: seq<Action>, a: Action)
    requires capacity > 0
    ensures |After(Init(capacity), acts).ring.buffer| <= capacity
    ensures Step(After(Init(capacity), acts), a).ring.evicted != After(Init(capacity), acts).ring.evicted ==>
              |After(Init(capacity), acts).ring.buffer| == capacity
  {
    EveryRunIsSafe(capacity, acts);
    CapacityFixed(Init(capacity), acts);
    var s := After(Init(capacity), acts);
    BufferFits(s.ring, s.delivered, s.resolver);
    EvictionNeedsFull(s, a);
  }

  lemma {:induction false} EvictionNeedsFull(s: State, a: Action)
    ensures Step(s, a).ring.evicted == s.ring.evicted || |s.ring.buffer| >= s.ring.capacity
  {
  }

  lemma {:induction false} BufferFits(r: Ring, delivered: seq<Delivery>, resolver: Resolver)
    requires InOrder(r, delivered, resolver)
    ensures |r.buffer| <= r.capacity
  {
    assert |r.pushed| == |r.evicted| + |DrainedOf(delivered)| + |Held(resolver)| + |r.buffer|;
  }

  // ------------------------------------------------------------ the spin loop ends

  /** How many more accesses an append that read the slot as empty makes before it is out
      of the way, once the slot is set. */
  function Remaining(p: Phase): nat {
    match p
    case CancelCheck => 4
    case Increment => 3
    case Recheck => 2
    case Push => 2
    case Release => 1
    case Decrement => 1
    case FirstCheck => 0
    case Forward => 0
    case Finished => 0
  }

  function Turns(acts: seq<Action>, a: Action): nat {
    if acts == [] then 0 else Turns(acts[..|acts| - 1], a) + if acts[|acts| - 1] == a then 1 else 0
  }

  lemma {:induction false} StepRunsDown(s: State, a: Action, t: nat)
    requires Control(s) && s.sink && t < |s.appends|
    ensures t < |Step(s, a).appends| && Step(s, a).sink
    ensures Remaining(Step(s, a).appends[t])
         == if a == Run(t) && Remaining(s.appends[t]) > 0 then Remaining(s.appends[t]) - 1 else Remaining(s.appends[t])
  {
    match a
    case Run(u) => if u == t { assert !s.cancelled; }
    case _ =>
  }

  /** Every turn of such an append uses up one of its remaining accesses, whatever else is
      scheduled in between. */
  lemma {:induction false} TurnsRunDown(s: State, acts: seq<Action>, t: nat)
    requires Inv(s) && s.sink && t < |s.appends|
    ensures After(s, acts).sink && t < |After(s, acts).appends|
    ensures Remaining(After(s, acts).appends[t]) == Excess(Remaining(s.appends[t]), Turns(acts, Run(t)))
  {
    if acts != [] {
      var last := |acts| - 1;
      TurnsRunDown(s, acts[..last], t);
      RunKeepsInv(s, acts[..last]);
      StepRunsDown(After(s, acts[..last]), acts[last], t);
    }
  }

  lemma {:induction false} NewcomerStaysOut(s: State, a: Action, t: nat)
    requires Control(s) && s.sink && t < |Step(s, a).appends|
    requires t < |s.appends| ==> Remaining(s.appends[t]) == 0
    ensures Remaining(Step(s, a).appends[t]) == 0
  {
    if t < |s.appends| {
      StepRunsDown(s, a, t);
    }
  }

  /** Appends started after the slot was set never come near the counter. */
  lemma {:induction false} NewcomersStayOut(s: State, acts: seq<Action>, t: nat)
    requires Inv(s) && s.sink && |s.appends| <= t < |After(s, acts).appends|
    ensures After(s, acts).sink && Remaining(After(s, acts).appends[t]) == 0
  {
    var last := |acts| - 1;
    var mid := After(s, acts[..last]);
    RunKeepsInv(s, acts[..last]);
    SinkStays(s, acts[..last]);
    SinkStays(s, acts);
    if t < |mid.appends| {
      NewcomersStayOut(s, acts[..last], t);
    }
    NewcomerStaysOut(mid, acts[last], t);
  }

  lemma {:induction false} SinkStays(s: State, acts: seq<Action>)
    requires s.sink
    ensures After(s, acts).sink
  {
    if acts != [] {
      SinkStays(s, acts[..|acts| - 1]);
    }
  }

  /** The sink is set and no append that read it as empty is still on its way. */
  ghost predicate Quiet(s: State) {
    s.sink && forall t :: 0 <= t < |s.appends| ==> Remaining(s.appends[t]) == 0
  }

  lemma {:induction false} NobodyCounted(ps: seq<Phase>)
    requires forall t :: 0 <= t < |ps| ==> Remaining(ps[t]) == 0
    ensures CountedAppends(ps) == 0
  {
    if ps != [] {
      NobodyCounted(ps[..|ps| - 1]);
    }
  }

  /** A schedule is fair to the spin loop if each append call that read the slot as empty gets
      as many turns as it has accesses left: at most four, and none once it has finished. */
  ghost predicate Fair(s: State, acts: seq<Action>) {
    forall t: nat :: t < |s.appends| ==> Turns(acts, Run(t)) >= Remaining(s.appends[t])
  }

  /** The counter is held up no more exactly after the fair schedules. */
  lemma {:induction false} FairMakesQuiet(s: State, acts: seq<Action>)
    requires Inv(s) && s.sink
    ensures Quiet(After(s, acts)) <==> Fair(s, acts)
  {
    SinkStays(s, acts);
    forall t: nat | t < |s.appends|
      ensures t < |After(s, acts).appends|
      ensures Remaining(After(s, acts).appends[t]) == 0 <==> Turns(acts, Run(t)) >= Remaining(s.appends[t])
    {
      TurnsRunDown(s, acts, t);
    }
    forall t | |s.appends| <= t < |After(s, acts).appends|
      ensures Remaining(After(s, acts).appends[t]) == 0
    {
      NewcomersStayOut(s, acts, t);
    }
  }

  lemma {:induction false} QuietStays(s: State, a: Action)
    requires Inv(s) && Quiet(s)
    ensures Quiet(Step(s, a)) && s.buffering == 0
  {
    NobodyCounted(s.appends);
    forall t | 0 <= t < |Step(s, a).appends| ensures Remaining(Step(s, a).appends[t]) == 0 {
      if t < |s.appends| {
        StepRunsDown(s, a, t);
      }
    }
  }

  /** Resolver accesses left once the counter no longer holds it up: a last look at the
      counter, a pop and a delivery for each buffered entry, and a pop that finds none. */
  function ResolverWork(s: State): nat {
    match s.resolver
    case Holding => 2 * |s.ring.buffer| + 3
    case Spinning => 2 * |s.ring.buffer| + 2
    case Draining => 2 * |s.ring.buffer| + 1
    case Handing(_) => 2 * |s.ring.buffer| + 2
    case Resolved => 0
    case Dropped => 0
  }

  lemma {:induction false} ResolverProgress(s: State, a: Action)
    requires Inv(s) && Quiet(s)
    ensures ResolverWork(Step(s, a)) == if a == Resolve then Excess(ResolverWork(s), 1) else ResolverWork(s)
  {
    QuietStays(s, a);
    match a
    case Run(t) => if t < |s.appends| { assert s.appends[t] != Push; }
    case _ =>
  }

  lemma {:induction false} ResolverRunsDown(s: State, acts: seq<Action>)
    requires Inv(s) && Quiet(s)
    ensures Quiet(After(s, acts))
    ensures ResolverWork(After(s, acts)) == Excess(ResolverWork(s), Turns(acts, Resolve))
  {
    if acts != [] {
      var last := |acts| - 1;
      ResolverRunsDown(s, acts[..last]);
      RunKeepsInv(s, acts[..last]);
      ResolverProgress(After(s, acts[..last]), acts[last]);
      QuietStays(After(s, acts[..last]), acts[last]);
    }
  }

  lemma {:induction false} ResolverEnds(s: State, rest: seq<Action>)
    requires Inv(s) && Quiet(s)
    ensures After(s, rest).resolver == Resolved <==> Turns(rest, Resolve) >= ResolverWork(s)
  {
    ResolverRunsDown(s, rest);
    RunKeepsInv(s, rest);
    assert After(s, rest).sink;
  }

  lemma {:induction false} WorkIsBounded(s: State)
    requires Inv(s) && Quiet(s)
    ensures ResolverWork(s) <= 2 * s.ring.capacity + 2
  {
    BufferFits(s.ring, s.delivered, s.resolver);
  }

  /** `resolve` terminates under fair scheduling. Once the slot is set and every append call
      that read it as empty has had its turns, `resolve` returns exactly when it has had as many
      turns as it has accesses left, never more than 2 * capacity + 2, however the turns are
      interleaved and however many new appends arrive. */
  lemma {:induction false} ResolveReturns(capacity: nat, acts: seq<Action>, fair: seq<Action>, rest: seq<Action>)
    requires capacity > 0 && After(Init(capacity), acts).sink
    requires Fair(After(Init(capacity), acts), fair)
    ensures var work := ResolverWork(After(Init(capacity), acts + fair));
            && work <= 2 * capacity + 2
            && (After(Init(capacity), acts + fair + rest).resolver == Resolved <==> Turns(rest, Resolve) >= work)
  {
    var s := After(Init(capacity), acts);
    EveryRunIsSafe(capacity, acts);
    var t := After(s, fair);
    RunKeepsInv(s, fair);
    FairMakesQuiet(s, fair);
    AfterConcat(Init(capacity), acts, fair);
    AfterConcat(Init(capacity), acts + fair, rest);
    CapacityFixed(Init(capacity), acts + fair);
    WorkIsBounded(t);
    ResolverEnds(t, rest);
  }
}
