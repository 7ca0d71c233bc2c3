/**
  The pending sink itself: `append`, `resolve` and `Drop` in the order the code makes its
  accesses, with any number of steps of other threads between two accesses.  Each method
  is shown to be a schedule of the protocol's atomic steps.
 */
module PendingSink {
  import opened PendingProtocol
  import opened PendingGuarantees

  /** Steps of append calls other than `mine`, and of newly entered ones. */
  ghost predicate OnlyOthers(acts: seq<Action>, mine: set<nat>) {
    forall i :: 0 <= i < |acts| ==> acts[i] == Begin || (acts[i].Run? && acts[i].t !in mine)
  }

  lemma {:induction false} OthersLeaveAlone(s: State, acts: seq<Action>, mine: set<nat>)
    requires OnlyOthers(acts, mine)
    ensures After(s, acts).resolver == s.resolver && After(s, acts).cancelled == s.cancelled
    ensures After(s, acts).sink == s.sink
    ensures forall t: nat :: t in mine && t < |s.appends| ==>
              t < |After(s, acts).appends| && After(s, acts).appends[t] == s.appends[t]
  {
    if acts != [] {
      OthersLeaveAlone(s, acts[..|acts| - 1], mine);
    }
  }

  /** Steps of anybody, the resolver included, except append call `t`. */
  ghost predicate AnyoneBut(acts: seq<Action>, t: nat) {
    forall i :: 0 <= i < |acts| ==> acts[i] != Run(t)
  }

  /** What no step takes back: a set slot, a dropped resolver, and the records of pushes,
      deliveries and discarded entries. */
  ghost predicate Grown(s: State, s': State) {
    && (s.sink ==> s'.sink)
    && (s.cancelled ==> s'.cancelled)
    && s.ring.pushed <= s'.ring.pushed
    && s.delivered <= s'.delivered
    && s.discarded <= s'.discarded
  }

  lemma {:induction false} StepGrows(s: State, a: Action)
    ensures Grown(s, Step(s, a))
  {
  }

  lemma {:induction false} StepLeavesAlone(s: State, a: Action, t: nat)
    requires t < |s.appends| && a != Run(t)
    ensures t < |Step(s, a).appends| && Step(s, a).appends[t] == s.appends[t]
  {
  }

  lemma {:induction false} AnyoneLeavesAlone(s: State, acts: seq<Action>, t: nat)
    requires AnyoneBut(acts, t) && t < |s.appends|
    ensures Grown(s, After(s, acts))
    ensures t < |After(s, acts).appends| && After(s, acts).appends[t] == s.appends[t]
  {
    if acts != [] {
      var init, last := acts[..|acts| - 1], acts[|acts| - 1];
      AnyoneLeavesAlone(s, init, t);
      StepGrows(After(s, init), last);
      StepLeavesAlone(After(s, init), last, t);
    }
  }

  /** The race is real: an append reads the slot as empty, the resolver sets it, and the
      second look finds it set. */
  lemma {:induction false} SecondLookFindsTheSink(capacity: nat, t: nat)
    requires capacity > 0 && t == 0
    ensures After(Init(capacity), [Begin] + [Run(t)] + [Run(t)] + [Run(t)] + [Action.Resolve] + [Run(t)]).appends == [Release]
  {
    var s := Init(capacity);
    var looked := [Begin] + [Run(t)];
    var counted := looked + [Run(t)] + [Run(t)];
    AfterOne(s, [], Begin);
    assert [] + [Begin] == [Begin];
    assert After(s, [Begin]) == s.(appends := [FirstCheck]);
    AfterOne(s, [Begin], Run(t));
    assert After(s, looked) == s.(appends := [CancelCheck]);
    AfterOne(s, looked, Run(t));
    AfterOne(s, looked + [Run(t)], Run(t));
    assert After(s, counted) == s.(appends := [Recheck], buffering := 1);
    AfterOne(s, counted, Action.Resolve);
    AfterOne(s, counted + [Action.Resolve], Run(t));
  }

  /** How often append call `t` handed its entry straight to the sink. */
  function ForwardedTimes(ds: seq<Delivery>, t: nat): nat {
    if ds == [] then 0 else ForwardedTimes(ds[..|ds| - 1], t) + if ds[|ds| - 1] == Forwarded(t) then 1 else 0
  }

  lemma {:induction false} EntriesSplit(ds: seq<Delivery>, t: nat)
    ensures Occurs(Entries(ds), t) == Occurs(DrainedOf(ds), t) + ForwardedTimes(ds, t)
  {
    if ds != [] {
      var init, d := ds[..|ds| - 1], ds[|ds| - 1];
      EntriesSplit(init, t);
      assert ds == init + [d];
      DeliverOne(init, d);
      OccursSnoc(Entries(init), d.entry, t);
      if d.Drained? { OccursSnoc(DrainedOf(init), d.entry, t); }
      else { assert DrainedOf(init) + [] == DrainedOf(init); }
    } else {
      assert Entries(ds) == [];
    }
  }

  lemma {:induction false} OccursConcat(xs: seq<nat>, ys: seq<nat>, e: nat)
    ensures Occurs(xs + ys, e) == Occurs(xs, e) + Occurs(ys, e)
  {
    if ys == [] { assert xs + ys == xs; }
    else {
      assert (xs + ys)[..|xs + ys| - 1] == xs + ys[..|ys| - 1];
      OccursConcat(xs, ys[..|ys| - 1], e);
    }
  }

  lemma {:induction false} PushedSplit(ring: Ring, delivered: seq<Delivery>, r: Resolver, e: nat)
    requires InOrder(ring, delivered, r)
    ensures Occurs(ring.pushed, e)
         == Occurs(ring.evicted, e) + Occurs(DrainedOf(delivered), e) + Occurs(Held(r), e) + Occurs(ring.buffer, e)
  {
    OccursConcat(ring.evicted, DrainedOf(delivered), e);
    OccursConcat(ring.evicted + DrainedOf(delivered), Held(r), e);
    OccursConcat(ring.evicted + DrainedOf(delivered) + Held(r), ring.buffer, e);
  }

  /** How often entry `t` was pushed, forwarded or discarded. */
  function Fates(s: State, t: nat): nat {
    Occurs(s.ring.pushed, t) + ForwardedTimes(s.delivered, t) + Occurs(s.discarded, t)
  }

  /** After every schedule a finished append call has pushed, forwarded or discarded its
      entry, exactly one of the three and exactly once; an unfinished one has done so at most
      when only the last decrement is left. */
  lemma {:induction false} OneFate(capacity: nat, log: seq<Action>, t: nat)
    requires capacity > 0 && t < |After(Init(capacity), log).appends|
    ensures var s := After(Init(capacity), log);
            Fates(s, t) == if InFlight(s.appends[t]) then 0 else 1
  {
    var s := After(Init(capacity), log);
    EveryRunIsSafe(capacity, log);
    assert Places(s, t) == 1;
    PushedSplit(s.ring, s.delivered, s.resolver, t);
    EntriesSplit(s.delivered, t);
  }

  /** Somebody is there to take this step: an append call that has not finished, or the
      resolver before it has returned. */
  ghost predicate Enabled(s: State, a: Action) {
    match a
    case Begin => true
    case Run(t) => t < |s.appends| && s.appends[t] != Finished
    case Resolve => s.resolver != Resolved && s.resolver != Dropped
    case Drop => s.resolver == Holding
  }

  ghost predicate Real(s: State, acts: seq<Action>)
    decreases |acts|
  {
    acts == [] || (Enabled(s, acts[0]) && Real(Step(s, acts[0]), acts[1..]))
  }

  /** The premise of fairness can be met: from every state in which the slot is set there is a
      fair schedule of accesses that somebody is there to take. */
  lemma {:induction false} FairRunExists(s: State) returns (acts: seq<Action>)
    requires Inv(s) && s.sink
    ensures Real(s, acts) && Fair(s, acts)
    decreases TotalRemaining(s.appends)
  {
    if Quiet(s) {
      acts := [];
    } else {
      var t :| 0 <= t < |s.appends| && Remaining(s.appends[t]) > 0;
      var first := Run(t);
      StepTotal(s, first);
      SinkStaysSet(s, first);
      StepKeepsInv(s, first);
      var rest := FairRunExists(Step(s, first));
      acts := [first] + rest;
      assert acts[1..] == rest;
      FairFromStep(s, first, rest);
    }
  }

  lemma {:induction false} StepKeepsInv(s: State, a: Action)
    requires Inv(s)
    ensures Inv(Step(s, a)) && After(s, [a]) == Step(s, a)
  {
    RunKeepsInv(s, [a]);
    assert [a][..0] == [];
    assert After(s, [a]) == Step(After(s, []), a);
  }

  lemma {:induction false} FairFromStep(s: State, a: Action, rest: seq<Action>)
    requires Inv(s) && s.sink && Fair(Step(s, a), rest)
    ensures Fair(s, [a] + rest)
  {
    StepKeepsInv(s, a);
    SinkStaysSet(s, a);
    AfterConcat(s, [a], rest);
    FairMakesQuiet(Step(s, a), rest);
    FairMakesQuiet(s, [a] + rest);
  }

  /** A dropped resolver has left the slot empty for good. */
  lemma {:induction false} CancelledIsUnset(capacity: nat, log: seq<Action>)
    requires capacity > 0
    ensures !(After(Init(capacity), log).cancelled && After(Init(capacity), log).sink)
  {
    EveryRunIsSafe(capacity, log);
  }

  /** `a` happens after `acts`. */
  lemma {:induction false} AfterOne(s: State, acts: seq<Action>, a: Action)
    ensures After(s, acts + [a]) == Step(After(s, acts), a)
  {
    assert (acts + [a])[..|acts|] == acts;
  }

  /** Accesses left to the append calls that read the slot as empty. */
  function TotalRemaining(ps: seq<Phase>): nat {
    if ps == [] then 0 else TotalRemaining(ps[..|ps| - 1]) + Remaining(ps[|ps| - 1])
  }

  lemma {:induction false} TotalUpdate(ps: seq<Phase>, t: nat, p: Phase)
    requires t < |ps|
    ensures TotalRemaining(ps[t := p]) + Remaining(ps[t]) == TotalRemaining(ps) + Remaining(p)
  {
    var last := |ps| - 1;
    if t == last {
      assert ps[t := p][..last] == ps[..last];
    } else {
      assert ps[t := p][..last] == ps[..last][t := p];
      TotalUpdate(ps[..last], t, p);
    }
  }

  lemma {:induction false} StepTotal(s: State, a: Action)
    requires Control(s) && s.sink
    ensures TotalRemaining(Step(s, a).appends) <= TotalRemaining(s.appends)
    ensures a.Run? && a.t < |s.appends| && Remaining(s.appends[a.t]) > 0 ==>
              TotalRemaining(Step(s, a).appends) < TotalRemaining(s.appends)
  {
    match a
    case Begin => assert (s.appends + [FirstCheck])[..|s.appends|] == s.appends;
    case Run(t) =>
      if t < |s.appends| {
        assert !s.cancelled;
        TotalUpdate(s.appends, t, NextPhase(s.appends[t], s.sink, s.cancelled));
      }
    case _ =>
  }

  lemma {:induction false} SomebodyCounted(ps: seq<Phase>)
    requires CountedAppends(ps) > 0
    ensures exists t :: 0 <= t < |ps| && Remaining(ps[t]) > 0
  {
    if forall t :: 0 <= t < |ps| ==> Remaining(ps[t]) == 0 {
      NobodyCounted(ps);
    }
  }

  lemma {:induction false} SinkStaysSet(s: State, a: Action)
    requires s.sink
    ensures Step(s, a).sink
  {
  }

  lemma {:induction false} RunKeepsControl(s: State, acts: seq<Action>)
    requires Inv(s)
    ensures Control(After(s, acts))
  {
    RunKeepsInv(s, acts);
  }

  lemma {:induction false} OthersTotal(s: State, acts: seq<Action>)
    requires Inv(s) && s.sink
    ensures After(s, acts).sink && TotalRemaining(After(s, acts).appends) <= TotalRemaining(s.appends)
  {
    if acts != [] {
      var init, last := acts[..|acts| - 1], acts[|acts| - 1];
      OthersTotal(s, init);
      RunKeepsControl(s, init);
      StepTotal(After(s, init), last);
      SinkStaysSet(After(s, init), last);
    }
  }

  lemma {:induction false} OthersTotalInRun(capacity: nat, past: seq<Action>, log: seq<Action>)
    requires capacity > 0 && past <= log && After(Init(capacity), past).sink
    ensures TotalRemaining(After(Init(capacity), log).appends) <= TotalRemaining(After(Init(capacity), past).appends)
  {
    EveryRunIsSafe(capacity, past);
    var more := log[|past|..];
    assert log == past + more;
    AfterConcat(Init(capacity), past, more);
    OthersTotal(After(Init(capacity), past), more);
  }

  lemma {:induction false} RingLeftAlone(s: State, a: Action)
    requires Control(s) && PastSpin(s.resolver) && (a == Begin || a.Run?)
    ensures Step(s, a).ring == s.ring
  {
    if a.Run? && a.t < |s.appends| {
      assert s.appends[a.t] != Push;
    }
  }

  lemma {:induction false} OthersKeepRing(s: State, acts: seq<Action>)
    requires Inv(s) && PastSpin(s.resolver) && OnlyOthers(acts, {})
    ensures After(s, acts).ring == s.ring
  {
    if acts != [] {
      var init := acts[..|acts| - 1];
      OthersKeepRing(s, init);
      RunKeepsInv(s, init);
      OthersLeaveAlone(s, init, {});
      RingLeftAlone(After(s, init), acts[|acts| - 1]);
    }
  }

  lemma {:induction false} OthersKeepRun(capacity: nat, past: seq<Action>, log: seq<Action>)
    requires capacity > 0 && past <= log && OnlyOthers(log[|past|..], {})
    requires PastSpin(After(Init(capacity), past).resolver)
    ensures After(Init(capacity), log).ring == After(Init(capacity), past).ring
  {
    EveryRunIsSafe(capacity, past);
    AfterConcat(Init(capacity), past, log[|past|..]);
    assert past + log[|past|..] == log;
    OthersKeepRing(After(Init(capacity), past), log[|past|..]);
  }

  class PendingSink {
    // struct Inner
    const capacity: nat
    var buffer: seq<nat>
    var sink: bool
    var cancelled: bool
    var buffering: int
    // The append calls made so far, the resolver handle, and what the real sink received.
    var appends: seq<Phase>
    var resolver: Resolver
    var delivered: seq<Delivery>
    ghost var pushed: seq<nat>
    ghost var evicted: seq<nat>
    ghost var discarded: seq<nat>
    // The schedule so far.
    ghost var log: seq<Action>

    ghost function Abs(): State
      reads this
    {
      State(Ring(capacity, buffer, pushed, evicted), sink, cancelled, buffering, appends, resolver, delivered, discarded)
    }

    /** The fields are what the protocol's own steps make of the schedule so far. */
    ghost predicate Valid()
      reads this
    {
      capacity > 0 && Abs() == After(Init(capacity), log)
    }

    /** Action `a`, and nothing else, has happened since. */
    twostate predicate Did(a: Action)
      reads this
    {
      Valid() && log == old(log) + [a]
    }

    constructor (capacity: nat)
      requires capacity > 0
      ensures Valid() && log == [] && Abs() == Init(capacity)
    {
      this.capacity := capacity;
      buffer, sink, cancelled, buffering := [], false, false, 0;
      appends, resolver, delivered := [], Holding, [];
      pushed, evicted, discarded, log := [], [], [], [];
    }

    ghost method Record(a: Action, before: State)
      requires capacity > 0 && before == After(Init(capacity), log) && Abs() == Step(before, a)
      modifies this`log
      ensures Valid() && log == old(log) + [a]
    {
      AfterOne(Init(capacity), log, a);
      log := log + [a];
    }

    // ---------------------------------------------------------- single accesses

    /** `append` is called. */
    method Enter() returns (t: nat)
      requires Valid()
      modifies this
      ensures Did(Begin) && t == old(|appends|) && appends == old(appends) + [FirstCheck]
      ensures sink == old(sink) && cancelled == old(cancelled)
    {
      ghost var before := Abs();
      t := |appends|;
      appends := appends + [FirstCheck];
      Record(Begin, before);
    }

    /** sink.get() by append call `t`. */
    method SinkGet(t: nat) returns (isSet: bool)
      requires Valid() && t < |appends| && (appends[t] == FirstCheck || appends[t] == Recheck)
      modifies this
      ensures Did(Run(t)) && isSet == sink == old(sink) && cancelled == old(cancelled)
      ensures appends == old(appends)[t := NextPhase(old(appends[t]), sink, cancelled)]
    {
      ghost var before := Abs();
      isSet := sink;
      if appends[t] == FirstCheck {
        appends := appends[t := if isSet then Forward else CancelCheck];
      } else {
        appends := appends[t := if isSet then Release else Push];
      }
      Record(Run(t), before);
    }

    /** cancelled.load() by append call `t`, which gives up its entry if it reads true. */
    method CancelledLoad(t: nat) returns (yes: bool)
      requires Valid() && t < |appends| && appends[t] == CancelCheck
      modifies this
      ensures Did(Run(t)) && yes == cancelled == old(cancelled) && sink == old(sink)
      ensures appends == old(appends)[t := if yes then Finished else Increment]
      ensures discarded == old(discarded) + if yes then [t] else []
    {
      ghost var before := Abs();
      yes := cancelled;
      if yes {
        discarded := discarded + [t];
      }
      appends := appends[t := if yes then Finished else Increment];
      Record(Run(t), before);
    }

    /** buffering.fetch_add(1) by append call `t`. */
    method FetchAdd(t: nat)
      requires Valid() && t < |appends| && appends[t] == Increment
      modifies this
      ensures Did(Run(t)) && appends == old(appends)[t := Recheck] && sink == old(sink)
    {
      ghost var before := Abs();
      buffering := buffering + 1;
      appends := appends[t := Recheck];
      Record(Run(t), before);
    }

    /** buffering.fetch_sub(1) by append call `t`, before forwarding or after pushing. */
    method FetchSub(t: nat)
      requires Valid() && t < |appends| && (appends[t] == Release || appends[t] == Decrement)
      modifies this
      ensures Did(Run(t))
      ensures appends == old(appends)[t := if old(appends[t]) == Release then Forward else Finished]
      ensures pushed == old(pushed)
    {
      ghost var before := Abs();
      buffering := buffering - 1;
      appends := appends[t := if appends[t] == Release then Forward else Finished];
      Record(Run(t), before);
    }

    /** sink.append(entry) by append call `t`. */
    method SinkAppend(t: nat)
      requires Valid() && t < |appends| && appends[t] == Forward
      modifies this
      ensures Did(Run(t)) && appends == old(appends)[t := Finished]
      ensures delivered == old(delivered) + [Forwarded(t)]
    {
      ghost var before := Abs();
      delivered := delivered + [Forwarded(t)];
      appends := appends[t := Finished];
      Record(Run(t), before);
    }

    /** buffer.force_push(entry) by append call `t`. */
    method ForcePush(t: nat)
      requires Valid() && t < |appends| && appends[t] == Push
      modifies this
      ensures Did(Run(t)) && appends == old(appends)[t := Decrement] && pushed == old(pushed) + [t]
    {
      ghost var before := Abs();
      if |buffer| >= capacity && buffer != [] {
        evicted := evicted + [buffer[0]];
        buffer := buffer[1..];
      }
      buffer := buffer + [t];
      pushed := pushed + [t];
      appends := appends[t := Decrement];
      Record(Run(t), before);
    }

    /** Append call `t`, wherever it is, makes its next access. */
    method Access(t: nat)
      requires Valid() && t < |appends| && appends[t] != Finished
      modifies this
      ensures Did(Run(t))
    {
      match appends[t] {
        case FirstCheck => var _ := SinkGet(t);
        case CancelCheck => var _ := CancelledLoad(t);
        case Increment => FetchAdd(t);
        case Recheck => var _ := SinkGet(t);
        case Release => FetchSub(t);
        case Forward => SinkAppend(t);
        case Push => ForcePush(t);
        case Decrement => FetchSub(t);
      }
    }

    /** Other threads run for a while: they enter `append` or make further accesses. */
    method Others(mine: set<nat>)
      requires Valid()
      modifies this
      ensures Valid() && old(log) <= log && OnlyOthers(log[|old(log)|..], mine)
      ensures resolver == old(resolver) && sink == old(sink) && cancelled == old(cancelled)
      ensures forall t: nat :: t in mine && t < |old(appends)| ==>
                t < |appends| && appends[t] == old(appends[t])
    {
      ghost var past := log;
      ghost var more: seq<Action> := [];
      var steps: nat := *;
      while steps > 0
        invariant Valid() && log == past + more && OnlyOthers(more, mine)
      {
        var u: nat := *;
        if {
          case true =>
            var _ := Enter();
            more := more + [Begin];
          case u !in mine =>
            if 0 <= u < |appends| && appends[u] != Finished {
              Access(u);
              more := more + [Run(u)];
            }
        }
        steps := steps - 1;
      }
      AfterConcat(Init(capacity), past, more);
      OthersLeaveAlone(old(Abs()), more, mine);
      assert log[|past|..] == more;
    }

    /** Anybody but append call `t` makes one step: an append call is entered or makes its
        next access, or the resolver is dropped or makes its next access. */
    method AnyStep(t: nat) returns (ghost acts: seq<Action>)
      requires Valid()
      modifies this
      ensures Valid() && log == old(log) + acts && AnyoneBut(acts, t)
    {
      var u: nat := *;
      acts := [];
      if {
        case true =>
          var _ := Enter();
          acts := [Begin];
        case u != t && 0 <= u < |appends| && appends[u] != Finished =>
          Access(u);
          acts := [Run(u)];
        case resolver == Holding =>
          DropResolver();
          acts := [Drop];
        case resolver != Resolved && resolver != Dropped =>
          ResolverAccess();
          acts := [Action.Resolve];
      }
    }

    /** Other threads, the resolver's included, run between two accesses of append call `t`. */
    method Pause(t: nat)
      requires Valid() && t < |appends|
      modifies this
      ensures Valid() && old(log) <= log && Grown(old(Abs()), Abs())
      ensures t < |appends| && appends[t] == old(appends[t])
    {
      ghost var past := log;
      ghost var more: seq<Action> := [];
      var steps: nat := *;
      while steps > 0
        invariant Valid() && log == past + more && AnyoneBut(more, t)
      {
        ghost var acts := AnyStep(t);
        more := more + acts;
        steps := steps - 1;
      }
      AfterConcat(Init(capacity), past, more);
      AnyoneLeavesAlone(old(Abs()), more, t);
    }

    // ---------------------------------------------------------- append, resolve, drop

    /** `append`, with any other thread, the resolver's included, running between any two of
        its accesses. Its entry ends pushed, forwarded or discarded, exactly one of the three. */
    method Append() returns (t: nat)
      requires Valid()
      modifies this
      ensures Valid() && old(log) <= log
      ensures t == old(|appends|) && t < |appends| && appends[t] == Finished
      ensures Fates(Abs(), t) == 1
      ensures t in pushed || Forwarded(t) in delivered || t in discarded
      ensures old(sink) ==> Forwarded(t) in delivered
      ensures old(cancelled) ==> t in discarded
    {
      t := Enter();
      Pause(t);
      LookAndGoOn(t);
      OneFate(capacity, log, t);
    }

    /** `append` from its first look at the slot. */
    method LookAndGoOn(t: nat)
      requires Valid() && t < |appends| && appends[t] == FirstCheck
      modifies this
      ensures Valid() && old(log) <= log
      ensures t < |appends| && appends[t] == Finished
      ensures t in pushed || Forwarded(t) in delivered || t in discarded
      ensures old(sink) ==> Forwarded(t) in delivered
      ensures old(cancelled) ==> t in discarded
    {
      CancelledIsUnset(capacity, log);
      var isSet := SinkGet(t);
      Pause(t);
      if isSet {
        SinkAppend(t);
      } else {
        AppendPending(t);
      }
    }

    /** The part of `append` after the slot was read as empty. */
    method AppendPending(t: nat)
      requires Valid() && t < |appends| && appends[t] == CancelCheck
      modifies this
      ensures Valid() && old(log) <= log
      ensures t < |appends| && appends[t] == Finished
      ensures if old(cancelled) then t in discarded else t in pushed || Forwarded(t) in delivered
      ensures old(sink) ==> Forwarded(t) in delivered
    {
      CancelledIsUnset(capacity, log);
      var gone := CancelledLoad(t);
      if !gone {
        Pause(t);
        FetchAdd(t);
        Pause(t);
        Buffer(t);
      }
    }

    /** The part of `append` that is counted in `buffering`. */
    method Buffer(t: nat)
      requires Valid() && t < |appends| && appends[t] == Recheck
      modifies this
      ensures Valid() && old(log) <= log
      ensures t < |appends| && appends[t] == Finished
      ensures if old(sink) then Forwarded(t) in delivered else t in pushed
    {
      var isSet := SinkGet(t);
      Pause(t);
      if isSet {
        LeaveAndForward(t);
      } else {
        PushAndLeave(t);
      }
    }

    method LeaveAndForward(t: nat)
      requires Valid() && t < |appends| && appends[t] == Release
      modifies this
      ensures Valid() && old(log) <= log
      ensures t < |appends| && appends[t] == Finished && Forwarded(t) in delivered
    {
      FetchSub(t);
      Pause(t);
      SinkAppend(t);
    }

    method PushAndLeave(t: nat)
      requires Valid() && t < |appends| && appends[t] == Push
      modifies this
      ensures Valid() && old(log) <= log
      ensures t < |appends| && appends[t] == Finished && t in pushed
    {
      ghost var at := |pushed|;
      ForcePush(t);
      Pause(t);
      FetchSub(t);
      assert pushed[at] == t;
    }

    /** sink.set() by the resolver. It cannot fail: there is one resolver and it is used up. */
    method SinkSet() returns (ok: bool)
      requires Valid() && resolver == Holding
      modifies this
      ensures ok && Did(Action.Resolve) && resolver == Spinning && sink
    {
      EveryRunIsSafe(capacity, log);
      ghost var before := Abs();
      ok := !sink;
      sink, resolver := true, Spinning;
      Record(Action.Resolve, before);
    }

    /** buffering.load() by the resolver. */
    method BufferingLoad() returns (held: int)
      requires Valid() && resolver == Spinning
      modifies this
      ensures Did(Action.Resolve) && held == buffering && appends == old(appends) && sink == old(sink)
      ensures resolver == if held == 0 then Draining else Spinning
    {
      ghost var before := Abs();
      held := buffering;
      if held == 0 {
        resolver := Draining;
      }
      Record(Action.Resolve, before);
    }

    /** buffer.pop() by the resolver. */
    method Pop() returns (popped: bool)
      requires Valid() && resolver == Draining
      modifies this
      ensures Did(Action.Resolve) && popped == (old(buffer) != [])
      ensures buffer == if popped then old(buffer)[1..] else []
      ensures resolver == if popped then Handing(old(buffer)[0]) else Resolved
    {
      ghost var before := Abs();
      popped := buffer != [];
      if popped {
        resolver, buffer := Handing(buffer[0]), buffer[1..];
      } else {
        resolver := Resolved;
      }
      Record(Action.Resolve, before);
    }

    /** sink.append(entry) by the resolver. */
    method HandOver()
      requires Valid() && resolver.Handing?
      modifies this
      ensures Did(Action.Resolve) && resolver == Draining && buffer == old(buffer)
    {
      ghost var before := Abs();
      delivered := delivered + [Drained(resolver.entry)];
      resolver := Draining;
      Record(Action.Resolve, before);
    }

    /** The resolver makes its next access. */
    method ResolverAccess()
      requires Valid() && resolver != Resolved && resolver != Dropped
      modifies this
      ensures Did(Action.Resolve)
    {
      match resolver {
        case Holding => var _ := SinkSet();
        case Spinning => var _ := BufferingLoad();
        case Draining => var _ := Pop();
        case Handing(_) => HandOver();
      }
    }

    /** Somebody who holds up the spin loop makes an access. */
    method HolderMoves()
      requires Valid() && sink && buffering != 0
      modifies this
      ensures Valid() && old(log) <= log && resolver == old(resolver) && sink
      ensures TotalRemaining(appends) < old(TotalRemaining(appends))
    {
      EveryRunIsSafe(capacity, log);
      ghost var before, past := Abs(), log;
      SomebodyCounted(appends);
      var t :| 0 <= t < |appends| && Remaining(appends[t]) > 0;
      Access(t);
      AfterOne(Init(capacity), past, Run(t));
      StepTotal(before, Run(t));
      assert Abs() == Step(before, Run(t));
    }

    /** Other threads run after the slot was set: nobody new comes to hold up the spin loop. */
    method OthersPassBy()
      requires Valid() && sink
      modifies this
      ensures Valid() && old(log) <= log && resolver == old(resolver) && sink
      ensures TotalRemaining(appends) <= old(TotalRemaining(appends))
    {
      ghost var past := log;
      Others({});
      OthersTotalInRun(capacity, past, log);
    }

    /** The resolver reads the counter, and may read it again any number of times while
        nobody who holds it up moves. */
    method SpinIdly() returns (held: int)
      requires Valid() && resolver == Spinning && sink
      modifies this
      ensures Valid() && old(log) <= log && sink
      ensures resolver == if held == 0 then Draining else Spinning
      ensures held != 0 ==> held == buffering
      ensures TotalRemaining(appends) <= old(TotalRemaining(appends))
    {
      held := BufferingLoad();
      var idle: nat := *;
      while idle > 0 && held != 0
        invariant Valid() && old(log) <= log && sink
        invariant resolver == if held == 0 then Draining else Spinning
        invariant held != 0 ==> held == buffering
        invariant TotalRemaining(appends) <= old(TotalRemaining(appends))
      {
        OthersPassBy();
        held := BufferingLoad();
        idle := idle - 1;
      }
    }

    /** `resolve`, with other threads running between any two of its accesses. Fairness is that
        between two moves of those who hold up the spin loop there are finitely many turns. */
    method Resolve()
      requires Valid() && resolver == Holding
      modifies this
      ensures Valid() && old(log) <= log && resolver == Resolved && buffer == []
      ensures DrainedOf(delivered) == pushed[Excess(|pushed|, capacity)..]
    {
      var ok := SinkSet();
      Others({});
      var held := SpinIdly();
      while held != 0
        invariant Valid() && old(log) <= log && sink
        invariant resolver == if held == 0 then Draining else Spinning
        invariant held != 0 ==> held == buffering
        decreases held != 0, TotalRemaining(appends)
      {
        HolderMoves();
        OthersPassBy();
        held := SpinIdly();
      }
      Drain();
    }

    /** The drain loop of `resolve`. What it drained are the newest pushes, in push order. */
    method Drain()
      requires Valid() && resolver == Draining
      modifies this
      ensures Valid() && old(log) <= log && resolver == Resolved && buffer == []
      ensures DrainedOf(delivered) == pushed[Excess(|pushed|, capacity)..]
    {
      PopAll();
      DrainsNewestInOrder(capacity, log);
    }

    method PopAll()
      requires Valid() && resolver == Draining
      modifies this
      ensures Valid() && old(log) <= log && resolver == Resolved && buffer == []
    {
      OthersKeepBuffer();
      var more := Pop();
      while more
        invariant Valid() && old(log) <= log
        invariant if more then resolver.Handing? else resolver == Resolved && buffer == []
        decreases more, |buffer|
      {
        OthersKeepBuffer();
        HandOver();
        OthersKeepBuffer();
        more := Pop();
      }
    }

    /** Other threads run after the spin loop: they cannot touch the ring buffer any more. */
    method OthersKeepBuffer()
      requires Valid() && PastSpin(resolver)
      modifies this
      ensures Valid() && old(log) <= log && resolver == old(resolver) && buffer == old(buffer)
    {
      ghost var past := log;
      Others({});
      OthersKeepRun(capacity, past, log);
    }

    /** The resolver handle is dropped without `resolve` having been called. */
    method DropResolver()
      requires Valid() && resolver == Holding
      modifies this
      ensures Did(Drop) && resolver == Dropped && cancelled && delivered == []
    {
      EveryRunIsSafe(capacity, log);
      ghost var before := Abs();
      cancelled, resolver := true, Dropped;
      Record(Drop, before);
    }
  }
}
