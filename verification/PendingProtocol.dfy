/**
  The buffer/resolve protocol of the pending sink, as an interleaved transition system.

  Every atomic access of `append`, `resolve` and `Drop` is one step, all steps are
  sequentially consistent, and any number of append calls may be running at once.
  Append call number `t` carries the entry `t`, so entries are distinct by construction.
 */
module PendingProtocol {

  /** What an append call does next. A phase is named after the access it is about to make. */
  datatype Phase =
    | FirstCheck    // read the sink slot for the first time
    | CancelCheck   // the slot was empty: read `cancelled`
    | Increment     // count itself in `buffering`
    | Recheck       // read the sink slot again
    | Release       // the slot is set by now: leave `buffering` ...
    | Forward       // ... and hand the entry straight to the sink
    | Push          // force_push into the ring buffer
    | Decrement     // leave `buffering` after the push
    | Finished

  /** The resolver handle: what `resolve` does next, or how it ended. */
  datatype Resolver =
    | Holding                 // neither resolved nor dropped
    | Spinning                // the sink is set: read `buffering`
    | Draining                // pop the ring buffer
    | Handing(entry: nat)     // popped: hand the entry to the sink
    | Resolved
    | Dropped

  /** One call of the real sink's `append`, by the drain loop or by an appender itself. */
  datatype Delivery = Drained(entry: nat) | Forwarded(entry: nat)

  /** The bounded ring buffer, with every entry ever pushed and those it gave up. */
  datatype Ring = Ring(capacity: nat, buffer: seq<nat>, pushed: seq<nat>, evicted: seq<nat>) {

    /** A full queue gives up its oldest element. */
    function ForcePush(e: nat): Ring {
      if |buffer| >= capacity && buffer != [] then
        Ring(capacity, buffer[1..] + [e], pushed + [e], evicted + [buffer[0]])
      else
        Ring(capacity, buffer + [e], pushed + [e], evicted)
    }
  }

  datatype State = State(
    ring: Ring,
    sink: bool,
    cancelled: bool,
    buffering: int,
    appends: seq<Phase>,
    resolver: Resolver,
    delivered: seq<Delivery>,   // what the real sink received, in order
    discarded: seq<nat>)        // entries of appends that found the sink cancelled

  datatype Action = Begin | Run(t: nat) | Resolve | Drop

  function Init(capacity: nat): State {
    State(Ring(capacity, [], [], []), false, false, 0, [], Holding, [], [])
  }

  /** Where an append call goes after its access, given what it read. */
  function NextPhase(p: Phase, sink: bool, cancelled: bool): Phase {
    match p
    case FirstCheck => if sink then Forward else CancelCheck
    case CancelCheck => if cancelled then Finished else Increment
    case Increment => Recheck
    case Recheck => if sink then Release else Push
    case Release => Forward
    case Forward => Finished
    case Push => Decrement
    case Decrement => Finished
    case Finished => Finished
  }

  /** The next atomic access of append call `t`. */
  function AppendStep(s: State, t: nat): State
    requires t < |s.appends|
  {
    var p := s.appends[t];
    var s := s.(appends := s.appends[t := NextPhase(p, s.sink, s.cancelled)]);
    match p
    case CancelCheck => if s.cancelled then s.(discarded := s.discarded + [t]) else s
    case Increment => s.(buffering := s.buffering + 1)
    case Release => s.(buffering := s.buffering - 1)
    case Forward => s.(delivered := s.delivered + [Forwarded(t)])
    case Push => s.(ring := s.ring.ForcePush(t))
    case Decrement => s.(buffering := s.buffering - 1)
    case FirstCheck => s
    case Recheck => s
    case Finished => s
  }

  /** The next atomic access of `resolve`. The first one sets the slot; if it were set
      already, `resolve` would return at once. */
  function ResolveStep(s: State): State {
    match s.resolver
    case Holding => if s.sink then s.(resolver := Resolved) else s.(sink := true, resolver := Spinning)
    case Spinning => if s.buffering != 0 then s else s.(resolver := Draining)
    case Draining =>
      if s.ring.buffer == [] then s.(resolver := Resolved)
      else s.(resolver := Handing(s.ring.buffer[0]), ring := s.ring.(buffer := s.ring.buffer[1..]))
    case Handing(e) => s.(delivered := s.delivered + [Drained(e)], resolver := Draining)
    case Resolved => s
    case Dropped => s
  }

  /** One step of the system. An action nobody can take leaves the state alone, so every
      finite list of actions is a schedule. */
  function Step(s: State, a: Action): State {
    match a
    case Begin => s.(appends := s.appends + [FirstCheck])
    case Run(t) => if t < |s.appends| then AppendStep(s, t) else s
    case Resolve => ResolveStep(s)
    case Drop => if s.resolver == Holding then s.(cancelled := true, resolver := Dropped) else s
  }

  /** The state after a schedule. */
  function After(s: State, acts: seq<Action>): State {
    if acts == [] then s else Step(After(s, acts[..|acts| - 1]), acts[|acts| - 1])
  }

  // ---------------------------------------------------------------- invariant

  /** Phases between fetch_add and the matching fetch_sub. */
  predicate Counted(p: Phase) {
    p == Recheck || p == Release || p == Push || p == Decrement
  }

  function CountedAppends(ps: seq<Phase>): nat {
    if ps == [] then 0 else CountedAppends(ps[..|ps| - 1]) + if Counted(ps[|ps| - 1]) then 1 else 0
  }

  /** The append call still holds its entry. */
  predicate InFlight(p: Phase) {
    p != Decrement && p != Finished
  }

  function DrainedOf(ds: seq<Delivery>): seq<nat> {
    if ds == [] then []
    else DrainedOf(ds[..|ds| - 1]) + if ds[|ds| - 1].Drained? then [ds[|ds| - 1].entry] else []
  }

  function Entries(ds: seq<Delivery>): seq<nat> {
    seq(|ds|, i requires 0 <= i < |ds| => ds[i].entry)
  }

  function Held(r: Resolver): seq<nat> {
    if r.Handing? then [r.entry] else []
  }

  /** How often `e` occurs in `xs`. */
  function Occurs(xs: seq<nat>, e: nat): nat {
    if xs == [] then 0 else Occurs(xs[..|xs| - 1], e) + if xs[|xs| - 1] == e then 1 else 0
  }

  /** How often entry `e` occurs among the buffered, held, delivered, evicted and discarded. */
  function Stored(ring: Ring, r: Resolver, delivered: seq<Delivery>, discarded: seq<nat>, e: nat): nat {
    Occurs(ring.buffer, e) + Occurs(Held(r), e) + Occurs(Entries(delivered), e)
    + Occurs(ring.evicted, e) + Occurs(discarded, e)
  }

  function InHand(ps: seq<Phase>, e: nat): nat {
    if e < |ps| && InFlight(ps[e]) then 1 else 0
  }

  /** In how many places entry `e` is: with its append call, in the ring buffer, in the
      resolver's hands, delivered, evicted, discarded. */
  function Places(s: State, e: nat): nat {
    InHand(s.appends, e) + Stored(s.ring, s.resolver, s.delivered, s.discarded, e)
  }

  predicate SinkIsSet(r: Resolver) {
    r.Spinning? || PastSpin(r)
  }

  /** `resolve` has seen `buffering == 0`. */
  predicate PastSpin(r: Resolver) {
    r.Draining? || r.Handing? || r.Resolved?
  }

  /** How the flags, the counter and the phases hang together. */
  ghost predicate Control(s: State) {
    && s.ring.capacity > 0
    && s.buffering == CountedAppends(s.appends)
    && Flags(s)
  }

  ghost predicate Flags(s: State) {
    && (s.sink <==> SinkIsSet(s.resolver))
    && (s.cancelled <==> s.resolver == Dropped)
    && (PastSpin(s.resolver) ==>
          forall t :: 0 <= t < |s.appends| ==> s.appends[t] != Push && s.appends[t] != Decrement)
    && (s.discarded != [] ==> s.cancelled)
    && (s.delivered != [] ==> s.sink)
    && (!s.sink ==>
          forall t :: 0 <= t < |s.appends| ==> s.appends[t] != Release && s.appends[t] != Forward)
  }

  function Excess(n: nat, capacity: nat): nat {
    if n > capacity then n - capacity else 0
  }

  /** The ring buffer keeps the newest pushes, in order, until the drain takes them. */
  ghost predicate InOrder(ring: Ring, delivered: seq<Delivery>, r: Resolver) {
    && ring.evicted + DrainedOf(delivered) + Held(r) + ring.buffer == ring.pushed
    && |ring.evicted| == Excess(|ring.pushed|, ring.capacity)
    && (!PastSpin(r) ==> DrainedOf(delivered) == [])
    && (r == Resolved ==> ring.buffer == [])
  }

  ghost predicate RingInOrder(s: State) {
    InOrder(s.ring, s.delivered, s.resolver)
  }

  ghost predicate Conserved(s: State) {
    forall e: nat :: Places(s, e) == if e < |s.appends| then 1 else 0
  }

  ghost predicate Inv(s: State) {
    Control(s) && RingInOrder(s) && Conserved(s)
  }

  lemma {:induction false} CountedUpdate(ps: seq<Phase>, t: nat, p: Phase)
    requires t < |ps|
    ensures CountedAppends(ps[t := p]) + (if Counted(ps[t]) then 1 else 0)
         == CountedAppends(ps) + (if Counted(p) then 1 else 0)
  {
    var last := |ps| - 1;
    if t == last {
      assert ps[t := p][..last] == ps[..last];
    } else {
      assert ps[t := p][..last] == ps[..last][t := p];
      CountedUpdate(ps[..last], t, p);
    }
  }

  lemma {:induction false} CountedPositive(ps: seq<Phase>, t: nat)
    requires t < |ps| && Counted(ps[t])
    ensures CountedAppends(ps) > 0
  {
    if t < |ps| - 1 {
      CountedPositive(ps[..|ps| - 1], t);
    }
  }

  lemma {:induction false} AppendCounts(s: State, t: nat)
    requires t < |s.appends| && s.buffering == CountedAppends(s.appends)
    ensures AppendStep(s, t).buffering == CountedAppends(AppendStep(s, t).appends)
  {
    CountedUpdate(s.appends, t, NextPhase(s.appends[t], s.sink, s.cancelled));
  }

  lemma {:induction false} AppendKeepsFlags(s: State, t: nat)
    requires Control(s) && t < |s.appends|
    requires PastSpin(s.resolver) ==> s.appends[t] != Push && s.appends[t] != Decrement
    ensures Flags(AppendStep(s, t))
  {
    match s.appends[t]
    case Push =>
    case Forward =>
    case CancelCheck =>
    case _ =>
  }

  lemma {:induction false} AppendKeepsControl(s: State, t: nat)
    requires Control(s) && t < |s.appends|
    ensures Control(AppendStep(s, t))
  {
    AppendCounts(s, t);
    AppendKeepsFlags(s, t);
  }

  lemma {:induction false} ResolveKeepsControl(s: State)
    requires Control(s)
    ensures Control(ResolveStep(s))
  {
    if s.resolver == Spinning && s.buffering == 0 {
      forall t | 0 <= t < |s.appends| ensures !Counted(s.appends[t]) {
        if Counted(s.appends[t]) {
          CountedPositive(s.appends, t);
        }
      }
    }
  }

  lemma {:induction false} BeginKeepsControl(s: State)
    requires Control(s)
    ensures Control(Step(s, Begin))
  {
    assert (s.appends + [FirstCheck])[..|s.appends|] == s.appends;
  }

  lemma {:induction false} StepKeepsControl(s: State, a: Action)
    requires Control(s)
    ensures Control(Step(s, a))
  {
    match a
    case Begin => BeginKeepsControl(s);
    case Run(t) => if t < |s.appends| { AppendKeepsControl(s, t); }
    case Resolve => ResolveKeepsControl(s);
    case Drop =>
  }

  lemma {:induction false} DeliverOne(ds: seq<Delivery>, d: Delivery)
    ensures Entries(ds + [d]) == Entries(ds) + [d.entry]
    ensures DrainedOf(ds + [d]) == DrainedOf(ds) + if d.Drained? then [d.entry] else []
  {
    assert (ds + [d])[..|ds|] == ds;
  }

  lemma {:induction false} OccursSnoc(xs: seq<nat>, x: nat, e: nat)
    ensures Occurs(xs + [x], e) == Occurs(xs, e) + if x == e then 1 else 0
  {
    assert (xs + [x])[..|xs|] == xs;
  }

  lemma {:induction false} OccursTail(xs: seq<nat>, e: nat)
    requires xs != []
    ensures Occurs(xs, e) == Occurs(xs[1..], e) + if xs[0] == e then 1 else 0
  {
    if |xs| > 1 {
      var last := |xs| - 1;
      OccursTail(xs[..last], e);
      assert xs[..last][1..] == xs[1..][..last - 1];
    }
  }

  lemma {:induction false} PushKeepsOrder(ring: Ring, delivered: seq<Delivery>, r: Resolver, e: nat)
    requires ring.capacity > 0 && InOrder(ring, delivered, r) && !PastSpin(r)
    ensures InOrder(ring.ForcePush(e), delivered, r)
  {
    var none: seq<nat> := [];
    assert Held(r) == none && DrainedOf(delivered) == none;
    assert ring.evicted + none + none == ring.evicted;
    if |ring.buffer| >= ring.capacity && ring.buffer != [] {
      assert [ring.buffer[0]] + ring.buffer[1..] == ring.buffer;
      assert (ring.evicted + [ring.buffer[0]]) + (ring.buffer[1..] + [e]) == ring.evicted + ring.buffer + [e];
      assert (ring.evicted + [ring.buffer[0]]) + none + none == ring.evicted + [ring.buffer[0]];
    } else {
      assert ring.evicted + (ring.buffer + [e]) == ring.evicted + ring.buffer + [e];
    }
  }

  lemma {:induction false} AppendKeepsRing(s: State, t: nat)
    requires Control(s) && RingInOrder(s) && t < |s.appends|
    ensures RingInOrder(AppendStep(s, t))
  {
    match s.appends[t]
    case Forward => DeliverOne(s.delivered, Forwarded(t));
    case Push =>
      PusherIsCounted(s, t);
      PushKeepsOrder(s.ring, s.delivered, s.resolver, t);
    case _ =>
  }

  lemma {:induction false} PusherIsCounted(s: State, t: nat)
    requires Control(s) && t < |s.appends| && s.appends[t] == Push
    ensures !PastSpin(s.resolver) && s.ring.capacity > 0
  {
  }

  lemma {:induction false} ResolveKeepsRing(s: State)
    requires Control(s) && RingInOrder(s)
    ensures RingInOrder(ResolveStep(s))
  {
    match s.resolver
    case Handing(e) => HandOverKeepsOrder(s.ring, s.delivered, e);
    case Draining => if s.ring.buffer != [] { PopKeepsOrder(s.ring, s.delivered); }
    case _ =>
  }

  lemma {:induction false} HandOverKeepsOrder(ring: Ring, delivered: seq<Delivery>, e: nat)
    requires InOrder(ring, delivered, Handing(e))
    ensures InOrder(ring, delivered + [Drained(e)], Draining)
  {
    var drained := DrainedOf(delivered);
    DeliverOne(delivered, Drained(e));
    assert ring.evicted + (drained + [e]) + [] + ring.buffer == ring.evicted + drained + [e] + ring.buffer;
  }

  lemma {:induction false} PopKeepsOrder(ring: Ring, delivered: seq<Delivery>)
    requires InOrder(ring, delivered, Draining) && ring.buffer != []
    ensures InOrder(ring.(buffer := ring.buffer[1..]), delivered, Handing(ring.buffer[0]))
  {
    var drained, b, rest := DrainedOf(delivered), ring.buffer[0], ring.buffer[1..];
    assert ring.buffer == [b] + rest;
    assert ring.evicted + drained + [] + ([b] + rest) == ring.evicted + drained + [b] + rest;
  }

  lemma {:induction false} StepKeepsRing(s: State, a: Action)
    requires Control(s) && RingInOrder(s)
    ensures RingInOrder(Step(s, a))
  {
    match a
    case Begin =>
    case Run(t) => if t < |s.appends| { AppendKeepsRing(s, t); }
    case Resolve => ResolveKeepsRing(s);
    case Drop =>
  }

  lemma {:induction false} PushMovesOne(ring: Ring, t: nat, e: nat)
    ensures Occurs(ring.ForcePush(t).buffer, e) + Occurs(ring.ForcePush(t).evicted, e)
         == Occurs(ring.buffer, e) + Occurs(ring.evicted, e) + if e == t then 1 else 0
  {
    if |ring.buffer| >= ring.capacity && ring.buffer != [] {
      OccursSnoc(ring.buffer[1..], t, e);
      OccursTail(ring.buffer, e);
      OccursSnoc(ring.evicted, ring.buffer[0], e);
    } else {
      OccursSnoc(ring.buffer, t, e);
    }
  }

  lemma {:induction false} DeliverMovesOne(delivered: seq<Delivery>, d: Delivery, e: nat)
    ensures Occurs(Entries(delivered + [d]), e) == Occurs(Entries(delivered), e) + if e == d.entry then 1 else 0
  {
    DeliverOne(delivered, d);
    OccursSnoc(Entries(delivered), d.entry, e);
  }

  lemma {:induction false} AppendKeepsPlaces(s: State, t: nat, e: nat)
    requires t < |s.appends|
    ensures Places(AppendStep(s, t), e) == Places(s, e)
  {
    match s.appends[t]
    case Forward => ForwardKeepsPlaces(s, t, e);
    case Push => PushKeepsPlaces(s, t, e);
    case CancelCheck => OccursSnoc(s.discarded, t, e);
    case _ =>
  }

  lemma {:induction false} ForwardKeepsPlaces(s: State, t: nat, e: nat)
    requires t < |s.appends| && s.appends[t] == Forward
    ensures Places(AppendStep(s, t), e) == Places(s, e)
  {
    DeliverMovesOne(s.delivered, Forwarded(t), e);
  }

  lemma {:induction false} PushKeepsPlaces(s: State, t: nat, e: nat)
    requires t < |s.appends| && s.appends[t] == Push
    ensures Places(AppendStep(s, t), e) == Places(s, e)
  {
    var appends := s.appends[t := Decrement];
    assert AppendStep(s, t) == s.(appends := appends, ring := s.ring.ForcePush(t));
    assert InHand(appends, e) + (if e == t then 1 else 0) == InHand(s.appends, e);
    PushStoresOne(s.ring, s.resolver, s.delivered, s.discarded, t, e);
  }

  lemma {:induction false} PushStoresOne(ring: Ring, r: Resolver, delivered: seq<Delivery>, discarded: seq<nat>, t: nat, e: nat)
    ensures Stored(ring.ForcePush(t), r, delivered, discarded, e)
         == Stored(ring, r, delivered, discarded, e) + if e == t then 1 else 0
  {
    PushMovesOne(ring, t, e);
  }

  lemma {:induction false} ResolveKeepsPlaces(s: State, e: nat)
    ensures Places(ResolveStep(s), e) == Places(s, e)
  {
    match s.resolver
    case Draining => if s.ring.buffer != [] { OccursTail(s.ring.buffer, e); }
    case Handing(h) => DeliverMovesOne(s.delivered, Drained(h), e);
    case _ =>
  }

  lemma {:induction false} LengthKept(s: State, a: Action)
    requires a != Begin
    ensures |Step(s, a).appends| == |s.appends|
  {
  }

  lemma {:induction false} StepKeepsPlaces(s: State, a: Action, e: nat)
    requires a != Begin
    ensures Places(Step(s, a), e) == Places(s, e)
  {
    match a
    case Run(t) => if t < |s.appends| { AppendKeepsPlaces(s, t, e); }
    case Resolve => ResolveKeepsPlaces(s, e);
    case Drop => assert Held(Step(s, a).resolver) == Held(s.resolver);
  }

  lemma {:induction false} BeginAddsPlace(s: State, e: nat)
    ensures Places(Step(s, Begin), e) == Places(s, e) + if e == |s.appends| then 1 else 0
  {
  }

  lemma {:induction false} StepConserves(s: State, a: Action)
    requires Conserved(s)
    ensures Conserved(Step(s, a))
  {
    var s' := Step(s, a);
    forall e: nat ensures Places(s', e) == if e < |s'.appends| then 1 else 0 {
      if a == Begin {
        BeginAddsPlace(s, e);
      } else {
        StepKeepsPlaces(s, a, e);
        LengthKept(s, a);
      }
    }
  }

  lemma {:induction false} RunKeepsInv(s: State, acts: seq<Action>)
    requires Inv(s)
    ensures Inv(After(s, acts))
  {
    if acts != [] {
      var last := |acts| - 1;
      RunKeepsInv(s, acts[..last]);
      var mid := After(s, acts[..last]);
      StepKeepsControl(mid, acts[last]);
      StepKeepsRing(mid, acts[last]);
      StepConserves(mid, acts[last]);
    }
  }

  /** The invariant holds after every schedule, whatever the capacity and however many
      append calls it starts. */
  lemma {:induction false} EveryRunIsSafe(capacity: nat, acts: seq<Action>)
    requires capacity > 0
    ensures Inv(After(Init(capacity), acts))
  {
    RunKeepsInv(Init(capacity), acts);
  }

  lemma {:induction false} AfterConcat(s: State, first: seq<Action>, second: seq<Action>)
    ensures After(s, first + second) == After(After(s, first), second)
  {
    if second == [] {
      assert first + second == first;
    } else {
      var last := |second| - 1;
      assert (first + second)[..|first| + last] == first + second[..last];
      AfterConcat(s, first, second[..last]);
    }
  }
}
