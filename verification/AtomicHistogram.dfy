/** The thread-safe histograms: any number of threads record, each by one atomic addition to a
  * bucket, while any number of drains go through the buckets one atomic swap at a time. The
  * layout, how many buckets there are and which one a value has, is a parameter. */
module AtomicHistogram {
  import opened CommonTypes
  import opened Bucketing
  import opened ExponentialHistogram
  import opened HistogramStrategies

  datatype Layout<!V> = Layout(buckets: nat, index: V -> nat)

  /** The bucket counts, and what each drain has taken so far. */
  datatype State = State(counts: seq<nat>, drains: seq<seq<nat>>)

  /** `Swap` sets a bucket to zero and gives what was there to drain `d`. */
  datatype Action<+V> = Add(value: V, count: nat) | StartDrain | Swap(d: nat, b: nat)

  function Zeroes(n: nat): seq<nat> { seq(n, _ => 0) }

  function Init<V>(l: Layout<V>): State { State(Zeroes(l.buckets), []) }

  predicate Sized<V>(l: Layout<V>, s: State) {
    |s.counts| == l.buckets && forall d :: 0 <= d < |s.drains| ==> |s.drains[d]| == l.buckets
  }

  /** One step. A value without a bucket is refused. */
  function Step<V>(l: Layout<V>, s: State, a: Action<V>): (r: State)
    requires Sized(l, s)
    ensures Sized(l, r) && |s.drains| <= |r.drains|
  {
    match a
    case Add(value, count) =>
      var b := l.index(value);
      if b < l.buckets then s.(counts := s.counts[b := s.counts[b] + count]) else s
    case StartDrain => s.(drains := s.drains + [Zeroes(l.buckets)])
    case Swap(d, b) =>
      if d < |s.drains| && b < l.buckets
      then State(s.counts[b := 0], s.drains[d := s.drains[d][b := s.drains[d][b] + s.counts[b]]])
      else s
  }

  function After<V>(l: Layout<V>, acts: seq<Action<V>>): (s: State)
    ensures Sized(l, s)
  {
    if acts == [] then Init(l) else Step(l, After(l, acts[..|acts| - 1]), acts[|acts| - 1])
  }

  /** What the drains together have taken from a bucket. */
  ghost function Taken(drains: seq<seq<nat>>, b: nat): nat
    requires forall d :: 0 <= d < |drains| ==> b < |drains[d]|
  {
    if drains == [] then 0 else Taken(drains[..|drains| - 1], b) + drains[|drains| - 1][b]
  }

  /** What was recorded in a bucket. */
  ghost function Added<V>(l: Layout<V>, acts: seq<Action<V>>, b: nat): nat {
    if acts == [] then 0
    else Added(l, acts[..|acts| - 1], b) + AddedBy(l, acts[|acts| - 1], b)
  }

  ghost function AddedBy<V>(l: Layout<V>, a: Action<V>, b: nat): nat {
    if a.Add? && l.index(a.value) == b then a.count else 0
  }

  lemma {:induction false} TakenUpdate(drains: seq<seq<nat>>, d: nat, t: seq<nat>, b: nat)
    requires d < |drains| && b < |t| && forall k :: 0 <= k < |drains| ==> b < |drains[k]|
    ensures Taken(drains[d := t], b) + drains[d][b] == Taken(drains, b) + t[b]
  {
    var last := |drains| - 1;
    if d == last {
      assert drains[d := t][..last] == drains[..last];
    } else {
      assert drains[d := t][..last] == drains[..last][d := t];
      TakenUpdate(drains[..last], d, t, b);
    }
  }

  lemma {:induction false} TakenMore(drains: seq<seq<nat>>, t: seq<nat>, b: nat)
    requires b < |t| && forall k :: 0 <= k < |drains| ==> b < |drains[k]|
    ensures Taken(drains + [t], b) == Taken(drains, b) + t[b]
  {
    assert (drains + [t])[..|drains|] == drains;
  }

  lemma {:induction false} StepBalances<V>(l: Layout<V>, s: State, a: Action<V>, b: nat)
    requires Sized(l, s) && b < l.buckets
    ensures var s' := Step(l, s, a);
            s'.counts[b] + Taken(s'.drains, b) == s.counts[b] + Taken(s.drains, b) + AddedBy(l, a, b)
  {
    match a
    case Add(_, _) =>
    case StartDrain => TakenMore(s.drains, Zeroes(l.buckets), b);
    case Swap(d, c) =>
      if d < |s.drains| && c < l.buckets {
        TakenUpdate(s.drains, d, s.drains[d][c := s.drains[d][c] + s.counts[c]], b);
      }
  }

  /** In every interleaving, what is left in a bucket and what the drains took from it add up
      to what was recorded there: no recording is lost between two drains, and none is taken
      twice. */
  lemma {:induction false} NothingLostOrDoubled<V>(l: Layout<V>, acts: seq<Action<V>>, b: nat)
    requires b < l.buckets
    ensures After(l, acts).counts[b] + Taken(After(l, acts).drains, b) == Added(l, acts, b)
  {
    if acts != [] {
      NothingLostOrDoubled(l, acts[..|acts| - 1], b);
      StepBalances(l, After(l, acts[..|acts| - 1]), acts[|acts| - 1], b);
    }
  }

  // ---------------------------------------------------------------- a complete drain

  /** The steps from number `from` on record nothing. */
  ghost predicate NoMoreAdds<V>(acts: seq<Action<V>>, from: nat) {
    forall i :: from <= i < |acts| ==> !acts[i].Add?
  }

  /** Step `i` swaps bucket `b` for a drain that has started. */
  ghost predicate Swaps<V>(l: Layout<V>, acts: seq<Action<V>>, i: nat, b: nat) {
    i < |acts| && acts[i].Swap? && acts[i].b == b && acts[i].d < |After(l, acts[..i]).drains|
  }

  /** The steps from number `from` on swap every bucket. */
  ghost predicate Sweeps<V>(l: Layout<V>, acts: seq<Action<V>>, from: nat) {
    forall b :: 0 <= b < l.buckets ==> SwappedSince(l, acts, from, b)
  }

  ghost predicate SwappedSince<V>(l: Layout<V>, acts: seq<Action<V>>, from: nat, b: nat) {
    exists i: nat :: from <= i && Swaps(l, acts, i, b)
  }

  /** A bucket that was swapped after the last addition is empty. */
  lemma {:induction false} SwappedIsEmpty<V>(l: Layout<V>, acts: seq<Action<V>>, from: nat, i: nat, b: nat)
    requires b < l.buckets && from <= i && Swaps(l, acts, i, b) && NoMoreAdds(acts, from)
    ensures After(l, acts).counts[b] == 0
    decreases |acts|
  {
    var front := acts[..|acts| - 1];
    if i < |acts| - 1 {
      assert front[..i] == acts[..i];
      SwappedIsEmpty(l, front, from, i, b);
    }
  }

  /** Once the last addition is past, a drain that goes through all buckets, or several that
      do so together, leave nothing: the drains have taken everything that was recorded. */
  lemma {:induction false} EverythingIsTaken<V>(l: Layout<V>, acts: seq<Action<V>>, from: nat, b: nat)
    requires b < l.buckets && NoMoreAdds(acts, from) && Sweeps(l, acts, from)
    ensures After(l, acts).counts[b] == 0 && Taken(After(l, acts).drains, b) == Added(l, acts, b)
  {
    assert SwappedSince(l, acts, from, b);
    var i: nat :| from <= i && Swaps(l, acts, i, b);
    SwappedIsEmpty(l, acts, from, i, b);
    NothingLostOrDoubled(l, acts, b);
  }

  /** The steps of one drain that meets nobody: the drain numbered `d` swaps every bucket. */
  function FullDrain<V>(d: nat, buckets: nat): seq<Action<V>> {
    [StartDrain] + seq(buckets, b requires 0 <= b < buckets => Swap(d, b))
  }

  lemma {:induction false} DrainsStay<V>(l: Layout<V>, acts: seq<Action<V>>, i: nat)
    requires i <= |acts|
    ensures |After(l, acts[..i]).drains| <= |After(l, acts).drains|
  {
    if i < |acts| {
      DrainsStay(l, acts[..|acts| - 1], i);
      assert acts[..|acts| - 1][..i] == acts[..i];
    } else {
      assert acts[..i] == acts;
    }
  }

  /** One such drain after all additions is a sweep. */
  lemma {:induction false} FullDrainSweeps<V>(l: Layout<V>, acts: seq<Action<V>>)
    ensures var all := acts + FullDrain(|After(l, acts).drains|, l.buckets);
            NoMoreAdds(all, |acts|) && Sweeps(l, all, |acts|)
  {
    var d := |After(l, acts).drains|;
    var all := acts + FullDrain(d, l.buckets);
    forall b | 0 <= b < l.buckets ensures SwappedSince(l, all, |acts|, b) {
      var i := |acts| + 1 + b;
      var started := all[..i][..|acts| + 1];
      assert all[i] == Swap(d, b);
      assert started == acts + [StartDrain] && started[..|acts|] == acts;
      assert |After(l, started).drains| == d + 1;
      DrainsStay(l, all[..i], |acts| + 1);
      assert Swaps(l, all, i, b);
    }
  }

  // ---------------------------------------------------------------- the 64-bit strategy

  function Layout64(): Layout<real> { Layout(BUCKETS, (v: real) => BucketOf(v)) }

  /** What was recorded, in whatever order it happened. */
  ghost function Recorded(acts: seq<Action<real>>): seq<Observation> {
    if acts == [] then []
    else
      var front, a := Recorded(acts[..|acts| - 1]), acts[|acts| - 1];
      if a.Add? then front + [RepeatedOf(a.value, a.count)] else front
  }

  lemma {:induction false} AddRecords(c: Tally, value: real, count: nat)
    ensures Record(c, RepeatedOf(value, count)) == Bump(c, BucketOf(value), count)
  {
    if count > 0 { RecordRepeated(c, value, count); }
    else { BumpByNothing(c, BucketOf(value)); }
  }

  lemma {:induction false} AddedIsRecorded(acts: seq<Action<real>>, b: nat)
    requires b < BUCKETS
    ensures Added(Layout64(), acts, b) == RecordAll(Zero(), Recorded(acts))[b]
  {
    if acts != [] {
      var front, a := acts[..|acts| - 1], acts[|acts| - 1];
      AddedIsRecorded(front, b);
      if a.Add? {
        RecordAllSnoc(Zero(), Recorded(front), RepeatedOf(a.value, a.count));
        AddRecords(RecordAll(Zero(), Recorded(front)), a.value, a.count);
      }
    }
  }

  /** The closed results of all drains, one after the other. */
  ghost function Reported(drains: seq<Tally>): seq<Observation> {
    if drains == [] then [] else Reported(drains[..|drains| - 1]) + Drained(drains[|drains| - 1])
  }

  lemma {:induction false} ReportedAdds(drains: seq<Tally>, b: nat)
    requires b < BUCKETS
    ensures RecordAll(Zero(), Reported(drains))[b] == Taken(drains, b)
  {
    if drains != [] {
      var front, last := drains[..|drains| - 1], drains[|drains| - 1];
      ReportedAdds(front, b);
      RecordAllConcat(Zero(), Reported(front), Drained(last));
      ReplayAdds(RecordAll(Zero(), Reported(front)), last);
    }
  }

  /** Once the last addition is past and every bucket was swapped after it, merging the closed
      results of all drains into one histogram gives the histogram of everything that was ever
      recorded. */
  lemma {:induction false} DrainsReportEverything(acts: seq<Action<real>>, from: nat)
    requires NoMoreAdds(acts, from) && Sweeps(Layout64(), acts, from)
    ensures RecordAll(Zero(), Reported(After(Layout64(), acts).drains)) == RecordAll(Zero(), Recorded(acts))
  {
    var drains := After(Layout64(), acts).drains;
    forall b | 0 <= b < BUCKETS
      ensures RecordAll(Zero(), Reported(drains))[b] == RecordAll(Zero(), Recorded(acts))[b]
    {
      EverythingIsTaken(Layout64(), acts, from, b);
      ReportedAdds(drains, b);
      AddedIsRecorded(acts, b);
    }
  }

  // ---------------------------------------------------------------- the 32-bit histogram

  function Layout32(): Layout<nat> { Layout(BUCKETS32, (v: nat) => Index(v)) }

  /** The recorded values. */
  ghost function Values(acts: seq<Action<nat>>): seq<nat> {
    if acts == [] then []
    else
      var front, a := Values(acts[..|acts| - 1]), acts[|acts| - 1];
      if a.Add? then front + [a.value] else front
  }

  /** `record` adds one. */
  ghost predicate AddsOnes(acts: seq<Action<nat>>) {
    forall i :: 0 <= i < |acts| && acts[i].Add? ==> acts[i].count == 1
  }

  lemma {:induction false} AddedIsCounted(acts: seq<Action<nat>>, b: nat)
    requires AddsOnes(acts)
    ensures Added(Layout32(), acts, b) == CountAt(Values(acts), b)
  {
    if acts != [] {
      var front, a := acts[..|acts| - 1], acts[|acts| - 1];
      AddedIsCounted(front, b);
      if a.Add? { assert (Values(front) + [a.value])[..|Values(front)|] == Values(front); }
    }
  }

  /** For the 32-bit histogram: after such a sweep the drains have together taken from each
      bucket as many recordings as values were recorded in it. */
  lemma {:induction false} DrainsCountEveryValue(acts: seq<Action<nat>>, from: nat, b: nat)
    requires AddsOnes(acts) && NoMoreAdds(acts, from) && Sweeps(Layout32(), acts, from) && b < BUCKETS32
    ensures Taken(After(Layout32(), acts).drains, b) == CountAt(Values(acts), b)
  {
    EverythingIsTaken(Layout32(), acts, from, b);
    AddedIsCounted(acts, b);
  }
}
