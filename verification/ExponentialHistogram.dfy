/**
  Histograms with exponential buckets: recording, closing, replaying a closed histogram into
  another one, and how far a reported value is from the recorded one.  `f64` is modelled by
  the real numbers, and bucket counts do not overflow.
 */
module ExponentialHistogram {
  import opened CommonTypes
  import opened Bucketing

  // ---------------------------------------------------------------- scaling

  /** `u64::MAX as f64` rounds up. */
  const U64_MAX_AS_F64: real := 18446744073709551616.0
  const BUCKETS: nat := 976

  // SCALING_FACTOR is 1 << 10.
  function ScaleUp(v: real): real { v * 1024.0 }

  function ScaleDown(v: real): real { v / 1024.0 }

  /** `as u64`: towards zero, saturating at both ends. */
  function AsU64(v: real): (n: nat)
    ensures n <= U64_MAX
  {
    if v < 0.0 then 0 else if v.Floor > U64_MAX then U64_MAX else v.Floor
  }

  /** The integer under which a value is counted. */
  function Scaled(v: real): nat {
    AsU64(if ScaleUp(v) < U64_MAX_AS_F64 then ScaleUp(v) else U64_MAX_AS_F64)
  }

  lemma {:induction false} ShlBy16(k: nat)
    ensures Shl(1, k + 16) == 0x1_0000 * Shl(1, k)
  {
    ShlBy4(k);
    ShlBy4(k + 4);
    ShlBy4(k + 8);
    ShlBy4(k + 12);
  }

  lemma {:induction false} ShlBy4(k: nat)
    ensures Shl(1, k + 4) == 16 * Shl(1, k)
  {
    assert Shl(1, k + 4) == 2 * Shl(1, k + 3) == 4 * Shl(1, k + 2) == 8 * Shl(1, k + 1);
  }

  lemma {:induction false} SixtyFourBits(bits: nat)
    requires bits == 64
    ensures Shl(1, bits) == U64_MAX + 1
  {
    var none := bits - 64;
    ShlBy16(none);
    ShlBy16(none + 16);
    ShlBy16(none + 32);
    ShlBy16(none + 48);
    assert Shl(1, none) == 1;
  }

  /** A 64-bit value has a bucket, and a value with a bucket fits 64 bits. */
  lemma {:induction false} InRange(n: nat)
    ensures n <= U64_MAX <==> Index(n) < BUCKETS
  {
    var bits: nat :| bits == 64;
    SixtyFourBits(bits);
    BucketsCoverBits(bits, n);
  }

  function BucketOf(v: real): (b: nat)
    ensures b < BUCKETS
  {
    InRange(Scaled(v));
    Index(Scaled(v))
  }

  /** What a closed histogram reports for the values of a bucket. */
  function ReportedOf(b: nat): real {
    ScaleDown(Midpoint(b) as real)
  }

  lemma {:induction false} MidpointInRange(b: nat)
    requires b < BUCKETS
    ensures 0 <= Midpoint(b) <= U64_MAX
  {
    MidpointStays(b);
    InRange(Midpoint(b));
  }

  /** The reported value of a bucket is counted in that bucket again. */
  lemma {:induction false} ReportedStays(b: nat)
    requires b < BUCKETS
    ensures BucketOf(ReportedOf(b)) == b
  {
    MidpointInRange(b);
    MidpointStays(b);
    assert ScaleUp(ReportedOf(b)) == Midpoint(b) as real;
  }

  // ---------------------------------------------------------------- tallies

  /** The bucket counts of a histogram. */
  type Tally = c: seq<nat> | |c| == BUCKETS witness seq(BUCKETS, _ => 0)

  function Zero(): Tally { seq(BUCKETS, _ => 0) }

  function Bump(c: Tally, b: nat, n: nat): Tally
    requires b < BUCKETS
  {
    c[b := c[b] + n]
  }

  function Mean(total: real, occurrences: nat): real
    requires occurrences > 0
  {
    total / occurrences as real
  }

  /** record_many after the match on the observation. */
  function Record(c: Tally, o: Observation): Tally {
    match o
    case Unsigned(n) => Bump(c, BucketOf(n as real), 1)
    case Floating(f) => Bump(c, BucketOf(f), 1)
    case Repeated(total, occurrences) =>
      if occurrences > 0 then Bump(c, BucketOf(Mean(total, occurrences)), occurrences) else c
  }

  function RecordAll(c: Tally, os: seq<Observation>): Tally {
    if os == [] then c else Record(RecordAll(c, os[..|os| - 1]), os[|os| - 1])
  }

  /** `n` observations of `m`, as one. */
  function RepeatedOf(m: real, n: nat): Observation {
    Repeated(m * n as real, n)
  }

  /** The observation a non-empty bucket is closed into. */
  function BucketObservation(b: nat, n: nat): Observation {
    RepeatedOf(ReportedOf(b), n)
  }

  /** The observations of the first `k` buckets. */
  function DrainedUpTo(c: Tally, k: nat): seq<Observation>
    requires k <= BUCKETS
  {
    if k == 0 then []
    else DrainedUpTo(c, k - 1) + if c[k - 1] > 0 then [BucketObservation(k - 1, c[k - 1])] else []
  }

  lemma {:induction false} DrainedSnoc(c: Tally, k: nat)
    requires k < BUCKETS
    ensures DrainedUpTo(c, k + 1) == DrainedUpTo(c, k) + if c[k] > 0 then [BucketObservation(k, c[k])] else []
  {
  }

  function Drained(c: Tally): seq<Observation> {
    DrainedUpTo(c, |c|)
  }

  function Sum(a: Tally, b: Tally): Tally {
    seq(BUCKETS, i requires 0 <= i < BUCKETS => a[i] + b[i])
  }

  // ---------------------------------------------------------------- merging

  /** The non-empty ones of the first `k` buckets. */
  ghost function NonEmpty(c: Tally, k: nat): seq<nat>
    requires k <= BUCKETS
  {
    if k == 0 then [] else NonEmpty(c, k - 1) + if c[k - 1] > 0 then [k - 1] else []
  }

  lemma {:induction false} NonEmptyAre(c: Tally, k: nat, b: nat)
    requires k <= BUCKETS
    ensures b in NonEmpty(c, k) <==> b < k && c[b] > 0
    ensures forall i :: 0 <= i < |NonEmpty(c, k)| ==> NonEmpty(c, k)[i] < k
    ensures forall i, j :: 0 <= i < j < |NonEmpty(c, k)| ==> NonEmpty(c, k)[i] < NonEmpty(c, k)[j]
  {
    if k > 0 { NonEmptyAre(c, k - 1, b); }
  }

  lemma {:induction false} ReportedIs(b: nat)
    ensures ReportedOf(b) == Midpoint(b) as real / 1024.0
  {
  }

  lemma {:induction false} RepeatedIs(m: real, n: nat)
    ensures RepeatedOf(m, n).Repeated? && RepeatedOf(m, n).occurrences == n && RepeatedOf(m, n).total == m * n as real
  {
  }

  /** A closed histogram reports its non-empty buckets from the lowest to the highest, each with
      its count. */
  lemma {:induction false} ReportedAt(c: Tally, k: nat, i: nat)
    requires k <= BUCKETS && i < |NonEmpty(c, k)|
    ensures |DrainedUpTo(c, k)| == |NonEmpty(c, k)|
    ensures NonEmpty(c, k)[i] < k && DrainedUpTo(c, k)[i] == BucketObservation(NonEmpty(c, k)[i], c[NonEmpty(c, k)[i]])
  {
    DrainedSnoc(c, k - 1);
    SameNumber(c, k - 1);
    if i < |NonEmpty(c, k - 1)| { ReportedAt(c, k - 1, i); }
  }

  lemma {:induction false} SameNumber(c: Tally, k: nat)
    requires k <= BUCKETS
    ensures |DrainedUpTo(c, k)| == |NonEmpty(c, k)|
  {
    if k > 0 {
      DrainedSnoc(c, k - 1);
      SameNumber(c, k - 1);
    }
  }

  lemma {:induction false} MeanOfRepeated(m: real, n: nat)
    requires n > 0
    ensures Mean(RepeatedOf(m, n).total, n) == m
  {
  }

  lemma {:induction false} RecordRepeated(c: Tally, m: real, n: nat)
    requires n > 0
    ensures Record(c, RepeatedOf(m, n)) == Bump(c, BucketOf(m), n)
  {
    MeanOfRepeated(m, n);
  }

  lemma {:induction false} RecordBucketObservation(c: Tally, b: nat, n: nat)
    requires b < BUCKETS && n > 0
    ensures Record(c, BucketObservation(b, n)) == Bump(c, b, n)
  {
    ReportedStays(b);
    RecordRepeated(c, ReportedOf(b), n);
  }

  lemma {:induction false} RecordAllSnoc(c: Tally, os: seq<Observation>, o: Observation)
    ensures RecordAll(c, os + [o]) == Record(RecordAll(c, os), o)
  {
    assert (os + [o])[..|os|] == os;
  }

  lemma {:induction false} ReplayOne(a: Tally, os: seq<Observation>, b: nat, n: nat)
    requires b < BUCKETS && n > 0
    ensures RecordAll(a, os + [BucketObservation(b, n)]) == Bump(RecordAll(a, os), b, n)
  {
    RecordAllSnoc(a, os, BucketObservation(b, n));
    RecordBucketObservation(RecordAll(a, os), b, n);
  }

  lemma {:induction false} BumpByNothing(c: Tally, b: nat)
    requires b < BUCKETS
    ensures Bump(c, b, 0) == c
  {
  }

  lemma {:induction false} ReplayMaybe(a: Tally, os: seq<Observation>, b: nat, n: nat)
    requires b < BUCKETS
    ensures RecordAll(a, os + if n > 0 then [BucketObservation(b, n)] else []) == Bump(RecordAll(a, os), b, n)
  {
    if n > 0 { ReplayOne(a, os, b, n); }
    else {
      assert os + [] == os;
      BumpByNothing(RecordAll(a, os), b);
    }
  }

  lemma {:induction false} ReplayBucket(a: Tally, c: Tally, k: nat)
    requires 0 < k <= BUCKETS
    ensures RecordAll(a, DrainedUpTo(c, k)) == Bump(RecordAll(a, DrainedUpTo(c, k - 1)), k - 1, c[k - 1])
  {
    DrainedSnoc(c, k - 1);
    ReplayMaybe(a, DrainedUpTo(c, k - 1), k - 1, c[k - 1]);
  }

  /** `t` is `a` plus the first `k` counts of `c`. */
  ghost predicate Added(t: Tally, a: Tally, c: Tally, k: nat) {
    forall i :: 0 <= i < BUCKETS ==> t[i] == a[i] + if i < k then c[i] else 0
  }

  lemma {:induction false} AddedStep(t: Tally, a: Tally, c: Tally, k: nat)
    requires 0 < k <= BUCKETS && Added(t, a, c, k - 1)
    ensures Added(Bump(t, k - 1, c[k - 1]), a, c, k)
  {
  }

  lemma {:induction false} ReplayUpTo(a: Tally, c: Tally, k: nat)
    requires k <= BUCKETS
    ensures Added(RecordAll(a, DrainedUpTo(c, k)), a, c, k)
  {
    if k > 0 {
      ReplayUpTo(a, c, k - 1);
      var before := RecordAll(a, DrainedUpTo(c, k - 1));
      AddedStep(before, a, c, k);
      ReplayBucket(a, c, k);
    }
  }

  /** Replaying a closed histogram adds its counts bucket by bucket: no observation moves. */
  lemma {:induction false} ReplayAdds(a: Tally, c: Tally)
    ensures RecordAll(a, Drained(c)) == Sum(a, c)
  {
    ReplayUpTo(a, c, |c|);
  }

  /** Closing and replaying into an empty histogram gives the same histogram. */
  lemma {:induction false} CloseRoundTrip(c: Tally)
    ensures RecordAll(Zero(), Drained(c)) == c
  {
    ReplayAdds(Zero(), c);
  }

  lemma {:induction false} RecordOnSum(a: Tally, b: Tally, o: Observation)
    ensures Record(Sum(a, b), o) == Sum(a, Record(b, o))
  {
  }

  lemma {:induction false} RecordAllOnSum(a: Tally, b: Tally, os: seq<Observation>)
    ensures RecordAll(Sum(a, b), os) == Sum(a, RecordAll(b, os))
  {
    if os != [] {
      RecordAllOnSum(a, b, os[..|os| - 1]);
      RecordOnSum(a, RecordAll(b, os[..|os| - 1]), os[|os| - 1]);
    }
  }

  lemma {:induction false} RecordAllConcat(c: Tally, xs: seq<Observation>, ys: seq<Observation>)
    ensures RecordAll(c, xs + ys) == RecordAll(RecordAll(c, xs), ys)
  {
    if ys == [] {
      assert xs + ys == xs;
    } else {
      assert (xs + ys)[..|xs + ys| - 1] == xs + ys[..|ys| - 1];
      RecordAllConcat(c, xs, ys[..|ys| - 1]);
    }
  }

  lemma {:induction false} ReplayIsRecording(c: Tally, os: seq<Observation>)
    ensures RecordAll(c, Drained(RecordAll(Zero(), os))) == RecordAll(c, os)
  {
    ReplayAdds(c, RecordAll(Zero(), os));
    RecordAllOnSum(c, Zero(), os);
    assert Sum(c, Zero()) == c;
  }

  /** What happens to a histogram: values are added, and other histograms, which have such a
      history of their own, are closed and inserted. */
  datatype Event = Add(distribution: seq<Observation>) | Insert(shard: Shard)

  datatype Shard = Shard(events: seq<Event>)

  function Counts(s: Shard): Tally
    decreases s, |s.events| + 1
  {
    CountsUpTo(s, |s.events|)
  }

  function CountsUpTo(s: Shard, k: nat): Tally
    requires k <= |s.events|
    decreases s, k
  {
    if k == 0 then Zero()
    else match s.events[k - 1]
      case Add(distribution) => RecordAll(CountsUpTo(s, k - 1), distribution)
      case Insert(shard) => RecordAll(CountsUpTo(s, k - 1), Drained(Counts(shard)))
  }

  /** All original observations, in order. */
  function Originals(s: Shard): seq<Observation>
    decreases s, |s.events| + 1
  {
    OriginalsUpTo(s, |s.events|)
  }

  function OriginalsUpTo(s: Shard, k: nat): seq<Observation>
    requires k <= |s.events|
    decreases s, k
  {
    if k == 0 then []
    else
      var last := match s.events[k - 1]
        case Add(distribution) => distribution
        case Insert(shard) => Originals(shard);
      OriginalsUpTo(s, k - 1) + last
  }

  /** The observations behind an event. */
  function Behind(e: Event): seq<Observation>
    decreases e, 0
  {
    match e
    case Add(distribution) => distribution
    case Insert(shard) => Originals(shard)
  }

  lemma {:induction false} OriginalsNext(s: Shard, k: nat)
    requires 0 < k <= |s.events|
    ensures OriginalsUpTo(s, k) == OriginalsUpTo(s, k - 1) + Behind(s.events[k - 1])
  {
  }

  /** An event adds to any counts what recording its observations adds. */
  lemma {:induction false} EventRecords(s: Shard, k: nat)
    requires 0 < k <= |s.events|
    ensures CountsUpTo(s, k) == RecordAll(CountsUpTo(s, k - 1), Behind(s.events[k - 1]))
    decreases s, k, 0
  {
    match s.events[k - 1]
    case Add(_) =>
    case Insert(shard) =>
      MergeIsHomomorphism(shard);
      ReplayIsRecording(CountsUpTo(s, k - 1), Originals(shard));
  }

  lemma {:induction false} MergeUpTo(s: Shard, k: nat)
    requires k <= |s.events|
    ensures CountsUpTo(s, k) == RecordAll(Zero(), OriginalsUpTo(s, k))
    decreases s, k, 1
  {
    if k > 0 {
      var zero, last := Zero(), Behind(s.events[k - 1]);
      var os, counts := OriginalsUpTo(s, k - 1), CountsUpTo(s, k - 1);
      MergeUpTo(s, k - 1);
      assert counts == RecordAll(zero, os);
      EventRecords(s, k);
      var after := CountsUpTo(s, k);
      assert after == RecordAll(counts, last);
      RecordMore(zero, os, last, counts, after);
      OriginalsNext(s, k);
      assert OriginalsUpTo(s, k) == os + last;
    }
  }

  lemma {:induction false} RecordMore(c: Tally, os: seq<Observation>, more: seq<Observation>, before: Tally, after: Tally)
    requires before == RecordAll(c, os) && after == RecordAll(before, more)
    ensures after == RecordAll(c, os + more)
  {
    RecordAllConcat(c, os, more);
  }

  /** However histograms are split into shards, closed and merged again, every bucket ends up
      with the count it has when all original observations go into one histogram. */
  lemma {:induction false} MergeIsHomomorphism(s: Shard)
    ensures Counts(s) == RecordAll(Zero(), Originals(s))
    decreases s, |s.events| + 1
  {
    MergeUpTo(s, |s.events|);
  }

  // ---------------------------------------------------------------- order does not matter

  function Weight(o: Observation, b: nat): nat {
    match o
    case Unsigned(n) => if BucketOf(n as real) == b then 1 else 0
    case Floating(f) => if BucketOf(f) == b then 1 else 0
    case Repeated(total, occurrences) =>
      if occurrences > 0 && BucketOf(Mean(total, occurrences)) == b then occurrences else 0
  }

  function TotalWeight(os: seq<Observation>, b: nat): nat {
    if os == [] then 0 else TotalWeight(os[..|os| - 1], b) + Weight(os[|os| - 1], b)
  }

  lemma {:induction false} CountIsWeight(c: Tally, os: seq<Observation>, b: nat)
    requires b < BUCKETS
    ensures RecordAll(c, os)[b] == c[b] + TotalWeight(os, b)
  {
    if os != [] {
      CountIsWeight(c, os[..|os| - 1], b);
    }
  }

  lemma {:induction false} WeightConcat(xs: seq<Observation>, ys: seq<Observation>, b: nat)
    ensures TotalWeight(xs + ys, b) == TotalWeight(xs, b) + TotalWeight(ys, b)
  {
    if ys == [] {
      assert xs + ys == xs;
    } else {
      assert (xs + ys)[..|xs + ys| - 1] == xs + ys[..|ys| - 1];
      WeightConcat(xs, ys[..|ys| - 1], b);
    }
  }

  lemma {:induction false} WeightWithout(os: seq<Observation>, i: nat, b: nat)
    requires i < |os|
    ensures TotalWeight(os, b) == TotalWeight(os[..i] + os[i + 1..], b) + Weight(os[i], b)
  {
    var front, back := os[..i], os[i + 1..];
    assert os == os[..i + 1] + back && os[..i + 1][..i] == front;
    WeightConcat(os[..i + 1], back, b);
    WeightConcat(front, back, b);
  }

  lemma {:induction false} SameWeight(xs: seq<Observation>, ys: seq<Observation>, b: nat)
    requires multiset(xs) == multiset(ys)
    ensures TotalWeight(xs, b) == TotalWeight(ys, b)
  {
    if xs == [] {
      assert multiset(ys) == multiset{};
      assert |multiset(ys)| == |ys|;
    } else {
      var last := |xs| - 1;
      var x := xs[last];
      assert xs == xs[..last] + [x];
      assert x in multiset(ys);
      var i :| 0 <= i < |ys| && ys[i] == x;
      assert ys == ys[..i] + [x] + ys[i + 1..];
      assert multiset(ys[..i] + ys[i + 1..]) == multiset(ys) - multiset{x};
      assert multiset(xs[..last]) == multiset(xs) - multiset{x};
      SameWeight(xs[..last], ys[..i] + ys[i + 1..], b);
      WeightWithout(ys, i, b);
    }
  }

  /** Recording is insensitive to order, so threads that record through a shared histogram,
      one atomic addition at a time, reach the same counts in every interleaving. */
  lemma {:induction false} OrderIsIrrelevant(c: Tally, xs: seq<Observation>, ys: seq<Observation>)
    requires multiset(xs) == multiset(ys)
    ensures RecordAll(c, xs) == RecordAll(c, ys)
  {
    forall b | 0 <= b < BUCKETS ensures RecordAll(c, xs)[b] == RecordAll(c, ys)[b] {
      CountIsWeight(c, xs, b);
      CountIsWeight(c, ys, b);
      SameWeight(xs, ys, b);
    }
  }
}
