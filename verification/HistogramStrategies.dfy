/** The exponential strategy and the 32-bit histogram, as objects that change in place. */
module HistogramStrategies {
  import opened CommonTypes
  import opened Bucketing
  import opened ExponentialHistogram

  /** ExponentialAggregationStrategy; its atomic twin makes the same addition atomically. */
  class ExponentialStrategy {
    var inner: array<nat>

    ghost predicate Valid()
      reads this
    {
      inner.Length == BUCKETS
    }

    ghost function Tallied(): Tally
      requires Valid()
      reads this, inner
    {
      inner[..]
    }

    constructor ()
      ensures Valid() && fresh(inner) && Tallied() == Zero()
    {
      inner := new nat[BUCKETS](_ => 0);
    }

    method RecordMany(value: real, count: nat)
      requires Valid()
      modifies inner
      ensures Tallied() == Bump(old(Tallied()), BucketOf(value), count)
    {
      var b := BucketOf(value);
      inner[b] := inner[b] + count;
    }

    /** Histogram::close: report every non-empty bucket and start over with empty ones. */
    method Drain() returns (observations: seq<Observation>)
      requires Valid()
      modifies this
      ensures Valid() && fresh(inner) && Tallied() == Zero()
      ensures observations == Drained(old(Tallied()))
    {
      var snapshot := inner;
      inner := new nat[BUCKETS](_ => 0);
      observations := Collect(snapshot);
    }

    /** The observations of a snapshot's non-empty buckets, in bucket order. */
    static method Collect(snapshot: array<nat>) returns (observations: seq<Observation>)
      requires snapshot.Length == BUCKETS
      ensures observations == Drained(snapshot[..])
    {
      ghost var counts: Tally := snapshot[..];
      observations := [];
      var b := 0;
      while b < snapshot.Length
        invariant 0 <= b <= snapshot.Length
        invariant observations == DrainedUpTo(counts, b)
      {
        DrainedSnoc(counts, b);
        if snapshot[b] > 0 {
          observations := observations + [BucketObservation(b, snapshot[b])];
        }
        b := b + 1;
      }
    }

    /** Histogram::add_value, and the replay of a closed histogram by AggregateValue::insert:
        every observation is recorded. */
    method AddValue(distribution: seq<Observation>)
      requires Valid()
      modifies inner
      ensures Tallied() == RecordAll(old(Tallied()), distribution)
    {
      var i := 0;
      while i < |distribution|
        invariant 0 <= i <= |distribution|
        invariant Tallied() == RecordAll(old(Tallied()), distribution[..i])
      {
        match distribution[i] {
          case Unsigned(n) => RecordMany(n as real, 1);
          case Floating(f) => RecordMany(f, 1);
          case Repeated(total, occurrences) =>
            if occurrences > 0 {
              RecordMany(Mean(total, occurrences), occurrences);
            }
        }
        assert distribution[..i + 1] == distribution[..i] + [distribution[i]];
        RecordAllSnoc(old(Tallied()), distribution[..i], distribution[i]);
        i := i + 1;
      }
      assert distribution[..i] == distribution;
    }

    /** Close `shard` and insert it here: its counts are added and it is left empty. */
    method Merge(shard: ExponentialStrategy)
      requires Valid() && shard.Valid() && shard != this && shard.inner != inner
      modifies shard, inner
      ensures Valid() && Tallied() == Sum(old(Tallied()), old(shard.Tallied()))
      ensures shard.Valid() && shard.Tallied() == Zero()
    {
      var closed := shard.Drain();
      AddValue(closed);
      ReplayAdds(old(Tallied()), old(shard.Tallied()));
    }
  }

  // ---------------------------------------------------------------- metrics_histogram.rs

  const U32_MAX: nat := 0xFFFF_FFFF
  const BUCKETS32: nat := 464

  lemma {:induction false} InRange32(n: nat)
    ensures n <= U32_MAX <==> Index(n) < BUCKETS32
  {
    var bits: nat :| bits == 32;
    var none := bits - 32;
    ShlBy16(none);
    ShlBy16(none + 16);
    assert Shl(1, none) == 1;
    BucketsCoverBits(bits, n);
  }

  /** `as u32` from an integer: wraps. */
  function WrapU32(n: nat): nat { n % 0x1_0000_0000 }

  /** A reported count is the one below 2^32 that differs by a multiple of 2^32. */
  lemma {:induction false} WrapIs(n: nat)
    ensures WrapU32(n) < 4294967296 && exists k: nat :: n == WrapU32(n) + 4294967296 * k
  {
    assert n == WrapU32(n) + 4294967296 * (n / 4294967296);
  }

  /** `as u32` from a float: saturates. */
  function AsU32(v: real): (n: nat)
    ensures n <= U32_MAX
  {
    if v < 0.0 then 0 else if v.Floor > U32_MAX then U32_MAX else v.Floor
  }

  /** `n` is `v` without its fraction, or the nearest 32-bit number if `v` is out of range. */
  ghost predicate Truncated(v: real, n: nat) {
    if v < 0.0 then n == 0
    else if v < 4294967296.0 then n as real <= v < n as real + 1.0
    else n == 4294967295
  }

  datatype Bucket = Bucket(value: nat, count: nat)

  /** The reports of the first `k` buckets. */
  function Reports(c: seq<nat>, k: nat): seq<Bucket>
    requires k <= |c| == BUCKETS32
  {
    if k == 0 then []
    else
      MidpointStays(k - 1);
      Reports(c, k - 1) + if c[k - 1] > 0 then [Bucket(Midpoint(k - 1), WrapU32(c[k - 1]))] else []
  }

  /** How many of the values have index `b`. */
  ghost function CountAt(values: seq<nat>, b: nat): nat {
    if values == [] then 0
    else CountAt(values[..|values| - 1], b) + if Index(values[|values| - 1]) == b then 1 else 0
  }

  /** The counts are those of the values. */
  ghost predicate CountsOf(c: seq<nat>, values: seq<nat>) {
    && |c| == BUCKETS32
    && (forall b :: 0 <= b < BUCKETS32 ==> c[b] == CountAt(values, b))
    && (forall i :: 0 <= i < |values| ==> values[i] <= U32_MAX)
  }

  lemma {:induction false} CountsSnoc(c: seq<nat>, values: seq<nat>, v: nat)
    requires CountsOf(c, values) && v <= U32_MAX
    ensures Index(v) < BUCKETS32 && CountsOf(c[Index(v) := c[Index(v)] + 1], values + [v])
  {
    InRange32(v);
    assert (values + [v])[..|values|] == values;
  }

  lemma {:induction false} CountedIfThere(values: seq<nat>, i: nat)
    requires i < |values|
    ensures CountAt(values, Index(values[i])) > 0
  {
    if i < |values| - 1 { CountedIfThere(values[..|values| - 1], i); }
  }

  /** The report is the midpoint of a bucket with the number of values in that bucket. */
  ghost predicate Faithful(r: Bucket, values: seq<nat>) {
    exists b :: 0 <= b < BUCKETS32 && r.value == Midpoint(b)
                && CountAt(values, b) > 0 && r.count == WrapU32(CountAt(values, b))
  }

  /** The reports of the first `k` buckets: increasing and below bucket `k`, each counting
      exactly the values of its bucket, and one for every value with a smaller index. */
  ghost predicate ReportsAll(rs: seq<Bucket>, values: seq<nat>, k: nat) {
    && (forall i, j :: 0 <= i < j < |rs| ==> rs[i].value < rs[j].value)
    && (forall i :: 0 <= i < |rs| ==> Faithful(rs[i], values) && (k < BUCKETS32 ==> rs[i].value < Start(k)))
    && (forall i :: 0 <= i < |values| && Index(values[i]) < k ==> Has(rs, Midpoint(Index(values[i]))))
  }

  ghost predicate Has(rs: seq<Bucket>, value: int) {
    exists i :: 0 <= i < |rs| && rs[i].value == value
  }

  /** One of the reports is in the bucket of `v` and within 1/32 of it. */
  ghost predicate ReportedClose(rs: seq<Bucket>, v: nat) {
    exists i :: 0 <= i < |rs| && rs[i].value == Midpoint(Index(v))
                && 32 * (rs[i].value - v) <= v && 32 * (v - rs[i].value) <= v
  }

  lemma {:induction false} HasKept(rs: seq<Bucket>, r: Bucket, value: int)
    requires Has(rs, value) || r.value == value
    ensures Has(rs + [r], value)
  {
    if Has(rs, value) {
      var i :| 0 <= i < |rs| && rs[i].value == value;
      assert (rs + [r])[i].value == value;
    } else {
      assert (rs + [r])[|rs|].value == value;
    }
  }

  /** The midpoint of a bucket lies before the next bucket and not before its own. */
  lemma {:induction false} MidpointsInOrder(b: nat)
    ensures Start(b) <= Midpoint(b) < Start(b + 1)
  {
    MidpointStays(b);
    RangesPartition(Midpoint(b), b);
    NextStart(b);
  }

  lemma {:induction false} OneMoreReport(rs: seq<Bucket>, r: Bucket, values: seq<nat>, k: nat)
    ensures k < BUCKETS32 && ReportsAll(rs, values, k) && Faithful(r, values) && r.value == Midpoint(k)
            ==> ReportsAll(rs + [r], values, k + 1)
  {
    if k < BUCKETS32 && ReportsAll(rs, values, k) && Faithful(r, values) && r.value == Midpoint(k) {
      MidpointsInOrder(k);
      forall i | 0 <= i < |values| && Index(values[i]) < k + 1
        ensures Has(rs + [r], Midpoint(Index(values[i])))
      {
        HasKept(rs, r, Midpoint(Index(values[i])));
      }
    }
  }

  lemma {:induction false} NoMoreReport(rs: seq<Bucket>, values: seq<nat>, k: nat)
    requires k < BUCKETS32 && ReportsAll(rs, values, k) && CountAt(values, k) == 0
    ensures ReportsAll(rs, values, k + 1)
  {
    MidpointsInOrder(k);
    forall i | 0 <= i < |values| ensures Index(values[i]) != k { CountedIfThere(values, i); }
  }

  lemma {:induction false} ReportsUpTo(c: seq<nat>, values: seq<nat>, k: nat)
    requires CountsOf(c, values) && k <= BUCKETS32
    ensures ReportsAll(Reports(c, k), values, k)
  {
    if k > 0 {
      ReportsUpTo(c, values, k - 1);
      var rs, count := Reports(c, k - 1), CountAt(values, k - 1);
      MidpointStays(k - 1);
      if count > 0 {
        var r := Bucket(Midpoint(k - 1), WrapU32(count));
        assert Reports(c, k) == rs + [r];
        OneMoreReport(rs, r, values, k - 1);
      } else {
        assert Reports(c, k) == rs;
        NoMoreReport(rs, values, k - 1);
      }
    }
  }

  /** What a drained histogram reports of the recorded values: increasing bucket values, each
      with the number of values recorded in that bucket, and for each recorded value a report
      within 1/32 of it. */
  lemma {:induction false} ReportsAreFaithful(c: seq<nat>, values: seq<nat>, v: nat)
    requires CountsOf(c, values)
    ensures var rs := Reports(c, |c|);
            && (forall i, j :: 0 <= i < j < |rs| ==> rs[i].value < rs[j].value)
            && (forall i :: 0 <= i < |rs| ==> Faithful(rs[i], values))
            && (v in values ==> ReportedClose(rs, v))
  {
    ReportsUpTo(c, values, |c|);
    if v in values {
      InRange32(v);
      assert Has(Reports(c, |c|), Midpoint(Index(v)));
      Accuracy32(v);
    }
  }

  lemma {:induction false} Midpoint32(b: nat)
    requires b < BUCKETS32
    ensures 0 <= Midpoint(b) <= U32_MAX && WrapU32(Midpoint(b)) == Midpoint(b)
  {
    MidpointStays(b);
    InRange32(Midpoint(b));
  }

  class Histogram32 {
    const inner: array<nat>
    /** The values recorded since the last drain. */
    ghost var recorded: seq<nat>

    ghost predicate Valid()
      reads this, inner
    {
      CountsOf(inner[..], recorded)
    }

    constructor ()
      ensures Valid() && fresh(inner) && recorded == []
    {
      inner := new nat[BUCKETS32](_ => 0);
      recorded := [];
    }

    /** Histogram::record. The value is within bounds because of its type. */
    method Record(value: nat)
      requires Valid() && value <= U32_MAX
      modifies this, inner
      ensures Valid() && recorded == old(recorded) + [value]
      ensures Index(value) < BUCKETS32
      ensures inner[..] == old(inner[..])[Index(value) := old(inner[..])[Index(value)] + 1]
    {
      InRange32(value);
      CountsSnoc(inner[..], recorded, value);
      inner[Index(value)] := inner[Index(value)] + 1;
      recorded := recorded + [value];
    }

    /** HistogramFn::record, for a float: what is recorded is its truncation. */
    method RecordFloat(value: real)
      requires Valid()
      modifies this, inner
      ensures Valid() && |recorded| == |old(recorded)| + 1 && recorded[..|old(recorded)|] == old(recorded)
      ensures Truncated(value, recorded[|old(recorded)|])
      ensures var b := Index(recorded[|old(recorded)|]);
              b < BUCKETS32 && inner[..] == old(inner[..])[b := old(inner[..])[b] + 1]
    {
      if value > U32_MAX as real {
        Record(U32_MAX);
      } else {
        Record(AsU32(value));
      }
    }

    /** Histogram::drain: report the non-empty buckets and reset all counts. */
    method Drain() returns (buckets: seq<Bucket>)
      requires Valid()
      modifies this, inner
      ensures Valid() && recorded == []
      ensures buckets == Reports(old(inner[..]), |old(inner[..])|)
      ensures forall i, j :: 0 <= i < j < |buckets| ==> buckets[i].value < buckets[j].value
      ensures forall i :: 0 <= i < |buckets| ==> Faithful(buckets[i], old(recorded))
      ensures forall i :: 0 <= i < |old(recorded)| ==> ReportedClose(buckets, old(recorded)[i])
    {
      buckets := Empty();
      ReportsUpTo(old(inner[..]), old(recorded), BUCKETS32);
      forall i | 0 <= i < |recorded| ensures ReportedClose(buckets, recorded[i]) {
        InRange32(recorded[i]);
        Accuracy32(recorded[i]);
        assert Has(buckets, Midpoint(Index(recorded[i])));
      }
      recorded := [];
    }

    /** The loop of `drain`: each bucket is read and reset. */
    method Empty() returns (buckets: seq<Bucket>)
      requires inner.Length == BUCKETS32
      modifies inner
      ensures buckets == Reports(old(inner[..]), |old(inner[..])|)
      ensures forall b :: 0 <= b < BUCKETS32 ==> inner[b] == 0
    {
      ghost var counts := inner[..];
      buckets := [];
      var b := 0;
      while b < inner.Length
        invariant 0 <= b <= inner.Length
        invariant buckets == Reports(counts, b)
        invariant forall i :: 0 <= i < inner.Length ==> inner[i] == if i < b then 0 else counts[i]
      {
        var count := inner[b];
        inner[b] := 0;
        ReportsNext(counts, b);
        if count > 0 { buckets := buckets + [ReportOf(b, count)]; }
        b := b + 1;
      }
    }
  }

  /** The report of a bucket, as `drain` computes it. */
  function ReportOf(b: nat, count: nat): Bucket
    requires b < BUCKETS32
  {
    Midpoint32(b);
    MidpointsAgree(b);
    Bucket(WrapU32(StartPlusHalf(Start(b), End(b))), WrapU32(count))
  }

  lemma {:induction false} ReportsNext(c: seq<nat>, b: nat)
    requires b < |c| == BUCKETS32
    ensures Reports(c, b + 1) == if c[b] > 0 then Reports(c, b) + [ReportOf(b, c[b])] else Reports(c, b)
  {
    Midpoint32(b);
    MidpointsAgree(b);
    assert Reports(c, b) + [] == Reports(c, b);
  }

  /** Every 32-bit value is reported within 1/32 of itself, and exactly below 32. */
  lemma {:induction false} Accuracy32(v: nat)
    requires v <= U32_MAX
    ensures var reported := Midpoint(Index(v));
            32 * (reported - v) <= v && 32 * (v - reported) <= v && (v < 32 ==> reported == v)
  {
    MidpointIsClose(v);
  }
}
