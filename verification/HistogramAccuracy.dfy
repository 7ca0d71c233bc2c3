/** How far the value reported for a recording is from the recorded value. */
module HistogramAccuracy {
  import opened CommonTypes
  import opened Bucketing
  import opened ExponentialHistogram

  /** The value a histogram that recorded only `x` reports. */
  function Reported(x: real): real {
    ReportedOf(BucketOf(x))
  }

  function Abs(x: real): real {
    if x < 0.0 then -x else x
  }

  /** Within 6.25 percent. */
  predicate Accurate(x: real) {
    16.0 * Abs(Reported(x) - x) <= Abs(x)
  }

  /** Midpoint of the last bucket. */
  const TOP: nat := 18158513697557839871

  /** In scaled units: `s` is the scaled value, `n` the integer it is truncated to. */
  lemma {:induction false} CloseWhenTruncated(s: real, n: nat)
    requires 16.0 <= s && n as real <= s < n as real + 1.0
    ensures var mid := Midpoint(Index(n)) as real;
            16.0 * (mid - s) <= s && 16.0 * (s - mid) <= s
  {
    MidpointIsClose(n);
  }

  lemma {:induction false} SmallStaysItself(n: nat)
    requires n < 32
    ensures Midpoint(Index(n)) == n
  {
    MidpointIsClose(n);
  }

  lemma {:induction false} TruncatedIs(x: real)
    requires 0.0 <= x < 18014398509481984.0
    ensures Scaled(x) as real <= 1024.0 * x < Scaled(x) as real + 1.0
  {
  }

  /** Every value from 1/64 up to 2^54 is reported within 6.25 percent. */
  lemma {:induction false} AccurateInRange(x: real)
    requires 0.015625 <= x < 18014398509481984.0
    ensures Accurate(x)
  {
    TruncatedIs(x);
    CloseWhenTruncated(1024.0 * x, Scaled(x));
  }

  /** Smaller values are reported truncated to a multiple of 1/1024. */
  lemma {:induction false} SmallIsTruncated(x: real)
    requires 0.0 <= x < 0.015625
    ensures Reported(x) == (1024.0 * x).Floor as real / 1024.0
  {
    SmallStaysItself(Scaled(x));
  }

  lemma {:induction false} TopMidpoint()
    ensures Index(U64_MAX) == BUCKETS - 1 && Midpoint(BUCKETS - 1) == TOP
  {
    InRange(U64_MAX);
    InRange(U64_MAX + 1);
    IndexMonotone(U64_MAX, U64_MAX + 1);
    NextStart(BUCKETS - 1);
    LastBucket(BUCKETS - 1);
  }

  lemma {:induction false} LastBucket(b: nat)
    requires b == BUCKETS - 1
    ensures Start(b) == 31 * 0x800_0000_0000_0000 && End(b) == U64_MAX && Index(U64_MAX) == b
  {
    assert Exponent(b) == 59 && Mantissa(b) == 31;
    var e := Exponent(b);
    ShlOfTop(e);
    SixtyFourBits(e + 5);
    assert Shl(1, e + 5) == 2 * Shl(1, e + 4) == 4 * Shl(1, e + 3) == 8 * Shl(1, e + 2) == 16 * Shl(1, e + 1) == 32 * Shl(1, e);
    RangesPartition(U64_MAX, b);
  }

  lemma {:induction false} ShlOfTop(e: nat)
    ensures Shl(32, e) == 32 * Shl(1, e) && Shl(31, e) == 31 * Shl(1, e)
  {
    ShlDouble(1, e);
    ShlDouble(2, e);
    ShlDouble(4, e);
    ShlDouble(8, e);
    ShlDouble(16, e);
    ShlAdds(31, 1, e);
  }

  /** Values from 2^54 on are all reported as the midpoint of the last bucket. */
  lemma {:induction false} LargeIsCapped(x: real)
    requires x >= 18014398509481984.0
    ensures Reported(x) == TOP as real / 1024.0
  {
    assert Scaled(x) == U64_MAX;
    TopMidpoint();
  }

  /** Negative values are reported as zero. */
  lemma {:induction false} NegativeIsZero(x: real)
    requires x < 0.0
    ensures Reported(x) == 0.0
  {
    assert Scaled(x) == 0;
    SmallStaysItself(0);
  }

  /** Exactly which values are reported within 6.25 percent: those from 1/64 up to 16/15 of
      the largest midpoint, zero, and below 1/64 those close enough to a multiple of 1/1024. */
  lemma {:induction false} AccurateIff(x: real)
    ensures Accurate(x) <==>
              if x < 0.0 then false
              else if x < 0.015625 then 1024.0 * x - (1024.0 * x).Floor as real <= 64.0 * x
              else 15360.0 * x <= 16.0 * TOP as real
  {
    if x < 0.0 {
      NegativeIsZero(x);
    } else if x < 0.015625 {
      SmallIsTruncated(x);
    } else if x < 18014398509481984.0 {
      AccurateInRange(x);
    } else {
      LargeIsCapped(x);
    }
  }

  /** 1/2048 is reported as zero. */
  lemma {:induction false} NotAccurateBelow()
    ensures Reported(0.00048828125) == 0.0 && !Accurate(0.00048828125)
  {
    SmallIsTruncated(0.00048828125);
  }
}
