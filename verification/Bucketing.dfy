/**
  The bucket layout of `histogram::Config::new(4, bits)`: values below 32 have buckets of
  their own, larger ones sixteen buckets per power of two.
 */
module Bucketing {

  /** m << e */
  function Shl(m: nat, e: nat): nat {
    if e == 0 then m else 2 * Shl(m, e - 1)
  }

  /** v >> e */
  function Shr(v: nat, e: nat): nat {
    if e == 0 then v else Shr(v / 2, e - 1)
  }

  /** Rounded-down binary logarithm. */
  function Log2(v: nat): nat {
    if v < 2 then 0 else 1 + Log2(v / 2)
  }

  /** The bucket of `v`: its leading one and the four bits after it, and how far they are shifted. */
  function Index(v: nat): nat {
    if v < 32 then v
    else
      LeadingBits(v);
      16 * (Log2(v) - 4) + Shr(v, Log2(v) - 4)
  }

  function TotalBuckets(bits: nat): nat
    requires bits >= 5
  {
    16 * (bits - 3)
  }

  function Exponent(b: nat): nat {
    if b < 32 then 0 else b / 16 - 1
  }

  function Mantissa(b: nat): nat {
    b - 16 * Exponent(b)
  }

  function Start(b: nat): nat {
    Shl(Mantissa(b), Exponent(b))
  }

  function End(b: nat): int {
    Shl(Mantissa(b) + 1, Exponent(b)) - 1
  }

  /** u64::midpoint of the bucket's range, rounding down. */
  function Midpoint(b: nat): int {
    (Start(b) + End(b)) / 2
  }

  // ---------------------------------------------------------------- shifts

  lemma {:induction false} ShlMonotone(a: nat, b: nat, e: nat)
    ensures a < b <==> Shl(a, e) < Shl(b, e)
  {
    if e > 0 {
      ShlMonotone(a, b, e - 1);
    }
  }

  lemma {:induction false} ShlAdds(a: nat, b: nat, e: nat)
    ensures Shl(a + b, e) == Shl(a, e) + Shl(b, e)
  {
    if e > 0 {
      ShlAdds(a, b, e - 1);
    }
  }

  lemma {:induction false} ShlDouble(m: nat, e: nat)
    ensures Shl(2 * m, e) == 2 * Shl(m, e)
  {
    if e > 0 {
      ShlDouble(m, e - 1);
    }
  }

  /** A value lies between its leading bits shifted back and the next such number. */
  lemma {:induction false} ShrBounds(v: nat, e: nat)
    ensures Shl(Shr(v, e), e) <= v < Shl(Shr(v, e) + 1, e)
  {
    if e > 0 {
      ShrBounds(v / 2, e - 1);
    }
  }

  lemma {:induction false} ShrUnique(v: nat, m: nat, e: nat)
    requires Shl(m, e) <= v < Shl(m + 1, e)
    ensures Shr(v, e) == m
  {
    ShrBounds(v, e);
    ShlMonotone(Shr(v, e), m + 1, e);
    ShlMonotone(m, Shr(v, e) + 1, e);
  }

  /** Shifting out all but five bits. */
  lemma {:induction false} LeadingBits(v: nat)
    requires v >= 16
    ensures Log2(v) >= 4 && 16 <= Shr(v, Log2(v) - 4) < 32
    ensures v >= 32 ==> Log2(v) >= 5
  {
    if v >= 32 {
      LeadingBits(v / 2);
    } else {
      assert Log2(v) == 1 + Log2(v / 2) == 2 + Log2(v / 4) == 3 + Log2(v / 8) == 4 + Log2(v / 16);
    }
  }

  lemma {:induction false} LogOfShifted(v: nat, m: nat, e: nat)
    requires 16 <= m < 32 && Shl(m, e) <= v < Shl(m + 1, e)
    ensures Log2(v) == e + 4
  {
    if e == 0 {
      assert v == m;
      assert Log2(v) == 1 + Log2(v / 2) == 2 + Log2(v / 4) == 3 + Log2(v / 8) == 4 + Log2(v / 16);
    } else {
      LogOfShifted(v / 2, m, e - 1);
      AtLeast(m, e);
    }
  }

  lemma {:induction false} AtLeast(m: nat, e: nat)
    ensures Shl(m, e) >= m
    ensures e > 0 ==> Shl(m, e) >= 2 * m
  {
    if e > 0 {
      AtLeast(m, e - 1);
    }
  }

  // ---------------------------------------------------------------- buckets partition the integers

  lemma {:induction false} ParseIndex(e: nat, m: nat)
    requires e > 0 && 16 <= m < 32
    ensures Exponent(16 * e + m) == e && Mantissa(16 * e + m) == m
  {
    assert (16 * e + m) / 16 == e + 1;
  }

  /** Every value lies in the range of its bucket ... */
  lemma {:induction false} InItsBucket(v: nat)
    ensures Start(Index(v)) <= v <= End(Index(v))
  {
    if v >= 32 {
      LeadingBits(v);
      var e := Log2(v) - 4;
      ParseIndex(e, Shr(v, e));
      ShrBounds(v, e);
    }
  }

  /** ... and in no other bucket's range, so the ranges partition the integers. */
  lemma {:induction false} RangesPartition(v: nat, b: nat)
    ensures Start(b) <= v <= End(b) <==> Index(v) == b
  {
    InItsBucket(v);
    if b >= 32 && Start(b) <= v <= End(b) {
      var e, m := Exponent(b), Mantissa(b);
      assert 16 <= m < 32 && e > 0;
      LogOfShifted(v, m, e);
      ShrUnique(v, m, e);
      AtLeast(m, e);
    }
  }

  lemma {:induction false} NextSixteenth(b: nat)
    ensures (b + 1) / 16 == b / 16 + if b % 16 == 15 then 1 else 0
  {
  }

  lemma {:induction false} NextParts(b: nat)
    ensures if b >= 31 && b % 16 == 15
            then Exponent(b + 1) == Exponent(b) + 1 && Mantissa(b + 1) == 16 && Mantissa(b) == 31
            else Exponent(b + 1) == Exponent(b) && Mantissa(b + 1) == Mantissa(b) + 1
  {
    NextSixteenth(b);
    assert b == 16 * (b / 16) + b % 16;
  }

  lemma {:induction false} NextStart(b: nat)
    ensures End(b) + 1 == Start(b + 1)
  {
    NextParts(b);
    ShlDouble(16, Exponent(b));
  }

  lemma {:induction false} BucketNotEmpty(b: nat)
    ensures Start(b) <= End(b)
  {
    ShlMonotone(Mantissa(b), Mantissa(b) + 1, Exponent(b));
  }

  lemma {:induction false} StartsIncrease(a: nat, b: nat)
    requires a < b
    ensures End(a) < Start(b)
  {
    NextStart(b - 1);
    if a < b - 1 {
      StartsIncrease(a, b - 1);
      BucketNotEmpty(b - 1);
    }
  }

  /** The index is monotone. */
  lemma {:induction false} IndexMonotone(v: nat, w: nat)
    requires v <= w
    ensures Index(v) <= Index(w)
  {
    InItsBucket(v);
    InItsBucket(w);
    if Index(w) < Index(v) {
      StartsIncrease(Index(w), Index(v));
    }
  }

  lemma {:induction false} FirstBeyond(bits: nat)
    requires bits >= 5
    ensures Start(TotalBuckets(bits)) == Shl(1, bits)
  {
    var b := TotalBuckets(bits);
    assert b / 16 == bits - 3;
    assert Exponent(b) == bits - 4 && Mantissa(b) == 16;
    ShlDouble(8, bits - 4);
    ShlDouble(4, bits - 4);
    ShlDouble(2, bits - 4);
    ShlDouble(1, bits - 4);
    assert Shl(1, bits) == 2 * Shl(1, bits - 1) == 4 * Shl(1, bits - 2) == 8 * Shl(1, bits - 3) == 16 * Shl(1, bits - 4);
  }

  /** The values of `bits` bits are exactly those of the first TotalBuckets(bits) buckets. */
  lemma {:induction false} BucketsCoverBits(bits: nat, v: nat)
    requires bits >= 5
    ensures v < Shl(1, bits) <==> Index(v) < TotalBuckets(bits)
  {
    FirstBeyond(bits);
    InItsBucket(v);
    var n := TotalBuckets(bits);
    if v < Shl(1, bits) {
      if Index(v) > n {
        StartsIncrease(n, Index(v));
        BucketNotEmpty(n);
      }
    } else if Index(v) < n {
      StartsIncrease(Index(v), n);
    }
  }

  /** 464 buckets for 32 bits and 976 for 64. */
  lemma {:induction false} BucketTotals()
    ensures TotalBuckets(32) == 464 && TotalBuckets(64) == 976
  {
  }

  // ---------------------------------------------------------------- midpoints

  /** The midpoint of a bucket falls into that bucket again. */
  lemma {:induction false} MidpointStays(b: nat)
    ensures Start(b) <= Midpoint(b) <= End(b) && Index(Midpoint(b)) == b
  {
    BucketNotEmpty(b);
    RangesPartition(Midpoint(b), b);
  }

  /** fn midpoint of metrics_histogram.rs: the start plus half the size. */
  function StartPlusHalf(start: nat, end: int): int {
    start + (end - start) / 2
  }

  lemma {:induction false} MidpointsAgree(b: nat)
    ensures StartPlusHalf(Start(b), End(b)) == Midpoint(b)
  {
    var start, end := Start(b), End(b);
    assert start + end == 2 * start + (end - start);
  }

  lemma {:induction false} HalfSize(b: nat)
    requires b >= 32
    ensures var half := Shl(1, Exponent(b) - 1);
            Midpoint(b) == Start(b) + half - 1 && End(b) == Start(b) + 2 * half - 1
    ensures 32 * Shl(1, Exponent(b) - 1) <= Start(b)
  {
    var e, m := Exponent(b), Mantissa(b);
    ShlAdds(m, 1, e);
    assert Shl(1, e) == 2 * Shl(1, e - 1);
    ShlMonotone(m, 16, e);
    ShlDouble(8, e);
    ShlDouble(4, e);
    ShlDouble(2, e);
    ShlDouble(1, e);
  }

  /** The midpoint of the bucket of `v` is within v/32 of it. */
  lemma {:induction false} MidpointIsClose(v: nat)
    ensures 32 * (Midpoint(Index(v)) - v) <= v && 32 * (v - Midpoint(Index(v))) <= v
    ensures v < 32 ==> Midpoint(Index(v)) == v
  {
    InItsBucket(v);
    if v >= 32 {
      LeadingBits(v);
      HalfSize(Index(v));
    }
  }
}
