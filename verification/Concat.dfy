/**
  Strings concatenated at compile time: a tree of constants, a length-limited fast path that
  the compiler evaluates, and a slow path that appends to a buffer.  Strings are their UTF-8
  bytes.
 */
module Concat {

  newtype byte = x: int | 0 <= x < 256

  // ---------------------------------------------------------------- UTF-8

  predicate Continuation(b: byte) { 0x80 <= b <= 0xBF }

  /** Length of the well-formed character at the front of `s`, 0 if there is none
      (Table 3-7 of the Unicode Standard, the same as section 4 of RFC 3629). */
  function CharLength(s: seq<byte>): (n: nat)
    ensures n <= |s|
  {
    if |s| >= 1 && s[0] <= 0x7F then 1
    else if |s| >= 2 && 0xC2 <= s[0] <= 0xDF && Continuation(s[1]) then 2
    else if |s| >= 3 && 0xE0 <= s[0] <= 0xEF && Continuation(s[1]) && Continuation(s[2])
         && (s[0] == 0xE0 ==> s[1] >= 0xA0) && (s[0] == 0xED ==> s[1] <= 0x9F) then 3
    else if |s| >= 4 && 0xF0 <= s[0] <= 0xF4 && Continuation(s[1]) && Continuation(s[2]) && Continuation(s[3])
         && (s[0] == 0xF0 ==> s[1] >= 0x90) && (s[0] == 0xF4 ==> s[1] <= 0x8F) then 4
    else 0
  }

  predicate ValidUtf8(s: seq<byte>) {
    s == [] || (CharLength(s) > 0 && ValidUtf8(s[CharLength(s)..]))
  }

  /** A Unicode scalar value, and its UTF-8 encoding (section 3 of RFC 3629). */
  predicate Scalar(cp: int) {
    0 <= cp < 0xD800 || 0xE000 <= cp < 0x11_0000
  }

  function Encoded(cp: int): seq<byte>
    requires Scalar(cp)
  {
    if cp < 0x80 then [cp as byte]
    else if cp < 0x800 then [(0xC0 + cp / 64) as byte, (0x80 + cp % 64) as byte]
    else if cp < 0x1_0000 then [(0xE0 + cp / 4096) as byte, (0x80 + cp / 64 % 64) as byte, (0x80 + cp % 64) as byte]
    else [(0xF0 + cp / 262144) as byte, (0x80 + cp / 4096 % 64) as byte, (0x80 + cp / 64 % 64) as byte, (0x80 + cp % 64) as byte]
  }

  /** Text begins with a character exactly if it begins with the encoding of a scalar value. */
  lemma {:induction false} EncodedIsCharacter(cp: int, rest: seq<byte>)
    requires Scalar(cp)
    ensures CharLength(Encoded(cp) + rest) == |Encoded(cp)|
  {
  }

  /** The scalar value at the front. */
  function Decoded(s: seq<byte>): int
    requires CharLength(s) > 0
  {
    match CharLength(s)
    case 1 => s[0] as int
    case 2 => (s[0] as int - 0xC0) * 64 + (s[1] as int - 0x80)
    case 3 => (s[0] as int - 0xE0) * 4096 + (s[1] as int - 0x80) * 64 + (s[2] as int - 0x80)
    case _ => (s[0] as int - 0xF0) * 262144 + (s[1] as int - 0x80) * 4096 + (s[2] as int - 0x80) * 64 + (s[3] as int - 0x80)
  }

  lemma {:induction false} CharacterIsEncoded(s: seq<byte>)
    requires CharLength(s) > 0
    ensures Scalar(Decoded(s)) && Encoded(Decoded(s)) == s[..CharLength(s)]
  {
    match CharLength(s)
    case 1 =>
    case 2 =>
      Digits64(s[0] as int - 0xC0, s[1] as int - 0x80);
    case 3 => ThreeBytes(s);
    case _ => FourBytes(s);
  }

  /** Numbers written in base 64. */
  lemma {:induction false} Digits64(a: int, b: int)
    requires 0 <= b < 64
    ensures (a * 64 + b) / 64 == a && (a * 64 + b) % 64 == b
  {
  }

  lemma {:induction false} ThreeBytes(s: seq<byte>)
    requires CharLength(s) == 3
    ensures Scalar(Decoded(s)) && Encoded(Decoded(s)) == s[..3]
  {
    var a, b, c := s[0] as int - 0xE0, s[1] as int - 0x80, s[2] as int - 0x80;
    var cp := Decoded(s);
    assert cp == (a * 64 + b) * 64 + c;
    Digits64(a * 64 + b, c);
    Digits64(a, b);
    assert cp / 4096 == a;
  }

  lemma {:induction false} FourBytes(s: seq<byte>)
    requires CharLength(s) == 4
    ensures Scalar(Decoded(s)) && Encoded(Decoded(s)) == s[..4]
  {
    var a, b, c, e := s[0] as int - 0xF0, s[1] as int - 0x80, s[2] as int - 0x80, s[3] as int - 0x80;
    var cp := Decoded(s);
    assert cp == ((a * 64 + b) * 64 + c) * 64 + e;
    Digits64((a * 64 + b) * 64 + c, e);
    Digits64(a * 64 + b, c);
    Digits64(a, b);
    assert cp / 4096 == a * 64 + b;
    assert cp / 262144 == a;
  }

  lemma {:induction false} ValidConcat(a: seq<byte>, b: seq<byte>)
    requires ValidUtf8(a) && ValidUtf8(b)
    ensures ValidUtf8(a + b)
  {
    if a == [] {
      assert a + b == b;
    } else {
      var n := CharLength(a);
      FrontCharacter(a, b);
      assert (a + b)[n..] == a[n..] + b;
      ValidConcat(a[n..], b);
    }
  }

  lemma {:induction false} FrontCharacter(a: seq<byte>, b: seq<byte>)
    requires CharLength(a) > 0
    ensures CharLength(a + b) == CharLength(a)
  {
  }

  // ---------------------------------------------------------------- concatenate_strings

  function ConcatenateStrings(n: nat, x: seq<byte>, y: seq<byte>): (r: seq<byte>)
    ensures |r| == n
  {
    if n != |x| + |y| then seq(n, _ => 0) else x + y
  }

  /** const fn concatenate_strings: two loops over a zeroed buffer. */
  method FillBuffer(n: nat, x: seq<byte>, y: seq<byte>) returns (buf: array<byte>)
    ensures fresh(buf) && buf[..] == ConcatenateStrings(n, x, y)
  {
    buf := new byte[n](_ => 0);
    if n != |x| + |y| {
      return;
    }
    var i := 0;
    while i < |x|
      invariant 0 <= i <= |x| && buf.Length == n
      invariant buf[..i] == x[..i]
    {
      buf[i] := x[i];
      i := i + 1;
    }
    i := 0;
    while i < |y|
      invariant 0 <= i <= |y| && buf.Length == n
      invariant buf[..|x|] == x && buf[|x|..|x| + i] == y[..i]
    {
      buf[|x| + i] := y[i];
      i := i + 1;
    }
    assert buf[..] == buf[..|x|] + buf[|x|..|x| + i];
  }

  // ---------------------------------------------------------------- MaybeConstStr

  /** A type-level string: a constant or the concatenation of two. */
  datatype Tree = Const(val: seq<byte>) | Concatenated(left: Tree, right: Tree)

  /** Every constant is a `&str`. */
  ghost predicate WellFormed(t: Tree) {
    match t
    case Const(val) => ValidUtf8(val)
    case Concatenated(l, r) => WellFormed(l) && WellFormed(r)
  }

  /** Longest string the compiler concatenates. */
  const LIMIT: nat := 100

  function Len(t: Tree): nat {
    match t
    case Const(val) => |val|
    case Concatenated(l, r) => Len(l) + Len(r)
  }

  function HaveVal(t: Tree): bool {
    match t
    case Const(_) => true
    case Concatenated(l, r) => HaveVal(l) && HaveVal(r) && Len(l) + Len(r) <= LIMIT
  }

  /** What evaluating a constant at compile time gives. */
  datatype Eval = Ok(val: seq<byte>) | Panic

  /** MAYBE_VAL of ConcatenatedLen with buffer length `n`. */
  function FromBuffer(n: nat, x: seq<byte>, y: seq<byte>): Eval {
    var buf := ConcatenateStrings(n, x, y);
    if ValidUtf8(buf) then Ok(buf) else Panic
  }

  function MaybeVal(t: Tree): Eval {
    match t
    case Const(val) => Ok(val)
    case Concatenated(l, r) =>
      match (MaybeVal(l), MaybeVal(r))
      case (Ok(x), Ok(y)) => if |x| + |y| <= LIMIT then FromBuffer(|x| + |y|, x, y) else Ok([])
      case _ => Panic
  }

  /** fn extend: append to the buffer. */
  function Extend(t: Tree, into: seq<byte>): seq<byte> {
    match t
    case Const(val) => into + val
    case Concatenated(l, r) => Extend(r, Extend(l, into))
  }

  datatype Cow = Borrowed(val: Eval) | Owned(text: seq<byte>)

  function ConstStrValue(t: Tree): Cow {
    if HaveVal(t) then Borrowed(MaybeVal(t)) else Owned(Extend(t, []))
  }

  /** The string the tree stands for. */
  function Text(t: Tree): seq<byte> {
    match t
    case Const(val) => val
    case Concatenated(l, r) => Text(l) + Text(r)
  }

  lemma {:induction false} ExtendAppends(t: Tree, into: seq<byte>)
    ensures Extend(t, into) == into + Text(t) && |Text(t)| == Len(t)
  {
    match t
    case Const(val) =>
    case Concatenated(l, r) =>
      ExtendAppends(l, into);
      ExtendAppends(r, into + Text(l));
      assert into + Text(l) + Text(r) == into + (Text(l) + Text(r));
  }

  /** An inner node has a value exactly if its whole string is short enough. */
  lemma {:induction false} HaveValIffShort(t: Tree)
    requires t.Concatenated?
    ensures HaveVal(t) <==> Len(t) <= 100
  {
    if t.left.Concatenated? { HaveValIffShort(t.left); }
    if t.right.Concatenated? { HaveValIffShort(t.right); }
  }

  /** The buffer always has the length it needs, so it is filled, and with valid UTF-8. */
  lemma {:induction false} BufferIsFilled(x: seq<byte>, y: seq<byte>)
    requires ValidUtf8(x) && ValidUtf8(y)
    ensures FromBuffer(|x| + |y|, x, y) == Ok(x + y) && ValidUtf8(x + y)
  {
    ValidConcat(x, y);
  }

  lemma {:induction false} ZeroesAreUtf8(n: nat)
    ensures ValidUtf8(seq(n, _ => 0))
  {
    if n > 0 {
      var zeroes: seq<byte> := seq(n, _ => 0);
      assert CharLength(zeroes) == 1;
      assert zeroes[1..] == seq(n - 1, _ => 0);
      ZeroesAreUtf8(n - 1);
    }
  }

  /** Each of the arms for the lengths up to 100 can be evaluated, whatever the length of its
      children: an arm of another length sees the zeroed buffer, and only then. */
  lemma {:induction false} EveryArmEvaluates(n: nat, x: seq<byte>, y: seq<byte>)
    requires ValidUtf8(x) && ValidUtf8(y)
    ensures FromBuffer(n, x, y).Ok? && |FromBuffer(n, x, y).val| == n
    ensures FromBuffer(n, x, y).val == x + y <==> n == |x| + |y|
  {
    BufferIsFilled(x, y);
    ZeroesAreUtf8(n);
  }

  lemma {:induction false} TextLength(t: Tree)
    ensures |Text(t)| == Len(t)
  {
    ExtendAppends(t, []);
  }

  /** The arm that a node selects never sees the zeroed buffer, and does not panic: what the
      compiler concatenates is valid UTF-8, and the right string wherever a value is promised. */
  lemma {:induction false} NeverPanics(t: Tree)
    requires WellFormed(t)
    ensures MaybeVal(t).Ok? && ValidUtf8(MaybeVal(t).val)
    ensures HaveVal(t) ==> MaybeVal(t).val == Text(t)
  {
    match t
    case Const(val) =>
    case Concatenated(l, r) =>
      NeverPanics(l);
      NeverPanics(r);
      var x, y := MaybeVal(l).val, MaybeVal(r).val;
      BufferIsFilled(x, y);
      assert MaybeVal(t) == if |x| + |y| <= LIMIT then Ok(x + y) else Ok([]);
      TextLength(l);
      TextLength(r);
  }

  /** The bytes of a value, whichever path produced it. */
  function CowText(c: Cow): seq<byte> {
    match c
    case Borrowed(Ok(val)) => val
    case Borrowed(Panic) => []
    case Owned(text) => text
  }

  /** The fast path and the slow path give the same string, for every tree. */
  lemma {:induction false} FastPathIsSlowPath(t: Tree)
    requires WellFormed(t)
    ensures ConstStrValue(t) != Borrowed(Panic)
    ensures CowText(ConstStrValue(t)) == Extend(t, []) == Text(t)
  {
    NeverPanics(t);
    ExtendAppends(t, []);
    assert [] + Text(t) == Text(t);
  }

  /** A constant and a concatenation of at most 100 bytes are borrowed, and nothing else is. */
  lemma {:induction false} ShortIsBorrowed(t: Tree)
    ensures ConstStrValue(t).Borrowed? <==> t.Const? || Len(t) <= 100
  {
    if t.Concatenated? { HaveValIffShort(t); }
  }

  /** A `String` being built. */
  class StringBuffer {
    var text: seq<byte>

    constructor ()
      ensures text == []
    {
      text := [];
    }

    method PushStr(s: seq<byte>)
      modifies this
      ensures text == old(text) + s
    {
      text := text + s;
    }
  }

  /** fn extend. */
  method ExtendInto(t: Tree, into: StringBuffer)
    modifies into
    ensures into.text == old(into.text) + Text(t)
    decreases t
  {
    match t
    case Const(val) => into.PushStr(val);
    case Concatenated(l, r) =>
      ExtendInto(l, into);
      ExtendInto(r, into);
      assert old(into.text) + Text(l) + Text(r) == old(into.text) + (Text(l) + Text(r));
  }

  /** fn const_str_value. */
  method RunConstStrValue(t: Tree) returns (text: seq<byte>, owned: bool)
    requires WellFormed(t)
    ensures text == Text(t)
    ensures owned <==> t.Concatenated? && Len(t) > 100
  {
    NeverPanics(t);
    ShortIsBorrowed(t);
    owned := !HaveVal(t);
    if !owned {
      text := MaybeVal(t).val;
    } else {
      var buf := new StringBuffer();
      ExtendInto(t, buf);
      text := buf.text;
    }
  }
}
