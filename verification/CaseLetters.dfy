/** What each style makes of a name, position by position: which letters are kept, in which
    case, and where delimiters go. Stated on code points and on neighbouring characters, with
    no memory of what was read before. */
module CaseLetters {
  import opened CommonTypes
  import opened CaseConvert
  import opened CaseStability

  // ---------------------------------------------------------------- characters

  predicate LowerCode(c: char) { 97 <= c as int <= 122 }

  predicate UpperCode(c: char) { 65 <= c as int <= 90 }

  predicate Letter(c: char) { LowerCode(c) || UpperCode(c) }

  predicate Kept(c: char) { Letter(c) || 48 <= c as int <= 57 }

  /** Equal, or the two cases of one letter. */
  predicate SameLetter(c: char, e: char) {
    c == e || (LowerCode(c) && e as int == c as int - 32) || (UpperCode(c) && e as int == c as int + 32)
  }

  /** A letter in the case asked for; anything else stays. */
  function Recased(c: char, upper: bool): (r: char)
    ensures SameLetter(c, r) && (Kept(c) <==> Kept(r))
    ensures Letter(c) ==> if upper then UpperCode(r) else LowerCode(r)
  {
    if upper && LowerCode(c) then (c as int - 32) as char
    else if !upper && UpperCode(c) then (c as int + 32) as char
    else c
  }

  lemma {:induction false} FoldIsRecased(c: char, k: Case)
    ensures Fold(c, k) == Recased(c, k == ToUpper)
    ensures IsSeparator(c) <==> !Kept(c)
  {
  }

  lemma {:induction false} FoldAllIsRecased(s: string, k: Case, i: nat)
    requires i < |s|
    ensures FoldAll(s, k)[i] == Recased(s[i], k == ToUpper)
  {
    FoldIsRecased(s[i], k);
    if i > 0 { FoldAllIsRecased(s[1..], k, i - 1); }
  }

  /** Trimming drops what stands before the first letter or digit. */
  lemma {:induction false} TrimmedFrom(s: string) returns (from: nat)
    ensures from <= |s| && TrimStart(s) == s[from..]
    ensures forall i :: 0 <= i < from ==> !Kept(s[i])
    ensures from < |s| ==> Kept(s[from])
  {
    if s != "" && IsSeparator(s[0]) {
      var rest := TrimmedFrom(s[1..]);
      from := rest + 1;
      assert s[from..] == s[1..][rest..];
      forall i | 0 <= i < from ensures !Kept(s[i]) {
        if i > 0 { assert s[i] == s[1..][i - 1]; }
      }
    } else {
      from := 0;
      assert s[0..] == s;
    }
  }

  // ---------------------------------------------------------------- delimited styles

  /** A delimiter goes before a character that follows a separator, and before one that is not
      lowercase and has a lowercase letter on either side. */
  predicate BreakBefore(t: string, i: nat)
    requires i < |t|
  {
    i > 0 && (!Kept(t[i - 1])
              || (!LowerCode(t[i]) && (LowerCode(t[i - 1]) || (i + 1 < |t| && LowerCode(t[i + 1])))))
  }

  function DelimitedFrom(t: string, i: nat, delim: char, upper: bool): string
    requires i <= |t|
    decreases |t| - i
  {
    if i == |t| then ""
    else if !Kept(t[i]) then DelimitedFrom(t, i + 1, delim, upper)
    else (if BreakBefore(t, i) then [delim] else []) + [Recased(t[i], upper)] + DelimitedFrom(t, i + 1, delim, upper)
  }

  lemma {:induction false} DelimByPosition(t: string, i: nat, d: Delimiting)
    requires i <= |t| && (t != "" ==> Kept(t[0]))
    ensures Delim(t[i..], i > 0 && LowerCode(t[i - 1]), i > 0, i > 0 && !Kept(t[i - 1]), d)
         == DelimitedFrom(t, i, d.delim, d.fold == ToUpper)
    decreases |t| - i
  {
    if i < |t| {
      var prevLower, pending := i > 0 && LowerCode(t[i - 1]), i > 0 && !Kept(t[i - 1]);
      assert t[i..] == [t[i]] + t[i + 1..];
      FoldIsRecased(t[i], d.fold);
      DelimByPosition(t, i + 1, d);
      if !Kept(t[i]) {
        DelimSkipped(t[i], t[i + 1..], prevLower, i > 0, pending, d);
      } else {
        DelimKept(t[i], t[i + 1..], prevLower, i > 0, pending, d);
        assert StartsLower(t[i + 1..]) <==> i + 1 < |t| && LowerCode(t[i + 1]);
        var mark, more := Due(BreakBefore(t, i), d), DelimitedFrom(t, i + 1, d.delim, d.fold == ToUpper);
        assert mark + ([Recased(t[i], d.fold == ToUpper)] + more) == mark + [Recased(t[i], d.fold == ToUpper)] + more;
        if i > 0 { FoldIsRecased(t[i - 1], d.fold); }
      }
    }
  }

  // ---------------------------------------------------------------- delimiter-free styles

  /** The first character opens a word in PascalCase, any other after a character that is not
      a letter. */
  predicate Fresh(t: string, i: nat, pascal: bool)
    requires i < |t|
  {
    if i == 0 then pascal else !Letter(t[i - 1])
  }

  /** A lowercase letter inside a word stands before position `i`. */
  predicate LowerInside(t: string, i: nat, pascal: bool)
    requires i <= |t|
  {
    exists j :: 0 <= j < i && LowerCode(t[j]) && !Fresh(t, j, pascal)
  }

  /** The letters in upper case: those that open a word, and once a lowercase letter was inside
      a word every uppercase one. */
  predicate Capital(t: string, i: nat, pascal: bool)
    requires i < |t|
  {
    Fresh(t, i, pascal) || (UpperCode(t[i]) && LowerInside(t, i, pascal))
  }

  function HumpedFrom(t: string, i: nat, pascal: bool): string
    requires i <= |t|
    decreases |t| - i
  {
    if i == |t| then ""
    else if !Kept(t[i]) then HumpedFrom(t, i + 1, pascal)
    else [Recased(t[i], Capital(t, i, pascal))] + HumpedFrom(t, i + 1, pascal)
  }

  lemma {:induction false} LowerInsideNext(t: string, i: nat, pascal: bool)
    requires i < |t|
    ensures LowerInside(t, i + 1, pascal) <==> LowerInside(t, i, pascal) || (LowerCode(t[i]) && !Fresh(t, i, pascal))
  {
  }

  lemma {:induction false} HumpsByPosition(t: string, i: nat, first: Case)
    requires i <= |t| && (t != "" ==> Kept(t[0]))
    ensures var pascal := first == ToUpper;
            Humps(t[i..], first, i > 0, if i == 0 then pascal else !Letter(t[i - 1]), LowerInside(t, i, pascal))
            == HumpedFrom(t, i, pascal)
    decreases |t| - i
  {
    if i < |t| {
      var pascal := first == ToUpper;
      var c, rest, seen := t[i], t[i + 1..], LowerInside(t, i, pascal);
      assert t[i..] == [c] + rest;
      FoldIsRecased(c, ToUpper);
      FoldIsRecased(c, ToLower);
      LowerInsideNext(t, i, pascal);
      HumpsByPosition(t, i + 1, first);
      if !Kept(c) {
        HumpsSkips(c, rest, first, i > 0, Fresh(t, i, pascal), seen);
      } else if !Letter(c) {
        HumpsDigit(c, rest, first, i > 0, Fresh(t, i, pascal), seen);
      } else if Capital(t, i, pascal) {
        HumpsOpens(c, rest, first, i > 0, Fresh(t, i, pascal), seen);
      } else {
        HumpsFolds(c, rest, first, i > 0, seen);
        FoldedSees(t, i, pascal);
      }
    }
  }

  /** A letter that is folded decides by itself whether one was seen: an uppercase one is only
      folded while none was. */
  lemma {:induction false} FoldedSees(t: string, i: nat, pascal: bool)
    requires i < |t| && Letter(t[i]) && !Capital(t, i, pascal)
    ensures LowerInside(t, i + 1, pascal) <==> LowerCode(t[i])
  {
    LowerInsideNext(t, i, pascal);
  }

  // ---------------------------------------------------------------- all styles

  /** Every style, position by position of the name without its leading separators. */
  lemma {:induction false} ApplyByPosition(style: CaseStyle, name: string)
    ensures var t, out := TrimStart(name), Apply(style, name);
            match style
            case Preserve => out == name
            case Lower => |out| == |name| && forall i :: 0 <= i < |name| ==> out[i] == Recased(name[i], false)
            case Upper => |out| == |name| && forall i :: 0 <= i < |name| ==> out[i] == Recased(name[i], true)
            case Pascal => out == HumpedFrom(t, 0, true)
            case Camel => out == HumpedFrom(t, 0, false)
            case Snake => out == DelimitedFrom(t, 0, '_', false)
            case ScreamingSnake => out == DelimitedFrom(t, 0, '_', true)
            case Kebab => out == DelimitedFrom(t, 0, '-', false)
            case ScreamingKebab => out == DelimitedFrom(t, 0, '-', true)
  {
    match style
    case Preserve =>
    case Lower => forall i | 0 <= i < |name| ensures Apply(style, name)[i] == Recased(name[i], false) { FoldAllIsRecased(name, ToLower, i); }
    case Upper => forall i | 0 <= i < |name| ensures Apply(style, name)[i] == Recased(name[i], true) { FoldAllIsRecased(name, ToUpper, i); }
    case Pascal => CamelByPosition(name, ToUpper);
    case Camel => CamelByPosition(name, ToLower);
    case Snake => DelimitedByPosition(name, Delimiting('_', ToLower));
    case ScreamingSnake => DelimitedByPosition(name, Delimiting('_', ToUpper));
    case Kebab => DelimitedByPosition(name, Delimiting('-', ToLower));
    case ScreamingKebab =>
      ScreamingKebabIsDelimited(name);
      DelimitedByPosition(name, Delimiting('-', ToUpper));
  }

  lemma {:induction false} DelimitedByPosition(name: string, d: Delimiting)
    ensures Delimited(name, d) == DelimitedFrom(TrimStart(name), 0, d.delim, d.fold == ToUpper)
  {
    var t := TrimStart(name);
    var _ := TrimmedFrom(name);
    DelimitedOfStart(name, d);
    DelimByPosition(t, 0, d);
    assert t[0..] == t;
  }

  lemma {:induction false} CamelByPosition(name: string, first: Case)
    ensures CamelLike(name, first) == HumpedFrom(TrimStart(name), 0, first == ToUpper)
  {
    var t := TrimStart(name);
    var _ := TrimmedFrom(name);
    CamelLikeOfStart(name, first);
    HumpsByPosition(t, 0, first);
    assert t[0..] == t;
  }

  // ---------------------------------------------------------------- what is never changed

  /** The letters and digits of a string. */
  function Alphanumerics(s: string): string {
    if s == "" then "" else (if Kept(s[0]) then [s[0]] else []) + Alphanumerics(s[1..])
  }

  predicate SameLetters(a: string, b: string) {
    |a| == |b| && forall i :: 0 <= i < |a| ==> SameLetter(a[i], b[i])
  }

  lemma {:induction false} AlphanumericsConcat(a: string, b: string)
    ensures Alphanumerics(a + b) == Alphanumerics(a) + Alphanumerics(b)
  {
    if a == "" {
      assert a + b == b;
    } else {
      FirstOf(a, b);
      FirstOf(a, "");
      AlphanumericsFront(a[0], a[1..] + b);
      AlphanumericsConcat(a[1..], b);
      Associate(if Kept(a[0]) then [a[0]] else [], Alphanumerics(a[1..]), Alphanumerics(b));
    }
  }

  lemma {:induction false} AlphanumericsFront(c: char, s: string)
    ensures Alphanumerics([c] + s) == (if Kept(c) then [c] else []) + Alphanumerics(s)
  {
    assert ([c] + s)[1..] == s;
  }

  lemma {:induction false} AlphanumericsOfOne(c: char)
    ensures Alphanumerics([c]) == if Kept(c) then [c] else []
  {
    assert [c][1..] == "";
  }

  lemma {:induction false} AlphanumericsAt(t: string, i: nat)
    requires i < |t|
    ensures Alphanumerics(t[i..]) == (if Kept(t[i]) then [t[i]] else []) + Alphanumerics(t[i + 1..])
  {
    assert t[i..][1..] == t[i + 1..];
  }

  lemma {:induction false} DelimitedLetters(t: string, i: nat, delim: char, upper: bool)
    requires i <= |t| && !Kept(delim)
    ensures SameLetters(Alphanumerics(t[i..]), Alphanumerics(DelimitedFrom(t, i, delim, upper)))
    decreases |t| - i
  {
    if i < |t| {
      AlphanumericsAt(t, i);
      DelimitedLetters(t, i + 1, delim, upper);
      if Kept(t[i]) {
        PieceLetters(Recased(t[i], upper), delim, BreakBefore(t, i), DelimitedFrom(t, i + 1, delim, upper));
      }
    }
  }

  lemma {:induction false} PieceLetters(c: char, delim: char, mark: bool, more: string)
    requires Kept(c) && !Kept(delim)
    ensures Alphanumerics((if mark then [delim] else []) + [c] + more) == [c] + Alphanumerics(more)
  {
    AlphanumericsFront(c, more);
    if mark {
      Associate([delim], [c], more);
      AlphanumericsFront(delim, [c] + more);
    } else {
      assert [] + [c] == [c];
    }
  }

  lemma {:induction false} HumpedLetters(t: string, i: nat, pascal: bool)
    requires i <= |t|
    ensures SameLetters(Alphanumerics(t[i..]), Alphanumerics(HumpedFrom(t, i, pascal)))
    decreases |t| - i
  {
    if i < |t| {
      AlphanumericsAt(t, i);
      HumpedLetters(t, i + 1, pascal);
      if Kept(t[i]) {
        var r := Recased(t[i], Capital(t, i, pascal));
        AlphanumericsOfOne(r);
        AlphanumericsConcat([r], HumpedFrom(t, i + 1, pascal));
      }
    }
  }

  lemma {:induction false} RecasedLetters(a: string, b: string, upper: bool)
    requires |a| == |b| && forall i :: 0 <= i < |a| ==> b[i] == Recased(a[i], upper)
    ensures SameLetters(Alphanumerics(a), Alphanumerics(b))
  {
    if a != "" { RecasedLetters(a[1..], b[1..], upper); }
  }

  lemma {:induction false} TrimKeepsLetters(s: string)
    ensures Alphanumerics(TrimStart(s)) == Alphanumerics(s)
  {
    if s != "" && IsSeparator(s[0]) { TrimKeepsLetters(s[1..]); }
  }

  /** No style drops, adds, reorders or exchanges a letter or digit: position by position the
      output's are those of the name, up to case. */
  lemma {:induction false} LettersAreKept(style: CaseStyle, name: string)
    ensures SameLetters(Alphanumerics(name), Alphanumerics(Apply(style, name)))
  {
    var t := TrimStart(name);
    ApplyByPosition(style, name);
    TrimKeepsLetters(name);
    assert t[0..] == t;
    match style
    case Preserve =>
    case Lower => RecasedLetters(name, Apply(style, name), false);
    case Upper => RecasedLetters(name, Apply(style, name), true);
    case Pascal => HumpedLetters(t, 0, true);
    case Camel => HumpedLetters(t, 0, false);
    case Snake => DelimitedLetters(t, 0, '_', false);
    case ScreamingSnake => DelimitedLetters(t, 0, '_', true);
    case Kebab => DelimitedLetters(t, 0, '-', false);
    case ScreamingKebab => DelimitedLetters(t, 0, '-', true);
  }

  /** As a prefix a name gets the delimiter of its style behind it unless it ends with it; the
      styles without one leave it alone. */
  lemma {:induction false} PrefixEnds(style: CaseStyle, name: string)
    ensures var out, prefix := Apply(style, name), ApplyPrefix(style, name);
            match style
            case Snake => prefix == if out != "" && out[|out| - 1] == '_' then out else out + "_"
            case ScreamingSnake => prefix == if out != "" && out[|out| - 1] == '_' then out else out + "_"
            case Kebab => prefix == if out != "" && out[|out| - 1] == '-' then out else out + "-"
            case ScreamingKebab => prefix == if out != "" && out[|out| - 1] == '-' then out else out + "-"
            case _ => prefix == out
  {
  }
}
