/** When a prefix inflected on its own and put in front of the inflected name gives the
    same as inflecting prefix and name together. */
module CasePrefix {
  import opened CaseConvert
  import opened CaseStability

  predicate HasAlphanumeric(s: string) {
    s != "" && (!IsSeparator(s[0]) || HasAlphanumeric(s[1..]))
  }

  predicate EndsWithSeparator(s: string) {
    s != "" && IsSeparator(s[|s| - 1])
  }

  // ---------------------------------------------------------------- delimited styles

  lemma {:induction false} DelimAcross(p: string, b: string, prevLower: bool, started: bool, pending: bool, d: Delimiting)
    requires EndsWithSeparator(p) && (started || HasAlphanumeric(p))
    ensures Delim(p + b, prevLower, started, pending, d)
         == Delim(p, prevLower, started, pending, d) + Delim(b, false, true, true, d)
  {
    assert (p + b)[1..] == p[1..] + b;
    if |p| == 1 {
      assert p[1..] + b == b;
    } else if IsSeparator(p[0]) {
      DelimAcross(p[1..], b, false, started, true, d);
    } else {
      assert StartsLower((p + b)[1..]) <==> StartsLower(p[1..]);
      DelimAcross(p[1..], b, IsLower(p[0]), true, false, d);
      var startsWord := started && !IsLower(p[0]) && (prevLower || StartsLower(p[1..]));
      var head := DelimPiece(p[0], startsWord, pending, d);
      assert head + (Delim(p[1..], IsLower(p[0]), true, false, d) + Delim(b, false, true, true, d))
          == (head + Delim(p[1..], IsLower(p[0]), true, false, d)) + Delim(b, false, true, true, d);
    }
  }

  lemma {:induction false} DelimOfBase(b: string, prevLower: bool, d: Delimiting)
    ensures Delim(b, false, true, true, d)
         == if HasAlphanumeric(b) then [d.delim] + Delim(TrimStart(b), false, false, false, d) else ""
  {
    if b != "" && IsSeparator(b[0]) {
      DelimOfBase(b[1..], false, d);
    }
  }

  lemma {:induction false} TrimAcross(p: string, b: string)
    ensures TrimStart(p + b) == if HasAlphanumeric(p) then TrimStart(p) + b else TrimStart(b)
  {
    if p == "" {
      assert p + b == b;
    } else if IsSeparator(p[0]) {
      assert (p + b)[1..] == p[1..] + b;
      TrimAcross(p[1..], b);
    }
  }

  lemma {:induction false} TrimKeepsEnd(p: string)
    requires EndsWithSeparator(p) && HasAlphanumeric(p)
    ensures EndsWithSeparator(TrimStart(p)) && HasAlphanumeric(TrimStart(p))
  {
    if IsSeparator(p[0]) {
      TrimKeepsEnd(p[1..]);
    }
  }

  lemma {:induction false} NoAlphanumeric(p: string)
    requires !HasAlphanumeric(p)
    ensures TrimStart(p) == ""
  {
    if p != "" {
      NoAlphanumeric(p[1..]);
    }
  }

  /** Delimited output never ends with a delimiter. */
  lemma {:induction false} ShapeEnd(s: string, started: bool, pending: bool, d: Delimiting)
    requires Shape(s, started, pending, d) && s != ""
    ensures s[|s| - 1] != d.delim
  {
    if |s| == 1 {
      assert s[1..] == "";
    } else if s[0] == d.delim {
      ShapeEnd(s[1..], started, true, d);
    } else {
      ShapeEnd(s[1..], true, false, d);
    }
  }

  lemma {:induction false} PrefixOfDelimited(p: string, d: Delimiting)
    requires IsSeparator(d.delim)
    ensures WithDelimiter(Delimited(p, d), d.delim) == Delimited(p, d) + [d.delim]
  {
    DelimitedShape(p, d);
    if Delimited(p, d) != "" {
      ShapeEnd(Delimited(p, d), false, false, d);
    }
  }

  lemma {:induction false} DelimitedAcross(p: string, b: string, d: Delimiting)
    requires IsSeparator(d.delim) && EndsWithSeparator(p)
    ensures Delimited(p + b, d)
         == if !HasAlphanumeric(p) then Delimited(b, d)
            else if HasAlphanumeric(b) then Delimited(p, d) + [d.delim] + Delimited(b, d)
            else Delimited(p, d)
  {
    DelimitedOfStart(p + b, d);
    DelimitedOfStart(p, d);
    DelimitedOfStart(b, d);
    TrimAcross(p, b);
    if HasAlphanumeric(p) {
      TrimKeepsEnd(p);
      DelimAcross(TrimStart(p), b, false, false, false, d);
      DelimOfBase(b, false, d);
    }
  }

  /** For a prefix that ends with a delimiter the two ways agree exactly when both the
      prefix and the name hold an alphanumeric character. */
  lemma {:induction false} DelimitedPrefixesAgree(p: string, b: string, d: Delimiting)
    requires IsSeparator(d.delim) && EndsWithSeparator(p)
    ensures Delimited(p + b, d) == WithDelimiter(Delimited(p, d), d.delim) + Delimited(b, d)
       <==> HasAlphanumeric(p) && HasAlphanumeric(b)
  {
    PrefixOfDelimited(p, d);
    DelimitedAcross(p, b, d);
    if !HasAlphanumeric(p) {
      DelimitedOfStart(p, d);
      NoAlphanumeric(p);
      assert |[d.delim] + Delimited(b, d)| != |Delimited(b, d)|;
    } else if !HasAlphanumeric(b) {
      DelimitedOfStart(b, d);
      NoAlphanumeric(b);
      assert |Delimited(p, d) + [d.delim] + ""| != |Delimited(p, d)|;
    }
  }

  // ---------------------------------------------------------------- PascalCase

  /** Whether the automaton has folded a lowercase letter when it reaches the end of `s`. */
  predicate SeenAfter(s: string, newWord: bool, seen: bool) {
    if s == "" then seen
    else if IsSeparator(s[0]) || IsDigit(s[0]) then SeenAfter(s[1..], true, seen)
    else if newWord || (seen && IsUpper(s[0])) then SeenAfter(s[1..], false, seen)
    else SeenAfter(s[1..], false, IsLower(s[0]))
  }

  /** An uppercase letter inside a word, with no lowercase letter inside a word before it. */
  predicate FoldsUpper(s: string, newWord: bool) {
    s != "" &&
    if IsSeparator(s[0]) || IsDigit(s[0]) then FoldsUpper(s[1..], true)
    else if newWord then FoldsUpper(s[1..], false)
    else IsUpper(s[0])
  }

  lemma {:induction false} HumpsAcross(p: string, b: string, started: bool, newWord: bool, seen: bool)
    requires EndsWithSeparator(p)
    ensures Humps(p + b, ToUpper, started, newWord, seen)
         == Humps(p, ToUpper, started, newWord, seen) + Humps(b, ToUpper, true, true, SeenAfter(p, newWord, seen))
  {
    var c, q := p[0], p[1..];
    assert p == [c] + q && p + b == [c] + (q + b);
    if |p| == 1 {
      assert q + b == b;
      HumpsSkips(c, b, ToUpper, started, newWord, seen);
      HumpsSkips(c, q, ToUpper, started, newWord, seen);
      StartedIsIrrelevant(b, started, true, seen);
    } else if IsSeparator(c) {
      HumpsSkips(c, q + b, ToUpper, started, newWord, seen);
      HumpsSkips(c, q, ToUpper, started, newWord, seen);
      HumpsAcross(q, b, started, true, seen);
    } else if IsDigit(c) {
      HumpsDigit(c, q + b, ToUpper, started, newWord, seen);
      HumpsDigit(c, q, ToUpper, started, newWord, seen);
      HumpsAcross(q, b, true, true, seen);
    } else if newWord || (seen && IsUpper(c)) {
      HumpsOpens(c, q + b, ToUpper, started, newWord, seen);
      HumpsOpens(c, q, ToUpper, started, newWord, seen);
      HumpsAcross(q, b, true, false, seen);
    } else {
      HumpsFolds(c, q + b, ToUpper, started, seen);
      HumpsFolds(c, q, ToUpper, started, seen);
      HumpsAcross(q, b, true, false, IsLower(c));
    }
  }

  lemma {:induction false} StartedIsIrrelevant(s: string, started: bool, newWord: bool, seen: bool)
    ensures Humps(s, ToUpper, started, newWord, seen) == Humps(s, ToUpper, true, newWord, seen)
  {
    if s != "" && IsSeparator(s[0]) {
      StartedIsIrrelevant(s[1..], started, true, seen);
    }
  }

  lemma {:induction false} PascalSkipsStart(s: string)
    ensures Humps(TrimStart(s), ToUpper, true, true, false) == Humps(s, ToUpper, true, true, false)
  {
    if s != "" && IsSeparator(s[0]) {
      PascalSkipsStart(s[1..]);
    }
  }

  lemma {:induction false} PascalUntrimmed(s: string)
    ensures CamelLike(s, ToUpper) == Humps(s, ToUpper, true, true, false)
  {
    CamelLikeOfStart(s, ToUpper);
    StartedIsIrrelevant(TrimStart(s), false, true, false);
    PascalSkipsStart(s);
  }

  lemma {:induction false} SeenMatters(s: string, newWord: bool)
    ensures Humps(s, ToUpper, true, newWord, true) == Humps(s, ToUpper, true, newWord, false)
       <==> !FoldsUpper(s, newWord)
  {
    if s != "" {
      var rest := s[1..];
      if IsSeparator(s[0]) {
        SeenMatters(rest, true);
      } else if IsDigit(s[0]) {
        SeenMatters(rest, true);
        SameHead([s[0]], Humps(rest, ToUpper, true, true, true), Humps(rest, ToUpper, true, true, false));
      } else if newWord {
        SeenMatters(rest, false);
        SameHead([Fold(s[0], ToUpper)], Humps(rest, ToUpper, true, false, true), Humps(rest, ToUpper, true, false, false));
      } else if IsUpper(s[0]) {
        assert Humps(s, ToUpper, true, false, true)[0] == s[0];
        assert Humps(s, ToUpper, true, false, false)[0] == Fold(s[0], ToLower);
      }
    }
  }

  lemma {:induction false} SameHead(h: string, a: string, b: string)
    ensures h + a == h + b <==> a == b
  {
    if h + a == h + b {
      assert a == (h + a)[|h|..] == (h + b)[|h|..] == b;
    }
  }

  /** In PascalCase the two ways agree for a prefix that ends with a delimiter, unless the
      prefix has a lowercase letter inside a word and the name an uppercase run. */
  lemma {:induction false} PascalPrefixesAgree(p: string, b: string)
    requires EndsWithSeparator(p)
    ensures Apply(Pascal, p + b) == ApplyPrefix(Pascal, p) + Apply(Pascal, b)
       <==> !(SeenAfter(p, true, false) && FoldsUpper(b, true))
  {
    PascalUntrimmed(p + b);
    PascalUntrimmed(p);
    PascalUntrimmed(b);
    HumpsAcross(p, b, true, true, false);
    SeenMatters(b, true);
    SameHead(CamelLike(p, ToUpper),
             Humps(b, ToUpper, true, true, SeenAfter(p, true, false)), Humps(b, ToUpper, true, true, false));
  }

  predicate NoUpper(s: string) {
    s == "" || (!IsUpper(s[0]) && NoUpper(s[1..]))
  }

  lemma {:induction false} NoUpperNoFold(s: string, newWord: bool)
    requires NoUpper(s)
    ensures !FoldsUpper(s, newWord)
  {
    if s != "" {
      NoUpperNoFold(s[1..], true);
      NoUpperNoFold(s[1..], false);
    }
  }

  // ---------------------------------------------------------------- all styles of `#[metrics]`

  /** Root-level and flatten-level prefixing agree for a validated prefix and the styles of
      `#[metrics]`: always if the name is kept, under the exact condition otherwise. */
  lemma {:induction false} PrefixLevelsAgree(style: CaseStyle, p: string, b: string)
    requires style in {Preserve, Pascal, Snake, ScreamingSnake, Kebab, ScreamingKebab}
    requires EndsWithDelimiter(p)
    ensures Apply(style, p + b) == ApplyPrefix(style, p) + Apply(style, b)
       <==> match style
            case Preserve => true
            case Pascal => !(SeenAfter(p, true, false) && FoldsUpper(b, true))
            case _ => HasAlphanumeric(p) && HasAlphanumeric(b)
  {
    match style
    case Preserve =>
    case Pascal => PascalPrefixesAgree(p, b);
    case Snake => DelimitedPrefixesAgree(p, b, Delimiting('_', ToLower));
    case ScreamingSnake => DelimitedPrefixesAgree(p, b, Delimiting('_', ToUpper));
    case Kebab => DelimitedPrefixesAgree(p, b, Delimiting('-', ToLower));
    case ScreamingKebab =>
      ScreamingKebabIsDelimited(p + b);
      ScreamingKebabIsDelimited(p);
      ScreamingKebabIsDelimited(b);
      DelimitedPrefixesAgree(p, b, Delimiting('-', ToUpper));
  }

  /** In particular for every name without uppercase letters. */
  lemma {:induction false} PrefixLevelsAgreeOnFieldNames(style: CaseStyle, p: string, b: string)
    requires style in {Preserve, Pascal, Snake, ScreamingSnake, Kebab, ScreamingKebab}
    requires EndsWithDelimiter(p) && HasAlphanumeric(p) && HasAlphanumeric(b) && NoUpper(b)
    ensures Apply(style, p + b) == ApplyPrefix(style, p) + Apply(style, b)
  {
    PrefixLevelsAgree(style, p, b);
    NoUpperNoFold(b, true);
  }

  lemma {:induction false} CapitalsAfterLower(c: char, e: char, f: char, newWord: bool)
    requires IsUpper(c) && IsUpper(e) && IsUpper(f)
    ensures Humps([c, e, f], ToUpper, true, newWord, true) == [c, e, f]
  {
    HumpsOpens(f, [], ToUpper, true, false, true);
    assert [f] + [] == [f];
    HumpsOpens(e, [f], ToUpper, true, false, true);
    assert [e] + [f] == [e, f];
    HumpsOpens(c, [e, f], ToUpper, true, newWord, true);
    assert [c] + [e, f] == [c, e, f];
  }

  lemma {:induction false} CapitalsAlone(c: char, e: char, f: char)
    requires IsUpper(c) && IsUpper(e) && IsUpper(f)
    ensures CamelLike([c, e, f], ToUpper) == [c, Fold(e, ToLower), Fold(f, ToLower)]
  {
    HumpsFolds(f, [], ToUpper, true, false);
    assert [f] + [] == [f];
    HumpsFolds(e, [f], ToUpper, true, false);
    assert [e] + [f] == [e, f];
    HumpsOpens(c, [e, f], ToUpper, true, true, false);
    assert [c] + [e, f] == [c, e, f];
    PascalUntrimmed([c, e, f]);
  }

  lemma {:induction false} PascalOfPrefix(a: char, b: char, sep: char, rest: string)
    requires IsLower(a) && IsLower(b) && IsSeparator(sep)
    ensures CamelLike([a, b, sep] + rest, ToUpper) == [Fold(a, ToUpper), b] + Humps(rest, ToUpper, true, true, true)
  {
    HumpsSkips(sep, rest, ToUpper, true, false, true);
    HumpsFolds(b, [sep] + rest, ToUpper, true, false);
    assert [b] + ([sep] + rest) == [b, sep] + rest;
    HumpsOpens(a, [b, sep] + rest, ToUpper, true, true, false);
    assert [a] + ([b, sep] + rest) == [a, b, sep] + rest;
    PascalUntrimmed([a, b, sep] + rest);
  }

  /** A prefix such as `ab_` and a name such as `CDE` disagree in PascalCase: together they
      give `AbCDE`, apart `AbCde`. */
  lemma {:induction false} PascalPrefixesCanDisagree(a: char, b: char, sep: char, c: char, e: char, f: char)
    requires IsLower(a) && IsLower(b) && IsSeparator(sep) && IsUpper(c) && IsUpper(e) && IsUpper(f)
    ensures Apply(Pascal, [a, b, sep] + [c, e, f]) == [Fold(a, ToUpper), b, c, e, f]
    ensures ApplyPrefix(Pascal, [a, b, sep]) + Apply(Pascal, [c, e, f])
         == [Fold(a, ToUpper), b, c, Fold(e, ToLower), Fold(f, ToLower)]
  {
    PascalOfPrefix(a, b, sep, [c, e, f]);
    CapitalsAfterLower(c, e, f, true);
    PascalOfPrefix(a, b, sep, []);
    assert [a, b, sep] + [] == [a, b, sep];
    CapitalsAlone(c, e, f);
  }
}
