/** Repeated case conversion reaches a fixed point, and how soon. */
module CaseStability {
  import opened CaseConvert

  // ---------------------------------------------------------------- delimited styles

  /** The shape of delimited output: letters and digits already folded, single delimiters,
      none in front, none behind. */
  ghost predicate Shape(s: string, started: bool, pending: bool, d: Delimiting) {
    if s == "" then !pending
    else if s[0] == d.delim then started && !pending && Shape(s[1..], started, true, d)
    else !IsSeparator(s[0]) && Fold(s[0], d.fold) == s[0] && Shape(s[1..], true, false, d)
  }

  /** A shape in which every digit next to a lowercase letter already follows a delimiter. */
  ghost predicate Settled(s: string, prevLower: bool, started: bool, pending: bool, d: Delimiting) {
    if s == "" then !pending
    else if s[0] == d.delim then started && !pending && Settled(s[1..], false, started, true, d)
    else
      && !IsSeparator(s[0]) && Fold(s[0], d.fold) == s[0]
      && (pending || !(started && !IsLower(s[0]) && (prevLower || StartsLower(s[1..]))))
      && Settled(s[1..], IsLower(s[0]), true, false, d)
  }

  predicate NoDigit(s: string) {
    s == "" || (!IsDigit(s[0]) && NoDigit(s[1..]))
  }

  function Due(pending: bool, d: Delimiting): string {
    if pending then [d.delim] else []
  }

  // ---------------------------------------------------------------- one character at a time

  /** What one kept character turns into. */
  lemma {:induction false} DelimKept(c: char, rest: string, prevLower: bool, started: bool, pending: bool, d: Delimiting)
    requires !IsSeparator(c)
    ensures var mark := pending || (started && !IsLower(c) && (prevLower || StartsLower(rest)));
            Delim([c] + rest, prevLower, started, pending, d)
            == Due(mark, d) + ([Fold(c, d.fold)] + Delim(rest, IsLower(c), true, false, d))
  {
    assert ([c] + rest)[1..] == rest;
  }

  lemma {:induction false} DelimSkipped(c: char, rest: string, prevLower: bool, started: bool, pending: bool, d: Delimiting)
    requires IsSeparator(c)
    ensures Delim([c] + rest, prevLower, started, pending, d) == Delim(rest, false, started, true, d)
  {
    assert ([c] + rest)[1..] == rest;
  }

  /** A letter that opens a word, or a digit, or a letter that does not. */
  lemma {:induction false} HumpsOpens(c: char, rest: string, first: Case, started: bool, newWord: bool, seen: bool)
    requires !IsSeparator(c) && !IsDigit(c) && (newWord || (seen && IsUpper(c)))
    ensures Humps([c] + rest, first, started, newWord, seen)
         == [Fold(c, if started then ToUpper else first)] + Humps(rest, first, true, false, seen)
  {
    assert ([c] + rest)[1..] == rest;
  }

  lemma {:induction false} HumpsDigit(c: char, rest: string, first: Case, started: bool, newWord: bool, seen: bool)
    requires IsDigit(c)
    ensures Humps([c] + rest, first, started, newWord, seen) == [c] + Humps(rest, first, true, true, seen)
  {
    assert ([c] + rest)[1..] == rest;
  }

  lemma {:induction false} HumpsFolds(c: char, rest: string, first: Case, started: bool, seen: bool)
    requires !IsSeparator(c) && !IsDigit(c) && !(seen && IsUpper(c))
    ensures Humps([c] + rest, first, started, false, seen) == [Fold(c, ToLower)] + Humps(rest, first, true, false, IsLower(c))
  {
    assert ([c] + rest)[1..] == rest;
  }

  lemma {:induction false} HumpsSkips(c: char, rest: string, first: Case, started: bool, newWord: bool, seen: bool)
    requires IsSeparator(c)
    ensures Humps([c] + rest, first, started, newWord, seen) == Humps(rest, first, started, true, seen)
  {
    assert ([c] + rest)[1..] == rest;
  }

  // ---------------------------------------------------------------- settling

  lemma {:induction false} SettledIsFixed(s: string, prevLower: bool, started: bool, pending: bool, d: Delimiting)
    requires IsSeparator(d.delim) && Settled(s, prevLower, started, pending, d)
    ensures Delim(s, prevLower, started, pending, d) == Due(pending, d) + s
  {
    if s != "" {
      if s[0] == d.delim {
        SettledIsFixed(s[1..], false, started, true, d);
      } else {
        SettledIsFixed(s[1..], IsLower(s[0]), true, false, d);
      }
    }
  }

  lemma {:induction false} OutputHasShape(s: string, prevLower: bool, started: bool, pending: bool, d: Delimiting)
    requires IsSeparator(d.delim) && (pending ==> started)
    requires started || s == "" || !IsSeparator(s[0])
    ensures Shape(Delim(s, prevLower, started, pending, d), started, false, d)
  {
    if s != "" {
      if IsSeparator(s[0]) {
        OutputHasShape(s[1..], false, started, true, d);
      } else {
        OutputHasShape(s[1..], IsLower(s[0]), true, false, d);
      }
    }
  }

  /** Lowercase output of lowercase shape gains delimiters only where they settle it. */
  lemma {:induction false} SecondPassSettles(s: string, prevLower: bool, started: bool, pending: bool, d: Delimiting, outLower: bool)
    requires IsSeparator(d.delim) && d.fold == ToLower
    requires Shape(s, started, pending, d) && (pending ==> started) && (outLower == prevLower || pending)
    ensures Settled(Delim(s, prevLower, started, pending, d), outLower, started, false, d)
  {
    if s != "" {
      var rest := s[1..];
      if s[0] == d.delim {
        SecondPassSettles(rest, false, started, true, d, outLower);
      } else {
        var out := Delim(rest, IsLower(s[0]), true, false, d);
        SecondPassSettles(rest, IsLower(s[0]), true, false, d, IsLower(s[0]));
        SameFirstLower(rest, IsLower(s[0]), d);
        var startsWord := started && !IsLower(s[0]) && (prevLower || StartsLower(rest));
        if pending || startsWord {
          assert Delim(s, prevLower, started, pending, d) == [d.delim] + ([s[0]] + out);
          assert Settled([s[0]] + out, false, started, true, d);
        } else {
          assert Delim(s, prevLower, started, pending, d) == [s[0]] + out;
        }
      }
    }
  }

  lemma {:induction false} SameFirstLower(s: string, prevLower: bool, d: Delimiting)
    requires IsSeparator(d.delim) && d.fold == ToLower && Shape(s, true, false, d)
    ensures StartsLower(Delim(s, prevLower, true, false, d)) ==> StartsLower(s)
  {
    if s != "" && s[0] == d.delim {
      var rest := s[1..];
      assert Shape(rest, true, true, d);
      assert rest != "" && !IsSeparator(rest[0]);
      var out := Delim(rest, false, true, true, d);
      assert out == [d.delim] + [Fold(rest[0], d.fold)] + Delim(rest[1..], IsLower(rest[0]), true, false, d);
    }
  }

  /** Uppercase shapes hold no lowercase letter, so nothing starts a word. */
  lemma {:induction false} UppercaseIsSettled(s: string, started: bool, pending: bool, d: Delimiting)
    requires IsSeparator(d.delim) && d.fold == ToUpper && Shape(s, started, pending, d)
    ensures Settled(s, false, started, pending, d)
  {
    if s != "" {
      if s[0] == d.delim {
        UppercaseIsSettled(s[1..], started, true, d);
      } else {
        assert !StartsLower(s[1..]) by {
          if |s| > 1 && s[1] != d.delim { assert Fold(s[1], ToUpper) == s[1]; }
        }
        UppercaseIsSettled(s[1..], true, false, d);
      }
    }
  }

  lemma {:induction false} DigitFreeIsSettled(s: string, prevLower: bool, started: bool, pending: bool, d: Delimiting)
    requires IsSeparator(d.delim) && d.fold == ToLower && Shape(s, started, pending, d) && NoDigit(s)
    ensures Settled(s, prevLower, started, pending, d)
  {
    if s != "" {
      if s[0] == d.delim {
        DigitFreeIsSettled(s[1..], false, started, true, d);
      } else {
        DigitFreeIsSettled(s[1..], IsLower(s[0]), true, false, d);
      }
    }
  }

  lemma {:induction false} DigitFreeOutput(s: string, prevLower: bool, started: bool, pending: bool, d: Delimiting)
    requires IsSeparator(d.delim) && NoDigit(s)
    ensures NoDigit(Delim(s, prevLower, started, pending, d))
  {
    if s != "" {
      if IsSeparator(s[0]) {
        DigitFreeOutput(s[1..], false, started, true, d);
      } else {
        var out := Delim(s[1..], IsLower(s[0]), true, false, d);
        DigitFreeOutput(s[1..], IsLower(s[0]), true, false, d);
        assert NoDigit([Fold(s[0], d.fold)] + out);
      }
    }
  }

  // ---------------------------------------------------------------- trimming

  lemma {:induction false} DelimDropsLastSeparator(s: string, prevLower: bool, started: bool, pending: bool, d: Delimiting)
    requires s != "" && IsSeparator(s[|s| - 1])
    ensures Delim(s[..|s| - 1], prevLower, started, pending, d) == Delim(s, prevLower, started, pending, d)
  {
    var last := |s| - 1;
    if last > 0 {
      assert s[..last][1..] == s[1..][..last - 1];
      assert StartsLower(s[..last][1..]) <==> StartsLower(s[1..]);
      if IsSeparator(s[0]) {
        DelimDropsLastSeparator(s[1..], false, started, true, d);
      } else {
        DelimDropsLastSeparator(s[1..], IsLower(s[0]), true, false, d);
      }
    }
  }

  lemma {:induction false} DelimIgnoresEnd(s: string, prevLower: bool, started: bool, pending: bool, d: Delimiting)
    ensures Delim(TrimEnd(s), prevLower, started, pending, d) == Delim(s, prevLower, started, pending, d)
  {
    if s != "" && IsSeparator(s[|s| - 1]) {
      DelimDropsLastSeparator(s, prevLower, started, pending, d);
      DelimIgnoresEnd(s[..|s| - 1], prevLower, started, pending, d);
    }
  }

  lemma {:induction false} HumpsDropsLastSeparator(s: string, first: Case, started: bool, newWord: bool, seen: bool)
    requires s != "" && IsSeparator(s[|s| - 1])
    ensures Humps(s[..|s| - 1], first, started, newWord, seen) == Humps(s, first, started, newWord, seen)
  {
    var last := |s| - 1;
    if last > 0 {
      assert s[..last][1..] == s[1..][..last - 1];
      if IsSeparator(s[0]) {
        HumpsDropsLastSeparator(s[1..], first, started, true, seen);
      } else if IsDigit(s[0]) {
        HumpsDropsLastSeparator(s[1..], first, true, true, seen);
      } else if newWord || (seen && IsUpper(s[0])) {
        HumpsDropsLastSeparator(s[1..], first, true, false, seen);
      } else {
        HumpsDropsLastSeparator(s[1..], first, true, false, IsLower(s[0]));
      }
    }
  }

  lemma {:induction false} HumpsIgnoresEnd(s: string, first: Case, started: bool, newWord: bool, seen: bool)
    ensures Humps(TrimEnd(s), first, started, newWord, seen) == Humps(s, first, started, newWord, seen)
  {
    if s != "" && IsSeparator(s[|s| - 1]) {
      HumpsDropsLastSeparator(s, first, started, newWord, seen);
      HumpsIgnoresEnd(s[..|s| - 1], first, started, newWord, seen);
    }
  }

  lemma {:induction false} TrimmedStart(s: string)
    ensures TrimStart(s) == "" || !IsSeparator(TrimStart(s)[0])
  {
    if s != "" && IsSeparator(s[0]) {
      TrimmedStart(s[1..]);
    }
  }

  /** Only leading separators need trimming for the output of `delimited`. */
  lemma {:induction false} DelimitedOfStart(name: string, d: Delimiting)
    ensures Delimited(name, d) == Delim(TrimStart(name), false, false, false, d)
  {
    DelimIgnoresEnd(TrimStart(name), false, false, false, d);
  }

  lemma {:induction false} CamelLikeOfStart(name: string, first: Case)
    ensures CamelLike(name, first) == Humps(TrimStart(name), first, false, first == ToUpper, false)
  {
    HumpsIgnoresEnd(TrimStart(name), first, false, first == ToUpper, false);
  }

  lemma {:induction false} DelimitedShape(name: string, d: Delimiting)
    requires IsSeparator(d.delim)
    ensures Shape(Delimited(name, d), false, false, d)
    ensures TrimStart(Delimited(name, d)) == Delimited(name, d)
  {
    DelimitedOfStart(name, d);
    TrimmedStart(name);
    OutputHasShape(TrimStart(name), false, false, false, d);
  }

  lemma {:induction false} SettledIsStable(s: string, d: Delimiting)
    requires IsSeparator(d.delim) && Settled(s, false, false, false, d)
    ensures Delimited(s, d) == s
  {
    assert TrimStart(s) == s;
    DelimitedOfStart(s, d);
    SettledIsFixed(s, false, false, false, d);
  }

  /** snake_case and kebab-case: two applications reach a fixed point for every name. */
  lemma {:induction false} LowerDelimitedSettlesInTwo(name: string, d: Delimiting)
    requires IsSeparator(d.delim) && d.fold == ToLower
    ensures Delimited(Delimited(Delimited(name, d), d), d) == Delimited(Delimited(name, d), d)
  {
    var once := Delimited(name, d);
    DelimitedShape(name, d);
    DelimitedOfStart(once, d);
    SecondPassSettles(once, false, false, false, d, false);
    SettledIsStable(Delimited(once, d), d);
  }

  /** ... and one does if the name has no digit. */
  lemma {:induction false} LowerDelimitedWithoutDigits(name: string, d: Delimiting)
    requires IsSeparator(d.delim) && d.fold == ToLower && NoDigit(name)
    ensures Delimited(Delimited(name, d), d) == Delimited(name, d)
  {
    DelimitedShape(name, d);
    DelimitedOfStart(name, d);
    DigitFreeStart(name);
    DigitFreeOutput(TrimStart(name), false, false, false, d);
    DigitFreeIsSettled(Delimited(name, d), false, false, false, d);
    SettledIsStable(Delimited(name, d), d);
  }

  lemma {:induction false} DigitFreeStart(s: string)
    requires NoDigit(s)
    ensures NoDigit(TrimStart(s))
  {
    if s != "" && IsSeparator(s[0]) {
      DigitFreeStart(s[1..]);
    }
  }

  lemma {:induction false} UpperDelimitedSettlesInOne(name: string, d: Delimiting)
    requires IsSeparator(d.delim) && d.fold == ToUpper
    ensures Delimited(Delimited(name, d), d) == Delimited(name, d)
  {
    DelimitedShape(name, d);
    UppercaseIsSettled(Delimited(name, d), false, false, d);
    SettledIsStable(Delimited(name, d), d);
  }

  /** Upper-casing lowercase delimited output is delimiting in upper case. */
  lemma {:induction false} UppercasedDelim(s: string, prevLower: bool, started: bool, pending: bool, delim: char)
    requires IsSeparator(delim)
    ensures FoldAll(Delim(s, prevLower, started, pending, Delimiting(delim, ToLower)), ToUpper)
         == Delim(s, prevLower, started, pending, Delimiting(delim, ToUpper))
  {
    if s != "" {
      if IsSeparator(s[0]) {
        UppercasedDelim(s[1..], false, started, true, delim);
      } else {
        UppercasedDelim(s[1..], IsLower(s[0]), true, false, delim);
        var rest := Delim(s[1..], IsLower(s[0]), true, false, Delimiting(delim, ToLower));
        assert FoldAll([Fold(s[0], ToLower)] + rest, ToUpper) == [Fold(s[0], ToUpper)] + FoldAll(rest, ToUpper);
        var more := [Fold(s[0], ToLower)] + rest;
        assert FoldAll([delim] + more, ToUpper) == [delim] + FoldAll(more, ToUpper);
        assert [delim] + [Fold(s[0], ToLower)] + rest == [delim] + more;
        assert [] + [Fold(s[0], ToLower)] + rest == more;
      }
    }
  }

  lemma {:induction false} ScreamingKebabIsDelimited(name: string)
    ensures Apply(ScreamingKebab, name) == Delimited(name, Delimiting('-', ToUpper))
  {
    UppercasedDelim(Trim(name), false, false, false, '-');
  }

  // ---------------------------------------------------------------- delimiter-free styles

  ghost predicate Alphanumeric(s: string) {
    s == "" || (!IsSeparator(s[0]) && Alphanumeric(s[1..]))
  }

  lemma {:induction false} HumpsAreAlphanumeric(s: string, first: Case, started: bool, newWord: bool, seen: bool)
    ensures Alphanumeric(Humps(s, first, started, newWord, seen))
  {
    if s != "" {
      if IsSeparator(s[0]) {
        HumpsAreAlphanumeric(s[1..], first, started, true, seen);
      } else if IsDigit(s[0]) {
        HumpsAreAlphanumeric(s[1..], first, true, true, seen);
      } else if newWord || (seen && IsUpper(s[0])) {
        HumpsAreAlphanumeric(s[1..], first, true, false, seen);
      } else {
        HumpsAreAlphanumeric(s[1..], first, true, false, IsLower(s[0]));
      }
    }
  }

  /** Without separators the word starts do not move, and once a lowercase letter has been
      seen it stays seen, so a second pass changes nothing. */
  lemma {:induction false} HumpsAreStable(s: string, first: Case, started: bool, newWord: bool, seen: bool, seenAgain: bool)
    requires Alphanumeric(s) && (seen ==> started && seenAgain)
    ensures var out := Humps(s, first, started, newWord, seen);
            Humps(out, first, started, newWord, seenAgain) == out
  {
    if s != "" {
      if IsDigit(s[0]) {
        HumpsAreStable(s[1..], first, true, true, seen, seenAgain);
      } else if newWord || (seen && IsUpper(s[0])) {
        HumpsAreStable(s[1..], first, true, false, seen, seenAgain);
      } else {
        HumpsAreStable(s[1..], first, true, false, IsLower(s[0]), true);
      }
    }
  }

  /** PascalCase and camelCase: one application reaches a fixed point for a name without
      separators ... */
  lemma {:induction false} CamelLikeOfAlphanumeric(name: string, first: Case)
    requires Alphanumeric(name)
    ensures CamelLike(CamelLike(name, first), first) == CamelLike(name, first)
  {
    var once := CamelLike(name, first);
    assert TrimStart(name) == name;
    CamelLikeOfStart(name, first);
    HumpsAreAlphanumeric(name, first, false, first == ToUpper, false);
    assert TrimStart(once) == once;
    CamelLikeOfStart(once, first);
    HumpsAreStable(name, first, false, first == ToUpper, false, false);
  }

  /** ... and two do for every name. */
  lemma {:induction false} CamelLikeSettlesInTwo(name: string, first: Case)
    ensures CamelLike(CamelLike(CamelLike(name, first), first), first) == CamelLike(CamelLike(name, first), first)
  {
    CamelLikeOfStart(name, first);
    HumpsAreAlphanumeric(TrimStart(name), first, false, first == ToUpper, false);
    CamelLikeOfAlphanumeric(CamelLike(name, first), first);
  }

  // ---------------------------------------------------------------- all styles

  /** How many applications of a style always reach a fixed point. */
  function Settling(style: CaseStyle): nat {
    match style
    case Preserve => 0
    case Lower => 1
    case Upper => 1
    case Pascal => 2
    case Camel => 2
    case Snake => 2
    case Kebab => 2
    case ScreamingSnake => 1
    case ScreamingKebab => 1
  }

  function Repeat(style: CaseStyle, n: nat, name: string): string {
    if n == 0 then name else Apply(style, Repeat(style, n - 1, name))
  }

  lemma {:induction false} FoldTwice(s: string, k: Case, j: Case)
    ensures FoldAll(FoldAll(s, j), k) == FoldAll(s, k)
  {
    if s != "" {
      FoldTwice(s[1..], k, j);
    }
  }

  /** Every style stabilises, after as many applications as `Settling` says. */
  lemma {:induction false} EveryStyleSettles(style: CaseStyle, name: string)
    ensures var n := Settling(style);
            Apply(style, Repeat(style, n, name)) == Repeat(style, n, name)
  {
    assert Repeat(style, 1, name) == Apply(style, Repeat(style, 0, name)) == Apply(style, name);
    assert Repeat(style, 2, name) == Apply(style, Apply(style, name));
    match style
    case Preserve =>
    case Lower => FoldTwice(name, ToLower, ToLower);
    case Upper => FoldTwice(name, ToUpper, ToUpper);
    case Pascal => CamelLikeSettlesInTwo(name, ToUpper);
    case Camel => CamelLikeSettlesInTwo(name, ToLower);
    case Snake => LowerDelimitedSettlesInTwo(name, Delimiting('_', ToLower));
    case Kebab => LowerDelimitedSettlesInTwo(name, Delimiting('-', ToLower));
    case ScreamingSnake => UpperDelimitedSettlesInOne(name, Delimiting('_', ToUpper));
    case ScreamingKebab =>
      ScreamingKebabIsDelimited(name);
      ScreamingKebabIsDelimited(Apply(ScreamingKebab, name));
      UpperDelimitedSettlesInOne(name, Delimiting('-', ToUpper));
  }
}
