/** For which names one application of a style is already a fixed point. */
module CaseIdempotence {
  import opened CaseConvert
  import opened CaseStability
  import opened CasePrefix

  // ---------------------------------------------------------------- delimited styles

  predicate StartsUpper(s: string) {
    s != "" && IsUpper(s[0])
  }

  /** A digit inside a name that the first pass leaves in its word, although lowercasing puts
      a lowercase letter beside it: an uppercase letter before it, or one after it that does
      not open a word itself. The second pass splits it off. */
  predicate SplitLater(s: string, prevLower: bool, prevUpper: bool)
    requires s != ""
  {
    IsDigit(s[0]) && !prevLower && !StartsLower(s[1..])
    && (prevUpper || (StartsUpper(s[1..]) && !StartsLower(s[2..])))
  }

  /** Some digit of `s` is split off only by a second pass. The character before `s` is
      lowercase, uppercase or neither; the name has begun or not; a separator stands right
      before `s` or not. */
  predicate DelimMoves(s: string, prevLower: bool, prevUpper: bool, started: bool, pending: bool) {
    s != "" &&
    if IsSeparator(s[0]) then DelimMoves(s[1..], false, false, started, true)
    else
      || (started && !pending && SplitLater(s, prevLower, prevUpper))
      || DelimMoves(s[1..], IsLower(s[0]), IsUpper(s[0]), true, false)
  }

  /** A folded letter in output that follows a delimiter, or does not, is kept as it is. */
  lemma {:induction false} LetterAgain(c: char, out: string, outLower: bool, started: bool, mark: bool, d: Delimiting)
    requires IsSeparator(d.delim) && d.fold == ToLower && IsLower(c) && (mark ==> started)
    ensures Delim(Due(mark, d) + ([c] + out), outLower, started, false, d) == Due(mark, d) + ([c] + out)
       <==> Delim(out, true, true, false, d) == out
  {
    var more := Delim(out, true, true, false, d);
    if mark {
      assert Due(mark, d) + ([c] + out) == [d.delim] + ([c] + out);
      DelimSkipped(d.delim, [c] + out, outLower, started, false, d);
      DelimKept(c, out, false, started, true, d);
      assert [d.delim] + ([c] + more) == [d.delim, c] + more && [d.delim] + ([c] + out) == [d.delim, c] + out;
      SameHead([d.delim, c], more, out);
    } else {
      assert Due(mark, d) + ([c] + out) == [c] + out;
      DelimKept(c, out, outLower, started, false, d);
      assert "" + ([c] + more) == [c] + more;
      SameHead([c], more, out);
    }
  }

  /** A digit in output that follows a delimiter is kept as it is. */
  lemma {:induction false} MarkedDigitAgain(c: char, out: string, outLower: bool, started: bool, d: Delimiting)
    requires IsSeparator(d.delim) && IsDigit(c) && started
    ensures Delim([d.delim] + ([c] + out), outLower, started, false, d) == [d.delim] + ([c] + out)
       <==> Delim(out, false, true, false, d) == out
  {
    var more := Delim(out, false, true, false, d);
    DelimSkipped(d.delim, [c] + out, outLower, started, false, d);
    DelimKept(c, out, false, started, true, d);
    assert [d.delim] + ([c] + more) == [d.delim, c] + more && [d.delim] + ([c] + out) == [d.delim, c] + out;
    SameHead([d.delim, c], more, out);
  }

  /** Any other digit is kept unless it is next to a lowercase letter of the output. */
  lemma {:induction false} DigitAgain(c: char, out: string, outLower: bool, started: bool, d: Delimiting)
    requires IsSeparator(d.delim) && IsDigit(c)
    ensures Delim([c] + out, outLower, started, false, d) == [c] + out
       <==> !(started && (outLower || StartsLower(out))) && Delim(out, false, true, false, d) == out
  {
    var more := Delim(out, false, true, false, d);
    DelimKept(c, out, outLower, started, false, d);
    if started && (outLower || StartsLower(out)) {
      assert ([d.delim] + ([c] + more))[0] != ([c] + out)[0];
    } else {
      assert "" + ([c] + more) == [c] + more;
      SameHead([c], more, out);
    }
  }

  /** The output after a digit goes on with a lowercase letter exactly if the name goes on
      with a letter that does not open a word. */
  lemma {:induction false} AfterDigit(s: string, d: Delimiting)
    requires IsSeparator(d.delim) && d.fold == ToLower
    ensures StartsLower(Delim(s, false, true, false, d))
       <==> StartsLower(s) || (StartsUpper(s) && !StartsLower(s[1..]))
  {
    if s != "" {
      var c, rest := s[0], s[1..];
      assert s == [c] + rest;
      if IsSeparator(c) {
        DelimSkipped(c, rest, false, true, false, d);
        PendingStarts(rest, d);
      } else {
        DelimKept(c, rest, false, true, false, d);
      }
    }
  }

  lemma {:induction false} PendingStarts(s: string, d: Delimiting)
    requires IsSeparator(d.delim)
    ensures !StartsLower(Delim(s, false, true, true, d))
  {
    if s != "" {
      var c, rest := s[0], s[1..];
      assert s == [c] + rest;
      if IsSeparator(c) {
        DelimSkipped(c, rest, false, true, true, d);
        PendingStarts(rest, d);
      } else {
        DelimKept(c, rest, false, true, true, d);
      }
    }
  }

  /** The output of a first pass from any state is fixed exactly if no digit is split later. */
  lemma {:induction false} DelimFixedIff(s: string, prevLower: bool, prevUpper: bool, started: bool, pending: bool, outLower: bool, d: Delimiting)
    requires IsSeparator(d.delim) && d.fold == ToLower
    requires pending ==> started
    requires started || s == "" || !IsSeparator(s[0])
    requires started && !pending ==> outLower == (prevLower || prevUpper)
    ensures var out := Delim(s, prevLower, started, pending, d);
            Delim(out, outLower, started, false, d) == out <==> !DelimMoves(s, prevLower, prevUpper, started, pending)
    decreases s, 0
  {
    if s != "" {
      var c, rest := s[0], s[1..];
      assert s == [c] + rest;
      if IsSeparator(c) {
        DelimSkipped(c, rest, prevLower, started, pending, d);
        DelimFixedIff(rest, false, false, started, true, outLower, d);
      } else if IsDigit(c) {
        DigitFixedIff(c, rest, prevLower, prevUpper, started, pending, outLower, d);
      } else {
        var mark := pending || (started && !IsLower(c) && (prevLower || StartsLower(rest)));
        DelimKept(c, rest, prevLower, started, pending, d);
        LetterAgain(Fold(c, ToLower), Delim(rest, IsLower(c), true, false, d), outLower, started, mark, d);
        DelimFixedIff(rest, IsLower(c), IsUpper(c), true, false, true, d);
      }
    }
  }

  lemma {:induction false} DigitFixedIff(c: char, rest: string, prevLower: bool, prevUpper: bool, started: bool, pending: bool, outLower: bool, d: Delimiting)
    requires IsSeparator(d.delim) && d.fold == ToLower && IsDigit(c)
    requires pending ==> started
    requires started && !pending ==> outLower == (prevLower || prevUpper)
    ensures var s := [c] + rest;
            var out := Delim(s, prevLower, started, pending, d);
            Delim(out, outLower, started, false, d) == out <==> !DelimMoves(s, prevLower, prevUpper, started, pending)
    decreases rest, 1
  {
    var s := [c] + rest;
    var more := Delim(rest, false, true, false, d);
    var mark := pending || (started && (prevLower || StartsLower(rest)));
    assert s[1..] == rest;
    assert rest != "" ==> s[2..] == rest[1..];
    DelimKept(c, rest, prevLower, started, pending, d);
    AfterDigit(rest, d);
    DelimFixedIff(rest, false, false, true, false, false, d);
    if mark {
      MarkedDigitAgain(c, more, outLower, started, d);
    } else {
      assert Due(mark, d) + ([c] + more) == [c] + more;
      DigitAgain(c, more, outLower, started, d);
    }
  }

  /** snake_case and kebab-case are idempotent exactly on the names no digit of which is split
      off only later. */
  lemma {:induction false} LowerDelimitedIdempotentIff(name: string, d: Delimiting)
    requires IsSeparator(d.delim) && d.fold == ToLower
    ensures Delimited(Delimited(name, d), d) == Delimited(name, d)
       <==> !DelimMoves(TrimStart(name), false, false, false, false)
  {
    var once := Delimited(name, d);
    DelimitedShape(name, d);
    DelimitedOfStart(name, d);
    DelimitedOfStart(once, d);
    TrimmedStart(name);
    DelimFixedIff(TrimStart(name), false, false, false, false, false, d);
  }

  // ---------------------------------------------------------------- delimiter-free styles

  /** Some letter of `s` opens a word in the first pass but not in the second. The first pass
      is about to open a word (`newWord`); the second one is too (`newWordAgain`), which needs
      a digit or the start of the name right before; some letter before `s` did not open a
      word (`inside`); the last of those was lowercase (`seen`). */
  predicate HumpsMove(s: string, newWord: bool, newWordAgain: bool, inside: bool, seen: bool) {
    s != "" &&
    if IsSeparator(s[0]) then HumpsMove(s[1..], true, newWordAgain, inside, seen)
    else if IsDigit(s[0]) then HumpsMove(s[1..], true, true, inside, seen)
    else if newWord || (seen && IsUpper(s[0])) then
      (!newWordAgain && !inside) || HumpsMove(s[1..], false, false, inside, seen)
    else HumpsMove(s[1..], false, false, true, IsLower(s[0]))
  }

  /** A capital that opened a word stays one exactly if it opens a word again. */
  lemma {:induction false} CapitalAgain(c: char, out: string, first: Case, started: bool, newWord: bool, inside: bool)
    requires IsUpper(c) && (started || first == ToUpper)
    ensures Humps([c] + out, first, started, newWord, inside) == [c] + out
       <==> (newWord || inside) && Humps(out, first, true, false, inside) == out
  {
    if newWord || inside {
      HumpsOpens(c, out, first, started, newWord, inside);
      SameHead([c], Humps(out, first, true, false, inside), out);
    } else {
      HumpsFolds(c, out, first, started, false);
    }
  }

  lemma {:induction false} DigitKept(c: char, out: string, first: Case, started: bool, newWord: bool, inside: bool)
    requires IsDigit(c)
    ensures Humps([c] + out, first, started, newWord, inside) == [c] + out <==> Humps(out, first, true, true, inside) == out
  {
    HumpsDigit(c, out, first, started, newWord, inside);
    SameHead([c], Humps(out, first, true, true, inside), out);
  }

  lemma {:induction false} LowerKept(c: char, out: string, first: Case, started: bool, inside: bool)
    requires IsLower(c)
    ensures Humps([c] + out, first, started, false, inside) == [c] + out <==> Humps(out, first, true, false, true) == out
  {
    HumpsFolds(c, out, first, started, inside);
    SameHead([c], Humps(out, first, true, false, true), out);
  }

  lemma {:induction false} HumpsFixedIff(s: string, first: Case, started: bool, newWord: bool, newWordAgain: bool, inside: bool, seen: bool)
    requires newWordAgain ==> newWord
    requires seen ==> inside
    requires started || s == "" || !IsSeparator(s[0])
    requires !started && newWord ==> first == ToUpper
    requires inside ==> started
    ensures var out := Humps(s, first, started, newWord, seen);
            Humps(out, first, started, newWordAgain, inside) == out <==> !HumpsMove(s, newWord, newWordAgain, inside, seen)
  {
    if s != "" {
      var c, rest := s[0], s[1..];
      assert s == [c] + rest;
      if IsSeparator(c) {
        HumpsSkips(c, rest, first, started, newWord, seen);
        HumpsFixedIff(rest, first, started, true, newWordAgain, inside, seen);
      } else if IsDigit(c) {
        HumpsDigit(c, rest, first, started, newWord, seen);
        DigitKept(c, Humps(rest, first, true, true, seen), first, started, newWordAgain, inside);
        HumpsFixedIff(rest, first, true, true, true, inside, seen);
      } else if newWord || (seen && IsUpper(c)) {
        HumpsOpens(c, rest, first, started, newWord, seen);
        CapitalAgain(Fold(c, ToUpper), Humps(rest, first, true, false, seen), first, started, newWordAgain, inside);
        HumpsFixedIff(rest, first, true, false, false, inside, seen);
      } else {
        HumpsFolds(c, rest, first, started, seen);
        LowerKept(Fold(c, ToLower), Humps(rest, first, true, false, IsLower(c)), first, started, inside);
        HumpsFixedIff(rest, first, true, false, false, true, IsLower(c));
      }
    }
  }

  /** PascalCase and camelCase are idempotent exactly on the names in which no letter opens a
      word only the first time. */
  lemma {:induction false} CamelLikeIdempotentIff(name: string, first: Case)
    ensures CamelLike(CamelLike(name, first), first) == CamelLike(name, first)
       <==> !HumpsMove(TrimStart(name), first == ToUpper, first == ToUpper, false, false)
  {
    var once := CamelLike(name, first);
    CamelLikeOfStart(name, first);
    HumpsAreAlphanumeric(TrimStart(name), first, false, first == ToUpper, false);
    CamelLikeOfStart(once, first);
    TrimmedStart(name);
    HumpsFixedIff(TrimStart(name), first, false, first == ToUpper, first == ToUpper, false, false);
  }

  // ---------------------------------------------------------------- all styles

  /** Exactly the names on which one application of a style is a fixed point. */
  lemma {:induction false} IdempotentIff(style: CaseStyle, name: string)
    ensures Apply(style, Apply(style, name)) == Apply(style, name) <==>
            match style
            case Pascal => !HumpsMove(TrimStart(name), true, true, false, false)
            case Camel => !HumpsMove(TrimStart(name), false, false, false, false)
            case Snake => !DelimMoves(TrimStart(name), false, false, false, false)
            case Kebab => !DelimMoves(TrimStart(name), false, false, false, false)
            case _ => true
  {
    match style
    case Pascal => CamelLikeIdempotentIff(name, ToUpper);
    case Camel => CamelLikeIdempotentIff(name, ToLower);
    case Snake => LowerDelimitedIdempotentIff(name, Delimiting('_', ToLower));
    case Kebab => LowerDelimitedIdempotentIff(name, Delimiting('-', ToLower));
    case _ =>
      EveryStyleSettles(style, name);
      assert Repeat(style, 1, name) == Apply(style, Repeat(style, 0, name)) == Apply(style, name);
  }

  lemma {:induction false} DelimEnds(prevLower: bool, d: Delimiting)
    ensures Delim("", prevLower, true, false, d) == ""
  {
  }

  lemma {:induction false} DigitPass(a: char, b: char, n: char, c: char, d: Delimiting)
    requires IsUpper(a) && IsUpper(b) && IsDigit(n) && IsUpper(c)
    ensures Delimited([a, b, n, c], d) == [Fold(a, d.fold), Fold(b, d.fold), n, Fold(c, d.fold)]
  {
    DelimEnds(false, d);
    DelimKept(c, [], false, true, false, d);
    assert [c] + [] == [c];
    DelimKept(n, [c], false, true, false, d);
    assert [n] + [c] == [n, c];
    DelimKept(b, [n, c], false, true, false, d);
    assert [b] + [n, c] == [b, n, c];
    DelimKept(a, [b, n, c], false, false, false, d);
    assert [a] + [b, n, c] == [a, b, n, c];
    DelimitedOfStart([a, b, n, c], d);
  }

  lemma {:induction false} DigitNextPass(x: char, y: char, n: char, z: char, d: Delimiting)
    requires IsLower(x) && IsLower(y) && IsDigit(n) && IsLower(z) && d.fold == ToLower
    ensures Delimited([x, y, n, z], d) == [x, y, d.delim, n, z]
  {
    DelimEnds(true, d);
    DelimKept(z, [], false, true, false, d);
    assert [z] + [] == [z];
    DelimKept(n, [z], true, true, false, d);
    assert [n] + [z] == [n, z];
    DelimKept(y, [n, z], true, true, false, d);
    assert [y] + [n, z] == [y, n, z];
    DelimKept(x, [y, n, z], false, false, false, d);
    assert [x] + [y, n, z] == [x, y, n, z];
    DelimitedOfStart([x, y, n, z], d);
  }

  /** A digit between uppercase letters: `AB1C` in snake_case is `ab1c`, and that is `ab_1c`. */
  lemma {:induction false} DigitSplitLater(a: char, b: char, n: char, c: char, d: Delimiting)
    requires IsUpper(a) && IsUpper(b) && IsDigit(n) && IsUpper(c) && d.fold == ToLower
    ensures var x, y, z := Fold(a, ToLower), Fold(b, ToLower), Fold(c, ToLower);
            && Delimited([a, b, n, c], d) == [x, y, n, z]
            && Delimited([x, y, n, z], d) == [x, y, d.delim, n, z]
  {
    DigitPass(a, b, n, c, d);
    DigitNextPass(Fold(a, ToLower), Fold(b, ToLower), n, Fold(c, ToLower), d);
  }

  /** Words of one letter: `A_B` in PascalCase is `AB`, and that is `Ab`. */
  lemma {:induction false} CapitalLostLater(a: char, sep: char, b: char)
    requires IsUpper(a) && IsSeparator(sep) && IsUpper(b)
    ensures CamelLike([a, sep, b], ToUpper) == [a, b] && CamelLike([a, b], ToUpper) == [a, Fold(b, ToLower)]
  {
    HumpsOpens(b, [], ToUpper, true, true, false);
    assert [b] + [] == [b];
    HumpsSkips(sep, [b], ToUpper, true, false, false);
    assert [sep] + [b] == [sep, b];
    HumpsOpens(a, [sep, b], ToUpper, false, true, false);
    assert [a] + [sep, b] == [a, sep, b];
    CamelLikeOfStart([a, sep, b], ToUpper);
    HumpsFolds(b, [], ToUpper, true, false);
    HumpsOpens(a, [b], ToUpper, false, true, false);
    assert [a] + [b] == [a, b];
    CamelLikeOfStart([a, b], ToUpper);
  }

  /** Digits first: `1_A_B` in camelCase is `1AB`, and that is `1Ab`. */
  lemma {:induction false} CapitalLostAfterDigit(n: char, sep: char, a: char, b: char)
    requires IsDigit(n) && IsSeparator(sep) && IsUpper(a) && IsUpper(b)
    ensures CamelLike([n, sep, a, sep, b], ToLower) == [n, a, b] && CamelLike([n, a, b], ToLower) == [n, a, Fold(b, ToLower)]
  {
    HumpsOpens(b, [], ToLower, true, true, false);
    assert [b] + [] == [b];
    HumpsSkips(sep, [b], ToLower, true, false, false);
    assert [sep] + [b] == [sep, b];
    HumpsOpens(a, [sep, b], ToLower, true, true, false);
    assert [a] + [sep, b] == [a, sep, b];
    HumpsSkips(sep, [a, sep, b], ToLower, true, true, false);
    assert [sep] + [a, sep, b] == [sep, a, sep, b];
    HumpsDigit(n, [sep, a, sep, b], ToLower, false, false, false);
    assert [n] + [sep, a, sep, b] == [n, sep, a, sep, b];
    CamelLikeOfStart([n, sep, a, sep, b], ToLower);
    HumpsFolds(b, [], ToLower, true, false);
    HumpsOpens(a, [b], ToLower, true, true, false);
    assert [a] + [b] == [a, b];
    HumpsDigit(n, [a, b], ToLower, false, false, false);
    assert [n] + [a, b] == [n, a, b];
    CamelLikeOfStart([n, a, b], ToLower);
  }
}
