/** When the rendering of a word list in one style converts into its rendering in another. */
module CaseRoundTrip {
  import opened CaseConvert
  import opened CaseStability
  import opened CasePrefix

  // ---------------------------------------------------------------- renderings

  /** A word of lowercase letters. */
  predicate Word(w: string) {
    w != "" && Lowercase(w)
  }

  predicate Lowercase(w: string) {
    w == "" || (IsLower(w[0]) && Lowercase(w[1..]))
  }

  predicate Words(ws: seq<string>) {
    ws == [] || (Word(ws[0]) && Words(ws[1..]))
  }

  function Capitalized(w: string): string {
    if w == "" then "" else [Fold(w[0], ToUpper)] + w[1..]
  }

  /** A word in the case its position asks for. */
  function Placed(w: string, first: Case): string {
    if first == ToUpper then Capitalized(w) else w
  }

  function MoreHumps(ws: seq<string>): string {
    if ws == [] then "" else Capitalized(ws[0]) + MoreHumps(ws[1..])
  }

  function MoreDelimited(ws: seq<string>, d: Delimiting): string {
    if ws == [] then "" else [d.delim] + FoldAll(ws[0], d.fold) + MoreDelimited(ws[1..], d)
  }

  function JoinDelimited(ws: seq<string>, d: Delimiting): string {
    if ws == [] then "" else FoldAll(ws[0], d.fold) + MoreDelimited(ws[1..], d)
  }

  function JoinHumps(ws: seq<string>, first: Case): string {
    if ws == [] then ""
    else Placed(ws[0], first) + MoreHumps(ws[1..])
  }

  /** The styles that mark word boundaries. */
  datatype WordStyle = Joined(d: Delimiting) | Humped(first: Case)

  function StyleOf(ws: WordStyle): CaseStyle
    requires IsWordStyle(ws)
  {
    match ws
    case Humped(ToUpper) => Pascal
    case Humped(ToLower) => Camel
    case Joined(d) =>
      if d.delim == '_' then (if d.fold == ToLower then Snake else ScreamingSnake)
      else (if d.fold == ToLower then Kebab else ScreamingKebab)
  }

  predicate IsWordStyle(ws: WordStyle) {
    ws.Joined? ==> ws.d.delim == '_' || ws.d.delim == '-'
  }

  function Render(style: WordStyle, ws: seq<string>): string {
    match style
    case Joined(d) => JoinDelimited(ws, d)
    case Humped(first) => JoinHumps(ws, first)
  }

  // ---------------------------------------------------------------- the exact condition

  predicate Long(w: string) { |w| >= 2 }

  /** No word of one letter follows another one; `afterLong` says whether the word before
      counts as a long one. */
  predicate Apart(ws: seq<string>, afterLong: bool) {
    ws == [] || ((afterLong || Long(ws[0])) && Apart(ws[1..], Long(ws[0])))
  }

  /** Delimiters keep every word apart. Without them two neighbouring words of one letter
      read as one, unless the first of them is the lowercase start of camelCase; and between
      the two humped styles only the first word matters, because a capital counts as a new
      word once a lowercase letter was folded. */
  predicate Convertible(src: WordStyle, dst: WordStyle, ws: seq<string>) {
    match src
    case Joined(_) => true
    case Humped(first) =>
      ws == [] ||
      match dst
      case Joined(_) => Apart(ws[1..], first == ToLower || Long(ws[0]))
      case Humped(other) => |ws| == 1 || Long(ws[0]) || (first == ToLower && other == ToLower)
  }

  // ---------------------------------------------------------------- delimited: one word

  lemma {:induction false} Regroup(mark: string, a: string, b: string, c: string)
    ensures mark + a + ("" + b + c) == mark + (a + b) + c
  {
  }

  lemma {:induction false} DelimLower(c: char, rest: string, prevLower: bool, started: bool, pending: bool, d: Delimiting)
    requires IsLower(c)
    ensures Delim([c] + rest, prevLower, started, pending, d)
         == Due(pending, d) + [Fold(c, d.fold)] + Delim(rest, true, true, false, d)
  {
    assert ([c] + rest)[1..] == rest;
  }

  /** A capital starts a word if it follows or precedes a lowercase letter. */
  lemma {:induction false} DelimUpper(c: char, rest: string, prevLower: bool, started: bool, pending: bool, d: Delimiting)
    requires IsUpper(c)
    ensures Delim([c] + rest, prevLower, started, pending, d)
         == Due(pending || (started && (prevLower || StartsLower(rest))), d) + [Fold(c, d.fold)] + Delim(rest, false, true, false, d)
  {
    assert ([c] + rest)[1..] == rest;
  }

  lemma {:induction false} FoldOne(w: string, k: Case)
    requires w != ""
    ensures FoldAll(w, k) == [Fold(w[0], k)] + FoldAll(w[1..], k)
    ensures |w| == 1 ==> FoldAll(w, k) == [Fold(w[0], k)]
  {
  }

  lemma {:induction false} DelimLowerWord(w: string, rest: string, prevLower: bool, started: bool, pending: bool, d: Delimiting)
    requires Word(w)
    ensures Delim(w + rest, prevLower, started, pending, d)
         == Due(pending, d) + FoldAll(w, d.fold) + Delim(rest, true, true, false, d)
  {
    assert w + rest == [w[0]] + (w[1..] + rest);
    DelimLower(w[0], w[1..] + rest, prevLower, started, pending, d);
    FoldOne(w, d.fold);
    if |w| == 1 {
      assert w[1..] + rest == rest;
    } else {
      DelimLowerWord(w[1..], rest, true, true, false, d);
      Regroup(Due(pending, d), [Fold(w[0], d.fold)], FoldAll(w[1..], d.fold), Delim(rest, true, true, false, d));
    }
  }

  lemma {:induction false} DelimUpperWord(w: string, rest: string, started: bool, pending: bool, d: Delimiting)
    requires Word(w) && !StartsLower(rest)
    ensures Delim(FoldAll(w, ToUpper) + rest, false, started, pending, d)
         == Due(pending, d) + FoldAll(w, d.fold) + Delim(rest, false, true, false, d)
  {
    var c, more := Fold(w[0], ToUpper), FoldAll(w[1..], ToUpper) + rest;
    FoldOne(w, ToUpper);
    FoldOne(w, d.fold);
    assert FoldAll(w, ToUpper) + rest == [c] + more;
    DelimUpperMore(w, rest);
    DelimUpper(c, more, false, started, pending, d);
    if |w| == 1 {
      assert more == rest;
    } else {
      DelimUpperWord(w[1..], rest, true, false, d);
      Regroup(Due(pending, d), [Fold(w[0], d.fold)], FoldAll(w[1..], d.fold), Delim(rest, false, true, false, d));
    }
  }

  lemma {:induction false} DelimUpperMore(w: string, rest: string)
    requires Word(w) && !StartsLower(rest)
    ensures !StartsLower(FoldAll(w[1..], ToUpper) + rest)
  {
    if |w| == 1 { assert FoldAll(w[1..], ToUpper) + rest == rest; }
    else { FoldOne(w[1..], ToUpper); }
  }

  lemma {:induction false} CapitalizedRest(w: string, rest: string)
    requires Word(w) && !StartsLower(rest)
    ensures Capitalized(w) + rest == [Fold(w[0], ToUpper)] + (w[1..] + rest)
    ensures IsUpper(Fold(w[0], ToUpper))
    ensures StartsLower(w[1..] + rest) <==> Long(w)
  {
    if |w| == 1 { assert w[1..] + rest == rest; }
    else { assert Lowercase(w[1..]); }
  }

  lemma {:induction false} DelimHump(w: string, rest: string, prevLower: bool, started: bool, d: Delimiting)
    requires Word(w) && !StartsLower(rest)
    ensures Delim(Capitalized(w) + rest, prevLower, started, false, d)
         == Due(started && (prevLower || Long(w)), d) + FoldAll(w, d.fold) + Delim(rest, Long(w), true, false, d)
  {
    CapitalizedRest(w, rest);
    DelimUpper(Fold(w[0], ToUpper), w[1..] + rest, prevLower, started, false, d);
    DelimAfterCapital(w, rest, Due(started && (prevLower || Long(w)), d), d);
  }

  lemma {:induction false} DelimAfterCapital(w: string, rest: string, due: string, d: Delimiting)
    requires Word(w)
    ensures due + [Fold(w[0], d.fold)] + Delim(w[1..] + rest, false, true, false, d)
         == due + FoldAll(w, d.fold) + Delim(rest, Long(w), true, false, d)
  {
    FoldOne(w, d.fold);
    if |w| == 1 {
      assert w[1..] + rest == rest;
    } else {
      DelimLowerWord(w[1..], rest, false, true, false, d);
      Regroup(due, [Fold(w[0], d.fold)], FoldAll(w[1..], d.fold), Delim(rest, true, true, false, d));
    }
  }

  // ---------------------------------------------------------------- humped: one word

  lemma {:induction false} HumpsLowercase(w: string, rest: string, first: Case, started: bool, seen: bool)
    requires Lowercase(w) && (started || w != "")
    ensures Humps(w + rest, first, started, false, seen)
         == w + Humps(rest, first, true, false, w != "" || seen)
  {
    if w == "" {
      assert w + rest == rest;
    } else {
      assert w + rest == [w[0]] + (w[1..] + rest);
      HumpsFolds(w[0], w[1..] + rest, first, started, seen);
      HumpsLowercase(w[1..], rest, first, true, true);
      Reassemble(w, Humps(rest, first, true, false, true));
    }
  }

  lemma {:induction false} Reassemble(w: string, more: string)
    requires w != ""
    ensures [w[0]] + (w[1..] + more) == w + more
  {
  }

  lemma {:induction false} HumpsUppercase(w: string, rest: string, first: Case, started: bool)
    requires Lowercase(w) && (started || w != "")
    ensures Humps(FoldAll(w, ToUpper) + rest, first, started, false, false) == w + Humps(rest, first, true, false, false)
  {
    if w == "" {
      assert FoldAll(w, ToUpper) + rest == rest;
    } else {
      var c, more := Fold(w[0], ToUpper), FoldAll(w[1..], ToUpper) + rest;
      FoldOne(w, ToUpper);
      assert FoldAll(w, ToUpper) + rest == [c] + more;
      HumpsFolds(c, more, first, started, false);
      HumpsUppercase(w[1..], rest, first, true);
      Reassemble(w, Humps(rest, first, true, false, false));
    }
  }

  lemma {:induction false} PlacedWord(w: string, k: Case, tail: string)
    requires Word(w)
    ensures [Fold(w[0], k)] + (w[1..] + tail) == Placed(w, k) + tail
    ensures [Fold(Fold(w[0], ToUpper), k)] + (w[1..] + tail) == Placed(w, k) + tail
  {
    assert Placed(w, k) == [Fold(w[0], k)] + w[1..];
  }

  /** A word that is due, in lower case. */
  lemma {:induction false} HumpsNewLower(w: string, rest: string, first: Case, started: bool, seen: bool)
    requires Word(w) && (started || first == ToUpper)
    ensures Humps(w + rest, first, started, true, seen)
         == Capitalized(w) + Humps(rest, first, true, false, Long(w) || seen)
  {
    assert w + rest == [w[0]] + (w[1..] + rest);
    HumpsOpens(w[0], w[1..] + rest, first, started, true, seen);
    HumpsLowercase(w[1..], rest, first, true, seen);
    PlacedWord(w, ToUpper, Humps(rest, first, true, false, Long(w) || seen));
  }

  /** A word that is due, in upper case. */
  lemma {:induction false} HumpsNewUpper(w: string, rest: string, first: Case, started: bool)
    requires Word(w) && (started || first == ToUpper)
    ensures Humps(FoldAll(w, ToUpper) + rest, first, started, true, false)
         == Capitalized(w) + Humps(rest, first, true, false, false)
  {
    var c, more := Fold(w[0], ToUpper), FoldAll(w[1..], ToUpper) + rest;
    FoldOne(w, ToUpper);
    assert FoldAll(w, ToUpper) + rest == [c] + more;
    HumpsOpens(c, more, first, started, true, false);
    HumpsUppercase(w[1..], rest, first, true);
    PlacedWord(w, ToUpper, Humps(rest, first, true, false, false));
  }

  /** A capitalized word after a lowercase letter. */
  lemma {:induction false} HumpsHump(w: string, rest: string, first: Case)
    requires Word(w) && !StartsLower(rest)
    ensures Humps(Capitalized(w) + rest, first, true, false, true) == Capitalized(w) + Humps(rest, first, true, false, true)
  {
    CapitalizedRest(w, rest);
    HumpsOpens(Fold(w[0], ToUpper), w[1..] + rest, first, true, false, true);
    HumpsLowercase(w[1..], rest, first, true, true);
    PlacedWord(w, ToUpper, Humps(rest, first, true, false, true));
  }

  /** A capitalized word before any lowercase letter is not seen as one. */
  lemma {:induction false} HumpsMissed(w: string, rest: string, more: string, first: Case)
    requires Word(w) && !StartsLower(rest)
    ensures Humps(Capitalized(w) + rest, first, true, false, false) != Capitalized(w) + more
  {
    CapitalizedRest(w, rest);
    HumpsFolds(Fold(w[0], ToUpper), w[1..] + rest, first, true, false);
    assert (Capitalized(w) + more)[0] == Fold(w[0], ToUpper);
  }

  // ---------------------------------------------------------------- all words

  lemma {:induction false} HumpsStartUpper(ws: seq<string>)
    requires Words(ws)
    ensures !StartsLower(MoreHumps(ws))
  {
  }

  lemma {:induction false} DelimMoreLower(ws: seq<string>, from: char, d: Delimiting)
    requires Words(ws) && IsSeparator(from)
    ensures Delim(MoreDelimited(ws, Delimiting(from, ToLower)), true, true, false, d) == MoreDelimited(ws, d)
  {
    if ws != [] {
      var src := Delimiting(from, ToLower);
      var rest := MoreDelimited(ws[1..], src);
      FoldLowercase(ws[0]);
      assert MoreDelimited(ws, src) == [from] + (ws[0] + rest);
      DelimSkipped(from, ws[0] + rest, true, true, false, d);
      DelimLowerWord(ws[0], rest, false, true, true, d);
      DelimMoreLower(ws[1..], from, d);
    }
  }

  lemma {:induction false} DelimMoreUpper(ws: seq<string>, from: char, d: Delimiting)
    requires Words(ws) && IsSeparator(from)
    ensures Delim(MoreDelimited(ws, Delimiting(from, ToUpper)), false, true, false, d) == MoreDelimited(ws, d)
  {
    if ws != [] {
      var src := Delimiting(from, ToUpper);
      var rest := MoreDelimited(ws[1..], src);
      assert MoreDelimited(ws, src) == [from] + (FoldAll(ws[0], ToUpper) + rest);
      DelimSkipped(from, FoldAll(ws[0], ToUpper) + rest, false, true, false, d);
      assert !StartsLower(rest);
      DelimUpperWord(ws[0], rest, true, true, d);
      DelimMoreUpper(ws[1..], from, d);
    }
  }

  lemma {:induction false} DelimMoreHumps(ws: seq<string>, prevLower: bool, d: Delimiting)
    requires Words(ws) && IsSeparator(d.delim)
    ensures Delim(MoreHumps(ws), prevLower, true, false, d) == MoreDelimited(ws, d) <==> Apart(ws, prevLower)
  {
    if ws != [] {
      var w, more := ws[0], ws[1..];
      var out := Delim(MoreHumps(more), Long(w), true, false, d);
      HumpsStartUpper(more);
      DelimHump(w, MoreHumps(more), prevLower, true, d);
      FoldOne(w, d.fold);
      if prevLower || Long(w) {
        DelimMoreHumps(more, Long(w), d);
        SameHead([d.delim] + FoldAll(w, d.fold), out, MoreDelimited(more, d));
      } else {
        assert ("" + FoldAll(w, d.fold) + out)[0] == Fold(w[0], d.fold);
        assert MoreDelimited(ws, d)[0] == d.delim;
      }
    }
  }

  lemma {:induction false} HumpsMoreLower(ws: seq<string>, from: char, first: Case, seen: bool)
    requires Words(ws) && IsSeparator(from)
    ensures Humps(MoreDelimited(ws, Delimiting(from, ToLower)), first, true, false, seen) == MoreHumps(ws)
  {
    if ws != [] {
      var src := Delimiting(from, ToLower);
      var rest := MoreDelimited(ws[1..], src);
      FoldLowercase(ws[0]);
      assert MoreDelimited(ws, src) == [from] + (ws[0] + rest);
      HumpsSkips(from, ws[0] + rest, first, true, false, seen);
      HumpsNewLower(ws[0], rest, first, true, seen);
      HumpsMoreLower(ws[1..], from, first, Long(ws[0]) || seen);
    }
  }

  lemma {:induction false} HumpsMoreUpper(ws: seq<string>, from: char, first: Case)
    requires Words(ws) && IsSeparator(from)
    ensures Humps(MoreDelimited(ws, Delimiting(from, ToUpper)), first, true, false, false) == MoreHumps(ws)
  {
    if ws != [] {
      var src := Delimiting(from, ToUpper);
      var rest := MoreDelimited(ws[1..], src);
      assert MoreDelimited(ws, src) == [from] + (FoldAll(ws[0], ToUpper) + rest);
      HumpsSkips(from, FoldAll(ws[0], ToUpper) + rest, first, true, false, false);
      HumpsNewUpper(ws[0], rest, first, true);
      HumpsMoreUpper(ws[1..], from, first);
    }
  }

  lemma {:induction false} HumpsMoreHumps(ws: seq<string>, first: Case, seen: bool)
    requires Words(ws)
    ensures Humps(MoreHumps(ws), first, true, false, seen) == MoreHumps(ws) <==> ws == [] || seen
  {
    if ws != [] {
      HumpsStartUpper(ws[1..]);
      if seen {
        HumpsHump(ws[0], MoreHumps(ws[1..]), first);
        HumpsMoreHumps(ws[1..], first, true);
      } else {
        HumpsMissed(ws[0], MoreHumps(ws[1..]), MoreHumps(ws[1..]), first);
      }
    }
  }

  lemma {:induction false} FoldLowercase(w: string)
    requires Lowercase(w)
    ensures FoldAll(w, ToLower) == w
  {
    if w != "" {
      FoldLowercase(w[1..]);
    }
  }

  // ---------------------------------------------------------------- into a delimited style

  lemma {:induction false} DelimOfLower(ws: seq<string>, from: char, d: Delimiting)
    requires Words(ws) && ws != [] && IsSeparator(from)
    ensures Delim(JoinDelimited(ws, Delimiting(from, ToLower)), false, false, false, d) == JoinDelimited(ws, d)
  {
    FoldLowercase(ws[0]);
    DelimLowerWord(ws[0], MoreDelimited(ws[1..], Delimiting(from, ToLower)), false, false, false, d);
    DelimMoreLower(ws[1..], from, d);
  }

  lemma {:induction false} DelimOfUpper(ws: seq<string>, from: char, d: Delimiting)
    requires Words(ws) && ws != [] && IsSeparator(from)
    ensures Delim(JoinDelimited(ws, Delimiting(from, ToUpper)), false, false, false, d) == JoinDelimited(ws, d)
  {
    var w, rest := ws[0], MoreDelimited(ws[1..], Delimiting(from, ToUpper));
    assert JoinDelimited(ws, Delimiting(from, ToUpper)) == FoldAll(w, ToUpper) + rest;
    assert !StartsLower(rest);
    DelimUpperWord(w, rest, false, false, d);
    DelimMoreUpper(ws[1..], from, d);
    assert Due(false, d) + FoldAll(w, d.fold) == FoldAll(w, d.fold);
  }

  lemma {:induction false} DelimOfHumped(ws: seq<string>, first: Case, d: Delimiting)
    requires Words(ws) && ws != [] && IsSeparator(d.delim)
    ensures Delim(JoinHumps(ws, first), false, false, false, d) == JoinDelimited(ws, d)
       <==> Apart(ws[1..], first == ToLower || Long(ws[0]))
  {
    var w, rest := ws[0], MoreHumps(ws[1..]);
    var after := first == ToLower || Long(w);
    HumpsStartUpper(ws[1..]);
    if first == ToUpper {
      DelimHump(w, rest, false, false, d);
    } else {
      DelimLowerWord(w, rest, false, false, false, d);
    }
    assert "" + FoldAll(w, d.fold) == FoldAll(w, d.fold);
    DelimMoreHumps(ws[1..], after, d);
    SameHead(FoldAll(w, d.fold), Delim(rest, after, true, false, d), MoreDelimited(ws[1..], d));
  }

  lemma {:induction false} DelimOfRendering(src: WordStyle, ws: seq<string>, d: Delimiting)
    requires Words(ws) && (src.Joined? ==> IsSeparator(src.d.delim)) && IsSeparator(d.delim)
    ensures Delim(Render(src, ws), false, false, false, d) == JoinDelimited(ws, d) <==> Convertible(src, Joined(d), ws)
  {
    if ws != [] {
      match src
      case Joined(Delimiting(from, ToLower)) => DelimOfLower(ws, from, d);
      case Joined(Delimiting(from, ToUpper)) => DelimOfUpper(ws, from, d);
      case Humped(first) => DelimOfHumped(ws, first, d);
    }
  }

  // ---------------------------------------------------------------- into a humped style

  /** The first word of a camel_like conversion, in whatever case it comes. */
  lemma {:induction false} HumpsFirstUpper(w: string, rest: string, first: Case)
    requires Word(w)
    ensures Humps(FoldAll(w, ToUpper) + rest, first, false, first == ToUpper, false)
         == Placed(w, first) + Humps(rest, first, true, false, false)
  {
    if first == ToUpper {
      HumpsNewUpper(w, rest, first, false);
    } else {
      HumpsUppercase(w, rest, first, false);
    }
  }

  lemma {:induction false} HumpsFirstLower(w: string, rest: string, first: Case)
    requires Word(w)
    ensures Humps(w + rest, first, false, first == ToUpper, false)
         == Placed(w, first) + Humps(rest, first, true, false, first == ToLower || Long(w))
  {
    if first == ToUpper {
      HumpsNewLower(w, rest, first, false, false);
    } else {
      HumpsLowercase(w, rest, first, false, false);
    }
  }

  lemma {:induction false} HumpsFirstHump(w: string, rest: string, first: Case)
    requires Word(w) && !StartsLower(rest)
    ensures Humps(Capitalized(w) + rest, first, false, first == ToUpper, false)
         == Placed(w, first) + Humps(rest, first, true, false, Long(w))
  {
    var c := Fold(w[0], ToUpper);
    CapitalizedRest(w, rest);
    if first == ToUpper {
      HumpsOpens(c, w[1..] + rest, first, false, true, false);
    } else {
      HumpsFolds(c, w[1..] + rest, first, false, false);
    }
    HumpsLowercase(w[1..], rest, first, true, false);
    PlacedWord(w, first, Humps(rest, first, true, false, Long(w)));
  }

  lemma {:induction false} HumpsOfHumped(from: Case, ws: seq<string>, first: Case)
    requires Words(ws) && ws != []
    ensures Humps(JoinHumps(ws, from), first, false, first == ToUpper, false) == JoinHumps(ws, first)
       <==> Convertible(Humped(from), Humped(first), ws)
  {
    var w, more := ws[0], ws[1..];
    var seen := Long(w) || (from == ToLower && first == ToLower);
    HumpsStartUpper(more);
    if from == ToUpper {
      HumpsFirstHump(w, MoreHumps(more), first);
    } else {
      HumpsFirstLower(w, MoreHumps(more), first);
    }
    HumpsMoreHumps(more, first, seen);
    SameHead(Placed(w, first), Humps(MoreHumps(more), first, true, false, seen), MoreHumps(more));
  }

  lemma {:induction false} HumpsOfRendering(src: WordStyle, ws: seq<string>, first: Case)
    requires Words(ws) && (src.Joined? ==> IsSeparator(src.d.delim))
    ensures Humps(Render(src, ws), first, false, first == ToUpper, false) == JoinHumps(ws, first)
       <==> Convertible(src, Humped(first), ws)
  {
    if ws != [] {
      var w, more := ws[0], ws[1..];
      match src
      case Joined(Delimiting(from, ToLower)) =>
        FoldLowercase(w);
        HumpsFirstLower(w, MoreDelimited(more, src.d), first);
        HumpsMoreLower(more, from, first, first == ToLower || Long(w));
      case Joined(Delimiting(from, ToUpper)) =>
        HumpsFirstUpper(w, MoreDelimited(more, src.d), first);
        HumpsMoreUpper(more, from, first);
      case Humped(from) => HumpsOfHumped(from, ws, first);
    }
  }

  // ---------------------------------------------------------------- conversions

  lemma {:induction false} RenderingStart(src: WordStyle, ws: seq<string>)
    requires Words(ws)
    ensures TrimStart(Render(src, ws)) == Render(src, ws)
  {
    if ws != [] {
      assert Word(ws[0]);
      assert !IsSeparator(Render(src, ws)[0]);
    }
  }

  /** For every list of lowercase words and every pair of styles that mark word boundaries,
      converting one rendering gives the other exactly under the condition above. */
  lemma {:induction false} RenderingsConvertIff(src: WordStyle, dst: WordStyle, ws: seq<string>)
    requires Words(ws) && IsWordStyle(src) && IsWordStyle(dst)
    ensures Apply(StyleOf(dst), Render(src, ws)) == Render(dst, ws) <==> Convertible(src, dst, ws)
  {
    RenderingStart(src, ws);
    match dst
    case Joined(d) =>
      DelimitedOfStart(Render(src, ws), d);
      DelimOfRendering(src, ws, d);
      if StyleOf(dst) == ScreamingKebab {
        ScreamingKebabIsDelimited(Render(src, ws));
      }
    case Humped(first) =>
      CamelLikeOfStart(Render(src, ws), first);
      HumpsOfRendering(src, ws, first);
  }

  predicate AllLong(ws: seq<string>) {
    ws == [] || (Long(ws[0]) && AllLong(ws[1..]))
  }

  lemma {:induction false} LongIsApart(ws: seq<string>)
    requires AllLong(ws)
    ensures Apart(ws, true)
  {
    if ws != [] { LongIsApart(ws[1..]); }
  }

  /** In particular words of two letters or more convert between all styles. */
  lemma {:induction false} RenderingsConvert(src: WordStyle, dst: WordStyle, ws: seq<string>)
    requires Words(ws) && AllLong(ws) && IsWordStyle(src) && IsWordStyle(dst)
    ensures Apply(StyleOf(dst), Render(src, ws)) == Render(dst, ws)
  {
    RenderingsConvertIff(src, dst, ws);
    if ws != [] { LongIsApart(ws[1..]); }
  }

  /** The PascalCase rendering of `a`, `b` does not convert to snake_case, that of `ab`, `c`
      does. */
  lemma {:induction false} OneLetterWords()
    ensures Apply(Snake, Render(Humped(ToUpper), ["a", "b"])) != Render(Joined(Delimiting('_', ToLower)), ["a", "b"])
    ensures Apply(Snake, Render(Humped(ToUpper), ["ab", "c"])) == Render(Joined(Delimiting('_', ToLower)), ["ab", "c"])
  {
    assert Lowercase("a") && Lowercase("b") && Lowercase("c") && Lowercase("ab");
    assert Words(["a", "b"]) && !Apart(["a", "b"][1..], false);
    assert Words(["ab", "c"]) && Apart(["ab", "c"][1..], true);
    RenderingsConvertIff(Humped(ToUpper), Joined(Delimiting('_', ToLower)), ["a", "b"]);
    RenderingsConvertIff(Humped(ToUpper), Joined(Delimiting('_', ToLower)), ["ab", "c"]);
  }
}
