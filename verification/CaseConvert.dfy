/**
  Case conversion of metric names.  The two word-splitting automata are given as recursive
  functions of the unread rest of the name, and the loops are proved to compute them.
  Characters are ASCII.
 */
module CaseConvert {
  import opened CommonTypes

  datatype CaseStyle =
    | Preserve | Lower | Upper | Pascal | Camel | Snake | ScreamingSnake | Kebab | ScreamingKebab

  datatype Case = ToLower | ToUpper

  predicate IsLower(c: char) { 'a' <= c <= 'z' }

  predicate IsUpper(c: char) { 'A' <= c <= 'Z' }

  predicate IsDigit(c: char) { '0' <= c <= '9' }

  predicate IsSeparator(c: char) { !IsLower(c) && !IsUpper(c) && !IsDigit(c) }

  function Fold(c: char, k: Case): char {
    if k == ToLower && IsUpper(c) then c - 'A' + 'a'
    else if k == ToUpper && IsLower(c) then c - 'a' + 'A'
    else c
  }

  function FoldAll(s: string, k: Case): (r: string)
    ensures |r| == |s|
  {
    if s == "" then "" else [Fold(s[0], k)] + FoldAll(s[1..], k)
  }

  function TrimStart(s: string): string {
    if s != "" && IsSeparator(s[0]) then TrimStart(s[1..]) else s
  }

  function TrimEnd(s: string): string {
    if s != "" && IsSeparator(s[|s| - 1]) then TrimEnd(s[..|s| - 1]) else s
  }

  function Trim(s: string): string {
    TrimEnd(TrimStart(s))
  }

  // ---------------------------------------------------------------- delimited styles

  /** A delimited style: the delimiter between words and the case of their letters. */
  datatype Delimiting = Delimiting(delim: char, fold: Case)

  predicate StartsLower(s: string) {
    s != "" && IsLower(s[0])
  }

  /** What `delimited` appends to its output for the rest `s`, when the character before `s`
      is lowercase or not, the output is non-empty or not, and a delimiter is due or not. */
  function Delim(s: string, prevLower: bool, started: bool, pending: bool, d: Delimiting): string {
    if s == "" then ""
    else if IsSeparator(s[0]) then Delim(s[1..], false, started, true, d)
    else
      var startsWord := started && !IsLower(s[0]) && (prevLower || StartsLower(s[1..]));
      (if pending || startsWord then [d.delim] else [])
      + [Fold(s[0], d.fold)] + Delim(s[1..], IsLower(s[0]), true, false, d)
  }

  function Delimited(name: string, d: Delimiting): string {
    Delim(Trim(name), false, false, false, d)
  }

  /** One character of `delimited`: what it appends, given its two neighbours. */
  function DelimPiece(c: char, startsWord: bool, pending: bool, d: Delimiting): string {
    (if pending || startsWord then [d.delim] else []) + [Fold(c, d.fold)]
  }

  lemma {:induction false} DelimAt(s: string, i: nat, out: string, prevLower: bool, pending: bool, d: Delimiting)
    requires i < |s|
    ensures var nextLower := i + 1 < |s| && IsLower(s[i + 1]);
            var piece := DelimPiece(s[i], out != "" && !IsLower(s[i]) && (prevLower || nextLower), pending, d);
            out + Delim(s[i..], prevLower, out != "", pending, d)
            == if IsSeparator(s[i]) then out + Delim(s[i + 1..], false, out != "", true, d)
               else (out + piece) + Delim(s[i + 1..], IsLower(s[i]), true, false, d)
  {
    assert s[i..][1..] == s[i + 1..];
    assert StartsLower(s[i + 1..]) <==> i + 1 < |s| && IsLower(s[i + 1]);
  }

  /** fn delimited. */
  method RunDelimited(name: string, delim: char, fold: Case) returns (out: string)
    ensures out == Delimited(name, Delimiting(delim, fold))
  {
    var trimmed := Trim(name);
    out := DelimitTrimmed(trimmed, delim, fold);
  }

  /** The loop of `delimited`. */
  method DelimitTrimmed(trimmed: string, delim: char, fold: Case) returns (out: string)
    ensures out == Delim(trimmed, false, false, false, Delimiting(delim, fold))
  {
    ghost var d := Delimiting(delim, fold);
    ghost var total := Delim(trimmed, false, false, false, d);
    out := "";
    var pending, prev := false, None;
    var i := 0;
    while i < |trimmed|
      invariant 0 <= i <= |trimmed|
      invariant out + Delim(trimmed[i..], prev.Some? && IsLower(prev.value), out != "", pending, d) == total
    {
      var c := trimmed[i];
      DelimAt(trimmed, i, out, prev.Some? && IsLower(prev.value), pending, d);
      if IsSeparator(c) {
        pending := true;
      } else {
        ghost var before := out;
        var neighborIsLower :=
          (prev.Some? && IsLower(prev.value)) || (i + 1 < |trimmed| && IsLower(trimmed[i + 1]));
        var startsWord := out != "" && !IsLower(c) && neighborIsLower;
        ghost var piece := DelimPiece(c, startsWord, pending, d);
        if pending || startsWord {
          out := out + [delim];
        }
        pending := false;
        out := out + [Fold(c, fold)];
        assert out == before + piece;
      }
      prev := Some(c);
      i := i + 1;
    }
    assert trimmed[i..] == "";
  }

  // ---------------------------------------------------------------- delimiter-free styles

  /** What `camel_like` appends to its output for the rest `s`, when the output is non-empty
      or not, a new word is due or not, and the last folded character was lowercase or not. */
  function Humps(s: string, first: Case, started: bool, newWord: bool, seen: bool): string {
    if s == "" then ""
    else if IsSeparator(s[0]) then Humps(s[1..], first, started, true, seen)
    else if IsDigit(s[0]) then [s[0]] + Humps(s[1..], first, true, true, seen)
    else if newWord || (seen && IsUpper(s[0])) then
      [Fold(s[0], if started then ToUpper else first)] + Humps(s[1..], first, true, false, seen)
    else
      [Fold(s[0], ToLower)] + Humps(s[1..], first, true, false, IsLower(s[0]))
  }

  function CamelLike(name: string, first: Case): string {
    Humps(Trim(name), first, false, first == ToUpper, false)
  }

  lemma {:induction false} HumpsAt(s: string, i: nat, out: string, first: Case, newWord: bool, seen: bool)
    requires i < |s|
    ensures var c, rest := s[i], s[i + 1..];
            out + Humps(s[i..], first, out != "", newWord, seen)
            == if IsSeparator(c) then out + Humps(rest, first, out != "", true, seen)
               else if IsDigit(c) then (out + [c]) + Humps(rest, first, true, true, seen)
               else if newWord || (seen && IsUpper(c)) then
                 (out + [Fold(c, if out == "" then first else ToUpper)]) + Humps(rest, first, true, false, seen)
               else (out + [Fold(c, ToLower)]) + Humps(rest, first, true, false, IsLower(c))
  {
    assert s[i..][1..] == s[i + 1..];
  }

  /** fn camel_like. */
  method RunCamelLike(name: string, first: Case) returns (out: string)
    ensures out == CamelLike(name, first)
  {
    var trimmed := Trim(name);
    out := CamelTrimmed(trimmed, first);
  }

  /** The loop of `camel_like`. */
  method CamelTrimmed(trimmed: string, first: Case) returns (out: string)
    ensures out == Humps(trimmed, first, false, first == ToUpper, false)
  {
    ghost var total := Humps(trimmed, first, false, first == ToUpper, false);
    out := "";
    var newWord, lastLowered := first == ToUpper, ' ';
    var i := 0;
    while i < |trimmed|
      invariant 0 <= i <= |trimmed|
      invariant out + Humps(trimmed[i..], first, out != "", newWord, IsLower(lastLowered)) == total
    {
      var c := trimmed[i];
      HumpsAt(trimmed, i, out, first, newWord, IsLower(lastLowered));
      if IsSeparator(c) {
        newWord := true;
      } else if IsDigit(c) {
        out := out + [c];
        newWord := true;
      } else if newWord || (IsLower(lastLowered) && IsUpper(c)) {
        out := out + [Fold(c, if out == "" then first else ToUpper)];
        newWord := false;
      } else {
        lastLowered := c;
        out := out + [Fold(c, ToLower)];
      }
      i := i + 1;
    }
    assert trimmed[i..] == "";
  }

  // ---------------------------------------------------------------- styles

  function Apply(style: CaseStyle, name: string): string {
    match style
    case Preserve => name
    case Lower => FoldAll(name, ToLower)
    case Upper => FoldAll(name, ToUpper)
    case Pascal => CamelLike(name, ToUpper)
    case Camel => CamelLike(name, ToLower)
    case Snake => Delimited(name, Delimiting('_', ToLower))
    case ScreamingSnake => Delimited(name, Delimiting('_', ToUpper))
    case Kebab => Delimited(name, Delimiting('-', ToLower))
    case ScreamingKebab => FoldAll(Delimited(name, Delimiting('-', ToLower)), ToUpper)
  }

  function DelimiterOf(style: CaseStyle): Option<char> {
    match style
    case Snake => Some('_')
    case ScreamingSnake => Some('_')
    case Kebab => Some('-')
    case ScreamingKebab => Some('-')
    case _ => None
  }

  function WithDelimiter(s: string, delim: char): string {
    if s != "" && s[|s| - 1] == delim then s else s + [delim]
  }

  function ApplyPrefix(style: CaseStyle, name: string): string {
    match DelimiterOf(style)
    case Some(delim) => WithDelimiter(Apply(style, name), delim)
    case None => Apply(style, name)
  }

  /** CaseStyle::apply. */
  method RunApply(style: CaseStyle, name: string) returns (r: string)
    ensures r == Apply(style, name)
  {
    match style
    case Preserve => r := name;
    case Lower => r := FoldAll(name, ToLower);
    case Upper => r := FoldAll(name, ToUpper);
    case Pascal => r := RunCamelLike(name, ToUpper);
    case Camel => r := RunCamelLike(name, ToLower);
    case Snake => r := RunDelimited(name, '_', ToLower);
    case ScreamingSnake => r := RunDelimited(name, '_', ToUpper);
    case Kebab => r := RunDelimited(name, '-', ToLower);
    case ScreamingKebab =>
      r := RunDelimited(name, '-', ToLower);
      r := FoldAll(r, ToUpper);
  }

  /** CaseStyle::apply_prefix. */
  method RunApplyPrefix(style: CaseStyle, name: string) returns (res: string)
    ensures res == ApplyPrefix(style, name)
  {
    res := RunApply(style, name);
    if style == Snake || style == ScreamingSnake {
      if res == "" || res[|res| - 1] != '_' {
        res := res + ['_'];
      }
    } else if style == Kebab || style == ScreamingKebab {
      if res == "" || res[|res| - 1] != '-' {
        res := res + ['-'];
      }
    }
  }

  /** The first character other than an alphanumeric, `_` or `-`, if any. */
  function ContainsUninflectables(name: string): Option<char> {
    if name == "" then None
    else if IsSeparator(name[0]) && name[0] != '_' && name[0] != '-' then Some(name[0])
    else ContainsUninflectables(name[1..])
  }

  predicate EndsWithDelimiter(name: string) {
    name != "" && (name[|name| - 1] == '_' || name[|name| - 1] == '-')
  }
}
