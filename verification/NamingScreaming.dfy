/** `rename_all = "SCREAMING_SNAKE_CASE"` on a struct: the fields come out in snake_case. */
module NamingScreaming {
  import opened CommonTypes
  import opened CaseConvert
  import opened CasePrefix
  import CaseStability
  import opened Naming

  lemma {:induction false} SameFieldNames(e: Entry, f: Entry, n: nat, parent: Kind, prefixes: seq<string>)
    requires e.renameAll == ScreamingSnakeCase && f == Entry(SnakeCase, e.rootPrefix, e.fields) && n <= |e.fields|
    ensures NamedFields(e, n, parent, prefixes) == NamedFields(f, n, parent, prefixes)
  {
    if n > 0 {
      SameFieldNames(e, f, n - 1, parent, prefixes);
      assert NamedField(e, n - 1, parent, prefixes) == NamedField(f, n - 1, parent, prefixes);
    }
  }

  /** Replacing SCREAMING_SNAKE_CASE by snake_case changes no name. */
  lemma {:induction false} ScreamingIsSnake(e: Entry, parent: Kind, prefixes: seq<string>)
    requires e.renameAll == ScreamingSnakeCase
    ensures Named(e, parent, prefixes) == Named(Entry(SnakeCase, e.rootPrefix, e.fields), parent, prefixes)
  {
    SameFieldNames(e, Entry(SnakeCase, e.rootPrefix, e.fields), |e.fields|, parent, prefixes);
  }

  predicate NoLetter(s: string) {
    s == "" || (!IsLower(s[0]) && !IsUpper(s[0]) && NoLetter(s[1..]))
  }

  lemma {:induction false} CaseShows(s: string, prevLower: bool, started: bool, pending: bool, delim: char)
    ensures Delim(s, prevLower, started, pending, Delimiting(delim, ToLower))
            == Delim(s, prevLower, started, pending, Delimiting(delim, ToUpper))
       <==> NoLetter(s)
  {
    if s != "" {
      var lower, upper := Delimiting(delim, ToLower), Delimiting(delim, ToUpper);
      var rest := s[1..];
      if IsSeparator(s[0]) {
        CaseShows(rest, false, started, true, delim);
      } else {
        var p := IsLower(s[0]);
        var startsWord := started && !p && (prevLower || StartsLower(rest));
        var mark := if pending || startsWord then [delim] else [];
        CaseShows(rest, p, true, false, delim);
        var a, b := Delim(rest, p, true, false, lower), Delim(rest, p, true, false, upper);
        if IsDigit(s[0]) {
          SameHead(mark + [s[0]], a, b);
        } else {
          assert (mark + [Fold(s[0], ToLower)] + a)[|mark|] != (mark + [Fold(s[0], ToUpper)] + b)[|mark|];
        }
      }
    }
  }

  lemma {:induction false} NoLetterTrim(s: string)
    ensures NoLetter(TrimStart(s)) <==> NoLetter(s)
  {
    if s != "" && IsSeparator(s[0]) {
      NoLetterTrim(s[1..]);
    }
  }

  lemma {:induction false} SnakeIsScreamingIff(s: string)
    ensures Apply(Snake, s) == Apply(ScreamingSnake, s) <==> NoLetter(s)
  {
    CaseStability.DelimitedOfStart(s, Delimiting('_', ToLower));
    CaseStability.DelimitedOfStart(s, Delimiting('_', ToUpper));
    CaseShows(TrimStart(s), false, false, false, '_');
    NoLetterTrim(s);
  }

  /** The part of a field's name that is inflected. */
  function Inflected(e: Entry, f: Field): string
    requires f.Plain?
  {
    match e.rootPrefix
    case Some(Inflectable(p)) => p + f.name
    case _ => f.name
  }

  /** The name a field gets is the one its documented style asks for exactly if the name is
      given explicitly or nothing inflected has a letter in it. */
  lemma {:induction false} ScreamingNameIff(e: Entry, f: Field)
    requires f.Plain?
    ensures MetricName(e, StyleOf(KindOf(ScreamingSnakeCase, IdentityKind)), f) == MetricName(e, ScreamingSnakeCase, f)
       <==> f.nameOverride.Some? || NoLetter(Inflected(e, f))
  {
    SnakeIsScreamingIff(Inflected(e, f));
    match e.rootPrefix
    case Some(Exact(exact)) => SameHead(exact, Apply(Snake, f.name), Apply(ScreamingSnake, f.name));
    case _ =>
  }

  /** A field `size` is one whose name does not. */
  lemma {:induction false} ScreamingExample()
    ensures var f := Plain("size", None, Ungated, false);
            var e := Entry(ScreamingSnakeCase, None, [f]);
            MetricName(e, StyleOf(KindOf(e.renameAll, IdentityKind)), f) != MetricName(e, ScreamingSnakeCase, f)
  {
    var f := Plain("size", None, Ungated, false);
    assert !NoLetter("size") by { assert IsLower("size"[0]); }
    ScreamingNameIff(Entry(ScreamingSnakeCase, None, [f]), f);
  }

  // ---------------------------------------------------------------- whole entries

  /** The style in force in an entry: its own, or the one around it. */
  function Resolved(own: NameStyle, parent: NameStyle): NameStyle {
    if own == AsDeclared then parent else own
  }

  /** The type-level style that stands for a style. */
  function KindFor(s: NameStyle): Kind { KindOf(s, IdentityKind) }

  lemma {:induction false} KindOfResolved(own: NameStyle, parent: NameStyle)
    ensures KindOf(own, KindFor(parent)) == KindFor(Resolved(own, parent))
  {
  }

  /** The names of an entry if every style, SCREAMING_SNAKE_CASE included, were the style it
      says, for fields and for the prefixes of flatten sites. */
  function Intended(e: Entry, parent: NameStyle, prefixes: seq<string>): seq<NameParts>
    decreases e, |e.fields| + 1
  {
    IntendedFields(e, |e.fields|, parent, prefixes)
  }

  function IntendedFields(e: Entry, n: nat, parent: NameStyle, prefixes: seq<string>): seq<NameParts>
    requires n <= |e.fields|
    decreases e, n
  {
    if n == 0 then [] else IntendedFields(e, n - 1, parent, prefixes) + IntendedField(e, n - 1, parent, prefixes)
  }

  function IntendedField(e: Entry, i: nat, parent: NameStyle, prefixes: seq<string>): seq<NameParts>
    requires i < |e.fields|
    decreases e, i
  {
    var s := Resolved(e.renameAll, parent);
    match e.fields[i]
    case Plain(_, _, gate, _) =>
      if Present(gate) then [NameParts(prefixes, MetricName(e, s, e.fields[i]))] else []
    case Flatten(prefix, child, gate) =>
      if Present(gate) then Intended(child, s, UnderStyle(prefixes, prefix, s)) else []
    case Ignored => []
    case Timestamp => []
  }

  function UnderStyle(prefixes: seq<string>, p: Option<Prefix>, s: NameStyle): seq<string> {
    match p
    case Some(prefix) => prefixes + [ApplyPrefixOnly(prefix, s)]
    case None => prefixes
  }

  /** Nothing that has a letter is inflected in SCREAMING_SNAKE_CASE: neither the name of a
      field nor the prefix of a flatten site that has names below it. */
  predicate Honoured(e: Entry, parent: NameStyle)
    decreases e, |e.fields| + 1
  {
    HonouredFields(e, |e.fields|, parent)
  }

  predicate HonouredFields(e: Entry, n: nat, parent: NameStyle)
    requires n <= |e.fields|
    decreases e, n
  {
    n == 0 || (HonouredFields(e, n - 1, parent) && HonouredField(e, n - 1, parent))
  }

  predicate HonouredField(e: Entry, i: nat, parent: NameStyle)
    requires i < |e.fields|
    decreases e, i
  {
    var s := Resolved(e.renameAll, parent);
    match e.fields[i]
    case Plain(_, nameOverride, gate, _) =>
      Present(gate) && s == ScreamingSnakeCase ==> nameOverride.Some? || NoLetter(Inflected(e, e.fields[i]))
    case Flatten(prefix, child, gate) =>
      Present(gate) && HasName(child) ==> HonouredPrefix(prefix, s) && Honoured(child, s)
    case _ => true
  }

  predicate HonouredPrefix(p: Option<Prefix>, s: NameStyle) {
    s == ScreamingSnakeCase && p.Some? && p.value.Inflectable? ==> NoLetter(p.value.prefix)
  }

  lemma {:induction false} NameHonoured(e: Entry, f: Field, s: NameStyle)
    requires f.Plain?
    ensures MetricName(e, StyleOf(KindFor(s)), f) == MetricName(e, s, f)
       <==> (s == ScreamingSnakeCase ==> f.nameOverride.Some? || NoLetter(Inflected(e, f)))
  {
    if s == ScreamingSnakeCase { ScreamingNameIff(e, f); }
  }

  lemma {:induction false} AffixHonoured(p: string)
    ensures ApplyPrefix(Snake, p) == ApplyPrefix(ScreamingSnake, p) <==> NoLetter(p)
  {
    var x, y := Apply(Snake, p), Apply(ScreamingSnake, p);
    PrefixOfDelimited(p, Delimiting('_', ToLower));
    PrefixOfDelimited(p, Delimiting('_', ToUpper));
    SnakeIsScreamingIff(p);
    assert x == (x + ['_'])[..|x|] && y == (y + ['_'])[..|y|];
  }

  lemma {:induction false} PrefixHonoured(a: seq<string>, b: seq<string>, p: Option<Prefix>, s: NameStyle)
    requires |a| == |b|
    ensures |Under(a, p, KindFor(s))| == |UnderStyle(b, p, s)|
    ensures Under(a, p, KindFor(s)) == UnderStyle(b, p, s) <==> a == b && HonouredPrefix(p, s)
  {
    if p.Some? {
      var x, y := ApplyPrefixOnly(p.value, StyleOf(KindFor(s))), ApplyPrefixOnly(p.value, s);
      if s == ScreamingSnakeCase && p.value.Inflectable? { AffixHonoured(p.value.prefix); }
      assert x == y <==> HonouredPrefix(p, s);
      assert a == (a + [x])[..|a|] && b == (b + [y])[..|b|];
      assert (a + [x])[|a|] == x && (b + [y])[|b|] == y;
    }
  }

  /** Two lists of names of the same length are the same exactly if there are none or the
      condition holds. */
  ghost predicate SameIff(a: seq<NameParts>, b: seq<NameParts>, condition: bool) {
    |a| == |b| && (a == b <==> b == [] || condition)
  }

  lemma {:induction false} SameConcat(a: seq<NameParts>, a': seq<NameParts>, b: seq<NameParts>, b': seq<NameParts>, same: bool, x: bool, y: bool)
    requires SameIff(a, a', same && x) && SameIff(b, b', same && y)
    requires (a' == [] ==> x) && (b' == [] ==> y)
    ensures SameIff(a + b, a' + b', same && x && y)
  {
    if a + b == a' + b' {
      assert a == (a + b)[..|a|] && a' == (a' + b')[..|a|];
      assert b == (a + b)[|a|..] && b' == (a' + b')[|a|..];
    }
    assert a' + b' == [] <==> a' == [] && b' == [];
  }

  lemma {:induction false} FieldsHonoured(e: Entry, n: nat, parent: NameStyle, a: seq<string>, b: seq<string>)
    requires n <= |e.fields| && |a| == |b|
    ensures SameIff(NamedFields(e, n, KindFor(parent), a), IntendedFields(e, n, parent, b), a == b && HonouredFields(e, n, parent))
    ensures IntendedFields(e, n, parent, b) != [] <==> HasNameUpTo(e, n)
    ensures IntendedFields(e, n, parent, b) == [] ==> HonouredFields(e, n, parent)
    decreases e, n
  {
    if n > 0 {
      FieldsHonoured(e, n - 1, parent, a, b);
      FieldHonoured(e, n - 1, parent, a, b);
      SameConcat(NamedFields(e, n - 1, KindFor(parent), a), IntendedFields(e, n - 1, parent, b),
                 NamedField(e, n - 1, KindFor(parent), a), IntendedField(e, n - 1, parent, b),
                 a == b, HonouredFields(e, n - 1, parent), HonouredField(e, n - 1, parent));
    }
  }

  lemma {:induction false} FieldHonoured(e: Entry, i: nat, parent: NameStyle, a: seq<string>, b: seq<string>)
    requires i < |e.fields| && |a| == |b|
    ensures SameIff(NamedField(e, i, KindFor(parent), a), IntendedField(e, i, parent, b), a == b && HonouredField(e, i, parent))
    ensures IntendedField(e, i, parent, b) != [] <==> FieldHasName(e, i)
    ensures IntendedField(e, i, parent, b) == [] ==> HonouredField(e, i, parent)
    decreases e, i
  {
    var s := Resolved(e.renameAll, parent);
    KindOfResolved(e.renameAll, parent);
    match e.fields[i]
    case Plain(_, _, _, _) => NameHonoured(e, e.fields[i], s);
    case Flatten(prefix, child, _) =>
      PrefixHonoured(a, b, prefix, s);
      FieldsHonoured(child, |child.fields|, s, Under(a, prefix, KindFor(s)), UnderStyle(b, prefix, s));
    case _ =>
  }

  /** All names of an entry, prefixes included, are those its documented styles ask for exactly
      if nothing with a letter in it is inflected in SCREAMING_SNAKE_CASE. */
  lemma {:induction false} NamesAsDocumentedIff(e: Entry)
    ensures Named(e, IdentityKind, []) == Intended(e, AsDeclared, []) <==> Honoured(e, AsDeclared)
  {
    FieldsHonoured(e, |e.fields|, AsDeclared, [], []);
  }
}
