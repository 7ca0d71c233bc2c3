/** The names of a struct behind any number of flatten sites, spelled out from its attributes:
    explicit names, prefixes on the struct and at the sites, `rename_all`, `cfg`. */
module NamingSpelledOut {
  import opened CommonTypes
  import opened CaseConvert
  import opened Concat
  import opened Naming
  import opened NamingAgreement

  /** A struct around the next one: its `rename_all`, its own prefix, and the prefix of the
      flatten site. */
  datatype Layer = Layer(renameAll: NameStyle, rootPrefix: Option<Prefix>, prefix: Option<Prefix>)

  /** The innermost struct behind the layers, outermost first. */
  function Behind(layers: seq<Layer>, inner: Entry): Entry {
    if layers == [] then inner
    else Entry(layers[0].renameAll, layers[0].rootPrefix, [Flatten(layers[0].prefix, Behind(layers[1..], inner), Ungated)])
  }

  /** The style in force in a struct, given the one around it. */
  function InForce(around: CaseStyle, s: NameStyle): CaseStyle {
    match s
    case PascalCase => Pascal
    case SnakeCase => Snake
    case ScreamingSnakeCase => Snake
    case KebabCase => Kebab
    case AsDeclared => around
  }

  function StyleBehind(layers: seq<Layer>, around: CaseStyle): CaseStyle {
    if layers == [] then around else StyleBehind(layers[1..], InForce(around, layers[0].renameAll))
  }

  /** What the flatten sites put in front, outermost first, each in the style of its struct. */
  function PrefixesBehind(layers: seq<Layer>, around: CaseStyle): seq<string> {
    if layers == [] then []
    else
      var s := InForce(around, layers[0].renameAll);
      PrefixAt(layers[0].prefix, s) + PrefixesBehind(layers[1..], s)
  }

  function PrefixAt(prefix: Option<Prefix>, s: CaseStyle): seq<string> {
    match prefix
    case None => []
    case Some(Exact(exact)) => [exact]
    case Some(Inflectable(p)) => [ApplyPrefix(s, p)]
  }

  /** A plain field's own name: the explicit one as it stands, else the inflected one with the
      struct's prefix, which is inflected along unless it is exact. */
  function OwnName(rootPrefix: Option<Prefix>, s: CaseStyle, name: string, nameOverride: Option<string>): string {
    match nameOverride
    case Some(explicit) => explicit
    case None =>
      match rootPrefix
      case None => Apply(s, name)
      case Some(Exact(exact)) => exact + Apply(s, name)
      case Some(Inflectable(p)) => Apply(s, p + name)
  }

  /** The names of the fields that have one, in order. */
  function OwnNames(fields: seq<Field>, rootPrefix: Option<Prefix>, s: CaseStyle): seq<string> {
    if fields == [] then [] else NameOf(fields[0], rootPrefix, s) + OwnNames(fields[1..], rootPrefix, s)
  }

  function NameOf(f: Field, rootPrefix: Option<Prefix>, s: CaseStyle): seq<string> {
    match f
    case Plain(name, nameOverride, Ungated, _) => [OwnName(rootPrefix, s, name, nameOverride)]
    case Plain(name, nameOverride, Gated(true), _) => [OwnName(rootPrefix, s, name, nameOverride)]
    case _ => []
  }

  function InFront(prefixes: seq<string>, base: string): string {
    if prefixes == [] then base else prefixes[0] + InFront(prefixes[1..], base)
  }

  /** The bytes are the characters. */
  ghost predicate Spells(bytes: seq<byte>, text: string) {
    |bytes| == |text| && forall i :: 0 <= i < |text| && text[i] as int < 128 ==> bytes[i] as int == text[i] as int
  }

  // ---------------------------------------------------------------- proof

  function StyleIn(k: Kind): CaseStyle { ToCaseStyle(StyleOf(k)) }

  lemma {:induction false} InForceIn(k: Kind, s: NameStyle)
    ensures StyleIn(KindOf(s, k)) == InForce(StyleIn(k), s)
  {
  }

  function KindBehind(layers: seq<Layer>, k: Kind): Kind {
    if layers == [] then k else KindBehind(layers[1..], KindOf(layers[0].renameAll, k))
  }

  lemma {:induction false} KindBehindIn(layers: seq<Layer>, k: Kind)
    ensures StyleIn(KindBehind(layers, k)) == StyleBehind(layers, StyleIn(k))
  {
    if layers != [] {
      InForceIn(k, layers[0].renameAll);
      KindBehindIn(layers[1..], KindOf(layers[0].renameAll, k));
    }
  }

  lemma {:induction false} OneSite(renameAll: NameStyle, rootPrefix: Option<Prefix>, prefix: Option<Prefix>, child: Entry, k: Kind, prefixes: seq<string>)
    ensures var own := KindOf(renameAll, k);
            Named(Entry(renameAll, rootPrefix, [Flatten(prefix, child, Ungated)]), k, prefixes)
            == Named(child, own, Under(prefixes, prefix, own))
  {
    var e := Entry(renameAll, rootPrefix, [Flatten(prefix, child, Ungated)]);
    assert NamedFields(e, 0, k, prefixes) == [];
    assert NamedFields(e, 1, k, prefixes) == [] + NamedField(e, 0, k, prefixes);
  }

  lemma {:induction false} UnderIs(prefixes: seq<string>, p: Option<Prefix>, k: Kind)
    ensures Under(prefixes, p, k) == prefixes + PrefixAt(p, StyleIn(k))
  {
  }

  lemma {:induction false} NamedBehind(layers: seq<Layer>, inner: Entry, k: Kind, prefixes: seq<string>)
    ensures Named(Behind(layers, inner), k, prefixes)
         == Named(inner, KindBehind(layers, k), prefixes + PrefixesBehind(layers, StyleIn(k)))
  {
    if layers == [] {
      assert prefixes + [] == prefixes;
    } else {
      var l, rest := layers[0], layers[1..];
      var own := KindOf(l.renameAll, k);
      InForceIn(k, l.renameAll);
      OneSite(l.renameAll, l.rootPrefix, l.prefix, Behind(rest, inner), k, prefixes);
      UnderIs(prefixes, l.prefix, own);
      NamedBehind(rest, inner, own, Under(prefixes, l.prefix, own));
      var here, more := PrefixAt(l.prefix, StyleIn(own)), PrefixesBehind(rest, StyleIn(own));
      assert prefixes + here + more == prefixes + (here + more);
    }
  }

  lemma {:induction false} OwnNamesFront(f: Field, fields: seq<Field>, rootPrefix: Option<Prefix>, s: CaseStyle)
    ensures OwnNames([f] + fields, rootPrefix, s) == NameOf(f, rootPrefix, s) + OwnNames(fields, rootPrefix, s)
  {
    assert ([f] + fields)[1..] == fields;
  }

  lemma {:induction false} OwnNamesSnoc(fields: seq<Field>, f: Field, rootPrefix: Option<Prefix>, s: CaseStyle)
    ensures OwnNames(fields + [f], rootPrefix, s) == OwnNames(fields, rootPrefix, s) + NameOf(f, rootPrefix, s)
  {
    var last := NameOf(f, rootPrefix, s);
    if fields == [] {
      assert fields + [f] == [f] + [];
      OwnNamesFront(f, [], rootPrefix, s);
      assert last + [] == last == [] + last;
    } else {
      FirstOf(fields, [f]);
      OwnNamesFront(fields[0], fields[1..] + [f], rootPrefix, s);
      OwnNamesSnoc(fields[1..], f, rootPrefix, s);
      Associate(NameOf(fields[0], rootPrefix, s), OwnNames(fields[1..], rootPrefix, s), last);
    }
  }

  function WithPrefixes(prefixes: seq<string>, names: seq<string>): seq<NameParts> {
    seq(|names|, i requires 0 <= i < |names| => NameParts(prefixes, names[i]))
  }

  lemma {:induction false} NamedAreOwn(e: Entry, n: nat, k: Kind, prefixes: seq<string>)
    requires n <= |e.fields| && forall i :: 0 <= i < |e.fields| ==> !e.fields[i].Flatten?
    ensures NamedFields(e, n, k, prefixes)
         == WithPrefixes(prefixes, OwnNames(e.fields[..n], e.rootPrefix, InForce(StyleIn(k), e.renameAll)))
  {
    var s := InForce(StyleIn(k), e.renameAll);
    if n > 0 {
      NamedAreOwn(e, n - 1, k, prefixes);
      OwnNamesSnoc(e.fields[..n - 1], e.fields[n - 1], e.rootPrefix, s);
      assert e.fields[..n] == e.fields[..n - 1] + [e.fields[n - 1]];
      InForceIn(k, e.renameAll);
      NamedIsOwn(e, n - 1, k, prefixes);
    }
  }

  lemma {:induction false} NamedIsOwn(e: Entry, i: nat, k: Kind, prefixes: seq<string>)
    requires i < |e.fields| && !e.fields[i].Flatten?
    ensures NamedField(e, i, k, prefixes)
         == WithPrefixes(prefixes, NameOf(e.fields[i], e.rootPrefix, InForce(StyleIn(k), e.renameAll)))
  {
    InForceIn(k, e.renameAll);
  }

  lemma {:induction false} JoinIsInFront(prefixes: seq<string>, base: string)
    ensures Join(prefixes) + base == InFront(prefixes, base)
  {
    if prefixes != [] {
      JoinIsInFront(prefixes[1..], base);
      JoinFront(prefixes);
      assert prefixes[0] + Join(prefixes[1..]) + base == prefixes[0] + (Join(prefixes[1..]) + base);
    }
  }

  lemma {:induction false} JoinFront(prefixes: seq<string>)
    requires prefixes != []
    ensures Join(prefixes) == prefixes[0] + Join(prefixes[1..])
  {
    var last := |prefixes| - 1;
    if last > 0 {
      JoinFront(prefixes[..last]);
      assert prefixes[..last][1..] == prefixes[1..][..last - 1];
      assert prefixes[0] + Join(prefixes[1..][..last - 1]) + prefixes[last] == prefixes[0] + (Join(prefixes[1..][..last - 1]) + prefixes[last]);
    }
  }

  lemma {:induction false} BytesSpell(text: string)
    ensures Spells(ToBytes(text), text)
  {
  }

  lemma {:induction false} FullNameSpells(prefixes: seq<string>, base: string)
    ensures Spells(ToBytes(FullName(NameParts(prefixes, base))), InFront(prefixes, base))
  {
    JoinIsInFront(prefixes, base);
    BytesSpell(InFront(prefixes, base));
  }

  /** All names of a struct without flatten fields of its own, behind the layers. */
  lemma {:induction false} NamedSpelledOut(layers: seq<Layer>, inner: Entry)
    requires forall i :: 0 <= i < |inner.fields| ==> !inner.fields[i].Flatten?
    ensures Named(Behind(layers, inner), IdentityKind, [])
         == WithPrefixes(PrefixesBehind(layers, Preserve),
                         OwnNames(inner.fields, inner.rootPrefix, InForce(StyleBehind(layers, Preserve), inner.renameAll)))
  {
    var prefixes, k := PrefixesBehind(layers, Preserve), KindBehind(layers, IdentityKind);
    NamedBehind(layers, inner, IdentityKind, []);
    assert [] + prefixes == prefixes;
    KindBehindIn(layers, IdentityKind);
    NamedAreOwn(inner, |inner.fields|, k, prefixes);
    assert inner.fields[..|inner.fields|] == inner.fields;
  }

  // ---------------------------------------------------------------- result

  /** What `write` emits and what `descriptors` reports for a struct without flatten fields of
      its own, behind any flatten sites: the prefixes of the sites, each in the style of its
      struct, and then its fields' own names, in order. */
  method SpelledOut(layers: seq<Layer>, inner: Entry) returns (written: seq<Cow>, segments: seq<Segment>)
    requires forall i :: 0 <= i < |inner.fields| ==> !inner.fields[i].Flatten?
    ensures AllTables(segments)
    ensures var prefixes := PrefixesBehind(layers, Preserve);
            var names := OwnNames(inner.fields, inner.rootPrefix, InForce(StyleBehind(layers, Preserve), inner.renameAll));
            && |written| == |AllParts(segments)| == |names|
            && (forall i :: 0 <= i < |names| ==> AllParts(segments)[i] == NameParts(prefixes, names[i]))
            && (forall i :: 0 <= i < |names| ==> Spells(CowText(written[i]), InFront(prefixes, names[i])))
  {
    written, segments := WriteAgreesWithDescriptors(Behind(layers, inner));
    ghost var parts := AllParts(segments);
    NamedSpelledOut(layers, inner);
    forall i | 0 <= i < |parts| ensures Spells(CowText(written[i]), InFront(parts[i].prefixes, parts[i].base)) {
      FullNameSpells(parts[i].prefixes, parts[i].base);
    }
  }
}
