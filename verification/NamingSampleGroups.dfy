/** The names under which sample groups are reported. They are styled like the names that
    `write` emits, but no flatten site puts its prefix in front. */
module NamingSampleGroups {
  import opened CommonTypes
  import opened CaseConvert
  import opened CaseStability
  import opened CasePrefix
  import opened Concat
  import opened Naming
  import opened NamingAgreement
  import opened BinaryChain

  // ---------------------------------------------------------------- what `sample_group` yields

  /** The names `sample_group` yields below flatten sites, whose prefixes it leaves out. */
  function Grouped(e: Entry, ns: NS): seq<Cow>
    decreases e, |e.fields| + 1
  {
    GroupedFields(e, |e.fields|, ns)
  }

  function GroupedFields(e: Entry, n: nat, ns: NS): seq<Cow>
    requires n <= |e.fields|
    decreases e, n
  {
    if n == 0 then [] else GroupedFields(e, n - 1, ns) + GroupedField(e, n - 1, ns)
  }

  function GroupedField(e: Entry, i: nat, ns: NS): seq<Cow>
    requires i < |e.fields|
    decreases e, i
  {
    var own := MakeNs(e.renameAll, ns);
    match e.fields[i]
    case Plain(_, _, gate, sampleGroup) =>
      if sampleGroup && Present(gate) then [ConstStrValue(InflectedName(e, e.fields[i], own))] else []
    case Flatten(_, child, gate) => if Present(gate) then Grouped(child, own) else []
    case Ignored => []
    case Timestamp => []
  }

  lemma {:induction false} FlatSnoc<T>(iterators: seq<seq<T>>, more: seq<T>)
    ensures Flat(iterators + [more]) == Flat(iterators) + more
  {
    FlatSplit(iterators + [more], |iterators|);
    assert (iterators + [more])[..|iterators|] == iterators && (iterators + [more])[|iterators|..] == [more];
    assert [more][1..] == [] && more + [] == more;
  }

  /** fn generate_sample_group_statements: one iterator per field that has one, put together
      as a balanced chain. */
  method SampleGroup(e: Entry, ns: NS) returns (names: seq<Cow>)
    ensures names == Grouped(e, ns)
    decreases e
  {
    var iterators: seq<seq<Cow>> := [];
    var own := MakeNs(e.renameAll, ns);
    for i := 0 to |e.fields|
      invariant Flat(iterators) == GroupedFields(e, i, ns)
    {
      match e.fields[i] {
        case Plain(_, _, gate, sampleGroup) =>
          if sampleGroup {
            var one := if Present(gate) then [ConstStrValue(InflectedName(e, e.fields[i], own))] else [];
            FlatSnoc(iterators, one);
            iterators := iterators + [one];
          }
        case Flatten(_, child, gate) =>
          var inner: seq<Cow> := [];
          if Present(gate) { inner := SampleGroup(child, own); }
          FlatSnoc(iterators, inner);
          iterators := iterators + [inner];
        case Ignored =>
        case Timestamp =>
      }
    }
    ChainKeepsOrder(iterators);
    names := Items(MakeBinaryTreeChain(iterators));
  }

  // ---------------------------------------------------------------- the names themselves

  /** The names of the sample-group fields of an entry, with the prefixes of the flatten sites
      (`prefixed`) or without. */
  function Sampled(e: Entry, parent: Kind, prefixes: seq<string>, prefixed: bool): seq<NameParts>
    decreases e, |e.fields| + 1
  {
    SampledFields(e, |e.fields|, parent, prefixes, prefixed)
  }

  function SampledFields(e: Entry, n: nat, parent: Kind, prefixes: seq<string>, prefixed: bool): seq<NameParts>
    requires n <= |e.fields|
    decreases e, n
  {
    if n == 0 then []
    else SampledFields(e, n - 1, parent, prefixes, prefixed) + SampledField(e, n - 1, parent, prefixes, prefixed)
  }

  function SampledField(e: Entry, i: nat, parent: Kind, prefixes: seq<string>, prefixed: bool): seq<NameParts>
    requires i < |e.fields|
    decreases e, i
  {
    var k := KindOf(e.renameAll, parent);
    match e.fields[i]
    case Plain(_, _, gate, sampleGroup) =>
      if sampleGroup && Present(gate) then [NameParts(prefixes, MetricName(e, StyleOf(k), e.fields[i]))] else []
    case Flatten(prefix, child, gate) =>
      if Present(gate) then Sampled(child, k, if prefixed then Under(prefixes, prefix, k) else prefixes, prefixed) else []
    case Ignored => []
    case Timestamp => []
  }

  /** With the prefixes these are names that `write` emits. */
  lemma {:induction false} SampledAreNamed(e: Entry, parent: Kind, prefixes: seq<string>, p: NameParts)
    requires p in Sampled(e, parent, prefixes, true)
    ensures p in Named(e, parent, prefixes)
    decreases e, |e.fields| + 1
  {
    SampledFieldsAreNamed(e, |e.fields|, parent, prefixes, p);
  }

  lemma {:induction false} SampledFieldsAreNamed(e: Entry, n: nat, parent: Kind, prefixes: seq<string>, p: NameParts)
    requires n <= |e.fields| && p in SampledFields(e, n, parent, prefixes, true)
    ensures p in NamedFields(e, n, parent, prefixes)
    decreases e, n
  {
    if p in SampledField(e, n - 1, parent, prefixes, true) {
      SampledFieldIsNamed(e, n - 1, parent, prefixes, p);
    } else {
      SampledFieldsAreNamed(e, n - 1, parent, prefixes, p);
    }
  }

  lemma {:induction false} SampledFieldIsNamed(e: Entry, i: nat, parent: Kind, prefixes: seq<string>, p: NameParts)
    requires i < |e.fields| && p in SampledField(e, i, parent, prefixes, true)
    ensures p in NamedField(e, i, parent, prefixes)
    decreases e, i
  {
    var k := KindOf(e.renameAll, parent);
    match e.fields[i]
    case Plain(_, _, _, _) =>
    case Flatten(prefix, child, _) => SampledAreNamed(child, k, Under(prefixes, prefix, k), p);
  }

  /** What `sample_group` yields is the names without prefixes. */
  lemma {:induction false} GroupedAreSampled(e: Entry, ns: NS)
    requires Carries(ns, [])
    ensures Texts(Grouped(e, ns)) == FullNames(Sampled(e, ns.kind, [], false))
    decreases e, |e.fields| + 1
  {
    GroupedFieldsAreSampled(e, |e.fields|, ns);
  }

  lemma {:induction false} GroupedFieldsAreSampled(e: Entry, n: nat, ns: NS)
    requires n <= |e.fields| && Carries(ns, [])
    ensures Texts(GroupedFields(e, n, ns)) == FullNames(SampledFields(e, n, ns.kind, [], false))
    decreases e, n
  {
    if n > 0 {
      GroupedFieldsAreSampled(e, n - 1, ns);
      GroupedFieldIsSampled(e, n - 1, ns);
      TextsConcat(GroupedFields(e, n - 1, ns), GroupedField(e, n - 1, ns));
      FullNamesConcat(SampledFields(e, n - 1, ns.kind, [], false), SampledField(e, n - 1, ns.kind, [], false));
    }
  }

  lemma {:induction false} GroupedFieldIsSampled(e: Entry, i: nat, ns: NS)
    requires i < |e.fields| && Carries(ns, [])
    ensures Texts(GroupedField(e, i, ns)) == FullNames(SampledField(e, i, ns.kind, [], false))
    decreases e, i
  {
    var own := MakeNs(e.renameAll, ns);
    MakeNsCarries(e.renameAll, ns);
    match e.fields[i]
    case Plain(_, _, _, _) => OwnNameIsFullName(e, e.fields[i], own, []);
    case Flatten(_, child, _) => GroupedAreSampled(child, own);
    case Ignored =>
    case Timestamp =>
  }

  // ---------------------------------------------------------------- when the two agree

  /** A flatten site whose prefix adds nothing in the style in force. */
  predicate Silent(p: Option<Prefix>, k: Kind) {
    match p
    case None => true
    case Some(Exact(exact)) => exact == ""
    case Some(Inflectable(prefix)) =>
      match k
      case IdentityKind => prefix == ""
      case PascalKind => !HasAlphanumeric(prefix)
      case _ => false
  }

  lemma {:induction false} EmptyPascal(p: string)
    ensures CamelLike(p, ToUpper) == "" <==> !HasAlphanumeric(p)
  {
    CamelLikeOfStart(p, ToUpper);
    TrimmedStart(p);
    if HasAlphanumeric(p) { StartOfAlphanumeric(p); } else { NoAlphanumeric(p); }
  }

  lemma {:induction false} StartOfAlphanumeric(p: string)
    requires HasAlphanumeric(p)
    ensures TrimStart(p) != ""
  {
    if IsSeparator(p[0]) { StartOfAlphanumeric(p[1..]); }
  }

  lemma {:induction false} DelimitedIsNotEmpty(s: string, delim: char)
    ensures WithDelimiter(s, delim) != ""
  {
  }

  lemma {:induction false} SilentInflectable(p: string, k: Kind)
    ensures ApplyPrefixOnly(Inflectable(p), StyleOf(k)) == "" <==> Silent(Some(Inflectable(p)), k)
  {
    match k
    case IdentityKind =>
    case PascalKind => EmptyPascal(p);
    case SnakeKind => DelimitedIsNotEmpty(Apply(Snake, p), '_');
    case KebabKind => DelimitedIsNotEmpty(Apply(Kebab, p), '-');
  }

  lemma {:induction false} SilentIff(p: Prefix, k: Kind)
    ensures ApplyPrefixOnly(p, StyleOf(k)) == "" <==> Silent(Some(p), k)
  {
    if p.Inflectable? { SilentInflectable(p.prefix, k); }
  }

  /** Whether an entry has a sample group: a plain field, its own or one below a flatten site. */
  predicate HasGroup(e: Entry)
    decreases e, |e.fields| + 1
  {
    HasGroupUpTo(e, |e.fields|)
  }

  predicate HasGroupUpTo(e: Entry, n: nat)
    requires n <= |e.fields|
    decreases e, n
  {
    n > 0 && (HasGroupUpTo(e, n - 1) || FieldHasGroup(e, n - 1))
  }

  predicate FieldHasGroup(e: Entry, i: nat)
    requires i < |e.fields|
    decreases e, i
  {
    match e.fields[i]
    case Plain(_, _, gate, sampleGroup) => sampleGroup && Present(gate)
    case Flatten(_, child, gate) => Present(gate) && HasGroup(child)
    case _ => false
  }

  /** Below every flatten site that adds something there is no sample group. */
  predicate Unprefixed(e: Entry, parent: Kind)
    decreases e, |e.fields| + 1
  {
    UnprefixedFields(e, |e.fields|, parent)
  }

  predicate UnprefixedFields(e: Entry, n: nat, parent: Kind)
    requires n <= |e.fields|
    decreases e, n
  {
    n == 0 || (UnprefixedFields(e, n - 1, parent) && UnprefixedField(e, n - 1, parent))
  }

  predicate UnprefixedField(e: Entry, i: nat, parent: Kind)
    requires i < |e.fields|
    decreases e, i
  {
    var k := KindOf(e.renameAll, parent);
    match e.fields[i]
    case Flatten(prefix, child, gate) =>
      Present(gate) && HasGroup(child) ==> Silent(prefix, k) && Unprefixed(child, k)
    case _ => true
  }

  /** What is to be shown of a list of names with and without prefixes. */
  ghost predicate AgreeIff(with: seq<NameParts>, without: seq<NameParts>, condition: bool) {
    |with| == |without| && (FullNames(with) == FullNames(without) <==> without == [] || condition)
  }

  lemma {:induction false} AgreeConcat(a: seq<NameParts>, a': seq<NameParts>, b: seq<NameParts>, b': seq<NameParts>, silent: bool, x: bool, y: bool)
    requires AgreeIff(a, a', silent && x) && AgreeIff(b, b', silent && y)
    requires (a' == [] ==> x) && (b' == [] ==> y)
    ensures AgreeIff(a + b, a' + b', silent && x && y)
  {
    FullNamesConcat(a, b);
    FullNamesConcat(a', b');
    var fa, fb, fa', fb' := FullNames(a), FullNames(b), FullNames(a'), FullNames(b');
    assert fa + fb == fa' + fb' <==> fa == fa' && fb == fb' by {
      if fa + fb == fa' + fb' {
        assert fa == (fa + fb)[..|fa|] && fa' == (fa' + fb')[..|fa|];
        assert fb == (fa + fb)[|fa|..] && fb' == (fa' + fb')[|fa|..];
      }
    }
    assert a' + b' == [] <==> a' == [] && b' == [];
  }

  lemma {:induction false} OneAgrees(prefixes: seq<string>, base: string)
    ensures AgreeIff([NameParts(prefixes, base)], [NameParts([], base)], Join(prefixes) == "")
  {
    var with, without := NameParts(prefixes, base), NameParts([], base);
    assert FullName(without) == base;
    if Join(prefixes) == "" {
      assert FullName(with) == base;
    } else {
      assert |FullName(with)| > |base|;
      assert |FullNames([with])[0]| != |FullNames([without])[0]|;
    }
  }

  lemma {:induction false} JoinEmpty(prefixes: seq<string>, affix: string)
    ensures Join(prefixes + [affix]) == "" <==> Join(prefixes) == "" && affix == ""
  {
    JoinSnoc(prefixes, affix);
    assert |Join(prefixes) + affix| == |Join(prefixes)| + |affix|;
  }

  lemma {:induction false} JoinUnder(prefixes: seq<string>, p: Option<Prefix>, k: Kind)
    ensures Join(Under(prefixes, p, k)) == "" <==> Join(prefixes) == "" && Silent(p, k)
  {
    if p.Some? {
      SilentIff(p.value, k);
      JoinEmpty(prefixes, ApplyPrefixOnly(p.value, StyleOf(k)));
    }
  }

  lemma {:induction false} FieldsAgree(e: Entry, n: nat, parent: Kind, prefixes: seq<string>)
    requires n <= |e.fields|
    ensures AgreeIff(SampledFields(e, n, parent, prefixes, true), SampledFields(e, n, parent, [], false),
                     Join(prefixes) == "" && UnprefixedFields(e, n, parent))
    ensures SampledFields(e, n, parent, [], false) != [] <==> HasGroupUpTo(e, n)
    ensures !HasGroupUpTo(e, n) ==> UnprefixedFields(e, n, parent)
    decreases e, n
  {
    if n > 0 {
      FieldsAgree(e, n - 1, parent, prefixes);
      FieldAgrees(e, n - 1, parent, prefixes);
      AgreeConcat(SampledFields(e, n - 1, parent, prefixes, true), SampledFields(e, n - 1, parent, [], false),
                  SampledField(e, n - 1, parent, prefixes, true), SampledField(e, n - 1, parent, [], false),
                  Join(prefixes) == "", UnprefixedFields(e, n - 1, parent), UnprefixedField(e, n - 1, parent));
    }
  }

  lemma {:induction false} FieldAgrees(e: Entry, i: nat, parent: Kind, prefixes: seq<string>)
    requires i < |e.fields|
    ensures AgreeIff(SampledField(e, i, parent, prefixes, true), SampledField(e, i, parent, [], false),
                     Join(prefixes) == "" && UnprefixedField(e, i, parent))
    ensures SampledField(e, i, parent, [], false) != [] <==> FieldHasGroup(e, i)
    ensures !FieldHasGroup(e, i) ==> UnprefixedField(e, i, parent)
    decreases e, i
  {
    var k := KindOf(e.renameAll, parent);
    match e.fields[i]
    case Plain(_, _, _, _) => OneAgrees(prefixes, MetricName(e, StyleOf(k), e.fields[i]));
    case Flatten(prefix, child, gate) =>
      FieldsAgree(child, |child.fields|, k, Under(prefixes, prefix, k));
      JoinUnder(prefixes, prefix, k);
    case _ =>
  }

  /** The sample groups of an entry are reported under the names that `write` emits for those
      fields exactly if no flatten site with a prefix that adds something has one below it. */
  lemma {:induction false} SampleGroupNamesIff(e: Entry)
    ensures Texts(Grouped(e, ROOT)) == FullNames(Sampled(e, IdentityKind, [], true)) <==> Unprefixed(e, IdentityKind)
  {
    assert Carries(ROOT, []);
    GroupedAreSampled(e, ROOT);
    FieldsAgree(e, |e.fields|, IdentityKind, []);
  }

  /** A struct with one sample-group field behind a flatten site with an exact prefix. */
  function OneGroup(name: string): Entry {
    Entry(AsDeclared, None, [Plain(name, None, Ungated, true)])
  }

  function Behind(exact: string, child: Entry): Entry {
    Entry(AsDeclared, None, [Flatten(Some(Exact(exact)), child, Ungated)])
  }

  lemma {:induction false} OneField(e: Entry, parent: Kind, prefixes: seq<string>, prefixed: bool)
    requires |e.fields| == 1
    ensures Sampled(e, parent, prefixes, prefixed) == SampledField(e, 0, parent, prefixes, prefixed)
    ensures Unprefixed(e, parent) == UnprefixedField(e, 0, parent) && HasGroup(e) == FieldHasGroup(e, 0)
  {
    assert SampledFields(e, 0, parent, prefixes, prefixed) == [];
    assert UnprefixedFields(e, 0, parent) && !HasGroupUpTo(e, 0);
  }

  /** The names differ for the exact prefix `p_`, or any other that is not empty: the field `x`
      is emitted as `p_x` and its sample group is reported as `x`. */
  lemma {:induction false} PrefixIsDropped(exact: string, name: string)
    requires exact != ""
    ensures var e := Behind(exact, OneGroup(name));
            && Sampled(e, IdentityKind, [], true) == [NameParts([exact], name)]
            && Sampled(e, IdentityKind, [], false) == [NameParts([], name)]
            && Texts(Grouped(e, ROOT)) != FullNames(Sampled(e, IdentityKind, [], true))
  {
    var child := OneGroup(name);
    var e := Behind(exact, child);
    OneField(e, IdentityKind, [], true);
    OneField(e, IdentityKind, [], false);
    OneField(child, IdentityKind, [exact], true);
    OneField(child, IdentityKind, [], false);
    assert [] + [exact] == [exact];
    SampleGroupNamesIff(e);
  }
}
