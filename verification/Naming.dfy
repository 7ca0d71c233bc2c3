/**
  The names of an entry's fields, derived twice by the `#[metrics]` macro: once for `write`,
  through type-level name styles that carry a prefix, and once for `descriptors`, through
  per-style name tables to which flatten sites prepend their prefixes.
 */
module Naming {
  import opened CommonTypes
  import opened CaseConvert
  import opened Concat

  /** The styles `rename_all` accepts. */
  datatype NameStyle = PascalCase | SnakeCase | ScreamingSnakeCase | KebabCase | AsDeclared

  datatype Prefix = Inflectable(prefix: string) | Exact(exact: string)

  /** A `#[cfg(..)]` on the field, and whether it is satisfied. */
  datatype Gate = Ungated | Gated(on: bool)

  datatype Field =
    | Ignored
    | Timestamp
    | Plain(name: string, nameOverride: Option<string>, gate: Gate, sampleGroup: bool)
    | Flatten(prefix: Option<Prefix>, child: Entry, gate: Gate)

  /** A struct with `#[metrics]`: its `rename_all`, its root-level prefix, its fields. */
  datatype Entry = Entry(renameAll: NameStyle, rootPrefix: Option<Prefix>, fields: seq<Field>)

  predicate Present(g: Gate) {
    g == Ungated || g.on
  }

  // ---------------------------------------------------------------- inflection at macro time

  /** NameStyle::ALL, in the order of the descriptor tables. */
  const ALL: seq<NameStyle> := [AsDeclared, PascalCase, SnakeCase, KebabCase, ScreamingSnakeCase]

  function ToCaseStyle(s: NameStyle): CaseStyle {
    match s
    case PascalCase => Pascal
    case SnakeCase => Snake
    case ScreamingSnakeCase => ScreamingSnake
    case KebabCase => Kebab
    case AsDeclared => Preserve
  }

  /** Prefix::apply. */
  function ApplyRootPrefix(p: Prefix, base: string, s: NameStyle): string {
    match p
    case Exact(exact) => exact + Apply(ToCaseStyle(s), base)
    case Inflectable(prefix) => Apply(ToCaseStyle(s), prefix + base)
  }

  /** Prefix::apply_prefix_only. */
  function ApplyPrefixOnly(p: Prefix, s: NameStyle): string {
    match p
    case Exact(exact) => exact
    case Inflectable(prefix) => ApplyPrefix(ToCaseStyle(s), prefix)
  }

  /** fn metric_name: an explicit name is final; otherwise prefix and style apply. */
  function MetricName(e: Entry, s: NameStyle, f: Field): string
    requires f.Plain?
  {
    if f.nameOverride.Some? then f.nameOverride.value
    else match e.rootPrefix
      case Some(p) => ApplyRootPrefix(p, f.name, s)
      case None => Apply(ToCaseStyle(s), f.name)
  }

  // ---------------------------------------------------------------- type-level name styles

  datatype Kind = IdentityKind | PascalKind | SnakeKind | KebabKind

  /** Identity<PREFIX>, PascalCase<PREFIX>, SnakeCase<PREFIX>, KebabCase<PREFIX>. */
  datatype NS = NS(kind: Kind, prefix: Tree) {

    function DescriptorStyleIndex(): nat {
      match kind
      case IdentityKind => 0
      case PascalKind => 1
      case SnakeKind => 2
      case KebabKind => 3
    }

    function AppendPrefix(p: Tree): NS {
      NS(kind, Concatenated(prefix, p))
    }

    function InflectAffix(id: Tree, pascal: Tree, snake: Tree, kebab: Tree): Tree {
      match kind
      case IdentityKind => id
      case PascalKind => pascal
      case SnakeKind => snake
      case KebabKind => kebab
    }

    function Inflect(id: Tree, pascal: Tree, snake: Tree, kebab: Tree): Tree {
      Concatenated(prefix, InflectAffix(id, pascal, snake, kebab))
    }
  }

  const ROOT: NS := NS(IdentityKind, Const([]))

  function ToBytes(s: string): (b: seq<byte>)
    ensures |b| == |s|
  {
    seq(|s|, i requires 0 <= i < |s| => if (s[i] as int) < 128 then s[i] as int as byte else 0x3F)
  }

  function ConstStr(s: string): Tree {
    Const(ToBytes(s))
  }

  /** fn make_ns: a style switch keeps the prefix. */
  function MakeNs(s: NameStyle, ns: NS): NS {
    match s
    case PascalCase => NS(PascalKind, ns.prefix)
    case SnakeCase => NS(SnakeKind, ns.prefix)
    case ScreamingSnakeCase => NS(SnakeKind, ns.prefix)
    case KebabCase => NS(KebabKind, ns.prefix)
    case AsDeclared => ns
  }

  /** fn make_inflect, of the name of a plain field. */
  function InflectedName(e: Entry, f: Field, ns: NS): Tree
    requires f.Plain?
  {
    ns.Inflect(ConstStr(MetricName(e, AsDeclared, f)), ConstStr(MetricName(e, PascalCase, f)),
               ConstStr(MetricName(e, SnakeCase, f)), ConstStr(MetricName(e, KebabCase, f)))
  }

  /** Prefix::append_to: fn make_inflect_prefix and fn make_exact_prefix. */
  function AppendTo(p: Prefix, ns: NS): NS {
    match p
    case Inflectable(prefix) =>
      ns.AppendPrefix(ns.InflectAffix(
        ConstStr(ApplyPrefix(Preserve, prefix)), ConstStr(ApplyPrefix(Pascal, prefix)),
        ConstStr(ApplyPrefix(Snake, prefix)), ConstStr(ApplyPrefix(Kebab, prefix))))
    case Exact(exact) => ns.AppendPrefix(ConstStr(exact))
  }

  function FlattenNs(p: Option<Prefix>, ns: NS): NS {
    match p
    case Some(prefix) => AppendTo(prefix, ns)
    case None => ns
  }

  // ---------------------------------------------------------------- what `write` emits

  function Written(e: Entry, ns: NS): seq<Cow>
    decreases e, |e.fields| + 1
  {
    WrittenFields(e, |e.fields|, ns)
  }

  /** The names emitted for the first `n` fields. */
  function WrittenFields(e: Entry, n: nat, ns: NS): seq<Cow>
    requires n <= |e.fields|
    decreases e, n
  {
    if n == 0 then [] else WrittenFields(e, n - 1, ns) + WrittenField(e, n - 1, ns)
  }

  function WrittenField(e: Entry, i: nat, ns: NS): seq<Cow>
    requires i < |e.fields|
    decreases e, i
  {
    var own := MakeNs(e.renameAll, ns);
    match e.fields[i]
    case Plain(_, _, gate, _) => if Present(gate) then [ConstStrValue(InflectedName(e, e.fields[i], own))] else []
    case Flatten(prefix, child, gate) => if Present(gate) then Written(child, FlattenNs(prefix, own)) else []
    case Ignored => []
    case Timestamp => []
  }

  /** `write`, as generated by fn generate_field_writes. */
  method Write(e: Entry, ns: NS) returns (names: seq<Cow>)
    ensures names == Written(e, ns)
    decreases e
  {
    names := [];
    var i := 0;
    while i < |e.fields|
      invariant 0 <= i <= |e.fields| && names == WrittenFields(e, i, ns)
    {
      var own := MakeNs(e.renameAll, ns);
      match e.fields[i] {
        case Plain(_, _, gate, _) =>
          if Present(gate) {
            names := names + [ConstStrValue(InflectedName(e, e.fields[i], own))];
          }
        case Flatten(prefix, child, gate) =>
          if Present(gate) {
            var inner := Write(child, FlattenNs(prefix, own));
            names := names + inner;
          }
        case Ignored =>
        case Timestamp =>
      }
      i := i + 1;
    }
  }

  // ---------------------------------------------------------------- what `descriptors` reports

  /** A descriptor segment: per-style names of its fields, the style in force, and the
      prefixes of the flatten sites around it, outermost first. */
  datatype Segment = Segment(names: seq<seq<string>>, style: nat, prefixes: seq<string>) {

    function WithPrefix(p: string): Segment {
      Segment(names, style, [p] + prefixes)
    }
  }

  /** The parts of a reported name: prefixes, outermost first, then the base name. */
  datatype NameParts = NameParts(prefixes: seq<string>, base: string)

  function NameTable(e: Entry, f: Field): (names: seq<string>)
    requires f.Plain?
    ensures |names| == 5
  {
    seq(5, i requires 0 <= i < 5 => MetricName(e, ALL[i], f))
  }

  predicate Tables(s: Segment) {
    s.style < 5 && forall i :: 0 <= i < |s.names| ==> |s.names[i]| == 5
  }

  /** FieldView::name_parts of all fields of a segment. */
  function PartsOf(s: Segment): seq<NameParts>
    requires Tables(s)
  {
    seq(|s.names|, i requires 0 <= i < |s.names| => NameParts(s.prefixes, s.names[i][s.style]))
  }

  ghost predicate AllTables(ss: seq<Segment>) {
    forall i :: 0 <= i < |ss| ==> Tables(ss[i])
  }

  function AllParts(ss: seq<Segment>): seq<NameParts>
    requires AllTables(ss)
  {
    if ss == [] then [] else AllParts(ss[..|ss| - 1]) + PartsOf(ss[|ss| - 1])
  }

  /** A run of own fields between flatten sites; a gated field has a run of its own. */
  datatype DescriptorRun = DescriptorRun(gate: Gate, names: seq<seq<string>>)

  datatype ChainItem =
    | OwnRun(gate: Gate, run: nat)
    | Child(gate: Gate, segments: seq<Segment>)

  function MapPrefix(ss: seq<Segment>, p: string): seq<Segment> {
    seq(|ss|, i requires 0 <= i < |ss| => ss[i].WithPrefix(p))
  }

  // ---------------------------------------------------------------- the names themselves

  function KindOf(s: NameStyle, parent: Kind): Kind {
    match s
    case PascalCase => PascalKind
    case SnakeCase => SnakeKind
    case ScreamingSnakeCase => SnakeKind
    case KebabCase => KebabKind
    case AsDeclared => parent
  }

  function StyleOf(k: Kind): NameStyle {
    match k
    case IdentityKind => AsDeclared
    case PascalKind => PascalCase
    case SnakeKind => SnakeCase
    case KebabKind => KebabCase
  }

  /** Prefixes of the flatten sites on the way, each in the style of its site. */
  function Under(prefixes: seq<string>, p: Option<Prefix>, k: Kind): seq<string> {
    match p
    case Some(prefix) => prefixes + [ApplyPrefixOnly(prefix, StyleOf(k))]
    case None => prefixes
  }

  /** Whether an entry has a name at all: a plain field, its own or one below a flatten site. */
  predicate HasName(e: Entry)
    decreases e, |e.fields| + 1
  {
    HasNameUpTo(e, |e.fields|)
  }

  predicate HasNameUpTo(e: Entry, n: nat)
    requires n <= |e.fields|
    decreases e, n
  {
    n > 0 && (HasNameUpTo(e, n - 1) || FieldHasName(e, n - 1))
  }

  predicate FieldHasName(e: Entry, i: nat)
    requires i < |e.fields|
    decreases e, i
  {
    match e.fields[i]
    case Plain(_, _, gate, _) => Present(gate)
    case Flatten(_, child, gate) => Present(gate) && HasName(child)
    case _ => false
  }

  /** The names of an entry found in style `parent` below flatten sites with `prefixes`. */
  function Named(e: Entry, parent: Kind, prefixes: seq<string>): seq<NameParts>
    decreases e, |e.fields| + 1
  {
    NamedFields(e, |e.fields|, parent, prefixes)
  }

  function NamedFields(e: Entry, n: nat, parent: Kind, prefixes: seq<string>): seq<NameParts>
    requires n <= |e.fields|
    decreases e, n
  {
    if n == 0 then [] else NamedFields(e, n - 1, parent, prefixes) + NamedField(e, n - 1, parent, prefixes)
  }

  function NamedField(e: Entry, i: nat, parent: Kind, prefixes: seq<string>): seq<NameParts>
    requires i < |e.fields|
    decreases e, i
  {
    var k := KindOf(e.renameAll, parent);
    match e.fields[i]
    case Plain(_, _, gate, _) =>
      if Present(gate) then [NameParts(prefixes, MetricName(e, StyleOf(k), e.fields[i]))] else []
    case Flatten(prefix, child, gate) =>
      if Present(gate) then Named(child, k, Under(prefixes, prefix, k)) else []
    case Ignored => []
    case Timestamp => []
  }
}
