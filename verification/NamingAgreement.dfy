/** Both derivations give the names of the entry, in the same order. */
module NamingAgreement {
  import opened CommonTypes
  import opened Concat
  import opened Naming

  // ---------------------------------------------------------------- `write`

  function Join(parts: seq<string>): string {
    if parts == [] then "" else Join(parts[..|parts| - 1]) + parts[|parts| - 1]
  }

  function FullName(p: NameParts): string {
    Join(p.prefixes) + p.base
  }

  function Texts(cs: seq<Cow>): seq<seq<byte>> {
    seq(|cs|, i requires 0 <= i < |cs| => CowText(cs[i]))
  }

  function FullNames(ps: seq<NameParts>): seq<seq<byte>> {
    seq(|ps|, i requires 0 <= i < |ps| => ToBytes(FullName(ps[i])))
  }

  lemma {:induction false} TextsConcat(a: seq<Cow>, b: seq<Cow>)
    ensures Texts(a + b) == Texts(a) + Texts(b)
  {
  }

  lemma {:induction false} FullNamesConcat(a: seq<NameParts>, b: seq<NameParts>)
    ensures FullNames(a + b) == FullNames(a) + FullNames(b)
  {
  }

  lemma {:induction false} ToBytesConcat(a: string, b: string)
    ensures ToBytes(a + b) == ToBytes(a) + ToBytes(b)
  {
  }

  lemma {:induction false} AsciiIsUtf8(s: seq<byte>)
    requires forall i :: 0 <= i < |s| ==> s[i] < 128
    ensures ValidUtf8(s)
  {
    if s != [] {
      AsciiIsUtf8(s[1..]);
    }
  }

  lemma {:induction false} ConstStrIsWellFormed(s: string)
    ensures WellFormed(ConstStr(s))
  {
    AsciiIsUtf8(ToBytes(s));
  }

  lemma {:induction false} JoinSnoc(parts: seq<string>, p: string)
    ensures Join(parts + [p]) == Join(parts) + p
  {
    assert (parts + [p])[..|parts|] == parts;
  }

  /** The namespace carries the text of the prefixes so far. */
  ghost predicate Carries(ns: NS, prefixes: seq<string>) {
    WellFormed(ns.prefix) && Text(ns.prefix) == ToBytes(Join(prefixes))
  }

  lemma {:induction false} OwnNameIsFullName(e: Entry, f: Field, ns: NS, prefixes: seq<string>)
    requires f.Plain? && Carries(ns, prefixes)
    ensures ConstStrValue(InflectedName(e, f, ns)) != Borrowed(Panic)
    ensures CowText(ConstStrValue(InflectedName(e, f, ns)))
         == ToBytes(FullName(NameParts(prefixes, MetricName(e, StyleOf(ns.kind), f))))
  {
    var base := MetricName(e, StyleOf(ns.kind), f);
    var t := InflectedName(e, f, ns);
    assert t == Concatenated(ns.prefix, ConstStr(base));
    ConstStrIsWellFormed(base);
    FastPathIsSlowPath(t);
    ToBytesConcat(Join(prefixes), base);
  }

  lemma {:induction false} FlattenCarries(p: Option<Prefix>, ns: NS, prefixes: seq<string>)
    requires Carries(ns, prefixes)
    ensures FlattenNs(p, ns).kind == ns.kind
    ensures Carries(FlattenNs(p, ns), Under(prefixes, p, ns.kind))
  {
    if p.Some? {
      var affix := ApplyPrefixOnly(p.value, StyleOf(ns.kind));
      assert FlattenNs(p, ns) == ns.AppendPrefix(ConstStr(affix));
      ConstStrIsWellFormed(affix);
      JoinSnoc(prefixes, affix);
      ToBytesConcat(Join(prefixes), affix);
    }
  }

  lemma {:induction false} MakeNsCarries(s: NameStyle, ns: NS)
    ensures MakeNs(s, ns).kind == KindOf(s, ns.kind) && MakeNs(s, ns).prefix == ns.prefix
  {
  }

  /** What `write` emits below any flatten sites is the names found there, in full. */
  lemma {:induction false} WriteEmitsNames(e: Entry, ns: NS, prefixes: seq<string>)
    requires Carries(ns, prefixes)
    ensures Texts(Written(e, ns)) == FullNames(Named(e, ns.kind, prefixes))
    decreases e, |e.fields| + 1
  {
    FieldsEmitNames(e, |e.fields|, ns, prefixes);
  }

  lemma {:induction false} FieldsEmitNames(e: Entry, n: nat, ns: NS, prefixes: seq<string>)
    requires n <= |e.fields| && Carries(ns, prefixes)
    ensures Texts(WrittenFields(e, n, ns)) == FullNames(NamedFields(e, n, ns.kind, prefixes))
    decreases e, n
  {
    if n > 0 {
      FieldsEmitNames(e, n - 1, ns, prefixes);
      FieldEmitsNames(e, n - 1, ns, prefixes);
      TextsConcat(WrittenFields(e, n - 1, ns), WrittenField(e, n - 1, ns));
      FullNamesConcat(NamedFields(e, n - 1, ns.kind, prefixes), NamedField(e, n - 1, ns.kind, prefixes));
    }
  }

  lemma {:induction false} FieldEmitsNames(e: Entry, i: nat, ns: NS, prefixes: seq<string>)
    requires i < |e.fields| && Carries(ns, prefixes)
    ensures Texts(WrittenField(e, i, ns)) == FullNames(NamedField(e, i, ns.kind, prefixes))
    decreases e, i
  {
    var own := MakeNs(e.renameAll, ns);
    MakeNsCarries(e.renameAll, ns);
    match e.fields[i]
    case Plain(_, _, gate, _) => OwnNameIsFullName(e, e.fields[i], own, prefixes);
    case Flatten(prefix, child, gate) =>
      FlattenCarries(prefix, own, prefixes);
      WriteEmitsNames(child, FlattenNs(prefix, own), Under(prefixes, prefix, own.kind));
    case Ignored =>
    case Timestamp =>
  }

  // ---------------------------------------------------------------- `descriptors`

  function Prepend(pre: seq<string>, ps: seq<NameParts>): seq<NameParts> {
    seq(|ps|, i requires 0 <= i < |ps| => NameParts(pre + ps[i].prefixes, ps[i].base))
  }

  lemma {:induction false} PrependConcat(pre: seq<string>, a: seq<NameParts>, b: seq<NameParts>)
    ensures Prepend(pre, a + b) == Prepend(pre, a) + Prepend(pre, b)
  {
  }

  lemma {:induction false} UnderPrepend(pre: seq<string>, prefixes: seq<string>, p: Option<Prefix>, k: Kind)
    ensures Under(pre + prefixes, p, k) == pre + Under(prefixes, p, k)
  {
    if p.Some? {
      var affix := ApplyPrefixOnly(p.value, StyleOf(k));
      assert (pre + prefixes) + [affix] == pre + (prefixes + [affix]);
    }
  }

  /** Further out flatten sites only add prefixes in front. */
  lemma {:induction false} NamedPrepend(e: Entry, k: Kind, pre: seq<string>, prefixes: seq<string>)
    ensures Named(e, k, pre + prefixes) == Prepend(pre, Named(e, k, prefixes))
    decreases e, |e.fields| + 1
  {
    NamedFieldsPrepend(e, |e.fields|, k, pre, prefixes);
  }

  lemma {:induction false} NamedFieldsPrepend(e: Entry, n: nat, k: Kind, pre: seq<string>, prefixes: seq<string>)
    requires n <= |e.fields|
    ensures NamedFields(e, n, k, pre + prefixes) == Prepend(pre, NamedFields(e, n, k, prefixes))
    decreases e, n
  {
    if n > 0 {
      NamedFieldsPrepend(e, n - 1, k, pre, prefixes);
      NamedFieldPrepend(e, n - 1, k, pre, prefixes);
      PrependConcat(pre, NamedFields(e, n - 1, k, prefixes), NamedField(e, n - 1, k, prefixes));
    }
  }

  lemma {:induction false} NamedFieldPrepend(e: Entry, i: nat, parent: Kind, pre: seq<string>, prefixes: seq<string>)
    requires i < |e.fields|
    ensures NamedField(e, i, parent, pre + prefixes) == Prepend(pre, NamedField(e, i, parent, prefixes))
    decreases e, i
  {
    var k := KindOf(e.renameAll, parent);
    match e.fields[i]
    case Flatten(prefix, child, gate) =>
      UnderPrepend(pre, prefixes, prefix, k);
      NamedPrepend(child, k, pre, Under(prefixes, prefix, k));
    case _ =>
  }

  lemma {:induction false} PartsOfMapped(ss: seq<Segment>, p: string)
    requires AllTables(ss)
    ensures AllTables(MapPrefix(ss, p)) && AllParts(MapPrefix(ss, p)) == Prepend([p], AllParts(ss))
  {
    if ss != [] {
      var init, last := ss[..|ss| - 1], ss[|ss| - 1];
      PartsOfMapped(init, p);
      assert MapPrefix(ss, p)[..|ss| - 1] == MapPrefix(init, p);
      assert PartsOf(last.WithPrefix(p)) == Prepend([p], PartsOf(last));
      PrependConcat([p], AllParts(init), PartsOf(last));
    }
  }

  lemma {:induction false} PartsConcat(a: seq<Segment>, b: seq<Segment>)
    requires AllTables(a) && AllTables(b)
    ensures AllTables(a + b) && AllParts(a + b) == AllParts(a) + AllParts(b)
  {
    if b == [] {
      assert a + b == a;
    } else {
      assert (a + b)[..|a + b| - 1] == a + b[..|b| - 1];
      PartsConcat(a, b[..|b| - 1]);
    }
  }

  // The runs of own fields and the chain items that fn generate_descriptor collects.
  datatype Plan = Plan(runs: seq<DescriptorRun>, chain: seq<ChainItem>) {

    ghost predicate Ok() {
      && runs != []
      && runs[0].gate == Ungated
      && (|runs| == 1 ==> chain == [])
      && (forall r :: 0 <= r < |runs| ==> FullTables(runs[r].names))
      && (forall c :: 0 <= c < |chain| ==> ItemOk(chain[c], runs[..|runs| - 1]))
    }

    /** The local closure close_run. */
    function CloseRun(): Plan
      requires runs != []
    {
      var last := |runs| - 1;
      Plan(runs + [DescriptorRun(Ungated, [])],
           if last > 0 && runs[last].names != [] then chain + [OwnRun(runs[last].gate, last)] else chain)
    }

    /** Push a field to the open run. */
    function Push(names: seq<string>): Plan
      requires runs != []
    {
      var last := |runs| - 1;
      Plan(runs[last := DescriptorRun(runs[last].gate, runs[last].names + [names])], chain)
    }

    /** Put a gated field into the open, empty run. */
    function PushGated(gate: Gate, names: seq<string>): Plan
      requires runs != []
    {
      var last := |runs| - 1;
      Plan(runs[last := DescriptorRun(gate, runs[last].names + [names])], chain)
    }

    /** The names planned so far, for an entry in style number `style`. */
    ghost function Parts(style: nat): seq<NameParts>
      requires Ok() && style < 5
    {
      RunParts(runs[0], style) + ItemsParts(chain, runs[..|runs| - 1], style)
      + if |runs| == 1 then [] else RunParts(runs[|runs| - 1], style)
    }
  }

  ghost predicate FullTables(names: seq<seq<string>>) {
    forall i :: 0 <= i < |names| ==> |names[i]| == 5
  }

  ghost predicate ItemOk(item: ChainItem, closed: seq<DescriptorRun>) {
    match item
    case OwnRun(gate, r) => r < |closed| && closed[r].gate == gate && FullTables(closed[r].names)
    case Child(_, segments) => AllTables(segments)
  }

  ghost function RunParts(r: DescriptorRun, style: nat): seq<NameParts>
    requires FullTables(r.names) && style < 5
  {
    if Present(r.gate) then PartsOf(Segment(r.names, style, [])) else []
  }

  ghost function ItemParts(item: ChainItem, closed: seq<DescriptorRun>, style: nat): seq<NameParts>
    requires ItemOk(item, closed) && style < 5
  {
    match item
    case OwnRun(_, r) => RunParts(closed[r], style)
    case Child(gate, segments) => if Present(gate) then AllParts(segments) else []
  }

  ghost function ItemsParts(items: seq<ChainItem>, closed: seq<DescriptorRun>, style: nat): seq<NameParts>
    requires style < 5 && forall c :: 0 <= c < |items| ==> ItemOk(items[c], closed)
  {
    if items == [] then []
    else ItemsParts(items[..|items| - 1], closed, style) + ItemParts(items[|items| - 1], closed, style)
  }

  /** Closing more runs does not change what the items say. */
  lemma {:induction false} ItemsKeepParts(items: seq<ChainItem>, closed: seq<DescriptorRun>, more: seq<DescriptorRun>, style: nat)
    requires style < 5 && forall c :: 0 <= c < |items| ==> ItemOk(items[c], closed)
    ensures forall c :: 0 <= c < |items| ==> ItemOk(items[c], closed + more)
    ensures ItemsParts(items, closed + more, style) == ItemsParts(items, closed, style)
  {
    if items != [] {
      ItemsKeepParts(items[..|items| - 1], closed, more, style);
    }
  }

  lemma {:induction false} ClosedRuns(p: Plan)
    requires p.runs != []
    ensures p.CloseRun().runs[..|p.CloseRun().runs| - 1] == p.runs
    ensures p.runs == p.runs[..|p.runs| - 1] + [p.runs[|p.runs| - 1]]
  {
  }

  lemma {:induction false} CloseKeepsParts(p: Plan, style: nat)
    requires p.Ok() && style < 5
    ensures p.CloseRun().Ok() && p.CloseRun().Parts(style) == p.Parts(style)
  {
    var last := |p.runs| - 1;
    ClosedRuns(p);
    ItemsKeepParts(p.chain, p.runs[..last], [p.runs[last]], style);
    if last > 0 && p.runs[last].names != [] {
      CloseAddsItem(p, style);
    } else {
      EmptyRun(p.CloseRun().runs[last + 1], style);
      if last > 0 { EmptyRun(p.runs[last], style); }
    }
  }

  lemma {:induction false} EmptyRun(r: DescriptorRun, style: nat)
    requires r.names == [] && style < 5
    ensures RunParts(r, style) == []
  {
  }

  /** The run that is closed turns into the last chain item. */
  lemma {:induction false} CloseAddsItem(p: Plan, style: nat)
    requires p.Ok() && style < 5 && |p.runs| > 1 && p.runs[|p.runs| - 1].names != []
    requires forall c :: 0 <= c < |p.chain| ==> ItemOk(p.chain[c], p.runs)
    requires ItemsParts(p.chain, p.runs, style) == ItemsParts(p.chain, p.runs[..|p.runs| - 1], style)
    requires p.CloseRun().runs[..|p.CloseRun().runs| - 1] == p.runs
    ensures p.CloseRun().Ok() && p.CloseRun().Parts(style) == p.Parts(style)
  {
    var last, q := |p.runs| - 1, p.CloseRun();
    var item := OwnRun(p.runs[last].gate, last);
    assert q.chain == p.chain + [item] && q.chain[..|q.chain| - 1] == p.chain;
    assert ItemOk(item, p.runs) && ItemParts(item, p.runs, style) == RunParts(p.runs[last], style);
    EmptyRun(q.runs[last + 1], style);
  }

  lemma {:induction false} PushAddsPart(p: Plan, gate: Gate, names: seq<string>, style: nat)
    requires p.Ok() && style < 5 && |names| == 5
    requires |p.runs| == 1 ==> gate == Ungated
    requires p.runs[|p.runs| - 1].names != [] ==> p.runs[|p.runs| - 1].gate == gate
    ensures p.PushGated(gate, names).Ok()
    ensures p.PushGated(gate, names).Parts(style)
         == p.Parts(style) + if Present(gate) then [NameParts([], names[style])] else []
  {
    var last := |p.runs| - 1;
    var q := p.PushGated(gate, names);
    var was, now := p.runs[last], q.runs[last];
    assert q.runs[..last] == p.runs[..last];
    assert RunParts(now, style) == RunParts(was, style) + if Present(gate) then [NameParts([], names[style])] else [];
    if last == 0 {
      assert ItemsParts(p.chain, p.runs[..0], style) == [];
    }
  }

  lemma {:induction false} ChildAddsParts(p: Plan, gate: Gate, segments: seq<Segment>, style: nat)
    requires p.Ok() && style < 5 && AllTables(segments)
    requires |p.runs| > 1 && p.runs[|p.runs| - 1].names == []
    ensures Plan(p.runs, p.chain + [Child(gate, segments)]).Ok()
    ensures Plan(p.runs, p.chain + [Child(gate, segments)]).Parts(style)
         == p.Parts(style) + if Present(gate) then AllParts(segments) else []
  {
    var q := Plan(p.runs, p.chain + [Child(gate, segments)]);
    assert q.chain[..|q.chain| - 1] == p.chain;
    assert RunParts(p.runs[|p.runs| - 1], style) == [];
  }

  lemma {:induction false} ItemsSnoc(base: seq<NameParts>, items: seq<ChainItem>, i: nat, closed: seq<DescriptorRun>, style: nat)
    requires style < 5 && i < |items| && forall c :: 0 <= c < |items| ==> ItemOk(items[c], closed)
    ensures base + ItemsParts(items[..i + 1], closed, style)
         == base + ItemsParts(items[..i], closed, style) + ItemParts(items[i], closed, style)
  {
    assert items[..i + 1][..i] == items[..i];
    var x, y := ItemsParts(items[..i], closed, style), ItemParts(items[i], closed, style);
    assert base + (x + y) == base + x + y;
  }

  lemma {:induction false} OneSegment(s: Segment)
    requires Tables(s)
    ensures AllTables([s]) && AllParts([s]) == PartsOf(s)
  {
    assert [s][..0] == [];
  }

  /** The segments of a chain item: what own_run_segment_expr and flatten_descriptors_expr
      contribute, unless the item is gated off. */
  method ItemSegments(item: ChainItem, closed: seq<DescriptorRun>, style: nat) returns (segments: seq<Segment>)
    requires style < 5 && ItemOk(item, closed)
    ensures AllTables(segments) && AllParts(segments) == ItemParts(item, closed, style)
  {
    match item
    case OwnRun(gate, r) =>
      if Present(gate) {
        segments := [Segment(closed[r].names, style, [])];
        OneSegment(segments[0]);
      } else {
        segments := [];
      }
    case Child(gate, child) => segments := if Present(gate) then child else [];
  }

  /** fn build_descriptors_chain: the base segment, then the chain items in declaration order. */
  method BuildChain(base: Segment, items: seq<ChainItem>, closed: seq<DescriptorRun>, style: nat) returns (segments: seq<Segment>)
    requires style < 5 && Tables(base) && forall c :: 0 <= c < |items| ==> ItemOk(items[c], closed)
    ensures AllTables(segments) && AllParts(segments) == PartsOf(base) + ItemsParts(items, closed, style)
  {
    segments := [base];
    OneSegment(base);
    ghost var front := PartsOf(base);
    var i := 0;
    while i < |items|
      invariant 0 <= i <= |items| && AllTables(segments)
      invariant AllParts(segments) == front + ItemsParts(items[..i], closed, style)
    {
      var more := ItemSegments(items[i], closed, style);
      PartsConcat(segments, more);
      ItemsSnoc(front, items, i, closed, style);
      segments := segments + more;
      i := i + 1;
    }
    assert items[..i] == items;
  }

  lemma {:induction false} ClosedParts(plan: Plan, style: nat)
    requires plan.Ok() && style < 5
    requires |plan.runs| > 1 && plan.runs[|plan.runs| - 1].names == []
    ensures plan.Parts(style)
         == PartsOf(Segment(plan.runs[0].names, style, [])) + ItemsParts(plan.chain, plan.runs[..|plan.runs| - 1], style)
  {
    assert RunParts(plan.runs[|plan.runs| - 1], style) == [];
  }

  /** fn assemble_descriptors_method. */
  method Assemble(plan: Plan, style: nat) returns (segments: seq<Segment>)
    requires plan.Ok() && style < 5
    requires |plan.runs| > 1 && plan.runs[|plan.runs| - 1].names == []
    ensures AllTables(segments) && AllParts(segments) == plan.Parts(style)
  {
    ClosedParts(plan, style);
    segments := BuildChain(Segment(plan.runs[0].names, style, []), plan.chain, plan.runs[..|plan.runs| - 1], style);
  }

  lemma {:induction false} StyleTable(e: Entry, f: Field, k: Kind)
    requires f.Plain?
    ensures NS(k, Const([])).DescriptorStyleIndex() < 4
    ensures NameTable(e, f)[NS(k, Const([])).DescriptorStyleIndex()] == MetricName(e, StyleOf(k), f)
  {
  }

  /** The child's segments with the flatten-site prefix, picked from the per-style table. */
  method FlattenSegments(prefix: Option<Prefix>, child: Entry, own: NS, segments: seq<Segment>) returns (out: seq<Segment>)
    requires AllTables(segments) && AllParts(segments) == Named(child, own.kind, [])
    ensures AllTables(out) && AllParts(out) == Named(child, own.kind, Under([], prefix, own.kind))
  {
    match prefix
    case None => out := segments;
    case Some(p) =>
      var inflected := seq(5, i requires 0 <= i < 5 => ApplyPrefixOnly(p, ALL[i]));
      var affix := inflected[own.DescriptorStyleIndex()];
      out := MapPrefix(segments, affix);
      assert affix == ApplyPrefixOnly(p, StyleOf(own.kind));
      PartsOfMapped(segments, affix);
      NamedPrepend(child, own.kind, [affix], []);
      assert [affix] + [] == [affix] == [] + [affix];
  }

  lemma {:induction false} NamedSnoc(e: Entry, i: nat, parent: Kind, before: seq<NameParts>, own: seq<NameParts>)
    requires i < |e.fields| && before == NamedFields(e, i, parent, []) && own == NamedField(e, i, parent, [])
    ensures NamedFields(e, i + 1, parent, []) == before + own
  {
  }

  /** A plain field joins the open run; a gated one gets a run of its own. */
  method PlanField(plan: Plan, gate: Gate, names: seq<string>, style: nat) returns (next: Plan)
    requires plan.Ok() && style < 5 && |names| == 5 && plan.runs[|plan.runs| - 1].gate == Ungated
    ensures next.Ok() && next.runs[|next.runs| - 1].gate == Ungated
    ensures next.Parts(style) == plan.Parts(style) + if Present(gate) then [NameParts([], names[style])] else []
  {
    if gate == Ungated {
      PushAddsPart(plan, Ungated, names, style);
      next := plan.Push(names);
      assert next == plan.PushGated(Ungated, names);
    } else {
      CloseKeepsParts(plan, style);
      next := plan.CloseRun();
      PushAddsPart(next, gate, names, style);
      next := next.PushGated(gate, names);
      CloseKeepsParts(next, style);
      next := next.CloseRun();
    }
  }

  /** A flatten field closes the open run and adds its child's segments. */
  method PlanChild(plan: Plan, gate: Gate, segments: seq<Segment>, style: nat) returns (next: Plan)
    requires plan.Ok() && style < 5 && AllTables(segments)
    ensures next.Ok() && next.runs[|next.runs| - 1].gate == Ungated
    ensures next.Parts(style) == plan.Parts(style) + if Present(gate) then AllParts(segments) else []
  {
    CloseKeepsParts(plan, style);
    next := plan.CloseRun();
    ChildAddsParts(next, gate, segments, style);
    next := Plan(next.runs, next.chain + [Child(gate, segments)]);
  }

  lemma {:induction false} EmptyPlan(style: nat)
    requires style < 5
    ensures var plan := Plan([DescriptorRun(Ungated, [])], []);
            plan.Ok() && plan.Parts(style) == []
  {
  }

  method Finish(plan: Plan, style: nat) returns (segments: seq<Segment>)
    requires plan.Ok() && style < 5
    ensures AllTables(segments) && AllParts(segments) == plan.Parts(style)
  {
    CloseKeepsParts(plan, style);
    segments := Assemble(plan.CloseRun(), style);
  }

  /** What one field adds to the plan: the names of that field. */
  method PlanNext(e: Entry, i: nat, ns: NS, plan: Plan) returns (next: Plan)
    requires i < |e.fields| && plan.Ok() && plan.runs[|plan.runs| - 1].gate == Ungated
    ensures next.Ok() && next.runs[|next.runs| - 1].gate == Ungated
    ensures var style := MakeNs(e.renameAll, ns).DescriptorStyleIndex();
            next.Parts(style) == plan.Parts(style) + NamedField(e, i, ns.kind, [])
    decreases e, i, 1
  {
    if e.fields[i].Plain? {
      next := PlanPlain(e, i, ns, plan);
    } else if e.fields[i].Flatten? {
      next := PlanFlatten(e, i, ns, plan);
    } else {
      next := plan;
      UnnamedField(e, i, ns.kind);
    }
  }

  lemma {:induction false} UnnamedField(e: Entry, i: nat, parent: Kind)
    requires i < |e.fields| && !e.fields[i].Plain? && !e.fields[i].Flatten?
    ensures NamedField(e, i, parent, []) == []
  {
  }

  lemma {:induction false} PlainField(e: Entry, i: nat, parent: Kind)
    requires i < |e.fields| && e.fields[i].Plain?
    ensures NamedField(e, i, parent, []) == if Present(e.fields[i].gate)
            then [NameParts([], MetricName(e, StyleOf(KindOf(e.renameAll, parent)), e.fields[i]))] else []
  {
  }

  lemma {:induction false} FlattenField(e: Entry, i: nat, parent: Kind)
    requires i < |e.fields| && e.fields[i].Flatten?
    ensures var k := KindOf(e.renameAll, parent);
            NamedField(e, i, parent, []) == if Present(e.fields[i].gate)
            then Named(e.fields[i].child, k, Under([], e.fields[i].prefix, k)) else []
  {
  }

  /** A plain field, with its name in every style. */
  method PlanPlain(e: Entry, i: nat, ns: NS, plan: Plan) returns (next: Plan)
    requires i < |e.fields| && e.fields[i].Plain?
    requires plan.Ok() && plan.runs[|plan.runs| - 1].gate == Ungated
    ensures next.Ok() && next.runs[|next.runs| - 1].gate == Ungated
    ensures var style := MakeNs(e.renameAll, ns).DescriptorStyleIndex();
            next.Parts(style) == plan.Parts(style) + NamedField(e, i, ns.kind, [])
    decreases e, i, 0
  {
    var own := MakeNs(e.renameAll, ns);
    MakeNsCarries(e.renameAll, ns);
    var names := NameTable(e, e.fields[i]);
    StyleTable(e, e.fields[i], own.kind);
    next := PlanField(plan, e.fields[i].gate, names, own.DescriptorStyleIndex());
    PlainField(e, i, ns.kind);
  }

  /** A flatten field, with the segments of its child. */
  method PlanFlatten(e: Entry, i: nat, ns: NS, plan: Plan) returns (next: Plan)
    requires i < |e.fields| && e.fields[i].Flatten?
    requires plan.Ok()
    ensures next.Ok() && next.runs[|next.runs| - 1].gate == Ungated
    ensures var style := MakeNs(e.renameAll, ns).DescriptorStyleIndex();
            next.Parts(style) == plan.Parts(style) + NamedField(e, i, ns.kind, [])
    decreases e, i, 0
  {
    var own := MakeNs(e.renameAll, ns);
    MakeNsCarries(e.renameAll, ns);
    var inner := GatedChild(e.fields[i].prefix, e.fields[i].child, e.fields[i].gate, own);
    next := PlanChild(plan, e.fields[i].gate, inner, own.DescriptorStyleIndex());
    FlattenField(e, i, ns.kind);
  }

  method GatedChild(prefix: Option<Prefix>, child: Entry, gate: Gate, own: NS) returns (inner: seq<Segment>)
    ensures AllTables(inner)
    ensures Present(gate) ==> AllParts(inner) == Named(child, own.kind, Under([], prefix, own.kind))
    decreases child, |child.fields| + 2
  {
    inner := [];
    if Present(gate) {
      inner := Describe(child, own);
      inner := FlattenSegments(prefix, child, own, inner);
    }
  }

  /** `descriptors`, as generated by fn generate_descriptor: own fields are collected into
      runs, flatten children and gated fields break them up. */
  method Describe(e: Entry, ns: NS) returns (segments: seq<Segment>)
    ensures AllTables(segments) && AllParts(segments) == Named(e, ns.kind, [])
    decreases e, |e.fields| + 1
  {
    var style := MakeNs(e.renameAll, ns).DescriptorStyleIndex();
    var plan := Plan([DescriptorRun(Ungated, [])], []);
    EmptyPlan(style);
    var i := 0;
    while i < |e.fields|
      invariant 0 <= i <= |e.fields| && plan.Ok()
      invariant plan.runs[|plan.runs| - 1].gate == Ungated
      invariant plan.Parts(style) == NamedFields(e, i, ns.kind, [])
    {
      NamedSnoc(e, i, ns.kind, plan.Parts(style), NamedField(e, i, ns.kind, []));
      plan := PlanNext(e, i, ns, plan);
      i := i + 1;
    }
    segments := Finish(plan, style);
  }

  // ---------------------------------------------------------------- agreement

  /** For every entry, however deeply nested, the names `write` emits are, in order, exactly
      the names `descriptors` reports: the prefix chain and then the styled name. */
  method WriteAgreesWithDescriptors(e: Entry) returns (written: seq<Cow>, segments: seq<Segment>)
    ensures AllTables(segments) && written == Written(e, ROOT)
    ensures AllParts(segments) == Named(e, IdentityKind, [])
    ensures |written| == |AllParts(segments)|
    ensures forall i :: 0 <= i < |written| ==> CowText(written[i]) == ToBytes(FullName(AllParts(segments)[i]))
  {
    written := Write(e, ROOT);
    segments := Describe(e, ROOT);
    assert Carries(ROOT, []);
    WriteEmitsNames(e, ROOT, []);
    forall i | 0 <= i < |written|
      ensures CowText(written[i]) == ToBytes(FullName(AllParts(segments)[i]))
    {
      assert Texts(written)[i] == FullNames(AllParts(segments))[i];
    }
  }
}
