/** What an append records, spelled out on its writes: which ones count, with which kind, which
    attributes in which order, and what a panic leaves. */
module OtelMeaning {
  import opened CommonTypes
  import opened OtelEntries

  // ---------------------------------------------------------------- kinds

  /** A metric write that says what instrument it is for. */
  predicate Tagged(w: Write) {
    w.Metric? && (w.flags.OtelOptions? || w.flags.Distribution?)
  }

  function TaggedCount(ws: seq<Write>): nat {
    if ws == [] then 0 else (if Tagged(ws[0]) then 1 else 0) + TaggedCount(ws[1..])
  }

  lemma {:induction false} TaggedFront(w: Write, ws: seq<Write>)
    ensures TaggedCount([w] + ws) == (if Tagged(w) then 1 else 0) + TaggedCount(ws)
  {
    assert ([w] + ws)[1..] == ws;
  }

  lemma {:induction false} TaggedSnoc(ws: seq<Write>, w: Write)
    ensures TaggedCount(ws + [w]) == TaggedCount(ws) + if Tagged(w) then 1 else 0
  {
    if ws == [] {
      assert ws + [w] == [w] + [];
      TaggedFront(w, []);
    } else {
      FirstOf(ws, [w]);
      TaggedFront(ws[0], ws[1..] + [w]);
      TaggedSnoc(ws[1..], w);
    }
  }

  lemma {:induction false} TaggedAreMetrics(ws: seq<Write>)
    ensures MetricCount(ws) == TaggedCount(ws)
  {
    if ws != [] {
      TaggedAreMetrics(ws[..|ws| - 1]);
      TaggedSnoc(ws[..|ws| - 1], ws[|ws| - 1]);
      assert ws == ws[..|ws| - 1] + [ws[|ws| - 1]];
    }
  }

  /** A completed append makes one record for each tagged metric and no other, and none for one
      without a tag. */
  lemma {:induction false} OneRecordPerTag(a: Append)
    requires !Unwinds(a)
    ensures |Own(a)| == TaggedCount(a.writes)
  {
    MetricsCounted(a.writes);
    TaggedAreMetrics(a.writes);
  }

  /** The record of a tagged metric: of the kind its options give, or a histogram for a
      distribution; with its own name, observations and unit; and with its dimensions followed
      by the attributes of the whole entry. It comes after the records of later metrics. */
  lemma {:induction false} TagDecidesKind(a: Append, i: nat)
    requires !Unwinds(a) && i < |a.writes| && Tagged(a.writes[i])
    ensures var w, at := a.writes[i], TaggedCount(a.writes[i + 1..]);
            && at < |Own(a)|
            && Own(a)[at].kind == (match w.flags case OtelOptions(k) => k case _ => Histogram)
            && Own(a)[at].scope == a.scope && Own(a)[at].name == w.name
            && Own(a)[at].observations == w.observations && Own(a)[at].unit == w.unit
            && Own(a)[at].attributes == w.dimensions + Attributes(a.writes)
  {
    MetricIsRecorded(a, i);
    TaggedAreMetrics(a.writes);
    TaggedAreMetrics(a.writes[..i]);
    TaggedFrom(a.writes, i);
  }

  lemma {:induction false} TaggedFrom(ws: seq<Write>, i: nat)
    requires i < |ws|
    ensures TaggedCount(ws) == TaggedCount(ws[..i]) + (if Tagged(ws[i]) then 1 else 0) + TaggedCount(ws[i + 1..])
  {
    if i > 0 {
      TaggedFrom(ws[1..], i - 1);
      assert ws[..i][1..] == ws[1..][..i - 1] && ws[1..][i..] == ws[i + 1..];
    }
  }

  // ---------------------------------------------------------------- attributes

  /** The parts with commas between them. */
  function WithCommas(parts: seq<string>): string {
    if parts == [] then "" else if |parts| == 1 then parts[0] else parts[0] + "," + WithCommas(parts[1..])
  }

  function NotEmpty(elements: seq<string>): seq<string> {
    if elements == [] then []
    else (if elements[0] == "" then [] else [elements[0]]) + NotEmpty(elements[1..])
  }

  lemma {:induction false} CommasSnoc(parts: seq<string>, p: string)
    requires parts != []
    ensures WithCommas(parts + [p]) == WithCommas(parts) + "," + p
  {
    assert (parts + [p])[1..] == parts[1..] + [p];
    if |parts| > 1 {
      CommasSnoc(parts[1..], p);
      assert parts[0] + "," + (WithCommas(parts[1..]) + "," + p) == parts[0] + "," + WithCommas(parts[1..]) + "," + p;
    } else {
      assert parts[1..] == [];
    }
  }

  lemma {:induction false} NotEmptyFront(e: string, es: seq<string>)
    ensures NotEmpty([e] + es) == (if e == "" then [] else [e]) + NotEmpty(es)
  {
    assert ([e] + es)[1..] == es;
  }

  lemma {:induction false} NotEmptySnoc(elements: seq<string>, e: string)
    ensures NotEmpty(elements + [e]) == NotEmpty(elements) + if e == "" then [] else [e]
  {
    var last := if e == "" then [] else [e];
    if elements == [] {
      assert elements + [e] == [e] + [];
      NotEmptyFront(e, []);
      assert last + [] == last == [] + last;
    } else {
      FirstOf(elements, [e]);
      NotEmptyFront(elements[0], elements[1..] + [e]);
      NotEmptySnoc(elements[1..], e);
      Associate(if elements[0] == "" then [] else [elements[0]], NotEmpty(elements[1..]), last);
    }
  }

  lemma {:induction false} CommasEmpty(elements: seq<string>)
    ensures WithCommas(NotEmpty(elements)) == "" <==> NotEmpty(elements) == []
  {
    if elements != [] {
      CommasEmpty(elements[1..]);
    }
  }

  /** A list becomes its elements with commas between them, those that render to nothing left
      out. */
  lemma {:induction false} ListIsCommaSeparated(elements: seq<string>)
    ensures Joined(elements) == WithCommas(NotEmpty(elements))
  {
    if elements != [] {
      var front, e := elements[..|elements| - 1], elements[|elements| - 1];
      ListIsCommaSeparated(front);
      NotEmptySnoc(front, e);
      CommasEmpty(front);
      assert elements == front + [e];
      if e != "" {
        if NotEmpty(front) == [] {
          assert [] + [e] == [e];
        } else {
          CommasSnoc(NotEmpty(front), e);
        }
      } else {
        assert NotEmpty(front) + [] == NotEmpty(front);
      }
    }
  }

  /** The attributes, write by write in the order they are made. */
  function InOrder(ws: seq<Write>): seq<KeyValue> {
    if ws == [] then [] else Attribute(ws[0]) + InOrder(ws[1..])
  }

  /** The attribute a write makes, if any. */
  function Attribute(w: Write): seq<KeyValue> {
    match w
    case Text(name, value) => [KeyValue(name, value)]
    case Values(name, elements) => [KeyValue(name, WithCommas(NotEmpty(elements)))]
    case _ => []
  }

  lemma {:induction false} InOrderFront(w: Write, ws: seq<Write>)
    ensures InOrder([w] + ws) == Attribute(w) + InOrder(ws)
  {
    assert ([w] + ws)[1..] == ws;
  }

  lemma {:induction false} InOrderSnoc(ws: seq<Write>, w: Write)
    ensures InOrder(ws + [w]) == InOrder(ws) + Attribute(w)
  {
    if ws == [] {
      assert ws + [w] == [w] + [];
      InOrderFront(w, []);
      assert Attribute(w) + [] == Attribute(w) == [] + Attribute(w);
    } else {
      FirstOf(ws, [w]);
      InOrderFront(ws[0], ws[1..] + [w]);
      InOrderSnoc(ws[1..], w);
      Associate(Attribute(ws[0]), InOrder(ws[1..]), Attribute(w));
    }
  }

  lemma {:induction false} AttributesInOrder(ws: seq<Write>)
    ensures Attributes(ws) == InOrder(ws)
  {
    if ws != [] {
      var front, w := ws[..|ws| - 1], ws[|ws| - 1];
      AttributesInOrder(front);
      InOrderSnoc(front, w);
      assert ws == front + [w];
      assert InOrder(front) + [] == InOrder(front);
      if w.Values? { ListIsCommaSeparated(w.elements); }
    }
  }

  // ---------------------------------------------------------------- panics and nested appends

  lemma {:induction false} FirstStopIs(a: Append, i: nat)
    requires i <= |a.writes| + 1
    ensures i <= FirstStop(a, i) && (FirstStop(a, i) <= |a.writes| ==> StopsAt(a, FirstStop(a, i)))
    ensures forall j: nat :: i <= j < FirstStop(a, i) && j <= |a.writes| ==> !StopsAt(a, j)
    decreases |a.writes| + 1 - i
  {
    if i <= |a.writes| && !StopsAt(a, i) { FirstStopIs(a, i + 1); }
  }

  /** An append panics exactly if its own panic comes at a write, or after the last one; or at
      one of the records it makes; or if one of the appends made from inside it panics. */
  lemma {:induction false} UnwindsIff(a: Append)
    ensures Unwinds(a) <==>
            || (a.fault.Writing? && a.fault.at <= |a.writes|)
            || (exists i :: 0 <= i < |a.writes| && a.writes[i].Reentrant? && Unwinds(a.writes[i].append))
            || (a.fault.Recording? && a.fault.at < TaggedCount(a.writes))
  {
    FirstStopIs(a, 0);
    MetricsCounted(a.writes);
    TaggedAreMetrics(a.writes);
    if a.fault.Writing? && a.fault.at <= |a.writes| { assert StopsAt(a, a.fault.at); }
    if i :| 0 <= i < |a.writes| && a.writes[i].Reentrant? && Unwinds(a.writes[i].append) { assert StopsAt(a, i); }
  }

  /** A panic at one of the records keeps those before it, and the one itself if the cache had
      heard it; a panic at the writes keeps none of the entry's own. */
  lemma {:induction false} WhatAPanicKeeps(a: Append)
    requires forall i :: 0 <= i < |a.writes| ==> !a.writes[i].Reentrant?
    ensures match a.fault
            case Nowhere => |Own(a)| == TaggedCount(a.writes)
            case Writing(at, _) => |Own(a)| == if at <= |a.writes| then 0 else TaggedCount(a.writes)
            case Recording(at, heard) =>
              |Own(a)| == if at < TaggedCount(a.writes) then at + (if heard then 1 else 0) else TaggedCount(a.writes)
  {
    FirstStopIs(a, 0);
    MetricsCounted(a.writes);
    TaggedAreMetrics(a.writes);
    if a.fault.Writing? && a.fault.at <= |a.writes| { assert StopsAt(a, a.fault.at); }
  }

  /** The appends made from inside the writes, in order, and then the entry's own records. */
  function NestedFirst(ws: seq<Write>): seq<Append> {
    if ws == [] then []
    else NestedIn(ws[0]) + NestedFirst(ws[1..])
  }

  ghost function HeardOf(appends: seq<Append>): seq<Record> {
    if appends == [] then [] else Heard(appends[0]) + HeardOf(appends[1..])
  }

  lemma {:induction false} HeardOfFront(a: Append, appends: seq<Append>)
    ensures HeardOf([a] + appends) == Heard(a) + HeardOf(appends)
  {
    assert ([a] + appends)[1..] == appends;
  }

  lemma {:induction false} HeardOfSnoc(appends: seq<Append>, a: Append)
    ensures HeardOf(appends + [a]) == HeardOf(appends) + Heard(a)
  {
    if appends == [] {
      assert appends + [a] == [a] + [];
      HeardOfFront(a, []);
      assert Heard(a) + [] == Heard(a) == [] + Heard(a);
    } else {
      FirstOf(appends, [a]);
      HeardOfFront(appends[0], appends[1..] + [a]);
      HeardOfSnoc(appends[1..], a);
      Associate(Heard(appends[0]), HeardOf(appends[1..]), Heard(a));
    }
  }

  function NestedIn(w: Write): seq<Append> { if w.Reentrant? then [w.append] else [] }

  lemma {:induction false} NestedFront(w: Write, ws: seq<Write>)
    ensures NestedFirst([w] + ws) == NestedIn(w) + NestedFirst(ws)
  {
    assert ([w] + ws)[1..] == ws;
  }

  lemma {:induction false} NestedSnoc(ws: seq<Write>, w: Write)
    ensures NestedFirst(ws + [w]) == NestedFirst(ws) + NestedIn(w)
  {
    if ws == [] {
      assert ws + [w] == [w] + [];
      NestedFront(w, []);
      assert NestedIn(w) + [] == NestedIn(w) == [] + NestedIn(w);
    } else {
      FirstOf(ws, [w]);
      NestedFront(ws[0], ws[1..] + [w]);
      NestedSnoc(ws[1..], w);
      Associate(NestedIn(ws[0]), NestedFirst(ws[1..]), NestedIn(w));
    }
  }

  lemma {:induction false} InnerAtIsNested(a: Append, i: nat, before: seq<Append>)
    requires i < |a.writes| && !FaultAt(a, i)
    ensures HeardOf(before + NestedIn(a.writes[i])) == HeardOf(before) + InnerAt(a, i)
  {
    if a.writes[i].Reentrant? {
      HeardOfSnoc(before, a.writes[i].append);
    } else {
      assert before + [] == before && HeardOf(before) + [] == HeardOf(before);
    }
  }

  lemma {:induction false} InnerIsNested(a: Append, n: nat)
    requires n <= |a.writes| && forall i: nat :: i < n ==> !FaultAt(a, i)
    ensures Inner(a, n) == HeardOf(NestedFirst(a.writes[..n]))
  {
    if n > 0 {
      var before := NestedFirst(a.writes[..n - 1]);
      InnerIsNested(a, n - 1);
      assert a.writes[..n] == a.writes[..n - 1] + [a.writes[n - 1]];
      NestedSnoc(a.writes[..n - 1], a.writes[n - 1]);
      InnerAtIsNested(a, n - 1, before);
    }
  }

  /** A completed append lets everything the appends made from inside it record be heard, in
      order, and then its own records. */
  lemma {:induction false} NestedAreHeard(a: Append)
    requires !Unwinds(a)
    ensures Heard(a) == HeardOf(NestedFirst(a.writes)) + Own(a)
  {
    UnwindsIff(a);
    InnerIsNested(a, |a.writes|);
    assert a.writes[..|a.writes|] == a.writes;
    assert Entered(a) == |a.writes|;
  }
}
