/** What an entry writes to the OTel sink and what the sink is to record for it, with no
  * mention of buffers. A write may panic, and may itself append another entry. */
module OtelEntries {
  import opened CommonTypes

  datatype KeyValue = KeyValue(key: string, value: string)

  datatype InstrumentKind = Counter | UpDownCounter | Histogram | Gauge

  /** The options a metric's flags carry: at most one kind of them. */
  datatype MetricFlags = NoFlags | OtelOptions(kind: InstrumentKind) | Distribution | OtherOptions

  /** One call on the entry writer. `Reentrant` is an append made from inside the write. */
  datatype Write =
    | Timestamp
    | Config
    | Invalid(name: string)
    | Text(name: string, value: string)
    | Values(name: string, elements: seq<string>)
    | Metric(name: string, observations: seq<Observation>, unit: string,
             dimensions: seq<KeyValue>, flags: MetricFlags)
    | Reentrant(append: Append)

  /** Where an append panics, if at all: as write `at` begins (`taken`: inside a metric write,
    * after it took a slot), or as the record numbered `at` is made (`heard`: the cache had
    * already recorded it). */
  datatype Fault = Nowhere | Writing(at: nat, taken: bool) | Recording(at: nat, heard: bool)

  datatype Append = Append(scope: string, writes: seq<Write>, fault: Fault)

  /** A metric held back until the entry's attributes are known. */
  datatype PendingMetric = PendingMetric(name: string, kind: InstrumentKind, observations: seq<Observation>,
                                         unit: string, perMetricDimensions: seq<KeyValue>)

  /** One call on the instrument cache. */
  datatype Record = Record(scope: string, name: string, kind: InstrumentKind, observations: seq<Observation>,
                           unit: string, attributes: seq<KeyValue>)

  function KindOf(flags: MetricFlags): Option<InstrumentKind> {
    match flags
    case OtelOptions(kind) => Some(kind)
    case Distribution => Some(Histogram)
    case _ => None
  }

  /** A write that leaves a metric to record. */
  predicate IsMetric(w: Write) { w.Metric? && KindOf(w.flags).Some? }

  ghost function MetricOf(w: Write): PendingMetric
    requires IsMetric(w)
  {
    PendingMetric(w.name, KindOf(w.flags).value, w.observations, w.unit, w.dimensions)
  }

  /** The metrics of an entry, in the order they are written. */
  ghost function Metrics(ws: seq<Write>): seq<PendingMetric> {
    if ws == [] then []
    else
      var front, w := Metrics(ws[..|ws| - 1]), ws[|ws| - 1];
      if IsMetric(w) then front + [MetricOf(w)] else front
  }

  /** The elements that rendered to something, separated by commas. */
  ghost function Joined(elements: seq<string>): string {
    if elements == [] then ""
    else
      var front, e := Joined(elements[..|elements| - 1]), elements[|elements| - 1];
      if e == "" then front else if front == "" then e else front + "," + e
  }

  /** The entry-wide attributes: every string field, and every list as one joined string. */
  ghost function Attributes(ws: seq<Write>): seq<KeyValue> {
    if ws == [] then []
    else
      var front, w := Attributes(ws[..|ws| - 1]), ws[|ws| - 1];
      match w
      case Text(name, value) => front + [KeyValue(name, value)]
      case Values(name, elements) => front + [KeyValue(name, Joined(elements))]
      case _ => front
  }

  ghost function RecordOf(scope: string, m: PendingMetric, attributes: seq<KeyValue>): Record {
    Record(scope, m.name, m.kind, m.observations, m.unit, m.perMetricDimensions + attributes)
  }

  /** The records of an entry's metrics, last metric first. */
  ghost function Replayed(scope: string, ms: seq<PendingMetric>, attributes: seq<KeyValue>): (r: seq<Record>)
    ensures |r| == |ms|
  {
    if ms == [] then []
    else [RecordOf(scope, ms[|ms| - 1], attributes)] + Replayed(scope, ms[..|ms| - 1], attributes)
  }

  // ---------------------------------------------------------------- what one append records

  ghost predicate FaultAt(a: Append, i: nat) { a.fault.Writing? && a.fault.at == i }

  /** Whether the append stops as write `i` begins or in it; `i` may be one past the last. */
  ghost predicate StopsAt(a: Append, i: nat)
    decreases a, 1, 0
  {
    || FaultAt(a, i)
    || (i < |a.writes| && a.writes[i].Reentrant? && Unwinds(a.writes[i].append))
  }

  /** The first stop at or after write `i`, or a number beyond the writes if there is none. */
  ghost function FirstStop(a: Append, i: nat): nat
    decreases a, 2, |a.writes| + 1 - i
  {
    if i > |a.writes| then i else if StopsAt(a, i) then i else FirstStop(a, i + 1)
  }

  /** Whether the append ends in a panic. */
  ghost predicate Unwinds(a: Append)
    decreases a, 3, 0
  {
    || FirstStop(a, 0) <= |a.writes|
    || (a.fault.Recording? && a.fault.at < |Metrics(a.writes)|)
  }

  /** What the entry itself records: nothing unless its writes all complete, and then all
    * its metrics, or those up to the record that panics. */
  ghost function Own(a: Append): (r: seq<Record>)
    ensures r <= Replayed(a.scope, Metrics(a.writes), Attributes(a.writes))
  {
    if FirstStop(a, 0) <= |a.writes| then []
    else
      var all := Replayed(a.scope, Metrics(a.writes), Attributes(a.writes));
      if a.fault.Recording? && a.fault.at < |all|
      then all[..a.fault.at + if a.fault.heard then 1 else 0]
      else all
  }

  /** What an append made from inside write `i` records, if there is one and it is reached. */
  ghost function InnerAt(a: Append, i: nat): seq<Record>
    requires i < |a.writes|
    decreases a, 0, 0
  {
    if a.writes[i].Reentrant? && !FaultAt(a, i) then Heard(a.writes[i].append) else []
  }

  /** What appends made from inside the first `n` writes record. */
  ghost function Inner(a: Append, n: nat): seq<Record>
    requires n <= |a.writes|
    decreases a, 1, n
  {
    if n == 0 then [] else Inner(a, n - 1) + InnerAt(a, n - 1)
  }

  /** How many writes are entered, counting one that panics. */
  ghost function Entered(a: Append): (n: nat)
    ensures n <= |a.writes|
  {
    var stop := FirstStop(a, 0);
    if stop < |a.writes| then stop + 1 else |a.writes|
  }

  /** Everything an append records. */
  ghost function Heard(a: Append): seq<Record>
    decreases a, 2, 0
  {
    Inner(a, Entered(a)) + Own(a)
  }

  // ---------------------------------------------------------------- what that means

  /** An append that neither panics nor appends from inside records all of its own metrics. */
  lemma {:induction false} QuietAppendIsOwn(a: Append)
    requires !Unwinds(a)
    requires forall w :: w in a.writes ==> !w.Reentrant?
    ensures Heard(a) == Replayed(a.scope, Metrics(a.writes), Attributes(a.writes))
  {
    NoInner(a, Entered(a));
  }

  lemma {:induction false} NoInner(a: Append, n: nat)
    requires n <= |a.writes|
    requires forall w :: w in a.writes ==> !w.Reentrant?
    ensures Inner(a, n) == []
  {
    if n > 0 { NoInner(a, n - 1); }
  }

  lemma {:induction false} ReplayedAt(scope: string, ms: seq<PendingMetric>, attributes: seq<KeyValue>, i: nat)
    requires i < |ms|
    ensures Replayed(scope, ms, attributes)[|ms| - 1 - i] == RecordOf(scope, ms[i], attributes)
  {
    if i < |ms| - 1 { ReplayedAt(scope, ms[..|ms| - 1], attributes, i); }
  }

  ghost function MetricCount(ws: seq<Write>): nat {
    if ws == [] then 0 else MetricCount(ws[..|ws| - 1]) + if IsMetric(ws[|ws| - 1]) then 1 else 0
  }

  lemma {:induction false} MetricPosition(ws: seq<Write>, i: nat)
    requires i < |ws| && IsMetric(ws[i])
    ensures MetricCount(ws[..i]) < |Metrics(ws)| && Metrics(ws)[MetricCount(ws[..i])] == MetricOf(ws[i])
    ensures |Metrics(ws)| == MetricCount(ws)
  {
    MetricsCounted(ws);
    var front := ws[..|ws| - 1];
    if i < |ws| - 1 {
      MetricPosition(front, i);
      assert front[..i] == ws[..i];
    } else {
      MetricsCounted(front);
    }
  }

  lemma {:induction false} MetricsCounted(ws: seq<Write>)
    ensures |Metrics(ws)| == MetricCount(ws)
  {
    if ws != [] { MetricsCounted(ws[..|ws| - 1]); }
  }

  /** Each metric is recorded with its own name, kind, observations and unit, and with its
    * dimensions followed by all attributes of the entry, those written after it included;
    * the position of its record is the number of metrics written after it. */
  lemma {:induction false} MetricIsRecorded(a: Append, i: nat)
    requires !Unwinds(a) && i < |a.writes| && IsMetric(a.writes[i])
    ensures var w, own, at := a.writes[i], Own(a), MetricCount(a.writes) - 1 - MetricCount(a.writes[..i]);
            && |own| == MetricCount(a.writes) && 0 <= at < |own|
            && own[at] == Record(a.scope, w.name, KindOf(w.flags).value, w.observations, w.unit,
                                 w.dimensions + Attributes(a.writes))
  {
    var ms := Metrics(a.writes);
    MetricPosition(a.writes, i);
    ReplayedAt(a.scope, ms, Attributes(a.writes), MetricCount(a.writes[..i]));
  }

  /** The attributes are exactly the text and list fields: each of those is there, and
    * nothing else is. */
  lemma {:induction false} AttributesAreTheTexts(ws: seq<Write>, kv: KeyValue)
    ensures kv in Attributes(ws) <==>
            Text(kv.key, kv.value) in ws || (exists es :: Values(kv.key, es) in ws && kv.value == Joined(es))
  {
    if ws != [] {
      var front, w := ws[..|ws| - 1], ws[|ws| - 1];
      AttributesAreTheTexts(front, kv);
      assert ws == front + [w];
      assert forall v :: v in ws <==> v in front || v == w;
      if exists es :: Values(kv.key, es) in ws && kv.value == Joined(es) {
        var es :| Values(kv.key, es) in ws && kv.value == Joined(es);
        assert Values(kv.key, es) in front || w == Values(kv.key, es);
      }
    }
  }
}
