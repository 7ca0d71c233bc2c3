/** The writer that turns appended entries into OTel records through buffers it recycles.
  * A thread keeps one set of buffers; an append that cannot have it uses a fresh one. */
module OtelWriter {
  import opened CommonTypes
  import opened OtelEntries

  /** The instrument cache, seen from the writer: what was recorded, in order. */
  class InstrumentCache {
    var log: seq<Record>
    constructor ()
      ensures log == []
    { log := []; }
  }

  ghost function Max(a: nat, b: nat): nat { if a < b then b else a }

  /** The largest number of metrics in any of the appends. */
  ghost function Widest(appends: seq<Append>): nat {
    if appends == [] then 0
    else Max(Widest(appends[..|appends| - 1]), |Metrics(appends[|appends| - 1].writes)|)
  }

  /** How many of the appends panicked. */
  ghost function Panics(appends: seq<Append>): nat {
    if appends == [] then 0
    else Panics(appends[..|appends| - 1]) + if Unwinds(appends[|appends| - 1]) then 1 else 0
  }

  predicate IsEmpty(m: PendingMetric) {
    m.name == "" && m.observations == [] && m.perMetricDimensions == []
  }

  class WriterBufs {
    var entryAttributes: seq<KeyValue>
    var pending: seq<PendingMetric>
    var scratch: seq<KeyValue>
    var metricPool: seq<PendingMetric>
    /** Slots ever created, and slots dropped by a panic that held one. */
    ghost var created: nat
    ghost var lost: nat
    /** The appends these buffers served. */
    ghost var appends: seq<Append>

    /** Pooled slots are empty, and every slot created is pooled, pending or lost. */
    ghost predicate Accounted()
      reads this
    {
      && (forall i :: 0 <= i < |metricPool| ==> IsEmpty(metricPool[i]))
      && created == |metricPool| + |pending| + lost
    }

    /** Between appends: no more slots are alive than the widest append had metrics, each
      * panic lost at most one, and without panics nothing is pending and the slots ever
      * created are exactly as many as the widest append had metrics. */
    ghost predicate Valid()
      reads this
    {
      && Accounted()
      && |metricPool| + |pending| <= Widest(appends)
      && lost <= Panics(appends)
      && (Panics(appends) == 0 ==> pending == [] && lost == 0 && created == Widest(appends))
    }

    constructor ()
      ensures Valid() && appends == []
    {
      entryAttributes, pending, scratch, metricPool := [], [], [], [];
      created, lost, appends := 0, 0, [];
    }

    /** Clears what a previous append left, returning half-built slots to the pool. */
    method Reset()
      requires Accounted()
      modifies this`entryAttributes, this`scratch, this`pending, this`metricPool
      ensures Accounted()
      ensures entryAttributes == [] && scratch == [] && pending == []
      ensures |metricPool| == |old(metricPool)| + |old(pending)|
    {
      entryAttributes, scratch := [], [];
      while pending != []
        invariant Accounted() && entryAttributes == [] && scratch == []
        invariant |metricPool| + |pending| == |old(metricPool)| + |old(pending)|
        decreases |pending|
      {
        var m := pending[|pending| - 1];
        pending := pending[..|pending| - 1];
        metricPool := metricPool + [m.(name := "", observations := [], perMetricDimensions := [])];
      }
    }

    /** An empty slot, recycled if there is one. Until it is put back it is unaccounted for. */
    method TakeMetric() returns (m: PendingMetric)
      requires Accounted()
      modifies this`metricPool, this`created
      ensures IsEmpty(m)
      ensures forall i :: 0 <= i < |metricPool| ==> IsEmpty(metricPool[i])
      ensures created == |metricPool| + |pending| + lost + 1
      ensures |metricPool| == if |old(metricPool)| > 0 then |old(metricPool)| - 1 else 0
    {
      if metricPool != [] {
        m := metricPool[|metricPool| - 1];
        metricPool := metricPool[..|metricPool| - 1];
      } else {
        m := PendingMetric("", Counter, [], "", []);
        created := created + 1;
      }
    }

    /** `OtelValueWriter::string`. */
    method WriteString(name: string, value: string)
      modifies this`entryAttributes
      ensures entryAttributes == old(entryAttributes) + [KeyValue(name, value)]
    {
      entryAttributes := entryAttributes + [KeyValue(name, value)];
    }

    /** `write_values_as_string`: joins what the elements render to, skipping empty ones. */
    method WriteValues(name: string, elements: seq<string>)
      modifies this`entryAttributes
      ensures entryAttributes == old(entryAttributes) + [KeyValue(name, Joined(elements))]
    {
      var buf := "";
      for i := 0 to |elements|
        invariant buf == Joined(elements[..i])
        invariant entryAttributes == old(entryAttributes)
      {
        var before := |buf|;
        if buf != "" { buf := buf + ","; }
        var afterSep := |buf|;
        buf := buf + elements[i];
        if |buf| <= afterSep { buf := buf[..before]; }
        assert elements[..i + 1][..i] == elements[..i];
      }
      assert elements[..|elements|] == elements;
      WriteString(name, buf);
    }

    /** `OtelValueWriter::metric`. When the iterators it consumes panic (`panics`), the slot
      * it holds is dropped; a metric without an instrument kind takes no slot. */
    method WriteMetric(w: Write, panics: bool)
      requires w.Metric? && Accounted()
      modifies this`metricPool, this`pending, this`created, this`lost
      ensures Accounted()
      ensures pending == if IsMetric(w) && !panics then old(pending) + [MetricOf(w)] else old(pending)
      ensures !IsMetric(w) ==> metricPool == old(metricPool)
      ensures IsMetric(w) ==> |metricPool| == if |old(metricPool)| > 0 then |old(metricPool)| - 1 else 0
      ensures lost == old(lost) + if IsMetric(w) && panics then 1 else 0
    {
      var kind := KindOf(w.flags);
      if kind.None? { return; }
      var metric := TakeMetric();
      if panics {
        lost := lost + 1;
        return;
      }
      metric := metric.(name := "" + w.name, kind := kind.value, unit := w.unit);
      metric := metric.(observations := [] + w.observations);
      metric := metric.(perMetricDimensions := [] + w.dimensions);
      assert metric == MetricOf(w);
      pending := pending + [metric];
    }

    /** The state after the first `n` writes of an entry that started with `alive` slots. */
    ghost predicate Written(ws: seq<Write>, alive: nat)
      reads this
    {
      && Accounted()
      && entryAttributes == Attributes(ws)
      && pending == Metrics(ws)
      && |metricPool| + |pending| == Max(alive, |pending|)
    }

    /** One write that does not append anything itself. */
    method WriteOne(w: Write, ghost before: seq<Write>, ghost alive: nat)
      requires !w.Reentrant? && Written(before, alive)
      modifies this`entryAttributes, this`metricPool, this`pending, this`created, this`lost
      ensures Written(before + [w], alive) && lost == old(lost)
    {
      assert (before + [w])[..|before|] == before;
      match w
      case Text(name, value) => WriteString(name, value);
      case Values(name, elements) => WriteValues(name, elements);
      case Metric(_, _, _, _, _) => WriteMetric(w, false);
      case Timestamp =>
      case Config =>
      case Invalid(_) =>
    }

    /** What a panic inside the writes leaves behind. */
    ghost predicate Abandoned(ws: seq<Write>, alive: nat, lostBefore: nat)
      reads this
    {
      && Accounted()
      && |metricPool| + |pending| <= Max(alive, |Metrics(ws)|)
      && lost <= lostBefore + 1
    }

    /** A panic in the middle of write `at`, or before it, or after the last one. */
    method Interrupt(ws: seq<Write>, at: nat, taken: bool, ghost alive: nat)
      requires at <= |ws| && Written(ws[..at], alive)
      modifies this`metricPool, this`pending, this`created, this`lost
      ensures Abandoned(ws, alive, old(lost))
    {
      MetricsGrow(ws, at);
      if taken && at < |ws| && ws[at].Metric? {
        if IsMetric(ws[at]) {
          MetricsGrow(ws, at + 1);
          assert ws[..at + 1][..at] == ws[..at];
        }
        WriteMetric(ws[at], true);
      }
    }

    /** Write `at`, which may be an append made from inside this one. */
    method WriteAt(thread: Thread, cache: InstrumentCache, a: Append, at: nat, ghost alive: nat) returns (panicked: bool)
      requires at < |a.writes| && Written(a.writes[..at], alive) && !thread.Available()
      modifies this`entryAttributes, this`metricPool, this`pending, this`created, this`lost, cache
      ensures panicked <==> a.writes[at].Reentrant? && Unwinds(a.writes[at].append)
      ensures Written(if panicked then a.writes[..at] else a.writes[..at + 1], alive)
      ensures cache.log == old(cache.log) + if a.writes[at].Reentrant? then Heard(a.writes[at].append) else []
      ensures lost == old(lost)
      decreases a, 0
    {
      if a.writes[at].Reentrant? {
        panicked := thread.AppendWithPool(cache, a.writes[at].append);
        NestedKeeps(a.writes, at);
      } else {
        assert a.writes[..at + 1] == a.writes[..at] + [a.writes[at]];
        WriteOne(a.writes[at], a.writes[..at], alive);
        panicked := false;
      }
    }

    /** Write `at` with the panic that may cut it short. */
    method WriteOrPanic(thread: Thread, cache: InstrumentCache, a: Append, at: nat, ghost alive: nat, ghost course: Course)
      returns (panicked: bool)
      requires at < |a.writes| && Written(a.writes[..at], alive) && !thread.Available() && IsCourse(a, course)
      modifies this`entryAttributes, this`metricPool, this`pending, this`created, this`lost, cache
      ensures panicked == course.stops[at]
      ensures cache.log == old(cache.log) + course.inner[at]
      ensures if panicked then Abandoned(a.writes, alive, old(lost))
              else Written(a.writes[..at + 1], alive) && lost == old(lost)
      decreases a, 1
    {
      assert Reached(at);
      if a.fault.Writing? && a.fault.at == at {
        Interrupt(a.writes, at, a.fault.taken, alive);
        return true;
      }
      panicked := WriteAt(thread, cache, a, at, alive);
      if panicked { MetricsGrow(a.writes, at); }
    }

    /** The end of `Entry::write`, unless it panics after its last write. */
    method EndOrPanic(a: Append, ghost alive: nat, ghost course: Course) returns (panicked: bool)
      requires Written(a.writes[..|a.writes|], alive) && IsCourse(a, course)
      modifies this`metricPool, this`pending, this`created, this`lost
      ensures panicked == course.stops[|a.writes|]
      ensures if panicked then Abandoned(a.writes, alive, old(lost)) else Written(a.writes, alive) && lost == old(lost)
    {
      assert Reached(|a.writes|);
      assert a.writes[..|a.writes|] == a.writes;
      panicked := a.fault.Writing? && a.fault.at == |a.writes|;
      if panicked { Interrupt(a.writes, |a.writes|, a.fault.taken, alive); }
    }

    /** `Entry::write` against this writer, up to the end or a panic. */
    method WriteEntry(thread: Thread, cache: InstrumentCache, a: Append, ghost alive: nat, ghost course: Course)
      returns (panicked: bool)
      requires Written([], alive) && !thread.Available() && IsCourse(a, course)
      modifies this`entryAttributes, this`metricPool, this`pending, this`created, this`lost, cache
      ensures panicked <==> course.Stop(0) <= |a.writes|
      ensures cache.log == old(cache.log) + course.Inner(if course.Stop(0) < |a.writes| then course.Stop(0) + 1 else |a.writes|)
      ensures if panicked then Abandoned(a.writes, alive, old(lost)) else Written(a.writes, alive) && lost == old(lost)
      decreases a, 2
    {
      panicked := false;
      for i := 0 to |a.writes|
        invariant course.Stop(0) == course.Stop(i)
        invariant Written(a.writes[..i], alive) && lost == old(lost)
        invariant cache.log == old(cache.log) + course.Inner(i)
      {
        panicked := WriteOrPanic(thread, cache, a, i, alive, course);
        if panicked { return; }
      }
      panicked := EndOrPanic(a, alive, course);
    }

    /** The last pending metric leaves its slot for the instrument cache. */
    method RecordLast(cache: InstrumentCache, scope: string, panics: bool, heard: bool)
      requires Accounted() && pending != []
      modifies this`scratch, this`pending, this`metricPool, this`lost, cache
      ensures Accounted()
      ensures pending == old(pending)[..|old(pending)| - 1]
      ensures var record := RecordOf(scope, old(pending)[|old(pending)| - 1], entryAttributes);
              cache.log == old(cache.log) + if panics && !heard then [] else [record]
      ensures |metricPool| == |old(metricPool)| + if panics then 0 else 1
      ensures lost == old(lost) + if panics then 1 else 0
    {
      var m := pending[|pending| - 1];
      ghost var popped := m;
      pending := pending[..|pending| - 1];
      var attrs := entryAttributes;
      if m.perMetricDimensions != [] {
        scratch := [];
        scratch := scratch + m.perMetricDimensions;
        m := m.(perMetricDimensions := []);
        scratch := scratch + entryAttributes;
        attrs := scratch;
      }
      assert attrs == popped.perMetricDimensions + entryAttributes;
      var record := Record(scope, m.name, m.kind, m.observations, m.unit, attrs);
      m := m.(observations := []);
      if panics {
        if heard { cache.log := cache.log + [record]; }
        lost := lost + 1;
      } else {
        cache.log := cache.log + [record];
        metricPool := metricPool + [m.(name := "")];
      }
    }

    /** Records the pending metrics, last one first, returning each slot to the pool. */
    method Finish(cache: InstrumentCache, a: Append) returns (panicked: bool)
      requires Accounted()
      modifies this`scratch, this`pending, this`metricPool, this`lost, cache
      ensures Accounted()
      ensures panicked <==> a.fault.Recording? && a.fault.at < |old(pending)|
      ensures var all := Replayed(a.scope, old(pending), entryAttributes);
              cache.log == old(cache.log)
                           + if panicked then all[..a.fault.at + if a.fault.heard then 1 else 0] else all
      ensures !panicked ==> pending == [] && |metricPool| == |old(metricPool)| + |old(pending)| && lost == old(lost)
      ensures |metricPool| + |pending| <= |old(metricPool)| + |old(pending)|
      ensures lost <= old(lost) + 1
    {
      ghost var all := Replayed(a.scope, pending, entryAttributes);
      ghost var ms := pending;
      var k := 0;
      assert ms[..|ms|] == ms;
      while pending != []
        invariant Accounted()
        invariant k + |pending| == |ms| && pending == ms[..|pending|]
        invariant cache.log == old(cache.log) + all[..k]
        invariant a.fault.Recording? ==> k <= a.fault.at
        invariant |metricPool| + |pending| == |old(metricPool)| + |old(pending)| && lost == old(lost)
        decreases |pending|
      {
        ReplayedAt(a.scope, ms, entryAttributes, |pending| - 1);
        assert all[..k + 1] == all[..k] + [all[k]];
        if a.fault.Recording? && a.fault.at == k {
          RecordLast(cache, a.scope, true, a.fault.heard);
          return true;
        }
        RecordLast(cache, a.scope, false, true);
        k := k + 1;
      }
      assert all[..k] == all;
      return false;
    }

    /** The end of an append whose writes all completed. */
    method FinishEntry(cache: InstrumentCache, a: Append, ghost alive: nat) returns (panicked: bool)
      requires Written(a.writes, alive) && FirstStop(a, 0) > |a.writes|
      modifies this`pending, this`metricPool, this`scratch, this`lost, cache
      ensures panicked <==> Unwinds(a)
      ensures cache.log == old(cache.log) + Own(a)
      ensures if panicked then Abandoned(a.writes, alive, old(lost)) else Completed(a.writes, alive, old(lost))
    {
      panicked := Finish(cache, a);
    }

    /** What an append that did not panic leaves behind. */
    ghost predicate Completed(ws: seq<Write>, alive: nat, lostBefore: nat)
      reads this
    {
      && Accounted() && pending == [] && lost == lostBefore
      && |metricPool| == Max(alive, |Metrics(ws)|)
    }

    /** Everything an append does after the reset. */
    method WriteAndFinish(thread: Thread, cache: InstrumentCache, a: Append, ghost alive: nat) returns (panicked: bool)
      requires Written([], alive) && !thread.Available()
      modifies this`entryAttributes, this`metricPool, this`pending, this`scratch, this`created, this`lost, cache
      ensures panicked <==> Unwinds(a)
      ensures cache.log == old(cache.log) + Heard(a)
      ensures if panicked then Abandoned(a.writes, alive, old(lost)) else Completed(a.writes, alive, old(lost))
      decreases a, 3
    {
      ghost var course := CourseOf(a);
      panicked := WriteEntry(thread, cache, a, alive, course);
      HeardIs(a);
      if !panicked { panicked := FinishEntry(cache, a, alive); }
    }

    /** One append against these buffers, whatever state the previous one left them in. */
    method Run(thread: Thread, cache: InstrumentCache, a: Append) returns (panicked: bool)
      requires Valid() && !thread.Available()
      modifies this, cache
      ensures Valid()
      ensures panicked <==> Unwinds(a)
      ensures cache.log == old(cache.log) + Heard(a)
      ensures appends == old(appends) + [a]
      decreases a, 4
    {
      Reset();
      panicked := WriteAndFinish(thread, cache, a, |metricPool|);
      AppendsSnoc(appends, a);
      appends := appends + [a];
    }
  }

  /** A thread's buffers: gone once the thread shuts down, borrowed while an append uses them. */
  class Thread {
    const bufs: WriterBufs
    var alive: bool
    var borrowed: bool

    predicate Available()
      reads this
    {
      alive && !borrowed
    }

    constructor ()
      ensures Available() && fresh(bufs) && bufs.Valid() && bufs.appends == []
    {
      bufs := new WriterBufs();
      alive, borrowed := true, false;
    }

    /** `append_with_pool`: an append made from inside another, or while the thread shuts
      * down, works on fresh buffers; what is recorded is the same. */
    method AppendWithPool(cache: InstrumentCache, a: Append) returns (panicked: bool)
      requires Available() ==> bufs.Valid()
      modifies cache, if Available() then {this, bufs} else {}
      ensures panicked <==> Unwinds(a)
      ensures cache.log == old(cache.log) + Heard(a)
      ensures alive == old(alive) && borrowed == old(borrowed)
      ensures Available() ==> bufs.Valid() && bufs.appends == old(bufs.appends) + [a]
      ensures !alive || borrowed ==> unchanged(this, bufs)
      decreases a, 5
    {
      var ran := false;
      panicked := false;
      if alive && !borrowed {
        borrowed := true;
        panicked := bufs.Run(this, cache, a);
        borrowed := false;
        ran := true;
      }
      if !ran {
        var local := new WriterBufs();
        panicked := local.Run(this, cache, a);
      }
    }
  }

  // ---------------------------------------------------------------- the course of an append

  /** For each write whether the append stops at it, the end counting as a last write, and
    * what the append made from inside it records. */
  datatype Course = Course(stops: seq<bool>, inner: seq<seq<Record>>)
  {
    ghost function Stop(i: nat): nat
      decreases |stops| - i
    {
      if i >= |stops| then i else if stops[i] then i else Stop(i + 1)
    }

    ghost function Inner(n: nat): seq<Record>
      requires n <= |inner|
    {
      if n == 0 then [] else Inner(n - 1) + inner[n - 1]
    }
  }

  /** Marks a write whose stop and inner records are wanted: only then are they looked up. */
  ghost predicate Reached(i: nat) { true }

  ghost predicate IsCourse(a: Append, c: Course) {
    && |c.stops| == |a.writes| + 1 && |c.inner| == |a.writes|
    && (forall i {:trigger Reached(i)} :: 0 <= i <= |a.writes| && Reached(i) ==>
          c.stops[i] == StopsAt(a, i) && (i < |a.writes| ==> c.inner[i] == InnerAt(a, i)))
  }

  ghost function CourseOf(a: Append): (c: Course)
    ensures IsCourse(a, c)
    ensures c.Stop(0) == FirstStop(a, 0)
    ensures c.Inner(Entered(a)) == Inner(a, Entered(a))
  {
    var c := Course(seq(|a.writes| + 1, i requires 0 <= i <= |a.writes| => StopsAt(a, i)),
                    seq(|a.writes|, i requires 0 <= i < |a.writes| => InnerAt(a, i)));
    CourseStops(a, c, 0);
    CourseInner(a, c, Entered(a));
    c
  }

  lemma {:induction false} CourseStops(a: Append, c: Course, i: nat)
    requires IsCourse(a, c) && i <= |a.writes| + 1
    ensures c.Stop(i) == FirstStop(a, i)
    decreases |a.writes| + 1 - i
  {
    assert Reached(i);
    if i <= |a.writes| { CourseStops(a, c, i + 1); }
  }

  lemma {:induction false} CourseInner(a: Append, c: Course, n: nat)
    requires IsCourse(a, c) && n <= |a.writes|
    ensures c.Inner(n) == Inner(a, n)
  {
    if n > 0 {
      assert Reached(n - 1);
      CourseInner(a, c, n - 1);
    }
  }

  lemma {:induction false} HeardIs(a: Append)
    ensures Heard(a) == Inner(a, Entered(a)) + Own(a)
    ensures FirstStop(a, 0) <= |a.writes| ==> Unwinds(a) && Own(a) == []
  {
  }

  lemma {:induction false} AppendsSnoc(appends: seq<Append>, a: Append)
    ensures Widest(appends + [a]) == Max(Widest(appends), |Metrics(a.writes)|)
    ensures Panics(appends + [a]) == Panics(appends) + if Unwinds(a) then 1 else 0
  {
    assert (appends + [a])[..|appends|] == appends;
  }

  // ---------------------------------------------------------------- prefixes of an entry

  /** A prefix of an entry has no more metrics than the entry. */
  lemma {:induction false} MetricsGrow(ws: seq<Write>, n: nat)
    requires n <= |ws|
    ensures |Metrics(ws[..n])| <= |Metrics(ws)|
  {
    if n == |ws| { assert ws[..n] == ws; }
    else {
      MetricsGrow(ws[..|ws| - 1], n);
      assert ws[..|ws| - 1][..n] == ws[..n];
    }
  }

  /** An append made from inside a write adds neither a metric nor an attribute. */
  lemma {:induction false} NestedKeeps(ws: seq<Write>, i: nat)
    requires i < |ws| && ws[i].Reentrant?
    ensures Metrics(ws[..i + 1]) == Metrics(ws[..i])
    ensures Attributes(ws[..i + 1]) == Attributes(ws[..i])
  {
    assert ws[..i + 1][..i] == ws[..i];
  }
}
