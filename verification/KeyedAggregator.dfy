/** The keyed aggregator itself: a table updated in place by `merge` and `merge_ref`, and
  * emptied into a sink by `flush`. */
module KeyedAggregator {
  import opened KeyedAggregation

  /** What one flush closed over: the pieces since the previous flush, and the slots in the
    * order in which they were drained. */
  datatype Batch<+S, +K, +M> = Batch(pieces: seq<Piece<S>>, slots: seq<Slot<K, M>>)

  function RowOf<S, B, K, M, KE, E>(st: Strategy<S, B, K, M, KE, E>, slot: Slot<K, M>): Row<KE, E> {
    Row(st.closeKey(slot.key), st.close(slot.accum))
  }

  function RowsOf<S, B, K, M, KE, E>(st: Strategy<S, B, K, M, KE, E>, slots: seq<Slot<K, M>>): (r: seq<Row<KE, E>>)
    ensures |r| == |slots|
    ensures forall i :: 0 <= i < |slots| ==> r[i] == RowOf(st, slots[i])
  {
    seq(|slots|, i requires 0 <= i < |slots| => RowOf(st, slots[i]))
  }

  ghost function Emitted<S, B, K, M, KE, E>(st: Strategy<S, B, K, M, KE, E>, batches: seq<Batch<S, K, M>>): seq<Row<KE, E>>
  {
    if batches == [] then []
    else Emitted(st, batches[..|batches| - 1]) + RowsOf(st, batches[|batches| - 1].slots)
  }

  /** Everything merged before the last flush, in arrival order. */
  ghost function Flushed<S, K, M>(batches: seq<Batch<S, K, M>>): seq<Piece<S>> {
    if batches == [] then [] else Flushed(batches[..|batches| - 1]) + batches[|batches| - 1].pieces
  }

  class KeyedAggregator<S(!new), B, K(!new), M, KE, E> {
    const strategy: Strategy<S, B, K, M, KE, E>
    var storage: seq<Slot<K, M>>
    var sink: seq<Row<KE, E>>
    /** The pieces merged since the last flush. */
    ghost var pending: seq<Piece<S>>
    ghost var batches: seq<Batch<S, K, M>>

    /** The table is the group-by of what arrived since the last flush, and the sink holds,
      * flush by flush, the closed group-by of what had arrived by then. */
    ghost predicate Valid()
      reads this
    {
      && Laws(strategy)
      && Filed(strategy, storage)
      && IsGroupBy(strategy, storage, pending)
      && (forall i :: 0 <= i < |batches| ==> IsGroupBy(strategy, batches[i].slots, batches[i].pieces))
      && sink == Emitted(strategy, batches)
    }

    /** Everything ever merged. */
    ghost function Arrived(): seq<Piece<S>>
      reads this
    {
      Flushed(batches) + pending
    }

    constructor (strategy: Strategy<S, B, K, M, KE, E>)
      requires Laws(strategy)
      ensures Valid() && this.strategy == strategy
      ensures storage == [] && sink == [] && pending == [] && batches == []
    {
      this.strategy := strategy;
      storage, sink := [], [];
      pending, batches := [], [];
    }

    /** The slot for the entry's key, created if no probe finds one. */
    method GetOrCreateAccum(entry: S, full: bool) returns (at: nat)
      modifies this`storage
      ensures storage == Created(strategy, old(storage), entry, full)
      ensures at == Find(strategy, old(storage), strategy.fromSource(entry)) < |storage|
    {
      var borrowedKey := strategy.fromSource(entry);
      var hash := strategy.hashBorrowed(borrowedKey);
      at := 0;
      while at < |storage| && !(storage[at].hash == hash && strategy.matches(storage[at].key, borrowedKey))
        invariant at <= |storage|
        invariant forall j :: 0 <= j < at ==> !Hit(strategy, storage[j], borrowedKey)
      {
        at := at + 1;
      }
      if at == |storage| {
        if full { storage := Rehashed(strategy, storage); }
        storage := storage + [Slot(hash, strategy.staticKey(borrowedKey), strategy.newMerged)];
      }
    }

    method Merge(entry: S, full: bool)
      requires Valid()
      modifies this`storage, this`pending
      ensures Valid()
      ensures storage == Merged(strategy, old(storage), ByValue(entry), full)
      ensures pending == old(pending) + [ByValue(entry)]
    {
      var at := GetOrCreateAccum(entry, full);
      storage := storage[at := storage[at].(accum := strategy.merge(storage[at].accum, entry))];
      MergeRefinesGroupBy(strategy, old(storage), pending, ByValue(entry), full);
      pending := pending + [ByValue(entry)];
    }

    method MergeRef(entry: S, full: bool)
      requires Valid()
      modifies this`storage, this`pending
      ensures Valid()
      ensures storage == Merged(strategy, old(storage), ByRef(entry), full)
      ensures pending == old(pending) + [ByRef(entry)]
    {
      var at := GetOrCreateAccum(entry, full);
      storage := storage[at := storage[at].(accum := strategy.mergeRef(storage[at].accum, entry))];
      MergeRefinesGroupBy(strategy, old(storage), pending, ByRef(entry), full);
      pending := pending + [ByRef(entry)];
    }

    /** One turn of the drain: any slot leaves the table and its closed row enters the sink. */
    method DrainOne(ghost drained: seq<Slot<K, M>>) returns (slot: Slot<K, M>)
      requires storage != []
      requires IsGroupBy(strategy, drained + storage, pending)
      modifies this`storage, this`sink
      ensures slot in old(storage) && |storage| == |old(storage)| - 1
      ensures sink == old(sink) + [RowOf(strategy, slot)]
      ensures IsGroupBy(strategy, drained + [slot] + storage, pending)
    {
      var i :| 0 <= i < |storage|;
      slot := storage[i];
      DrainKeepsGroupBy(strategy, drained, storage, i, pending);
      sink := sink + [RowOf(strategy, slot)];
      storage := storage[..i] + storage[i + 1..];
    }

    /** Drains the table in whatever order it iterates, appending one closed row per slot. */
    method Flush()
      requires Valid()
      modifies this
      ensures Valid()
      ensures storage == [] && pending == []
      ensures |batches| == |old(batches)| + 1 && batches[..|old(batches)|] == old(batches)
      ensures batches[|old(batches)|].pieces == old(pending)
      ensures sink == old(sink) + RowsOf(strategy, batches[|old(batches)|].slots)
      ensures Arrived() == old(Arrived())
    {
      ghost var drained: seq<Slot<K, M>> := [];
      assert drained + storage == storage;
      while storage != []
        invariant IsGroupBy(strategy, drained + storage, pending)
        invariant sink == old(sink) + RowsOf(strategy, drained)
        invariant pending == old(pending) && batches == old(batches)
        decreases |storage|
      {
        var slot := DrainOne(drained);
        assert RowsOf(strategy, drained + [slot]) == RowsOf(strategy, drained) + [RowOf(strategy, slot)];
        drained := drained + [slot];
      }
      assert drained + storage == drained;
      NothingIsGrouped(strategy);
      batches := batches + [Batch(pending, drained)];
      assert batches[..|old(batches)|] == old(batches);
      pending := [];
    }
  }

  /** The empty table is the group-by of nothing. */
  lemma {:induction false} NothingIsGrouped<S(!new), B, K(!new), M, KE, E>(st: Strategy<S, B, K, M, KE, E>)
    ensures IsGroupBy(st, [], [])
  {
  }

  lemma {:induction false} KeyKept<K, M>(t: seq<Slot<K, M>>, r: seq<Slot<K, M>>, from: nat, to: nat, k: K)
    requires from <= to < |t| == |r|
    requires forall j :: 0 <= j < |r| ==>
                           r[j] == t[if j < from || j > to then j else if j == from then to else j - 1]
    ensures HasKey(t, k) <==> HasKey(r, k)
  {
    if HasKey(t, k) {
      var i :| 0 <= i < |t| && t[i].key == k;
      var j := if i < from || i > to then i else if i == to then from else i + 1;
      assert r[j] == t[i];
    }
  }

  /** Moving one slot from the table to the drained ones reorders the slots only. */
  lemma {:induction false} DrainKeepsGroupBy<S(!new), B, K(!new), M, KE, E>(
    st: Strategy<S, B, K, M, KE, E>, drained: seq<Slot<K, M>>, t: seq<Slot<K, M>>, i: nat, ps: seq<Piece<S>>)
    requires i < |t|
    requires IsGroupBy(st, drained + t, ps)
    ensures IsGroupBy(st, drained + [t[i]] + (t[..i] + t[i + 1..]), ps)
  {
    var old_, new_ := drained + t, drained + [t[i]] + (t[..i] + t[i + 1..]);
    var from, to := |drained|, |drained| + i;
    assert forall j :: 0 <= j < |new_| ==>
                         new_[j] == old_[if j < from || j > to then j else if j == from then to else j - 1];
    forall k ensures HasKey(new_, k) <==> Seen(st, ps, k) { KeyKept(old_, new_, from, to, k); }
  }

  // ---------------------------------------------------------------- conservation of sums

  /** The strategy sums `amount` over the sources, as `Sum` does. */
  ghost predicate Sums<S(!new), B, K, KE>(st: Strategy<S, B, K, int, KE, int>, amount: S -> int) {
    && st.newMerged == 0
    && (forall m, s :: st.merge(m, s) == m + amount(s) && st.mergeRef(m, s) == m + amount(s))
    && (forall m :: st.close(m) == m)
  }

  /** The total of the rows that carry one closed key. */
  ghost function Collected<KE>(rows: seq<Row<KE, int>>, key: KE): int {
    if rows == [] then 0
    else
      var r := rows[|rows| - 1];
      Collected(rows[..|rows| - 1], key) + if r.key == key then r.aggregated else 0
  }

  /** The total merged under one closed key. */
  ghost function Offered<S, B, K, KE>(st: Strategy<S, B, K, int, KE, int>, amount: S -> int, ps: seq<Piece<S>>, key: KE): int
  {
    if ps == [] then 0
    else
      var s := ps[|ps| - 1].source;
      Offered(st, amount, ps[..|ps| - 1], key) + if st.closeKey(st.KeyOf(s)) == key then amount(s) else 0
  }

  lemma {:induction false} CollectedConcat<KE>(a: seq<Row<KE, int>>, b: seq<Row<KE, int>>, key: KE)
    ensures Collected(a + b, key) == Collected(a, key) + Collected(b, key)
  {
    if b == [] { assert a + b == a; }
    else {
      assert (a + b)[..|a + b| - 1] == a + b[..|b| - 1];
      CollectedConcat(a, b[..|b| - 1], key);
    }
  }

  lemma {:induction false} OfferedConcat<S, B, K, KE>(
    st: Strategy<S, B, K, int, KE, int>, amount: S -> int, a: seq<Piece<S>>, b: seq<Piece<S>>, key: KE)
    ensures Offered(st, amount, a + b, key) == Offered(st, amount, a, key) + Offered(st, amount, b, key)
  {
    if b == [] { assert a + b == a; }
    else {
      assert (a + b)[..|a + b| - 1] == a + b[..|b| - 1];
      OfferedConcat(st, amount, a, b[..|b| - 1], key);
    }
  }

  /** The pieces of every key but one. */
  ghost function Without<S, B, K, M, KE, E>(st: Strategy<S, B, K, M, KE, E>, ps: seq<Piece<S>>, k: K): seq<Piece<S>>
  {
    if ps == [] then []
    else
      var front, p := Without(st, ps[..|ps| - 1], k), ps[|ps| - 1];
      if st.KeyOf(p.source) == k then front else front + [p]
  }

  lemma {:induction false} WithoutKeepsOthers<S, B, K, M, KE, E>(
    st: Strategy<S, B, K, M, KE, E>, ps: seq<Piece<S>>, k: K, other: K)
    ensures Seen(st, Without(st, ps, k), other) <==> Seen(st, ps, other) && other != k
    ensures other != k ==> Group(st, Without(st, ps, k), other) == Group(st, ps, other)
  {
    if ps != [] {
      var front, p := ps[..|ps| - 1], ps[|ps| - 1];
      assert ps == front + [p];
      WithoutKeepsOthers(st, front, k, other);
      SeenSnoc(st, front, p, other);
      SeenSnoc(st, Without(st, front, k), p, other);
      GroupSnoc(st, Without(st, front, k), p, other);
    }
  }

  lemma {:induction false} OfferedSplits<S(!new), B, K, KE>(
    st: Strategy<S, B, K, int, KE, int>, amount: S -> int, ps: seq<Piece<S>>, k: K, key: KE)
    requires Sums(st, amount)
    ensures Offered(st, amount, ps, key)
         == Offered(st, amount, Without(st, ps, k), key) + if st.closeKey(k) == key then GroupFold(st, ps, k) else 0
  {
    if ps != [] {
      var front, p := ps[..|ps| - 1], ps[|ps| - 1];
      assert ps == front + [p];
      OfferedSplits(st, amount, front, k, key);
      GroupFoldSnoc(st, front, p, k);
      OfferedConcat(st, amount, Without(st, front, k), [p], key);
      OfferedConcat(st, amount, front, [p], key);
    }
  }

  /** A table that is the group-by of `ps` holds, under every closed key, exactly the total
    * that was merged under it. */
  lemma {:induction false} GroupByConserves<S(!new), B, K(!new), KE>(
    st: Strategy<S, B, K, int, KE, int>, amount: S -> int, t: seq<Slot<K, int>>, ps: seq<Piece<S>>, key: KE)
    requires Sums(st, amount) && IsGroupBy(st, t, ps)
    ensures Collected(RowsOf(st, t), key) == Offered(st, amount, ps, key)
    decreases |t|
  {
    if t == [] {
      if ps != [] {
        assert Seen(st, ps, st.KeyOf(ps[0].source));
      }
    } else {
      var front, slot := t[..|t| - 1], t[|t| - 1];
      var rest := Without(st, ps, slot.key);
      forall k ensures HasKey(front, k) <==> Seen(st, rest, k) {
        WithoutKeepsOthers(st, ps, slot.key, k);
        LastKeyDropped(t, k);
      }
      forall i | 0 <= i < |front| ensures front[i].accum == GroupFold(st, rest, front[i].key) {
        WithoutKeepsOthers(st, ps, slot.key, front[i].key);
      }
      GroupByConserves(st, amount, front, rest, key);
      OfferedSplits(st, amount, ps, slot.key, key);
      assert RowsOf(st, t)[..|t| - 1] == RowsOf(st, front);
    }
  }

  lemma {:induction false} LastKeyDropped<K, M>(t: seq<Slot<K, M>>, k: K)
    requires t != [] && DistinctKeys(t)
    ensures HasKey(t[..|t| - 1], k) <==> HasKey(t, k) && k != t[|t| - 1].key
  {
    if HasKey(t, k) && k != t[|t| - 1].key {
      var i :| 0 <= i < |t| && t[i].key == k;
      assert t[..|t| - 1][i].key == k;
    }
  }

  lemma {:induction false} FlushesConserve<S(!new), B, K(!new), KE>(
    st: Strategy<S, B, K, int, KE, int>, amount: S -> int, batches: seq<Batch<S, K, int>>, key: KE)
    requires Sums(st, amount)
    requires forall i :: 0 <= i < |batches| ==> IsGroupBy(st, batches[i].slots, batches[i].pieces)
    ensures Collected(Emitted(st, batches), key) == Offered(st, amount, Flushed(batches), key)
  {
    if batches != [] {
      var front, last := batches[..|batches| - 1], batches[|batches| - 1];
      FlushesConserve(st, amount, front, key);
      GroupByConserves(st, amount, last.slots, last.pieces, key);
      CollectedConcat(Emitted(st, front), RowsOf(st, last.slots), key);
      OfferedConcat(st, amount, Flushed(front), last.pieces, key);
    }
  }

  /** Conservation: at any moment, what the sink received under a key plus what is still in
    * the table is everything that was ever merged under it. */
  lemma {:induction false} NothingIsLost<S(!new), B, K(!new), KE>(
    agg: KeyedAggregator<S, B, K, int, KE, int>, amount: S -> int, key: KE)
    requires agg.Valid() && Sums(agg.strategy, amount)
    ensures Collected(agg.sink, key) + Collected(RowsOf(agg.strategy, agg.storage), key)
         == Offered(agg.strategy, amount, agg.Arrived(), key)
  {
    FlushesConserve(agg.strategy, amount, agg.batches, key);
    GroupByConserves(agg.strategy, amount, agg.storage, agg.pending, key);
    OfferedConcat(agg.strategy, amount, Flushed(agg.batches), agg.pending, key);
  }
}
