/** The strategies that merge one field: how each `insert` changes its accumulator, what a
  * whole run of inserts leaves behind, and how the fields of an entry fold side by side
  * inside the keyed aggregator. */
module ValueStrategies {
  import opened CommonTypes
  import opened KeyedAggregation

  /** `AggregateValue`: the accumulator's default and its insert. */
  datatype ValueStrategy<!V, !A> = ValueStrategy(empty: A, insert: (A, V) -> A)

  function Sum(): ValueStrategy<int, int> {
    ValueStrategy(0, (a: int, v: int) => a + v)
  }

  function KeepLast<V>(): ValueStrategy<V, Option<V>> {
    ValueStrategy(None, (a: Option<V>, v: V) => Some(v))
  }

  function MergeOptions<V, A>(inner: ValueStrategy<V, A>): ValueStrategy<Option<V>, A> {
    ValueStrategy(inner.empty, (a: A, v: Option<V>) => match v case Some(x) => inner.insert(a, x) case None => a)
  }

  function Flatten<S, B, K, M, KE, E>(st: Strategy<S, B, K, M, KE, E>): ValueStrategy<S, M> {
    ValueStrategy(st.newMerged, st.merge)
  }

  /** An accumulator updated in place. */
  class Accum<A> {
    var value: A
    constructor (value: A)
      ensures this.value == value
    { this.value := value; }
  }

  method InsertSum(accum: Accum<int>, value: int)
    modifies accum
    ensures accum.value == Sum().insert(old(accum.value), value)
  {
    accum.value := accum.value + value;
  }

  method InsertKeepLast<V>(accum: Accum<Option<V>>, value: V)
    modifies accum
    ensures accum.value == KeepLast<V>().insert(old(accum.value), value)
  {
    accum.value := Some(value);
  }

  method InsertMergeOptions<V, A>(inner: ValueStrategy<V, A>, accum: Accum<A>, value: Option<V>)
    modifies accum
    ensures accum.value == MergeOptions(inner).insert(old(accum.value), value)
  {
    if value.Some? {
      accum.value := inner.insert(accum.value, value.value);
    }
  }

  /** What a run of inserts leaves in the accumulator. */
  ghost function InsertAll<V, A>(vs: ValueStrategy<V, A>, acc: A, values: seq<V>): A {
    if values == [] then acc
    else vs.insert(InsertAll(vs, acc, values[..|values| - 1]), values[|values| - 1])
  }

  ghost function Total(values: seq<int>): int {
    if values == [] then 0 else values[0] + Total(values[1..])
  }

  lemma {:induction false} TotalSnoc(values: seq<int>, v: int)
    ensures Total(values + [v]) == Total(values) + v
  {
    if values != [] {
      assert (values + [v])[1..] == values[1..] + [v];
      TotalSnoc(values[1..], v);
    }
  }

  /** `Sum` totals everything inserted. */
  lemma {:induction false} SumTotals(values: seq<int>)
    ensures InsertAll(Sum(), 0, values) == Total(values)
  {
    if values != [] {
      SumTotals(values[..|values| - 1]);
      TotalSnoc(values[..|values| - 1], values[|values| - 1]);
      assert values[..|values| - 1] + [values[|values| - 1]] == values;
    }
  }

  /** What each strategy makes of all values from a new accumulator: `Sum` their total, starting
      at zero; `KeepLast` the last one, or none; `MergeOptions` what the wrapped strategy makes
      of the present ones; `Flatten` the nested merge. */
  lemma {:induction false} FromNew<V, A, S, B, K, M, KE, E>(
    ints: seq<int>, values: seq<V>, inner: ValueStrategy<V, A>, options: seq<Option<V>>,
    st: Strategy<S, B, K, M, KE, E>, sources: seq<S>)
    ensures InsertAll(Sum(), Sum().empty, ints) == Total(ints)
    ensures InsertAll(KeepLast(), KeepLast<V>().empty, values) == if values == [] then None else Some(values[|values| - 1])
    ensures InsertAll(MergeOptions(inner), MergeOptions(inner).empty, options) == InsertAll(inner, inner.empty, Present(options))
    ensures InsertAll(Flatten(st), Flatten(st).empty, sources)
         == Fold(st, st.newMerged, seq(|sources|, i requires 0 <= i < |sources| => ByValue(sources[i])))
  {
    SumTotals(ints);
    KeepLastIsLast(None, values);
    MergeOptionsSkipsNone(inner, inner.empty, options);
    FlattenFolds(st, st.newMerged, sources);
  }

  /** `KeepLast` holds the most recent value, whatever came before. */
  lemma {:induction false} KeepLastIsLast<V>(acc: Option<V>, values: seq<V>)
    ensures InsertAll(KeepLast(), acc, values) == if values == [] then acc else Some(values[|values| - 1])
  {
  }

  ghost function Present<V>(values: seq<Option<V>>): seq<V> {
    if values == [] then []
    else
      var front, v := Present(values[..|values| - 1]), values[|values| - 1];
      if v.Some? then front + [v.value] else front
  }

  /** The present values in order, each one once. */
  lemma {:induction false} PresentFront<V>(v: Option<V>, rest: seq<Option<V>>)
    ensures Present([v] + rest) == (match v case Some(x) => [x] case None => []) + Present(rest)
  {
    if rest == [] {
      assert [v] + rest == [v] && [v][..0] == [];
    } else {
      assert ([v] + rest)[..|rest|] == [v] + rest[..|rest| - 1];
      PresentFront(v, rest[..|rest| - 1]);
    }
  }

  /** `MergeOptions` folds exactly the present values with the strategy it wraps. */
  lemma {:induction false} MergeOptionsSkipsNone<V, A>(inner: ValueStrategy<V, A>, acc: A, values: seq<Option<V>>)
    ensures InsertAll(MergeOptions(inner), acc, values) == InsertAll(inner, acc, Present(values))
  {
    if values != [] {
      var front, v := values[..|values| - 1], values[|values| - 1];
      MergeOptionsSkipsNone(inner, acc, front);
      if v.Some? {
        assert (Present(front) + [v.value])[..|Present(front)|] == Present(front);
      }
    }
  }

  // ---------------------------------------------------------------- accumulators in place

  /** One field merged in place, value after value, with `Sum`: its total. */
  method MergeSums(accum: Accum<int>, values: seq<int>)
    modifies accum
    ensures accum.value == old(accum.value) + Total(values)
  {
    for i := 0 to |values|
      invariant accum.value == old(accum.value) + Total(values[..i])
    {
      InsertSum(accum, values[i]);
      TotalSnoc(values[..i], values[i]);
      assert values[..i + 1] == values[..i] + [values[i]];
    }
    assert values[..|values|] == values;
  }

  /** With `KeepLast`: the last value, or what was there if there is none. */
  method MergeLasts<V>(accum: Accum<Option<V>>, values: seq<V>)
    modifies accum
    ensures accum.value == if values == [] then old(accum.value) else Some(values[|values| - 1])
  {
    for i := 0 to |values|
      invariant accum.value == if i == 0 then old(accum.value) else Some(values[i - 1])
    {
      InsertKeepLast(accum, values[i]);
    }
  }

  /** With `MergeOptions`: what the wrapped strategy makes of the present values. */
  method MergePresent<V, A>(inner: ValueStrategy<V, A>, accum: Accum<A>, values: seq<Option<V>>)
    modifies accum
    ensures accum.value == InsertAll(inner, old(accum.value), Present(values))
  {
    var mo := MergeOptions(inner);
    for i := 0 to |values|
      invariant accum.value == InsertAll(mo, old(accum.value), values[..i])
    {
      InsertMergeOptions(inner, accum, values[i]);
      assert values[..i + 1][..i] == values[..i];
    }
    assert values[..|values|] == values;
    MergeOptionsSkipsNone(inner, old(accum.value), values);
  }

  // ---------------------------------------------------------------- fields inside the aggregator

  /** One field of an entry: how to read it off the source and the accumulator. */
  datatype Field<!S, !M, !V, !A> = Field(read: S -> V, of: M -> A, strategy: ValueStrategy<V, A>)

  /** The generated merge inserts the source's field into the accumulator's field, and a new
    * accumulator starts from the field's default. */
  ghost predicate MergesField<S(!new), B, K, M(!new), KE, E, V, A>(
    st: Strategy<S, B, K, M, KE, E>, f: Field<S, M, V, A>)
  {
    && f.of(st.newMerged) == f.strategy.empty
    && (forall m, s :: f.of(st.merge(m, s)) == f.strategy.insert(f.of(m), f.read(s)))
    && (forall m, s :: f.of(st.mergeRef(m, s)) == f.strategy.insert(f.of(m), f.read(s)))
  }

  /** The field's values of one key's pieces, in arrival order. */
  ghost function Column<S, B, K, M, KE, E, V, A>(
    st: Strategy<S, B, K, M, KE, E>, f: Field<S, M, V, A>, ps: seq<Piece<S>>, k: K): seq<V>
  {
    if ps == [] then []
    else
      var front, s := Column(st, f, ps[..|ps| - 1], k), ps[|ps| - 1].source;
      if st.KeyOf(s) == k then front + [f.read(s)] else front
  }

  /** A row's field is the field's own strategy run over that field of the key's sources. */
  lemma {:induction false} FieldOfGroup<S(!new), B, K, M(!new), KE, E, V, A>(
    st: Strategy<S, B, K, M, KE, E>, f: Field<S, M, V, A>, ps: seq<Piece<S>>, k: K)
    requires MergesField(st, f)
    ensures f.of(GroupFold(st, ps, k)) == InsertAll(f.strategy, f.strategy.empty, Column(st, f, ps, k))
  {
    if ps != [] {
      var front, p := ps[..|ps| - 1], ps[|ps| - 1];
      assert ps == front + [p];
      FieldOfGroup(st, f, front, k);
      GroupFoldSnoc(st, front, p, k);
      var c := Column(st, f, front, k);
      assert (c + [f.read(p.source)])[..|c|] == c;
    }
  }

  /** A `Flatten` field folds the nested sources with the nested type's own merge. */
  lemma {:induction false} FlattenFolds<S, B, K, M, KE, E>(st: Strategy<S, B, K, M, KE, E>, acc: M, values: seq<S>)
    ensures InsertAll(Flatten(st), acc, values) == Fold(st, acc, seq(|values|, i requires 0 <= i < |values| => ByValue(values[i])))
  {
    if values != [] {
      var ps := seq(|values|, i requires 0 <= i < |values| => ByValue(values[i]));
      var front := values[..|values| - 1];
      FlattenFolds(st, acc, front);
      assert ps[..|ps| - 1] == seq(|front|, i requires 0 <= i < |front| => ByValue(front[i]));
    }
  }

  // ---------------------------------------------------------------- the order of the fold

  /** Pieces handed over by value go through `merge`, those by reference through `merge_ref`,
      the first one first. */
  lemma {:induction false} FoldFront<S, B, K, M, KE, E>(st: Strategy<S, B, K, M, KE, E>, acc: M, p: Piece<S>, rest: seq<Piece<S>>)
    ensures p.ByValue? ==> Fold(st, acc, [p] + rest) == Fold(st, st.merge(acc, p.source), rest)
    ensures p.ByRef? ==> Fold(st, acc, [p] + rest) == Fold(st, st.mergeRef(acc, p.source), rest)
  {
    if rest == [] {
      assert [p] + rest == [p] && [p][..0] == [];
    } else {
      assert ([p] + rest)[..|rest|] == [p] + rest[..|rest| - 1];
      FoldFront(st, acc, p, rest[..|rest| - 1]);
    }
  }
}
