/** The keyed aggregator's hash table, as operations on values, against a plain
  * group-by. A `Strategy` bundles what the aggregator is generic over: the key
  * extraction with its hashes, and how a source is merged and closed. The table
  * knows a key only by a hash computed beforehand and by a match predicate, and it
  * recomputes hashes from the stored keys whenever it grows. */
module KeyedAggregation {

  /** What `AggregateStrategy`, `Key`, `Merge` and `MergeRef` provide, with the merge
    * configuration already applied to `newMerged`. */
  datatype Strategy<!Source, !Borrowed, !Static, !Merged, +KeyEntry, +Entry> = Strategy(
    fromSource: Source -> Borrowed,
    staticKey: Borrowed -> Static,
    matches: (Static, Borrowed) -> bool,
    hashBorrowed: Borrowed -> nat,
    hashStatic: Static -> nat,
    newMerged: Merged,
    merge: (Merged, Source) -> Merged,
    mergeRef: (Merged, Source) -> Merged,
    closeKey: Static -> KeyEntry,
    close: Merged -> Entry)
  {
    function KeyOf(s: Source): Static { staticKey(fromSource(s)) }
  }

  /** The laws of `Key`: matching is equality of the owned keys, and owning a key does not
    * change its hash, nor do equal keys hash apart. */
  ghost predicate Laws<S(!new), B, K, M, KE, E>(st: Strategy<S, B, K, M, KE, E>) {
    && (forall a: S, b: S ::
          st.matches(st.KeyOf(a), st.fromSource(b)) <==> st.KeyOf(a) == st.KeyOf(b))
    && (forall a: S :: st.hashStatic(st.KeyOf(a)) == st.hashBorrowed(st.fromSource(a)))
  }

  /** One source handed to the aggregator, by value (`merge`) or by reference (`merge_ref`). */
  datatype Piece<+Source> = ByValue(source: Source) | ByRef(source: Source)

  /** An occupied place in the table: the hash it is filed under, its key and accumulator. */
  datatype Slot<+Static, +Merged> = Slot(hash: nat, key: Static, accum: Merged)

  /** An emitted row: the closed key beside the closed accumulator. */
  datatype Row<+KeyEntry, +Entry> = Row(key: KeyEntry, aggregated: Entry)

  // ---------------------------------------------------------------- the reference: group-by

  function Absorb<S, B, K, M, KE, E>(st: Strategy<S, B, K, M, KE, E>, acc: M, p: Piece<S>): M {
    match p case ByValue(s) => st.merge(acc, s) case ByRef(s) => st.mergeRef(acc, s)
  }

  /** Arrival-order fold. */
  ghost function Fold<S, B, K, M, KE, E>(st: Strategy<S, B, K, M, KE, E>, acc: M, ps: seq<Piece<S>>): M
  {
    if ps == [] then acc
    else Absorb(st, Fold(st, acc, ps[..|ps| - 1]), ps[|ps| - 1])
  }

  /** The pieces of one key, in arrival order. */
  ghost function Group<S, B, K, M, KE, E>(st: Strategy<S, B, K, M, KE, E>, ps: seq<Piece<S>>, k: K): seq<Piece<S>>
  {
    if ps == [] then []
    else
      var front := Group(st, ps[..|ps| - 1], k);
      var p := ps[|ps| - 1];
      if st.KeyOf(p.source) == k then front + [p] else front
  }

  /** The value a plain group-by computes for a key that was seen. */
  ghost function GroupFold<S, B, K, M, KE, E>(st: Strategy<S, B, K, M, KE, E>, ps: seq<Piece<S>>, k: K): M
  {
    Fold(st, st.newMerged, Group(st, ps, k))
  }

  ghost predicate Seen<S, B, K, M, KE, E>(st: Strategy<S, B, K, M, KE, E>, ps: seq<Piece<S>>, k: K) {
    exists i :: 0 <= i < |ps| && st.KeyOf(ps[i].source) == k
  }

  ghost predicate DistinctKeys<K, M>(t: seq<Slot<K, M>>) {
    forall i, j :: 0 <= i < j < |t| ==> t[i].key != t[j].key
  }

  ghost predicate HasKey<K, M>(t: seq<Slot<K, M>>, k: K) {
    exists i :: 0 <= i < |t| && t[i].key == k
  }

  /** `t` holds exactly one slot per key seen in `ps`, each with the group-by value. */
  ghost predicate IsGroupBy<S, B, K(!new), M, KE, E>(st: Strategy<S, B, K, M, KE, E>, t: seq<Slot<K, M>>, ps: seq<Piece<S>>)
  {
    && DistinctKeys(t)
    && (forall k :: HasKey(t, k) <==> Seen(st, ps, k))
    && (forall i :: 0 <= i < |t| ==> t[i].accum == GroupFold(st, ps, t[i].key))
  }

  // ---------------------------------------------------------------- the hash table

  /** Whether a probe for `hash` and `b` stops at this slot. */
  predicate Hit<S, B, K, M, KE, E>(st: Strategy<S, B, K, M, KE, E>, slot: Slot<K, M>, b: B) {
    slot.hash == st.hashBorrowed(b) && st.matches(slot.key, b)
  }

  /** The raw-entry lookup: where the probe stops, or the table's size when nothing matches. */
  function Find<S, B, K, M, KE, E>(st: Strategy<S, B, K, M, KE, E>, t: seq<Slot<K, M>>, b: B): (i: nat)
    ensures i <= |t|
    ensures i < |t| ==> Hit(st, t[i], b)
    ensures forall j :: 0 <= j < i ==> !Hit(st, t[j], b)
  {
    if t == [] then 0
    else if Hit(st, t[0], b) then 0
    else
      assert forall j :: 1 <= j < |t| ==> t[j] == t[1..][j - 1];
      1 + Find(st, t[1..], b)
  }

  /** Growing the table files every slot under the hash of its stored key. */
  function Rehashed<S, B, K, M, KE, E>(st: Strategy<S, B, K, M, KE, E>, t: seq<Slot<K, M>>): (r: seq<Slot<K, M>>)
    ensures |r| == |t|
    ensures forall i :: 0 <= i < |t| ==>
                          r[i].key == t[i].key && r[i].accum == t[i].accum && r[i].hash == st.hashStatic(t[i].key)
  {
    seq(|t|, i requires 0 <= i < |t| => t[i].(hash := st.hashStatic(t[i].key)))
  }

  /** The table after `get_or_create_accum`; `full` says that an insertion has to grow it. */
  function Created<S, B, K, M, KE, E>(st: Strategy<S, B, K, M, KE, E>, t: seq<Slot<K, M>>, s: S, full: bool): seq<Slot<K, M>>
  {
    var b := st.fromSource(s);
    if Find(st, t, b) < |t| then t
    else (if full then Rehashed(st, t) else t) + [Slot(st.hashBorrowed(b), st.staticKey(b), st.newMerged)]
  }

  /** The table after `merge` or `merge_ref`. */
  function Merged<S, B, K, M, KE, E>(st: Strategy<S, B, K, M, KE, E>, t: seq<Slot<K, M>>, p: Piece<S>, full: bool): seq<Slot<K, M>>
  {
    var i := Find(st, t, st.fromSource(p.source));
    var c := Created(st, t, p.source, full);
    c[i := c[i].(accum := Absorb(st, c[i].accum, p))]
  }

  /** Every slot's key came from a source, and the slot is filed under that source's hash. */
  ghost predicate Filed<S(!new), B, K, M, KE, E>(st: Strategy<S, B, K, M, KE, E>, t: seq<Slot<K, M>>) {
    forall i :: 0 <= i < |t| ==> FiledSlot(st, t[i])
  }

  ghost predicate FiledSlot<S(!new), B, K, M, KE, E>(st: Strategy<S, B, K, M, KE, E>, slot: Slot<K, M>) {
    exists s: S :: st.KeyOf(s) == slot.key && st.hashBorrowed(st.fromSource(s)) == slot.hash
  }

  /** Under the laws a probe stops at a filed slot exactly when the keys are equal. */
  lemma {:induction false} HitIffSameKey<S(!new), B, K, M, KE, E>(st: Strategy<S, B, K, M, KE, E>, slot: Slot<K, M>, s: S)
    requires Laws(st) && FiledSlot(st, slot)
    ensures Hit(st, slot, st.fromSource(s)) <==> slot.key == st.KeyOf(s)
  {
    var o: S :| st.KeyOf(o) == slot.key && st.hashBorrowed(st.fromSource(o)) == slot.hash;
    assert st.matches(st.KeyOf(o), st.fromSource(s)) <==> st.KeyOf(o) == st.KeyOf(s);
    assert st.hashStatic(st.KeyOf(o)) == st.hashBorrowed(st.fromSource(o));
    assert st.hashStatic(st.KeyOf(s)) == st.hashBorrowed(st.fromSource(s));
  }

  lemma {:induction false} RehashKeepsFiled<S(!new), B, K, M, KE, E>(st: Strategy<S, B, K, M, KE, E>, t: seq<Slot<K, M>>)
    requires Laws(st) && Filed(st, t)
    ensures Filed(st, Rehashed(st, t))
  {
    var r := Rehashed(st, t);
    forall i | 0 <= i < |r| ensures FiledSlot(st, r[i]) {
      assert FiledSlot(st, t[i]);
      var o: S :| st.KeyOf(o) == t[i].key && st.hashBorrowed(st.fromSource(o)) == t[i].hash;
      assert st.hashStatic(st.KeyOf(o)) == st.hashBorrowed(st.fromSource(o));
    }
  }

  /** The lookup by precomputed hash and borrowed key finds the slot of the source's key,
    * and reports it missing exactly when the key is not there. */
  lemma {:induction false} FindsTheKey<S(!new), B, K, M, KE, E>(st: Strategy<S, B, K, M, KE, E>, t: seq<Slot<K, M>>, s: S)
    requires Laws(st) && Filed(st, t) && DistinctKeys(t)
    ensures Find(st, t, st.fromSource(s)) < |t| <==> HasKey(t, st.KeyOf(s))
    ensures forall i :: 0 <= i < |t| && t[i].key == st.KeyOf(s) ==> Find(st, t, st.fromSource(s)) == i
  {
    forall i | 0 <= i < |t| ensures Hit(st, t[i], st.fromSource(s)) <==> t[i].key == st.KeyOf(s) {
      assert FiledSlot(st, t[i]);
      HitIffSameKey(st, t[i], s);
    }
  }

  lemma {:induction false} SeenSnoc<S, B, K, M, KE, E>(st: Strategy<S, B, K, M, KE, E>, ps: seq<Piece<S>>, p: Piece<S>, k: K)
    ensures Seen(st, ps + [p], k) <==> Seen(st, ps, k) || st.KeyOf(p.source) == k
  {
    var all := ps + [p];
    if Seen(st, ps, k) {
      var i :| 0 <= i < |ps| && st.KeyOf(ps[i].source) == k;
      assert all[i] == ps[i];
    }
    assert all[|ps|] == p;
  }

  lemma {:induction false} GroupSnoc<S, B, K, M, KE, E>(st: Strategy<S, B, K, M, KE, E>, ps: seq<Piece<S>>, p: Piece<S>, k: K)
    ensures Group(st, ps + [p], k) == if st.KeyOf(p.source) == k then Group(st, ps, k) + [p] else Group(st, ps, k)
  {
    assert (ps + [p])[..|ps|] == ps;
  }

  lemma {:induction false} GroupFoldSnoc<S, B, K, M, KE, E>(st: Strategy<S, B, K, M, KE, E>, ps: seq<Piece<S>>, p: Piece<S>, k: K)
    ensures GroupFold(st, ps + [p], k)
         == if st.KeyOf(p.source) == k then Absorb(st, GroupFold(st, ps, k), p) else GroupFold(st, ps, k)
  {
    GroupSnoc(st, ps, p, k);
    var g := Group(st, ps, k);
    assert (g + [p])[..|g|] == g;
  }

  lemma {:induction false} GroupOfUnseen<S, B, K, M, KE, E>(st: Strategy<S, B, K, M, KE, E>, ps: seq<Piece<S>>, k: K)
    requires !Seen(st, ps, k)
    ensures Group(st, ps, k) == []
  {
    if ps != [] {
      var front, p := ps[..|ps| - 1], ps[|ps| - 1];
      assert ps == front + [p];
      SeenSnoc(st, front, p, k);
      GroupOfUnseen(st, front, k);
    }
  }

  /** Looking up or creating keeps the table filed and leaves every other slot as it was. */
  lemma {:induction false} CreatedKeepsFiled<S(!new), B, K, M, KE, E>(st: Strategy<S, B, K, M, KE, E>, t: seq<Slot<K, M>>, s: S, full: bool)
    requires Laws(st) && Filed(st, t)
    ensures Filed(st, Created(st, t, s, full))
  {
    RehashKeepsFiled(st, t);
    var b := st.fromSource(s);
    assert FiledSlot(st, Slot(st.hashBorrowed(b), st.staticKey(b), st.newMerged)) by {
      assert st.KeyOf(s) == st.staticKey(b);
    }
  }

  lemma {:induction false} MergedKeepsFiled<S(!new), B, K, M, KE, E>(st: Strategy<S, B, K, M, KE, E>, t: seq<Slot<K, M>>, p: Piece<S>, full: bool)
    requires Laws(st) && Filed(st, t)
    ensures Filed(st, Merged(st, t, p, full))
  {
    CreatedKeepsFiled(st, t, p.source, full);
    var c, r := Created(st, t, p.source, full), Merged(st, t, p, full);
    forall i | 0 <= i < |r| ensures FiledSlot(st, r[i]) {
      assert FiledSlot(st, c[i]);
      var o: S :| st.KeyOf(o) == c[i].key && st.hashBorrowed(st.fromSource(o)) == c[i].hash;
      assert st.KeyOf(o) == r[i].key && st.hashBorrowed(st.fromSource(o)) == r[i].hash;
    }
  }

  /** What one merge does to the slots, by key: the source's key has absorbed the piece,
    * starting from a fresh accumulator if it was missing, and no other key changed. */
  lemma {:induction false} MergedByKey<S(!new), B, K, M, KE, E>(st: Strategy<S, B, K, M, KE, E>, t: seq<Slot<K, M>>, p: Piece<S>, full: bool)
    requires Laws(st) && Filed(st, t) && DistinctKeys(t)
    ensures var r, k := Merged(st, t, p, full), st.KeyOf(p.source);
            && |t| <= |r| && DistinctKeys(r)
            && (HasKey(t, k) ==> |r| == |t|)
            && (!HasKey(t, k) ==> |r| == |t| + 1 && r[|t|].key == k && r[|t|].accum == Absorb(st, st.newMerged, p))
            && (forall i :: 0 <= i < |t| ==> r[i].key == t[i].key)
            && (forall i :: 0 <= i < |t| ==>
                              r[i].accum == if t[i].key == k then Absorb(st, t[i].accum, p) else t[i].accum)
  {
    FindsTheKey(st, t, p.source);
  }

  /** Refinement, one operation: a merge into a table that is the group-by of what arrived
    * gives the group-by of what arrived with the new piece added. */
  lemma {:induction false} MergeRefinesGroupBy<S(!new), B, K(!new), M, KE, E>(st: Strategy<S, B, K, M, KE, E>, t: seq<Slot<K, M>>, ps: seq<Piece<S>>, p: Piece<S>, full: bool)
    requires Laws(st) && Filed(st, t) && IsGroupBy(st, t, ps)
    ensures Filed(st, Merged(st, t, p, full)) && IsGroupBy(st, Merged(st, t, p, full), ps + [p])
  {
    MergedKeepsFiled(st, t, p, full);
    MergedByKey(st, t, p, full);
    var r, k := Merged(st, t, p, full), st.KeyOf(p.source);
    forall k' ensures HasKey(r, k') <==> Seen(st, ps + [p], k') {
      SeenSnoc(st, ps, p, k');
      KeysAfterMerge(t, r, k, k');
    }
    forall i | 0 <= i < |r| ensures r[i].accum == GroupFold(st, ps + [p], r[i].key) {
      GroupFoldSnoc(st, ps, p, r[i].key);
      if i == |t| {
        assert !HasKey(t, k);
        GroupOfUnseen(st, ps, k);
      }
    }
  }

  lemma {:induction false} KeysAfterMerge<K, M>(t: seq<Slot<K, M>>, r: seq<Slot<K, M>>, k: K, k': K)
    requires |t| <= |r| <= |t| + 1
    requires HasKey(t, k) <==> |r| == |t|
    requires |r| == |t| + 1 ==> r[|t|].key == k
    requires forall i :: 0 <= i < |t| ==> r[i].key == t[i].key
    ensures HasKey(r, k') <==> HasKey(t, k') || k' == k
  {
    if HasKey(t, k') {
      var i :| 0 <= i < |t| && t[i].key == k';
      assert r[i].key == k';
    }
    if k' == k && !HasKey(t, k) { assert r[|t|].key == k; }
  }

  // ---------------------------------------------------------------- why the laws are needed

  /** A key whose owned form hashes differently from its borrowed form: the borrowed keys
    * all hash to 0 and the owned keys to 1. */
  function Skewed(): Strategy<int, int, int, int, int, int> {
    Strategy((s: int) => s, (b: int) => b, (k: int, b: int) => k == b, (b: int) => 0, (k: int) => 1,
             0, (m: int, s: int) => m + s, (m: int, s: int) => m + s, (k: int) => k, (m: int) => m)
  }

  lemma {:induction false} SkewedSteps(t: seq<Slot<int, int>>, s: int, full: bool)
    requires forall i :: 0 <= i < |t| ==> t[i].hash == 1 || t[i].key != s
    ensures Merged(Skewed(), t, ByValue(s), full)
         == (if full then Rehashed(Skewed(), t) else t) + [Slot(0, s, s)]
  {
    assert Find(Skewed(), t, s) == |t|;
  }

  /** The law on hashes cannot be dropped: with it alone broken, the sources 0, 1, 0 with a
    * growth at the second insertion leave two slots for one key. */
  lemma {:induction false} HashLawIsNeeded()
    ensures forall a, b :: Skewed().matches(Skewed().KeyOf(a), Skewed().fromSource(b)) <==> Skewed().KeyOf(a) == Skewed().KeyOf(b)
    ensures var t := Merged(Skewed(), Merged(Skewed(), Merged(Skewed(), [], ByValue(0), false), ByValue(1), true), ByValue(0), false);
            !DistinctKeys(t)
  {
    SkewedSteps([], 0, false);
    var t1 := Merged(Skewed(), [], ByValue(0), false);
    SkewedSteps(t1, 1, true);
    var t2 := Merged(Skewed(), t1, ByValue(1), true);
    SkewedSteps(t2, 0, false);
    var t3 := Merged(Skewed(), t2, ByValue(0), false);
    assert t3[0].key == t3[2].key;
  }
}
