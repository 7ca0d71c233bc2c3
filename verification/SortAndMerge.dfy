/** The strategy that keeps all observations and, when closed, sorts them and merges equal ones. */
module SortAndMerge {
  import opened CommonTypes
  import opened ExponentialHistogram

  // ---------------------------------------------------------------- sorting

  predicate Sorted(s: seq<real>) {
    forall i, j :: 0 <= i < j < |s| ==> s[i] <= s[j]
  }

  /** Put `x` behind the elements of a sorted sequence that are not above it. */
  function Place(s: seq<real>, x: real): seq<real> {
    if s != [] && x < s[|s| - 1] then Place(s[..|s| - 1], x) + [s[|s| - 1]] else s + [x]
  }

  function Sort(s: seq<real>): seq<real> {
    if s == [] then [] else Place(Sort(s[..|s| - 1]), s[|s| - 1])
  }

  predicate AtMost(s: seq<real>, bound: real) {
    forall i :: 0 <= i < |s| ==> s[i] <= bound
  }

  lemma {:induction false} PlaceAtMost(s: seq<real>, x: real, bound: real)
    requires AtMost(s, bound) && x <= bound
    ensures AtMost(Place(s, x), bound)
  {
    if s != [] && x < s[|s| - 1] {
      PlaceAtMost(s[..|s| - 1], x, bound);
    }
  }

  lemma {:induction false} PlaceSorts(s: seq<real>, x: real)
    requires Sorted(s)
    ensures Sorted(Place(s, x))
  {
    if s != [] && x < s[|s| - 1] {
      PlaceSorts(s[..|s| - 1], x);
      PlaceAtMost(s[..|s| - 1], x, s[|s| - 1]);
    }
  }

  lemma {:induction false} PlaceAdds(s: seq<real>, x: real)
    ensures multiset(Place(s, x)) == multiset(s) + multiset{x}
  {
    if s != [] && x < s[|s| - 1] {
      PlaceAdds(s[..|s| - 1], x);
      assert s == s[..|s| - 1] + [s[|s| - 1]];
    }
  }

  lemma {:induction false} SortSorts(s: seq<real>)
    ensures Sorted(Sort(s)) && multiset(Sort(s)) == multiset(s)
  {
    if s != [] {
      SortSorts(s[..|s| - 1]);
      PlaceSorts(Sort(s[..|s| - 1]), s[|s| - 1]);
      PlaceAdds(Sort(s[..|s| - 1]), s[|s| - 1]);
      assert s == s[..|s| - 1] + [s[|s| - 1]];
    }
  }

  // ---------------------------------------------------------------- merging equal neighbours

  datatype Run = Run(value: real, count: nat)

  function Cap(n: nat): nat {
    if n > U64_MAX then U64_MAX else n
  }

  /** One more value: it lengthens the last run, whose count saturates, or starts a new one. */
  function AddToRuns(runs: seq<Run>, x: real): seq<Run> {
    if runs != [] && runs[|runs| - 1].value == x then
      runs[..|runs| - 1] + [Run(x, Cap(runs[|runs| - 1].count + 1))]
    else runs + [Run(x, 1)]
  }

  /** Runs of equal neighbours. */
  function Runs(s: seq<real>): seq<Run> {
    if s == [] then [] else AddToRuns(Runs(s[..|s| - 1]), s[|s| - 1])
  }

  function Observed(runs: seq<Run>): seq<Observation> {
    seq(|runs|, i requires 0 <= i < |runs| => RepeatedOf(runs[i].value, runs[i].count))
  }

  ghost predicate Increasing(runs: seq<Run>) {
    forall i, j :: 0 <= i < j < |runs| ==> runs[i].value < runs[j].value
  }

  /** Every run counts its value as often as it occurs in `s`, as far as u64 can count. */
  ghost predicate Counted(runs: seq<Run>, s: seq<real>) {
    forall i :: 0 <= i < |runs| ==> runs[i].count == Cap(multiset(s)[runs[i].value]) && runs[i].count > 0
  }

  ghost predicate HasRun(runs: seq<Run>, x: real) {
    exists i :: 0 <= i < |runs| && runs[i].value == x
  }

  ghost predicate Covered(runs: seq<Run>, s: seq<real>) {
    forall k :: 0 <= k < |s| ==> HasRun(runs, s[k])
  }

  lemma {:induction false} Longer(s: seq<real>)
    requires s != []
    ensures multiset(s) == multiset(s[..|s| - 1]) + multiset{s[|s| - 1]}
  {
    assert s == s[..|s| - 1] + [s[|s| - 1]];
  }

  lemma {:induction false} NotBefore(s: seq<real>, x: real)
    requires forall i :: 0 <= i < |s| ==> s[i] < x
    ensures multiset(s)[x] == 0
  {
    assert x !in multiset(s);
  }

  predicate EndsWith(runs: seq<Run>, x: real) {
    runs != [] && runs[|runs| - 1].value == x
  }

  lemma {:induction false} AddIncreases(runs: seq<Run>, x: real)
    requires Increasing(runs) && (runs != [] ==> runs[|runs| - 1].value <= x)
    ensures Increasing(AddToRuns(runs, x)) && EndsWith(AddToRuns(runs, x), x)
  {
  }

  lemma {:induction false} RunsIncrease(s: seq<real>)
    requires Sorted(s)
    ensures Increasing(Runs(s)) && (if s == [] then Runs(s) == [] else EndsWith(Runs(s), s[|s| - 1]))
  {
    if s != [] {
      RunsIncrease(s[..|s| - 1]);
      AddIncreases(Runs(s[..|s| - 1]), s[|s| - 1]);
    }
  }

  lemma {:induction false} AddCounts(runs: seq<Run>, before: seq<real>, after: seq<real>, x: real)
    requires Increasing(runs) && Counted(runs, before) && (runs != [] ==> runs[|runs| - 1].value <= x)
    requires multiset(after) == multiset(before) + multiset{x}
    requires !EndsWith(runs, x) ==> multiset(before)[x] == 0
    ensures Counted(AddToRuns(runs, x), after)
  {
    var now := AddToRuns(runs, x);
    forall i | 0 <= i < |now|
      ensures now[i].count == Cap(multiset(after)[now[i].value]) && now[i].count > 0
    {
      if i < |now| - 1 {
        assert now[i] == runs[i] && runs[i].value != x;
      }
    }
  }

  lemma {:induction false} RunsCount(s: seq<real>)
    requires Sorted(s)
    ensures Counted(Runs(s), s)
  {
    if s != [] {
      var init, x := s[..|s| - 1], s[|s| - 1];
      RunsCount(init);
      RunsIncrease(init);
      Longer(s);
      if !EndsWith(Runs(init), x) {
        assert forall i :: 0 <= i < |init| ==> init[i] < x;
        NotBefore(init, x);
      }
      AddCounts(Runs(init), init, s, x);
    }
  }

  lemma {:induction false} AddKeepsRun(runs: seq<Run>, x: real, v: real)
    requires HasRun(runs, v) || v == x
    ensures HasRun(AddToRuns(runs, x), v)
  {
    var after := AddToRuns(runs, x);
    if v == x { assert after[|after| - 1].value == x; }
    else {
      var i :| 0 <= i < |runs| && runs[i].value == v;
      assert after[i].value == v;
    }
  }

  lemma {:induction false} RunsCover(s: seq<real>)
    ensures Covered(Runs(s), s)
  {
    if s != [] {
      var init := s[..|s| - 1];
      var before, runs := Runs(init), Runs(s);
      RunsCover(init);
      forall k | 0 <= k < |s| ensures HasRun(runs, s[k]) {
        if k < |init| { assert HasRun(before, init[k]); }
        AddKeepsRun(before, s[|s| - 1], s[k]);
      }
    }
  }

  /** Closing yields strictly increasing values, every recorded value among them, each with
      its exact multiplicity (saturating at u64::MAX). */
  lemma {:induction false} DrainIsExact(values: seq<real>)
    ensures var runs := Runs(Sort(values));
            Increasing(runs) && Counted(runs, values) && Covered(runs, values)
  {
    var sorted := Sort(values);
    SortSorts(values);
    RunsIncrease(sorted);
    RunsCount(sorted);
    RunsCover(sorted);
    forall k | 0 <= k < |values| ensures HasRun(Runs(sorted), values[k]) {
      assert values[k] in multiset(values);
      assert values[k] in multiset(sorted);
      var j :| 0 <= j < |sorted| && sorted[j] == values[k];
    }
  }

  // ---------------------------------------------------------------- recording and replaying

  function Copies(x: real, n: nat): seq<real> {
    seq(n, _ => x)
  }

  /** `n` more occurrences of `x`, and nothing else. */
  lemma {:induction false} CopiesCount(values: seq<real>, x: real, n: nat)
    ensures multiset(values + Copies(x, n)) == multiset(values)[x := multiset(values)[x] + n]
  {
    if n == 0 {
      assert values + Copies(x, 0) == values;
    } else {
      CopiesCount(values, x, n - 1);
      assert values + Copies(x, n) == (values + Copies(x, n - 1)) + [x];
    }
  }

  /** What an observation appends to the stored values. */
  function Store(values: seq<real>, o: Observation): seq<real> {
    match o
    case Unsigned(n) => values + Copies(n as real, 1)
    case Floating(f) => values + Copies(f, 1)
    case Repeated(total, occurrences) =>
      if occurrences > 0 then values + Copies(Mean(total, occurrences), occurrences) else values
  }

  function StoreAll(values: seq<real>, os: seq<Observation>): seq<real> {
    if os == [] then values else Store(StoreAll(values, os[..|os| - 1]), os[|os| - 1])
  }

  /** How often an observation stands for the value `x`: once for a plain value, and as often as
      it says for a total of that many occurrences of `x`. */
  ghost function Occurrences(o: Observation, x: real): nat {
    match o
    case Unsigned(n) => if n as real == x then 1 else 0
    case Floating(f) => if f == x then 1 else 0
    case Repeated(total, occurrences) => if IsTotal(total, x, occurrences) then occurrences else 0
  }

  /** `n` occurrences of `x` have this total. */
  ghost predicate IsTotal(total: real, x: real, n: nat) {
    n > 0 && total == x * n as real
  }

  ghost function AllOccurrences(os: seq<Observation>, x: real): nat {
    if os == [] then 0 else AllOccurrences(os[..|os| - 1], x) + Occurrences(os[|os| - 1], x)
  }

  lemma {:induction false} MeanIff(total: real, n: nat, x: real)
    requires n > 0
    ensures Mean(total, n) == x <==> IsTotal(total, x, n)
  {
    if total == x * n as real { MeanOfRepeated(x, n); }
  }

  lemma {:induction false} StoreCounts(values: seq<real>, o: Observation, x: real)
    ensures multiset(Store(values, o))[x] == multiset(values)[x] + Occurrences(o, x)
  {
    match o
    case Unsigned(n) => CopiesOf(values, n as real, 1, x);
    case Floating(f) => CopiesOf(values, f, 1, x);
    case Repeated(total, n) => StoreRepeated(values, total, n, x);
  }

  lemma {:induction false} StoreRepeated(values: seq<real>, total: real, n: nat, x: real)
    ensures multiset(Store(values, Repeated(total, n)))[x] == multiset(values)[x] + Occurrences(Repeated(total, n), x)
  {
    if n > 0 {
      var mean := Mean(total, n);
      MeanIff(total, n, x);
      assert mean == x <==> IsTotal(total, x, n);
      assert Store(values, Repeated(total, n)) == values + Copies(mean, n);
      CopiesOf(values, mean, n, x);
      assert Occurrences(Repeated(total, n), x) == if mean == x then n else 0;
    }
  }

  lemma {:induction false} CopiesOf(values: seq<real>, y: real, n: nat, x: real)
    ensures multiset(values + Copies(y, n))[x] == multiset(values)[x] + if y == x then n else 0
  {
    CopiesCount(values, y, n);
  }

  /** Adding observations raises the multiplicity of every value by what they say of it. */
  lemma {:induction false} StoreAllCounts(values: seq<real>, os: seq<Observation>, x: real)
    ensures multiset(StoreAll(values, os))[x] == multiset(values)[x] + AllOccurrences(os, x)
  {
    if os != [] {
      StoreAllCounts(values, os[..|os| - 1], x);
      StoreCounts(StoreAll(values, os[..|os| - 1]), os[|os| - 1], x);
    }
  }

  function Expand(runs: seq<Run>): seq<real> {
    if runs == [] then [] else Expand(runs[..|runs| - 1]) + Copies(runs[|runs| - 1].value, runs[|runs| - 1].count)
  }

  lemma {:induction false} ExpandRuns(s: seq<real>)
    requires |s| <= U64_MAX
    ensures Expand(Runs(s)) == s
    ensures Runs(s) != [] ==> 0 < Runs(s)[|Runs(s)| - 1].count <= |s|
  {
    if s != [] {
      var init, x := s[..|s| - 1], s[|s| - 1];
      var before, runs := Runs(init), Runs(s);
      ExpandRuns(init);
      var last := |before| - 1;
      if before != [] && before[last].value == x {
        assert runs[..|runs| - 1] == before[..last];
        assert Copies(x, before[last].count + 1) == Copies(x, before[last].count) + [x];
        assert Expand(before[..last]) + (Copies(x, before[last].count) + [x])
            == (Expand(before[..last]) + Copies(x, before[last].count)) + [x];
      } else {
        assert runs[..|runs| - 1] == before;
        assert Copies(x, 1) == [x];
      }
    }
  }

  lemma {:induction false} StoreRun(values: seq<real>, r: Run)
    ensures Store(values, RepeatedOf(r.value, r.count)) == values + Copies(r.value, r.count)
  {
    if r.count > 0 {
      MeanOfRepeated(r.value, r.count);
    }
  }

  lemma {:induction false} ReplayExpands(values: seq<real>, runs: seq<Run>)
    ensures StoreAll(values, Observed(runs)) == values + Expand(runs)
  {
    if runs != [] {
      var init, last := runs[..|runs| - 1], runs[|runs| - 1];
      ReplayExpands(values, init);
      assert Observed(runs)[..|runs| - 1] == Observed(init);
      StoreRun(values + Expand(init), last);
      assert values + Expand(init) + Copies(last.value, last.count)
          == values + (Expand(init) + Copies(last.value, last.count));
    }
  }

  /** What `drain` returns for the stored values. */
  function Closed(values: seq<real>): seq<Observation> {
    Observed(Runs(Sort(values)))
  }

  /** Replaying a closed histogram appends exactly its values, in sorted order, so the two
      multisets add up. (A vector has fewer than 2^64 elements.) */
  lemma {:induction false} ReplayPreservesMultiset(into: seq<real>, values: seq<real>)
    requires |values| <= U64_MAX
    ensures StoreAll(into, Closed(values)) == into + Sort(values)
    ensures multiset(StoreAll(into, Closed(values))) == multiset(into) + multiset(values)
  {
    SortSorts(values);
    assert |multiset(Sort(values))| == |multiset(values)|;
    ExpandRuns(Sort(values));
    ReplayExpands(into, Runs(Sort(values)));
  }

  class SortAndMergeStrategy {
    var values: seq<real>

    constructor ()
      ensures values == []
    {
      values := [];
    }

    method RecordMany(value: real, count: nat)
      modifies this
      ensures values == old(values) + Copies(value, count)
      ensures multiset(values) == multiset(old(values))[value := multiset(old(values))[value] + count]
    {
      CopiesCount(values, value, count);
      values := values + Copies(value, count);
    }

    /** drain: sort, then one pass that merges equal neighbours. */
    method Drain() returns (observations: seq<Observation>)
      modifies this
      ensures observations == Closed(old(values))
      ensures values == []
    {
      values := Sort(values);
      observations := MergeSorted(values);
      values := [];
    }

    /** The merging pass. */
    static method MergeSorted(sorted: seq<real>) returns (observations: seq<Observation>)
      ensures observations == Observed(Runs(sorted))
    {
      observations := [];
      if sorted == [] {
        return;
      }
      var currentValue, currentCount := sorted[0], 1;
      ghost var done: seq<Run> := [];
      var i := 1;
      assert sorted[..1][..0] == [];
      while i < |sorted|
        invariant 1 <= i <= |sorted|
        invariant Runs(sorted[..i]) == done + [Run(currentValue, currentCount)]
        invariant observations == Observed(done)
      {
        RunsNext(sorted, i, done, Run(currentValue, currentCount));
        if sorted[i] == currentValue {
          currentCount := Cap(currentCount + 1);
        } else {
          ObservedSnoc(done, Run(currentValue, currentCount));
          observations := observations + [RepeatedOf(currentValue, currentCount)];
          done := done + [Run(currentValue, currentCount)];
          currentValue := sorted[i];
          currentCount := 1;
        }
        i := i + 1;
      }
      assert sorted[..i] == sorted;
      ObservedSnoc(done, Run(currentValue, currentCount));
      observations := observations + [RepeatedOf(currentValue, currentCount)];
    }

    /** add_value and the replay of a closed histogram. */
    method AddValue(distribution: seq<Observation>)
      modifies this
      ensures values == StoreAll(old(values), distribution)
      ensures forall x :: multiset(values)[x] == multiset(old(values))[x] + AllOccurrences(distribution, x)
    {
      var i := 0;
      while i < |distribution|
        invariant 0 <= i <= |distribution|
        invariant values == StoreAll(old(values), distribution[..i])
      {
        match distribution[i] {
          case Unsigned(n) => RecordMany(n as real, 1);
          case Floating(f) => RecordMany(f, 1);
          case Repeated(total, occurrences) =>
            if occurrences > 0 {
              RecordMany(Mean(total, occurrences), occurrences);
            }
        }
        assert distribution[..i + 1][..i] == distribution[..i];
        i := i + 1;
      }
      assert distribution[..i] == distribution;
      forall x ensures multiset(values)[x] == multiset(old(values))[x] + AllOccurrences(distribution, x) {
        StoreAllCounts(old(values), distribution, x);
      }
    }
  }

  /** The runs of a prefix, with its last run at hand, after one more value. */
  lemma {:induction false} RunsNext(s: seq<real>, i: nat, done: seq<Run>, last: Run)
    requires i < |s| && Runs(s[..i]) == done + [last]
    ensures Runs(s[..i + 1]) == if s[i] == last.value then done + [Run(last.value, Cap(last.count + 1))]
                                else done + [last] + [Run(s[i], 1)]
  {
    assert s[..i + 1][..i] == s[..i];
    assert (done + [last])[..|done|] == done;
  }

  lemma {:induction false} ObservedSnoc(runs: seq<Run>, r: Run)
    ensures Observed(runs + [r]) == Observed(runs) + [RepeatedOf(r.value, r.count)]
  {
  }
}
