/** The rate limiter for noisy log call sites: any number of threads race on one atomic
  * holding the second from which the next call may be made. Each atomic access is one step,
  * and durations are whole seconds with nanoseconds, as `std::time::Duration` keeps them. */
module RateLimit {
  import opened CommonTypes

  const SECOND: nat := 1_000_000_000

  datatype SecondsAndNanos = SecondsAndNanos(seconds: nat, nanos: nat)

  type Duration = d: SecondsAndNanos | d.seconds <= U64_MAX && d.nanos < SECOND
    witness SecondsAndNanos(0, 0)

  const MAX: Duration := SecondsAndNanos(U64_MAX, SECOND - 1)

  function Nanos(d: Duration): nat { d.seconds * SECOND + d.nanos }

  /** `time.checked_add(interval).unwrap_or(Duration::MAX)`. */
  function Later(time: Duration, interval: Duration): Duration {
    var carry := if time.nanos + interval.nanos >= SECOND then 1 else 0;
    if time.seconds + interval.seconds + carry > U64_MAX then MAX
    else SecondsAndNanos(time.seconds + interval.seconds + carry, time.nanos + interval.nanos - carry * SECOND)
  }

  /** The sum of the durations, or the longest one if it is longer. */
  lemma {:induction false} LaterAddsUpToMax(time: Duration, interval: Duration)
    ensures Nanos(Later(time, interval))
         == if Nanos(time) + Nanos(interval) <= Nanos(MAX) then Nanos(time) + Nanos(interval) else Nanos(MAX)
  {
  }

  lemma {:induction false} LongestDuration()
    ensures Nanos(MAX) == 18446744073709551615999999999
  {
  }

  /** Where a thread is in the macro's body. `seen` is how many calls had been made when it
    * loaded `NEXT_CALL`. */
  datatype Phase =
    | Entered(interval: Duration)
    | Timed(interval: Duration, time: Duration)
    | Loaded(interval: Duration, time: Duration, next: nat, seen: nat)
    | Called
    | Skipped
    | Panicked

  /** A call that was let through: the time its thread had read, and its interval. */
  datatype Call = Call(time: Duration, interval: Duration)

  datatype State = State(nextCall: nat, threads: seq<Phase>, calls: seq<Call>)

  datatype Action =
    | Enter(interval: Duration)
    | ReadTime(t: nat, time: Duration)
    | Load(t: nat)
    | Exchange(t: nat)

  const Init := State(0, [], [])

  /** One atomic step; a step its thread is not ready for changes nothing. */
  function Step(s: State, a: Action): State {
    match a
    case Enter(interval) =>
      s.(threads := s.threads + [if interval.seconds >= 1 then Entered(interval) else Panicked])
    case ReadTime(t, time) =>
      if t < |s.threads| && s.threads[t].Entered?
      then s.(threads := s.threads[t := Timed(s.threads[t].interval, time)]) else s
    case Load(t) =>
      if t < |s.threads| && s.threads[t].Timed? then
        var p := s.threads[t];
        s.(threads := s.threads[t := if s.nextCall <= p.time.seconds
                                     then Loaded(p.interval, p.time, s.nextCall, |s.calls|) else Skipped])
      else s
    case Exchange(t) =>
      if t < |s.threads| && s.threads[t].Loaded? then
        var p := s.threads[t];
        if s.nextCall == p.next
        then State(Later(p.time, p.interval).seconds, s.threads[t := Called], s.calls + [Call(p.time, p.interval)])
        else s.(threads := s.threads[t := Skipped])
      else s
  }

  function After(s: State, acts: seq<Action>): State {
    if acts == [] then s else Step(After(s, acts[..|acts| - 1]), acts[|acts| - 1])
  }

  // ---------------------------------------------------------------- invariant

  /** What `NEXT_CALL` holds once these calls were made. */
  ghost function NextAfter(calls: seq<Call>): nat {
    if calls == [] then 0
    else Later(calls[|calls| - 1].time, calls[|calls| - 1].interval).seconds
  }

  /** Each call was made at a second no earlier than the call before it demanded. */
  ghost predicate Spaced(calls: seq<Call>) {
    forall i :: 0 <= i < |calls| ==>
                  calls[i].interval.seconds >= 1 && NextAfter(calls[..i]) <= calls[i].time.seconds
  }

  ghost predicate PhaseInv(p: Phase, calls: seq<Call>) {
    match p
    case Entered(interval) => interval.seconds >= 1
    case Timed(interval, _) => interval.seconds >= 1
    case Loaded(interval, time, next, seen) =>
      interval.seconds >= 1 && seen <= |calls| && next == NextAfter(calls[..seen]) && next <= time.seconds
    case _ => true
  }

  ghost predicate Inv(s: State) {
    && s.nextCall == NextAfter(s.calls)
    && Spaced(s.calls)
    && (forall t :: 0 <= t < |s.threads| ==> PhaseInv(s.threads[t], s.calls))
  }

  lemma {:induction false} SpacedSnoc(calls: seq<Call>, c: Call)
    requires Spaced(calls) && c.interval.seconds >= 1 && NextAfter(calls) <= c.time.seconds
    ensures Spaced(calls + [c])
  {
    var all := calls + [c];
    forall i | 0 <= i < |all| ensures all[i].interval.seconds >= 1 && NextAfter(all[..i]) <= all[i].time.seconds {
      assert all[..i] == calls[..i];
      if i == |calls| { assert calls[..i] == calls; }
    }
  }

  lemma {:induction false} PhaseKept(p: Phase, calls: seq<Call>, c: Call)
    requires PhaseInv(p, calls)
    ensures PhaseInv(p, calls + [c])
  {
    if p.Loaded? { assert (calls + [c])[..p.seen] == calls[..p.seen]; }
  }

  lemma {:induction false} ThreadsKept(threads: seq<Phase>, t: nat, calls: seq<Call>, c: Call)
    requires t < |threads|
    requires forall u :: 0 <= u < |threads| ==> PhaseInv(threads[u], calls)
    ensures var after := threads[t := Called];
            forall u :: 0 <= u < |after| ==> PhaseInv(after[u], calls + [c])
  {
    var after := threads[t := Called];
    forall u | 0 <= u < |after| ensures PhaseInv(after[u], calls + [c]) {
      if u != t { PhaseKept(threads[u], calls, c); }
    }
  }

  lemma {:induction false} ExchangeKeepsInv(s: State, t: nat)
    requires Inv(s)
    ensures Inv(Step(s, Exchange(t))) && s.calls <= Step(s, Exchange(t)).calls
  {
    if t < |s.threads| && s.threads[t].Loaded? && s.nextCall == s.threads[t].next {
      var p := s.threads[t];
      var c := Call(p.time, p.interval);
      assert PhaseInv(p, s.calls);
      SpacedSnoc(s.calls, c);
      ThreadsKept(s.threads, t, s.calls, c);
      assert Step(s, Exchange(t)) == State(Later(c.time, c.interval).seconds, s.threads[t := Called], s.calls + [c]);
    }
  }

  lemma {:induction false} StepKeepsInv(s: State, a: Action)
    requires Inv(s)
    ensures Inv(Step(s, a)) && s.calls <= Step(s, a).calls
  {
    match a
    case Exchange(t) => ExchangeKeepsInv(s, t);
    case Load(_) => assert s.calls[..|s.calls|] == s.calls;
    case _ =>
  }

  lemma {:induction false} EveryRunIsSpaced(acts: seq<Action>)
    ensures Inv(After(Init, acts))
  {
    if acts != [] {
      EveryRunIsSpaced(acts[..|acts| - 1]);
      StepKeepsInv(After(Init, acts[..|acts| - 1]), acts[|acts| - 1]);
    }
  }

  // ---------------------------------------------------------------- NEXT_CALL increases

  /** Adding an interval of a second or more moves the second on, unless it is the last one. */
  lemma {:induction false} LaterIsLater(time: Duration, interval: Duration)
    requires interval.seconds >= 1
    ensures Later(time, interval).seconds >= if time.seconds == U64_MAX then U64_MAX else time.seconds + 1
  {
  }

  /** A step makes a call exactly when it changes `NEXT_CALL`, and then raises it, except
    * that once `NEXT_CALL` has reached `u64::MAX` calls leave it there. */
  lemma {:induction false} NextCallIncreases(s: State, a: Action)
    requires Inv(s)
    ensures Step(s, a).calls == s.calls ==> Step(s, a).nextCall == s.nextCall
    ensures Step(s, a).calls != s.calls ==> (Step(s, a).nextCall > s.nextCall <==> s.nextCall < U64_MAX)
    ensures Step(s, a).calls != s.calls && s.nextCall >= U64_MAX ==> Step(s, a).nextCall == U64_MAX
  {
    if a.Exchange? && Step(s, a).calls != s.calls {
      var p := s.threads[a.t];
      assert PhaseInv(p, s.calls);
      LaterIsLater(p.time, p.interval);
    }
  }

  lemma {:induction false} SpacedPrefix(calls: seq<Call>, k: nat)
    requires Spaced(calls) && k <= |calls|
    ensures Spaced(calls[..k])
  {
    assert forall j :: 0 <= j < k ==> calls[..k][..j] == calls[..j];
  }

  /** The last call raised `NEXT_CALL`, unless it was at the limit. */
  lemma {:induction false} LastRaises(calls: seq<Call>)
    requires Spaced(calls) && calls != []
    ensures var before := NextAfter(calls[..|calls| - 1]);
            before <= NextAfter(calls) <= U64_MAX && (before < U64_MAX ==> before < NextAfter(calls))
  {
    var c := calls[|calls| - 1];
    LaterIsLater(c.time, c.interval);
  }

  /** What `NEXT_CALL` holds after each number of these calls. */
  ghost function Nexts(calls: seq<Call>): seq<nat> {
    seq(|calls| + 1, k requires 0 <= k <= |calls| => NextAfter(calls[..k]))
  }

  /** Each value is above the one before it, or both are at the limit. */
  ghost predicate Rising(ns: seq<nat>) {
    forall k :: 0 <= k < |ns| - 1 ==> Raised(ns[k], ns[k + 1])
  }

  ghost predicate Raised(before: nat, after: nat) {
    before <= after <= U64_MAX && (before < U64_MAX ==> before < after)
  }

  lemma {:induction false} RisingFar(ns: seq<nat>, i: nat, j: nat)
    requires Rising(ns) && i < j < |ns|
    ensures Raised(ns[i], ns[j])
  {
    assert Raised(ns[j - 1], ns[j]);
    if i < j - 1 { RisingFar(ns, i, j - 1); }
  }

  lemma {:induction false} CallsRaise(calls: seq<Call>)
    requires Spaced(calls)
    ensures Rising(Nexts(calls))
  {
    forall k | 0 <= k < |calls| ensures Raised(Nexts(calls)[k], Nexts(calls)[k + 1]) {
      var upTo := calls[..k + 1];
      SpacedPrefix(calls, k + 1);
      assert upTo[..k] == calls[..k];
      LastRaises(upTo);
    }
  }

  lemma {:induction false} NextGrows(calls: seq<Call>, i: nat)
    requires Spaced(calls) && i < |calls|
    ensures Raised(NextAfter(calls[..i]), NextAfter(calls))
  {
    CallsRaise(calls);
    RisingFar(Nexts(calls), i, |calls|);
    assert Nexts(calls)[i] == NextAfter(calls[..i]);
    assert calls[..|calls|] == calls;
  }

  /** An exchange fails only if another call was made since the thread's load: some thread
    * always gets through. Before the last second it fails exactly then. */
  lemma {:induction false} LosesOnlyToACall(s: State, t: nat)
    requires Inv(s) && t < |s.threads| && s.threads[t].Loaded?
    ensures Step(s, Exchange(t)).threads[t].Skipped? ==> |s.calls| > s.threads[t].seen
    ensures s.threads[t].next < U64_MAX ==>
              (Step(s, Exchange(t)).threads[t].Skipped? <==> |s.calls| > s.threads[t].seen)
  {
    var p := s.threads[t];
    assert PhaseInv(p, s.calls);
    if |s.calls| == p.seen { assert s.calls[..p.seen] == s.calls; }
    else { NextGrows(s.calls, p.seen); }
  }

  // ---------------------------------------------------------------- spacing of calls

  /** Any later call is at or after the second an earlier call's time plus interval fell in. */
  lemma {:induction false} CallsAreApart(calls: seq<Call>, i: nat, j: nat)
    requires Spaced(calls) && i < j < |calls|
    ensures calls[j].time.seconds >= Later(calls[i].time, calls[i].interval).seconds
  {
    var first := calls[..i + 1];
    assert first[i] == calls[i];
    assert NextAfter(first) == Later(calls[i].time, calls[i].interval).seconds;
    assert NextAfter(calls[..j]) <= calls[j].time.seconds;
    if i + 1 < j {
      var front := calls[..j];
      SpacedPrefix(calls, j);
      NextGrows(front, i + 1);
      assert front[..i + 1] == first;
    }
  }

  /** Passing the check guarantees the full interval exactly when the previous time plus
    * interval is a whole second; in any case less than a second of it is missing. */
  lemma {:induction false} HowMuchIsMissing(time: Duration, interval: Duration)
    requires Nanos(time) + Nanos(interval) <= Nanos(MAX)
    ensures (forall t: Duration :: t.seconds >= Later(time, interval).seconds ==> Nanos(t) >= Nanos(time) + Nanos(interval))
       <==> Later(time, interval).nanos == 0
    ensures forall t: Duration :: t.seconds >= Later(time, interval).seconds ==> Nanos(t) + SECOND > Nanos(time) + Nanos(interval)
  {
    LaterAddsUpToMax(time, interval);
    var whole: Duration := SecondsAndNanos(Later(time, interval).seconds, 0);
    assert whole.seconds >= Later(time, interval).seconds;
  }

  /** The steps of a thread that reads `time` and meets nobody. */
  function Alone(t: nat, time: Duration): seq<Action> {
    [ReadTime(t, time), Load(t), Exchange(t)]
  }

  lemma {:induction false} AfterThree(s: State, a: Action, b: Action, c: Action)
    ensures After(s, [a, b, c]) == Step(Step(Step(s, a), b), c)
  {
    assert [a, b, c][..2] == [a, b] && [a, b][..1] == [a] && [a][..0] == [];
    assert After(s, [a]) == Step(After(s, []), a);
    assert After(s, [a, b]) == Step(After(s, [a]), b);
  }

  lemma {:induction false} AfterConcat(s: State, a: seq<Action>, b: seq<Action>)
    ensures After(s, a + b) == After(After(s, a), b)
  {
    if b == [] { assert a + b == a; }
    else {
      assert (a + b)[..|a + b| - 1] == a + b[..|b| - 1];
      AfterConcat(s, a, b[..|b| - 1]);
    }
  }

  /** Such a thread makes its call if its second has been reached. */
  lemma {:induction false} AloneCalls(s: State, t: nat, interval: Duration, time: Duration)
    requires t < |s.threads| && s.threads[t] == Entered(interval) && s.nextCall <= time.seconds
    ensures After(s, Alone(t, time))
         == State(Later(time, interval).seconds, s.threads[t := Called], s.calls + [Call(time, interval)])
  {
    AfterThree(s, ReadTime(t, time), Load(t), Exchange(t));
    var s1 := Step(s, ReadTime(t, time));
    assert s1.threads[t] == Timed(interval, time);
    var s2 := Step(s1, Load(t));
    assert s2.threads[t] == Loaded(interval, time, s.nextCall, |s.calls|);
    assert s2.threads[t := Called] == s.threads[t := Called];
  }

  /** Two threads enter and call one after the other, the second one as soon as its second
      has begun. */
  function TwoCalls(time: Duration, interval: Duration): seq<Action> {
    [Enter(interval), Enter(interval)] + Alone(0, time)
    + Alone(1, SecondsAndNanos(Later(time, interval).seconds, 0))
  }

  lemma {:induction false} TwoEntered(interval: Duration) returns (s: State)
    requires interval.seconds >= 1
    ensures s == After(Init, [Enter(interval), Enter(interval)]) == State(0, [Entered(interval), Entered(interval)], [])
  {
    var enters := [Enter(interval), Enter(interval)];
    assert enters[..1] == [Enter(interval)] && enters[..1][..0] == [];
    assert After(Init, enters[..1]) == Step(After(Init, []), Enter(interval));
    s := After(Init, enters);
  }

  /** Calls can be closer than the interval: whenever the time of a first call plus the
      interval is not a whole second, there is a run with a second call before that. */
  lemma {:induction false} CallsCanBeClose(time: Duration, interval: Duration)
    requires interval.seconds >= 1 && Nanos(time) + Nanos(interval) <= Nanos(MAX)
    ensures var soon: Duration := SecondsAndNanos(Later(time, interval).seconds, 0);
            && After(Init, TwoCalls(time, interval)).calls == [Call(time, interval), Call(soon, interval)]
            && (Nanos(soon) < Nanos(time) + Nanos(interval) <==> Later(time, interval).nanos != 0)
  {
    var soon: Duration := SecondsAndNanos(Later(time, interval).seconds, 0);
    var enters := [Enter(interval), Enter(interval)];
    var s := TwoEntered(interval);
    AfterConcat(Init, enters, Alone(0, time));
    AloneCalls(s, 0, interval, time);
    var s' := After(s, Alone(0, time));
    assert s'.threads[1] == Entered(interval);
    AfterConcat(Init, enters + Alone(0, time), Alone(1, soon));
    AloneCalls(s', 1, interval, soon);
    LaterAddsUpToMax(time, interval);
  }

  /** Two threads whose clock shows the last second call one after the other. */
  function LastSecond(interval: Duration): seq<Action> {
    [Enter(interval), Enter(interval)] + Alone(0, MAX) + Alone(1, MAX)
  }

  /** Once `NEXT_CALL` is `u64::MAX` a call leaves it there: the run that reaches it makes two
      calls in the same second. */
  lemma {:induction false} LastSecondCallsTwice(interval: Duration)
    requires interval.seconds >= 1
    ensures After(Init, LastSecond(interval)).calls == [Call(MAX, interval), Call(MAX, interval)]
    ensures After(Init, [Enter(interval), Enter(interval)] + Alone(0, MAX)).nextCall == U64_MAX
         == After(Init, LastSecond(interval)).nextCall
  {
    var s := TwoEntered(interval);
    AfterConcat(Init, [Enter(interval), Enter(interval)], Alone(0, MAX));
    AloneCalls(s, 0, interval, MAX);
    var s' := After(s, Alone(0, MAX));
    assert s'.threads[1] == Entered(interval);
    AfterConcat(Init, [Enter(interval), Enter(interval)] + Alone(0, MAX), Alone(1, MAX));
    AloneCalls(s', 1, interval, MAX);
  }

  // ---------------------------------------------------------------- calls in a span of time

  ghost predicate InSpan(c: Call, start: Duration, seconds: nat) {
    Nanos(start) <= Nanos(c.time) <= Nanos(start) + seconds * SECOND
  }

  /** How many of the calls were made in a span of time. */
  ghost function CallsIn(calls: seq<Call>, start: Duration, seconds: nat): nat {
    if calls == [] then 0
    else CallsIn(calls[..|calls| - 1], start, seconds) + if InSpan(calls[|calls| - 1], start, seconds) then 1 else 0
  }

  /** Every interval is at least `every` seconds, and no sum of a time and an interval
    * reaches the longest duration. */
  ghost predicate Regular(calls: seq<Call>, every: nat) {
    forall i :: 0 <= i < |calls| ==>
                  calls[i].interval.seconds >= every && calls[i].time.seconds + calls[i].interval.seconds < U64_MAX
  }

  ghost function Times(n: nat, every: nat): nat { if n == 0 then 0 else Times(n - 1, every) + every }

  lemma {:induction false} NextAfterLast(calls: seq<Call>, every: nat)
    requires calls != [] && Regular(calls, every)
    ensures NextAfter(calls) >= calls[|calls| - 1].time.seconds + every
  {
  }

  /** The last call of the span is late by as many intervals as the span has calls before it. */
  lemma {:induction false} SpanTakesTime(calls: seq<Call>, start: Duration, seconds: nat, every: nat)
    requires Spaced(calls) && Regular(calls, every)
    ensures var n := CallsIn(calls, start, seconds);
            n > 0 ==> NextAfter(calls) >= start.seconds + Times(n, every)
                      && Times(n - 1, every) <= seconds
  {
    if calls != [] {
      var k := |calls| - 1;
      var front, c := calls[..k], calls[k];
      SpacedPrefix(calls, k);
      SpanTakesTime(front, start, seconds, every);
      NextAfterLast(calls, every);
      if InSpan(c, start, seconds) { SpanInSeconds(c, start, seconds); }
    }
  }

  lemma {:induction false} SpanInSeconds(c: Call, start: Duration, seconds: nat)
    requires InSpan(c, start, seconds)
    ensures start.seconds <= c.time.seconds <= start.seconds + seconds
  {
  }

  lemma {:induction false} TimesIsProduct(n: nat, every: nat)
    ensures Times(n, every) == n * every
  {
    if n > 0 { TimesIsProduct(n - 1, every); }
  }

  lemma {:induction false} ProductGrows(q: nat, n: nat, every: nat)
    requires q < n
    ensures n * every >= (q + 1) * every
  {
  }

  lemma {:induction false} TimesFit(n: nat, every: nat, seconds: nat)
    requires every > 0 && Times(n, every) <= seconds
    ensures n <= seconds / every
  {
    TimesIsProduct(n, every);
    if n > seconds / every { ProductGrows(seconds / every, n, every); }
  }

  lemma {:induction false} SpacedCallsFit(calls: seq<Call>, start: Duration, seconds: nat, every: nat)
    requires every > 0 && Spaced(calls) && Regular(calls, every)
    ensures CallsIn(calls, start, seconds) <= seconds / every + 1
  {
    SpanTakesTime(calls, start, seconds, every);
    var n := CallsIn(calls, start, seconds);
    TimesFit(if n > 0 then n - 1 else 0, every, seconds);
  }

  /** In every run, a span of `seconds` seconds sees at most `seconds / every + 1` calls. */
  lemma {:induction false} BoundedCalls(acts: seq<Action>, start: Duration, seconds: nat, every: nat)
    requires every > 0 && Regular(After(Init, acts).calls, every)
    ensures CallsIn(After(Init, acts).calls, start, seconds) <= seconds / every + 1
  {
    EveryRunIsSpaced(acts);
    SpacedCallsFit(After(Init, acts).calls, start, seconds, every);
  }
}
