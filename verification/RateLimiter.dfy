/** The `rate_limited!` macro as it executes: its accesses to `NEXT_CALL` in order, with any
  * number of steps of other threads between two of them. */
module RateLimiter {
  import opened RateLimit

  /** Steps other than those of thread `mine`. */
  ghost predicate OnlyOthers(acts: seq<Action>, mine: nat) {
    forall i :: 0 <= i < |acts| ==> acts[i].Enter? || acts[i].t != mine
  }

  lemma {:induction false} AfterOne(s: State, acts: seq<Action>, a: Action)
    ensures After(s, acts + [a]) == Step(After(s, acts), a)
  {
    assert (acts + [a])[..|acts|] == acts;
  }

  lemma {:induction false} OthersLeaveAlone(s: State, acts: seq<Action>, mine: nat)
    requires OnlyOthers(acts, mine) && mine < |s.threads|
    ensures var s' := After(s, acts);
            |s.threads| <= |s'.threads| && s'.threads[mine] == s.threads[mine] && |s.calls| <= |s'.calls|
  {
    if acts != [] { OthersLeaveAlone(s, acts[..|acts| - 1], mine); }
  }

  class RateLimiter {
    var nextCall: nat
    var threads: seq<Phase>
    /** The calls made, which are what the macro does. */
    var calls: seq<Call>
    /** The steps taken so far. */
    ghost var log: seq<Action>

    ghost function Abs(): State
      reads this
    {
      State(nextCall, threads, calls)
    }

    ghost predicate Valid()
      reads this
    {
      Abs() == After(Init, log)
    }

    constructor ()
      ensures Valid() && log == [] && nextCall == 0
    {
      nextCall, threads, calls, log := 0, [], [], [];
    }

    /** This step of the protocol was taken. */
    twostate predicate Did(a: Action)
      reads this
    {
      log == old(log) + [a] && Abs() == Step(old(Abs()), a)
    }

    /** A thread reaches the macro; the assertion on the interval panics below a second. */
    method Begin(interval: Duration) returns (t: nat)
      requires Valid()
      modifies this
      ensures Valid() && Did(Enter(interval))
      ensures t == |old(threads)| < |threads|
      ensures threads[t] == if interval.seconds >= 1 then Entered(interval) else Panicked
    {
      t := |threads|;
      AfterOne(Init, log, Enter(interval));
      threads := threads + [if interval.seconds >= 1 then Entered(interval) else Panicked];
      log := log + [Enter(interval)];
    }

    method Clock(t: nat, time: Duration)
      requires Valid() && t < |threads| && threads[t].Entered?
      modifies this
      ensures Valid() && Did(ReadTime(t, time)) && calls == old(calls)
    {
      AfterOne(Init, log, ReadTime(t, time));
      threads := threads[t := Timed(threads[t].interval, time)];
      log := log + [ReadTime(t, time)];
    }

    /** `NEXT_CALL.load` and the check against the time read before. */
    method LoadAndCheck(t: nat) returns (go: bool)
      requires Valid() && t < |threads| && threads[t].Timed?
      modifies this
      ensures Valid() && Did(Load(t)) && calls == old(calls)
      ensures go == threads[t].Loaded?
      ensures if go then threads[t].seen == |calls| else nextCall > old(threads[t]).time.seconds
    {
      AfterOne(Init, log, Load(t));
      var seen := |calls|;
      var p := threads[t];
      go := nextCall <= p.time.seconds;
      threads := threads[t := if go then Loaded(p.interval, p.time, nextCall, seen) else Skipped];
      log := log + [Load(t)];
    }

    /** `NEXT_CALL.compare_exchange`. */
    method CompareExchange(t: nat) returns (ok: bool)
      requires Valid() && t < |threads| && threads[t].Loaded?
      modifies this
      ensures Valid() && Did(Exchange(t))
      ensures ok == threads[t].Called?
    {
      AfterOne(Init, log, Exchange(t));
      var p := threads[t];
      ok := nextCall == p.next;
      if ok {
        nextCall := Later(p.time, p.interval).seconds;
        calls := calls + [Call(p.time, p.interval)];
        threads := threads[t := Called];
      } else {
        threads := threads[t := Skipped];
      }
      log := log + [Exchange(t)];
    }

    /** The step another thread `u` is ready for. */
    method Advance(u: nat) returns (ghost a: Action)
      requires Valid() && u < |threads|
      modifies this
      ensures Valid()
      ensures log == old(log) || (log == old(log) + [a] && !a.Enter? && a.t == u)
    {
      a := Load(u);
      match threads[u]
      case Entered(_) =>
        var time: Duration := *;
        Clock(u, time);
        a := ReadTime(u, time);
      case Timed(_, _) => var _ := LoadAndCheck(u);
      case Loaded(_, _, _, _) =>
        var _ := CompareExchange(u);
        a := Exchange(u);
      case _ =>
    }

    /** Other threads run for a while. */
    method Others(mine: nat)
      requires Valid() && mine < |threads|
      modifies this
      ensures Valid() && old(log) <= log
      ensures mine < |threads| && threads[mine] == old(threads[mine])
      ensures |old(calls)| <= |calls|
    {
      ghost var past, before := log, Abs();
      ghost var more: seq<Action> := [];
      var steps: nat := *;
      while steps > 0
        invariant Valid() && log == past + more && OnlyOthers(more, mine)
      {
        var u: nat := *;
        if u != mine && u < |threads| {
          ghost var had := log;
          ghost var a := Advance(u);
          if log != had { more := more + [a]; }
        } else {
          var interval: Duration := *;
          var _ := Begin(interval);
          more := more + [Enter(interval)];
        }
        steps := steps - 1;
      }
      AfterConcat(Init, past, more);
      OthersLeaveAlone(before, more, mine);
    }

    /** The exchange, after other threads ran since the load. It is lost only to a call. */
    method Race(t: nat) returns (called: bool)
      requires Valid() && t < |threads| && threads[t].Loaded? && threads[t].seen == |calls|
      modifies this
      ensures Valid() && old(log) <= log && |old(calls)| <= |calls|
      ensures t < |threads| && threads[t] == if called then Called else Skipped
      ensures called ==> |old(calls)| < |calls|
                         && calls[|calls| - 1] == Call(old(threads[t]).time, old(threads[t]).interval)
      ensures !called ==> |old(calls)| < |calls|
    {
      Others(t);
      EveryRunIsSpaced(log);
      LosesOnlyToACall(Abs(), t);
      called := CompareExchange(t);
    }

    /** The macro's body: whether the call is made. `time` is what the clock said. It is not
        made only if its second has not been reached or another call was made meanwhile. */
    method RateLimited(interval: Duration, time: Duration) returns (called: bool, t: nat)
      requires Valid()
      modifies this
      ensures Valid() && old(log) <= log
      ensures t < |threads|
      ensures interval.seconds < 1 <==> threads[t].Panicked?
      ensures called <==> threads[t].Called?
      ensures called ==> |old(calls)| < |calls| && calls[|calls| - 1] == Call(time, interval)
      ensures !called && interval.seconds >= 1 ==> nextCall > time.seconds || |old(calls)| < |calls|
    {
      t := Begin(interval);
      called := false;
      Others(t);
      if threads[t].Panicked? { return; }
      Clock(t, time);
      Others(t);
      var go := LoadAndCheck(t);
      if go { called := Race(t); }
    }
  }
}
