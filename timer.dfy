/** A model of the stopwatch `timer::Timer` and of the two `latency` helpers.

    A timer holds an accumulator and two clock instants. `start` records an
    instant, `stop` records another one and adds the time between the two to
    the accumulator, `zero` clears the accumulator, and `elapsed` reports it.

    The clock is not read here: every operation that reads it takes the
    reading as a parameter `now`, counted in integer ticks since the clock's
    epoch. Durations are integer ticks too. The steady-clock requirement of
    the source becomes a precondition: a reading is never earlier than an
    instant the timer already holds.

    The module has two layers. `Snapshot` and the transition functions
    `Started`, `Stopped` and `Zeroed` describe the three fields as a value,
    and the lemmas about `Run` state what the documented contracts promise
    over whole histories of calls. The class `Timer` updates its fields in
    place, and every method states its new state through those functions. */
module Timer {

  /** The instant a default-constructed time point holds: the clock's epoch. */
  const Epoch: int := 0

  // ---------------------------------------------------------------------------
  // Intervals

  /** One measured interval, from the recorded start instant to a stop instant. */
  datatype Interval = Interval(from: int, to: int)

  function Length(iv: Interval): int
  {
    iv.to - iv.from
  }

  /** No interval ends before it begins. */
  predicate Forward(ivs: seq<Interval>)
  {
    forall i :: 0 <= i < |ivs| ==> ivs[i].from <= ivs[i].to
  }

  /** The total length of a sequence of intervals. */
  function Sum(ivs: seq<Interval>): int
  {
    if ivs == [] then 0 else Length(ivs[0]) + Sum(ivs[1..])
  }

  lemma {:induction false} SumNonNegative(ivs: seq<Interval>)
    requires Forward(ivs)
    ensures Sum(ivs) >= 0
  {
    if ivs != [] {
      assert Forward(ivs[1..]) by {
        forall i | 0 <= i < |ivs[1..]| ensures ivs[1..][i].from <= ivs[1..][i].to {
          assert ivs[1..][i] == ivs[i + 1];
        }
      }
      SumNonNegative(ivs[1..]);
    }
  }

  lemma {:induction false} SumConcat(a: seq<Interval>, b: seq<Interval>)
    ensures Sum(a + b) == Sum(a) + Sum(b)
  {
    if a == [] {
      assert a + b == b;
    } else {
      assert (a + b)[0] == a[0];
      assert (a + b)[1..] == a[1..] + b;
      SumConcat(a[1..], b);
    }
  }

  // ---------------------------------------------------------------------------
  // The timer's fields as a value, and what each operation does to them

  /** `m_accumulated`, `m_start` and `m_stop`. */
  datatype Snapshot = Snapshot(accumulated: int, start: int, stop: int)

  /** The most recent clock reading the timer holds. */
  function Latest(s: Snapshot): int
  {
    if s.start <= s.stop then s.stop else s.start
  }

  /** `Timer()`: nothing accumulated; both instants are default time points. */
  function Created(): Snapshot
  {
    Snapshot(0, Epoch, Epoch)
  }

  /** `start()` at reading `now`. */
  function Started(s: Snapshot, now: int): Snapshot
  {
    s.(start := now)
  }

  /** `stop()` at reading `now`. */
  function Stopped(s: Snapshot, now: int): Snapshot
  {
    s.(stop := now, accumulated := s.accumulated + (now - s.start))
  }

  /** `zero()`. */
  function Zeroed(s: Snapshot): Snapshot
  {
    s.(accumulated := 0)
  }

  /** `elapsed()`. */
  function ElapsedOf(s: Snapshot): int
  {
    s.accumulated
  }

  // ---------------------------------------------------------------------------
  // Histories of calls

  /** One mutating call on a timer, with the clock reading it takes. */
  datatype Op = Start(at: int) | Stop(at: int) | Zero

  /** Whether the call reads the clock. */
  predicate ReadsClock(op: Op)
  {
    !op.Zero?
  }

  function Apply(s: Snapshot, op: Op): Snapshot
  {
    match op
    case Start(t) => Started(s, t)
    case Stop(t) => Stopped(s, t)
    case Zero => Zeroed(s)
  }

  /** The state after the calls `ops`, made in order from `s`. */
  function Run(s: Snapshot, ops: seq<Op>): Snapshot
    decreases |ops|
  {
    if ops == [] then s else Run(Apply(s, ops[0]), ops[1..])
  }

  /** The clock is steady along `ops`: no reading is earlier than an instant
      `s` already holds, nor earlier than a reading made before it. */
  predicate Steady(s: Snapshot, ops: seq<Op>)
  {
    (forall i :: 0 <= i < |ops| && ReadsClock(ops[i]) ==> Latest(s) <= ops[i].at) &&
    (forall i, j :: 0 <= i < j < |ops| && ReadsClock(ops[i]) && ReadsClock(ops[j]) ==>
       ops[i].at <= ops[j].at)
  }

  /** No call in `ops` is a `zero()`. */
  predicate NoZero(ops: seq<Op>)
  {
    forall i :: 0 <= i < |ops| ==> !ops[i].Zero?
  }

  /** Only `start()` calls: nothing is stopped and nothing is reset. */
  predicate OnlyStarts(ops: seq<Op>)
  {
    forall i :: 0 <= i < |ops| ==> ops[i].Start?
  }

  /** The calls `start(); stop();` once per interval, in order. */
  function Cycles(ivs: seq<Interval>): seq<Op>
  {
    if ivs == [] then [] else [Start(ivs[0].from), Stop(ivs[0].to)] + Cycles(ivs[1..])
  }

  lemma {:induction false} RunConcat(s: Snapshot, a: seq<Op>, b: seq<Op>)
    ensures Run(s, a + b) == Run(Run(s, a), b)
    decreases |a|
  {
    if a == [] {
      assert a + b == b;
    } else {
      assert (a + b)[0] == a[0];
      assert (a + b)[1..] == a[1..] + b;
      RunConcat(Apply(s, a[0]), a[1..], b);
    }
  }

  /** A steady history stays steady after its first call: the instant that
      call stores is its own reading. */
  lemma SteadyTail(s: Snapshot, ops: seq<Op>)
    requires ops != [] && Steady(s, ops)
    ensures Steady(Apply(s, ops[0]), ops[1..])
  {
    var s' := Apply(s, ops[0]);
    var rest := ops[1..];
    forall i | 0 <= i < |rest| && ReadsClock(rest[i]) ensures Latest(s') <= rest[i].at {
      assert rest[i] == ops[i + 1];
    }
    forall i, j | 0 <= i < j < |rest| && ReadsClock(rest[i]) && ReadsClock(rest[j])
      ensures rest[i].at <= rest[j].at
    {
      assert rest[i] == ops[i + 1] && rest[j] == ops[j + 1];
    }
  }

  /** A steady history is steady from every point on. */
  lemma {:induction false} SteadySplit(s: Snapshot, a: seq<Op>, b: seq<Op>)
    requires Steady(s, a + b)
    ensures Steady(Run(s, a), b)
    decreases |a|
  {
    if a == [] {
      assert a + b == b;
    } else {
      assert (a + b)[0] == a[0];
      assert (a + b)[1..] == a[1..] + b;
      SteadyTail(s, a + b);
      SteadySplit(Apply(s, a[0]), a[1..], b);
    }
  }

  // ---------------------------------------------------------------------------
  // What the documented contracts promise, over whole histories

  /** With a steady clock and no `zero()`, the accumulator never decreases. */
  lemma {:induction false} RunNeverDecreases(s: Snapshot, ops: seq<Op>)
    requires Steady(s, ops) && NoZero(ops)
    ensures ElapsedOf(Run(s, ops)) >= ElapsedOf(s)
    decreases |ops|
  {
    if ops != [] {
      SteadyTail(s, ops);
      assert NoZero(ops[1..]) by {
        forall i | 0 <= i < |ops[1..]| ensures !ops[1..][i].Zero? {
          assert ops[1..][i] == ops[i + 1];
        }
      }
      RunNeverDecreases(Apply(s, ops[0]), ops[1..]);
    }
  }

  /** Between two `zero()` calls of one steady history, `elapsed()` observed
      after `i` calls is at most `elapsed()` observed after `j >= i` calls. */
  lemma MonotoneBetweenZeros(s: Snapshot, ops: seq<Op>, i: nat, j: nat)
    requires Steady(s, ops)
    requires i <= j <= |ops| && NoZero(ops[i..j])
    ensures ElapsedOf(Run(s, ops[..i])) <= ElapsedOf(Run(s, ops[..j]))
  {
    assert ops[..j] == ops[..i] + ops[i..j];
    assert ops == ops[..i] + ops[i..];
    SteadySplit(s, ops[..i], ops[i..]);
    var m := Run(s, ops[..i]);
    assert ops[i..] == ops[i..j] + ops[j..];
    assert Steady(m, ops[i..j]) by {
      var mid := ops[i..j];
      var rest := ops[i..];
      forall k | 0 <= k < |mid| && ReadsClock(mid[k]) ensures Latest(m) <= mid[k].at {
        assert mid[k] == rest[k];
      }
      forall k, l | 0 <= k < l < |mid| && ReadsClock(mid[k]) && ReadsClock(mid[l])
        ensures mid[k].at <= mid[l].at
      {
        assert mid[k] == rest[k] && mid[l] == rest[l];
      }
    }
    RunConcat(s, ops[..i], ops[i..j]);
    RunNeverDecreases(m, ops[i..j]);
  }

  /** With a steady clock the accumulator is never negative. */
  lemma {:induction false} RunNonNegative(s: Snapshot, ops: seq<Op>)
    requires ElapsedOf(s) >= 0 && Steady(s, ops)
    ensures ElapsedOf(Run(s, ops)) >= 0
    decreases |ops|
  {
    if ops != [] {
      SteadyTail(s, ops);
      RunNonNegative(Apply(s, ops[0]), ops[1..]);
    }
  }

  /** Every state a steady history of a new timer passes through has a
      non-negative accumulator. */
  lemma CreatedNeverNegative(ops: seq<Op>, k: nat)
    requires Steady(Created(), ops) && k <= |ops|
    ensures ElapsedOf(Run(Created(), ops[..k])) >= 0
  {
    assert ops == ops[..k] + ops[k..];
    assert Steady(Created(), ops[..k]) by {
      var pre := ops[..k];
      forall i | 0 <= i < |pre| && ReadsClock(pre[i]) ensures Latest(Created()) <= pre[i].at {
        assert pre[i] == ops[i];
      }
      forall i, j | 0 <= i < j < |pre| && ReadsClock(pre[i]) && ReadsClock(pre[j])
        ensures pre[i].at <= pre[j].at
      {
        assert pre[i] == ops[i] && pre[j] == ops[j];
      }
    }
    RunNonNegative(Created(), ops[..k]);
  }

  /** Completed start/stop cycles add the lengths of their intervals. */
  lemma {:induction false} CyclesAccumulate(s: Snapshot, ivs: seq<Interval>)
    ensures ElapsedOf(Run(s, Cycles(ivs))) == ElapsedOf(s) + Sum(ivs)
    decreases |ivs|
  {
    if ivs != [] {
      var pair := [Start(ivs[0].from), Stop(ivs[0].to)];
      RunConcat(s, pair, Cycles(ivs[1..]));
      var s1 := Started(s, ivs[0].from);
      var s2 := Stopped(s1, ivs[0].to);
      assert pair[1..] == [Stop(ivs[0].to)] && pair[1..][1..] == [];
      assert Run(s1, pair[1..]) == Run(s2, []);
      assert Run(s, pair) == s2;
      CyclesAccumulate(s2, ivs[1..]);
    }
  }

  /** After any history, a `zero()` and then completed start/stop cycles,
      `elapsed()` is exactly the total length of those cycles' intervals. */
  lemma SinceLastZero(s: Snapshot, before: seq<Op>, ivs: seq<Interval>)
    ensures ElapsedOf(Run(s, before + [Zero] + Cycles(ivs))) == Sum(ivs)
  {
    RunConcat(s, before + [Zero], Cycles(ivs));
    RunConcat(s, before, [Zero]);
    CyclesAccumulate(Run(s, before + [Zero]), ivs);
  }

  /** `start()` calls alone leave the accumulator as it was: time in a running,
      unstopped interval is not part of `elapsed()`. The last call decides
      the recorded start instant. */
  lemma {:induction false} StartsKeepAccumulator(s: Snapshot, ops: seq<Op>)
    requires OnlyStarts(ops)
    ensures ElapsedOf(Run(s, ops)) == ElapsedOf(s)
    ensures Run(s, ops).stop == s.stop
    ensures Run(s, ops).start == if ops == [] then s.start else ops[|ops| - 1].at
    decreases |ops|
  {
    if ops != [] {
      assert OnlyStarts(ops[1..]) by {
        forall i | 0 <= i < |ops[1..]| ensures ops[1..][i].Start? {
          assert ops[1..][i] == ops[i + 1];
        }
      }
      StartsKeepAccumulator(Apply(s, ops[0]), ops[1..]);
      if |ops| > 1 {
        assert ops[1..][|ops[1..]| - 1] == ops[|ops| - 1];
      }
    }
  }

  /** Starting twice without a stop discards the first, unstopped interval:
      the stop measures from the second start only. */
  lemma RestartDiscardsUnstopped(s: Snapshot, first: int, second: int, end: int)
    ensures ElapsedOf(Run(s, [Start(first), Start(second), Stop(end)])) ==
            ElapsedOf(s) + (end - second)
  {
    RunConcat(s, [Start(first), Start(second)], [Stop(end)]);
    StartsKeepAccumulator(s, [Start(first), Start(second)]);
    assert [Start(first), Start(second)] + [Stop(end)] == [Start(first), Start(second), Stop(end)];
  }

  /** A second `stop()` with no `start()` in between measures again from the
      same recorded start instant. */
  lemma StopWhilePausedRemeasures(s: Snapshot, begin: int, first: int, second: int)
    ensures ElapsedOf(Run(s, [Start(begin), Stop(first), Stop(second)])) ==
            ElapsedOf(s) + (first - begin) + (second - begin)
  {
    var ops := [Start(begin), Stop(first), Stop(second)];
    var s1 := Started(s, begin);
    var s2 := Stopped(s1, first);
    var s3 := Stopped(s2, second);
    assert ops[1..] == [Stop(first), Stop(second)];
    assert ops[1..][1..] == [Stop(second)] && ops[1..][1..][1..] == [];
    assert Run(s2, ops[1..][1..]) == Run(s3, []);
    assert Run(s1, ops[1..]) == Run(s2, ops[1..][1..]);
  }

  // ---------------------------------------------------------------------------
  // The class

  /** The stopwatch. `running` and `Intervals` are not part of the source's
      fields: they record whether the timer was last started or stopped, and
      the intervals that `Stop` added since creation or the last `Zero`. */
  class Timer {
    var accumulated: int
    var start: int
    var stop: int

    ghost var running: bool
    ghost var Intervals: seq<Interval>

    ghost predicate Valid()
      reads this
    {
      Forward(Intervals) && accumulated == Sum(Intervals)
    }

    /** The three fields, as a value. */
    function View(): Snapshot
      reads this
    {
      Snapshot(accumulated, start, stop)
    }

    /** A paused timer with no accumulated time. */
    constructor ()
      ensures Valid() && View() == Created()
      ensures !running && Intervals == []
      ensures Elapsed() == 0
    {
      accumulated, start, stop := 0, Epoch, Epoch;
      running, Intervals := false, [];
    }

    /** The accumulated time: the total of the intervals stopped since
        creation or the last `Zero`, and never negative. Time since a start
        that has not been stopped yet is not included. */
    function Elapsed(): (d: int)
      reads this
      requires Valid()
      ensures d == Sum(Intervals) && d >= 0
      ensures d == ElapsedOf(View())
    {
      SumNonNegative(Intervals);
      accumulated
    }

    /** Records the start instant; nothing else changes. */
    method Start(now: int)
      requires Valid() && Latest(View()) <= now
      modifies this
      ensures Valid() && View() == Started(old(View()), now)
      ensures running && Intervals == old(Intervals)
      ensures Elapsed() == old(Elapsed())
    {
      start := now;
      running := true;
    }

    /** Records the stop instant, adds the time since the recorded start to
        the accumulator and returns the new accumulator. */
    method Stop(now: int) returns (total: int)
      requires Valid() && Latest(View()) <= now
      modifies this
      ensures Valid() && View() == Stopped(old(View()), now)
      ensures !running && Intervals == old(Intervals) + [Interval(old(start), now)]
      ensures total == Elapsed() == old(Elapsed()) + (now - old(start))
      ensures total >= old(Elapsed())
    {
      SumConcat(Intervals, [Interval(start, now)]);
      stop := now;
      accumulated := accumulated + (stop - start);
      running := false;
      Intervals := Intervals + [Interval(start, now)];
      total := accumulated;
    }

    /** Resets the accumulator to 0 without starting or stopping the timer. */
    method Zero()
      requires Valid()
      modifies this
      ensures Valid() && View() == Zeroed(old(View()))
      ensures start == old(start) && stop == old(stop) && running == old(running)
      ensures Intervals == [] && Elapsed() == 0
    {
      accumulated := 0;
      Intervals := [];
    }

    /** The latency of one call: a fresh timer is started at reading `before`,
        the call runs, and the timer is stopped at reading `after`. */
    static method Latency(before: int, after: int) returns (d: int)
      requires Epoch <= before <= after
      ensures d == after - before && d >= 0
    {
      var t := new Timer();
      t.Start(before);
      d := t.Stop(after);
    }
  }

  /** The free `latency`: the same measurement with the default timer. */
  method Latency(before: int, after: int) returns (d: int)
    requires Epoch <= before <= after
    ensures d == after - before && d >= 0
  {
    d := Timer.Latency(before, after);
  }
}
