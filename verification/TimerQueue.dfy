/**
 The class of net/TimerQueue.cc. Each method is proved against the step functions of
 TimerModel; what they promise over whole runs is in TimerTheorems.
 */
module TimerQueues {
  import opened TimerModel
  import opened TimerInvariant
  import TimerTheorems

  lemma {:induction false} ReachesSnoc(s: State, ls: seq<Label>, t: State, l: Label)
    requires Reaches(s, ls, t) && Enabled(t, l) && Safe(t, l)
    ensures Reaches(s, ls + [l], Next(t, l))
    decreases |ls|
  {
    if ls == [] {
      assert (ls + [l])[1..] == [];
    } else {
      assert (ls + [l])[1..] == ls[1..] + [l];
      ReachesSnoc(Next(s, ls[0]), ls[1..], t, l);
    }
  }

  lemma {:induction false} ReachesAppend(s: State, ls: seq<Label>, t: State, more: seq<Label>, u: State)
    requires Reaches(s, ls, t) && Reaches(t, more, u)
    ensures Reaches(s, ls + more, u)
    decreases |ls|
  {
    if ls == [] {
      assert ls + more == more;
    } else {
      assert (ls + more)[1..] == ls[1..] + more;
      ReachesAppend(Next(s, ls[0]), ls[1..], t, more, u);
    }
  }

  /** No call made by a callback touches the timers of the batch. */
  lemma BatchSurvives(s: State, l: Label)
    requires Inv(s) && s.phase == InCallback && Interference(l) && Enabled(s, l) && Safe(s, l)
    ensures SameTimers(s.expired, s.heap, Next(s, l).heap)
  {
    forall e | e in s.expired ensures e.timer in s.heap && e.timer in Next(s, l).heap && Next(s, l).heap[e.timer] == s.heap[e.timer] {
      TimerTheorems.BatchIsNotActive(s, e);
      TimerTheorems.CallbackStep(s, l, e.timer);
    }
  }

  lemma InterferenceFrame(s: State, l: Label)
    requires s.phase == InCallback && Interference(l) && Enabled(s, l) && Safe(s, l)
    ensures var t := Next(s, l);
            t.phase == InCallback && t.expired == s.expired && t.next == s.next && t.now == s.now && t.runs == s.runs
  {
    hide Insert, Erase, Micro;
  }

  lemma BatchIsAlive(s: State)
    requires Inv(s) && s.HandleTimer()
    ensures forall e :: e in s.expired ==> e.timer in s.heap
    ensures SameTimers(s.expired, s.heap, s.heap)
  {
    assert Owned(s) == s.expired;
  }

  ghost predicate SameTimers(batch: seq<Entry>, h: Heap, g: Heap) {
    forall e :: e in batch ==> e.timer in h && e.timer in g && g[e.timer] == h[e.timer]
  }

  /** What a callback may do, and what other threads and the clock may do meanwhile. */
  predicate Interference(l: Label) {
    l.Tick? || l.Lag? || l.Post? || l.AddHere? || l.Cancel?
  }

  function BatchRunsOf(s: State, batch: seq<Entry>): seq<Run>
    requires forall e :: e in batch ==> e.timer in s.heap
  {
    seq(|batch|, i requires 0 <= i < |batch| => (assert batch[i] in batch; RunOf(s.heap, batch[i], s.now)))
  }

  /** The calls of a script that are possible when their turn comes. */
  function Performed(s: State, script: seq<Label>): seq<Label>
    decreases |script|
  {
    if script == [] then []
    else if Enabled(s, script[0]) && Safe(s, script[0]) then
      [script[0]] + Performed(Next(s, script[0]), script[1..])
    else Performed(s, script[1..])
  }

  lemma PerformedNone(s: State)
    ensures Performed(s, []) == []
  {
  }

  lemma {:induction false} PerformedMore(s: State, script: seq<Label>, t: State, l: Label)
    requires Reaches(s, Performed(s, script), t)
    ensures Performed(s, script + [l]) == Performed(s, script) + if Enabled(t, l) && Safe(t, l) then [l] else []
    decreases |script|
  {
    hide Enabled, Safe, Next;
    if script == [] {
      assert ([] + [l])[1..] == [];
    } else {
      assert (script + [l])[1..] == script[1..] + [l];
      if Enabled(s, script[0]) && Safe(s, script[0]) {
        var next := Next(s, script[0]);
        assert ([script[0]] + Performed(next, script[1..]))[1..] == Performed(next, script[1..]);
        PerformedMore(next, script[1..], t, l);
      } else {
        PerformedMore(s, script[1..], t, l);
      }
    }
  }

  class TimerQueue {
    var heap: map<nat, Timer>
    var created: nat
    var posted: set<nat>
    var timers: seq<Entry>
    var active: set<Key>
    var cancelling: set<Key>
    var handleTimer: bool
    var now: int
    var expired: seq<Entry>
    var next: nat
    var clock: int
    var lag: nat
    var fd: TimerFd
    ghost var phase: Phase
    ghost var freed: seq<nat>
    ghost var runs: seq<Run>

    ghost function Value(): State
      reads this
    {
      State(heap, created, posted, timers, active, cancelling, phase, now, expired, next, clock, lag, fd, freed, runs)
    }

    ghost predicate Valid()
      reads this
    {
      Inv(Value()) && handleTimer == Value().HandleTimer()
    }

    constructor (time: int)
      ensures Valid() && Value() == Initial(time)
    {
      heap, created, posted, timers, active, cancelling := map[], 0, {}, [], {}, {};
      handleTimer, now, expired, next, clock, lag, fd := false, time, [], 0, time, 0, Disarmed;
      phase, freed, runs := Idle, [], [];
      new;
      Reachable(time, [], Value());
    }

    method ResetTimerFd(expiration: int)
      modifies this`fd, this`clock
      ensures Value() == TimerModel.ResetTimerFd(old(Value()), expiration)
    {
      var readAt := clock;
      var newValue := HowMuchTimeFromNow(expiration, readAt);
      clock := clock + lag;
      fd := SetTime(newValue, readAt, clock);
    }

    method AddTimerInLoop(timer: nat)
      requires timer in heap
      modifies this`timers, this`active, this`fd, this`clock
      ensures Value() == TimerModel.AddTimerInLoop(old(Value()), timer)
    {
      var expiration := heap[timer].expiration;
      var earliestChanged := timers == [] || expiration < timers[0].expiration;
      timers := Insert(timers, Entry(expiration, timer));
      active := active + {Key(heap[timer].sequence, timer)};
      if earliestChanged {
        ResetTimerFd(expiration);
      }
    }

    /** The address is the allocator's choice among those not in use. */
    method AddTimer(addr: nat, when: int, interval: real, inLoopThread: bool) returns (id: TimerId)
      requires Valid() && Allocatable(Value(), addr) && (inLoopThread ==> UserCode(Value()))
      modifies this
      ensures Valid() && id == TimerId(addr, old(created))
      ensures Value() == Next(old(Value()), if inLoopThread then AddHere(addr, when, interval) else Post(addr, when, interval))
    {
      hide Inv, Insert, Erase, Micro;
      StepKeeps(Value(), if inLoopThread then AddHere(addr, when, interval) else Post(addr, when, interval));
      heap := heap[addr := Timer(when, interval, created, false)];
      id := TimerId(addr, created);
      created := created + 1;
      if inLoopThread {
        AddTimerInLoop(addr);
      } else {
        posted := posted + {addr};
      }
    }

    method Delete(timer: nat)
      requires timer in heap
      modifies this`heap, this`freed
      ensures Value() == TimerModel.Delete(old(Value()), timer)
    {
      freed := freed + [heap[timer].sequence];
      heap := heap - {timer};
    }

    method CancelInLoop(id: TimerId)
      requires Valid() && UserCode(Value())
      modifies this
      ensures Valid() && Value() == Next(old(Value()), Cancel(id))
    {
      hide Inv, Insert, Erase, Micro;
      StepsAreSafe(Value(), Cancel(id));
      StepKeeps(Value(), Cancel(id));
      var key := Key(id.sequence, id.timer);
      if key in active {
        var timer := key.timer;
        timers := Erase(timers, Entry(heap[timer].expiration, timer));
        active := active - {Key(heap[timer].sequence, timer)};
        Delete(timer);
      } else if handleTimer {
        cancelling := cancelling + {key};
      }
    }

    method GetExpired()
      requires forall e :: e in timers ==> e.timer in heap
      modifies this`timers, this`active, this`expired
      ensures Value() == TimerModel.GetExpired(old(Value()))
    {
      var it := LowerBound(timers, Entry(now, UINTPTR_MAX));
      var k := 0;
      while k < it
        invariant k <= it <= |timers| && timers == old(timers) && expired == old(expired)
        invariant active == old(active) - set e | e in timers[..k] :: Key(heap[e.timer].sequence, e.timer)
      {
        assert timers[..k + 1] == timers[..k] + [timers[k]];
        active := active - {Key(heap[timers[k].timer].sequence, timers[k].timer)};
        k := k + 1;
      }
      expired := timers[..it];
      timers := timers[it..];
    }

    method ResetOne()
      requires Valid() && Enabled(Value(), ResetNext)
      modifies this
      ensures Valid() && Value() == Next(old(Value()), ResetNext)
    {
      hide Inv, Insert, Erase, Micro;
      StepsAreSafe(Value(), ResetNext);
      StepKeeps(Value(), ResetNext);
      var timer := expired[next].timer;
      next := next + 1;
      if Key(heap[timer].sequence, timer) in cancelling {
        Delete(timer);
      } else if heap[timer].cancelled {
        Delete(timer);
      } else if heap[timer].Repeat() {
        heap := heap[timer := heap[timer].Restart(now)];
        timers := Insert(timers, Entry(heap[timer].expiration, timer));
        active := active + {Key(heap[timer].sequence, timer)};
      } else {
        Delete(timer);
      }
    }

    method Reset() returns (ghost trace: seq<Label>)
      requires Valid() && Enabled(Value(), StartReset)
      modifies this
      ensures Valid() && phase == Idle && runs == old(runs)
      ensures Reaches(old(Value()), trace, Value())
      ensures trace == [StartReset] + (seq(|old(expired)|, _ => ResetNext) + [Finish])
    {
      hide Inv, Insert, Erase, Micro, Reaches;
      ghost var s0 := Value();
      StepKeeps(s0, StartReset);
      handleTimer := false;
      phase, next := Resetting, 0;
      ghost var s := Value();
      assert s == Next(s0, StartReset);
      trace := ResetAll();
      ghost var t := Value();
      FinishReset();
      hide *;
      ReachesSnoc(s, trace, t, Finish);
      TimerTheorems.ReachesCons(s0, StartReset, trace + [Finish], Value());
      trace := [StartReset] + (trace + [Finish]);
    }

    /** Re-arm for what is left and drop the deferred cancels. */
    method FinishReset()
      requires Valid() && Enabled(Value(), Finish)
      modifies this
      ensures Valid() && phase == Idle && runs == old(runs)
      ensures Safe(old(Value()), Finish) && Value() == Next(old(Value()), Finish)
    {
      hide Inv, Insert, Erase, Micro;
      StepKeeps(Value(), Finish);
      if timers != [] {
        ResetTimerFd(timers[0].expiration);
      }
      cancelling, expired, next := {}, [], 0;
      phase := Idle;
    }

    method ResetAll() returns (ghost trace: seq<Label>)
      requires Valid() && phase == Resetting && next == 0
      modifies this
      ensures Valid() && Enabled(Value(), Finish) && expired == old(expired) && runs == old(runs)
      ensures Reaches(old(Value()), trace, Value())
      ensures trace == seq(|expired|, _ => ResetNext)
    {
      hide Inv, Insert, Erase, Micro;
      trace := [];
      while next < |expired|
        invariant Valid() && phase == Resetting && next <= |expired|
        invariant expired == old(expired) && runs == old(runs)
        invariant Reaches(old(Value()), trace, Value())
        invariant trace == seq(next, _ => ResetNext)
      {
        StepsAreSafe(Value(), ResetNext);
        ReachesSnoc(old(Value()), trace, Value(), ResetNext);
        ResetOne();
        trace := trace + [ResetNext];
      }
    }

    /** Time goes on, or the thread will be delayed. */
    method PassTime(time: int, delay: nat)
      requires Valid() && clock <= time
      modifies this`clock, this`lag
      ensures Valid()
      ensures delay == old(lag) ==> Value() == Next(old(Value()), Tick(time))
      ensures time == old(clock) ==> Value() == Next(old(Value()), Lag(delay))
    {
      StepKeeps(Value(), Tick(time));
      StepKeeps(Next(Value(), Tick(time)), Lag(delay));
      hide Inv;
      clock, lag := time, delay;
    }

    /** One call made by a callback, or one event beside it; impossible ones are skipped. */
    method Interfere(l: Label) returns (ghost done: seq<Label>)
      requires Valid() && Interference(l) && phase == InCallback
      modifies this
      ensures Valid() && phase == InCallback
      ensures expired == old(expired) && next == old(next) && now == old(now) && runs == old(runs)
      ensures done == (if Enabled(old(Value()), l) then [l] else [])
      ensures SameTimers(expired, old(heap), heap)
      ensures if Enabled(old(Value()), l) then Safe(old(Value()), l) && Value() == Next(old(Value()), l) else Value() == old(Value())
    {
      hide Inv, Next, Safe, SameTimers;
      done := [];
      BatchIsAlive(Value());
      if Enabled(Value(), l) {
        StepsAreSafe(Value(), l);
        BatchSurvives(Value(), l);
        InterferenceFrame(Value(), l);
      }
      match l
      case Tick(t) =>
        if clock <= t { PassTime(t, lag); done := [l]; }
      case Lag(d) =>
        PassTime(clock, d);
        done := [l];
      case Post(a, when, interval) =>
        if 0 < a < UINTPTR_MAX && a !in heap { var _ := AddTimer(a, when, interval, false); done := [l]; }
      case AddHere(a, when, interval) =>
        if 0 < a < UINTPTR_MAX && a !in heap { var _ := AddTimer(a, when, interval, true); done := [l]; }
      case Cancel(id) =>
        CancelInLoop(id);
        done := [l];
      case _ =>
    }

    /** The body of a callback that makes the given calls. */
    method Callback(script: seq<Label>) returns (ghost trace: seq<Label>)
      requires Valid() && phase == InCallback && forall l :: l in script ==> Interference(l)
      modifies this
      ensures Valid() && phase == InCallback
      ensures expired == old(expired) && next == old(next) && now == old(now) && runs == old(runs)
      ensures SameTimers(expired, old(heap), heap)
      ensures Reaches(old(Value()), trace, Value()) && trace == Performed(old(Value()), script)
    {
      hide Inv, Insert, Erase, Micro, Next, Enabled, Safe, Performed;
      trace := [];
      PerformedNone(Value());
      BatchIsAlive(Value());
      for i := 0 to |script|
        invariant Valid() && phase == InCallback
        invariant expired == old(expired) && now == old(now) && next == old(next) && runs == old(runs)
        invariant SameTimers(expired, old(heap), heap)
        invariant Reaches(old(Value()), trace, Value()) && trace == Performed(old(Value()), script[..i])
      {
        ghost var s := Value();
        assert script[i] in script && script[..i + 1] == script[..i] + [script[i]];
        PerformedMore(old(Value()), script[..i], s, script[i]);
        var done := Interfere(script[i]);
        if Enabled(s, script[i]) {
          ReachesSnoc(old(Value()), trace, s, script[i]);
        } else {
          assert trace + [] == trace;
        }
        trace := trace + done;
      }
      assert script[..|script|] == script;
    }

    /** `entry.timer_->run()` */
    method RunTimer(script: seq<Label>) returns (ghost trace: seq<Label>)
      requires Valid() && Enabled(Value(), Start) && forall l :: l in script ==> Interference(l)
      modifies this
      ensures Valid() && phase == Running
      ensures expired == old(expired) && now == old(now) && next == old(next) + 1
      ensures Reaches(old(Value()), trace, Value())
      ensures trace == [Start] + (Performed(Next(old(Value()), Start), script) + [End])
      ensures SameTimers(expired, old(heap), heap)
      ensures old(expired[next]) in expired
      ensures runs == old(runs) + [RunOf(old(heap), old(expired[next]), now)]
    {
      hide Inv, Insert, Erase, Micro, Performed;
      StepsAreSafe(Value(), Start);
      StartKeeps(Value());
      TimerTheorems.StepRuns(Value(), Start);
      var timer := expired[next].timer;
      runs := runs + [Run(heap[timer].sequence, heap[timer].interval, now)];
      phase := InCallback;
      ghost var s := Value();
      var called := Callback(script);
      ghost var t := Value();
      StepKeeps(Value(), End);
      next := next + 1;
      phase := Running;
      trace := [Start] + (called + [End]);
      ReachesSnoc(s, called, t, End);
      TimerTheorems.ReachesCons(old(Value()), Start, called + [End], Value());
    }

    /**
     The timerfd's read callback. `scripts[i]` says what the i-th callback of the batch does.
     Whatever that is, exactly the timers that were due on entry run, once each, in order.
     */
    method HandleRead(scripts: seq<seq<Label>>) returns (ghost trace: seq<Label>)
      requires Valid() && phase == Idle
      requires forall script, l :: script in scripts && l in script ==> Interference(l)
      modifies this
      ensures Valid() && phase == Idle
      ensures Reaches(old(Value()), trace, Value())
      ensures |trace| > 1 && trace[0] == Begin && trace[|trace| - 1] == Finish
      ensures Safe(old(Value()), Begin)
      ensures var s := Next(old(Value()), Begin);
              && (forall e :: e in s.expired ==> e.timer in s.heap)
              && runs == old(runs) + BatchRunsOf(s, s.expired)
    {
      hide Inv, Insert, Erase, Micro, Reaches;
      ghost var s0 := Value();
      DetachExpired();
      ghost var s := Value();
      BatchIsAlive(s);
      trace := RunBatch(scripts);
      ghost var t := Value();
      var more := Reset();
      hide *;
      ReachesAppend(s, trace, t, more, Value());
      TimerTheorems.ReachesCons(s0, Begin, trace + more, Value());
      assert more[|more| - 1] == Finish;
      trace := [Begin] + (trace + more);
    }

    /** Reads the timerfd and the clock and takes the batch out of both sets. */
    method DetachExpired()
      requires Valid() && phase == Idle
      modifies this
      ensures Valid() && phase == Running && next == 0 && runs == old(runs)
      ensures Safe(old(Value()), Begin) && Value() == Next(old(Value()), Begin)
    {
      hide Inv, Insert, Erase, Micro, TimerModel.GetExpired;
      StepsAreSafe(Value(), Begin);
      StepKeeps(Value(), Begin);
      ghost var read := if Value().Readable() then Value().(fd := Disarmed) else Value();
      if fd.Armed? && fd.at <= clock {
        fd := Disarmed;
      }
      now, handleTimer, next := clock, true, 0;
      phase := Running;
      assert Value() == read.(now := read.clock, phase := Running, next := 0);
      GetExpired();
    }

    method RunBatch(scripts: seq<seq<Label>>) returns (ghost trace: seq<Label>)
      requires Valid() && phase == Running && next == 0
      requires forall script, l :: script in scripts && l in script ==> Interference(l)
      requires forall e :: e in expired ==> e.timer in heap
      modifies this
      ensures Valid() && Enabled(Value(), StartReset)
      ensures expired == old(expired)
      ensures Reaches(old(Value()), trace, Value())
      ensures runs == old(runs) + old(BatchRunsOf(Value(), expired))
    {
      hide Inv, Insert, Erase, Micro, Next;
      ghost var batch := BatchRunsOf(Value(), expired);
      trace := [];
      BatchIsAlive(Value());
      while next < |expired|
        invariant Valid() && phase == Running && next <= |expired|
        invariant expired == old(expired) && now == old(now)
        invariant Reaches(old(Value()), trace, Value())
        invariant SameTimers(expired, old(heap), heap)
        invariant runs == old(runs) + batch[..next]
      {
        var script := if next < |scripts| then scripts[next] else [];
        assert expired[next] in expired && batch[..next + 1] == batch[..next] + [batch[next]];
        ghost var u := Value();
        var more := RunTimer(script);
        ReachesAppend(old(Value()), trace, u, more, Value());
        trace := trace + more;
      }
    }

    /** ~TimerQueue */
    method Destroy()
      requires Valid() && phase == Idle
      modifies this
      ensures Value() == TimerTheorems.Destroy(old(Value()))
      ensures heap.Keys == old(posted)
    {
      hide Points, Agree, Partition, Accounted, RunsFit, AllSpaced, BatchRuns, Micro;
      TimerTheorems.DestructorLeavesPosted(Value());
      ghost var s0 := Value();
      while timers != []
        invariant Points(heap, timers)
        invariant TimerTheorems.Destroy(Value()) == TimerTheorems.Destroy(s0)
        decreases |timers|
      {
        TimerTheorems.PointsRest(heap, timers);
        var timer := timers[0].timer;
        timers := timers[1..];
        Delete(timer);
      }
      active := {};
    }
  }
}
