/**
 When timers are due, over whole runs and in terms of the arguments of addTimer: at the time given
 first, and then an interval after the batch that ran the timer, to within a microsecond.
 */
module TimerSchedule {
  import opened Octets
  import opened TimerModel
  import opened TimerInvariant
  import opened TimerTheorems
  import TimerCancel

  /** The arguments of one addTimer call. */
  datatype Order = Order(when: int, interval: real)

  /** The addTimer calls among the steps; the n-th one makes the timer with sequence number n. */
  function Orders(ls: seq<Label>): seq<Order> {
    if ls == [] then []
    else
      Orders(ls[..|ls| - 1]) +
      match ls[|ls| - 1]
      case Post(_, when, interval) => [Order(when, interval)]
      case AddHere(_, when, interval) => [Order(when, interval)]
      case _ => []
  }

  lemma OrdersMore(ls: seq<Label>, l: Label)
    ensures Orders(ls + [l]) == Orders(ls) + Orders([l])
  {
    assert (ls + [l])[..|ls|] == ls;
    assert [l][..0] == [];
  }

  function LastRun(runs: seq<Run>, n: nat): Option<Run> {
    if runs == [] then None
    else if runs[|runs| - 1].sequence == n then Some(runs[|runs| - 1])
    else LastRun(runs[..|runs| - 1], n)
  }

  lemma LastRunMore(runs: seq<Run>, r: Run, n: nat)
    ensures LastRun(runs + [r], n) == if r.sequence == n then Some(r) else LastRun(runs, n)
  {
    assert (runs + [r])[..|runs|] == runs;
  }

  lemma {:induction false} LastRunIn(runs: seq<Run>, n: nat)
    ensures LastRun(runs, n).Some? ==> LastRun(runs, n).value in runs && LastRun(runs, n).value.sequence == n
    ensures (forall r :: r in runs ==> r.sequence != n) ==> LastRun(runs, n) == None
    decreases |runs|
  {
    if runs != [] { LastRunIn(runs[..|runs| - 1], n); }
  }

  /** An interval, in seconds, after `now`, to within a microsecond. */
  predicate OnTime(now: int, interval: real, expiration: int) {
    now as real + interval * 1000000.0 - 1.0 < expiration as real <= now as real + interval * 1000000.0
  }

  /** What the expiration of the timer at `a` is, given how it was ordered and when it ran. */
  ghost predicate Scheduled(h: Heap, entered: seq<Entry>, now: int, runs: seq<Run>, orders: seq<Order>, a: nat)
    requires a in h
  {
    var t := h[a];
    && t.sequence < |orders| && t.interval == orders[t.sequence].interval
    && if EntryAt(h, a) in entered then LastRun(runs, t.sequence) == Some(Run(t.sequence, t.interval, now))
       else match LastRun(runs, t.sequence)
         case None => t.expiration == orders[t.sequence].when
         case Some(r) => OnTime(r.now, t.interval, t.expiration)
  }

  ghost predicate AllScheduled(h: Heap, entered: seq<Entry>, now: int, runs: seq<Run>, orders: seq<Order>) {
    && (forall a :: a in h ==> Scheduled(h, entered, now, runs, orders, a))
    && (forall r :: r in runs ==> r.sequence < |orders| && r.interval == orders[r.sequence].interval)
  }

  ghost predicate OnSchedule(s: State, orders: seq<Order>) {
    |orders| == s.created && AllScheduled(s.heap, Entered(s), s.now, s.runs, orders)
  }

  // ---------------------------------------------------------------- steps

  lemma NewScheduled(s: State, orders: seq<Order>, a: nat, when: int, interval: real)
    requires Inv(s) && OnSchedule(s, orders) && a !in s.heap
    ensures var u := NewTimer(s, a, when, interval);
            u.created == |orders| + 1 && AllScheduled(u.heap, Entered(s), s.now, s.runs, orders + [Order(when, interval)])
  {
    hide Points, Agree, Partition, Accounted, RunsFit, BatchRuns;
    var u := NewTimer(s, a, when, interval);
    var more := orders + [Order(when, interval)];
    LastRunIn(s.runs, s.created);
    EnteredAreOwned(s);
    forall b | b in u.heap ensures Scheduled(u.heap, Entered(s), s.now, s.runs, more, b) {
      if b != a {
        assert Scheduled(s.heap, Entered(s), s.now, s.runs, orders, b);
      } else {
        NewNotOwned(s, a, u.heap[a]);
      }
    }
  }

  lemma NewNotOwned(s: State, a: nat, t: Timer)
    requires Inv(s) && a !in s.heap
    ensures EntryAt(s.heap[a := t], a) !in Entered(s)
  {
    EnteredAreOwned(s);
    assert forall e :: e in Owned(s) ==> e.timer in s.heap;
  }

  lemma StartScheduled(s: State, orders: seq<Order>)
    requires Inv(s) && OnSchedule(s, orders) && Enabled(s, Start) && Safe(s, Start)
    ensures OnSchedule(Next(s, Start), orders)
  {
    hide Inv, Next, Entered, EntryAt, Scheduled, LastRun, OnTime;
    StepRuns(s, Start);
    StartOne(s);
    var e := s.expired[s.next];
    assert Scheduled(s.heap, Entered(s), s.now, s.runs, orders, e.timer);
    forall b | b in s.heap
      ensures Scheduled(s.heap, Entered(s) + [e], s.now, s.runs + [RunOf(s.heap, e, s.now)], orders, b)
    {
      assert Scheduled(s.heap, Entered(s), s.now, s.runs, orders, b);
      OneStarts(s.heap, e, Entered(s), s.now, s.runs, orders, b);
    }
    OrderedRun(s.heap, e, Entered(s), s.now, s.runs, orders);
  }

  lemma OneStarts(h: Heap, e: Entry, entered: seq<Entry>, now: int, runs: seq<Run>, orders: seq<Order>, b: nat)
    requires e.timer in h && b in h && Scheduled(h, entered, now, runs, orders, b)
    requires e == EntryAt(h, e.timer) && e !in entered
    requires b != e.timer ==> h[b].sequence != h[e.timer].sequence
    ensures Scheduled(h, entered + [e], now, runs + [RunOf(h, e, now)], orders, b)
  {
    LastRunMore(runs, RunOf(h, e, now), h[b].sequence);
    hide LastRun, OnTime;
  }

  lemma OrderedRun(h: Heap, e: Entry, entered: seq<Entry>, now: int, runs: seq<Run>, orders: seq<Order>)
    requires e.timer in h && Scheduled(h, entered, now, runs, orders, e.timer)
    ensures var r := RunOf(h, e, now); r.sequence < |orders| && r.interval == orders[r.sequence].interval
  {
    hide LastRun, OnTime;
  }

  lemma StartOne(s: State)
    requires Inv(s) && Enabled(s, Start) && Safe(s, Start)
    ensures var t, e := Next(s, Start), s.expired[s.next];
            && t.heap == s.heap && t.now == s.now && t.created == s.created && Entered(t) == Entered(s) + [e]
            && e == EntryAt(s.heap, e.timer) && e !in Entered(s)
            && (forall b :: b in s.heap && b != e.timer ==> s.heap[b].sequence != s.heap[e.timer].sequence)
  {
    hide Agree, Partition, RunsFit, AllSpaced, BatchRuns;
    var e := s.expired[s.next];
    assert Owned(s) == s.expired;
    PointsAt(s.heap, s.expired, e);
    assert Entered(Next(s, Start)) == Entered(s) + [e];
    assert forall i :: 0 <= i < s.next ==> Less(Entered(s)[i], e);
  }

  lemma RestartIsOnTime(t: Timer, now: int)
    requires t.Repeat()
    ensures OnTime(now, t.interval, t.Restart(now).expiration)
  {
    var x := t.interval * 1000000.0;
    assert (now + x.Floor) as real == now as real + x.Floor as real;
  }

  /** What one iteration of reset does to the heap. */
  lemma ResetHeap(s: State)
    requires Inv(s) && Enabled(s, ResetNext) && Safe(s, ResetNext)
    ensures var t, a := Next(s, ResetNext), s.expired[s.next].timer;
            && t.now == s.now && t.runs == s.runs && t.created == s.created
            && Entered(s) == [s.expired[s.next]] + Entered(t) && s.expired[s.next] == EntryAt(s.heap, a)
            && (forall e :: e in Entered(t) ==> e.timer != a)
            && (t.heap == s.heap - {a}
                || (s.heap[a].Repeat() && t.heap == s.heap[a := s.heap[a].Restart(s.now)]))
  {
    ResetCase(s);
    OwnedPoints(s);
    ResetEntered(s);
    TimerCancel.ResetNextFields(s);
    hide Inv, Next, Points, Safe;
    PointsAt(s.heap, Owned(s), s.expired[s.next]);
    forall e | e in s.expired[s.next + 1..] ensures e.timer != s.expired[s.next].timer {
      TimerCancel.RestIsOther(s, e);
    }
  }

  lemma ResetEntered(s: State)
    requires Enabled(s, ResetNext) && Safe(s, ResetNext)
    ensures Entered(Next(s, ResetNext)) == s.expired[s.next + 1..]
    ensures Entered(s) == [s.expired[s.next]] + s.expired[s.next + 1..] && s.expired[s.next] in Owned(s)
  {
    TimerCancel.ResetNextFields(s);
    hide Next;
    assert s.expired[s.next..][0] == s.expired[s.next];
  }

  lemma OwnedPoints(s: State)
    requires Inv(s)
    ensures Points(s.heap, Owned(s))
  {
  }

  lemma ResetCase(s: State)
    requires Enabled(s, ResetNext) && Safe(s, ResetNext)
    ensures var t, a := Next(s, ResetNext), s.expired[s.next].timer;
            && t.created == s.created
            && (t.heap == s.heap - {a}
                || (s.heap[a].Repeat() && t.heap == s.heap[a := s.heap[a].Restart(s.now)]))
  {
    hide Insert, Micro;
  }

  lemma RestScheduled(h: Heap, e: Entry, entered: seq<Entry>, now: int, runs: seq<Run>, orders: seq<Order>, b: nat)
    requires b in h && b != e.timer && Scheduled(h, [e] + entered, now, runs, orders, b)
    ensures Scheduled(h, entered, now, runs, orders, b)
  {
    hide OnTime, LastRun;
  }

  lemma RestartScheduled(h: Heap, e: Entry, entered: seq<Entry>, now: int, runs: seq<Run>, orders: seq<Order>)
    requires e.timer in h && e == EntryAt(h, e.timer) && h[e.timer].Repeat()
    requires Scheduled(h, [e] + entered, now, runs, orders, e.timer)
    requires forall x :: x in entered ==> x.timer != e.timer
    ensures Scheduled(h[e.timer := h[e.timer].Restart(now)], entered, now, runs, orders, e.timer)
  {
    RestartIsOnTime(h[e.timer], now);
    hide OnTime, LastRun, Micro;
  }

  lemma ResetScheduled(s: State, orders: seq<Order>)
    requires Inv(s) && OnSchedule(s, orders) && Enabled(s, ResetNext) && Safe(s, ResetNext)
    ensures OnSchedule(Next(s, ResetNext), orders)
  {
    hide Inv, Next, Scheduled, Entered, EntryAt, Timer.Restart;
    ResetHeap(s);
    var t := Next(s, ResetNext);
    var e := s.expired[s.next];
    assert Scheduled(s.heap, Entered(s), s.now, s.runs, orders, e.timer);
    forall b | b in t.heap ensures Scheduled(t.heap, Entered(t), t.now, t.runs, orders, b) {
      assert Scheduled(s.heap, [e] + Entered(t), s.now, s.runs, orders, b);
      if b == e.timer {
        RestartScheduled(s.heap, e, Entered(t), s.now, s.runs, orders);
      } else {
        RestScheduled(s.heap, e, Entered(t), s.now, s.runs, orders, b);
        SameScheduled(s.heap, t.heap, Entered(t), s.now, s.runs, orders, b);
      }
    }
  }

  lemma SameScheduled(h: Heap, g: Heap, entered: seq<Entry>, now: int, runs: seq<Run>, orders: seq<Order>, b: nat)
    requires b in h && b in g && h[b] == g[b] && Scheduled(h, entered, now, runs, orders, b)
    ensures Scheduled(g, entered, now, runs, orders, b)
  {
    hide OnTime, LastRun;
  }

  /** Steps that leave the heap, what was entered and the runs alone, or only delete a timer. */
  lemma OtherScheduled(s: State, l: Label, orders: seq<Order>)
    requires Inv(s) && OnSchedule(s, orders) && Enabled(s, l) && Safe(s, l)
    requires !l.Post? && !l.AddHere? && l != Start && l != ResetNext
    ensures OnSchedule(Next(s, l), orders)
  {
    hide Points, Agree, Partition, Accounted, RunsFit, AllSpaced, BatchRuns, Insert, Erase, Micro, LastRun, OnTime;
    var t := Next(s, l);
    assert t.runs == s.runs && t.created == s.created;
    assert Entered(t) == Entered(s);
    assert t.now == s.now || Entered(t) == [];
    forall b | b in t.heap ensures Scheduled(t.heap, Entered(t), t.now, t.runs, orders, b) {
      assert b in s.heap && t.heap[b] == s.heap[b];
      assert Scheduled(s.heap, Entered(s), s.now, s.runs, orders, b);
    }
  }

  lemma AddScheduled(s: State, l: Label, orders: seq<Order>, a: nat, when: int, interval: real)
    requires Inv(s) && OnSchedule(s, orders) && Enabled(s, l)
    requires l == Post(a, when, interval) || l == AddHere(a, when, interval)
    ensures OnSchedule(Next(s, l), orders + [Order(when, interval)])
  {
    hide Inv, AllScheduled, Next, Entered;
    AddFields(s, l, a, when, interval);
    NewScheduled(s, orders, a, when, interval);
  }

  lemma AddFields(s: State, l: Label, a: nat, when: int, interval: real)
    requires Enabled(s, l) && (l == Post(a, when, interval) || l == AddHere(a, when, interval))
    ensures var u, t := NewTimer(s, a, when, interval), Next(s, l);
            && a !in s.heap && t.heap == u.heap && t.created == u.created
            && t.runs == s.runs && t.now == s.now && Entered(t) == Entered(s)
  {
    hide Insert;
  }

  lemma OrdersOf(l: Label)
    ensures match l
            case Post(_, when, interval) => Orders([l]) == [Order(when, interval)]
            case AddHere(_, when, interval) => Orders([l]) == [Order(when, interval)]
            case _ => Orders([l]) == []
  {
    assert [l][..0] == [] && Orders([]) == [];
  }

  lemma StepOnSchedule(s: State, l: Label, orders: seq<Order>)
    requires Inv(s) && OnSchedule(s, orders) && Enabled(s, l) && Safe(s, l)
    ensures OnSchedule(Next(s, l), orders + Orders([l]))
  {
    OrdersOf(l);
    hide Inv, OnSchedule, Next, Orders;
    assert orders + [] == orders;
    match l
    case Post(a, when, interval) => AddScheduled(s, l, orders, a, when, interval);
    case AddHere(a, when, interval) => AddScheduled(s, l, orders, a, when, interval);
    case Start => StartScheduled(s, orders);
    case ResetNext => ResetScheduled(s, orders);
    case _ => OtherScheduled(s, l, orders);
  }

  lemma {:induction false} RunsOnSchedule(s: State, done: seq<Label>, ls: seq<Label>, t: State)
    requires Inv(s) && OnSchedule(s, Orders(done)) && Reaches(s, ls, t)
    ensures OnSchedule(t, Orders(done + ls))
    decreases |ls|
  {
    hide Inv, OnSchedule, Next, Safe;
    if ls == [] {
      assert done + ls == done;
    } else {
      StepKeeps(s, ls[0]);
      StepOnSchedule(s, ls[0], Orders(done));
      OrdersMore(done, ls[0]);
      RunsOnSchedule(Next(s, ls[0]), done + [ls[0]], ls[1..], t);
      assert done + [ls[0]] + ls[1..] == done + ls;
    }
  }

  // ---------------------------------------------------------------- theorems

  /**
   In every reachable state, a timer that waits in the queue or is about to be queued is due at the
   time that addTimer was given, as long as it has not run; and then an interval after the batch
   in which it ran last, to within a microsecond.
   */
  lemma DueWhenOrdered(clock: int, ls: seq<Label>, t: State, a: nat)
    requires Reaches(Initial(clock), ls, t) && a in t.heap
    requires EntryAt(t.heap, a) in t.timers || a in t.posted
    ensures var (timer, orders) := (t.heap[a], Orders(ls));
            && timer.sequence < |orders| && timer.interval == orders[timer.sequence].interval
            && match LastRun(t.runs, timer.sequence)
               case None => timer.expiration == orders[timer.sequence].when
               case Some(r) =>
                 && r.now as real + timer.interval * 1000000.0 - 1.0 < timer.expiration as real
                 && timer.expiration as real <= r.now as real + timer.interval * 1000000.0
  {
    Reachable(clock, ls, t);
    OnScheduleAlways(clock, ls, t);
    EnteredAreOwned(t);
    assert OwnedOnce(t.heap, t.posted, t.timers, Owned(t), a);
    assert Scheduled(t.heap, Entered(t), t.now, t.runs, Orders(ls), a);
  }

  lemma OnScheduleAlways(clock: int, ls: seq<Label>, t: State)
    requires Reaches(Initial(clock), ls, t)
    ensures OnSchedule(t, Orders(ls))
  {
    Reachable(clock, [], Initial(clock));
    assert Entered(Initial(clock)) == [] && OnSchedule(Initial(clock), Orders([]));
    RunsOnSchedule(Initial(clock), [], ls, t);
    assert [] + ls == ls;
  }

  /** Two runs of one timer lie its interval apart, less a microsecond; the interval is the one ordered. */
  lemma RunsAnIntervalApart(clock: int, ls: seq<Label>, t: State, i: nat, j: nat)
    requires Reaches(Initial(clock), ls, t) && i < j < |t.runs| && t.runs[i].sequence == t.runs[j].sequence
    ensures var n, orders := t.runs[i].sequence, Orders(ls);
            n < |orders| && t.runs[i].now as real + orders[n].interval * 1000000.0 - 1.0 < t.runs[j].now as real
  {
    RunsAreSpaced(clock, ls, t);
    OnScheduleAlways(clock, ls, t);
    var r := t.runs[i];
    assert r in t.runs;
    assert (r.interval * 1000000.0).Floor as real > r.interval * 1000000.0 - 1.0;
    assert (r.now + Micro(r.interval)) as real == r.now as real + Micro(r.interval) as real;
  }

  // ---------------------------------------------------------------- the timerfd

  /** handleRead takes the expiration that it was called for, so that epoll does not report it again. */
  lemma BeginReadsTimerFd(s: State)
    requires Enabled(s, Begin) && Safe(s, Begin)
    ensures !Next(s, Begin).Readable()
    ensures !s.Readable() ==> Next(s, Begin).fd == s.fd
  {
  }

  /** reset asks for the first expiration that is left, and for nothing if there is none. */
  lemma FinishArmsFirst(s: State)
    requires Enabled(s, Finish)
    ensures var t := Next(s, Finish);
            if s.timers == [] then t.fd == s.fd && t.clock == s.clock
            else
              var e := s.timers[0].expiration;
              t.fd == Armed((if e < s.clock + 100 then s.clock + 100 else e) + s.lag, s.clock, s.clock + s.lag)
  {
    if s.timers != [] { ArmedFor(s.timers[0].expiration, s.clock, s.clock + s.lag); }
  }

  /** addTimer asks for the new expiration exactly if it is before all others. */
  lemma AddArmsIfFirst(s: State, a: nat)
    requires a in s.heap
    ensures var t, e := AddTimerInLoop(s, a), s.heap[a].expiration;
            if s.timers == [] || e < s.timers[0].expiration then
              t.fd == Armed((if e < s.clock + 100 then s.clock + 100 else e) + s.lag, s.clock, s.clock + s.lag)
            else t.fd == s.fd
  {
    ArmedFor(s.heap[a].expiration, s.clock, s.clock + s.lag);
  }
}
