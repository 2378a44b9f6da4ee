/**
 What the timer queue promises over whole runs: cancel is exact, no expiration is lost, and
 batches fire exactly what is due.
 */
module TimerTheorems {
  import opened TimerModel
  import opened TimerInvariant

  /** How often the callback of the timer with sequence number n was invoked. */
  function Count(runs: seq<Run>, n: nat): nat {
    if runs == [] then 0
    else Count(runs[..|runs| - 1], n) + if runs[|runs| - 1].sequence == n then 1 else 0
  }

  lemma CountAppend(runs: seq<Run>, r: Run, n: nat)
    ensures Count(runs + [r], n) == Count(runs, n) + if r.sequence == n then 1 else 0
  {
    assert (runs + [r])[..|runs|] == runs;
  }

  /** A step invokes at most one callback, and only that of a timer alive. */
  lemma StepRuns(s: State, l: Label)
    requires Inv(s) && Enabled(s, l) && Safe(s, l)
    ensures var t := Next(s, l);
            if l == Start then t.runs == s.runs + [RunOf(s.heap, s.expired[s.next], s.now)] else t.runs == s.runs
  {
    if l == Start { assert s.expired[s.next] in Owned(s); }
  }

  // ---------------------------------------------------------------- deletion

  lemma BatchIsNotActive(s: State, e: Entry)
    requires Inv(s) && e in Owned(s)
    ensures e.timer in s.heap && forall k :: k in s.active ==> k.timer != e.timer
  {
    assert OwnedOnce(s.heap, s.posted, s.timers, Owned(s), e.timer);
  }

  lemma CallbackStep(s: State, l: Label, a: nat)
    requires s.phase == InCallback && Enabled(s, l) && Safe(s, l) && l != End
    requires a in s.heap && forall k :: k in s.active ==> k.timer != a
    ensures var t := Next(s, l);
            && t.phase == InCallback && t.expired == s.expired && t.next == s.next
            && a in t.heap && t.heap[a] == s.heap[a]
  {
  }

  lemma {:induction false} RunningTimerLasts(s: State, ls: seq<Label>, t: State)
    requires Inv(s) && s.phase == InCallback && Reaches(s, ls, t) && End !in ls
    ensures t.phase == InCallback && t.expired == s.expired && t.next == s.next
    ensures var a := s.expired[s.next].timer;
            a in s.heap && a in t.heap && t.heap[a] == s.heap[a]
    decreases |ls|
  {
    assert s.expired[s.next] in Owned(s);
    BatchIsNotActive(s, s.expired[s.next]);
    if ls != [] {
      StepKeeps(s, ls[0]);
      CallbackStep(s, ls[0], s.expired[s.next].timer);
      RunningTimerLasts(Next(s, ls[0]), ls[1..], t);
    }
  }

  /** The callback being executed keeps its Timer: whatever it does, the object stays as it was. */
  lemma RunningTimerSurvives(clock: int, before: seq<Label>, s: State, ls: seq<Label>, t: State)
    requires Reaches(Initial(clock), before, s) && s.phase == InCallback
    requires Reaches(s, ls, t) && End !in ls
    ensures s.next < |s.expired| && t.phase == InCallback && t.expired == s.expired && t.next == s.next
    ensures var a := s.expired[s.next].timer;
            a in s.heap && a in t.heap && t.heap[a] == s.heap[a]
  {
    Reachable(clock, before, s);
    RunningTimerLasts(s, ls, t);
  }

  /** A deleted timer never comes back: from then on its callback is not invoked. */
  lemma {:induction false} FreedNeverRuns(s: State, ls: seq<Label>, t: State, n: nat)
    requires Inv(s) && Reaches(s, ls, t) && n in s.freed
    ensures n in t.freed && Count(t.runs, n) == Count(s.runs, n)
    decreases |ls|
  {
    hide RunsFit, AllSpaced, BatchRuns, Agree, Partition, Insert, Micro, Erase;
    if ls != [] {
      var s1 := Next(s, ls[0]);
      StepKeeps(s, ls[0]);
      StepRuns(s, ls[0]);
      if ls[0] == Start {
        assert s.expired[s.next] in Owned(s);
        CountAppend(s.runs, RunOf(s.heap, s.expired[s.next], s.now), n);
      }
      assert n in s1.freed;
      FreedNeverRuns(s1, ls[1..], t, n);
    }
  }

  lemma PointsRest(h: Heap, timers: seq<Entry>)
    requires timers != [] && Points(h, timers)
    ensures timers[0].timer in h && Points(h - {timers[0].timer}, timers[1..])
  {
    assert timers[0] in timers;
    forall e | e in timers[1..] ensures e in timers && e.timer != timers[0].timer {
      var i :| 0 < i < |timers| && timers[i] == e;
      assert Less(timers[0], timers[i]);
      assert e in timers;
    }
  }

  /** The destructor deletes the timers of timers_ one after the other. */
  function Destroy(s: State): State
    requires Points(s.heap, s.timers)
    decreases |s.timers|
  {
    if s.timers == [] then s.(active := {})
    else
      PointsRest(s.heap, s.timers);
      Destroy(Delete(s.(timers := s.timers[1..]), s.timers[0].timer))
  }

  /** Outside a batch, a live timer is either posted or in timers_. */
  ghost predicate PostedOrActive(h: Heap, posted: set<nat>, timers: seq<Entry>) {
    posted <= h.Keys && forall a :: a in h ==> (a in posted <==> EntryAt(h, a) !in timers)
  }

  lemma PostedOrActiveRest(h: Heap, posted: set<nat>, timers: seq<Entry>)
    requires timers != [] && Points(h, timers) && PostedOrActive(h, posted, timers)
    ensures PostedOrActive(h - {timers[0].timer}, posted, timers[1..])
  {
    assert timers == [timers[0]] + timers[1..] && timers[0] in timers;
  }

  lemma {:induction false} DestroyFrees(s: State)
    requires Points(s.heap, s.timers) && Accounted(s.heap, s.created, s.freed)
    requires PostedOrActive(s.heap, s.posted, s.timers)
    ensures var d := Destroy(s);
            d.heap.Keys == s.posted && Accounted(d.heap, s.created, d.freed) && d.created == s.created
    decreases |s.timers|
  {
    if s.timers != [] {
      var a := s.timers[0].timer;
      PointsRest(s.heap, s.timers);
      PostedOrActiveRest(s.heap, s.posted, s.timers);
      DeleteAccounted(s.heap, s.created, s.freed, a);
      DestroyFrees(Delete(s.(timers := s.timers[1..]), a));
    }
  }

  /** The destructor frees every timer, once, except those whose addTimerInLoop is still queued. */
  lemma DestructorLeavesPosted(s: State)
    requires Inv(s) && s.phase == Idle
    ensures Destroy(s).heap.Keys == s.posted
    ensures Accounted(Destroy(s).heap, s.created, Destroy(s).freed)
  {
    forall a | a in s.heap ensures a in s.posted <==> EntryAt(s.heap, a) !in s.timers {
      assert OwnedOnce(s.heap, s.posted, s.timers, Owned(s), a);
    }
    DestroyFrees(s);
  }

  // ---------------------------------------------------------------- cancel

  /** Everything a cancel may leave changed for other timers: nothing. */
  ghost predicate SameFor(s: State, t: State, a: nat)
    requires a in s.heap
  {
    && a in t.heap && t.heap[a] == s.heap[a]
    && (a in t.posted <==> a in s.posted)
    && (s.EntryOf(a) in t.timers <==> s.EntryOf(a) in s.timers)
    && (s.KeyOf(a) in t.active <==> s.KeyOf(a) in s.active)
    && (s.KeyOf(a) in t.cancelling <==> s.KeyOf(a) in s.cancelling)
  }

  lemma EraseOther(timers: seq<Entry>, e: Entry, x: Entry)
    requires Sorted(timers) && x != e
    ensures x in Erase(timers, e) <==> x in timers
  {
    EraseSpec(timers, e);
  }

  /** A TimerId touches only the timer it was issued for, even when its address was reused. */
  lemma CancelTouchesOnlyItsTimer(clock: int, before: seq<Label>, s: State, id: TimerId, a: nat)
    requires Reaches(Initial(clock), before, s) && Enabled(s, Cancel(id)) && Safe(s, Cancel(id))
    requires a in s.heap && s.heap[a].sequence != id.sequence
    ensures SameFor(s, Next(s, Cancel(id)), a)
    ensures var t := Next(s, Cancel(id));
            t.expired == s.expired && t.next == s.next && t.fd == s.fd && t.runs == s.runs
  {
    hide Agree, Partition, Accounted, RunsFit, AllSpaced, BatchRuns, Insert, Erase, Micro;
    Reachable(clock, before, s);
    if Key(id.sequence, id.timer) in s.active {
      AgreeAt(s.heap, s.timers, s.active, Key(id.sequence, id.timer));
      EraseOther(s.timers, s.EntryOf(id.timer), s.EntryOf(a));
    }
  }

  /** The timer of `key` is in the current batch and is in the deferred-cancel set. */
  ghost predicate Doomed(s: State, key: Key) {
    && s.phase != Idle && key in s.cancelling
    && key.timer in s.heap && KeyAt(s.heap, key.timer) == key
    && EntryAt(s.heap, key.timer) in Owned(s)
  }

  /** Invocations that the rest of the batch still holds for a timer in it. */
  ghost function Remaining(s: State, a: nat): nat
    requires a in s.heap
  {
    if s.HandleTimer() && EntryAt(s.heap, a) !in Entered(s) then 1 else 0
  }

  lemma DoomedStart(s: State, key: Key)
    requires Inv(s) && Doomed(s, key) && Enabled(s, Start) && Safe(s, Start)
    ensures var t := Next(s, Start);
            Doomed(t, key) && Count(t.runs, key.sequence) + Remaining(t, key.timer)
              <= Count(s.runs, key.sequence) + Remaining(s, key.timer)
  {
    hide Agree, Partition, RunsFit, AllSpaced, BatchRuns, Count;
    var t := Next(s, Start);
    var e := s.expired[s.next];
    assert e in Owned(s) && Owned(s) == s.expired;
    CountAppend(s.runs, RunOf(s.heap, e, s.now), key.sequence);
    assert Entered(t) == Entered(s) + [e];
    assert e !in Entered(s) by {
      assert forall i :: 0 <= i < s.next ==> Less(Entered(s)[i], e);
    }
    PointsAt(s.heap, s.expired, e);
    hide Points;
  }

  /** What one iteration of reset leaves alone. */
  lemma ResetOneFrame(s: State, b: nat)
    requires Enabled(s, ResetNext) && Safe(s, ResetNext)
    requires b in s.heap && b != s.expired[s.next].timer
    ensures var t := Next(s, ResetNext);
            && b in t.heap && t.heap[b] == s.heap[b]
            && t.phase == s.phase && t.expired == s.expired && t.next == s.next + 1
            && t.cancelling == s.cancelling && t.runs == s.runs
  {
    hide Insert, Micro;
  }

  lemma DoomedReset(s: State, key: Key)
    requires Inv(s) && Doomed(s, key) && Enabled(s, ResetNext) && Safe(s, ResetNext)
    ensures var t := Next(s, ResetNext);
            if s.expired[s.next].timer == key.timer then key.sequence in t.freed else Doomed(t, key)
  {
    hide Points, Accounted, RunsFit, AllSpaced, BatchRuns, Agree, Partition, Insert, Micro;
    var a := s.expired[s.next].timer;
    var t := Next(s, ResetNext);
    if a == key.timer {
      assert t == Delete(s.(next := s.next + 1), a);
    } else {
      hide Next, ResetOne, Inv;
      ResetOneFrame(s, key.timer);
      var e := EntryAt(s.heap, key.timer);
      assert Owned(s) == [s.expired[s.next]] + s.expired[t.next..];
      assert e in s.expired[t.next..] && Owned(t) == s.expired[t.next..];
    }
  }

  /** Other timers come and go; one that is doomed stays so until reset deletes it. */
  lemma DoomedStep(s: State, l: Label, key: Key)
    requires Inv(s) && Doomed(s, key) && Enabled(s, l) && Safe(s, l)
    ensures var t := Next(s, l);
            || (Doomed(t, key) && Count(t.runs, key.sequence) + Remaining(t, key.timer)
                  <= Count(s.runs, key.sequence) + Remaining(s, key.timer))
            || (key.sequence in t.freed && Count(t.runs, key.sequence) == Count(s.runs, key.sequence))
  {
    hide Next, Remaining, Inv;
    StepRuns(s, l);
    match l
    case Start => DoomedStart(s, key);
    case ResetNext =>
      DoomedReset(s, key);
      ResetSame(s, key.timer);
    case Cancel(id) => DoomedCancel(s, id, key);
    case _ => DoomedOther(s, l, key);
  }

  lemma ResetSame(s: State, a: nat)
    requires Enabled(s, ResetNext) && Safe(s, ResetNext) && a in s.heap
    ensures a in Next(s, ResetNext).heap ==> Remaining(Next(s, ResetNext), a) <= Remaining(s, a)
  {
    hide Insert, Micro;
  }

  lemma DoomedCancel(s: State, id: TimerId, key: Key)
    requires Inv(s) && Doomed(s, key) && Enabled(s, Cancel(id)) && Safe(s, Cancel(id))
    ensures var t := Next(s, Cancel(id)); Doomed(t, key) && Remaining(t, key.timer) == Remaining(s, key.timer)
  {
    hide Accounted, RunsFit, AllSpaced, BatchRuns, Erase;
    assert OwnedOnce(s.heap, s.posted, s.timers, Owned(s), key.timer);
    if Key(id.sequence, id.timer) in s.active { assert id.timer != key.timer; }
  }

  lemma DoomedOther(s: State, l: Label, key: Key)
    requires Inv(s) && Doomed(s, key) && Enabled(s, l) && Safe(s, l)
    requires l != Start && l != ResetNext && !l.Cancel?
    ensures var t := Next(s, l);
            (Doomed(t, key) && Remaining(t, key.timer) <= Remaining(s, key.timer)) || key.sequence in t.freed
  {
    hide Accounted, RunsFit, AllSpaced, BatchRuns, Insert, Micro, Points, Agree, Partition;
    var t := Next(s, l);
    match l
    case End => assert Entered(t) == Entered(s);
    case StartReset => assert Owned(t) == s.expired;
    case _ =>
  }

  lemma {:induction false} DoomedRuns(s: State, ls: seq<Label>, t: State, key: Key)
    requires Inv(s) && Doomed(s, key) && Reaches(s, ls, t)
    ensures Count(t.runs, key.sequence) <= Count(s.runs, key.sequence) + Remaining(s, key.timer)
    ensures Doomed(t, key) || key.sequence in t.freed
    decreases |ls|
  {
    if ls != [] {
      var s1 := Next(s, ls[0]);
      StepKeeps(s, ls[0]);
      DoomedStep(s, ls[0], key);
      if Doomed(s1, key) {
        DoomedRuns(s1, ls[1..], t, key);
      } else {
        FreedNeverRuns(s1, ls[1..], t, key.sequence);
      }
    }
  }

  /**
   What one cancel, in any reachable state s, means for every later state t. An active timer is deleted at once and never
   runs again. A timer in the current batch runs at most once more, if it had not been entered
   yet, and is deleted by the time the batch is over. A posted timer is not affected at all.
   */
  lemma CancelStops(clock: int, before: seq<Label>, s: State, a: nat, ls: seq<Label>, t: State)
    requires Reaches(Initial(clock), before, s) && UserCode(s) && a in s.heap
    requires var id := TimerId(a, s.heap[a].sequence);
             Safe(s, Cancel(id)) && Reaches(Next(s, Cancel(id)), ls, t)
    ensures var n := s.heap[a].sequence;
            && (s.EntryOf(a) in s.timers ==> n in t.freed && Count(t.runs, n) == Count(s.runs, n))
            && (s.EntryOf(a) in Owned(s) ==>
                  && Count(t.runs, n) <= Count(s.runs, n) + (if s.EntryOf(a) in Entered(s) then 0 else 1)
                  && (t.phase == Idle ==> n in t.freed))
            && (a in s.posted ==>
                  var c := if s.phase == InCallback then s.cancelling + {s.KeyOf(a)} else s.cancelling;
                  Next(s, Cancel(TimerId(a, n))) == s.(cancelling := c))
  {
    hide RunsFit, AllSpaced, BatchRuns, Insert, Micro, Accounted;
    Reachable(clock, before, s);
    var id := TimerId(a, s.heap[a].sequence);
    var s1 := Next(s, Cancel(id));
    StepKeeps(s, Cancel(id));
    assert OwnedOnce(s.heap, s.posted, s.timers, Owned(s), a);
    if s.EntryOf(a) in s.timers {
      FreedNeverRuns(s1, ls, t, id.sequence);
    } else if s.EntryOf(a) in Owned(s) {
      assert Doomed(s1, s.KeyOf(a));
      DoomedRuns(s1, ls, t, s.KeyOf(a));
      assert Doomed(t, s.KeyOf(a)) ==> t.phase != Idle by {
        RunsKeep(s1, ls, t);
      }
    }
  }

  lemma ReachesCons(s: State, l: Label, ls: seq<Label>, t: State)
    requires Enabled(s, l) && Safe(s, l) && Reaches(Next(s, l), ls, t)
    ensures Reaches(s, [l] + ls, t)
  {
    assert ([l] + ls)[1..] == ls;
  }

  // ---------------------------------------------------------------- firing

  ghost predicate IsDueBatch(s: State, t: State) {
    && t.expired + t.timers == s.timers
    && Sorted(t.expired)
    && (forall e :: e in t.expired ==> e.expiration <= s.clock)
    && (forall e :: e in t.timers ==> s.clock < e.expiration)
  }

  lemma SortedPrefix(h: Heap, timers: seq<Entry>, n: nat)
    requires n <= |timers| && Points(h, timers)
    ensures Sorted(timers[..n])
  {
  }

  lemma BeginTakesDue(s: State)
    requires Inv(s) && Enabled(s, Begin) && Safe(s, Begin)
    ensures IsDueBatch(s, Next(s, Begin))
  {
    hide Points, Agree, Partition, Accounted, RunsFit, AllSpaced, BatchRuns, Sorted;
    var read := if s.Readable() then s.(fd := Disarmed) else s;
    var s1 := read.(now := s.clock, phase := Running, next := 0);
    AccountedAddresses(s.heap, s.created, s.freed);
    BatchIsDue(s1);
    SortedPrefix(s.heap, s.timers, Due(s1));
    hide Inv, LowerBound;
  }

  /** A batch is exactly what is due, in order; what stays behind is not due. */
  lemma BatchIsExact(clock: int, before: seq<Label>, s: State)
    requires Reaches(Initial(clock), before, s) && Enabled(s, Begin) && Safe(s, Begin)
    ensures IsDueBatch(s, Next(s, Begin))
  {
    hide Next, IsDueBatch;
    Reachable(clock, before, s);
    BeginTakesDue(s);
  }

  /** When the callbacks of a batch are over, the latest runs are its timers', once each, in order. */
  lemma WholeBatchRan(clock: int, ls: seq<Label>, s: State)
    requires Reaches(Initial(clock), ls, s) && Enabled(s, StartReset)
    ensures BatchRuns(s.heap, s.expired, s.now, s.runs)
  {
    hide BatchRuns, RunsFit, AllSpaced, Partition, Agree, Points, Accounted;
    Reachable(clock, ls, s);
    assert Entered(s) == s.expired;
  }

  lemma {:induction false} CountZero(runs: seq<Run>, n: nat)
    requires forall r :: r in runs ==> r.sequence != n
    ensures Count(runs, n) == 0
    decreases |runs|
  {
    if runs != [] { CountZero(runs[..|runs| - 1], n); }
  }

  /** A one-shot timer runs at most once; a repeating one leaves its interval between batches. */
  lemma {:induction false} RunsAreSpaced(clock: int, ls: seq<Label>, t: State)
    requires Reaches(Initial(clock), ls, t)
    ensures forall i, j :: 0 <= i < j < |t.runs| && t.runs[i].sequence == t.runs[j].sequence ==>
              t.runs[i].now + Micro(t.runs[i].interval) <= t.runs[j].now
    ensures forall r :: r in t.runs && r.interval <= 0.0 ==> Count(t.runs, r.sequence) == 1
  {
    Reachable(clock, ls, t);
    forall r | r in t.runs && r.interval <= 0.0 ensures Count(t.runs, r.sequence) == 1 {
      OneShotOnce(t.runs, t.created, r);
    }
  }

  lemma {:induction false} OneShotOnce(runs: seq<Run>, created: nat, r: Run)
    requires AllSpaced(runs, created) && r in runs && r.interval <= 0.0
    ensures Count(runs, r.sequence) == 1
    decreases |runs|
  {
    var k := |runs| - 1;
    var last := runs[k];
    var rest := runs[..k];
    if last.sequence == r.sequence {
      assert forall i :: 0 <= i < k && runs[i].sequence == last.sequence ==> Spaced(runs[i], last);
      var j :| 0 <= j < |runs| && runs[j] == r;
      assert j == k;
      CountZero(rest, r.sequence);
    } else {
      assert r in rest;
      OneShotOnce(rest, created, r);
    }
  }

  // ---------------------------------------------------------------- the timerfd

  /**
   The kernel is asked for the expiration, or for 100 microseconds after the clock was read if that
   is later; and a delay before the kernel is asked is added to it.
   */
  lemma ArmedFor(when: int, readAt: int, setAt: int)
    ensures SetTime(HowMuchTimeFromNow(when, readAt), readAt, setAt) ==
            Armed(Max(when, readAt + 100) + (setAt - readAt), readAt, setAt)
  {
    var micro := if when - readAt < 100 then 100 else when - readAt;
    assert micro == micro / 1000000 * 1000000 + micro % 1000000;
  }

  /** When the timerfd is to be readable at the latest. */
  function Latest(expiration: int, fd: TimerFd): int
    requires fd.Armed?
  {
    Max(expiration, fd.readAt + 100) + (fd.setAt - fd.readAt)
  }

  /** Between batches, the timerfd wakes the loop for the earliest timer. */
  ghost predicate Covered(s: State) {
    s.phase == Idle && s.timers != [] ==>
      s.fd.Armed? && s.fd.readAt <= s.fd.setAt <= s.clock && s.fd.at <= Latest(s.timers[0].expiration, s.fd)
  }

  lemma AddCovers(s: State, a: nat)
    requires a in s.heap && Sorted(s.timers) && Covered(s)
    ensures Covered(AddTimerInLoop(s, a))
  {
    InsertSpec(s.timers, s.EntryOf(a));
    ArmedFor(s.heap[a].expiration, s.clock, s.clock + s.lag);
  }

  lemma StepCovers(s: State, l: Label)
    requires Inv(s) && Covered(s) && Enabled(s, l) && Safe(s, l)
    ensures Covered(Next(s, l))
  {
    hide RunsFit, AllSpaced, BatchRuns, Agree, Partition, Micro, Accounted;
    match l
    case RunPosted(a) => AddCovers(s.(posted := s.posted - {a}), a);
    case AddHere(a, when, interval) => AddCovers(NewTimer(s, a, when, interval), a);
    case Cancel(id) =>
      if Key(id.sequence, id.timer) in s.active { EraseSpec(s.timers, s.EntryOf(id.timer)); }
    case Finish => if s.timers != [] { ArmedFor(s.timers[0].expiration, s.clock, s.clock + s.lag); }
    case _ =>
  }

  lemma {:induction false} RunsCover(s: State, ls: seq<Label>, t: State)
    requires Inv(s) && Covered(s) && Reaches(s, ls, t)
    ensures Covered(t)
    decreases |ls|
  {
    if ls != [] {
      StepKeeps(s, ls[0]);
      StepCovers(s, ls[0]);
      RunsCover(Next(s, ls[0]), ls[1..], t);
    }
  }

  /**
   No expiration is lost. Whenever no batch is in progress and a timer is registered, the
   timerfd is set, and it is readable from the earliest expiration on (or from 100 microseconds
   after the clock was read for it, if that is later), plus the time that passed between the
   reading of the clock and timerfd_settime.
   */
  lemma NoLostExpiration(clock: int, ls: seq<Label>, t: State)
    requires Reaches(Initial(clock), ls, t)
    ensures t.phase == Idle && t.timers != [] ==>
              && t.fd.Armed? && t.fd.readAt <= t.fd.setAt <= t.clock
              && t.fd.at <= Latest(t.timers[0].expiration, t.fd)
              && (Latest(t.timers[0].expiration, t.fd) <= t.clock ==> t.Readable())
  {
    var s := Initial(clock);
    assert Owned(s) == [] && Entered(s) == [];
    RunsCover(s, ls, t);
  }
}
