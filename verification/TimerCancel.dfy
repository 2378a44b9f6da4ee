/**
 Exactly when a cancel keeps a callback from being invoked again, and exactly which timers are
 deleted, over all runs of the timer queue.
 */
module TimerCancel {
  import opened TimerModel
  import opened TimerInvariant
  import opened TimerTheorems

  // ---------------------------------------------------------------- what a run can still do

  /** handleRead is called only when the timerfd is readable. */
  ghost predicate OnlyWhenReadable(s: State, ls: seq<Label>)
    decreases |ls|
  {
    ls == [] ||
    (Enabled(s, ls[0]) && Safe(s, ls[0]) && (ls[0] == Begin ==> s.Readable())
     && OnlyWhenReadable(Next(s, ls[0]), ls[1..]))
  }

  /** Some run from s, as epoll may cause it, ends with k invocations of the timer with number n. */
  ghost predicate CanRun(s: State, n: nat, k: nat) {
    exists ls, t :: Reaches(s, ls, t) && OnlyWhenReadable(s, ls) && Count(t.runs, n) == k
  }

  lemma CanRunOn(s: State, l: Label, n: nat, k: nat)
    requires Enabled(s, l) && Safe(s, l) && (l == Begin ==> s.Readable()) && CanRun(Next(s, l), n, k)
    ensures CanRun(s, n, k)
  {
    var ls, t :| Reaches(Next(s, l), ls, t) && OnlyWhenReadable(Next(s, l), ls) && Count(t.runs, n) == k;
    ReachesCons(s, l, ls, t);
    assert ([l] + ls)[1..] == ls;
    assert OnlyWhenReadable(s, [l] + ls);
  }

  /** What handleRead does next by itself. */
  function OwnStep(s: State): Label {
    match s.phase
    case Running => if s.next < |s.expired| then Start else StartReset
    case InCallback => End
    case Resetting => if s.next < |s.expired| then ResetNext else Finish
    case Idle => Begin
  }

  lemma OwnStepGoes(s: State)
    requires Inv(s)
    ensures Enabled(s, OwnStep(s)) && Safe(s, OwnStep(s)) && Inv(Next(s, OwnStep(s)))
  {
    assert Enabled(s, OwnStep(s));
    StepsAreSafe(s, OwnStep(s));
    StepKeeps(s, OwnStep(s));
  }

  lemma BatchSequences(s: State, i: nat, j: nat)
    requires Inv(s) && s.HandleTimer() && i < j < |s.expired|
    ensures s.expired[i].timer in s.heap && s.expired[j].timer in s.heap
    ensures s.heap[s.expired[i].timer].sequence != s.heap[s.expired[j].timer].sequence
  {
    hide Agree, Partition, RunsFit, AllSpaced, BatchRuns;
    assert Owned(s) == s.expired;
    PointsAt(s.heap, s.expired, s.expired[i]);
    PointsAt(s.heap, s.expired, s.expired[j]);
    assert Less(s.expired[i], s.expired[j]);
  }

  lemma StartEnters(s: State)
    requires Inv(s) && Enabled(s, Start) && Safe(s, Start)
    ensures Next(s, Start) == s.(phase := InCallback, runs := s.runs + [RunOf(s.heap, s.expired[s.next], s.now)])
  {
    StepRuns(s, Start);
  }

  /** A timer of the batch that has not been entered yet can be: nothing need come between. */
  lemma {:induction false} EnterTimer(s: State, j: nat)
    requires Inv(s) && s.HandleTimer() && j < |s.expired| && s.expired[j].timer in s.heap
    requires if s.phase == InCallback then s.next < j else s.next <= j
    ensures var n := s.heap[s.expired[j].timer].sequence; CanRun(s, n, Count(s.runs, n) + 1)
    decreases j - s.next, s.phase == Running
  {
    hide Inv, Count, CanRun, Safe;
    var n := s.heap[s.expired[j].timer].sequence;
    var l := OwnStep(s);
    OwnStepGoes(s);
    var t := Next(s, l);
    if s.phase == Running {
      StartEnters(s);
      CountAppend(s.runs, RunOf(s.heap, s.expired[s.next], s.now), n);
    }
    if s.phase == Running && s.next == j {
      Here(t, n);
    } else {
      if s.phase == Running { BatchSequences(s, s.next, j); }
      EnterTimer(t, j);
    }
    CanRunOn(s, l, n, Count(s.runs, n) + 1);
  }

  lemma Here(s: State, n: nat)
    ensures CanRun(s, n, Count(s.runs, n))
  {
    assert Reaches(s, [], s) && OnlyWhenReadable(s, []);
  }

  /** The steps of handleRead leave a posted timer alone. */
  lemma PostedStays(s: State, a: nat)
    requires Inv(s) && s.phase != Idle && a in s.posted
    ensures Enabled(s, OwnStep(s)) && Safe(s, OwnStep(s)) && OwnStep(s) != Begin && a in s.heap
    ensures var t := Next(s, OwnStep(s));
            && a in t.posted && a in t.heap && t.heap[a] == s.heap[a]
            && Count(t.runs, s.heap[a].sequence) == Count(s.runs, s.heap[a].sequence)
  {
    hide Agree, RunsFit, AllSpaced, BatchRuns, Insert, Micro, Count;
    OwnStepGoes(s);
    assert OwnedOnce(s.heap, s.posted, s.timers, Owned(s), a);
    StepRuns(s, OwnStep(s));
    if s.phase == Running && s.next < |s.expired| {
      var e := s.expired[s.next];
      assert e in Owned(s) && e.timer != a;
      CountAppend(s.runs, RunOf(s.heap, e, s.now), s.heap[a].sequence);
    }
    if s.phase == Resetting && s.next < |s.expired| {
      assert Owned(s)[0] == s.expired[s.next] && s.expired[s.next] in Owned(s);
      ResetOneFrame(s, a);
    }
  }

  function Rank(s: State): nat {
    match s.phase
    case Idle => 0
    case Resetting => 1
    case _ => 2
  }

  lemma OwnStepDescends(s: State)
    requires Inv(s) && s.phase != Idle && Enabled(s, OwnStep(s)) && Safe(s, OwnStep(s))
    ensures var t := Next(s, OwnStep(s));
            && t.next <= |t.expired| && s.next <= |s.expired|
            && (Rank(t) < Rank(s) || (Rank(t) == Rank(s) &&
                 (|t.expired| - t.next < |s.expired| - s.next
                  || (t.phase == InCallback && s.phase == Running && |t.expired| - t.next == |s.expired| - s.next))))
  {
    OwnStepGoes(s);
    if s.phase == Running && s.next < |s.expired| { StartEnters(s); }
    hide Insert, Micro, Consistent, History, Accounted;
  }

  /** A timer that addTimer has created can run, whatever else is going on. */
  lemma {:induction false} PostedTimerRuns(s: State, a: nat)
    requires Inv(s) && Covered(s) && a in s.posted && a in s.heap
    ensures CanRun(s, s.heap[a].sequence, Count(s.runs, s.heap[a].sequence) + 1)
    decreases Rank(s), |s.expired| - s.next, s.phase == Running
  {
    hide Inv, Covered, Count, CanRun, Reaches, Safe, Enabled, Next, OwnStep, Rank;
    if s.phase == Idle {
      IdlePostedRuns(s, a);
    } else {
      PostedStays(s, a);
      StepCovers(s, OwnStep(s));
      OwnStepGoes(s);
      OwnStepDescends(s);
      PostedTimerRuns(Next(s, OwnStep(s)), a);
      CanRunOn(s, OwnStep(s), s.heap[a].sequence, Count(s.runs, s.heap[a].sequence) + 1);
    }
  }

  lemma AddsPosted(s: State, a: nat)
    requires Inv(s) && s.phase == Idle && a in s.posted && a in s.heap
    ensures Enabled(s, RunPosted(a)) && Safe(s, RunPosted(a))
    ensures var t := Next(s, RunPosted(a));
            t.phase == Idle && t.heap == s.heap && t.runs == s.runs && s.EntryOf(a) in t.timers
  {
    hide Agree, Partition, Accounted, RunsFit, AllSpaced, BatchRuns, Insert, Erase;
    InsertSpec(s.timers, s.EntryOf(a));
  }

  lemma IdlePostedRuns(s: State, a: nat)
    requires Inv(s) && Covered(s) && s.phase == Idle && a in s.posted && a in s.heap
    ensures CanRun(s, s.heap[a].sequence, Count(s.runs, s.heap[a].sequence) + 1)
  {
    hide Inv, Covered, Count, CanRun, Next, Enabled, Safe;
    AddsPosted(s, a);
    StepKeeps(s, RunPosted(a));
    StepCovers(s, RunPosted(a));
    ComesDue(Next(s, RunPosted(a)), s.EntryOf(a));
    CanRunOn(s, RunPosted(a), s.heap[a].sequence, Count(s.runs, s.heap[a].sequence) + 1);
  }

  /** Time passes until the timer is due and the timerfd readable. */
  lemma ComesDue(s: State, e: Entry)
    requires Inv(s) && Covered(s) && s.phase == Idle && e in s.timers && e.timer in s.heap
    ensures var n := s.heap[e.timer].sequence; CanRun(s, n, Count(s.runs, n) + 1)
  {
    var time := Max(s.clock, Max(e.expiration, s.fd.at));
    var l := Tick(time);
    StepKeeps(s, l);
    assert Next(s, l) == s.(clock := time);
    hide Inv, Count, CanRun, Next;
    DueTimerRuns(Next(s, l), e);
    var n := s.heap[e.timer].sequence;
    CanRunOn(s, l, n, Count(s.runs, n) + 1);
  }

  lemma BeginFields(s: State)
    requires Enabled(s, Begin) && Safe(s, Begin)
    ensures var t := Next(s, Begin); t.heap == s.heap && t.runs == s.runs && t.phase == Running && t.next == 0
  {
  }

  /** An active timer that is due can run at once. */
  lemma DueTimerRuns(s: State, e: Entry)
    requires Inv(s) && s.phase == Idle && s.Readable()
    requires e in s.timers && e.expiration <= s.clock && e.timer in s.heap
    ensures var n := s.heap[e.timer].sequence; CanRun(s, n, Count(s.runs, n) + 1)
  {
    hide Inv, Count, CanRun, Next, Safe;
    var n := s.heap[e.timer].sequence;
    StepsAreSafe(s, Begin);
    StepKeeps(s, Begin);
    BeginTakesDue(s);
    BeginFields(s);
    var t := Next(s, Begin);
    assert e in t.expired + t.timers && e in t.expired;
    var j :| 0 <= j < |t.expired| && t.expired[j] == e;
    EnterTimer(t, j);
    CanRunOn(s, Begin, n, Count(s.runs, n) + 1);
  }

  // ---------------------------------------------------------------- cancel

  /** In no run from s does the count of the timer's invocations exceed k. */
  ghost predicate NoMoreThan(s: State, n: nat, k: nat) {
    forall ls, t :: Reaches(s, ls, t) ==> Count(t.runs, n) <= k
  }

  lemma CanRunIsMore(s: State, n: nat, k: nat)
    requires CanRun(s, n, k + 1)
    ensures !NoMoreThan(s, n, k)
  {
    var ls, t :| Reaches(s, ls, t) && Count(t.runs, n) == k + 1;
  }

  /** Some later run still invokes the timer that was cancelled. */
  lemma CancelMisses(s: State, a: nat)
    requires Inv(s) && Covered(s) && UserCode(s) && a in s.heap
    requires s.EntryOf(a) !in s.timers && s.EntryOf(a) !in Entered(s)
    ensures var id := TimerId(a, s.heap[a].sequence);
            Safe(s, Cancel(id)) && CanRun(Next(s, Cancel(id)), id.sequence, Count(s.runs, id.sequence) + 1)
  {
    hide RunsFit, AllSpaced, BatchRuns, Accounted;
    var n := s.heap[a].sequence;
    var id := TimerId(a, n);
    StepsAreSafe(s, Cancel(id));
    StepKeeps(s, Cancel(id));
    StepCovers(s, Cancel(id));
    var t := Next(s, Cancel(id));
    assert s.KeyOf(a) !in s.active && t == s.(cancelling := t.cancelling);
    assert OwnedOnce(s.heap, s.posted, s.timers, Owned(s), a);
    hide Inv, Covered, Count, CanRun, Next, Safe, OwnedOnce;
    if a in s.posted {
      PostedTimerRuns(t, a);
    } else {
      assert forall i :: 0 <= i <= s.next < |s.expired| ==> Entered(s)[i] == s.expired[i];
      var j :| 0 <= j < |s.expired| && s.expired[j] == s.EntryOf(a);
      EnterTimer(t, j);
    }
  }

  lemma ReachableIsCovered(clock: int, ls: seq<Label>, s: State)
    requires Reaches(Initial(clock), ls, s)
    ensures Covered(s)
  {
    Reachable(clock, [], Initial(clock));
    assert Covered(Initial(clock));
    hide Inv, Covered, Reaches;
    RunsCover(Initial(clock), ls, s);
  }

  /**
   A cancelled timer is not invoked again, in any run, exactly if it was active when it was
   cancelled, or its callback had already been entered in the current batch. In particular a
   cancel that overtakes the queued addTimerInLoop is lost.
   */
  lemma CancelIsExact(clock: int, before: seq<Label>, s: State, a: nat)
    requires Reaches(Initial(clock), before, s) && UserCode(s) && a in s.heap
    ensures var id := TimerId(a, s.heap[a].sequence);
            && Safe(s, Cancel(id))
            && (NoMoreThan(Next(s, Cancel(id)), id.sequence, Count(s.runs, id.sequence))
                <==> s.EntryOf(a) in s.timers || s.EntryOf(a) in Entered(s))
  {
    Reachable(clock, before, s);
    ReachableIsCovered(clock, before, s);
    var n := s.heap[a].sequence;
    var id := TimerId(a, n);
    EnteredAreOwned(s);
    hide Inv, Covered, Count, Next, CanRun;
    assert Safe(s, Cancel(id));
    hide Safe;
    if s.EntryOf(a) in s.timers || s.EntryOf(a) in Entered(s) {
      forall ls, t | Reaches(Next(s, Cancel(id)), ls, t) ensures Count(t.runs, n) <= Count(s.runs, n) {
        CancelStops(clock, before, s, a, ls, t);
      }
    } else {
      CancelMisses(s, a);
      CanRunIsMore(Next(s, Cancel(id)), n, Count(s.runs, n));
    }
  }

  lemma JustPosted(s: State)
    requires s == Next(Initial(0), Post(8, 10, 0.0))
    ensures Reaches(Initial(0), [Post(8, 10, 0.0)], s)
    ensures s == Initial(0).(heap := map[8 := Timer(10, 0.0, 0, false)], created := 1, posted := {8})
    ensures Next(s, Cancel(TimerId(8, 0))) == s
  {
    assert Reaches(s, [], s);
  }

  /** The input for which a cancel is lost: it overtakes the queued addTimerInLoop. */
  lemma CancelBeforeAddIsLost()
    ensures var s := Next(Initial(0), Post(8, 10, 0.0));
            && Enabled(s, Cancel(TimerId(8, 0))) && Safe(s, Cancel(TimerId(8, 0)))
            && CanRun(Next(s, Cancel(TimerId(8, 0))), 0, 1)
  {
    var s := Next(Initial(0), Post(8, 10, 0.0));
    JustPosted(s);
    Reachable(0, [Post(8, 10, 0.0)], s);
    assert Covered(s);
    hide Inv, Covered, Reaches, CanRun;
    PostedTimerRuns(s, 8);
  }

  // ---------------------------------------------------------------- deletion

  /** A cancel with this sequence number is among the steps. */
  ghost predicate Asked(ls: seq<Label>, n: nat) {
    exists l :: l in ls && l.Cancel? && l.id.sequence == n
  }

  /** A one-shot timer that has run. */
  ghost predicate Spent(runs: seq<Run>, n: nat) {
    exists r :: r in runs && r.sequence == n && r.interval <= 0.0
  }

  /** While reset is at work, the timers it still has before it have run. */
  ghost predicate RestHasRun(s: State) {
    s.phase == Resetting ==>
      forall e :: e in Owned(s) ==> e.timer in s.heap && RunOf(s.heap, e, s.now) in s.runs
  }

  ghost predicate Justified(s: State, ls: seq<Label>) {
    && (forall k :: k in s.cancelling ==> Asked(ls, k.sequence))
    && (forall n :: n in s.freed ==> Asked(ls, n) || Spent(s.runs, n))
    && RestHasRun(s)
  }

  lemma StartResetHasRun(s: State)
    requires Inv(s) && Enabled(s, StartReset)
    ensures RestHasRun(Next(s, StartReset))
  {
    hide Points, Agree, Partition, Accounted, RunsFit, AllSpaced;
    var t := Next(s, StartReset);
    assert Entered(s) == s.expired && Owned(t) == s.expired;
    forall e | e in Owned(t) ensures e.timer in t.heap && RunOf(t.heap, e, t.now) in t.runs {
      var i :| 0 <= i < |s.expired| && s.expired[i] == e;
      assert s.runs[|s.runs| - |s.expired| + i] == RunOf(s.heap, s.expired[i], s.now);
    }
  }

  lemma RestIsOther(s: State, e: Entry)
    requires Inv(s) && Enabled(s, ResetNext) && e in s.expired[s.next + 1..]
    ensures e in Owned(s) && e.timer != s.expired[s.next].timer
  {
    hide Points, Agree, Partition, Accounted, RunsFit, AllSpaced, BatchRuns;
    var owned := Owned(s);
    var i :| 0 <= i < |s.expired| - s.next - 1 && s.expired[s.next + 1..][i] == e;
    assert owned[i + 1] == e && owned[0] == s.expired[s.next];
    LaterIsOther(s.heap, owned, i + 1);
  }

  lemma LaterIsOther(h: Heap, entries: seq<Entry>, i: nat)
    requires Points(h, entries) && 0 < i < |entries|
    ensures entries[i].timer != entries[0].timer
  {
    assert Less(entries[0], entries[i]);
    PointsAt(h, entries, entries[0]);
    PointsAt(h, entries, entries[i]);
  }

  lemma ResetNextHasRun(s: State)
    requires Inv(s) && RestHasRun(s) && Enabled(s, ResetNext) && Safe(s, ResetNext)
    ensures RestHasRun(Next(s, ResetNext))
  {
    hide Inv, Next;
    var t := Next(s, ResetNext);
    ResetNextFields(s);
    forall e | e in Owned(t) ensures e.timer in t.heap && RunOf(t.heap, e, t.now) in t.runs {
      RestIsOther(s, e);
      ResetOneFrame(s, e.timer);
    }
  }

  lemma ResetNextFields(s: State)
    requires Enabled(s, ResetNext) && Safe(s, ResetNext)
    ensures var t := Next(s, ResetNext);
            && t.phase == s.phase && t.next == s.next + 1 && t.expired == s.expired && t.runs == s.runs
            && t.now == s.now && t.cancelling == s.cancelling
  {
    hide Insert, Micro;
  }

  /** reset deletes the timer only if it was cancelled, or is a one-shot. */
  lemma ResetNextFrees(s: State, n: nat)
    requires Inv(s) && Enabled(s, ResetNext) && Safe(s, ResetNext)
    requires n in Next(s, ResetNext).freed && n !in s.freed
    ensures var t := s.heap[s.expired[s.next].timer];
            t.sequence == n && (s.KeyOf(s.expired[s.next].timer) in s.cancelling || t.interval <= 0.0)
  {
    hide Insert, Micro, Points, Agree, Partition, RunsFit, AllSpaced, BatchRuns;
  }

  lemma StepFrees(s: State, l: Label)
    requires Inv(s) && Enabled(s, l) && Safe(s, l) && l != ResetNext && !l.Cancel?
    ensures Next(s, l).freed == s.freed
    ensures forall k :: k in Next(s, l).cancelling ==> k in s.cancelling
  {
  }

  lemma OtherHasRun(s: State, l: Label)
    requires Inv(s) && RestHasRun(s) && Enabled(s, l) && Safe(s, l) && l != StartReset && l != ResetNext
    ensures RestHasRun(Next(s, l))
  {
    hide Agree, Partition, Accounted, RunsFit, AllSpaced, BatchRuns, Insert, Erase, Micro;
    if s.phase == Resetting {
      var t := Next(s, l);
      if t.phase == Resetting {
        assert t.expired == s.expired && t.next == s.next;
        assert Owned(t) == Owned(s);
      }
    }
  }

  lemma CancelFrees(s: State, id: TimerId)
    requires Inv(s) && Enabled(s, Cancel(id)) && Safe(s, Cancel(id))
    ensures var t := Next(s, Cancel(id));
            && (forall n :: n in t.freed ==> n in s.freed || n == id.sequence)
            && (forall k :: k in t.cancelling ==> k in s.cancelling || k.sequence == id.sequence)
  {
    hide Points, Partition, Accounted, RunsFit, AllSpaced, BatchRuns, Erase;
    if Key(id.sequence, id.timer) in s.active {
      AgreeAt(s.heap, s.timers, s.active, Key(id.sequence, id.timer));
    }
  }

  lemma AskedMore(ls: seq<Label>, l: Label, n: nat)
    ensures Asked(ls + [l], n) <==> Asked(ls, n) || (l.Cancel? && l.id.sequence == n)
  {
    if Asked(ls, n) {
      var x :| x in ls && x.Cancel? && x.id.sequence == n;
      assert x in ls + [l];
    }
    assert l in ls + [l];
  }

  lemma SpentStays(s: State, l: Label, n: nat)
    requires Inv(s) && Enabled(s, l) && Safe(s, l) && Spent(s.runs, n)
    ensures Spent(Next(s, l).runs, n)
  {
    StepRuns(s, l);
    var r :| r in s.runs && r.sequence == n && r.interval <= 0.0;
    assert r in Next(s, l).runs;
  }

  lemma NewlyFreed(s: State, ls: seq<Label>, l: Label, n: nat)
    requires Inv(s) && Justified(s, ls) && Enabled(s, l) && Safe(s, l)
    requires n in Next(s, l).freed && n !in s.freed
    ensures Asked(ls + [l], n) || Spent(Next(s, l).runs, n)
  {
    hide Inv, Next, Safe, Asked;
    AskedMore(ls, l, n);
    if l.Cancel? {
      CancelFrees(s, l.id);
    } else if l == ResetNext {
      StepsAreSafe(s, l);
      ResetNextFrees(s, n);
      ResetSpends(s, n);
    } else {
      StepFrees(s, l);
    }
  }

  lemma ResetSpends(s: State, n: nat)
    requires RestHasRun(s) && Enabled(s, ResetNext) && Safe(s, ResetNext)
    requires var t := s.heap[s.expired[s.next].timer]; t.sequence == n
    ensures s.heap[s.expired[s.next].timer].interval <= 0.0 ==> Spent(Next(s, ResetNext).runs, n)
  {
    assert Owned(s)[0] == s.expired[s.next] && s.expired[s.next] in Owned(s);
    ResetNextFields(s);
  }

  lemma JustifiedStep(s: State, ls: seq<Label>, l: Label)
    requires Inv(s) && Justified(s, ls) && Enabled(s, l) && Safe(s, l)
    ensures Justified(Next(s, l), ls + [l])
  {
    hide Inv, Next, Safe, Asked, Spent, RestHasRun;
    var t := Next(s, l);
    forall k | k in t.cancelling ensures Asked(ls + [l], k.sequence) {
      AskedMore(ls, l, k.sequence);
      if l.Cancel? { CancelFrees(s, l.id); }
      else if l == ResetNext { ResetNextFields(s); }
      else { StepFrees(s, l); }
    }
    forall n | n in t.freed ensures Asked(ls + [l], n) || Spent(t.runs, n) {
      AskedMore(ls, l, n);
      if n !in s.freed { NewlyFreed(s, ls, l, n); }
      else if Spent(s.runs, n) { SpentStays(s, l, n); }
    }
    if l == StartReset { StartResetHasRun(s); }
    else if l == ResetNext { ResetNextHasRun(s); }
    else { OtherHasRun(s, l); }
  }

  lemma {:induction false} JustifiedRuns(s: State, done: seq<Label>, ls: seq<Label>, t: State)
    requires Inv(s) && Justified(s, done) && Reaches(s, ls, t)
    ensures Justified(t, done + ls)
    decreases |ls|
  {
    hide Inv, Justified, Next, Safe;
    if ls == [] {
      assert done + ls == done;
    } else {
      StepKeeps(s, ls[0]);
      JustifiedStep(s, done, ls[0]);
      JustifiedRuns(Next(s, ls[0]), done + [ls[0]], ls[1..], t);
      assert done + [ls[0]] + ls[1..] == done + ls;
    }
  }

  /**
   A timer is deleted only if a cancel with its own sequence number was made, or it is a one-shot
   and has run. So no cancel, stale or not, ever leads to the deletion of another timer.
   */
  lemma DeletedOnlyIfCancelledOrSpent(clock: int, ls: seq<Label>, t: State, n: nat)
    requires Reaches(Initial(clock), ls, t) && n in t.freed
    ensures Asked(ls, n) || Spent(t.runs, n)
  {
    Reachable(clock, [], Initial(clock));
    JustifiedRuns(Initial(clock), [], ls, t);
    assert [] + ls == ls;
  }
}
