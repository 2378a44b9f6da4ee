/**
 The task queue and the wakeup protocol of net/EventLoop.cc as a step machine: one loop thread
 and any number of other threads that post tasks and ask it to quit. Another thread's call is
 several steps: the change under the lock and the later write to the eventfd, or, for quit, the
 test of the flag, its change and the write.
 */
module EventLoopModel {

  type Task = nat
  type Thread = nat

  const EVENTFD_MAX: nat := 0xFFFF_FFFF_FFFF_FFFE

  /** Where the loop thread is. */
  datatype Phase =
    | Outside                  // before loop() or after its return
    | Checking                 // at while(!quit_)
    | Polling                  // in poll
    | Handling(readable: bool) // in the handlers; the eventfd is still to be read
    | Swapping(last: bool)     // at the swap of doPendingFuncs
    | Running(last: bool)      // in its loop over the batch

  datatype State = State(
    phase: Phase,
    quit: bool,                // quit_
    calling: bool,             // callingPendingFunc_
    pending: seq<Task>,        // pendingFunc_
    batch: seq<Task>,          // what doPendingFuncs has still to run
    counter: nat,              // of the eventfd
    posters: set<Thread>,      // between push and write in queueInLoop
    deciders: set<Thread>,     // between the test and the change of the flag in quit
    quitters: set<Thread>,     // between the change and the write in quit
    pushed: seq<Task>,         // tasks ever queued, in order
    executed: seq<Task>,       // tasks run, in order
    mark: nat)                 // tasks queued before the latest final swap

  const INITIAL := State(Outside, false, false, [], [], 0, {}, {}, {}, [], [], 0)

  /** write(2) of 1; it fails, and changes nothing, only if the counter is full. */
  function Weakup(counter: nat): nat {
    if counter < EVENTFD_MAX then counter + 1 else counter
  }

  datatype Label =
    // other threads
    | Push(t: Thread, task: Task)
    | PushWrite(t: Thread)
    | TestQuit(t: Thread)
    | SetQuit(t: Thread)
    | QuitWrite(t: Thread)
    // user code on the loop thread
    | QueueHere(task: Task)
    | QuitHere
    // the loop
    | Enter
    | Check
    | Poll(readable: bool)
    | HandleWeakup
    | HandlersDone
    | Swap
    | RunNext
    | BatchDone

  predicate UserCode(s: State) {
    s.phase.Handling? || s.phase.Running?
  }

  /** The thread is not inside one of the two calls. */
  predicate Free(s: State, t: Thread) {
    t !in s.posters && t !in s.deciders && t !in s.quitters
  }

  predicate Enabled(s: State, l: Label) {
    match l
    case Push(t, _) => Free(s, t)
    case PushWrite(t) => t in s.posters
    case TestQuit(t) => Free(s, t)
    case SetQuit(t) => t in s.deciders
    case QuitWrite(t) => t in s.quitters
    case QueueHere(_) => UserCode(s)
    case QuitHere => UserCode(s)
    case Enter => s.phase == Outside
    case Check => s.phase == Checking
    case Poll(readable) => s.phase == Polling && (readable ==> s.counter > 0)
    case HandleWeakup => s.phase == Handling(true)
    case HandlersDone => s.phase == Handling(false)
    case Swap => s.phase.Swapping?
    case RunNext => s.phase.Running? && s.batch != []
    case BatchDone => s.phase.Running? && s.batch == []
  }

  function Next(s: State, l: Label): State
    requires Enabled(s, l)
  {
    match l
    case Push(t, task) =>
      s.(pending := s.pending + [task], pushed := s.pushed + [task], posters := s.posters + {t})
    case PushWrite(t) => s.(counter := Weakup(s.counter), posters := s.posters - {t})
    case TestQuit(t) => if s.quit then s else s.(deciders := s.deciders + {t})
    case SetQuit(t) => s.(quit := true, deciders := s.deciders - {t}, quitters := s.quitters + {t})
    case QuitWrite(t) => s.(counter := Weakup(s.counter), quitters := s.quitters - {t})
    case QueueHere(task) =>
      s.(pending := s.pending + [task], pushed := s.pushed + [task],
         counter := if s.calling then Weakup(s.counter) else s.counter)
    case QuitHere => s.(quit := true)
    case Enter => s.(phase := Checking, quit := false)
    case Check => s.(phase := if s.quit then Swapping(true) else Polling)
    case Poll(readable) => s.(phase := Handling(readable))
    case HandleWeakup => s.(phase := Handling(false), counter := 0)
    case HandlersDone => s.(phase := Swapping(false))
    case Swap =>
      s.(phase := Running(s.phase.last), calling := true, batch := s.pending, pending := [],
         mark := if s.phase.last then |s.pushed| else s.mark)
    case RunNext => s.(executed := s.executed + [s.batch[0]], batch := s.batch[1..])
    case BatchDone => s.(phase := if s.phase.last then Outside else Checking, calling := false)
  }

  ghost predicate Reaches(s: State, ls: seq<Label>, t: State)
    decreases |ls|
  {
    if ls == [] then s == t else Enabled(s, ls[0]) && Reaches(Next(s, ls[0]), ls[1..], t)
  }

  // ---------------------------------------------------------------- the invariant

  /** Someone has woken the loop, or is about to. */
  predicate Woken(s: State) {
    s.counter > 0 || s.posters != {}
  }

  ghost predicate Inv(s: State) {
    // unless the swap is still to come in this turn, queued tasks come with a wakeup
    && (!s.phase.Handling? && !s.phase.Swapping? && s.pending != [] ==> Woken(s))
    // a quit that the loop has not seen comes with a wakeup
    && (s.phase == Polling && s.quit ==> s.counter > 0 || s.quitters != {})
    // every task is queued, in the batch, or was run
    && s.executed + s.batch + s.pending == s.pushed
    && (!s.phase.Running? ==> s.batch == [])
    && (s.calling <==> s.phase.Running?)
    // what the final swap found is run before loop() returns
    && s.mark <= |s.pushed|
    && (s.phase == Running(true) ==> |s.executed| + |s.batch| == s.mark)
    && (s.phase == Outside ==> |s.executed| == s.mark)
  }

  lemma RunKeeps(s: State)
    requires Inv(s) && Enabled(s, RunNext)
    ensures Inv(Next(s, RunNext))
  {
    var t := Next(s, RunNext);
    assert s.batch == [s.batch[0]] + t.batch;
    assert t.executed + t.batch == s.executed + s.batch;
  }

  lemma QueueKeeps(s: State, task: Task)
    requires s.executed + s.batch + s.pending == s.pushed
    ensures s.executed + s.batch + (s.pending + [task]) == s.pushed + [task]
  {
    assert s.executed + s.batch + (s.pending + [task]) == (s.executed + s.batch + s.pending) + [task];
  }

  lemma StepKeeps(s: State, l: Label)
    requires Inv(s) && Enabled(s, l)
    ensures Inv(Next(s, l))
  {
    hide Inv, Next, Enabled;
    match l
    case Push(t, task) => PushKeeps(s, l);
    case QueueHere(task) => PushKeeps(s, l);
    case Swap => BatchKeeps(s, l);
    case RunNext => RunKeeps(s);
    case BatchDone => BatchKeeps(s, l);
    case _ => OtherKeeps(s, l);
  }

  lemma PushKeeps(s: State, l: Label)
    requires Inv(s) && Enabled(s, l) && (l.Push? || l.QueueHere?)
    ensures Inv(Next(s, l))
  {
    QueueKeeps(s, l.task);
  }

  lemma BatchKeeps(s: State, l: Label)
    requires Inv(s) && Enabled(s, l) && (l == Swap || l == BatchDone)
    ensures Inv(Next(s, l))
  {
    assert s.executed + [] + s.pending == s.executed + s.pending + [];
    assert |s.executed + [] + s.pending| == |s.executed| + |s.pending|;
  }

  lemma OtherKeeps(s: State, l: Label)
    requires Inv(s) && Enabled(s, l)
    requires !l.Push? && !l.QueueHere? && l != Swap && l != RunNext && l != BatchDone
    ensures Inv(Next(s, l))
  {
  }

  lemma {:induction false} RunsKeep(s: State, ls: seq<Label>, t: State)
    requires Inv(s) && Reaches(s, ls, t)
    ensures Inv(t)
    decreases |ls|
  {
    if ls != [] {
      StepKeeps(s, ls[0]);
      RunsKeep(Next(s, ls[0]), ls[1..], t);
    }
  }

  lemma RanUpToMark(s: State)
    requires Inv(s) && s.phase == Outside
    ensures s.mark <= |s.pushed| && s.executed == s.pushed[..s.mark]
  {
    assert s.executed + [] + s.pending == s.executed + s.pending;
  }

  // ---------------------------------------------------------------- theorems

  /**
   No lost wakeup, for any number of threads: when the loop is about to sleep in poll although a
   task is queued or it was asked to quit, the eventfd is readable, or the thread that did it has
   yet to write to it.
   */
  lemma NoLostWakeup(ls: seq<Label>, t: State)
    requires Reaches(INITIAL, ls, t) && t.phase == Polling
    ensures t.pending != [] ==> t.counter > 0 || t.posters != {}
    ensures t.quit ==> t.counter > 0 || t.quitters != {}
  {
    RunsKeep(INITIAL, ls, t);
  }

  /** Every task runs at most once, in the order of queueing; nothing is lost. */
  lemma TasksRunOnceInOrder(ls: seq<Label>, t: State)
    requires Reaches(INITIAL, ls, t)
    ensures t.executed + t.batch + t.pending == t.pushed
    ensures t.executed <= t.pushed
    ensures t.phase == Outside ==> t.mark <= |t.pushed| && t.executed == t.pushed[..t.mark]
    ensures t.calling <==> t.phase.Running?
  {
    RunsKeep(INITIAL, ls, t);
    assert t.executed + (t.batch + t.pending) == t.executed + t.batch + t.pending;
    if t.phase == Outside {
      RanUpToMark(t);
    }
  }

  /** n tasks of a batch, one after the other. */
  lemma {:induction false} BatchRuns(s: State, n: nat)
    requires s.phase.Running? && |s.batch| == n
    ensures Reaches(s, seq(n, _ => RunNext), s.(executed := s.executed + s.batch, batch := []))
    decreases n
  {
    if n == 0 {
      assert s.executed + s.batch == s.executed;
    } else {
      var t := Next(s, RunNext);
      BatchRuns(t, n - 1);
      assert seq(n, _ => RunNext)[1..] == seq(n - 1, _ => RunNext);
      assert s.batch == [s.batch[0]] + t.batch;
      assert t.executed + t.batch == s.executed + s.batch;
    }
  }

  lemma ReachesCons(s: State, l: Label, ls: seq<Label>, t: State)
    requires Enabled(s, l) && Reaches(Next(s, l), ls, t)
    ensures Reaches(s, [l] + ls, t)
  {
    assert ([l] + ls)[1..] == ls;
  }

  lemma {:induction false} ReachesAppend(s: State, ls: seq<Label>, t: State, more: seq<Label>, u: State)
    requires Reaches(s, ls, t) && Reaches(t, more, u)
    ensures Reaches(s, ls + more, u)
    decreases |ls|
  {
    if ls == [] {
      assert ls + more == more;
    } else {
      assert (ls + more)[1..] == ls[1..] + more;
      ReachesAppend(Next(s, ls[0]), ls[1..], t, more, u);
    }
  }

  lemma ReachesOne(s: State, l: Label)
    requires Enabled(s, l)
    ensures Reaches(s, [l], Next(s, l))
  {
    assert Reaches(Next(s, l), [], Next(s, l));
  }

  lemma ReachesSnoc(s: State, ls: seq<Label>, t: State, l: Label)
    requires Reaches(s, ls, t) && Enabled(t, l)
    ensures Reaches(s, ls + [l], Next(t, l))
  {
    ReachesOne(t, l);
    ReachesAppend(s, ls, t, [l], Next(t, l));
  }

  /** The steps of one turn of the loop in which n tasks are run. */
  function TurnOf(n: nat): seq<Label> {
    [Poll(true)] + ([HandleWeakup] + ([HandlersDone] + ([Swap] + (seq(n, _ => RunNext) + [BatchDone]))))
  }

  /** Once the eventfd is readable, one turn runs everything that is queued. */
  lemma WokenLoopServes(s: State)
    requires Inv(s) && s.phase == Polling && s.counter > 0
    ensures Reaches(s, TurnOf(|s.pending|),
                    s.(phase := Checking, counter := 0, pending := [], executed := s.executed + s.pending))
  {
    var s1 := Next(s, Poll(true));
    var s2 := Next(s1, HandleWeakup);
    var s3 := Next(s2, HandlersDone);
    var s4 := Next(s3, Swap);
    var n := |s.pending|;
    BatchRuns(s4, n);
    var s5 := s4.(executed := s4.executed + s4.batch, batch := []);
    var s6 := Next(s5, BatchDone);
    assert s6 == s.(phase := Checking, counter := 0, pending := [], executed := s.executed + s.pending);
    assert Reaches(s6, [], s6);
    ReachesCons(s5, BatchDone, [], s6);
    ReachesAppend(s4, seq(n, _ => RunNext), s5, [BatchDone], s6);
    var run := seq(n, _ => RunNext) + [BatchDone];
    ReachesCons(s3, Swap, run, s6);
    ReachesCons(s2, HandlersDone, [Swap] + run, s6);
    ReachesCons(s1, HandleWeakup, [HandlersDone] + ([Swap] + run), s6);
    ReachesCons(s, Poll(true), [HandleWeakup] + ([HandlersDone] + ([Swap] + run)), s6);
  }

  /** A loop asleep on queued tasks is served as soon as any one of the posters has written. */
  lemma AnyPosterServes(s: State)
    requires Inv(s) && s.phase == Polling && s.pending != [] && s.counter == 0
    ensures s.posters != {}
    ensures forall p :: p in s.posters ==>
              var t := Next(s, PushWrite(p));
              Reaches(t, TurnOf(|t.pending|),
                      t.(phase := Checking, counter := 0, pending := [], executed := s.pushed))
  {
    forall p | p in s.posters
      ensures var t := Next(s, PushWrite(p));
              Reaches(t, TurnOf(|t.pending|),
                      t.(phase := Checking, counter := 0, pending := [], executed := s.pushed))
    {
      var t := Next(s, PushWrite(p));
      StepKeeps(s, PushWrite(p));
      WokenLoopServes(t);
      assert s.executed + [] + s.pending == s.executed + s.pending;
    }
  }

  /** A loop asleep although it was asked to quit returns, with every task run, once it is woken. */
  lemma QuitLoopReturns(s: State)
    requires Inv(s) && s.phase == Polling && s.quit && s.counter > 0
    ensures Reaches(s, TurnOf(|s.pending|) + [Check, Swap, BatchDone],
                    s.(phase := Outside, counter := 0, pending := [], executed := s.pushed, mark := |s.pushed|))
  {
    WokenLoopServes(s);
    assert s.executed + [] + s.pending == s.executed + s.pending;
    var t := s.(phase := Checking, counter := 0, pending := [], executed := s.pushed);
    var t1 := Next(t, Check);
    var t2 := Next(t1, Swap);
    var t3 := Next(t2, BatchDone);
    assert t3 == s.(phase := Outside, counter := 0, pending := [], executed := s.pushed, mark := |s.pushed|);
    assert Reaches(t3, [], t3);
    ReachesCons(t2, BatchDone, [], t3);
    ReachesCons(t1, Swap, [BatchDone], t3);
    ReachesCons(t, Check, [Swap] + [BatchDone], t3);
    assert [Check] + ([Swap] + [BatchDone]) == [Check, Swap, BatchDone];
    ReachesAppend(s, TurnOf(|s.pending|), t, [Check, Swap, BatchDone], t3);
  }

  /** quit_ is changed. */
  predicate SetsQuit(l: Label) {
    l.SetQuit? || l == QuitHere
  }

  lemma QuitStep(s: State, l: Label)
    requires Enabled(s, l) && l != Enter
    ensures Next(s, l).quit <==> s.quit || SetsQuit(l)
  {
  }

  /** Until loop() is entered again, quit_ tells whether it was set before or has been since. */
  lemma {:induction false} QuitIsKept(s: State, ls: seq<Label>, t: State)
    requires Reaches(s, ls, t) && Enter !in ls
    ensures t.quit <==> s.quit || exists l :: l in ls && SetsQuit(l)
    decreases |ls|
  {
    if ls != [] {
      hide Next, Enabled, SetsQuit;
      assert ls[0] in ls && forall l :: l in ls <==> l == ls[0] || l in ls[1..];
      QuitStep(s, ls[0]);
      QuitIsKept(Next(s, ls[0]), ls[1..], t);
    }
  }

  /**
   A quit takes effect exactly if its change of the flag comes after the entry to loop(): the loop
   finds quit_ set iff such a change lies between its entry and the check.
   */
  lemma QuitBeforeLoopIsForgotten(s: State, ls: seq<Label>, t: State)
    requires s.phase == Outside && Reaches(Next(s, Enter), ls, t) && Enter !in ls
    ensures t.quit <==> exists l :: l in ls && SetsQuit(l)
    ensures t.phase == Checking ==>
              (Next(t, Check).phase == Swapping(true) <==> exists l :: l in ls && SetsQuit(l))
  {
    QuitIsKept(Next(s, Enter), ls, t);
  }

  /** The input for which it matters: a quit that came before is lost, and the loop goes to sleep. */
  lemma EarlyQuitIsLost(t: Thread)
    ensures var s := Next(Next(INITIAL, TestQuit(t)), SetQuit(t));
            && Reaches(INITIAL, [TestQuit(t), SetQuit(t), Enter], Next(s, Enter))
            && s.quit && Next(Next(s, Enter), Check).phase == Polling
  {
    var s1 := Next(INITIAL, TestQuit(t));
    var s2 := Next(s1, SetQuit(t));
    var s3 := Next(s2, Enter);
    assert Reaches(s3, [], s3);
    ReachesCons(s2, Enter, [], s3);
    ReachesCons(s1, SetQuit(t), [Enter], s3);
    ReachesCons(INITIAL, TestQuit(t), [SetQuit(t), Enter], s3);
    assert [TestQuit(t)] + [SetQuit(t), Enter] == [TestQuit(t), SetQuit(t), Enter];
    assert [SetQuit(t)] + [Enter] == [SetQuit(t), Enter];
  }
}
