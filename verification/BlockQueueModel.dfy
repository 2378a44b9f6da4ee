/**
 The bounded queue of base/BlockQueue as a step machine for any number of threads. A step is
 one stretch of code under the lock, up to the return or to the next wait. A thread in wait is
 asleep until a notifyAll, or until it wakes up for no reason; then it competes for the lock.
 */
module BlockQueueModel {

  type Task = nat
  type Thread = nat

  const SIZE_MAX: nat := 0xFFFF_FFFF_FFFF_FFFF

  /** `n - 1` in size_t */
  function Minus1(n: nat): nat {
    if n == 0 then SIZE_MAX else n - 1
  }

  datatype State = State(
    tasks: seq<Task>,                    // taskQueue
    maxSize: nat,                        // maxSize_
    stopped: bool,                       // stopped_
    consumersAsleep: set<Thread>,        // in emptyCond_.wait()
    consumersReady: set<Thread>,         // woken, waiting for the lock
    producersAsleep: map<Thread, Task>,  // in fullCond_.wait(), with what it adds
    producersReady: map<Thread, Task>,
    accepted: seq<Task>,                 // tasks taken into the queue, in order
    delivered: seq<Task>,                // tasks handed out, in order
    empties: nat)                        // empty tasks handed out

  function Initial(maxSize: nat): State {
    State([], maxSize, false, {}, {}, map[], map[], [], [], 0)
  }

  function NotifyFull(s: State): State {
    s.(producersAsleep := map[], producersReady := s.producersReady + s.producersAsleep)
  }

  function NotifyEmpty(s: State): State {
    s.(consumersAsleep := {}, consumersReady := s.consumersReady + s.consumersAsleep)
  }

  /** getTask, from where the lock was taken */
  function GetTask(s: State, t: Thread): State {
    if s.tasks == [] && !s.stopped then s.(consumersAsleep := s.consumersAsleep + {t})
    else if s.tasks == [] then s.(empties := s.empties + 1)
    else
      var s1 := s.(tasks := s.tasks[1..], delivered := s.delivered + [s.tasks[0]]);
      if |s1.tasks| == Minus1(s.maxSize) then NotifyFull(s1) else s1
  }

  /** addTask, from where the lock was taken */
  function AddTask(s: State, t: Thread, task: Task): State {
    if s.maxSize <= |s.tasks| && !s.stopped then s.(producersAsleep := s.producersAsleep[t := task])
    else if s.stopped then s
    else
      var s1 := s.(tasks := s.tasks + [task], accepted := s.accepted + [task]);
      if s.tasks == [] then NotifyEmpty(s1) else s1
  }

  function SetMaxSize(s: State, n: nat): State {
    var s1 := s.(maxSize := n);
    if |s.tasks| < n then NotifyFull(s1) else s1
  }

  function Stop(s: State): State {
    NotifyEmpty(NotifyFull(s.(stopped := true)))
  }

  datatype Label =
    | Get(t: Thread)                // call of getTask
    | GetAgain(t: Thread)           // the lock is back after a wait
    | Add(t: Thread, task: Task)    // call of addTask
    | AddAgain(t: Thread)
    | WakeConsumer(t: Thread)       // spurious wakeup
    | WakeProducer(t: Thread)
    | SetMax(n: nat)
    | StopAll

  /** The thread is not inside getTask or addTask. */
  predicate Outside(s: State, t: Thread) {
    t !in s.consumersAsleep && t !in s.consumersReady && t !in s.producersAsleep && t !in s.producersReady
  }

  predicate Enabled(s: State, l: Label) {
    match l
    case Get(t) => Outside(s, t)
    case GetAgain(t) => t in s.consumersReady
    case Add(t, _) => Outside(s, t)
    case AddAgain(t) => t in s.producersReady
    case WakeConsumer(t) => t in s.consumersAsleep
    case WakeProducer(t) => t in s.producersAsleep
    case SetMax(_) => true
    case StopAll => true
  }

  function Next(s: State, l: Label): State
    requires Enabled(s, l)
  {
    match l
    case Get(t) => GetTask(s, t)
    case GetAgain(t) => GetTask(s.(consumersReady := s.consumersReady - {t}), t)
    case Add(t, task) => AddTask(s, t, task)
    case AddAgain(t) => AddTask(s.(producersReady := s.producersReady - {t}), t, s.producersReady[t])
    case WakeConsumer(t) =>
      s.(consumersAsleep := s.consumersAsleep - {t}, consumersReady := s.consumersReady + {t})
    case WakeProducer(t) =>
      s.(producersAsleep := s.producersAsleep - {t}, producersReady := s.producersReady[t := s.producersAsleep[t]])
    case SetMax(n) => SetMaxSize(s, n)
    case StopAll => Stop(s)
  }

  ghost predicate Reaches(s: State, ls: seq<Label>, t: State)
    decreases |ls|
  {
    if ls == [] then s == t else Enabled(s, ls[0]) && Reaches(Next(s, ls[0]), ls[1..], t)
  }

  // ---------------------------------------------------------------- the invariant

  ghost predicate Inv(s: State) {
    // nobody sleeps who could go on
    && (s.consumersAsleep != {} ==> s.tasks == [] && !s.stopped)
    && (s.producersAsleep != map[] ==> s.maxSize <= |s.tasks| && !s.stopped)
    // first in, first out
    && s.delivered + s.tasks == s.accepted
    // an empty task is the sign that the queue is stopped and drained
    && (s.empties > 0 ==> s.stopped && s.tasks == [])
    // a thread is in one place
    && s.consumersAsleep !! s.consumersReady
    && s.producersAsleep.Keys !! s.producersReady.Keys
    && (s.consumersAsleep + s.consumersReady) !! (s.producersAsleep.Keys + s.producersReady.Keys)
  }

  lemma GetKeeps(s: State, t: Thread)
    requires Inv(s) && Outside(s, t)
    ensures Inv(GetTask(s, t))
  {
    if s.tasks != [] {
      assert s.delivered + s.tasks == (s.delivered + [s.tasks[0]]) + s.tasks[1..];
    }
  }

  lemma AddKeeps(s: State, t: Thread, task: Task)
    requires Inv(s) && Outside(s, t)
    ensures Inv(AddTask(s, t, task))
  {
    assert s.delivered + (s.tasks + [task]) == (s.delivered + s.tasks) + [task];
  }

  lemma StepKeeps(s: State, l: Label)
    requires Inv(s) && Enabled(s, l)
    ensures Inv(Next(s, l))
  {
    hide GetTask, AddTask;
    match l
    case Get(t) => GetKeeps(s, t);
    case GetAgain(t) => GetKeeps(s.(consumersReady := s.consumersReady - {t}), t);
    case Add(t, task) => AddKeeps(s, t, task);
    case AddAgain(t) =>
      assert s.producersAsleep == map[] || t !in s.producersAsleep.Keys;
      AddKeeps(s.(producersReady := s.producersReady - {t}), t, s.producersReady[t]);
    case WakeConsumer(t) =>
    case WakeProducer(t) => assert s.producersAsleep != map[];
    case SetMax(n) =>
    case StopAll =>
  }

  lemma {:induction false} RunsKeep(s: State, ls: seq<Label>, t: State)
    requires Inv(s) && Reaches(s, ls, t)
    ensures Inv(t)
    decreases |ls|
  {
    if ls != [] {
      StepKeeps(s, ls[0]);
      RunsKeep(Next(s, ls[0]), ls[1..], t);
    }
  }

  // ---------------------------------------------------------------- theorems

  /**
   No lost wakeup, in every interleaving of any number of threads: a sleeping consumer means
   that there is nothing to take, a sleeping producer that there is no room.
   */
  lemma NoLostWakeup(maxSize: nat, ls: seq<Label>, t: State)
    requires Reaches(Initial(maxSize), ls, t)
    ensures t.consumersAsleep != {} ==> t.tasks == [] && !t.stopped
    ensures t.producersAsleep != map[] ==> t.maxSize <= |t.tasks| && !t.stopped
    ensures t.maxSize >= 1 ==> t.consumersAsleep == {} || t.producersAsleep == map[]
  {
    RunsKeep(Initial(maxSize), ls, t);
  }

  /** Tasks come out in the order in which they went in, each once, none lost. */
  lemma FirstInFirstOut(maxSize: nat, ls: seq<Label>, t: State)
    requires Reaches(Initial(maxSize), ls, t)
    ensures t.delivered + t.tasks == t.accepted
    ensures t.empties > 0 ==> t.stopped && t.delivered == t.accepted
  {
    RunsKeep(Initial(maxSize), ls, t);
    assert t.empties > 0 ==> t.delivered + [] == t.accepted;
  }

  /** After stop nothing is accepted, and the queue stays stopped. */
  lemma {:induction false} StoppedAcceptsNothing(s: State, ls: seq<Label>, t: State)
    requires s.stopped && Reaches(s, ls, t)
    ensures t.stopped && t.accepted == s.accepted
    decreases |ls|
  {
    if ls != [] {
      StoppedAcceptsNothing(Next(s, ls[0]), ls[1..], t);
    }
  }

  /** The bound is never lowered along the way. */
  ghost predicate NeverLowered(s: State, ls: seq<Label>)
    decreases |ls|
  {
    ls == [] || (Enabled(s, ls[0]) && (ls[0].SetMax? ==> s.maxSize <= ls[0].n) && NeverLowered(Next(s, ls[0]), ls[1..]))
  }

  lemma {:induction false} SizeIsBounded(s: State, ls: seq<Label>, t: State)
    requires |s.tasks| <= s.maxSize && Reaches(s, ls, t) && NeverLowered(s, ls)
    ensures |t.tasks| <= t.maxSize
    decreases |ls|
  {
    if ls != [] {
      SizeIsBounded(Next(s, ls[0]), ls[1..], t);
    }
  }

  // ---------------------------------------------------------------- stop and setMaxSize

  /** Once stop was called, the queue is stopped, and nobody sleeps. */
  lemma {:induction false} StopIsFinal(s: State, ls: seq<Label>, t: State)
    requires Inv(s) && Reaches(s, ls, t) && StopAll in ls
    ensures t.stopped && t.consumersAsleep == {} && t.producersAsleep == map[]
    decreases |ls|
  {
    var next := Next(s, ls[0]);
    StepKeeps(s, ls[0]);
    if ls[0] == StopAll {
      assert next.stopped;
      StoppedAcceptsNothing(next, ls[1..], t);
      RunsKeep(next, ls[1..], t);
    } else {
      StopIsFinal(next, ls[1..], t);
    }
  }

  /** Nothing is accepted from the call of stop on. */
  lemma NothingIsAcceptedAfterStop(s: State, ls: seq<Label>, t: State)
    requires Reaches(Next(s, StopAll), ls, t)
    ensures t.accepted == s.accepted
  {
    StoppedAcceptsNothing(Next(s, StopAll), ls, t);
  }

  /** From a queue that is stopped and drained, every call of getTask returns an empty task. */
  lemma StoppedHandsOutEmpty(s: State, l: Label)
    requires s.stopped && s.tasks == [] && Enabled(s, l) && (l.Get? || l.GetAgain?)
    ensures var u := Next(s, l);
            u.empties == s.empties + 1 && u.delivered == s.delivered && u.consumersAsleep == s.consumersAsleep
  {
  }

  /** A consumer that waits when stop is called wakes up and gets an empty task. */
  lemma StopReleasesConsumer(s: State, t: Thread)
    requires Inv(s) && t in s.consumersAsleep
    ensures var u := Next(s, StopAll);
            Enabled(u, GetAgain(t)) && Next(u, GetAgain(t)).empties == s.empties + 1
            && Outside(Next(u, GetAgain(t)), t)
  {
    StoppedHandsOutEmpty(Next(s, StopAll), GetAgain(t));
  }

  /** A producer that waits when stop is called wakes up, and its task is dropped. */
  lemma StopReleasesProducer(s: State, t: Thread)
    requires Inv(s) && t in s.producersAsleep
    ensures var u := Next(s, StopAll);
            Enabled(u, AddAgain(t)) && Next(u, AddAgain(t)).accepted == s.accepted
            && Outside(Next(u, AddAgain(t)), t)
  {
  }

  /** setMaxSize sets the bound, and the sleeping producers may go on exactly if there is room now. */
  lemma SetMaxSizeIsExact(s: State, n: nat)
    ensures var t := Next(s, SetMax(n));
            && t.maxSize == n && t.tasks == s.tasks && t.stopped == s.stopped && t.accepted == s.accepted
            && (forall p :: p in s.producersAsleep ==> (p !in t.producersAsleep <==> |s.tasks| < n))
            && (forall p :: p in s.producersAsleep && |s.tasks| < n ==> p in t.producersReady)
            && t.producersAsleep == (if |s.tasks| < n then map[] else s.producersAsleep)
  {
  }

  /** The condition variables are notified on the edges only: from full to one place, from empty. */
  lemma WakesOnEdges(s: State, t: Thread, task: Task)
    requires Inv(s) && Outside(s, t) && |s.tasks| <= SIZE_MAX
    ensures s.tasks != [] ==>
              Next(s, Get(t)).producersAsleep == if |s.tasks| == s.maxSize then map[] else s.producersAsleep
    ensures !s.stopped && |s.tasks| < s.maxSize ==>
              Next(s, Add(t, task)).consumersAsleep == if s.tasks == [] then {} else s.consumersAsleep
  {
  }
}
