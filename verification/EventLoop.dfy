/**
 The class of net/EventLoop.cc. A method of the loop thread takes a script of what the other
 threads, and the callbacks it runs, do in the meantime; what is impossible is skipped.
 */
module EventLoops {
  import opened EventLoopModel

  /** What may happen while a callback runs. */
  predicate Interference(l: Label) {
    l.Push? || l.PushWrite? || l.TestQuit? || l.SetQuit? || l.QuitWrite? || l.QueueHere? || l.QuitHere?
  }

  predicate Scripted(script: seq<Label>) {
    forall l :: l in script ==> Interference(l)
  }

  /** What happens in one turn: whether poll reports the eventfd, and the interference. */
  datatype Turn = Turn(
    checking: seq<Label>,      // before the check of quit_
    asleep: seq<Label>,        // between the check and the return of poll
    readable: bool,
    before: seq<Label>,        // before the wakeup handler
    after: seq<Label>,         // after it
    swapping: seq<Label>,      // before the swap
    tasks: seq<seq<Label>>)    // after each task
  {
    predicate IsScripted() {
      Scripted(checking) && Scripted(asleep) && Scripted(before) && Scripted(after) && Scripted(swapping)
      && forall script :: script in tasks ==> Scripted(script)
    }
  }

  // ---------------------------------------------------------------- traces

  /** The steps of a script that are possible when their turn comes. */
  function Performed(s: State, script: seq<Label>): seq<Label>
    decreases |script|
  {
    if script == [] then []
    else if Enabled(s, script[0]) then [script[0]] + Performed(Next(s, script[0]), script[1..])
    else Performed(s, script[1..])
  }

  lemma {:induction false} PerformedMore(s: State, script: seq<Label>, t: State, l: Label)
    requires Reaches(s, Performed(s, script), t)
    ensures Performed(s, script + [l]) == Performed(s, script) + if Enabled(t, l) then [l] else []
    decreases |script|
  {
    if script == [] {
      assert ([] + [l])[1..] == [];
    } else {
      assert (script + [l])[1..] == script[1..] + [l];
      if Enabled(s, script[0]) {
        assert ([script[0]] + Performed(Next(s, script[0]), script[1..]))[1..] == Performed(Next(s, script[0]), script[1..]);
        PerformedMore(Next(s, script[0]), script[1..], t, l);
      } else {
        PerformedMore(s, script[1..], t, l);
      }
    }
  }

  lemma PerformedNone(s: State)
    ensures Performed(s, []) == []
  {
  }

  function Count(ls: seq<Label>, l: Label): nat {
    if ls == [] then 0 else (if ls[0] == l then 1 else 0) + Count(ls[1..], l)
  }

  lemma {:induction false} CountAppend(a: seq<Label>, b: seq<Label>, l: Label)
    ensures Count(a + b, l) == Count(a, l) + Count(b, l)
    decreases |a|
  {
    if a == [] {
      assert a + b == b;
    } else {
      assert (a + b)[1..] == a[1..] + b;
      CountAppend(a[1..], b, l);
    }
  }

  lemma {:induction false} CountNone(ls: seq<Label>, l: Label)
    requires l !in ls
    ensures Count(ls, l) == 0
    decreases |ls|
  {
    if ls != [] { CountNone(ls[1..], l); }
  }

  /** What the loop found in quit_ at each of its checks. */
  function QuitsSeen(s: State, ls: seq<Label>): seq<bool>
    decreases |ls|
  {
    if ls == [] || !Enabled(s, ls[0]) then []
    else (if ls[0] == Check then [s.quit] else []) + QuitsSeen(Next(s, ls[0]), ls[1..])
  }

  lemma {:induction false} QuitsSeenAppend(s: State, ls: seq<Label>, t: State, more: seq<Label>)
    requires Reaches(s, ls, t)
    ensures QuitsSeen(s, ls + more) == QuitsSeen(s, ls) + QuitsSeen(t, more)
    decreases |ls|
  {
    if ls == [] {
      assert ls + more == more;
    } else {
      assert (ls + more)[1..] == ls[1..] + more;
      QuitsSeenAppend(Next(s, ls[0]), ls[1..], t, more);
    }
  }

  lemma {:induction false} NoCheckSeesNothing(s: State, ls: seq<Label>)
    requires Check !in ls
    ensures QuitsSeen(s, ls) == []
    decreases |ls|
  {
    if ls != [] && Enabled(s, ls[0]) { NoCheckSeesNothing(Next(s, ls[0]), ls[1..]); }
  }

  class EventLoop {
    var quitFlag: bool
    var callingPendingFunc: bool
    var pendingFunc: seq<Task>
    var counter: nat
    // where the threads are
    var phase: Phase
    var func: seq<Task>
    var posters: set<Thread>
    var deciders: set<Thread>
    var quitters: set<Thread>
    ghost var pushed: seq<Task>
    ghost var executed: seq<Task>
    ghost var mark: nat

    ghost function Value(): State
      reads this
    {
      State(phase, quitFlag, callingPendingFunc, pendingFunc, func, counter, posters, deciders, quitters,
            pushed, executed, mark)
    }

    constructor ()
      ensures Value() == INITIAL && Inv(Value())
    {
      quitFlag, callingPendingFunc, pendingFunc, counter := false, false, [], 0;
      phase, func, posters, deciders, quitters := Outside, [], {}, {}, {};
      pushed, executed, mark := [], [], 0;
    }

    /** The write to the eventfd. */
    method Weakup()
      modifies this`counter
      ensures counter == EventLoopModel.Weakup(old(counter))
    {
      if counter < EVENTFD_MAX {
        counter := counter + 1;
      }
    }

    /** The part of queueInLoop under the lock. */
    method PushBack(task: Task)
      modifies this`pendingFunc, this`pushed
      ensures pendingFunc == old(pendingFunc) + [task] && pushed == old(pushed) + [task]
    {
      pendingFunc, pushed := pendingFunc + [task], pushed + [task];
    }

    /** quit() on the loop thread. */
    method QuitInThread()
      modifies this`quitFlag
      ensures quitFlag
    {
      if !quitFlag {
        quitFlag := true;
      }
    }

    /** queueInLoop() on the loop thread. */
    method QueueInThread(task: Task)
      requires UserCode(Value())
      modifies this`pendingFunc, this`pushed, this`counter
      ensures Value() == Next(old(Value()), QueueHere(task))
      ensures counter == old(counter) + if callingPendingFunc && old(counter) < 0xFFFF_FFFF_FFFF_FFFE then 1 else 0
    {
      PushBack(task);
      if callingPendingFunc {
        Weakup();
      }
    }

    /** One step of another thread, or one call by a callback. */
    method Interfere(l: Label) returns (ghost done: seq<Label>)
      requires Inv(Value()) && Interference(l)
      modifies this
      ensures Inv(Value())
      ensures done == (if Enabled(old(Value()), l) then [l] else [])
      ensures Value() == if Enabled(old(Value()), l) then Next(old(Value()), l) else old(Value())
      ensures func == old(func) && phase == old(phase) && executed == old(executed) && old(pendingFunc) <= pendingFunc
    {
      hide Inv;
      done := [];
      if Enabled(Value(), l) {
        StepKeeps(Value(), l);
        done := [l];
      }
      var free := match l
        case Push(t, _) => t !in posters && t !in deciders && t !in quitters
        case TestQuit(t) => t !in posters && t !in deciders && t !in quitters
        case _ => false;
      var user := phase.Handling? || phase.Running?;
      match l
      case Push(t, task) =>
        if free { PushBack(task); posters := posters + {t}; }
      case PushWrite(t) =>
        if t in posters { Weakup(); posters := posters - {t}; }
      case TestQuit(t) =>
        if free && !quitFlag { deciders := deciders + {t}; }
      case SetQuit(t) =>
        if t in deciders { quitFlag := true; deciders, quitters := deciders - {t}, quitters + {t}; }
      case QuitWrite(t) =>
        if t in quitters { Weakup(); quitters := quitters - {t}; }
      case QueueHere(task) =>
        if user { QueueInThread(task); }
      case QuitHere =>
        if user { QuitInThread(); }
      case _ =>
    }

    method Meanwhile(script: seq<Label>) returns (ghost trace: seq<Label>)
      requires Inv(Value()) && Scripted(script)
      modifies this
      ensures Inv(Value()) && Reaches(old(Value()), trace, Value())
      ensures trace == Performed(old(Value()), script) && Scripted(trace)
      ensures func == old(func) && phase == old(phase) && executed == old(executed) && old(pendingFunc) <= pendingFunc
    {
      hide Inv, Next, Enabled, Performed;
      trace := [];
      PerformedNone(Value());
      for i := 0 to |script|
        invariant Inv(Value()) && Reaches(old(Value()), trace, Value())
        invariant trace == Performed(old(Value()), script[..i]) && Scripted(trace)
        invariant func == old(func) && phase == old(phase) && executed == old(executed)
        invariant old(pendingFunc) <= pendingFunc
      {
        assert script[i] in script;
        ghost var s := Value();
        PerformedMore(old(Value()), script[..i], s, script[i]);
        assert script[..i + 1] == script[..i] + [script[i]];
        var done := Interfere(script[i]);
        if Enabled(s, script[i]) {
          ReachesSnoc(old(Value()), trace, s, script[i]);
        } else {
          assert trace + [] == trace;
        }
        trace := trace + done;
      }
      assert script[..|script|] == script;
    }

    /** The swap under the lock, with the flag set before it. */
    method SwapPending()
      requires Inv(Value()) && phase.Swapping?
      modifies this
      ensures Inv(Value()) && Value() == Next(old(Value()), Swap)
      ensures executed + func == old(executed) + old(pendingFunc)
      ensures old(phase.last) ==> executed + func == old(pushed)
    {
      StepKeeps(Value(), Swap);
      assert executed + [] + pendingFunc == executed + pendingFunc;
      callingPendingFunc := true;
      func, pendingFunc := pendingFunc, [];
      if phase.last { mark := |pushed|; }
      phase := Running(phase.last);
    }

    /** Calls the first task of the batch; what that one does is left to the script. */
    method RunFirst(script: seq<Label>) returns (ghost trace: seq<Label>)
      requires Inv(Value()) && Enabled(Value(), RunNext) && Scripted(script)
      modifies this
      ensures Inv(Value()) && Reaches(old(Value()), trace, Value()) && phase == old(phase)
      ensures executed == old(executed) + old(func)[..1] && func == old(func)[1..]
      ensures trace == [RunNext] + Performed(Next(old(Value()), RunNext), script)
      ensures Check !in trace && BatchDone !in trace && old(pendingFunc) <= pendingFunc
    {
      hide Inv, Reaches;
      StepKeeps(Value(), RunNext);
      ghost var s := Value();
      ReachesOne(s, RunNext);
      assert func[..1] == [func[0]];
      executed := executed + [func[0]];
      func := func[1..];
      ghost var t := Value();
      trace := Meanwhile(script);
      ReachesAppend(s, [RunNext], t, trace, Value());
      trace := [RunNext] + trace;
    }

    method RunBatch(scripts: seq<seq<Label>>) returns (ghost trace: seq<Label>)
      requires Inv(Value()) && phase.Running?
      requires forall script :: script in scripts ==> Scripted(script)
      modifies this
      ensures Inv(Value()) && Reaches(old(Value()), trace, Value())
      ensures phase == old(phase) && func == []
      ensures executed == old(executed) + old(func)
      ensures Check !in trace && BatchDone !in trace && old(pendingFunc) <= pendingFunc
    {
      hide Inv, Next, Performed;
      ghost var s0 := Value();
      ReachesNone(s0);
      hide Reaches;
      trace := [];
      var i := 0;
      while func != []
        invariant Inv(Value()) && phase == s0.phase && Reaches(s0, trace, Value())
        invariant executed + func == s0.executed + s0.batch
        invariant Check !in trace && BatchDone !in trace && s0.pending <= pendingFunc
        decreases |func|
      {
        var script := if i < |scripts| then scripts[i] else [];
        i := i + 1;
        ghost var s := Value();
        var more := RunFirst(script);
        assert s.batch == s.batch[..1] + func;
        ReachesAppend(s0, trace, s, more, Value());
        trace := trace + more;
      }
    }

    /**
     Runs what is queued on entry, in order, and nothing else, whatever is queued in the meantime.
     */
    method DoPendingFuncs(scripts: seq<seq<Label>>) returns (ghost trace: seq<Label>)
      requires Inv(Value()) && phase.Swapping?
      requires forall script :: script in scripts ==> Scripted(script)
      modifies this
      ensures Inv(Value()) && Reaches(old(Value()), trace, Value())
      ensures phase == if old(phase.last) then Outside else Checking
      ensures executed == old(executed) + old(pendingFunc)
      ensures old(phase.last) ==> executed == old(pushed)
      ensures Check !in trace && Count(trace, BatchDone) == 1
    {
      hide Inv, Reaches;
      ghost var s0 := Value();
      ReachesOne(s0, Swap);
      SwapPending();
      ghost var s := Value();
      trace := RunBatch(scripts);
      ReachesAppend(s0, [Swap], s, trace, Value());
      trace := [Swap] + trace;
      StepKeeps(Value(), BatchDone);
      ReachesSnoc(s0, trace, Value(), BatchDone);
      CountNone(trace, BatchDone);
      CountAppend(trace, [BatchDone], BatchDone);
      trace := trace + [BatchDone];
      phase := if phase.last then Outside else Checking;
      callingPendingFunc := false;
    }

    /** The read of the eventfd; it takes the whole count. */
    method HandleWeakup()
      requires Inv(Value()) && Enabled(Value(), EventLoopModel.HandleWeakup)
      modifies this
      ensures Inv(Value()) && Value() == Next(old(Value()), EventLoopModel.HandleWeakup)
    {
      StepKeeps(Value(), EventLoopModel.HandleWeakup);
      counter := 0;
      phase := Handling(false);
    }

    /** poll() and the handlers before the wakeup handler. */
    method PollFirst(readable: bool, before: seq<Label>) returns (ghost trace: seq<Label>)
      requires Inv(Value()) && phase == Polling && Scripted(before) && (readable ==> counter > 0)
      modifies this
      ensures Inv(Value()) && Reaches(old(Value()), trace, Value())
      ensures phase == Handling(readable) && executed == old(executed) && old(pendingFunc) <= pendingFunc
      ensures trace == [Poll(readable)] + Performed(Next(old(Value()), Poll(readable)), before)
      ensures Check !in trace && BatchDone !in trace
    {
      hide Inv, Reaches, Performed;
      ghost var s0 := Value();
      StepKeeps(s0, Poll(readable));
      ReachesOne(s0, Poll(readable));
      phase := Handling(readable);
      ghost var s := Value();
      trace := Meanwhile(before);
      ReachesAppend(s0, [Poll(readable)], s, trace, Value());
      trace := [Poll(readable)] + trace;
    }

    /** The wakeup handler, if poll reported the eventfd. */
    method WakeupIfReported() returns (ghost trace: seq<Label>)
      requires Inv(Value()) && phase.Handling?
      modifies this
      ensures Inv(Value()) && Reaches(old(Value()), trace, Value()) && phase == Handling(false)
      ensures executed == old(executed) && pendingFunc == old(pendingFunc)
      ensures trace == if old(phase.readable) then [EventLoopModel.HandleWeakup] else []
    {
      hide Inv, Reaches;
      ReachesNone(Value());
      trace := [];
      if phase.readable {
        ReachesOne(Value(), EventLoopModel.HandleWeakup);
        trace := [EventLoopModel.HandleWeakup];
        HandleWeakup();
      }
    }

    /** The wakeup handler, and the handlers after it. */
    method HandleRest(after: seq<Label>) returns (ghost trace: seq<Label>)
      requires Inv(Value()) && phase.Handling? && Scripted(after)
      modifies this
      ensures Inv(Value()) && Reaches(old(Value()), trace, Value())
      ensures phase == Swapping(false) && executed == old(executed) && old(pendingFunc) <= pendingFunc
      ensures Check !in trace && BatchDone !in trace
    {
      hide Inv, Reaches, Performed;
      ghost var s0 := Value();
      trace := WakeupIfReported();
      ghost var s := Value();
      var more := Meanwhile(after);
      ReachesAppend(s0, trace, s, more, Value());
      trace := trace + more;
      StepKeeps(Value(), HandlersDone);
      ReachesSnoc(s0, trace, Value(), HandlersDone);
      trace := trace + [HandlersDone];
      phase := Swapping(false);
    }

    /** poll() and the handlers; `before` and `after` happen on either side of the wakeup handler. */
    method PollAndHandle(readable: bool, before: seq<Label>, after: seq<Label>)
      returns (ghost trace: seq<Label>)
      requires Inv(Value()) && phase == Polling && Scripted(before) && Scripted(after)
      requires readable ==> counter > 0
      modifies this
      ensures Inv(Value()) && Reaches(old(Value()), trace, Value())
      ensures phase == Swapping(false) && executed == old(executed) && old(pendingFunc) <= pendingFunc
      ensures [Poll(readable)] + Performed(Next(old(Value()), Poll(readable)), before) <= trace
      ensures Check !in trace && BatchDone !in trace
    {
      hide Inv, Reaches, Performed, Next;
      ghost var s0 := Value();
      trace := PollFirst(readable, before);
      ghost var s := Value();
      var more := HandleRest(after);
      ReachesAppend(s0, trace, s, more, Value());
      trace := trace + more;
    }

    /** The rest of a turn, from the check that let it begin. */
    method OneTurn(turn: Turn) returns (ghost trace: seq<Label>)
      requires Inv(Value()) && phase == Polling && turn.IsScripted()
      modifies this
      ensures Inv(Value()) && Reaches(old(Value()), trace, Value())
      ensures phase == Checking && old(executed) + old(pendingFunc) <= executed
      ensures Performed(old(Value()), turn.asleep) <= trace
      ensures Check !in trace && Count(trace, BatchDone) == 1
    {
      hide Inv, Reaches, Performed, Next, Enabled, Count;
      ghost var s0 := Value();
      trace := Meanwhile(turn.asleep);
      ghost var s := Value();
      var more := PollAndHandle(turn.readable && counter > 0, turn.before, turn.after);
      ReachesAppend(s0, trace, s, more, Value());
      trace := trace + more;
      s := Value();
      more := Meanwhile(turn.swapping);
      ReachesAppend(s0, trace, s, more, Value());
      trace := trace + more;
      s := Value();
      more := DoPendingFuncs(turn.tasks);
      ReachesAppend(s0, trace, s, more, Value());
      CountNone(trace, BatchDone);
      CountAppend(trace, more, BatchDone);
      trace := trace + more;
    }

    /** The end of loop(), from the check that saw quit_. */
    method Finish(swapping: seq<Label>, tasks: seq<seq<Label>>) returns (ghost trace: seq<Label>)
      requires Inv(Value()) && phase == Swapping(true)
      requires Scripted(swapping) && forall script :: script in tasks ==> Scripted(script)
      modifies this
      ensures Inv(Value()) && Reaches(old(Value()), trace, Value())
      ensures phase == Outside && |old(executed)| <= mark <= |pushed| && executed == pushed[..mark]
      ensures old(executed) + old(pendingFunc) <= executed
      ensures Check !in trace && Count(trace, BatchDone) == 1
    {
      hide Inv, Reaches, Performed;
      ghost var s0 := Value();
      trace := Meanwhile(swapping);
      ghost var s := Value();
      var more := DoPendingFuncs(tasks);
      ReachesAppend(s0, trace, s, more, Value());
      CountNone(trace, BatchDone);
      CountAppend(trace, more, BatchDone);
      trace := trace + more;
      RanUpToMark(Value());
    }

    /** The interference before a check of quit_, and the check. */
    method CheckQuit(checking: seq<Label>) returns (ghost trace: seq<Label>, stop: bool)
      requires Inv(Value()) && phase == Checking && Scripted(checking)
      modifies this
      ensures Inv(Value()) && Reaches(old(Value()), trace, Value())
      ensures trace == Performed(old(Value()), checking) + [Check]
      ensures phase == if stop then Swapping(true) else Polling
      ensures executed == old(executed) && old(pendingFunc) <= pendingFunc
      ensures QuitsSeen(old(Value()), trace) == [stop] && BatchDone !in trace && Count(trace, Check) == 1
    {
      hide Inv, Reaches, Performed;
      ghost var s0 := Value();
      trace := Meanwhile(checking);
      ghost var s := Value();
      stop := quitFlag;
      StepKeeps(s, Check);
      ReachesSnoc(s0, trace, s, Check);
      QuitsSeenAppend(s0, trace, s, [Check]);
      NoCheckSeesNothing(s0, trace);
      CountNone(trace, Check);
      CountAppend(trace, [Check], Check);
      OneCheckSeen(s);
      trace := trace + [Check];
      phase := if quitFlag then Swapping(true) else Polling;
    }

    /**
     The loop, for as many turns as there are scripts for: it makes a turn for each of them, until
     a check finds quit_ set. Other threads act at any time.
     */
    method Loop(turns: seq<Turn>) returns (ghost trace: seq<Label>, returned: bool)
      requires Inv(Value()) && phase == Outside
      requires forall turn :: turn in turns ==> turn.IsScripted()
      modifies this
      ensures Inv(Value()) && Reaches(old(Value()), trace, Value())
      ensures phase == if returned then Outside else Checking
      ensures returned ==> executed == pushed[..mark] && |old(executed)| <= mark <= |pushed|
      // a check, and a run over the batch, in each turn
      ensures Count(trace, BatchDone) == Count(trace, Check) <= |turns|
      ensures returned || Count(trace, Check) == |turns|
      // the loop ends at the first check that finds quit_ set, and at no other
      ensures returned ==> Count(trace, Check) > 0
      ensures var n := Count(trace, Check);
              QuitsSeen(old(Value()), trace) == if returned then seq(n - 1, _ => false) + [true] else seq(n, _ => false)
      // one turn is enough for what was queued before
      ensures turns != [] ==> old(executed) + old(pendingFunc) <= executed
    {
      hide Inv, Reaches, Performed, QuitsSeen, Count;
      ghost var s0 := Value();
      StepKeeps(s0, Enter);
      ReachesOne(s0, Enter);
      EnterSeesNothing(s0);
      trace := [Enter];
      phase := Checking;
      quitFlag := false;
      for i := 0 to |turns|
        invariant Inv(Value()) && phase == Checking && Reaches(s0, trace, Value())
        invariant s0.executed <= executed && s0.executed + s0.pending <= executed + pendingFunc
        invariant i > 0 ==> s0.executed + s0.pending <= executed
        invariant Count(trace, BatchDone) == Count(trace, Check) == i
        invariant QuitsSeen(s0, trace) == seq(i, _ => false)
      {
        assert turns[i] in turns;
        ghost var s := Value();
        var more, stop := CheckQuit(turns[i].checking);
        Joins(s0, trace, s, more, Value());
        CountNone(more, BatchDone);
        trace := trace + more;
        s := Value();
        if stop {
          more := Finish(turns[i].swapping, turns[i].tasks);
        } else {
          more := OneTurn(turns[i]);
        }
        Joins(s0, trace, s, more, Value());
        CountNone(more, Check);
        NoCheckSeesNothing(s, more);
        trace := trace + more;
        if stop {
          return trace, true;
        }
      }
      returned := false;
    }
  }

  /** What is known of a run and of its continuation, put together. */
  lemma Joins(s: State, ls: seq<Label>, t: State, more: seq<Label>, u: State)
    requires Reaches(s, ls, t) && Reaches(t, more, u)
    ensures Reaches(s, ls + more, u)
    ensures QuitsSeen(s, ls + more) == QuitsSeen(s, ls) + QuitsSeen(t, more)
    ensures Count(ls + more, Check) == Count(ls, Check) + Count(more, Check)
    ensures Count(ls + more, BatchDone) == Count(ls, BatchDone) + Count(more, BatchDone)
  {
    ReachesAppend(s, ls, t, more, u);
    QuitsSeenAppend(s, ls, t, more);
    CountAppend(ls, more, Check);
    CountAppend(ls, more, BatchDone);
  }

  lemma ReachesNone(s: State)
    ensures Reaches(s, [], s)
  {
  }

  lemma OneCheckSeen(s: State)
    requires s.phase == Checking
    ensures QuitsSeen(s, [Check]) == [s.quit] && Count([Check], Check) == 1
  {
  }

  lemma EnterSeesNothing(s: State)
    requires s.phase == Outside
    ensures QuitsSeen(s, [Enter]) == [] && Count([Enter], Check) == 0 && Count([Enter], BatchDone) == 0
  {
  }
}
