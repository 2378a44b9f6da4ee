/**
 The class of base/BlockQueue. A method runs under the lock until it returns or waits; a call
 that waits is continued, for the same thread, when the lock is free again.
 */
module BlockQueues {
  import opened BlockQueueModel

  datatype GetResult = Waiting | Empty | Got(task: Task)
  datatype AddResult = Blocked | Dropped | Taken

  class BlockQueue {
    var taskQueue: seq<Task>
    var maxSize: nat
    var stopped: bool
    // the condition variables: threads asleep, and threads woken
    var emptyWaiters: set<Thread>
    var emptyWoken: set<Thread>
    var fullWaiters: map<Thread, Task>
    var fullWoken: map<Thread, Task>
    ghost var accepted: seq<Task>
    ghost var delivered: seq<Task>
    ghost var empties: nat

    ghost function Value(): State
      reads this
    {
      State(taskQueue, maxSize, stopped, emptyWaiters, emptyWoken, fullWaiters, fullWoken, accepted, delivered, empties)
    }

    constructor (size: nat)
      ensures Value() == Initial(size) && Inv(Value())
    {
      taskQueue, maxSize, stopped := [], size, false;
      emptyWaiters, emptyWoken, fullWaiters, fullWoken := {}, {}, map[], map[];
      accepted, delivered, empties := [], [], 0;
    }

    /** fullCond_.notifyAll() */
    method NotifyFull()
      modifies this`fullWaiters, this`fullWoken
      ensures Value() == BlockQueueModel.NotifyFull(old(Value()))
    {
      fullWaiters, fullWoken := map[], fullWoken + fullWaiters;
    }

    /** emptyCond_.notifyAll() */
    method NotifyEmpty()
      modifies this`emptyWaiters, this`emptyWoken
      ensures Value() == BlockQueueModel.NotifyEmpty(old(Value()))
    {
      emptyWaiters, emptyWoken := {}, emptyWoken + emptyWaiters;
    }

    method GetTask(t: Thread) returns (r: GetResult)
      requires Inv(Value()) && (Enabled(Value(), Get(t)) || Enabled(Value(), GetAgain(t)))
      modifies this
      ensures Inv(Value())
      ensures Value() == Next(old(Value()), if t in old(emptyWoken) then GetAgain(t) else Get(t))
      ensures match r
              case Waiting => t in emptyWaiters && taskQueue == [] && !stopped
              case Empty => stopped && taskQueue == [] && delivered == accepted
              case Got(task) => old(taskQueue) == [task] + taskQueue && delivered == old(delivered) + [task]
    {
      StepKeeps(Value(), if t in emptyWoken then GetAgain(t) else Get(t));
      emptyWoken := emptyWoken - {t};
      if taskQueue == [] && !stopped {
        emptyWaiters := emptyWaiters + {t};
        return Waiting;
      }
      if taskQueue == [] {
        empties := empties + 1;
        return Empty;
      }
      var task := taskQueue[0];
      taskQueue := taskQueue[1..];
      delivered := delivered + [task];
      if |taskQueue| == Minus1(maxSize) {
        NotifyFull();
      }
      return Got(task);
    }

    method AddTask(t: Thread, task: Task) returns (r: AddResult)
      requires Inv(Value()) && (Enabled(Value(), Add(t, task)) || (Enabled(Value(), AddAgain(t)) && fullWoken[t] == task))
      modifies this
      ensures Inv(Value())
      ensures Value() == Next(old(Value()), if t in old(fullWoken) then AddAgain(t) else Add(t, task))
      ensures match r
              case Blocked => t in fullWaiters && maxSize <= |taskQueue| && !stopped
              case Dropped => stopped && taskQueue == old(taskQueue)
              case Taken => !stopped && taskQueue == old(taskQueue) + [task] && |taskQueue| <= maxSize
    {
      StepKeeps(Value(), if t in fullWoken then AddAgain(t) else Add(t, task));
      fullWoken := fullWoken - {t};
      if |taskQueue| >= maxSize && !stopped {
        fullWaiters := fullWaiters[t := task];
        return Blocked;
      }
      if stopped {
        return Dropped;
      }
      var wasEmpty := taskQueue == [];
      taskQueue := taskQueue + [task];
      accepted := accepted + [task];
      if wasEmpty {
        NotifyEmpty();
      }
      return Taken;
    }

    method SetMaxSize(n: nat)
      requires Inv(Value())
      modifies this
      ensures Inv(Value()) && Value() == Next(old(Value()), SetMax(n))
      ensures maxSize == n && taskQueue == old(taskQueue)
    {
      StepKeeps(Value(), SetMax(n));
      maxSize := n;
      if |taskQueue| < n {
        NotifyFull();
      }
    }

    method Stop()
      requires Inv(Value())
      modifies this
      ensures Inv(Value()) && Value() == Next(old(Value()), StopAll)
      ensures stopped && emptyWaiters == {} && fullWaiters == map[] && taskQueue == old(taskQueue)
    {
      StepKeeps(Value(), StopAll);
      stopped := true;
      NotifyFull();
      NotifyEmpty();
    }
  }
}
