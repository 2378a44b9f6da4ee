/**
 The timer queue of net/TimerQueue.cc, net/Timer.cc and net/TimerId.h as a step machine.

 The C++ code keeps raw `Timer*` pointers in two ordered sets, so the model makes the heap
 explicit: `heap` maps the addresses of the Timer objects that are alive to their contents.
 A deleted timer's address leaves the map, and the allocator may hand it out again.
 Every dereference is guarded by a precondition that the address is alive.

 A step is one uninterruptible piece of loop-thread work (or another thread's `new Timer`),
 so a run may interleave re-entrant add and cancel calls with the processing of a batch.
 */
module TimerModel {

  /** The address of the sentinel entry; no Timer lives there. */
  const UINTPTR_MAX: nat := 0xFFFF_FFFF_FFFF_FFFF

  function Max(a: int, b: int): int {
    if a < b then b else a
  }

  // ---------------------------------------------------------------- timers

  /** Whole microseconds of an interval in seconds; the conversion truncates. */
  function Micro(interval: real): int {
    (interval * 1000000.0).Floor
  }

  datatype Timer = Timer(expiration: int, interval: real, sequence: nat, cancelled: bool) {

    predicate Repeat() {
      interval > 0.0
    }

    function Restart(now: int): Timer {
      this.(expiration := if Repeat() then now + Micro(interval) else -1)
    }
  }

  datatype TimerId = TimerId(timer: nat, sequence: nat)

  /** An element of activeTimers_ and of cancelligTimer_. */
  datatype Key = Key(sequence: nat, timer: nat)

  /** An element of timers_, ordered by expiration and then by address. */
  datatype Entry = Entry(expiration: int, timer: nat)

  predicate Less(a: Entry, b: Entry) {
    a.expiration < b.expiration || (a.expiration == b.expiration && a.timer < b.timer)
  }

  // ---------------------------------------------------------------- the ordered set

  /** An ordered set is its elements in order, each once. */
  ghost predicate Sorted(s: seq<Entry>) {
    forall i, j :: 0 <= i < j < |s| ==> Less(s[i], s[j])
  }

  function LowerBound(s: seq<Entry>, e: Entry): (i: nat)
    ensures i <= |s|
    ensures forall j :: 0 <= j < i ==> Less(s[j], e)
    ensures i < |s| ==> !Less(s[i], e)
  {
    if s == [] || !Less(s[0], e) then 0 else 1 + LowerBound(s[1..], e)
  }

  predicate Member(s: seq<Entry>, e: Entry) {
    var i := LowerBound(s, e);
    i < |s| && s[i] == e
  }

  function Insert(s: seq<Entry>, e: Entry): seq<Entry> {
    if Member(s, e) then s else var i := LowerBound(s, e); s[..i] + [e] + s[i..]
  }

  function Erase(s: seq<Entry>, e: Entry): seq<Entry> {
    if Member(s, e) then var i := LowerBound(s, e); s[..i] + s[i + 1..] else s
  }

  lemma MemberMeansIn(s: seq<Entry>, e: Entry)
    requires Sorted(s)
    ensures Member(s, e) <==> e in s
  {
    var i := LowerBound(s, e);
    if e in s {
      var k :| 0 <= k < |s| && s[k] == e;
      assert i <= k && !Less(s[i], e);
    }
  }

  /** Insertion keeps the order, adds exactly one element, and puts it first iff it is least. */
  lemma InsertSpec(s: seq<Entry>, e: Entry)
    requires Sorted(s)
    ensures Sorted(Insert(s, e))
    ensures forall x :: x in Insert(s, e) <==> x == e || x in s
    ensures Insert(s, e) != []
    ensures Insert(s, e)[0] == if s == [] || Less(e, s[0]) then e else s[0]
  {
    MemberMeansIn(s, e);
    if e !in s {
      InsertNew(s, e);
    } else {
      var k :| 0 <= k < |s| && s[k] == e;
      if k > 0 { assert Less(s[0], s[k]); }
    }
  }

  lemma AboveBound(s: seq<Entry>, e: Entry, j: nat)
    requires Sorted(s) && e !in s && LowerBound(s, e) <= j < |s|
    ensures Less(e, s[j])
  {
    var i := LowerBound(s, e);
    assert s[j] != e && s[i] != e;
    if i < j { assert Less(s[i], s[j]); }
  }

  lemma InsertSorted(s: seq<Entry>, e: Entry, i: nat)
    requires Sorted(s) && i <= |s|
    requires (forall j :: 0 <= j < i ==> Less(s[j], e)) && (forall j :: i <= j < |s| ==> Less(e, s[j]))
    ensures Sorted(s[..i] + [e] + s[i..])
  {
    var r := s[..i] + [e] + s[i..];
    forall j, k | 0 <= j < k < |r| ensures Less(r[j], r[k]) {
      assert r[j] == if j < i then s[j] else if j == i then e else s[j - 1];
      assert r[k] == if k < i then s[k] else if k == i then e else s[k - 1];
    }
  }

  lemma InsertMembers(s: seq<Entry>, e: Entry, i: nat, x: Entry)
    requires i <= |s|
    ensures x in s[..i] + [e] + s[i..] <==> x == e || x in s
  {
    assert s == s[..i] + s[i..];
  }

  lemma InsertNew(s: seq<Entry>, e: Entry)
    requires Sorted(s) && e !in s
    ensures var r := s[..LowerBound(s, e)] + [e] + s[LowerBound(s, e)..];
            && Sorted(r) && (forall x :: x in r <==> x == e || x in s)
            && r[0] == if s == [] || Less(e, s[0]) then e else s[0]
  {
    var i := LowerBound(s, e);
    forall j | i <= j < |s| ensures Less(e, s[j]) { AboveBound(s, e, j); }
    InsertSorted(s, e, i);
    hide LowerBound, Sorted;
    forall x ensures x in s[..i] + [e] + s[i..] <==> x == e || x in s { InsertMembers(s, e, i, x); }
  }

  /** Erasing keeps the order and removes exactly one element. */
  lemma EraseSpec(s: seq<Entry>, e: Entry)
    requires Sorted(s)
    ensures Sorted(Erase(s, e))
    ensures forall x :: x in Erase(s, e) <==> x != e && x in s
    ensures Erase(s, e) != [] ==> s[0].expiration <= Erase(s, e)[0].expiration
  {
    MemberMeansIn(s, e);
    if e in s {
      var i := LowerBound(s, e);
      var r := s[..i] + s[i + 1..];
      assert |r| == |s| - 1 && forall j :: 0 <= j < |r| ==> r[j] == s[if j < i then j else j + 1];
      forall x ensures x in r <==> x != e && x in s {
        if x != e && x in s {
          var k :| 0 <= k < |s| && s[k] == x;
          assert r[if k < i then k else k - 1] == x;
        }
      }
    }
  }

  // ---------------------------------------------------------------- the timerfd

  datatype Timespec = Timespec(sec: int, nsec: int)

  /** Time left until `when`, at least 100 microseconds. */
  function HowMuchTimeFromNow(when: int, clock: int): Timespec {
    var micro := if when - clock < 100 then 100 else when - clock;
    Timespec(micro / 1000000, micro % 1000000 * 1000)
  }

  /** A one-shot timerfd: readable from time `at` on until it is read or set again. */
  datatype TimerFd = Disarmed | Armed(at: int, readAt: int, setAt: int)

  /** timerfd_settime at time `setAt`: relative to that, not to `readAt`, when the clock was read. */
  function SetTime(ts: Timespec, readAt: int, setAt: int): TimerFd {
    Armed(setAt + ts.sec * 1000000 + ts.nsec / 1000, readAt, setAt)
  }

  // ---------------------------------------------------------------- states

  /** Where handleRead is: not running, between callbacks, inside one, or in reset. */
  datatype Phase = Idle | Running | InCallback | Resetting

  /** One invocation of a callback, in the batch taken at time `now`. */
  datatype Run = Run(sequence: nat, interval: real, now: int)

  datatype State = State(
    heap: map<nat, Timer>,    // Timer objects that are alive
    created: nat,             // s_numCreated_
    posted: set<nat>,         // addTimerInLoop closures not yet executed
    timers: seq<Entry>,       // timers_
    active: set<Key>,         // activeTimers_
    cancelling: set<Key>,     // cancelligTimer_
    phase: Phase,
    now: int,                 // handleRead's local variable
    expired: seq<Entry>,      // handleRead's local variable
    next: nat,                // position of the loop over `expired`
    clock: int,
    lag: nat,                 // time from the next clock reading to its timerfd_settime
    fd: TimerFd,
    freed: seq<nat>,          // sequence numbers of deleted timers, in order
    runs: seq<Run>)           // callbacks invoked, in order
  {
    /** handleTimer_ */
    predicate HandleTimer() {
      phase == Running || phase == InCallback
    }

    predicate Readable() {
      fd.Armed? && fd.at <= clock
    }

    function EntryOf(a: nat): Entry
      requires a in heap
    {
      Entry(heap[a].expiration, a)
    }

    function KeyOf(a: nat): Key
      requires a in heap
    {
      Key(heap[a].sequence, a)
    }
  }

  function Initial(clock: int): State {
    State(map[], 0, {}, [], {}, {}, Idle, clock, [], 0, clock, 0, Disarmed, [], [])
  }

  // ---------------------------------------------------------------- operations

  function ResetTimerFd(s: State, when: int): State {
    s.(fd := SetTime(HowMuchTimeFromNow(when, s.clock), s.clock, s.clock + s.lag), clock := s.clock + s.lag)
  }

  /** `new Timer(cb, when, interval)` at an address chosen by the allocator. */
  function NewTimer(s: State, a: nat, when: int, interval: real): State {
    s.(heap := s.heap[a := Timer(when, interval, s.created, false)], created := s.created + 1)
  }

  /** `delete timer` */
  function Delete(s: State, a: nat): State
    requires a in s.heap
  {
    s.(heap := s.heap - {a}, freed := s.freed + [s.heap[a].sequence])
  }

  function AddTimerInLoop(s: State, a: nat): State
    requires a in s.heap
  {
    var e := s.EntryOf(a);
    var earliestChanged := s.timers == [] || e.expiration < s.timers[0].expiration;
    var s1 := s.(timers := Insert(s.timers, e), active := s.active + {s.KeyOf(a)});
    if earliestChanged then ResetTimerFd(s1, e.expiration) else s1
  }

  function CancelInLoop(s: State, id: TimerId): State
    requires Key(id.sequence, id.timer) in s.active ==> id.timer in s.heap
  {
    var key := Key(id.sequence, id.timer);
    if key in s.active then
      Delete(s.(timers := Erase(s.timers, s.EntryOf(id.timer)),
                active := s.active - {s.KeyOf(id.timer)}), id.timer)
    else if s.HandleTimer() then
      s.(cancelling := s.cancelling + {key})
    else
      s
  }

  /** Number of leading entries that getExpired detaches. */
  function Due(s: State): (n: nat)
    ensures n <= |s.timers|
  {
    LowerBound(s.timers, Entry(s.now, UINTPTR_MAX))
  }

  function GetExpired(s: State): State
    requires forall e :: e in s.timers[..Due(s)] ==> e.timer in s.heap
  {
    var batch := s.timers[..Due(s)];
    s.(active := s.active - set e | e in batch :: s.KeyOf(e.timer),
       expired := batch,
       timers := s.timers[Due(s)..])
  }

  /** One iteration of the loop in reset. */
  function ResetOne(s: State): State
    requires s.next < |s.expired| && s.expired[s.next].timer in s.heap
  {
    var a := s.expired[s.next].timer;
    var s1 := s.(next := s.next + 1);
    if s.KeyOf(a) in s.cancelling || s.heap[a].cancelled then
      Delete(s1, a)
    else if s.heap[a].Repeat() then
      var s2 := s1.(heap := s.heap[a := s.heap[a].Restart(s.now)]);
      s2.(timers := Insert(s.timers, s2.EntryOf(a)), active := s.active + {s2.KeyOf(a)})
    else
      Delete(s1, a)
  }

  // ---------------------------------------------------------------- steps

  datatype Label =
    | Tick(time: int)                                   // time passes
    | Lag(lag: nat)                                     // the loop thread is delayed
    | Post(addr: nat, when: int, interval: real)        // addTimer on another thread
    | RunPosted(addr: nat)                              // its closure runs in the loop
    | AddHere(addr: nat, when: int, interval: real)     // addTimer on the loop thread
    | Cancel(id: TimerId)                               // cancelInLoop
    | Begin                                             // handleRead up to getExpired
    | Start                                             // next callback is entered (or skipped)
    | End                                               // it returns
    | StartReset                                        // handleTimer_ = false
    | ResetNext                                         // one entry of reset
    | Finish                                            // re-arm, clear, return

  /** Loop-thread code other than handleRead itself may run. */
  predicate UserCode(s: State) {
    s.phase == Idle || s.phase == InCallback
  }

  predicate Allocatable(s: State, a: nat) {
    0 < a < UINTPTR_MAX && a !in s.heap
  }

  predicate Enabled(s: State, l: Label) {
    match l
    case Tick(t) => s.clock <= t
    case Lag(_) => true
    case Post(a, _, _) => Allocatable(s, a)
    case RunPosted(a) => s.phase == Idle && a in s.posted
    case AddHere(a, _, _) => UserCode(s) && Allocatable(s, a)
    case Cancel(_) => UserCode(s)
    case Begin => s.phase == Idle
    case Start => s.phase == Running && s.next < |s.expired|
    case End => s.phase == InCallback
    case StartReset => s.phase == Running && s.next == |s.expired|
    case ResetNext => s.phase == Resetting && s.next < |s.expired|
    case Finish => s.phase == Resetting && s.next == |s.expired|
  }

  /** Every pointer that the step dereferences is alive. */
  predicate Safe(s: State, l: Label) {
    match l
    case RunPosted(a) => a in s.heap
    case Cancel(id) => Key(id.sequence, id.timer) in s.active ==> id.timer in s.heap
    case Begin => forall e :: e in s.timers ==> e.timer in s.heap
    case Start => s.next < |s.expired| && s.expired[s.next].timer in s.heap
    case ResetNext => s.next < |s.expired| && s.expired[s.next].timer in s.heap
    case _ => true
  }

  function BeginStep(s: State): State
    requires forall e :: e in s.timers ==> e.timer in s.heap
  {
    var read := if s.Readable() then s.(fd := Disarmed) else s;
    GetExpired(read.(now := s.clock, phase := Running, next := 0))
  }

  function StartStep(s: State): State
    requires s.next < |s.expired| && s.expired[s.next].timer in s.heap
  {
    var t := s.heap[s.expired[s.next].timer];
    if t.cancelled then s.(next := s.next + 1)
    else s.(phase := InCallback, runs := s.runs + [Run(t.sequence, t.interval, s.now)])
  }

  function FinishStep(s: State): State {
    var armed := if s.timers == [] then s else ResetTimerFd(s, s.timers[0].expiration);
    armed.(cancelling := {}, phase := Idle, expired := [], next := 0)
  }

  function Next(s: State, l: Label): State
    requires Enabled(s, l) && Safe(s, l)
  {
    match l
    case Tick(t) => s.(clock := t)
    case Lag(lag) => s.(lag := lag)
    case Post(a, when, interval) =>
      NewTimer(s, a, when, interval).(posted := s.posted + {a})
    case RunPosted(a) => AddTimerInLoop(s.(posted := s.posted - {a}), a)
    case AddHere(a, when, interval) => AddTimerInLoop(NewTimer(s, a, when, interval), a)
    case Cancel(id) => CancelInLoop(s, id)
    case Begin => BeginStep(s)
    case Start => StartStep(s)
    case End => s.(phase := Running, next := s.next + 1)
    case StartReset => s.(phase := Resetting, next := 0)
    case ResetNext => ResetOne(s)
    case Finish => FinishStep(s)
  }

  /** `t` is reached from `s` by the steps `ls`, each enabled and safe where it is taken. */
  ghost predicate Reaches(s: State, ls: seq<Label>, t: State)
    decreases |ls|
  {
    if ls == [] then s == t
    else Enabled(s, ls[0]) && Safe(s, ls[0]) && Reaches(Next(s, ls[0]), ls[1..], t)
  }
}
