/**
 The timer queue as ConnectionModel sees it: one-shot timers that are armed, cancelled, moved into
 a batch together, and fired one by one. Every run of TimerModel is a run of this service, for the
 timers of one connection; and every step of a connection follows it.
 */
module TimerService {
  import opened TimerModel
  import opened TimerInvariant
  import TimerTheorems
  import Octets
  import Buffers
  import OutputModel
  import ConnectionModel
  import Retransmission

  /** Timers that wait in the queue, and timers of the batch that have not been called yet. */
  datatype Service = Service(armed: set<nat>, batch: set<nat>)

  datatype Act =
    | Nothing
    | Arm(n: nat)
    | Disarm(gone: set<nat>)
    | Detach(due: set<nat>)
    | Call(n: nat)

  predicate Allowed(v: Service, x: Act) {
    match x
    case Nothing => true
    case Arm(n) => n !in v.armed && n !in v.batch
    case Disarm(_) => true
    case Detach(due) => due <= v.armed
    case Call(n) => n in v.batch
  }

  function Apply(v: Service, x: Act): Service {
    match x
    case Nothing => v
    case Arm(n) => v.(armed := v.armed + {n})
    case Disarm(gone) => v.(armed := v.armed - gone)
    case Detach(due) => Service(v.armed - due, v.batch + due)
    case Call(n) => v.(batch := v.batch - {n})
  }

  ghost predicate Performs(v: Service, xs: seq<Act>, u: Service)
    decreases |xs|
  {
    if xs == [] then v == u else Allowed(v, xs[0]) && Performs(Apply(v, xs[0]), xs[1..], u)
  }

  // ---------------------------------------------------------------- the timer queue

  /** The live timer at `a` is a one-shot with a sequence number in `mine`. */
  predicate IsMine(h: Heap, mine: set<nat>, a: nat) {
    a in h && h[a].sequence in mine && !h[a].Repeat()
  }

  predicate ArmedAt(s: State, mine: set<nat>, a: nat) {
    IsMine(s.heap, mine, a) && EntryAt(s.heap, a) in s.timers
  }

  predicate ToCallAt(s: State, mine: set<nat>, a: nat) {
    IsMine(s.heap, mine, a) && EntryAt(s.heap, a) in Owned(s) && EntryAt(s.heap, a) !in Entered(s)
  }

  function Armed(s: State, mine: set<nat>): set<nat> {
    set a | a in s.heap && ArmedAt(s, mine, a)
  }

  function ToCall(s: State, mine: set<nat>): set<nat> {
    set a | a in s.heap && ToCallAt(s, mine, a)
  }

  function Due(s: State, mine: set<nat>): set<nat> {
    set a | a in s.heap && ArmedAt(s, mine, a) && s.heap[a].expiration <= s.clock
  }

  /** The sequence numbers of the timers at these addresses. */
  function Numbers(h: Heap, addresses: set<nat>): set<nat> {
    set a | a in addresses && a in h :: h[a].sequence
  }

  /** What the connection sees of the queue: its timers, by sequence number. */
  function View(s: State, mine: set<nat>): Service {
    Service(Numbers(s.heap, Armed(s, mine)), Numbers(s.heap, ToCall(s, mine)))
  }

  ghost predicate Unique(h: Heap) {
    forall a, b :: a in h && b in h && h[a].sequence == h[b].sequence ==> a == b
  }

  lemma NumbersMinus(h: Heap, some: set<nat>, gone: set<nat>)
    requires Unique(h) && gone <= h.Keys
    ensures Numbers(h, some - gone) == Numbers(h, some) - Numbers(h, gone)
  {
    forall n ensures n in Numbers(h, some - gone) <==> n in Numbers(h, some) && n !in Numbers(h, gone) {
      if n in Numbers(h, some) {
        var a :| a in some && a in h && h[a].sequence == n;
        assert a in gone ==> n in Numbers(h, gone);
        assert a !in gone ==> a in some - gone;
      }
    }
  }

  lemma NumbersOne(h: Heap, a: nat)
    requires a in h
    ensures Numbers(h, {a}) == {h[a].sequence}
  {
  }

  lemma NumbersPlus(h: Heap, some: set<nat>, a: nat)
    requires a in h
    ensures Numbers(h, some + {a}) == Numbers(h, some) + {h[a].sequence}
  {
    forall n ensures n in Numbers(h, some + {a}) <==> n in Numbers(h, some) || n == h[a].sequence {
      if n in Numbers(h, some) {
        var b :| b in some && b in h && h[b].sequence == n;
        assert b in some + {a};
      }
      assert a in some + {a};
    }
  }

  lemma NumbersSame(h: Heap, g: Heap, some: set<nat>)
    requires some <= h.Keys && some <= g.Keys && forall a :: a in some ==> h[a].sequence == g[a].sequence
    ensures Numbers(h, some) == Numbers(g, some)
  {
    forall n ensures n in Numbers(h, some) <==> n in Numbers(g, some) {
      if n in Numbers(h, some) { var a :| a in some && a in h && h[a].sequence == n; assert a in g; }
      if n in Numbers(g, some) { var a :| a in some && a in g && g[a].sequence == n; assert a in h; }
    }
  }

  /** What a step of the queue is for the connection. */
  function ActOf(s: State, l: Label, mine: set<nat>): Act
    requires Enabled(s, l) && Safe(s, l)
  {
    match l
    case RunPosted(a) => if IsMine(s.heap, mine, a) then Arm(s.heap[a].sequence) else Nothing
    case AddHere(_, _, interval) => if s.created in mine && interval <= 0.0 then Arm(s.created) else Nothing
    case Cancel(id) => if Key(id.sequence, id.timer) in s.active then Disarm({id.sequence}) else Nothing
    case Begin => Detach(Numbers(s.heap, Due(s, mine)))
    case Start =>
      var a := s.expired[s.next].timer;
      if IsMine(s.heap, mine, a) then Call(s.heap[a].sequence) else Nothing
    case _ => Nothing
  }

  /** Nothing that the connection can see has changed. */
  lemma SameView(s: State, t: State, mine: set<nat>)
    requires forall a :: ArmedAt(s, mine, a) <==> ArmedAt(t, mine, a)
    requires forall a :: ToCallAt(s, mine, a) <==> ToCallAt(t, mine, a)
    requires forall a :: a in s.heap && a in t.heap && (ArmedAt(s, mine, a) || ToCallAt(s, mine, a)) ==>
               s.heap[a].sequence == t.heap[a].sequence
    ensures View(s, mine) == View(t, mine)
  {
    assert Armed(s, mine) == Armed(t, mine) && ToCall(s, mine) == ToCall(t, mine);
    NumbersSame(s.heap, t.heap, Armed(s, mine));
    NumbersSame(s.heap, t.heap, ToCall(s, mine));
  }

  lemma NewIsInvisible(s: State, a: nat, t: Timer, mine: set<nat>)
    requires Inv(s) && a !in s.heap
    ensures View(s.(heap := s.heap[a := t]), mine) == View(s, mine)
  {
    hide Agree, Partition, Accounted, RunsFit, AllSpaced, BatchRuns;
    var u := s.(heap := s.heap[a := t]);
    assert Owned(u) == Owned(s) && Entered(u) == Entered(s);
    SameView(s, u, mine);
  }

  lemma AddArms(s: State, a: nat, mine: set<nat>)
    requires a in s.heap && Sorted(s.timers) && EntryAt(s.heap, a) !in s.timers
    ensures View(AddTimerInLoop(s, a), mine) ==
            Apply(View(s, mine), if IsMine(s.heap, mine, a) then Arm(s.heap[a].sequence) else Nothing)
  {
    var t := AddTimerInLoop(s, a);
    InsertSpec(s.timers, s.EntryOf(a));
    hide Insert;
    assert Owned(t) == Owned(s) && Entered(t) == Entered(s) && t.heap == s.heap;
    assert ToCall(t, mine) == ToCall(s, mine);
    if IsMine(s.heap, mine, a) {
      assert Armed(t, mine) == Armed(s, mine) + {a};
      NumbersPlus(s.heap, Armed(s, mine), a);
    } else {
      assert Armed(t, mine) == Armed(s, mine);
    }
  }

  lemma RunPostedView(s: State, a: nat, mine: set<nat>)
    requires Inv(s) && Enabled(s, RunPosted(a)) && Safe(s, RunPosted(a))
    ensures Allowed(View(s, mine), ActOf(s, RunPosted(a), mine))
    ensures View(Next(s, RunPosted(a)), mine) == Apply(View(s, mine), ActOf(s, RunPosted(a), mine))
  {
    hide Agree, RunsFit, AllSpaced, BatchRuns;
    assert OwnedOnce(s.heap, s.posted, s.timers, Owned(s), a);
    var u := s.(posted := s.posted - {a});
    assert Owned(u) == Owned(s) && Entered(u) == Entered(s);
    SameView(s, u, mine);
    AddArms(u, a, mine);
  }

  lemma AddHereView(s: State, a: nat, when: int, interval: real, mine: set<nat>)
    requires Inv(s) && Enabled(s, AddHere(a, when, interval))
    ensures var l := AddHere(a, when, interval);
            && Allowed(View(s, mine), ActOf(s, l, mine))
            && View(Next(s, l), mine) == Apply(View(s, mine), ActOf(s, l, mine))
  {
    hide Agree, Partition, RunsFit, AllSpaced, BatchRuns;
    var u := NewTimer(s, a, when, interval);
    NewIsInvisible(s, a, u.heap[a], mine);
    var w := s.(heap := u.heap);
    assert Owned(u) == Owned(w) && Entered(u) == Entered(w);
    SameView(w, u, mine);
    assert forall e :: e in s.timers ==> e.timer in s.heap;
    AddArms(u, a, mine);
  }

  lemma CancelView(s: State, id: TimerId, mine: set<nat>)
    requires Inv(s) && Enabled(s, Cancel(id)) && Safe(s, Cancel(id))
    ensures View(Next(s, Cancel(id)), mine) == Apply(View(s, mine), ActOf(s, Cancel(id), mine))
  {
    hide RunsFit, AllSpaced, BatchRuns, Erase;
    var t := Next(s, Cancel(id));
    assert Owned(t) == Owned(s) && Entered(t) == Entered(s);
    if Key(id.sequence, id.timer) in s.active {
      AgreeAt(s.heap, s.timers, s.active, Key(id.sequence, id.timer));
      assert OwnedOnce(s.heap, s.posted, s.timers, Owned(s), id.timer);
      EraseSpec(s.timers, s.EntryOf(id.timer));
      hide Points, Agree, Partition;
      assert t.heap == s.heap - {id.timer};
      assert Armed(t, mine) == Armed(s, mine) - {id.timer};
      assert ToCall(t, mine) == ToCall(s, mine);
      assert Armed(t, mine) <= t.heap.Keys && ToCall(t, mine) <= t.heap.Keys;
      hide Next, Inv, Armed, ToCall;
      NumbersSame(t.heap, s.heap, Armed(t, mine));
      NumbersSame(t.heap, s.heap, ToCall(t, mine));
      NumbersMinus(s.heap, Armed(s, mine), {id.timer});
      NumbersOne(s.heap, id.timer);
    } else {
      SameView(s, t, mine);
    }
  }

  /** The batch is taken out of the queue, and nothing of it has been called. */
  lemma BatchSets(s: State, t: State, mine: set<nat>)
    requires TimerTheorems.IsDueBatch(s, t) && t.heap == s.heap
    requires Owned(s) == [] && Owned(t) == t.expired && Entered(t) == []
    ensures ToCall(s, mine) == {} && ToCall(t, mine) == Due(s, mine)
    ensures Armed(t, mine) == Armed(s, mine) - Due(s, mine)
  {
    hide Sorted, Owned, Entered;
    forall a
      ensures ToCallAt(t, mine, a) <==> ArmedAt(s, mine, a) && s.heap[a].expiration <= s.clock
      ensures ArmedAt(t, mine, a) <==> ArmedAt(s, mine, a) && s.clock < s.heap[a].expiration
    {
      assert a in s.heap ==> (EntryAt(s.heap, a) in s.timers <==>
                                EntryAt(s.heap, a) in t.expired || EntryAt(s.heap, a) in t.timers);
    }
    hide TimerTheorems.IsDueBatch, ArmedAt, ToCallAt;
    ToCallNone(s, mine);
  }

  lemma ToCallNone(s: State, mine: set<nat>)
    requires Owned(s) == []
    ensures ToCall(s, mine) == {}
  {
  }

  lemma BeginShape(s: State)
    requires Inv(s) && Enabled(s, Begin) && Safe(s, Begin)
    ensures var t := Next(s, Begin);
            t.heap == s.heap && Owned(s) == [] && Owned(t) == t.expired && Entered(t) == []
  {
    hide Consistent, Accounted, History, LowerBound;
  }

  lemma BeginSets(s: State, mine: set<nat>)
    requires Inv(s) && Enabled(s, Begin) && Safe(s, Begin)
    ensures var t := Next(s, Begin);
            && t.heap == s.heap && ToCall(s, mine) == {}
            && Armed(t, mine) == Armed(s, mine) - Due(s, mine) && ToCall(t, mine) == Due(s, mine)
  {
    hide *;
    TimerTheorems.BeginTakesDue(s);
    BeginShape(s);
    BatchSets(s, Next(s, Begin), mine);
  }

  lemma BeginView(s: State, mine: set<nat>)
    requires Inv(s) && Enabled(s, Begin) && Safe(s, Begin)
    ensures Allowed(View(s, mine), ActOf(s, Begin, mine))
    ensures View(Next(s, Begin), mine) == Apply(View(s, mine), ActOf(s, Begin, mine))
  {
    BeginSets(s, mine);
    assert Unique(s.heap);
    assert Due(s, mine) <= s.heap.Keys;
    hide Inv, Next, Armed, ToCall, Due, Safe;
    NumbersMinus(s.heap, Armed(s, mine), Due(s, mine));
    DueIsArmed(s, mine);
  }

  lemma DueIsArmed(s: State, mine: set<nat>)
    ensures Numbers(s.heap, Due(s, mine)) <= Numbers(s.heap, Armed(s, mine))
  {
    assert Due(s, mine) <= Armed(s, mine);
  }

  lemma StartView(s: State, mine: set<nat>)
    requires Inv(s) && Enabled(s, Start) && Safe(s, Start)
    ensures Allowed(View(s, mine), ActOf(s, Start, mine))
    ensures View(Next(s, Start), mine) == Apply(View(s, mine), ActOf(s, Start, mine))
  {
    TimerTheorems.StepRuns(s, Start);
    hide Agree, Partition, RunsFit, AllSpaced, BatchRuns;
    var t := Next(s, Start);
    var e := s.expired[s.next];
    var a := e.timer;
    assert Owned(s) == s.expired && Owned(t) == s.expired && t.heap == s.heap && t.timers == s.timers;
    assert Entered(t) == Entered(s) + [e];
    PointsAt(s.heap, s.expired, e);
    assert e !in Entered(s) by {
      assert forall i :: 0 <= i < s.next ==> Less(Entered(s)[i], e);
    }
    hide Points, Sorted;
    assert Armed(t, mine) == Armed(s, mine);
    assert ToCall(t, mine) == ToCall(s, mine) - {a};
    assert IsMine(s.heap, mine, a) ==> a in ToCall(s, mine);
    hide Next, Armed, ToCall;
    if IsMine(s.heap, mine, a) {
      NumbersMinus(s.heap, ToCall(s, mine), {a});
      NumbersOne(s.heap, a);
    } else {
      assert ToCall(s, mine) - {a} == ToCall(s, mine) by { NotMine(s, mine, a); }
    }
  }

  lemma NotMine(s: State, mine: set<nat>, a: nat)
    requires !IsMine(s.heap, mine, a)
    ensures a !in ToCall(s, mine)
  {
  }

  lemma ResetView(s: State, mine: set<nat>)
    requires Inv(s) && Enabled(s, ResetNext) && Safe(s, ResetNext)
    ensures View(Next(s, ResetNext), mine) == View(s, mine)
  {
    hide RunsFit, AllSpaced, BatchRuns, Insert, Micro;
    var t := Next(s, ResetNext);
    var a := s.expired[s.next].timer;
    assert Owned(s)[0] == s.expired[s.next] && s.expired[s.next] in Owned(s);
    assert OwnedOnce(s.heap, s.posted, s.timers, Owned(s), a);
    PointsAt(s.heap, Owned(s), s.expired[s.next]);
    assert forall b :: !ToCallAt(s, mine, b) && !ToCallAt(t, mine, b);
    forall b ensures ArmedAt(t, mine, b) <==> ArmedAt(s, mine, b) {
      ResetArmed(s, b, mine);
    }
    SameView(s, t, mine);
  }

  /** reset deletes a one-shot; only a repeating timer goes back to the queue. */
  lemma ResetArmed(s: State, b: nat, mine: set<nat>)
    requires Inv(s) && Enabled(s, ResetNext) && Safe(s, ResetNext)
    ensures ArmedAt(Next(s, ResetNext), mine, b) <==> ArmedAt(s, mine, b)
  {
    hide Agree, RunsFit, AllSpaced, BatchRuns, Insert, Micro;
    var t := Next(s, ResetNext);
    var a := s.expired[s.next].timer;
    assert Owned(s)[0] == s.expired[s.next] && s.expired[s.next] in Owned(s);
    assert OwnedOnce(s.heap, s.posted, s.timers, Owned(s), a);
    PointsAt(s.heap, Owned(s), s.expired[s.next]);
    if s.heap[a].Repeat() && s.KeyOf(a) !in s.cancelling {
      InsertSpec(s.timers, Entry(s.heap[a].Restart(s.now).expiration, a));
    }
  }

  lemma OtherView(s: State, l: Label, mine: set<nat>)
    requires Inv(s) && Enabled(s, l) && Safe(s, l)
    requires l.Tick? || l.Lag? || l == End || l == StartReset || l == Finish
    ensures View(Next(s, l), mine) == View(s, mine)
  {
    hide Agree, Partition, Accounted, RunsFit, AllSpaced, BatchRuns;
    var t := Next(s, l);
    assert t.heap == s.heap && t.timers == s.timers;
    if l == End { assert Owned(t) == Owned(s) && Entered(t) == Entered(s); }
    if l == StartReset { assert Entered(s) == s.expired && Owned(t) == s.expired && Entered(t) == s.expired; }
    if l == Finish { assert Owned(s) == [] && Owned(t) == []; }
    SameView(s, t, mine);
  }

  lemma PostView(s: State, a: nat, when: int, interval: real, mine: set<nat>)
    requires Inv(s) && Enabled(s, Post(a, when, interval))
    ensures View(Next(s, Post(a, when, interval)), mine) == View(s, mine)
  {
    hide Agree, Partition, Accounted, RunsFit, AllSpaced, BatchRuns;
    var t := Next(s, Post(a, when, interval));
    NewIsInvisible(s, a, t.heap[a], mine);
    var w := s.(heap := t.heap);
    assert Owned(t) == Owned(w) && Entered(t) == Entered(w);
    SameView(w, t, mine);
  }

  /** Each step of the timer queue is an act of the service, or nothing. */
  lemma StepServes(s: State, l: Label, mine: set<nat>)
    requires Inv(s) && Enabled(s, l) && Safe(s, l)
    ensures Allowed(View(s, mine), ActOf(s, l, mine))
    ensures View(Next(s, l), mine) == Apply(View(s, mine), ActOf(s, l, mine))
  {
    hide Inv, Next, View, Safe;
    match l
    case Post(a, when, interval) => PostView(s, a, when, interval, mine);
    case RunPosted(a) => RunPostedView(s, a, mine);
    case AddHere(a, when, interval) => AddHereView(s, a, when, interval, mine);
    case Cancel(id) => CancelView(s, id, mine);
    case Begin => BeginView(s, mine);
    case Start => StartView(s, mine);
    case ResetNext => ResetView(s, mine);
    case _ => OtherView(s, l, mine);
  }

  /** Every run of the timer queue is a run of the service, for any choice of one-shot timers. */
  lemma {:induction false} RunServes(s: State, ls: seq<Label>, t: State, mine: set<nat>) returns (xs: seq<Act>)
    requires Inv(s) && Reaches(s, ls, t)
    ensures |xs| == |ls| && Performs(View(s, mine), xs, View(t, mine))
    decreases |ls|
  {
    hide Inv, View, Allowed, Apply, ActOf, Next;
    if ls == [] {
      xs := [];
    } else {
      StepKeeps(s, ls[0]);
      StepServes(s, ls[0], mine);
      var rest := RunServes(Next(s, ls[0]), ls[1..], t, mine);
      xs := [ActOf(s, ls[0], mine)] + rest;
      assert xs[1..] == rest;
    }
  }

  // ---------------------------------------------------------------- the connection

  function Uses(c: ConnectionModel.Conn): Service {
    Service(c.ret.armed.Keys, c.ret.batch.Keys)
  }

  /** Whatever the service does to the timers of a connection is a step of ConnectionModel. */
  lemma ServiceIsCovered(c: ConnectionModel.Conn, x: Act, w: Buffers.WriteResult)
    requires Allowed(Uses(c), x) && (x.Detach? || x.Call?)
    requires OutputModel.Obeys(c.out, w) && forall q :: q in c.ret.pending ==> OutputModel.Fits(w, |c.ret.pending[q].data|)
    ensures x.Detach? ==>
              && ConnectionModel.Enabled(c, ConnectionModel.Expire(x.due))
              && Uses(ConnectionModel.Next(c, ConnectionModel.Expire(x.due))) == Apply(Uses(c), x)
    ensures x.Call? ==>
              && ConnectionModel.Enabled(c, ConnectionModel.Fire(x.n, w))
              && Uses(ConnectionModel.TakeTimer(c, x.n)) == Apply(Uses(c), x)
  {
  }

  /** What a step may do to the timers: the service calls one, some are cancelled, one is added. */
  ghost predicate Moves(c: ConnectionModel.Conn, d: ConnectionModel.Conn, called: set<nat>) {
    && Uses(d).batch == Uses(c).batch - called
    && Uses(d).armed <= Uses(c).armed + {c.ret.nextTimer}
  }

  lemma SyncMoves(c: ConnectionModel.Conn, out: OutputModel.Out)
    ensures Moves(c, ConnectionModel.Sync(c, out), {})
  {
    hide ConnectionModel.Held;
  }

  lemma SendMoves(c: ConnectionModel.Conn, q: nat, data: Octets.Bytes, w: Buffers.WriteResult)
    requires OutputModel.Fits(w, |data|)
    ensures var d := ConnectionModel.SendMessage(c, q, data, w);
            Moves(c, d, {}) && d.ret.nextTimer == c.ret.nextTimer && Uses(d).armed <= Uses(c).armed
  {
    hide ConnectionModel.Held, OutputModel.SendInLoop;
  }

  lemma ConnectionMoves(c: ConnectionModel.Conn, l: ConnectionModel.Label)
    requires ConnectionModel.Enabled(c, l) && ConnectionModel.Safe(c, l) && !l.Expire?
    ensures Moves(c, ConnectionModel.Next(c, l), if l.Fire? then {l.timer} else {})
  {
    hide ConnectionModel.Held, ConnectionModel.SendMessage, OutputModel.SendInLoop, OutputModel.HandleWrite;
    hide OutputModel.SendFileInLoop, OutputModel.ShutdownInLoop, OutputModel.HandleClose;
    match l
    case Reliable(q, data, w) => SendMoves(c, q, data, w);
    case Fire(timer, w) =>
      var q := c.ret.batch[timer];
      var c1 := ConnectionModel.TakeTimer(c, timer);
      if q in c.ret.pending { SendMoves(c1, q, c.ret.pending[q].data, w); }
    case _ =>
  }

  /** Every step of a connection acts on its timers as the service allows. */
  lemma ConnectionServes(c: ConnectionModel.Conn, l: ConnectionModel.Label) returns (xs: seq<Act>)
    requires Retransmission.Inv(c) && ConnectionModel.Enabled(c, l) && ConnectionModel.Safe(c, l)
    ensures Performs(Uses(c), xs, Uses(ConnectionModel.Next(c, l)))
  {
    var v, u := Uses(c), Uses(ConnectionModel.Next(c, l));
    var n := c.ret.nextTimer;
    if l.Expire? {
      ActsJoin(v, Detach(l.due), Nothing, Nothing, u);
      xs := [Detach(l.due), Nothing, Nothing];
    } else {
      ConnectionMoves(c, l);
      FreshTimer(c);
      hide Retransmission.Inv, ConnectionModel.Next;
      var first := if l.Fire? then Call(l.timer) else Nothing;
      var last := if n in u.armed then Arm(n) else Nothing;
      assert u.armed == (v.armed - (v.armed - u.armed)) + if n in u.armed then {n} else {};
      ActsJoin(v, first, Disarm(v.armed - u.armed), last, u);
      xs := [first, Disarm(v.armed - u.armed), last];
    }
  }

  lemma FreshTimer(c: ConnectionModel.Conn)
    requires Retransmission.Inv(c)
    ensures c.ret.nextTimer !in c.ret.armed && c.ret.nextTimer !in c.ret.batch
  {
  }

  lemma ActsJoin(v: Service, x: Act, y: Act, z: Act, u: Service)
    requires Allowed(v, x) && Allowed(Apply(v, x), y) && Allowed(Apply(Apply(v, x), y), z)
    requires u == Apply(Apply(Apply(v, x), y), z)
    ensures Performs(v, [x, y, z], u)
  {
    hide Allowed, Apply;
    assert [x, y, z][1..] == [y, z] && [y, z][1..] == [z] && [z][1..] == [];
    assert Performs(u, [], u);
    assert Performs(Apply(Apply(v, x), y), [z], u);
    assert Performs(Apply(v, x), [y, z], u);
  }
}
