/**
 shutdown() and forceClose() of net/TcpConnection.cc called by other threads: they change the
 state at once, and queue a closure in which the loop thread does the rest later.
 */
module CrossThread {
  import opened Octets
  import opened Buffers
  import opened OutputModel
  import opened ConnectionModel
  import opened Retransmission

  datatype Shared = Shared(
    conn: Conn,
    shutdowns: nat,   // queued closures that call shutdownInLoop
    closes: nat)      // queued closures that call forceCloseInLoop

  datatype Step =
    | Own(l: Label)     // the loop thread
    | AskShutdown       // shutdown() on another thread
    | RunShutdown       // its closure
    | AskClose          // forceClose() on another thread
    | RunClose          // its closure

  const START := Shared(INITIAL, 0, 0)

  predicate May(s: Shared, x: Step) {
    match x
    case Own(l) => Enabled(s.conn, l)
    case AskShutdown => true
    case RunShutdown => s.shutdowns > 0
    case AskClose => true
    case RunClose => s.closes > 0
  }

  predicate IsSafe(s: Shared, x: Step)
    requires May(s, x)
  {
    x.Own? ==> Safe(s.conn, x.l)
  }

  function SetDisconnecting(c: Conn): Conn {
    c.(out := c.out.(state := Disconnecting))
  }

  function After(s: Shared, x: Step): Shared
    requires May(s, x) && IsSafe(s, x)
  {
    match x
    case Own(l) => s.(conn := Next(s.conn, l))
    case AskShutdown =>
      if s.conn.out.state != Connected then s
      else s.(conn := SetDisconnecting(s.conn), shutdowns := s.shutdowns + 1)
    case RunShutdown => s.(conn := Sync(s.conn, ShutdownInLoop(s.conn.out)), shutdowns := s.shutdowns - 1)
    case AskClose =>
      if s.conn.out.state == Disconnected then s
      else s.(conn := SetDisconnecting(s.conn), closes := s.closes + 1)
    case RunClose => s.(conn := Sync(s.conn, HandleClose(s.conn.out)), closes := s.closes - 1)
  }

  ghost predicate Leads(s: Shared, xs: seq<Step>, t: Shared)
    decreases |xs|
  {
    if xs == [] then s == t else May(s, xs[0]) && IsSafe(s, xs[0]) && Leads(After(s, xs[0]), xs[1..], t)
  }

  // ---------------------------------------------------------------- what all threads keep

  /** Until the closure has run, a connection may be shutting down without being shut. */
  ghost predicate ShutOrQueued(s: Shared) {
    s.conn.out.state == Disconnecting ==> (s.conn.out.shut && s.conn.out.writing) || s.shutdowns + s.closes > 0
  }

  lemma OwnKeepsState(c: Conn, l: Label)
    requires Enabled(c, l) && Safe(c, l)
    ensures ShutWhileClosing(c.out) ==> ShutWhileClosing(Next(c, l).out)
  {
    if ShutWhileClosing(c.out) { ClosingStep(c, l); }
  }

  lemma SharedStep(s: Shared, x: Step)
    requires Retransmission.Inv(s.conn) && ShutOrQueued(s) && May(s, x) && IsSafe(s, x)
    ensures Retransmission.Inv(After(s, x).conn) && ShutOrQueued(After(s, x))
  {
    hide Timers, Bounded, Next, Safe, Enabled, Held;
    match x
    case Own(l) =>
      StepKeeps(s.conn, l);
      OwnKeepsState(s.conn, l);
    case RunShutdown => SyncKeeps(s.conn, ShutdownInLoop(s.conn.out));
    case RunClose => SyncKeeps(s.conn, HandleClose(s.conn.out));
    case _ =>
  }

  lemma {:induction false} SharedRuns(s: Shared, xs: seq<Step>, t: Shared)
    requires Retransmission.Inv(s.conn) && ShutOrQueued(s) && Leads(s, xs, t)
    ensures Retransmission.Inv(t.conn) && ShutOrQueued(t)
    decreases |xs|
  {
    if xs != [] {
      hide Retransmission.Inv, ShutOrQueued, May, IsSafe, After;
      SharedStep(s, xs[0]);
      SharedRuns(After(s, xs[0]), xs[1..], t);
    }
  }

  /** One timer per pending message and a bounded number of sends, whatever other threads do. */
  lemma BoundedAcrossThreads(xs: seq<Step>, t: Shared)
    requires Leads(START, xs, t)
    ensures Timers(t.conn.ret) && forall q :: Count(t.conn.ret.sent, q) <= 6
  {
    SharedRuns(START, xs, t);
    forall q ensures Count(t.conn.ret.sent, q) <= 6 {
      assert Within(t.conn.ret.sent, t.conn.ret.pending, q);
    }
  }

  // ---------------------------------------------------------------- the reference to the entry

  /** A step is unsafe only while the closure of another thread's call is still queued. */
  lemma UnsafeOnlyWhileQueued(xs: seq<Step>, t: Shared, x: Step)
    requires Leads(START, xs, t) && May(t, x) && !IsSafe(t, x)
    ensures t.shutdowns + t.closes > 0
  {
    SharedRuns(START, xs, t);
    FireIsSafeExactly(t.conn, x.l.timer, x.l.w);
  }

  ghost predicate NoneEmpty(c: Conn) {
    forall q :: q in c.ret.pending ==> c.ret.pending[q].data != []
  }

  lemma NoneEmptyStep(c: Conn, l: Label)
    requires NoneEmpty(c) && Enabled(c, l) && Safe(c, l) && (l.Reliable? ==> l.data != [])
    ensures NoneEmpty(Next(c, l))
  {
    hide SendInLoop, HandleWrite, SendFileInLoop, ShutdownInLoop, HandleClose, Held;
  }

  predicate NotEmpty(x: Step) {
    x.Own? && x.l.Reliable? ==> x.l.data != []
  }

  lemma {:induction false} NoneEmptyRuns(s: Shared, xs: seq<Step>, t: Shared)
    requires NoneEmpty(s.conn) && Leads(s, xs, t) && forall x :: x in xs ==> NotEmpty(x)
    ensures NoneEmpty(t.conn)
    decreases |xs|
  {
    if xs != [] {
      assert NotEmpty(xs[0]);
      if xs[0].Own? { NoneEmptyStep(s.conn, xs[0].l); }
      hide Next, Safe, Enabled;
      NoneEmptyRuns(After(s, xs[0]), xs[1..], t);
    }
  }

  /** As long as no empty message is sent reliably, every step of every thread is safe. */
  lemma NonEmptyMessagesAreSafe(xs: seq<Step>, t: Shared)
    requires Leads(START, xs, t) && forall x :: x in xs ==> NotEmpty(x)
    ensures forall x :: May(t, x) ==> IsSafe(t, x)
  {
    NoneEmptyRuns(START, xs, t);
    forall x | May(t, x) ensures IsSafe(t, x) {
      if x.Own? && x.l.Fire? { FireIsSafeExactly(t.conn, x.l.timer, x.l.w); }
    }
  }

  lemma LeadsCons(s: Shared, x: Step, xs: seq<Step>, t: Shared)
    requires May(s, x) && IsSafe(s, x) && Leads(After(s, x), xs, t)
    ensures Leads(s, [x] + xs, t)
  {
    assert ([x] + xs)[1..] == xs;
  }

  lemma ThreeSteps(s: Shared, x: Step, y: Step, z: Step)
    requires May(s, x) && IsSafe(s, x)
    requires May(After(s, x), y) && IsSafe(After(s, x), y)
    requires May(After(After(s, x), y), z) && IsSafe(After(After(s, x), y), z)
    ensures Leads(s, [x] + ([y] + ([z] + [])), After(After(After(s, x), y), z))
  {
    hide May, IsSafe, After;
    var t := After(After(After(s, x), y), z);
    assert Leads(t, [], t);
    LeadsCons(After(After(s, x), y), z, [], t);
    LeadsCons(After(s, x), y, [z] + [], t);
    LeadsCons(s, x, [y] + ([z] + []), t);
  }

  const EMPTY_MESSAGE_SENT := Retrans(map[7 := Entry([], 0, Some(0))], map[0 := 7], map[], 1, [7], {7})

  lemma EmptyMessageIsSent()
    ensures Next(INITIAL, Reliable(7, [], Wrote(0))) == Conn(NEW_CONNECTION, EMPTY_MESSAGE_SENT)
  {
  }

  /**
   The input for which a timeout uses an entry that its own send destroyed: an empty message is
   pending, another thread calls shutdown(), and the timer fires before the closure has run.
   */
  lemma TimeoutOvertakesShutdown()
    ensures exists xs, t ::
              Leads(START, xs, t) && May(t, Own(Fire(0, WriteFailed(104)))) && !IsSafe(t, Own(Fire(0, WriteFailed(104))))
  {
    var x, z := Own(Reliable(7, [], Wrote(0))), Own(Expire({0}));
    EmptyMessageIsSent();
    var sent := Shared(Conn(NEW_CONNECTION, EMPTY_MESSAGE_SENT), 0, 0);
    var asked := sent.(conn := SetDisconnecting(sent.conn), shutdowns := 1);
    assert After(START, x) == sent && After(sent, AskShutdown) == asked;
    assert May(asked, z) && IsSafe(asked, z);
    var expired := After(asked, z);
    assert expired.conn.ret.batch == map[0 := 7];
    FireIsSafeExactly(expired.conn, 0, WriteFailed(104));
    ThreeSteps(START, x, AskShutdown, z);
  }
}
