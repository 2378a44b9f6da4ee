/** What reliable sends promise over whole runs of a connection. */
module Retransmission {
  import opened Octets
  import opened Buffers
  import opened OutputModel
  import opened ConnectionModel

  function Count(s: seq<nat>, q: nat): nat {
    if s == [] then 0 else Count(s[..|s| - 1], q) + if s[|s| - 1] == q then 1 else 0
  }

  lemma CountAppend(s: seq<nat>, x: nat, q: nat)
    ensures Count(s + [x], q) == Count(s, q) + if x == q then 1 else 0
  {
    assert (s + [x])[..|s|] == s;
  }

  // ---------------------------------------------------------------- timers and entries

  /** Timer t, wherever it is, is the one whose id the entry of its message stores. */
  ghost predicate Linked(pending: map<nat, Entry>, t: nat, q: nat) {
    q in pending && pending[q].timer == Some(t)
  }

  /**
   Each pending message has exactly one timer that can still fire for it, and stores its id.
   A timer of the current batch may also belong to a message that is no longer pending.
   */
  ghost predicate OneTimerEach(pending: map<nat, Entry>, armed: map<nat, nat>, batch: map<nat, nat>, nextTimer: nat) {
    && (forall t :: t in armed ==> t < nextTimer && t !in batch && Linked(pending, t, armed[t]))
    && (forall t :: t in batch ==> t < nextTimer && (batch[t] in pending ==> Linked(pending, t, batch[t])))
    && (forall q :: q in pending ==>
          pending[q].timer.Some? &&
          var t := pending[q].timer.value;
          (t in armed && armed[t] == q) || (t in batch && batch[t] == q))
  }

  ghost predicate Timers(r: Retrans) {
    OneTimerEach(r.pending, r.armed, r.batch, r.nextTimer)
  }

  /** How often a message may have been sent so far. */
  ghost predicate Within(sent: seq<nat>, pending: map<nat, Entry>, q: nat) {
    Count(sent, q) <= if q in pending then 1 + pending[q].retries else 1 + MAX_RETRIES
  }

  ghost predicate Bounded(r: Retrans) {
    && (forall q :: q in r.pending ==> q in r.used && r.pending[q].retries <= MAX_RETRIES)
    && (forall t :: t in r.batch ==> r.batch[t] in r.used)
    && (forall q :: q !in r.used ==> Count(r.sent, q) == 0)
    && (forall q :: Within(r.sent, r.pending, q))
  }

  ghost predicate Inv(c: Conn) {
    Timers(c.ret) && Bounded(c.ret)
  }

  // ---------------------------------------------------------------- parts of steps

  /** Clearing the map cancels every timer that waits. */
  lemma ClearTimers(r: Retrans)
    requires forall t :: t in r.armed ==> Linked(r.pending, t, r.armed[t])
    requires forall t :: t in r.batch ==> t < r.nextTimer
    ensures Timers(Clear(r)) && Clear(r).armed == map[]
  {
    forall t | t in r.armed ensures t in Held(r.pending) {
      assert Linked(r.pending, t, r.armed[t]);
    }
  }

  lemma ClearBounded(r: Retrans)
    requires Bounded(r)
    ensures Bounded(Clear(r))
  {
    forall q ensures Within(r.sent, map[], q) {
      assert Within(r.sent, r.pending, q);
    }
  }

  lemma SyncKeeps(c: Conn, out: Out)
    requires Inv(c)
    ensures Inv(Sync(c, out))
  {
    ClearTimers(c.ret);
    ClearBounded(c.ret);
  }

  function HeldBy(r: Retrans, q: nat): set<nat>
    requires q in r.pending
  {
    if r.pending[q].timer.Some? then {r.pending[q].timer.value} else {}
  }

  /** A new timer for q takes the place of the one that q held. */
  lemma ResetTimerKeeps(r: Retrans, q: nat)
    requires q in r.pending && OneTimerEach(r.pending - {q}, r.armed - HeldBy(r, q), r.batch, r.nextTimer)
    requires forall t :: t in r.batch ==> r.batch[t] != q
    ensures Timers(ResetTimer(r, q))
  {
    var r1 := ResetTimer(r, q);
    var rest := r.pending - {q};
    var left := r.armed - HeldBy(r, q);
    assert r1.armed == left[r.nextTimer := q];
    forall t | t in r1.armed ensures t < r1.nextTimer && t !in r1.batch && Linked(r1.pending, t, r1.armed[t]) {
      if t != r.nextTimer { assert Linked(rest, t, left[t]); }
    }
    forall t | t in r1.batch
      ensures t < r1.nextTimer && (r1.batch[t] in r1.pending ==> Linked(r1.pending, t, r1.batch[t]))
    {
      assert r.batch[t] in rest ==> Linked(rest, t, r.batch[t]);
    }
    forall p | p in r1.pending
      ensures r1.pending[p].timer.Some?
      ensures var t := r1.pending[p].timer.value; (t in r1.armed && r1.armed[t] == p) || (t in r1.batch && r1.batch[t] == p)
    {
      if p != q { assert p in rest && rest[p] == r1.pending[p]; }
    }
  }

  lemma SentBounded(r: Retrans, q: nat)
    requires Bounded(r) && q in r.used
    requires Count(r.sent, q) < if q in r.pending then 1 + r.pending[q].retries else 1 + MAX_RETRIES
    ensures Bounded(r.(sent := r.sent + [q]))
    ensures Count(r.sent + [q], q) == Count(r.sent, q) + 1
  {
    forall p ensures Count(r.sent + [q], p) == Count(r.sent, p) + if q == p then 1 else 0 {
      CountAppend(r.sent, q, p);
    }
    forall p ensures Within(r.sent + [q], r.pending, p) {
      assert Within(r.sent, r.pending, p);
    }
  }

  // ---------------------------------------------------------------- reliable sends

  lemma UsedBounded(r: Retrans, q: nat)
    requires Bounded(r)
    ensures Bounded(r.(used := r.used + {q}))
  {
    forall p ensures Within(r.sent, r.pending, p) {
      assert Within(r.sent, r.pending, p);
    }
  }

  /** A new entry may be put under a number that is not pending, for at most one send so far. */
  lemma NewEntryBounded(r: Retrans, q: nat, e: Entry)
    requires Bounded(r) && q in r.used && Count(r.sent, q) <= 1 && e.retries == 0
    ensures Bounded(r.(pending := r.pending[q := e]))
  {
    var more := r.pending[q := e];
    forall p ensures Within(r.sent, more, p) {
      assert Within(r.sent, r.pending, p);
    }
  }

  lemma ResetTimerBounded(r: Retrans, q: nat)
    requires q in r.pending && Bounded(r)
    ensures Bounded(ResetTimer(r, q))
  {
    forall p ensures Within(r.sent, ResetTimer(r, q).pending, p) {
      assert Within(r.sent, r.pending, p);
    }
  }

  lemma EnterEntry(r: Retrans, q: nat, data: Bytes)
    requires Timers(r) && Bounded(r) && q in r.used && Count(r.sent, q) <= 1
    requires q !in r.pending && forall t :: t in r.batch ==> r.batch[t] != q
    ensures var s := ResetTimer(r.(pending := r.pending[q := Entry(data, 0, None)]), q);
            Timers(s) && Bounded(s)
  {
    var r1 := r.(pending := r.pending[q := Entry(data, 0, None)]);
    assert r1.pending - {q} == r.pending && r1.armed - HeldBy(r1, q) == r.armed;
    NewEntryBounded(r, q, Entry(data, 0, None));
    ResetTimerKeeps(r1, q);
    ResetTimerBounded(r1, q);
  }

  lemma ReliableKeeps(c: Conn, q: nat, data: Bytes, w: WriteResult)
    requires Inv(c) && Enabled(c, Reliable(q, data, w))
    ensures Inv(Next(c, Reliable(q, data, w)))
  {
    hide SendInLoop;
    var r := c.ret.(used := c.ret.used + {q});
    UsedBounded(c.ret, q);
    if c.out.state == Connected {
      SentBounded(r, q);
      var r1 := r.(sent := r.sent + [q]);
      var c1 := Conn(c.out, r1);
      SyncKeeps(c1, SendInLoop(c.out, data, w));
      EnterEntry(Sync(c1, SendInLoop(c.out, data, w)).ret, q, data);
    } else {
      EnterEntry(r, q, data);
    }
  }

  // ---------------------------------------------------------------- acknowledgements

  lemma AckKeeps(c: Conn, q: nat)
    requires Inv(c)
    ensures Inv(AckReceived(c, q))
  {
    var r, s := c.ret, AckReceived(c, q).ret;
    if q in r.pending {
      forall t | t in s.armed ensures t < s.nextTimer && t !in s.batch && Linked(s.pending, t, s.armed[t]) {
        assert Linked(r.pending, t, r.armed[t]);
      }
      forall t | t in s.batch && s.batch[t] in s.pending ensures Linked(s.pending, t, s.batch[t]) {
        assert Linked(r.pending, t, r.batch[t]);
      }
      forall p ensures Within(s.sent, s.pending, p) {
        assert Within(r.sent, r.pending, p);
      }
    }
  }

  // ---------------------------------------------------------------- timers

  lemma ExpireKeeps(c: Conn, due: set<nat>)
    requires Inv(c) && Enabled(c, Expire(due))
    ensures Inv(Next(c, Expire(due)))
  {
    var r, s := c.ret, Next(c, Expire(due)).ret;
    forall t | t in s.batch
      ensures t < s.nextTimer && s.batch[t] in s.used && (s.batch[t] in s.pending ==> Linked(s.pending, t, s.batch[t]))
    {
      if t in due { assert Linked(r.pending, t, r.armed[t]); }
    }
    forall p ensures Within(s.sent, s.pending, p) {
      assert Within(r.sent, r.pending, p);
    }
  }

  /** A timer that left the batch to fire: its message, if pending, has no other timer. */
  lemma FiringAlone(r: Retrans, timer: nat)
    requires Timers(r) && timer in r.batch
    ensures var q := r.batch[timer];
            var batch := r.batch - {timer};
            && (q !in r.pending ==> OneTimerEach(r.pending, r.armed, batch, r.nextTimer))
            && (q in r.pending ==>
                  && HeldBy(r, q) == {timer}
                  && (forall t :: t in batch ==> batch[t] != q)
                  && OneTimerEach(r.pending - {q}, r.armed - {timer}, batch, r.nextTimer))
  {
    var q := r.batch[timer];
    var batch := r.batch - {timer};
    if q in r.pending {
      assert Linked(r.pending, timer, q);
      var rest := r.pending - {q};
      forall t | t in batch ensures batch[t] != q && (batch[t] in rest ==> Linked(rest, t, batch[t])) {
        assert batch[t] in r.pending ==> Linked(r.pending, t, batch[t]);
      }
      forall t | t in r.armed ensures Linked(rest, t, r.armed[t]) {
        assert Linked(r.pending, t, r.armed[t]);
      }
    }
  }

  /** Number of sends and retries of an entry go up together. */
  lemma RetryBounded(r: Retrans, q: nat)
    requires Bounded(r) && q in r.pending && r.pending[q].retries < MAX_RETRIES
    ensures var e := r.pending[q];
            Bounded(r.(sent := r.sent + [q], pending := r.pending[q := e.(retries := e.retries + 1)]))
  {
    var e := r.pending[q];
    var r1 := r.(pending := r.pending[q := e.(retries := e.retries + 1)]);
    assert Within(r.sent, r.pending, q);
    forall p ensures Within(r1.sent, r1.pending, p) {
      assert Within(r.sent, r.pending, p);
    }
    SentBounded(r1, q);
  }

  lemma DropBounded(r: Retrans, q: nat)
    requires Bounded(r)
    ensures Bounded(r.(pending := r.pending - {q}))
  {
    forall p ensures Within(r.sent, r.pending - {q}, p) {
      assert Within(r.sent, r.pending, p);
    }
  }

  /** The entry of the timer that fires, after the send and with the retry counted. */
  function Retried(c: Conn, timer: nat): Retrans
    requires timer in c.ret.batch && c.ret.batch[timer] in c.ret.pending
  {
    var q := c.ret.batch[timer];
    var e := c.ret.pending[q];
    c.ret.(batch := c.ret.batch - {timer},
           sent := if c.out.state == Disconnected then c.ret.sent else c.ret.sent + [q],
           pending := c.ret.pending[q := e.(retries := e.retries + 1)])
  }

  lemma RetriedBounded(c: Conn, timer: nat)
    requires Inv(c) && timer in c.ret.batch && c.ret.batch[timer] in c.ret.pending
    requires c.ret.pending[c.ret.batch[timer]].retries < MAX_RETRIES
    ensures Bounded(Retried(c, timer))
  {
    var r := c.ret.(batch := c.ret.batch - {timer});
    assert Bounded(r);
    hide Bounded;
    RetryBounded(r, c.ret.batch[timer]);
    MoreRetriesBounded(r, c.ret.batch[timer]);
  }

  lemma FireRetries(c: Conn, timer: nat, w: WriteResult)
    requires Enabled(c, Fire(timer, w)) && Safe(c, Fire(timer, w)) && c.ret.batch[timer] in c.ret.pending
    requires c.ret.pending[c.ret.batch[timer]].retries < MAX_RETRIES
    ensures Next(c, Fire(timer, w)).ret == ResetTimer(Retried(c, timer), c.ret.batch[timer])
  {
    var q := c.ret.batch[timer];
    SentOnce(TakeTimer(c, timer), q, c.ret.pending[q].data, w);
    hide SendMessage, ResetTimer;
  }

  lemma SentOnce(c: Conn, q: nat, data: Bytes, w: WriteResult)
    requires Fits(w, |data|) && q in c.ret.pending && q in SendMessage(c, q, data, w).ret.pending
    ensures SendMessage(c, q, data, w).ret ==
            if c.out.state == Disconnected then c.ret else c.ret.(sent := c.ret.sent + [q])
  {
    hide SendInLoop, Held;
  }

  /** The message is sent once more and gets a new timer. */
  lemma RetryKeeps(c: Conn, timer: nat, w: WriteResult)
    requires Inv(c) && Enabled(c, Fire(timer, w)) && Safe(c, Fire(timer, w))
    requires c.ret.batch[timer] in c.ret.pending && c.ret.pending[c.ret.batch[timer]].retries < MAX_RETRIES
    ensures Inv(Next(c, Fire(timer, w)))
  {
    hide Next, Safe, Bounded, OneTimerEach;
    RetriedBounded(c, timer);
    FiringAlone(c.ret, timer);
    FireRetries(c, timer, w);
    var q := c.ret.batch[timer];
    var r := Retried(c, timer);
    assert r.pending - {q} == c.ret.pending - {q};
    ResetTimerKeeps(r, q);
    ResetTimerBounded(r, q);
  }

  lemma MoreRetriesBounded(r: Retrans, q: nat)
    requires Bounded(r) && q in r.pending && r.pending[q].retries < MAX_RETRIES
    ensures var e := r.pending[q]; Bounded(r.(pending := r.pending[q := e.(retries := e.retries + 1)]))
  {
    var e := r.pending[q];
    var more := r.pending[q := e.(retries := e.retries + 1)];
    forall p ensures Within(r.sent, more, p) {
      assert Within(r.sent, r.pending, p);
    }
  }

  lemma FireKeeps(c: Conn, timer: nat, w: WriteResult)
    requires Inv(c) && Enabled(c, Fire(timer, w)) && Safe(c, Fire(timer, w))
    ensures Inv(Next(c, Fire(timer, w)))
  {
    var q := c.ret.batch[timer];
    FiringAlone(c.ret, timer);
    if q in c.ret.pending {
      if c.ret.pending[q].retries < MAX_RETRIES {
        RetryKeeps(c, timer, w);
      } else {
        var r := c.ret.(batch := c.ret.batch - {timer});
        DropBounded(r, q);
        assert c.ret.armed - {timer} == c.ret.armed;
        SyncKeeps(c.(ret := r.(pending := r.pending - {q})), HandleClose(c.out));
      }
    }
  }

  // ---------------------------------------------------------------- all steps, all runs

  lemma StepKeeps(c: Conn, l: Label)
    requires Inv(c) && Enabled(c, l) && Safe(c, l)
    ensures Inv(Next(c, l))
  {
    hide Timers, Bounded, SendInLoop, HandleWrite, SendReliably, Timeout, AckReceived;
    match l
    case Send(data, w) => SyncKeeps(c, SendInLoop(c.out, data, w));
    case SendFile(open) => SyncKeeps(c, SendFileInLoop(c.out, open));
    case Writable(w, f) => SyncKeeps(c, HandleWrite(c.out, w, f));
    case Shutdown => SyncKeeps(c, ShutdownInLoop(c.out.(state := Disconnecting)));
    case Close => SyncKeeps(c, HandleClose(c.out));
    case Reliable(q, data, w) => ReliableKeeps(c, q, data, w);
    case Ack(q) => AckKeeps(c, q);
    case Expire(due) => ExpireKeeps(c, due);
    case Fire(timer, w) => FireKeeps(c, timer, w);
  }

  lemma {:induction false} RunsKeep(c: Conn, ls: seq<Label>, d: Conn)
    requires Inv(c) && Reaches(c, ls, d)
    ensures Inv(d)
    decreases |ls|
  {
    if ls != [] {
      StepKeeps(c, ls[0]);
      RunsKeep(Next(c, ls[0]), ls[1..], d);
    }
  }

  /**
   In every run in which no message number is used twice: each pending message has exactly one
   timer, whose id it stores, and no message is sent more often than once and five retries.
   */
  lemma RetransmissionIsBounded(ls: seq<Label>, d: Conn)
    requires Reaches(INITIAL, ls, d)
    ensures Timers(d.ret)
    ensures forall q :: Count(d.ret.sent, q) <= 6
  {
    assert Inv(INITIAL);
    RunsKeep(INITIAL, ls, d);
    forall q ensures Count(d.ret.sent, q) <= 6 {
      assert Within(d.ret.sent, d.ret.pending, q);
    }
  }

  // ---------------------------------------------------------------- after the acknowledgement

  /** Number q is known, not pending, and was sent n times. */
  ghost predicate Settled(r: Retrans, q: nat, n: nat) {
    q in r.used && q !in r.pending && Count(r.sent, q) == n
  }

  lemma SettledReliable(c: Conn, p: nat, data: Bytes, w: WriteResult, q: nat, n: nat)
    requires Fits(w, |data|) && p !in c.ret.used && Settled(c.ret, q, n)
    ensures Settled(SendReliably(c, p, data, w).ret, q, n)
  {
    hide SendInLoop, Held, Count;
    CountAppend(c.ret.sent, p, q);
  }

  lemma SettledTimeout(c: Conn, p: nat, w: WriteResult, q: nat, n: nat)
    requires (p in c.ret.pending ==> Fits(w, |c.ret.pending[p].data|)) && EntrySurvives(c, p, w)
    requires Settled(c.ret, q, n)
    ensures Settled(Timeout(c, p, w).ret, q, n)
  {
    hide SendInLoop, Held, Count;
    CountAppend(c.ret.sent, p, q);
  }

  /** A step sends only the message of a new send or of a pending entry. */
  lemma SettledStep(c: Conn, l: Label, q: nat, n: nat)
    requires Enabled(c, l) && Safe(c, l) && Settled(c.ret, q, n)
    ensures Settled(Next(c, l).ret, q, n)
  {
    hide SendInLoop, HandleWrite, SendFileInLoop, ShutdownInLoop, Held, Count, SendReliably, Timeout;
    match l
    case Reliable(p, data, w) => SettledReliable(c, p, data, w, q, n);
    case Fire(timer, w) =>
      SettledTimeout(TakeTimer(c, timer), c.ret.batch[timer], w, q, n);
    case _ =>
  }

  lemma {:induction false} SettledRuns(c: Conn, ls: seq<Label>, d: Conn, q: nat, n: nat)
    requires Reaches(c, ls, d) && Settled(c.ret, q, n)
    ensures Settled(d.ret, q, n)
    decreases |ls|
  {
    if ls != [] {
      SettledStep(c, ls[0], q, n);
      SettledRuns(Next(c, ls[0]), ls[1..], d, q, n);
    }
  }

  /** Once its acknowledgement is processed a message is never sent again, whatever fires later. */
  lemma AckedIsNeverSentAgain(c: Conn, q: nat, ls: seq<Label>, d: Conn)
    requires q in c.ret.used && Reaches(Next(c, Ack(q)), ls, d)
    ensures q !in d.ret.pending && Count(d.ret.sent, q) == Count(c.ret.sent, q)
  {
    SettledRuns(Next(c, Ack(q)), ls, d, q, Count(c.ret.sent, q));
  }

  /** The timeout after the last retry drops the entry and closes the connection. */
  lemma LastTimeoutCloses(c: Conn, timer: nat, w: WriteResult)
    requires Inv(c) && Enabled(c, Fire(timer, w)) && c.ret.batch[timer] in c.ret.pending
    requires c.ret.pending[c.ret.batch[timer]].retries == 5
    ensures var d := Next(c, Fire(timer, w));
            && d.out.state == Disconnected && d.ret.sent == c.ret.sent
            && c.ret.batch[timer] !in d.ret.pending
            && (c.out.state != Disconnected ==> d.ret.pending == map[] && d.ret.armed == map[])
  {
    var q := c.ret.batch[timer];
    var r := c.ret.(batch := c.ret.batch - {timer}, pending := c.ret.pending - {q});
    FiringAlone(c.ret, timer);
    assert c.ret.armed - {timer} == c.ret.armed;
    ClearTimers(r);
  }

  /** A reliable send stores the message with no retries and a new timer; it sends it if connected. */
  lemma ReliableStarts(c: Conn, q: nat, data: Bytes, w: WriteResult)
    requires Enabled(c, Reliable(q, data, w))
    ensures var d := Next(c, Reliable(q, data, w));
            && q in d.ret.pending && d.ret.pending[q] == Entry(data, 0, Some(c.ret.nextTimer))
            && c.ret.nextTimer in d.ret.armed && d.ret.armed[c.ret.nextTimer] == q
            && d.ret.sent == (if c.out.state == Connected then c.ret.sent + [q] else c.ret.sent)
            && d.out == if c.out.state == Connected then SendInLoop(c.out, data, w) else c.out
  {
    ReliableEnters(c, q, data, w);
    hide SendInLoop, Held;
  }

  /** An earlier timeout of a pending message sends its data once more, and starts a new timer. */
  lemma EarlierTimeoutResends(c: Conn, timer: nat, w: WriteResult)
    requires Inv(c) && Enabled(c, Fire(timer, w)) && c.ret.batch[timer] in c.ret.pending
    requires c.ret.pending[c.ret.batch[timer]].retries < 5 && c.out.state != Disconnected
    requires Safe(c, Fire(timer, w))
    ensures var d, q := Next(c, Fire(timer, w)), c.ret.batch[timer];
            var e := c.ret.pending[q];
            && d.ret.sent == c.ret.sent + [q] && d.out == SendInLoop(c.out, e.data, w)
            && q in d.ret.pending && d.ret.pending[q] == Entry(e.data, e.retries + 1, Some(c.ret.nextTimer))
            && c.ret.nextTimer in d.ret.armed && d.ret.armed[c.ret.nextTimer] == q
  {
    FireRetries(c, timer, w);
    hide SendInLoop, Held;
  }

  // ---------------------------------------------------------------- a message that is never acknowledged

  /** Message q has been sent k + 1 times, and its timer is armed. */
  ghost predicate Waiting(c: Conn, q: nat, k: nat) {
    && Inv(c) && c.out.state == Connected && Count(c.ret.sent, q) == k + 1
    && q in c.ret.pending && c.ret.pending[q].retries == k && c.ret.pending[q].timer.Some?
    && c.ret.pending[q].timer.value in c.ret.armed && c.ret.armed[c.ret.pending[q].timer.value] == q
  }

  /** The timer expires, and the socket would block. */
  function Expires(c: Conn, q: nat): (Label, Label)
    requires q in c.ret.pending && c.ret.pending[q].timer.Some?
  {
    var timer := c.ret.pending[q].timer.value;
    (Expire({timer}), Fire(timer, WriteFailed(11)))
  }

  lemma ExpiresToBatch(c: Conn, q: nat, k: nat)
    requires Waiting(c, q, k)
    ensures var (l, f) := Expires(c, q);
            && Enabled(c, l) && Safe(c, l)
            && var b := Next(c, l);
               && Inv(b) && Enabled(b, f) && Safe(b, f) && b.out == c.out && b.ret.sent == c.ret.sent
               && b.ret.pending == c.ret.pending && b.ret.batch[f.timer] == q
  {
    var (l, f) := Expires(c, q);
    StepKeeps(c, l);
    var b := Next(c, l);
    assert f.timer in b.ret.batch && b.ret.batch[f.timer] == q;
    hide Inv, SendMessage;
    FireIsSafeExactly(b, f.timer, f.w);
  }

  lemma RetryOnce(c: Conn, q: nat, k: nat)
    requires Waiting(c, q, k) && k < 5
    ensures var (l, f) := Expires(c, q);
            && Enabled(c, l) && Safe(c, l)
            && var b := Next(c, l);
               Enabled(b, f) && Safe(b, f) && Waiting(Next(b, f), q, k + 1)
  {
    ExpiresToBatch(c, q, k);
    var (l, f) := Expires(c, q);
    var b := Next(c, l);
    StepKeeps(b, f);
    EarlierTimeoutResends(b, f.timer, f.w);
    CountAppend(c.ret.sent, q, q);
    SendStaysOpen(b.out, b.ret.pending[q].data, f.w);
    hide Inv, Next, SendInLoop, Safe;
  }

  lemma SendStaysOpen(s: Out, data: Bytes, w: WriteResult)
    requires s.state == Connected && Fits(w, |data|)
    ensures SendInLoop(s, data, w).state == Connected
  {
    hide Place;
    PlaceWrites(s, data, Taken(s, w));
  }

  lemma {:induction false} RetriesRunOut(c: Conn, q: nat, k: nat)
    requires Waiting(c, q, k) && k <= 5
    ensures exists ls, d :: Reaches(c, ls, d) && Waiting(d, q, 5)
    decreases 5 - k
  {
    hide Waiting, Next, Safe, Enabled;
    if k == 5 {
      assert Reaches(c, [], c);
    } else {
      IsPending(c, q, k);
      RetryOnce(c, q, k);
      var (l, f) := Expires(c, q);
      var b := Next(c, l);
      RetriesRunOut(Next(b, f), q, k + 1);
      var ls, d :| Reaches(Next(b, f), ls, d) && Waiting(d, q, 5);
      ReachesCons(b, f, ls, d);
      ReachesCons(c, l, [f] + ls, d);
    }
  }

  lemma IsPending(c: Conn, q: nat, k: nat)
    requires Waiting(c, q, k)
    ensures q in c.ret.pending && c.ret.pending[q].timer.Some?
  {
  }

  /**
   A message that is never acknowledged is sent six times, once and five retries; the timeout
   after that closes the connection.
   */
  lemma UnackedIsSentSixTimes(q: nat, data: Bytes, w: WriteResult)
    requires Fits(w, |data|)
    ensures exists ls, d ::
              && Reaches(INITIAL, ls, d) && d.out.state == Connected && Count(d.ret.sent, q) == 6
              && q in d.ret.pending && d.ret.pending[q].timer.Some?
              && var (l, f) := Expires(d, q);
                 && Enabled(d, l) && Safe(d, l) && Enabled(Next(d, l), f) && Safe(Next(d, l), f)
                 && Next(Next(d, l), f).out.state == Disconnected
                 && Count(Next(Next(d, l), f).ret.sent, q) == 6
  {
    var l0 := Reliable(q, data, w);
    var c := Next(INITIAL, l0);
    assert Inv(INITIAL);
    StepKeeps(INITIAL, l0);
    ReliableStarts(INITIAL, q, data, w);
    CountAppend([], q, q);
    SendStaysOpen(INITIAL.out, data, w);
    assert Waiting(c, q, 0) by { hide Next, SendInLoop; }
    hide Waiting, Next, SendInLoop;
    RetriesRunOut(c, q, 0);
    var ls, d :| Reaches(c, ls, d) && Waiting(d, q, 5);
    ReachesCons(INITIAL, l0, ls, d);
    SixthTimeoutCloses(d, q);
  }

  lemma SixthTimeoutCloses(d: Conn, q: nat)
    requires Waiting(d, q, 5)
    ensures d.out.state == Connected && Count(d.ret.sent, q) == 6 && q in d.ret.pending && d.ret.pending[q].timer.Some?
    ensures var (l, f) := Expires(d, q);
            && Enabled(d, l) && Safe(d, l) && Enabled(Next(d, l), f) && Safe(Next(d, l), f)
            && Next(Next(d, l), f).out.state == Disconnected && Count(Next(Next(d, l), f).ret.sent, q) == 6
  {
    ExpiresToBatch(d, q, 5);
    var (l, f) := Expires(d, q);
    LastTimeoutCloses(Next(d, l), f.timer, f.w);
    hide Inv, Next, Safe;
  }

  // ---------------------------------------------------------------- the reference to the entry

  /**
   A timeout uses an entry that its own send destroyed, exactly if the message is empty, the
   socket refuses it, and the connection is being shut down with nothing left to write.
   */
  lemma FireIsSafeExactly(c: Conn, timer: nat, w: WriteResult)
    requires Enabled(c, Fire(timer, w))
    ensures var q := c.ret.batch[timer];
            !Safe(c, Fire(timer, w)) <==>
              && q in c.ret.pending && c.ret.pending[q].retries < MAX_RETRIES && c.ret.pending[q].data == []
              && c.out.state == Disconnecting && !c.out.writing && c.out.pending == [] && w.WriteFailed?
  {
    var q := c.ret.batch[timer];
    if q in c.ret.pending && c.out.state != Disconnected {
      SendCloses(c.out, c.ret.pending[q].data, w);
    }
    hide SendInLoop;
  }

  /** On the loop thread alone, a connection that is shutting down has bytes that it cannot write. */
  ghost predicate ShutWhileClosing(s: Out) {
    s.state == Disconnecting ==> s.shut && s.writing
  }

  lemma ClosingSend(s: Out, data: Bytes, w: WriteResult)
    requires ShutWhileClosing(s) && Fits(w, |data|) && Obeys(s, w)
    ensures ShutWhileClosing(SendInLoop(s, data, w))
  {
    if s.state != Disconnected { PlaceWrites(s, data, Taken(s, w)); }
    hide Place;
  }

  lemma PlaceWrites(s: Out, data: Bytes, n: nat)
    requires n <= |data|
    ensures var t := Place(s, data, n); t.state == s.state && t.shut == s.shut && (s.writing ==> t.writing)
  {
  }

  lemma ClosingWrite(s: Out, w: WriteResult, f: SendfileResult)
    requires ShutWhileClosing(s) && Fits(w, |s.pending|) && Obeys(s, w) && FileObeys(s, f)
    requires s.sendingFile && s.fileOpen ==> s.offset <= |s.file| && FileFits(f, |s.file| - s.offset)
    ensures ShutWhileClosing(HandleWrite(s, w, f))
  {
  }

  lemma ClosingStep(c: Conn, l: Label)
    requires ShutWhileClosing(c.out) && Enabled(c, l) && Safe(c, l)
    ensures ShutWhileClosing(Next(c, l).out)
  {
    hide SendInLoop, HandleWrite, Held;
    match l
    case Send(data, w) => ClosingSend(c.out, data, w);
    case Writable(w, f) => ClosingWrite(c.out, w, f);
    case Reliable(_, data, w) => ClosingSend(c.out, data, w);
    case Fire(timer, w) =>
      var q := c.ret.batch[timer];
      if q in c.ret.pending { ClosingSend(c.out, c.ret.pending[q].data, w); }
    case _ =>
  }

  lemma {:induction false} ClosingRuns(c: Conn, ls: seq<Label>, d: Conn)
    requires ShutWhileClosing(c.out) && Reaches(c, ls, d)
    ensures ShutWhileClosing(d.out)
    decreases |ls|
  {
    if ls != [] {
      ClosingStep(c, ls[0]);
      ClosingRuns(Next(c, ls[0]), ls[1..], d);
    }
  }

  /** In every run of the loop thread alone, no step uses an entry that is gone. */
  lemma LoopThreadRunsAreSafe(ls: seq<Label>, d: Conn)
    requires Reaches(INITIAL, ls, d)
    ensures forall l :: Enabled(d, l) ==> Safe(d, l)
  {
    ClosingRuns(INITIAL, ls, d);
    forall l | Enabled(d, l) ensures Safe(d, l) {
      if l.Fire? { FireIsSafeExactly(d, l.timer, l.w); }
    }
  }

  lemma ReachesCons(c: Conn, l: Label, ls: seq<Label>, d: Conn)
    requires Enabled(c, l) && Safe(c, l) && Reaches(Next(c, l), ls, d)
    ensures Reaches(c, [l] + ls, d)
  {
    assert ([l] + ls)[1..] == ls;
  }

  // ---------------------------------------------------------------- fresh numbers

  /** The map after the send, before resetRetransmitTimer. */
  function Entered(c: Conn, q: nat, data: Bytes): Retrans {
    c.ret.(sent := if c.out.state == Connected then c.ret.sent + [q] else c.ret.sent,
           pending := c.ret.pending[q := Entry(data, 0, None)],
           used := c.ret.used + {q})
  }

  lemma ReliableEnters(c: Conn, q: nat, data: Bytes, w: WriteResult)
    requires Fits(w, |data|)
    ensures SendReliably(c, q, data, w).ret == ResetTimer(Entered(c, q, data), q)
  {
    if c.out.state == Connected { SendCloses(c.out, data, w); }
    hide SendInLoop, Held;
  }

  /**
   One timer per message survives a reliable send exactly if the number is not pending, and no
   timer of the current batch still belongs to it.
   */
  lemma FreshnessIsExact(before: seq<Label>, c: Conn, q: nat, data: Bytes, w: WriteResult)
    requires Reaches(INITIAL, before, c) && Fits(w, |data|)
    ensures Timers(SendReliably(c, q, data, w).ret)
            <==> q !in c.ret.pending && forall t :: t in c.ret.batch ==> c.ret.batch[t] != q
  {
    RetransmissionIsBounded(before, c);
    ReliableEnters(c, q, data, w);
    hide SendReliably, Reaches, Bounded, Held;
    var d := SendReliably(c, q, data, w);
    var r1 := Entered(c, q, data);
    assert r1.armed - HeldBy(r1, q) == c.ret.armed;
    if q in c.ret.pending {
      var t := c.ret.pending[q].timer.value;
      assert !Linked(d.ret.pending, t, q);
    } else if t :| t in c.ret.batch && c.ret.batch[t] == q {
      assert !Linked(d.ret.pending, t, q);
    } else {
      assert r1.pending - {q} == c.ret.pending;
      ResetTimerKeeps(r1, q);
    }
  }

  /** A number used again while it is pending leaves its first timer without an entry. */
  lemma PendingNumberReused(q: nat, data: Bytes, w: WriteResult, again: Bytes, v: WriteResult)
    requires Fits(w, |data|) && Fits(v, |again|)
    ensures var c := Next(INITIAL, Reliable(q, data, w));
            Reaches(INITIAL, [Reliable(q, data, w)], c) && !Timers(SendReliably(c, q, again, v).ret)
  {
    var c := Next(INITIAL, Reliable(q, data, w));
    ReliableEnters(INITIAL, q, data, w);
    hide SendReliably, SendMessage, Timers;
    assert Reaches(c, [], c);
    ReachesCons(INITIAL, Reliable(q, data, w), [], c);
    FreshnessIsExact([Reliable(q, data, w)], c, q, again, v);
  }

  /** So does one whose acknowledgement came while its timer was in the batch. */
  lemma AckedNumberReused(q: nat, data: Bytes, w: WriteResult, again: Bytes, v: WriteResult)
    requires Fits(w, |data|) && Fits(v, |again|)
    ensures exists ls, c ::
              Reaches(INITIAL, ls, c) && q !in c.ret.pending && !Timers(SendReliably(c, q, again, v).ret)
  {
    AckedInBatch(q, data, w);
    var (l1, l2, l3) := (Reliable(q, data, w), Expire({0}), Ack(q));
    hide *;
    ThreeSteps(INITIAL, l1, l2, l3);
    FreshnessIsExact([l1] + ([l2] + ([l3] + [])), Next(Next(Next(INITIAL, l1), l2), l3), q, again, v);
  }

  lemma AckedInBatch(q: nat, data: Bytes, w: WriteResult)
    requires Fits(w, |data|)
    ensures Enabled(INITIAL, Reliable(q, data, w)) && Safe(INITIAL, Reliable(q, data, w))
    ensures var c1 := Next(INITIAL, Reliable(q, data, w)); Enabled(c1, Expire({0})) && Safe(c1, Expire({0}))
    ensures var c2 := Next(Next(INITIAL, Reliable(q, data, w)), Expire({0})); Enabled(c2, Ack(q)) && Safe(c2, Ack(q))
    ensures var c3 := Next(Next(Next(INITIAL, Reliable(q, data, w)), Expire({0})), Ack(q));
            q !in c3.ret.pending && 0 in c3.ret.batch && c3.ret.batch[0] == q
  {
    ReliableEnters(INITIAL, q, data, w);
    hide SendReliably, SendMessage;
    var c1 := Next(INITIAL, Reliable(q, data, w));
    assert c1.ret.armed == map[0 := q];
  }

  lemma ThreeSteps(c: Conn, l1: Label, l2: Label, l3: Label)
    requires Enabled(c, l1) && Safe(c, l1)
    requires var c1 := Next(c, l1); Enabled(c1, l2) && Safe(c1, l2)
    requires var c2 := Next(Next(c, l1), l2); Enabled(c2, l3) && Safe(c2, l3)
    ensures Reaches(c, [l1] + ([l2] + ([l3] + [])), Next(Next(Next(c, l1), l2), l3))
  {
    hide Next, Enabled, Safe;
    var d := Next(Next(Next(c, l1), l2), l3);
    assert Reaches(d, [], d);
    ReachesCons(Next(Next(c, l1), l2), l3, [], d);
    ReachesCons(Next(c, l1), l2, [l3] + [], d);
    ReachesCons(c, l1, [l2] + ([l3] + []), d);
  }
}
