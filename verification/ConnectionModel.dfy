/**
 Reliable sends of net/TcpConnection.cc: messages kept until acknowledged, sent again when
 their timer fires, at most five times. The connection runs on the timer service of
 TimerModel, of which only this is needed: a cancelled timer does not fire any more, unless
 it already is in the batch of timers being fired; then it may still fire once.
 */
module ConnectionModel {
  import opened Octets
  import opened Buffers
  import opened OutputModel

  const MAX_RETRIES: nat := 5

  datatype Entry = Entry(data: Bytes, retries: nat, timer: Option<nat>)

  datatype Retrans = Retrans(
    pending: map<nat, Entry>,   // pendingRetrans_, by message number
    armed: map<nat, nat>,       // timers waiting in the timer queue, with their message
    batch: map<nat, nat>,       // timers in the batch that is being fired
    nextTimer: nat,
    sent: seq<nat>,             // messages handed to sendInLoop, in order
    used: set<nat>)             // message numbers ever used

  const NO_MESSAGES := Retrans(map[], map[], map[], 0, [], {})

  datatype Conn = Conn(out: Out, ret: Retrans)

  // ---------------------------------------------------------------- timers

  function Cancel(r: Retrans, timer: Option<nat>): Retrans {
    if timer.Some? then r.(armed := r.armed - {timer.value}) else r
  }

  /** resetRetransmitTimer */
  function ResetTimer(r: Retrans, q: nat): Retrans
    requires q in r.pending
  {
    var r1 := Cancel(r, r.pending[q].timer);
    r1.(armed := r1.armed[r.nextTimer := q], nextTimer := r.nextTimer + 1,
        pending := r.pending[q := r.pending[q].(timer := Some(r.nextTimer))])
  }

  /** The timers that the entries hold. */
  function Held(pending: map<nat, Entry>): set<nat> {
    set q | q in pending && pending[q].timer.Some? :: pending[q].timer.value
  }

  /** The last part of handleClose: every entry's timer is cancelled, and the map cleared. */
  function Clear(r: Retrans): Retrans {
    r.(armed := r.armed - Held(r.pending), pending := map[])
  }

  /** The output path has moved on to `out`; if it closed the connection, the entries go too. */
  function Sync(c: Conn, out: Out): Conn {
    Conn(out, if c.out.state != Disconnected && out.state == Disconnected then Clear(c.ret) else c.ret)
  }

  // ---------------------------------------------------------------- operations

  /** sendInLoop for the data of message q. */
  function SendMessage(c: Conn, q: nat, data: Bytes, w: WriteResult): Conn
    requires Fits(w, |data|)
  {
    var c1 := if c.out.state == Disconnected then c else c.(ret := c.ret.(sent := c.ret.sent + [q]));
    Sync(c1, SendInLoop(c.out, data, w))
  }

  /** sendWithRetransmit on the loop thread: send() only sends while connected. */
  function SendReliably(c: Conn, q: nat, data: Bytes, w: WriteResult): Conn
    requires Fits(w, |data|)
  {
    var c1 := if c.out.state == Connected then SendMessage(c, q, data, w) else c;
    var ret := c1.ret.(pending := c1.ret.pending[q := Entry(data, 0, None)], used := c1.ret.used + {q});
    Conn(c1.out, ResetTimer(ret, q))
  }

  function AckReceived(c: Conn, q: nat): Conn {
    if q in c.ret.pending then
      var r := Cancel(c.ret, c.ret.pending[q].timer);
      c.(ret := r.(pending := r.pending - {q}))
    else c
  }

  /**
   onRetransmitTimeout keeps a reference to the entry while it sends, and uses it afterwards. So
   the send must not have cleared the map.
   */
  predicate EntrySurvives(c: Conn, q: nat, w: WriteResult)
    requires q in c.ret.pending ==> Fits(w, |c.ret.pending[q].data|)
  {
    q in c.ret.pending && c.ret.pending[q].retries < MAX_RETRIES ==>
      q in SendMessage(c, q, c.ret.pending[q].data, w).ret.pending
  }

  /** onRetransmitTimeout */
  function Timeout(c: Conn, q: nat, w: WriteResult): Conn
    requires q in c.ret.pending ==> Fits(w, |c.ret.pending[q].data|)
    requires EntrySurvives(c, q, w)
  {
    if q !in c.ret.pending then c
    else
      var e := c.ret.pending[q];
      if e.retries >= MAX_RETRIES then
        Sync(c.(ret := c.ret.(pending := c.ret.pending - {q})), HandleClose(c.out))
      else
        var c1 := SendMessage(c, q, e.data, w);
        var r := c1.ret.(pending := c1.ret.pending[q := c1.ret.pending[q].(retries := e.retries + 1)]);
        Conn(c1.out, ResetTimer(r, q))
  }

  // ---------------------------------------------------------------- steps

  datatype Label =
    | Send(data: Bytes, w: WriteResult)                    // sendInLoop
    | SendFile(open: OpenResult)                           // sendFileInLoop
    | Writable(w: WriteResult, f: SendfileResult)          // handleWrite
    | Shutdown                                             // shutdown
    | Close                                                // handleClose, for whatever reason
    | Reliable(message: nat, data: Bytes, w: WriteResult)  // sendWithRetransmit
    | Ack(message: nat)                                    // ackReceived
    | Expire(due: set<nat>)                                // the timer queue detaches a batch
    | Fire(timer: nat, w: WriteResult)                     // and calls one of its callbacks

  predicate Enabled(c: Conn, l: Label) {
    match l
    case Send(data, w) => Fits(w, |data|) && Obeys(c.out, w)
    case SendFile(_) => true
    case Writable(w, f) =>
      Fits(w, |c.out.pending|) && Obeys(c.out, w) && FileObeys(c.out, f) &&
      (c.out.sendingFile && c.out.fileOpen ==>
         c.out.offset <= |c.out.file| && FileFits(f, |c.out.file| - c.out.offset))
    case Shutdown => true
    case Close => true
    case Reliable(q, data, w) => Fits(w, |data|) && Obeys(c.out, w) && q !in c.ret.used
    case Ack(_) => true
    case Expire(due) => due <= c.ret.armed.Keys
    case Fire(timer, w) =>
      timer in c.ret.batch &&
      var q := c.ret.batch[timer];
      Obeys(c.out, w) && (q in c.ret.pending ==> Fits(w, |c.ret.pending[q].data|))
  }

  function TakeTimer(c: Conn, timer: nat): Conn {
    c.(ret := c.ret.(batch := c.ret.batch - {timer}))
  }

  /** No step uses an entry that is gone. */
  predicate Safe(c: Conn, l: Label)
    requires Enabled(c, l)
  {
    l.Fire? ==> EntrySurvives(TakeTimer(c, l.timer), c.ret.batch[l.timer], l.w)
  }

  function Next(c: Conn, l: Label): Conn
    requires Enabled(c, l) && Safe(c, l)
  {
    match l
    case Send(data, w) => Sync(c, SendInLoop(c.out, data, w))
    case SendFile(open) => Sync(c, SendFileInLoop(c.out, open))
    case Writable(w, f) => Sync(c, HandleWrite(c.out, w, f))
    case Shutdown =>
      if c.out.state == Connected then Sync(c, ShutdownInLoop(c.out.(state := Disconnecting))) else c
    case Close => Sync(c, HandleClose(c.out))
    case Reliable(q, data, w) => SendReliably(c, q, data, w)
    case Ack(q) => AckReceived(c, q)
    case Expire(due) =>
      c.(ret := c.ret.(armed := c.ret.armed - due,
                       batch := c.ret.batch + map t | t in due && t in c.ret.armed :: c.ret.armed[t]))
    case Fire(timer, w) =>
      Timeout(TakeTimer(c, timer), c.ret.batch[timer], w)
  }

  ghost predicate Reaches(c: Conn, ls: seq<Label>, d: Conn)
    decreases |ls|
  {
    if ls == [] then c == d else Enabled(c, ls[0]) && Safe(c, ls[0]) && Reaches(Next(c, ls[0]), ls[1..], d)
  }

  const INITIAL := Conn(NEW_CONNECTION, NO_MESSAGES)
}
