/** Conservation of the output stream over whole runs of a connection. */
module OutputStream {
  import opened Octets
  import opened Buffers
  import opened OutputModel
  import opened ConnectionModel

  /** The bytes that the step hands to the output path. */
  function Accepted(c: Conn, l: Label): Bytes {
    match l
    case Send(data, _) => data
    case SendFile(Opened(content)) => content
    case Reliable(_, data, _) => if c.out.state == Connected then data else []
    case Fire(timer, _) => (
      if timer !in c.ret.batch then []
      else
        var q := c.ret.batch[timer];
        if q in c.ret.pending && c.ret.pending[q].retries < MAX_RETRIES then c.ret.pending[q].data else [])
    case _ => []
  }

  /** Nothing is sent while a file is on its way, and the connection stays open. */
  predicate Undisturbed(c: Conn, l: Label)
    requires Enabled(c, l) && Safe(c, l)
  {
    && Next(c, l).out.state != Disconnected
    && (Accepted(c, l) != [] || l.SendFile? ==> Tail(c.out) == [])
  }

  ghost predicate Leads(c: Conn, ls: seq<Label>, d: Conn, accepted: Bytes)
    decreases |ls|
  {
    if ls == [] then c == d && accepted == []
    else
      && Enabled(c, ls[0]) && Safe(c, ls[0]) && Undisturbed(c, ls[0])
      && Accepted(c, ls[0]) <= accepted
      && Leads(Next(c, ls[0]), ls[1..], d, accepted[|Accepted(c, ls[0])|..])
  }

  /** What a step makes of the output path: nothing, or one of the operations of OutputModel. */
  lemma StepOutput(c: Conn, l: Label)
    requires Enabled(c, l) && Safe(c, l) && Undisturbed(c, l) && c.out.state != Disconnected
    ensures var t := Next(c, l).out;
            match l
            case Send(data, w) => t == SendInLoop(c.out, data, w)
            case SendFile(open) => t == SendFileInLoop(c.out, open)
            case Writable(w, f) => t == HandleWrite(c.out, w, f)
            case Reliable(_, data, w) => t == if c.out.state == Connected then SendInLoop(c.out, data, w) else c.out
            case Fire(timer, w) =>
              var q := c.ret.batch[timer];
              if q in c.ret.pending && c.ret.pending[q].retries < MAX_RETRIES
              then t == SendInLoop(c.out, c.ret.pending[q].data, w) else t == c.out
            case Shutdown => t == if c.out.state == Connected then c.out.(state := Disconnecting, shut := true) else c.out
            case _ => t == c.out
  {
    hide SendInLoop, HandleWrite, SendFileInLoop, Held;
  }

  lemma SendStep(s: Out, data: Bytes, w: WriteResult)
    requires Inv(s) && Fits(w, |data|) && s.state != Disconnected && (data != [] ==> Tail(s) == [])
    requires SendInLoop(s, data, w).state != Disconnected
    ensures Inv(SendInLoop(s, data, w)) && Stream(SendInLoop(s, data, w)) == Stream(s) + data
  {
    SendKeeps(s, data, w);
    if Tail(s) == [] {
      SendAppends(s, data, w);
    } else {
      assert data == [] && s.writing && SendInLoop(s, data, w).wire == s.wire;
    }
  }

  lemma StepConserves(c: Conn, l: Label)
    requires Inv(c.out) && Enabled(c, l) && Safe(c, l) && Undisturbed(c, l) && c.out.state != Disconnected
    ensures Inv(Next(c, l).out) && Stream(Next(c, l).out) == Stream(c.out) + Accepted(c, l)
  {
    StepOutput(c, l);
    hide SendInLoop, HandleWrite, SendFileInLoop, Next;
    match l
    case Send(data, w) => SendStep(c.out, data, w);
    case SendFile(open) =>
      SendFileKeeps(c.out, open);
      match open {
        case Opened(content) => SendFileOrderIsExact(c.out, content);
        case CannotOpen => CannotOpenCloses(c.out);
      }
    case Writable(w, f) =>
      WriteKeeps(c.out, w, f);
      WriteMoves(c.out, w, f);
    case Reliable(_, data, w) => if c.out.state == Connected { SendStep(c.out, data, w); }
    case Fire(timer, w) =>
      var q := c.ret.batch[timer];
      if q in c.ret.pending && c.ret.pending[q].retries < MAX_RETRIES { SendStep(c.out, c.ret.pending[q].data, w); }
    case _ =>
  }

  lemma CannotOpenCloses(s: Out)
    ensures SendFileInLoop(s, CannotOpen).state == Disconnected
  {
  }

  /**
   As long as the connection is open and nothing is sent while a file is on its way, what the
   socket has accepted, the write buffer and the rest of the file are together exactly what was
   given to the connection, in order; and EPOLLOUT is asked for while anything is left.
   */
  lemma {:induction false} StreamIsConserved(c: Conn, ls: seq<Label>, d: Conn, accepted: Bytes)
    requires Inv(c.out) && c.out.state != Disconnected && Leads(c, ls, d, accepted)
    ensures Stream(d.out) == Stream(c.out) + accepted
    ensures Inv(d.out) && (Left(d.out) > 0 ==> d.out.writing)
    decreases |ls|
  {
    if ls == [] {
      assert Stream(c.out) + [] == Stream(c.out);
      assert d.out.state != Disconnected;
    } else {
      var a := Accepted(c, ls[0]);
      StepConserves(c, ls[0]);
      StreamIsConserved(Next(c, ls[0]), ls[1..], d, accepted[|a|..]);
      assert Stream(c.out) + a + accepted[|a|..] == Stream(c.out) + accepted;
    }
  }

  // ---------------------------------------------------------------- sends during a file

  /** Data sent while a file is on its way overtakes it. */
  lemma SendOvertakesFile(content: Bytes, data: Bytes, w: WriteResult)
    requires content != [] && Fits(w, |data|)
    ensures var c := Next(INITIAL, SendFile(Opened(content)));
            && Reaches(INITIAL, [SendFile(Opened(content))], c)
            && Stream(c.out) == content
            && Enabled(c, Send(data, w)) && Stream(Next(c, Send(data, w)).out) == data + content
  {
    FileIsStarted(content);
    var c := Next(INITIAL, SendFile(Opened(content)));
    hide SendInLoop, SendFileInLoop, Stream, Inv, Tail;
    SendGoesFirst(c.out, data, w);
  }

  lemma SendGoesFirst(s: Out, data: Bytes, w: WriteResult)
    requires Inv(s) && Fits(w, |data|) && s.state == Connected && s.writing && s.wire == [] && s.pending == []
    ensures Stream(SendInLoop(s, data, w)) == data + Tail(s)
  {
    SendCloses(s, data, w);
    SendSplits(s, data, w);
    assert Taken(s, w) == 0;
    hide SendInLoop, Tail, Inv, Taken;
    assert data[..0] == [] && data[0..] == data;
    assert [] + [] + ([] + data) == data;
  }

  lemma FileIsStarted(content: Bytes)
    ensures var c := Next(INITIAL, SendFile(Opened(content)));
            && Reaches(INITIAL, [SendFile(Opened(content))], c)
            && Inv(c.out) && c.out.writing && c.out.state == Connected
            && c.out.wire == [] && c.out.pending == [] && Tail(c.out) == content && Stream(c.out) == content
  {
    var c := Next(INITIAL, SendFile(Opened(content)));
    assert Reaches(c, [], c);
    assert content[0..] == content;
  }

  /** A second file takes the place of the first one, none of which has been sent. */
  lemma SecondFileReplacesFirst(content: Bytes, other: Bytes)
    ensures var c := Next(INITIAL, SendFile(Opened(content)));
            && Reaches(INITIAL, [SendFile(Opened(content))], c)
            && Stream(c.out) == content
            && Stream(Next(c, SendFile(Opened(other))).out) == other
  {
    FileIsStarted(content);
    assert other[0..] == other;
  }

  // ---------------------------------------------------------------- shutdown

  lemma PlaceNothing(s: Out, data: Bytes)
    ensures Place(s, data, 0).wire == s.wire && Place(s, data, 0).shut == s.shut
  {
    assert data[..0] == [] && s.wire + [] == s.wire;
  }

  lemma ShutSend(s: Out, data: Bytes, w: WriteResult)
    requires s.shut && Fits(w, |data|) && Obeys(s, w)
    ensures SendInLoop(s, data, w).shut && SendInLoop(s, data, w).wire == s.wire
  {
    PlaceNothing(s, data);
    hide Place;
  }

  lemma ShutDrain(s: Out, w: WriteResult)
    requires s.shut && Fits(w, |s.pending|) && Obeys(s, w)
    ensures var t := DrainBuffer(s, w);
            && t.shut && t.wire == s.wire && t.pending == s.pending
            && (t.sendingFile && t.fileOpen ==>
                  s.sendingFile && s.fileOpen && t.file == s.file && t.offset == s.offset)
  {
  }

  lemma ShutChunk(s: Out, f: SendfileResult)
    requires s.shut && FileObeys(s, f)
    requires s.sendingFile && s.fileOpen ==> s.offset <= |s.file| && FileFits(f, |s.file| - s.offset)
    ensures SendChunk(s, f).shut && SendChunk(s, f).wire == s.wire
  {
    if s.sendingFile && s.fileOpen {
      assert s.file[s.offset..s.offset] == [] && s.wire + [] == s.wire;
    }
  }

  lemma ShutWrite(s: Out, w: WriteResult, f: SendfileResult)
    requires s.shut && Fits(w, |s.pending|) && Obeys(s, w) && FileObeys(s, f)
    requires s.sendingFile && s.fileOpen ==> s.offset <= |s.file| && FileFits(f, |s.file| - s.offset)
    ensures HandleWrite(s, w, f).shut && HandleWrite(s, w, f).wire == s.wire
  {
    ShutDrain(s, w);
    hide DrainBuffer, SendChunk;
    ShutChunk(DrainBuffer(s, w), f);
  }

  lemma ShutStep(c: Conn, l: Label)
    requires c.out.shut && Enabled(c, l) && Safe(c, l)
    ensures Next(c, l).out.shut && Next(c, l).out.wire == c.out.wire
  {
    hide SendInLoop, HandleWrite, Held;
    match l
    case Send(data, w) => ShutSend(c.out, data, w);
    case Writable(w, f) => ShutWrite(c.out, w, f);
    case Reliable(_, data, w) => ShutSend(c.out, data, w);
    case Fire(timer, w) =>
      var q := c.ret.batch[timer];
      if q in c.ret.pending { ShutSend(c.out, c.ret.pending[q].data, w); }
    case _ =>
  }

  lemma {:induction false} ShutRuns(c: Conn, ls: seq<Label>, d: Conn)
    requires c.out.shut && Reaches(c, ls, d)
    ensures d.out.shut && d.out.wire == c.out.wire
    decreases |ls|
  {
    if ls != [] {
      ShutStep(c, ls[0]);
      ShutRuns(Next(c, ls[0]), ls[1..], d);
    }
  }

  lemma NothingLeft(s: Out)
    ensures s.wire == Stream(s) <==> Left(s) == 0
  {
    if Left(s) == 0 { assert s.wire + [] + [] == s.wire; }
  }

  /**
   shutdown() shuts the write side at once. So what was given to the connection before it arrives
   in full, sooner or later, exactly if nothing was left to write when it was called.
   */
  lemma ShutdownDeliversExactly(before: seq<Label>, c: Conn, accepted: Bytes, ls: seq<Label>, d: Conn)
    requires Leads(INITIAL, before, c, accepted) && c.out.state == Connected
    requires Reaches(Next(c, Shutdown), ls, d)
    ensures d.out.wire == accepted <==> Left(c.out) == 0
  {
    StreamIsConserved(INITIAL, before, c, accepted);
    assert Stream(INITIAL.out) + accepted == accepted;
    ShutRuns(Next(c, Shutdown), ls, d);
    NothingLeft(c.out);
  }

  /** The input for which it fails: one byte that the socket has not taken yet. */
  lemma ShutdownLosesPending(ls: seq<Label>, d: Conn)
    requires Reaches(Next(Next(INITIAL, Send(['a'], Wrote(0))), Shutdown), ls, d)
    ensures Leads(INITIAL, [Send(['a'], Wrote(0))], Next(INITIAL, Send(['a'], Wrote(0))), ['a'])
    ensures d.out.wire == []
  {
    var c := Next(INITIAL, Send(['a'], Wrote(0)));
    assert ['a'][0..] == ['a'] && ['a'][1..] == [];
    assert Leads(c, [], c, []);
    ShutRuns(Next(c, Shutdown), ls, d);
  }

  // ---------------------------------------------------------------- the empty file

  /** A new connection that is given an empty file never finishes it. */
  lemma EmptyFileOnNewConnection(events: seq<Event>)
    requires var s := Next(INITIAL, SendFile(Opened([]))).out; Inv(s) && Possible(s, events)
    ensures var c := Next(INITIAL, SendFile(Opened([])));
            && Reaches(INITIAL, [SendFile(Opened([]))], c)
            && After(c.out, events).sendingFile && After(c.out, events).writing
  {
    var c := Next(INITIAL, SendFile(Opened([])));
    assert Reaches(c, [], c);
    EmptyFileIsNeverFinished(c.out, events);
  }

  // ---------------------------------------------------------------- after a close

  /** What hands data to the connection, as opposed to a write event that was still to be handled. */
  predicate Offers(l: Label) {
    !l.Writable?
  }

  lemma ClosedStep(c: Conn, l: Label)
    requires c.out.state == Disconnected && Enabled(c, l) && Safe(c, l) && Offers(l)
    ensures Next(c, l).out == c.out
  {
    hide Held, Clear, ResetTimer;
  }

  /** Nothing that is sent after a close reaches the wire, however it is sent. */
  lemma {:induction false} ClosedTakesNothing(c: Conn, ls: seq<Label>, d: Conn)
    requires c.out.state == Disconnected && Reaches(c, ls, d) && forall l :: l in ls ==> Offers(l)
    ensures d.out == c.out
    decreases |ls|
  {
    if ls != [] {
      ClosedStep(c, ls[0]);
      ClosedTakesNothing(Next(c, ls[0]), ls[1..], d);
    }
  }

  /** A connection that is no longer connected does not become so again; its send() is refused. */
  lemma {:induction false} NeverConnectedAgain(c: Conn, ls: seq<Label>, d: Conn)
    requires c.out.state != Connected && Reaches(c, ls, d)
    ensures d.out.state != Connected
    decreases |ls|
  {
    if ls != [] {
      StateStep(c, ls[0]);
      NeverConnectedAgain(Next(c, ls[0]), ls[1..], d);
    }
  }

  lemma StateStep(c: Conn, l: Label)
    requires c.out.state != Connected && Enabled(c, l) && Safe(c, l)
    ensures Next(c, l).out.state != Connected
  {
    hide Held, Clear, ResetTimer, Place;
    match l
    case Send(data, w) => PlaceState(c.out, data, Taken(c.out, w));
    case Fire(timer, w) =>
      var q := c.ret.batch[timer];
      if q in c.ret.pending { PlaceState(c.out, c.ret.pending[q].data, Taken(c.out, w)); }
    case _ =>
  }

  lemma PlaceState(s: Out, data: Bytes, n: nat)
    requires n <= |data|
    ensures Place(s, data, n).state == s.state
  {
  }

  /** shutdown() ends sending at once, and closes the connection exactly if no write is pending. */
  lemma ShutdownEndsSending(c: Conn)
    requires c.out.state == Connected
    ensures var d := Next(c, Shutdown);
            && d.out.shut && d.out.wire == c.out.wire && d.out.pending == c.out.pending
            && d.out.state == if c.out.writing then Disconnecting else Disconnected
  {
  }
}
