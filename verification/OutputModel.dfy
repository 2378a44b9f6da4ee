/**
 The output path of net/TcpConnection.cc on values: direct writes, the write buffer, and a
 file sent in chunks, all onto one stream.
 */
module OutputModel {
  import opened Octets
  import opened Buffers

  const EAGAIN := 11
  const CHUNK: nat := 65536

  /** A connection is modelled from connectEstablelished on. */
  datatype Status = Connected | Disconnecting | Disconnected

  /** The file being sent; its content does not change meanwhile. */
  datatype Out = Out(
    state: Status,
    writing: bool,       // the channel asks for EPOLLOUT
    pending: Bytes,      // writeBuffer_
    file: Bytes,         // content behind fileFd_
    fileOpen: bool,      // fileFd_ >= 0
    offset: nat,         // fileSentOffset_
    total: nat,          // fileTotalSize_
    sendingFile: bool,
    wire: Bytes,         // bytes the socket has accepted
    shut: bool)          // the write side was shut down

  const NEW_CONNECTION := Out(Connected, false, [], [], false, 0, 0, false, [], false)

  // ---------------------------------------------------------------- results of system calls

  predicate Fits(w: WriteResult, len: nat) {
    w.Wrote? ==> w.n <= len
  }

  datatype OpenResult = Opened(content: Bytes) | CannotOpen

  datatype SendfileResult = Sent(n: nat) | SendfileFailed(errno: int)

  predicate FileFits(f: SendfileResult, left: nat) {
    f.Sent? ==> f.n <= left && f.n <= CHUNK
  }

  /** After shutdown(SHUT_WR) the socket takes no more bytes. */
  predicate Obeys(s: Out, w: WriteResult) {
    s.shut && w.Wrote? ==> w.n == 0
  }

  predicate FileObeys(s: Out, f: SendfileResult) {
    s.shut && f.Sent? ==> f.n == 0
  }

  // ---------------------------------------------------------------- operations

  function HandleClose(s: Out): Out {
    if s.state == Disconnected then s
    else s.(state := Disconnected, fileOpen := false, offset := 0, total := 0, sendingFile := false)
  }

  function ShutdownInLoop(s: Out): Out {
    if s.writing then s.(shut := true) else HandleClose(s.(shut := true))
  }

  /** Whether sendInLoop writes to the socket itself. */
  predicate Direct(s: Out) {
    !s.writing && s.pending == []
  }

  /** How much of the data sendInLoop puts on the wire itself. */
  function Taken(s: Out, w: WriteResult): nat {
    if Direct(s) && w.Wrote? then w.n else 0
  }

  /** The first n bytes are on the wire, the others go to the write buffer. */
  function Place(s: Out, data: Bytes, n: nat): Out
    requires n <= |data|
  {
    var s1 := s.(wire := s.wire + data[..n]);
    if n < |data| then s1.(pending := s.pending + data[n..], writing := true) else s1
  }

  function SendInLoop(s: Out, data: Bytes, w: WriteResult): Out
    requires Fits(w, |data|)
  {
    if s.state == Disconnected then s
    else
      var n := Taken(s, w);
      var s1 := Place(s, data, n);
      if Direct(s) && w.Wrote? && n == |data| then s1
      else if s.state == Disconnecting && s1.pending == [] then ShutdownInLoop(s1)
      else s1
  }

  function SendFileInLoop(s: Out, open: OpenResult): Out {
    if s.state == Disconnected then s
    else
      match open
      case CannotOpen => HandleClose(s)
      case Opened(content) =>
        s.(file := content, fileOpen := true, offset := 0, total := |content|, sendingFile := true, writing := true)
  }

  /** First part of handleWrite: the write buffer. */
  function DrainBuffer(s: Out, w: WriteResult): Out
    requires Fits(w, |s.pending|)
  {
    if s.pending == [] then s
    else if w.Wrote? && w.n > 0 then
      var s1 := s.(wire := s.wire + s.pending[..w.n], pending := s.pending[w.n..]);
      if s1.pending == [] && !s.sendingFile then s1.(writing := false) else s1
    else if w.WriteFailed? && w.errno == EAGAIN then s
    else HandleClose(s)
  }

  /** Second part of handleWrite: one chunk of the file. */
  function SendChunk(s: Out, f: SendfileResult): Out
    requires s.sendingFile && s.fileOpen ==> s.offset <= |s.file| && FileFits(f, |s.file| - s.offset)
  {
    if !s.sendingFile || !s.fileOpen then s
    else
      match f
      case Sent(n) =>
        var s1 := s.(wire := s.wire + s.file[s.offset..s.offset + n], offset := s.offset + n);
        if n > 0 && s1.total <= s1.offset then s1.(fileOpen := false, sendingFile := false, writing := false) else s1
      case SendfileFailed(errno) =>
        if errno == EAGAIN then s
        else HandleClose(s.(fileOpen := false, sendingFile := false, writing := false))
  }

  function HandleWrite(s: Out, w: WriteResult, f: SendfileResult): Out
    requires Fits(w, |s.pending|)
    requires s.sendingFile && s.fileOpen ==> s.offset <= |s.file| && FileFits(f, |s.file| - s.offset)
  {
    if !s.writing then s
    else
      var s1 := DrainBuffer(s, w);
      if s1.pending != [] then s1 else SendChunk(s1, f)
  }

  // ---------------------------------------------------------------- the stream

  function Tail(s: Out): Bytes {
    if s.sendingFile && s.offset <= |s.file| then s.file[s.offset..] else []
  }

  /** What the socket has accepted, followed by what is still to go, in the order of sending. */
  function Stream(s: Out): Bytes {
    s.wire + s.pending + Tail(s)
  }

  function Left(s: Out): nat {
    |s.pending| + |Tail(s)|
  }

  /** EPOLLOUT is asked for exactly while something is to go out. */
  ghost predicate Inv(s: Out) {
    && (s.sendingFile <==> s.fileOpen)
    && (s.sendingFile ==> s.total == |s.file| && s.offset <= s.total && (s.total == 0 || s.offset < s.total))
    && (s.state != Disconnected ==> (s.writing <==> s.pending != [] || s.sendingFile))
    && (s.state == Disconnected ==> !s.sendingFile)
  }

  lemma PlaceKeeps(s: Out, data: Bytes, n: nat)
    requires Inv(s) && n <= |data|
    ensures var t := Place(s, data, n);
            && Inv(t) && t.state == s.state && Tail(t) == Tail(s)
            && t.wire == s.wire + data[..n] && t.pending == s.pending + data[n..]
            && (n < |data| ==> t.pending != [])
  {
    if n == |data| { assert s.pending + data[n..] == s.pending; }
  }

  lemma SendKeeps(s: Out, data: Bytes, w: WriteResult)
    requires Inv(s) && Fits(w, |data|)
    ensures Inv(SendInLoop(s, data, w))
  {
    if s.state != Disconnected { PlaceKeeps(s, data, Taken(s, w)); }
    hide Place;
  }

  lemma SendFileKeeps(s: Out, open: OpenResult)
    requires Inv(s)
    ensures Inv(SendFileInLoop(s, open))
  {
  }

  lemma WriteKeeps(s: Out, w: WriteResult, f: SendfileResult)
    requires Inv(s) && Fits(w, |s.pending|) && (s.sendingFile ==> FileFits(f, |s.file| - s.offset))
    ensures Inv(HandleWrite(s, w, f))
  {
  }

  // ---------------------------------------------------------------- conservation

  ghost predicate Moved(s: Out, t: Out) {
    && Stream(t) == Stream(s)
    && s.wire <= t.wire
    && Left(t) == Left(s) - (|t.wire| - |s.wire|)
  }

  lemma DrainMoves(s: Out, w: WriteResult)
    requires Fits(w, |s.pending|) && DrainBuffer(s, w).state == s.state
    ensures Moved(s, DrainBuffer(s, w))
  {
    if s.pending != [] && w.Wrote? && w.n > 0 {
      DrainSplits(s, w.n);
      hide DrainBuffer, Tail;
      var head, rest := s.pending[..w.n], s.pending[w.n..];
      assert (s.wire + head) + rest == s.wire + (head + rest);
    }
  }

  lemma DrainSplits(s: Out, n: nat)
    requires 0 < n <= |s.pending|
    ensures var t := DrainBuffer(s, Wrote(n));
            var head, rest := s.pending[..n], s.pending[n..];
            t.wire == s.wire + head && t.pending == rest && s.pending == head + rest && Tail(t) == Tail(s)
  {
  }

  lemma ChunkMoves(s: Out, f: SendfileResult)
    requires Inv(s) && s.pending == [] && (s.sendingFile ==> FileFits(f, |s.file| - s.offset))
    requires SendChunk(s, f).state == s.state
    ensures Moved(s, SendChunk(s, f))
  {
    if s.sendingFile && f.Sent? {
      ChunkSplits(s, f.n);
      var head, rest := s.file[s.offset..s.offset + f.n], s.file[s.offset + f.n..];
      hide SendChunk, Tail, Inv;
      MovesHead(s, SendChunk(s, f), head, rest);
    }
  }

  lemma MovesHead(s: Out, t: Out, head: Bytes, rest: Bytes)
    requires s.pending == [] && t.pending == [] && Tail(s) == head + rest && Tail(t) == rest && t.wire == s.wire + head
    ensures Moved(s, t)
  {
    hide Tail;
    assert (s.wire + head) + [] + rest == s.wire + [] + (head + rest);
  }

  lemma ChunkSplits(s: Out, n: nat)
    requires Inv(s) && s.sendingFile && FileFits(Sent(n), |s.file| - s.offset)
    ensures var t := SendChunk(s, Sent(n));
            var head, rest := s.file[s.offset..s.offset + n], s.file[s.offset + n..];
            t.wire == s.wire + head && t.pending == s.pending && Tail(s) == head + rest && Tail(t) == rest
  {
    CutTail(s.file, s.offset, n);
    ChunkFields(s, n);
    var t := SendChunk(s, Sent(n));
    hide SendChunk, Inv;
    if !t.sendingFile { assert s.file[s.offset + n..] == []; }
  }

  lemma CutTail(file: Bytes, i: nat, n: nat)
    requires i + n <= |file|
    ensures file[i..] == file[i..i + n] + file[i + n..]
  {
  }

  lemma ChunkFields(s: Out, n: nat)
    requires Inv(s) && s.sendingFile && FileFits(Sent(n), |s.file| - s.offset)
    ensures s.offset <= |s.file|
    ensures var t := SendChunk(s, Sent(n));
            && t.wire == s.wire + s.file[s.offset..s.offset + n] && t.pending == s.pending
            && t.file == s.file && t.offset == s.offset + n
            && (t.sendingFile || |s.file| <= s.offset + n)
  {
  }

  /** A send closes the connection only as the end of a shutdown, and only without data. */
  lemma SendCloses(s: Out, data: Bytes, w: WriteResult)
    requires Fits(w, |data|) && s.state != Disconnected
    ensures SendInLoop(s, data, w).state == Disconnected <==>
            s.state == Disconnecting && !s.writing && s.pending == [] && data == [] && w.WriteFailed?
  {
  }

  /** A write event moves bytes from what is left to the wire, and keeps their order. */
  lemma WriteMoves(s: Out, w: WriteResult, f: SendfileResult)
    requires Inv(s) && Fits(w, |s.pending|) && (s.sendingFile ==> FileFits(f, |s.file| - s.offset))
    requires HandleWrite(s, w, f).state != Disconnected
    ensures Moved(s, HandleWrite(s, w, f))
  {
    var s1 := DrainBuffer(s, w);
    if s.writing {
      DrainMoves(s, w);
      if s1.pending == [] {
        assert Inv(s1);
        hide Stream, Left, DrainBuffer;
        ChunkMoves(s1, f);
      }
    }
  }

  lemma SendSplits(s: Out, data: Bytes, w: WriteResult)
    requires Inv(s) && Fits(w, |data|) && s.state != Disconnected && SendInLoop(s, data, w).state != Disconnected
    ensures var t, n := SendInLoop(s, data, w), Taken(s, w);
            && t.wire == s.wire + data[..n] && t.pending == s.pending + data[n..] && Tail(t) == Tail(s)
            && (n > 0 ==> s.pending == [])
  {
    hide *;
    TakenFits(s, data, w);
    PlaceKeeps(s, data, Taken(s, w));
    SendPlaces(s, data, w);
    ShutLeavesTail(Place(s, data, Taken(s, w)));
  }

  lemma TakenFits(s: Out, data: Bytes, w: WriteResult)
    requires Fits(w, |data|)
    ensures Taken(s, w) <= |data| && (Taken(s, w) > 0 ==> s.pending == [])
  {
  }

  lemma SendPlaces(s: Out, data: Bytes, w: WriteResult)
    requires Fits(w, |data|) && s.state != Disconnected && SendInLoop(s, data, w).state != Disconnected
    ensures var t, p := SendInLoop(s, data, w), Place(s, data, Taken(s, w)); t == p || t == p.(shut := true)
  {
    hide Place;
  }

  lemma ShutLeavesTail(s: Out)
    ensures Tail(s.(shut := true)) == Tail(s)
  {
  }

  lemma SplitAppend(wire: Bytes, pending: Bytes, data: Bytes, n: nat)
    requires n <= |data| && (n > 0 ==> pending == [])
    ensures (wire + data[..n]) + (pending + data[n..]) == (wire + pending) + data
  {
    assert data == data[..n] + data[n..];
  }

  /** Data sent while no file bytes are outstanding goes to the end of the stream. */
  lemma SendAppends(s: Out, data: Bytes, w: WriteResult)
    requires Inv(s) && Fits(w, |data|) && s.state != Disconnected && Tail(s) == []
    requires SendInLoop(s, data, w).state != Disconnected
    ensures Stream(SendInLoop(s, data, w)) == Stream(s) + data
  {
    SendSplits(s, data, w);
    SplitAppend(s.wire, s.pending, data, Taken(s, w));
    hide SendInLoop, Inv, Tail, Taken;
  }

  lemma SendNothing(s: Out, w: WriteResult)
    requires Inv(s) && Fits(w, 0) && s.state == Connected
    ensures Stream(SendInLoop(s, [], w)) == Stream(s) + []
  {
  }

  /**
   A send keeps the stream in order, whatever its bytes, exactly if no file bytes are still
   unsent or there is nothing to send: otherwise the data overtakes the rest of the file.
   */
  lemma SendOrderIsExact(s: Out, n: nat, w: WriteResult)
    requires Inv(s) && Fits(w, n) && s.state == Connected
    ensures (forall data: Bytes :: |data| == n ==> Stream(SendInLoop(s, data, w)) == Stream(s) + data)
            <==> Tail(s) == [] || n == 0
  {
    hide SendInLoop, Stream;
    if Tail(s) == [] {
      forall data: Bytes | |data| == n ensures Stream(SendInLoop(s, data, w)) == Stream(s) + data {
        SendCloses(s, data, w);
        SendAppends(s, data, w);
      }
    } else if n == 0 {
      forall data: Bytes | |data| == n ensures Stream(SendInLoop(s, data, w)) == Stream(s) + data {
        SendNothing(s, w);
        assert data == [];
      }
    } else {
      var other: octet := if Tail(s)[0] == '0' then '1' else '0';
      var data: Bytes := seq(n, _ => other);
      SendOvertakes(s, data, w);
    }
  }

  lemma SendOvertakes(s: Out, data: Bytes, w: WriteResult)
    requires Inv(s) && Fits(w, |data|) && s.state == Connected && Tail(s) != []
    requires data != [] && data[0] != Tail(s)[0]
    ensures Stream(SendInLoop(s, data, w)) != Stream(s) + data
  {
    assert Taken(s, w) == 0;
    SendSplits(s, data, w);
    hide SendInLoop, Tail, Taken, Inv;
    var t := SendInLoop(s, data, w);
    var k := |s.wire| + |s.pending|;
    assert t.wire == s.wire && t.pending == s.pending + data;
    assert Stream(t)[k] == data[0];
    assert (Stream(s) + data)[k] == Tail(s)[0];
  }

  /** Starting a file keeps the stream in order exactly if no other file is unfinished. */
  lemma SendFileOrderIsExact(s: Out, content: Bytes)
    requires Inv(s) && s.state != Disconnected
    ensures Stream(SendFileInLoop(s, Opened(content))) == Stream(s) + content <==> Tail(s) == []
  {
    var t := SendFileInLoop(s, Opened(content));
    assert |Stream(t)| == |s.wire| + |s.pending| + |content|;
    if Tail(s) == [] { assert Stream(t) == s.wire + s.pending + content; }
  }

  // ---------------------------------------------------------------- completion

  datatype Event = Event(w: WriteResult, f: SendfileResult)

  /** The events are possible one after the other, and none reports an error. */
  ghost predicate Possible(s: Out, events: seq<Event>)
    requires Inv(s)
    decreases |events|
  {
    events == [] ||
    var e := events[0];
    && Fits(e.w, |s.pending|) && (s.sendingFile ==> FileFits(e.f, |s.file| - s.offset))
    && var t := HandleWrite(s, e.w, e.f);
       WriteKeeps(s, e.w, e.f);
       t.state != Disconnected && Possible(t, events[1..])
  }

  ghost function AfterOne(s: Out, events: seq<Event>): (t: Out)
    requires Inv(s) && events != [] && Possible(s, events)
    ensures Inv(t) && t.state != Disconnected && Possible(t, events[1..])
  {
    WriteKeeps(s, events[0].w, events[0].f);
    HandleWrite(s, events[0].w, events[0].f)
  }

  ghost function After(s: Out, events: seq<Event>): Out
    requires Inv(s) && Possible(s, events)
    decreases |events|
  {
    if events == [] then s else After(AfterOne(s, events), events[1..])
  }

  /** While bytes are left, each event moves one. */
  ghost predicate Progressing(s: Out, events: seq<Event>)
    requires Inv(s) && Possible(s, events)
    decreases |events|
  {
    events == [] ||
    var t := AfterOne(s, events);
    (Left(s) > 0 ==> |s.wire| < |t.wire|) && Progressing(t, events[1..])
  }

  /** As many write events as bytes are left deliver everything, and then the interest is dropped. */
  lemma {:induction false} EnoughEventsDeliver(s: Out, events: seq<Event>)
    requires Inv(s) && s.state != Disconnected && Possible(s, events) && Progressing(s, events)
    requires Left(s) <= |events| && (s.sendingFile ==> s.total > 0)
    ensures var t := After(s, events);
            t.wire == Stream(s) && t.pending == [] && !t.sendingFile && !t.writing
    decreases |events|
  {
    if events != [] {
      var t := AfterOne(s, events);
      WriteMoves(s, events[0].w, events[0].f);
      FileStays(s, events[0].w, events[0].f);
      hide AfterOne, HandleWrite;
      EnoughEventsDeliver(t, events[1..]);
    } else {
      assert s.wire + [] + [] == s.wire;
    }
  }

  lemma FileStays(s: Out, w: WriteResult, f: SendfileResult)
    requires Inv(s) && s.state != Disconnected
    requires Fits(w, |s.pending|) && (s.sendingFile ==> FileFits(f, |s.file| - s.offset))
    requires HandleWrite(s, w, f).state != Disconnected
    ensures var t := HandleWrite(s, w, f);
            && (t.sendingFile ==> s.sendingFile && t.total == s.total)
            && (s.sendingFile && s.total == 0 ==> t.sendingFile && t.writing)
  {
  }

  /** An empty file is never finished: sendfile returns 0, and the interest stays for ever. */
  lemma {:induction false} EmptyFileIsNeverFinished(s: Out, events: seq<Event>)
    requires Inv(s) && s.state != Disconnected && s.sendingFile && s.total == 0 && Possible(s, events)
    ensures After(s, events).sendingFile && After(s, events).writing
    decreases |events|
  {
    if events != [] {
      var t := AfterOne(s, events);
      FileStays(s, events[0].w, events[0].f);
      hide AfterOne, HandleWrite;
      EmptyFileIsNeverFinished(t, events[1..]);
    }
  }

  /** Enough events that each move a byte finish the output, exactly if no empty file is being sent. */
  lemma DeliveryIsExact(s: Out, events: seq<Event>)
    requires Inv(s) && s.state != Disconnected && Possible(s, events) && Progressing(s, events)
    requires Left(s) <= |events|
    ensures var t := After(s, events);
            t.wire == Stream(s) && t.pending == [] && !t.sendingFile && !t.writing
            <==> (s.sendingFile ==> s.total > 0)
  {
    hide Progressing;
    if s.sendingFile && s.total == 0 {
      EmptyFileIsNeverFinished(s, events);
    } else {
      EnoughEventsDeliver(s, events);
    }
  }

  // ---------------------------------------------------------------- answers of the socket

  /** Closing affects the state and the file, and nothing that was written or waits. */
  ghost predicate Closed(s: Out, t: Out) {
    && t.state == Disconnected && t.wire == s.wire && t.pending == s.pending && t.shut == s.shut
    && !t.sendingFile && !t.fileOpen && t.offset == 0 && t.total == 0
  }

  /**
   A write event with a buffer to write. EAGAIN (11) leaves all as it is; every other error, and a
   write of no bytes, closes the connection; n bytes move to the wire, and only an empty buffer
   lets the file go on, in the same event.
   */
  lemma WriteAnswers(s: Out, w: WriteResult, f: SendfileResult)
    requires s.writing && s.pending != [] && s.state != Disconnected && Fits(w, |s.pending|)
    requires s.sendingFile && s.fileOpen ==> s.offset <= |s.file| && FileFits(f, |s.file| - s.offset)
    ensures var t := HandleWrite(s, w, f);
            match w
            case WriteFailed(errno) => if errno == 11 then t == s else Closed(s, t) && t.writing
            case Wrote(n) =>
              if n == 0 then Closed(s, t) && t.writing
              else if n < |s.pending| then t == s.(wire := s.wire + s.pending[..n], pending := s.pending[n..])
              else if s.sendingFile && s.fileOpen then t == SendChunk(s.(wire := s.wire + s.pending, pending := []), f)
              else t == s.(wire := s.wire + s.pending, pending := [], writing := s.sendingFile)
  {
    if w.Wrote? && w.n == |s.pending| { assert s.pending[..w.n] == s.pending && s.pending[w.n..] == []; }
    hide SendChunk;
  }

  /**
   A write event for the file. EAGAIN (11) leaves all as it is, every other error closes the
   connection; n bytes move to the wire, and the last one ends the sending.
   */
  lemma SendfileAnswers(s: Out, w: WriteResult, f: SendfileResult)
    requires s.writing && s.pending == [] && s.state != Disconnected && Fits(w, 0)
    requires s.sendingFile && s.fileOpen && s.offset <= |s.file| && FileFits(f, |s.file| - s.offset)
    ensures var t := HandleWrite(s, w, f);
            match f
            case SendfileFailed(errno) => if errno == 11 then t == s else Closed(s, t) && !t.writing
            case Sent(n) =>
              var u := s.(wire := s.wire + s.file[s.offset..s.offset + n], offset := s.offset + n);
              if n > 0 && s.total <= s.offset + n then t == u.(fileOpen := false, sendingFile := false, writing := false)
              else t == u
  {
  }

  /** Without interest in writing, or with nothing to write, an event does nothing. */
  lemma IdleWriteEvent(s: Out, w: WriteResult, f: SendfileResult)
    requires Fits(w, |s.pending|) && !(s.sendingFile && s.fileOpen)
    requires !s.writing || s.pending == []
    ensures HandleWrite(s, w, f) == s
  {
  }

  /**
   What sendInLoop does with the socket's answer. It writes only if nothing waits; what the socket
   has not taken, all of it after an error, goes to the buffer; on a closed connection it does nothing.
   */
  lemma SendAnswers(s: Out, data: Bytes, w: WriteResult)
    requires Fits(w, |data|)
    ensures var t := SendInLoop(s, data, w);
            && (s.state == Disconnected ==> t == s)
            && (s.state == Connected && data == [] ==> t == s)
            && (s.state != Disconnected && data != [] && (s.writing || s.pending != []) ==>
                  t == s.(pending := s.pending + data, writing := true))
            && (s.state != Disconnected && data != [] && !s.writing && s.pending == [] ==>
                  match w
                  case Wrote(n) =>
                    if n == |data| then t == s.(wire := s.wire + data)
                    else t == s.(wire := s.wire + data[..n], pending := data[n..], writing := true)
                  case WriteFailed(_) => t == s.(pending := data, writing := true))
  {
    assert data[..0] == [] && data[0..] == data && data[..|data|] == data;
    assert s.wire + [] == s.wire && [] + data == data;
    if w.Wrote? { assert [] + data[w.n..] == data[w.n..]; }
  }

  /** shutdownInLoop shuts the write side, and closes exactly if no write is pending. */
  lemma ShutdownAnswers(s: Out)
    requires s.state != Disconnected
    ensures var t := ShutdownInLoop(s);
            && t.shut && t.wire == s.wire && t.pending == s.pending
            && (t.state == Disconnected <==> !s.writing)
            && (s.writing ==> t == s.(shut := true))
  {
  }

  /** handleClose closes an open connection, and leaves a closed one as it is. */
  lemma CloseAnswers(s: Out)
    ensures if s.state == Disconnected then HandleClose(s) == s
            else Closed(s, HandleClose(s)) && HandleClose(s).writing == s.writing
  {
  }
}
