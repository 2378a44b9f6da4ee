/**
 The class of net/TcpConnection.cc: its output path, its retransmission map, and closing. Each
 method is proved against OutputModel and ConnectionModel.
 */
module TcpConnections {
  import opened Octets
  import opened Buffers
  import opened OutputModel
  import opened ConnectionModel

  class TcpConnection {
    const writeBuffer: Buffer
    var state: Status
    var writing: bool
    var file: Bytes
    var fileOpen: bool
    var fileSentOffset: nat
    var fileTotalSize: nat
    var sendingFile: bool
    var shut: bool
    var pendingRetrans: map<nat, Entry>
    // the timer service, as far as this connection uses it
    var armed: map<nat, nat>
    var batch: map<nat, nat>
    var nextTimer: nat
    ghost var wire: Bytes
    ghost var sent: seq<nat>
    ghost var used: set<nat>

    ghost predicate Valid()
      reads this, writeBuffer
    {
      writeBuffer.Valid()
    }

    ghost function Output(): Out
      requires Valid()
      reads this, writeBuffer, writeBuffer.buff
    {
      Out(state, writing, writeBuffer.Readable(), file, fileOpen, fileSentOffset, fileTotalSize, sendingFile, wire, shut)
    }

    ghost function Messages(): Retrans
      reads this
    {
      Retrans(pendingRetrans, armed, batch, nextTimer, sent, used)
    }

    ghost function Value(): Conn
      requires Valid()
      reads this, writeBuffer, writeBuffer.buff
    {
      Conn(Output(), Messages())
    }

    /** A connection right after connectEstablelished. */
    constructor ()
      ensures Valid() && Value() == INITIAL && fresh(writeBuffer) && fresh(writeBuffer.buff)
    {
      writeBuffer := new Buffer();
      state, writing, file, fileOpen, fileSentOffset, fileTotalSize := Connected, false, [], false, 0, 0;
      sendingFile, shut, wire := false, false, [];
      pendingRetrans, armed, batch, nextTimer, sent, used := map[], map[], map[], 0, [], {};
    }

    /** loop_->cancel */
    method CancelTimer(timer: Option<nat>)
      modifies this`armed
      ensures Messages() == ConnectionModel.Cancel(old(Messages()), timer)
    {
      if timer.Some? {
        armed := armed - {timer.value};
      }
    }

    method CancelAll()
      modifies this`armed
      ensures armed == old(armed) - Held(pendingRetrans)
    {
      var keys := pendingRetrans.Keys;
      ghost var cancelled: set<nat> := {};
      while keys != {}
        invariant keys <= pendingRetrans.Keys && armed == old(armed) - cancelled
        invariant cancelled == Held(pendingRetrans - keys)
      {
        var q :| q in keys;
        CancelTimer(pendingRetrans[q].timer);
        ghost var more := if pendingRetrans[q].timer.Some? then {pendingRetrans[q].timer.value} else {};
        HeldOneMore(pendingRetrans, keys, q);
        cancelled := cancelled + more;
        keys := keys - {q};
      }
      assert pendingRetrans - {} == pendingRetrans;
    }

    /** The file being sent from now on, or none. */
    method SetFile(content: Bytes, open: bool, size: nat)
      modifies this`file, this`fileOpen, this`fileSentOffset, this`fileTotalSize, this`sendingFile
      ensures file == content && fileOpen == open && sendingFile == open
      ensures fileSentOffset == 0 && fileTotalSize == size
    {
      file, fileOpen, sendingFile := content, open, open;
      fileSentOffset, fileTotalSize := 0, size;
    }

    method HandleClose()
      requires Valid()
      modifies this
      ensures Valid() && Value() == Sync(old(Value()), OutputModel.HandleClose(old(Output())))
    {
      hide Held, Buffer.Readable, Buffer.Extent;
      if state == Disconnected {
        return;
      }
      state := Disconnected;
      SetFile(file, false, 0);
      CancelAll();
      pendingRetrans := map[];
      assert writeBuffer.Readable() == old(writeBuffer.Readable());
      assert Output() == OutputModel.HandleClose(old(Output()));
      assert Messages() == Clear(old(Messages()));
    }

    method ForceCloseInLoop()
      requires Valid()
      modifies this
      ensures Valid() && Value() == Sync(old(Value()), OutputModel.HandleClose(old(Output())))
    {
      if state == Connected || state == Disconnecting {
        HandleClose();
      }
    }

    method ShutdownInLoop()
      requires Valid()
      modifies this
      ensures Valid() && Value() == Sync(old(Value()), OutputModel.ShutdownInLoop(old(Output())))
    {
      shut := true;
      if !writing {
        HandleClose();
      }
    }

    method Shutdown()
      requires Valid()
      modifies this
      ensures Valid() && Value() == ConnectionModel.Next(old(Value()), ConnectionModel.Shutdown)
    {
      if state == Connected {
        state := Disconnecting;
        ShutdownInLoop();
      }
    }

    /** The socket write of sendInLoop, and how much of the data it took. */
    method WriteDirectly(data: Bytes, w: WriteResult) returns (n: nat)
      requires Valid() && Fits(w, |data|)
      modifies this`wire
      ensures n == Taken(old(Output()), w) <= |data|
      ensures wire == old(wire) + data[..n]
    {
      n := if !writing && |writeBuffer.Readable()| == 0 && w.Wrote? then w.n else 0;
      wire := wire + data[..n];
    }

    /** The write, and the rest of the data put into the write buffer. */
    method WriteOrQueue(data: Bytes, w: WriteResult) returns (n: nat)
      requires Valid() && Fits(w, |data|)
      modifies this`wire, this`writing, writeBuffer, writeBuffer.buff
      ensures Valid() && (writeBuffer.buff == old(writeBuffer.buff) || fresh(writeBuffer.buff))
      ensures n == Taken(old(Output()), w) <= |data|
      ensures Output() == Place(old(Output()), data, n)
    {
      hide Buffer.Readable, Buffer.Extent, Taken;
      n := WriteDirectly(data, w);
      if n < |data| {
        writeBuffer.Append(data[n..]);
        if !writing {
          writing := true;
        }
      }
    }

    method SendInLoop(data: Bytes, w: WriteResult)
      requires Valid() && Fits(w, |data|)
      modifies this, writeBuffer, writeBuffer.buff
      ensures Valid() && (writeBuffer.buff == old(writeBuffer.buff) || fresh(writeBuffer.buff))
      ensures Value() == Sync(old(Value()), OutputModel.SendInLoop(old(Output()), data, w))
    {
      hide Buffer.Readable, Buffer.Extent, Clear, Place, OutputModel.ShutdownInLoop;
      if state == Disconnected {
        return;
      }
      ghost var before := Output();
      var direct := !writing && |writeBuffer.Readable()| == 0;
      assert direct == Direct(before);
      var n := WriteOrQueue(data, w);
      PlaceSame(before, data, n);
      if direct && w.Wrote? && n == |data| {
        return;
      }
      if state == Disconnecting && |writeBuffer.Readable()| == 0 {
        ShutdownInLoop();
      }
    }

    method Send(data: Bytes, w: WriteResult)
      requires Valid() && Fits(w, |data|)
      modifies this, writeBuffer, writeBuffer.buff
      ensures Valid() && (writeBuffer.buff == old(writeBuffer.buff) || fresh(writeBuffer.buff))
      ensures Value() == if old(state) == Connected then Sync(old(Value()), OutputModel.SendInLoop(old(Output()), data, w)) else old(Value())
    {
      if state == Connected {
        SendInLoop(data, w);
      }
    }

    method SendFileInLoop(open: OpenResult)
      requires Valid()
      modifies this
      ensures Valid() && Value() == Sync(old(Value()), OutputModel.SendFileInLoop(old(Output()), open))
    {
      hide Held, Buffer.Readable, Buffer.Extent;
      if state == Disconnected {
        return;
      }
      match open {
        case CannotOpen =>
          ForceCloseInLoop();
        case Opened(content) =>
          SetFile(content, true, |content|);
          writing := true;
      }
    }

    /** First part of handleWrite: the write buffer. */
    method DrainBuffer(w: WriteResult)
      requires Valid() && Fits(w, |writeBuffer.Readable()|) && |writeBuffer.Readable()| > 0
      modifies this, writeBuffer
      ensures Valid() && writeBuffer.buff == old(writeBuffer.buff)
      ensures Value() == Sync(old(Value()), OutputModel.DrainBuffer(old(Output()), w))
    {
      ghost var all := writeBuffer.Readable();
      var n, savedErrno, taken := writeBuffer.WriteFd(w);
      wire := wire + taken;
      if n > 0 {
        assert taken == all[..n] && writeBuffer.Readable() == all[n..];
        if |writeBuffer.Readable()| == 0 && !sendingFile {
          writing := false;
        }
      } else {
        assert taken == [] && writeBuffer.Readable() == all;
        if savedErrno != EAGAIN {
          HandleClose();
        }
      }
    }

    /** Second part of handleWrite: one chunk of the file. */
    method SendChunk(f: SendfileResult)
      requires Valid() && sendingFile && fileOpen
      requires fileSentOffset <= |file| && FileFits(f, |file| - fileSentOffset)
      modifies this
      ensures Valid() && Value() == Sync(old(Value()), OutputModel.SendChunk(old(Output()), f))
    {
      hide Held, Clear, OutputModel.HandleClose, Buffer.Readable, Buffer.Extent;
      match f {
        case Sent(n) =>
          wire := wire + file[fileSentOffset..fileSentOffset + n];
          fileSentOffset := fileSentOffset + n;
          if n > 0 && fileSentOffset >= fileTotalSize {
            fileOpen, sendingFile, writing := false, false, false;
          }
        case SendfileFailed(errno) =>
          if errno != EAGAIN {
            fileOpen, sendingFile, writing := false, false, false;
            HandleClose();
          }
      }
    }

    /** The write callback of the channel. */
    method HandleWrite(w: WriteResult, f: SendfileResult)
      requires Valid() && Enabled(Value(), Writable(w, f))
      modifies this, writeBuffer
      ensures Valid() && writeBuffer.buff == old(writeBuffer.buff)
      ensures Value() == ConnectionModel.Next(old(Value()), Writable(w, f))
    {
      hide Held, OutputModel.DrainBuffer, OutputModel.HandleClose, Buffer.Extent, Buffer.Readable;
      DrainLeavesFile(Output(), w);
      if !writing {
        return;
      }
      if |writeBuffer.Readable()| > 0 {
        DrainBuffer(w);
        if |writeBuffer.Readable()| > 0 {
          return;
        }
      }
      if sendingFile && fileOpen {
        SendChunk(f);
      }
    }

    method ResetRetransmitTimer(seqno: nat)
      requires Valid() && seqno in pendingRetrans
      modifies this`pendingRetrans, this`armed, this`nextTimer
      ensures Messages() == ConnectionModel.ResetTimer(old(Messages()), seqno)
    {
      var entry := pendingRetrans[seqno];
      CancelTimer(entry.timer);
      armed := armed[nextTimer := seqno];
      pendingRetrans := pendingRetrans[seqno := entry.(timer := Some(nextTimer))];
      nextTimer := nextTimer + 1;
    }

    method SendWithRetransmit(data: Bytes, seqno: nat, w: WriteResult)
      requires Valid() && Fits(w, |data|)
      modifies this, writeBuffer, writeBuffer.buff
      ensures Valid() && (writeBuffer.buff == old(writeBuffer.buff) || fresh(writeBuffer.buff))
      ensures Value() == ConnectionModel.SendReliably(old(Value()), seqno, data, w)
    {
      hide ConnectionModel.SendMessage, Held, Buffer.Readable, Buffer.Extent;
      SendFirst(data, seqno, w);
      used := used + {seqno};
      pendingRetrans := pendingRetrans[seqno := Entry(data, 0, None)];
      ResetRetransmitTimer(seqno);
    }

    method SendFirst(data: Bytes, seqno: nat, w: WriteResult)
      requires Valid() && Fits(w, |data|)
      modifies this, writeBuffer, writeBuffer.buff
      ensures Valid() && (writeBuffer.buff == old(writeBuffer.buff) || fresh(writeBuffer.buff))
      ensures Value() == if old(state) == Connected then ConnectionModel.SendMessage(old(Value()), seqno, data, w) else old(Value())
    {
      hide OutputModel.SendInLoop, Held, Buffer.Readable, Buffer.Extent;
      if state == Connected { sent := sent + [seqno]; }
      Send(data, w);
    }

    method AckReceived(seqno: nat)
      requires Valid()
      modifies this`pendingRetrans, this`armed
      ensures Value() == ConnectionModel.AckReceived(old(Value()), seqno)
    {
      if seqno in pendingRetrans {
        CancelTimer(pendingRetrans[seqno].timer);
        pendingRetrans := pendingRetrans - {seqno};
      }
    }

    /**
     `survived` is false if the send destroyed the entry to which the C++ code holds a reference. It
     uses the entry all the same; that is undefined, and the call ends here.
     */
    method OnRetransmitTimeout(seqno: nat, w: WriteResult) returns (survived: bool)
      requires Valid() && (seqno in pendingRetrans ==> Fits(w, |pendingRetrans[seqno].data|))
      modifies this, writeBuffer, writeBuffer.buff
      ensures Valid() && (writeBuffer.buff == old(writeBuffer.buff) || fresh(writeBuffer.buff))
      ensures survived == EntrySurvives(old(Value()), seqno, w)
      ensures Value() == if survived then ConnectionModel.Timeout(old(Value()), seqno, w)
                         else ConnectionModel.SendMessage(old(Value()), seqno, old(pendingRetrans)[seqno].data, w)
    {
      hide OutputModel.SendInLoop, ConnectionModel.SendMessage, Held, OutputModel.HandleClose, Buffer.Readable, Buffer.Extent;
      if seqno !in pendingRetrans {
        return true;
      }
      var entry := pendingRetrans[seqno];
      if entry.retries >= MAX_RETRIES {
        pendingRetrans := pendingRetrans - {seqno};
        ForceCloseInLoop();
        return true;
      }
      Resend(seqno, w);
      if seqno !in pendingRetrans {
        return false;
      }
      pendingRetrans := pendingRetrans[seqno := pendingRetrans[seqno].(retries := entry.retries + 1)];
      ResetRetransmitTimer(seqno);
      return true;
    }

    method Resend(seqno: nat, w: WriteResult)
      requires Valid() && seqno in pendingRetrans && Fits(w, |pendingRetrans[seqno].data|)
      modifies this, writeBuffer, writeBuffer.buff
      ensures Valid() && (writeBuffer.buff == old(writeBuffer.buff) || fresh(writeBuffer.buff))
      ensures Value() == ConnectionModel.SendMessage(old(Value()), seqno, old(pendingRetrans)[seqno].data, w)
    {
      hide OutputModel.SendInLoop, Held, Buffer.Readable, Buffer.Extent;
      if state != Disconnected { sent := sent + [seqno]; }
      SendInLoop(pendingRetrans[seqno].data, w);
    }

    /** The timer queue calls the callback of a timer of its batch. */
    method FireTimer(timer: nat, w: WriteResult) returns (survived: bool)
      requires Valid() && Enabled(Value(), Fire(timer, w))
      modifies this, writeBuffer, writeBuffer.buff
      ensures Valid() && (writeBuffer.buff == old(writeBuffer.buff) || fresh(writeBuffer.buff))
      ensures survived == Safe(old(Value()), Fire(timer, w))
      ensures survived ==> Value() == ConnectionModel.Next(old(Value()), Fire(timer, w))
    {
      hide ConnectionModel.Timeout, EntrySurvives;
      var seqno := batch[timer];
      batch := batch - {timer};
      survived := OnRetransmitTimeout(seqno, w);
    }
  }

  lemma PlaceSame(s: Out, data: Bytes, n: nat)
    requires n <= |data|
    ensures Place(s, data, n).state == s.state
  {
  }

  /** Draining leaves the file alone, or ends the sending of it. */
  lemma DrainLeavesFile(s: Out, w: WriteResult)
    requires Fits(w, |s.pending|)
    ensures var t := OutputModel.DrainBuffer(s, w);
            && (t.sendingFile && t.fileOpen ==> t.file == s.file && t.offset == s.offset && s.sendingFile && s.fileOpen)
            && (t.state == s.state || (t.state == Disconnected && !t.sendingFile))
            && (s.pending == [] ==> t == s)
  {
  }

  lemma HeldOneMore(pending: map<nat, Entry>, keys: set<nat>, q: nat)
    requires q in keys && keys <= pending.Keys
    ensures Held(pending - (keys - {q})) ==
            Held(pending - keys) + if pending[q].timer.Some? then {pending[q].timer.value} else {}
  {
    var less, more := pending - keys, pending - (keys - {q});
    assert more.Keys == less.Keys + {q};
    forall t ensures t in Held(more) <==> t in Held(less) || pending[q].timer == Some(t) {
      if t in Held(less) {
        var p :| p in less && less[p].timer.Some? && less[p].timer.value == t;
        assert p in more && more[p] == less[p];
      }
      if pending[q].timer == Some(t) { assert q in more; }
      if t in Held(more) {
        var p :| p in more && more[p].timer.Some? && more[p].timer.value == t;
        assert p == q || (p in less && less[p] == more[p]);
      }
    }
  }
}
