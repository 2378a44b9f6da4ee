/** The classes of net/Channel.h, net/Channel.cc and net/Poller/Epoller.cc. */
module Registration {
  import opened RegistrationModel

  class Epoller {
    var channelMap: map<Fd, Channel>
    var kernel: map<Fd, Interest<Channel>>
    ghost var live: set<Channel>

    ghost function Value(): State<Channel>
      reads this, live
    {
      State(map ch | ch in live :: ch.View(), channelMap, kernel)
    }

    ghost predicate Valid()
      reads this, live
    {
      (forall ch :: ch in live ==> ch.loop == this) && Inv(Value())
    }

    constructor ()
      ensures Valid() && Value() == Empty() && live == {}
    {
      channelMap, kernel, live := map[], map[], {};
    }

    method Control(fd: Fd, op: Ctl<Channel>) returns (ok: bool)
      modifies this`kernel
      ensures ok == CtlSucceeds(old(kernel), fd, op)
      ensures kernel == EpollCtl(old(kernel), fd, op)
    {
      ok := op.CtlAdd? == (fd !in kernel);
      if ok {
        match op
        case CtlAdd(i) => kernel := kernel[fd := i];
        case CtlMod(i) => kernel := kernel[fd := i];
        case CtlDel => kernel := kernel - {fd};
      }
    }

    method UpdateChannel(ch: Channel)
      requires ch in live && UpdateSafe(Value(), ch)
      modifies this`kernel, this`channelMap, ch`index
      ensures Value() == RegistrationModel.UpdateChannel(old(Value()), ch)
    {
      var interest := Interest(ch.events, ch);
      if ch.index == New || ch.index == Deleted {
        if ch.index == New {
          assert ch.fd !in channelMap;
        } else {
          assert ch.fd !in channelMap || channelMap[ch.fd] == ch;
        }
        channelMap := channelMap[ch.fd := ch];
        var ok := Control(ch.fd, CtlAdd(interest));
        assert ok;
        ch.index := Added;
      } else {
        assert ch.fd in channelMap && channelMap[ch.fd] == ch;
        if ch.events == {} {
          RemoveChannel(ch);
          return;
        }
        var ok := Control(ch.fd, CtlMod(interest));
        assert ok;
      }
    }

    method RemoveChannel(ch: Channel)
      requires ch in live && RemoveSafe(Value(), ch)
      modifies this`kernel, this`channelMap, ch`index
      ensures Value() == RegistrationModel.RemoveChannel(old(Value()), ch)
    {
      assert ch.index == Added;
      var ok := Control(ch.fd, CtlDel);
      assert ok;
      ch.index := Deleted;
      assert ch.fd in channelMap;
      channelMap := channelMap - {ch.fd};
    }
  }

  class Channel {
    const fd: Fd
    const loop: Epoller
    var events: Mask
    var index: Index
    var added: bool

    ghost function View(): Chan
      reads this
    {
      Chan(fd, events, index, added)
    }

    /** For a descriptor that no live channel of the loop has. */
    constructor (loop: Epoller, fd: Fd)
      requires loop.Valid() && forall ch :: ch in loop.live ==> ch.fd != fd
      modifies loop`live
      ensures loop.live == old(loop.live) + {this} && this !in old(loop.live)
      ensures Enabled(old(loop.Value()), Create(this, fd))
      ensures loop.Valid() && loop.Value() == Next(old(loop.Value()), Create(this, fd))
    {
      this.loop, this.fd := loop, fd;
      events, index, added := {}, New, false;
      new;
      ghost var s := loop.Value();
      StepKeeps(s, Create(this, fd));
      loop.live := loop.live + {this};
      assert loop.Value() == Next(s, Create(this, fd));
    }

    predicate IsReading() reads this { EPOLLIN in events }

    predicate IsWriting() reads this { EPOLLOUT in events }

    predicate IsNonEvent() reads this { events == {} }

    method Update()
      requires this in loop.live && UpdateSafe(loop.Value(), this)
      modifies this`index, this`added, loop`kernel, loop`channelMap
      ensures var t := UpdateChannel(old(loop.Value()), this);
              loop.Value() == SetChan(t, this, t.chans[this].(added := true))
    {
      loop.UpdateChannel(this);
      added := true;
    }

    /** The body common to the five calls that change `events_`. */
    method SetEvents(call: Call)
      requires loop.Valid() && this in loop.live && call != Call.Remove
      modifies this`events, this`index, this`added, loop`kernel, loop`channelMap
      ensures loop.Valid() && loop.Value() == Next(old(loop.Value()), Do(this, call))
      ensures events == Wanted(old(events), call) && added
      ensures index == if old(index) == Added && events == {} then Deleted else Added
    {
      hide Inv, UpdateSafe, RegistrationModel.UpdateChannel;
      ghost var s := loop.Value();
      InvokeKeeps(s, this, call);
      events := match call
        case EnableReading => events + {EPOLLIN}
        case DisableReading => events - {EPOLLIN}
        case EnableWriting => events + {EPOLLOUT}
        case DisableWriting => events - {EPOLLOUT}
        case _ => {};
      assert loop.Value() == SetChan(s, this, s.chans[this].(events := Wanted(s.chans[this].events, call)));
      Update();
      assert loop.Value().chans[this] == Alone(s.chans[this], call);
    }

    method EnableReading()
      requires loop.Valid() && this in loop.live
      modifies this`events, this`index, this`added, loop`kernel, loop`channelMap
      ensures loop.Valid() && loop.Value() == Next(old(loop.Value()), Do(this, Call.EnableReading))
      ensures IsReading() && index == Added
    {
      SetEvents(Call.EnableReading);
    }

    method DisableReading()
      requires loop.Valid() && this in loop.live
      modifies this`events, this`index, this`added, loop`kernel, loop`channelMap
      ensures loop.Valid() && loop.Value() == Next(old(loop.Value()), Do(this, Call.DisableReading))
      ensures !IsReading() && IsWriting() == old(IsWriting())
    {
      SetEvents(Call.DisableReading);
    }

    method EnableWriting()
      requires loop.Valid() && this in loop.live
      modifies this`events, this`index, this`added, loop`kernel, loop`channelMap
      ensures loop.Valid() && loop.Value() == Next(old(loop.Value()), Do(this, Call.EnableWriting))
      ensures IsWriting() && index == Added
    {
      SetEvents(Call.EnableWriting);
    }

    method DisableWriting()
      requires loop.Valid() && this in loop.live
      modifies this`events, this`index, this`added, loop`kernel, loop`channelMap
      ensures loop.Valid() && loop.Value() == Next(old(loop.Value()), Do(this, Call.DisableWriting))
      ensures !IsWriting() && IsReading() == old(IsReading())
    {
      SetEvents(Call.DisableWriting);
    }

    /** It leaves the channel registered iff it was not. */
    method DisableAll()
      requires loop.Valid() && this in loop.live
      modifies this`events, this`index, this`added, loop`kernel, loop`channelMap
      ensures loop.Valid() && loop.Value() == Next(old(loop.Value()), Do(this, Call.DisableAll))
      ensures IsNonEvent() && (index == Added <==> old(index) != Added)
    {
      SetEvents(Call.DisableAll);
    }

    method Remove()
      requires loop.Valid() && this in loop.live
      modifies this`index, this`added, loop`kernel, loop`channelMap
      ensures loop.Valid() && loop.Value() == Next(old(loop.Value()), Do(this, Call.Remove))
      ensures !added && index != Added && fd !in loop.channelMap && fd !in loop.kernel
    {
      hide RemoveSafe, RegistrationModel.RemoveChannel;
      ghost var s := loop.Value();
      InvokeKeeps(s, this, Call.Remove);
      AgreesIn(s, this);
      AgreesIn(Invoke(s, this, Call.Remove), this);
      hide Inv;
      if !added {
        return;
      }
      added := false;
      assert loop.Value() == SetChan(s, this, s.chans[this].(added := false));
      if index == Deleted {
        return;
      }
      loop.RemoveChannel(this);
    }

    /** ~Channel; the channel is gone from every view. */
    method Destroy()
      requires loop.Valid() && this in loop.live
      modifies this`index, this`added, loop`kernel, loop`channelMap, loop`live
      ensures loop.live == old(loop.live) - {this}
      ensures loop.Valid() && loop.Value() == Next(old(loop.Value()), RegistrationModel.Destroy(this))
    {
      hide Inv, Invoke;
      ghost var s := loop.Value();
      StepKeeps(s, RegistrationModel.Destroy(this));
      Remove();
      loop.live := loop.live - {this};
      assert loop.Value() == Next(s, RegistrationModel.Destroy(this));
    }
  }
}
