/**
 Registration of channels (net/Channel.h, net/Channel.cc, net/Poller/Epoller.cc) on values. One
 fact is held in three places: the channel's index, the poller's map from descriptors to channels,
 and the kernel's interest list. A channel is named by an `Id`, its address.
 */
module RegistrationModel {

  type Fd = nat

  /** The bits a mask can have; a mask is the set of its bits. */
  datatype Event = EPOLLIN | EPOLLOUT

  type Mask = set<Event>

  datatype Index = Deleted | New | Added

  datatype Chan = Chan(fd: Fd, events: Mask, index: Index, added: bool)

  /** One descriptor in the kernel's list, with the channel that epoll_wait hands back for it. */
  datatype Interest<Id> = Interest(events: Mask, ptr: Id)

  datatype State<Id> = State(
    chans: map<Id, Chan>,             // the live channels
    channelMap: map<Fd, Id>,          // ChannelMap_
    kernel: map<Fd, Interest<Id>>)

  function Empty<Id>(): State<Id> { State(map[], map[], map[]) }

  // ---------------------------------------------------------------- epoll_ctl

  datatype Ctl<Id> = CtlAdd(interest: Interest<Id>) | CtlMod(interest: Interest<Id>) | CtlDel

  /** ADD of a listed descriptor fails with EEXIST, the others of an unlisted one with ENOENT. */
  predicate CtlSucceeds<Id>(kernel: map<Fd, Interest<Id>>, fd: Fd, op: Ctl<Id>) {
    op.CtlAdd? <==> fd !in kernel
  }

  /** A failed call changes nothing. */
  function EpollCtl<Id>(kernel: map<Fd, Interest<Id>>, fd: Fd, op: Ctl<Id>): map<Fd, Interest<Id>> {
    if !CtlSucceeds(kernel, fd, op) then kernel
    else match op
      case CtlAdd(i) => kernel[fd := i]
      case CtlMod(i) => kernel[fd := i]
      case CtlDel => kernel - {fd}
  }

  // ---------------------------------------------------------------- the poller

  function RemoveChannel<Id>(s: State<Id>, id: Id): State<Id>
    requires id in s.chans
  {
    var c := s.chans[id];
    State(s.chans[id := c.(index := Deleted)], s.channelMap - {c.fd}, EpollCtl(s.kernel, c.fd, CtlDel))
  }

  /** The assertions of removeChannel, and that the kernel accepts what it asks for. */
  predicate RemoveSafe<Id>(s: State<Id>, id: Id)
    requires id in s.chans
  {
    var c := s.chans[id];
    && c.index == Added && c.fd in s.channelMap
    && CtlSucceeds(s.kernel, c.fd, CtlDel)
  }

  function UpdateChannel<Id>(s: State<Id>, id: Id): State<Id>
    requires id in s.chans
  {
    var c := s.chans[id];
    var interest := Interest(c.events, id);
    if c.index != Added then
      State(s.chans[id := c.(index := Added)], s.channelMap[c.fd := id],
            EpollCtl(s.kernel, c.fd, CtlAdd(interest)))
    else if c.events == {} then
      RemoveChannel(s, id)
    else
      s.(kernel := EpollCtl(s.kernel, c.fd, CtlMod(interest)))
  }

  predicate UpdateSafe<Id>(s: State<Id>, id: Id)
    requires id in s.chans
  {
    var c := s.chans[id];
    var interest := Interest(c.events, id);
    match c.index
    case New => c.fd !in s.channelMap && CtlSucceeds(s.kernel, c.fd, CtlAdd(interest))
    case Deleted =>
      && (c.fd in s.channelMap ==> s.channelMap[c.fd] == id)
      && CtlSucceeds(s.kernel, c.fd, CtlAdd(interest))
    case Added =>
      && c.fd in s.channelMap && s.channelMap[c.fd] == id
      && if c.events == {} then RemoveSafe(s, id) else CtlSucceeds(s.kernel, c.fd, CtlMod(interest))
  }

  // ---------------------------------------------------------------- the channel

  datatype Call = EnableReading | DisableReading | EnableWriting | DisableWriting | DisableAll | Remove

  /** events_ after a call. */
  function Wanted(events: Mask, call: Call): Mask {
    match call
    case EnableReading => events + {EPOLLIN}
    case DisableReading => events - {EPOLLIN}
    case EnableWriting => events + {EPOLLOUT}
    case DisableWriting => events - {EPOLLOUT}
    case DisableAll => {}
    case Remove => events
  }

  function SetChan<Id>(s: State<Id>, id: Id, c: Chan): State<Id> {
    s.(chans := s.chans[id := c])
  }

  function Invoke<Id>(s: State<Id>, id: Id, call: Call): State<Id>
    requires id in s.chans
  {
    var c := s.chans[id];
    if call != Remove then
      var t := UpdateChannel(SetChan(s, id, c.(events := Wanted(c.events, call))), id);
      SetChan(t, id, t.chans[id].(added := true))
    else if !c.added then s
    else
      var t := SetChan(s, id, c.(added := false));
      if c.index == Deleted then t else RemoveChannel(t, id)
  }

  predicate InvokeSafe<Id>(s: State<Id>, id: Id, call: Call)
    requires id in s.chans
  {
    var c := s.chans[id];
    if call != Remove then UpdateSafe(SetChan(s, id, c.(events := Wanted(c.events, call))), id)
    else c.added && c.index != Deleted ==> RemoveSafe(SetChan(s, id, c.(added := false)), id)
  }

  // ---------------------------------------------------------------- runs

  datatype Label<Id> =
    | Create(id: Id, fd: Fd)
    | Do(id: Id, call: Call)
    | Destroy(id: Id)

  function Fresh(fd: Fd): Chan { Chan(fd, {}, New, false) }

  /** A new channel is for a descriptor that no live channel has. */
  predicate Enabled<Id>(s: State<Id>, l: Label<Id>) {
    match l
    case Create(id, fd) => id !in s.chans && forall other :: other in s.chans ==> s.chans[other].fd != fd
    case Do(id, _) => id in s.chans
    case Destroy(id) => id in s.chans
  }

  predicate Safe<Id>(s: State<Id>, l: Label<Id>)
    requires Enabled(s, l)
  {
    match l
    case Create(_, _) => true
    case Do(id, call) => InvokeSafe(s, id, call)
    case Destroy(id) => InvokeSafe(s, id, Remove)
  }

  function Next<Id>(s: State<Id>, l: Label<Id>): State<Id>
    requires Enabled(s, l)
  {
    match l
    case Create(id, fd) => SetChan(s, id, Fresh(fd))
    case Do(id, call) => Invoke(s, id, call)
    case Destroy(id) =>
      var t := Invoke(s, id, Remove);
      t.(chans := t.chans - {id})
  }

  ghost predicate Reaches<Id>(s: State<Id>, ls: seq<Label<Id>>, t: State<Id>)
    decreases |ls|
  {
    if ls == [] then s == t else Enabled(s, ls[0]) && Reaches(Next(s, ls[0]), ls[1..], t)
  }

  // ---------------------------------------------------------------- the invariant

  /** The three places agree about a channel. */
  ghost predicate Agrees<Id>(c: Chan, id: Id, channelMap: map<Fd, Id>, kernel: map<Fd, Interest<Id>>) {
    && (c.index == Added ==> c.fd in channelMap && channelMap[c.fd] == id)
    && (c.index == Added ==> c.fd in kernel && kernel[c.fd] == Interest(c.events, id))
    && (c.index == Added ==> c.added)
    && (c.added ==> c.index != New)
    && (c.index != Added ==> c.fd !in channelMap && c.fd !in kernel)
  }

  ghost predicate Inv<Id>(s: State<Id>) {
    && (forall id :: id in s.chans ==> Agrees(s.chans[id], id, s.channelMap, s.kernel))
    && (forall a, b :: a in s.chans && b in s.chans && a != b ==> s.chans[a].fd != s.chans[b].fd)
    && (forall fd :: fd in s.channelMap ==>
          s.channelMap[fd] in s.chans && s.chans[s.channelMap[fd]].fd == fd)
    && s.channelMap.Keys == s.kernel.Keys
  }

  /** What a call on a channel does to it, whatever other channels there are. */
  function Alone(c: Chan, call: Call): Chan {
    if call != Remove then
      var events := Wanted(c.events, call);
      c.(events := events, added := true,
         index := if c.index == Added && events == {} then Deleted else Added)
    else if c.added then c.(added := false, index := Deleted)
    else c
  }

  /** The effect of a call on the poller and the kernel is confined to the channel's descriptor. */
  ghost predicate OnlyAt<Id>(s: State<Id>, t: State<Id>, fd: Fd) {
    && t.channelMap - {fd} == s.channelMap - {fd}
    && t.kernel - {fd} == s.kernel - {fd}
  }

  /** A call is safe, does this to its channel, and nothing to the others. */
  lemma InvokeOne<Id>(s: State<Id>, id: Id, call: Call)
    requires id in s.chans && Agrees(s.chans[id], id, s.channelMap, s.kernel)
    ensures InvokeSafe(s, id, call)
    ensures var t := Invoke(s, id, call);
            && t.chans == s.chans[id := Alone(s.chans[id], call)]
            && Agrees(t.chans[id], id, t.channelMap, t.kernel)
            && OnlyAt(s, t, s.chans[id].fd)
  {
    hide Wanted;
    var c := s.chans[id];
    if call != Remove {
      UpdateOne(SetChan(s, id, c.(events := Wanted(c.events, call))), id);
    }
  }

  /** What updateChannel does, for a channel whose new events are not in the kernel yet. */
  lemma UpdateOne<Id>(s: State<Id>, id: Id)
    requires id in s.chans
    requires var c := s.chans[id]; exists mask :: Agrees(c.(events := mask), id, s.channelMap, s.kernel)
    ensures UpdateSafe(s, id)
    ensures var t, c := UpdateChannel(s, id), s.chans[id];
            && t.chans == s.chans[id := c.(index := if c.index == Added && c.events == {} then Deleted else Added)]
            && Agrees(t.chans[id].(added := true), id, t.channelMap, t.kernel)
            && OnlyAt(s, t, c.fd)
  {
  }

  lemma AgreesIn<Id>(s: State<Id>, id: Id)
    requires Inv(s) && id in s.chans
    ensures Agrees(s.chans[id], id, s.channelMap, s.kernel)
  {
  }

  lemma SameEntry<V>(a: map<Fd, V>, b: map<Fd, V>, own: Fd, fd: Fd)
    requires a - {own} == b - {own} && fd != own
    ensures (fd in a <==> fd in b) && (fd in a ==> a[fd] == b[fd])
  {
    assert fd in a <==> fd in a - {own};
    assert fd in a ==> a[fd] == (a - {own})[fd];
  }

  /** A change of one channel that is right for it, and confined to its descriptor, keeps the invariant. */
  lemma InvIsLocal<Id>(s: State<Id>, t: State<Id>, id: Id, c: Chan)
    requires Inv(s) && id in s.chans && t.chans == s.chans[id := c] && c.fd == s.chans[id].fd
    requires Agrees(c, id, t.channelMap, t.kernel) && OnlyAt(s, t, c.fd)
    ensures Inv(t)
  {
    forall fd | fd != c.fd
      ensures (fd in t.channelMap <==> fd in s.channelMap) && (fd in t.kernel <==> fd in s.kernel)
      ensures fd in s.channelMap ==> t.channelMap[fd] == s.channelMap[fd]
      ensures fd in s.kernel ==> t.kernel[fd] == s.kernel[fd]
    {
      SameEntry(s.channelMap, t.channelMap, c.fd, fd);
      SameEntry(s.kernel, t.kernel, c.fd, fd);
    }
    hide OnlyAt;
    forall other | other in t.chans && other != id
      ensures t.chans[other].fd != c.fd && Agrees(t.chans[other], other, t.channelMap, t.kernel)
    {
      assert Agrees(s.chans[other], other, s.channelMap, s.kernel);
    }
    forall fd | fd in t.channelMap
      ensures t.channelMap[fd] in t.chans && t.chans[t.channelMap[fd]].fd == fd
    {
      if fd == c.fd { assert Agrees(c, id, t.channelMap, t.kernel); }
    }
    assert t.channelMap.Keys == t.kernel.Keys by {
      assert forall fd :: fd in t.channelMap <==> fd in t.kernel;
    }
  }

  /** Together: a call is safe and keeps the invariant. */
  lemma InvokeKeeps<Id>(s: State<Id>, id: Id, call: Call)
    requires Inv(s) && id in s.chans
    ensures InvokeSafe(s, id, call) && Inv(Invoke(s, id, call))
    ensures Invoke(s, id, call).chans == s.chans[id := Alone(s.chans[id], call)]
    ensures OnlyAt(s, Invoke(s, id, call), s.chans[id].fd)
  {
    hide Invoke, InvokeSafe, Wanted, OnlyAt, Agrees;
    InvokeOne(s, id, call);
    InvIsLocal(s, Invoke(s, id, call), id, Alone(s.chans[id], call));
  }

  lemma StepKeeps<Id>(s: State<Id>, l: Label<Id>)
    requires Inv(s) && Enabled(s, l)
    ensures Safe(s, l) && Inv(Next(s, l))
  {
    match l
    case Create(id, fd) =>
    case Do(id, call) => InvokeKeeps(s, id, call);
    case Destroy(id) =>
      InvokeKeeps(s, id, Remove);
      var t := Invoke(s, id, Remove);
      assert Agrees(t.chans[id], id, t.channelMap, t.kernel);
  }

  lemma {:induction false} RunsKeep<Id>(s: State<Id>, ls: seq<Label<Id>>, t: State<Id>)
    requires Inv(s) && Reaches(s, ls, t)
    ensures Inv(t)
    decreases |ls|
  {
    if ls != [] {
      StepKeeps(s, ls[0]);
      RunsKeep(Next(s, ls[0]), ls[1..], t);
    }
  }

  // ---------------------------------------------------------------- theorems

  /**
   After any run, the index, the map and the kernel say the same of every live channel; and no
   next step fails an assertion or gets an error from epoll_ctl.
   */
  lemma RegistrationAgrees<Id>(ls: seq<Label<Id>>, t: State<Id>, id: Id)
    requires Reaches(Empty(), ls, t) && id in t.chans
    ensures var c := t.chans[id];
            && (c.index == Added <==> c.fd in t.channelMap)
            && (c.index == Added <==> c.fd in t.kernel)
            && (c.index == Added ==> t.channelMap[c.fd] == id && t.kernel[c.fd] == Interest(c.events, id))
            && (c.index == Added ==> c.added)
            && (c.added ==> c.index != New)
    ensures forall l :: Enabled(t, l) ==> Safe(t, l)
  {
    RunsKeep(Empty(), ls, t);
    assert Agrees(t.chans[id], id, t.channelMap, t.kernel);
    forall l | Enabled(t, l) ensures Safe(t, l) { StepKeeps(t, l); }
  }

  /** epoll_wait never hands back a channel that is gone, nor one for another descriptor. */
  lemma KernelPointsToLiveChannels<Id>(ls: seq<Label<Id>>, t: State<Id>, fd: Fd)
    requires Reaches(Empty(), ls, t) && fd in t.kernel
    ensures t.kernel[fd].ptr in t.chans && t.chans[t.kernel[fd].ptr].fd == fd
  {
    RunsKeep(Empty(), ls, t);
    var id := t.channelMap[fd];
    assert Agrees(t.chans[id], id, t.channelMap, t.kernel);
  }

  function RunAlone(c: Chan, calls: seq<Call>): Chan
    decreases |calls|
  {
    if calls == [] then c else Alone(RunAlone(c, calls[..|calls| - 1]), calls[|calls| - 1])
  }

  function CallsOn<Id(==)>(ls: seq<Label<Id>>, id: Id): seq<Call>
    decreases |ls|
  {
    if ls == [] then []
    else (if ls[0].Do? && ls[0].id == id then [ls[0].call] else []) + CallsOn(ls[1..], id)
  }

  lemma {:induction false} RunAloneCons(c: Chan, call: Call, calls: seq<Call>)
    ensures RunAlone(c, [call] + calls) == RunAlone(Alone(c, call), calls)
    decreases |calls|
  {
    var all := [call] + calls;
    if calls == [] {
      assert all == [call] && all[..0] == [];
    } else {
      RunAloneCons(c, call, calls[..|calls| - 1]);
      assert all[..|all| - 1] == [call] + calls[..|calls| - 1];
    }
  }

  /** From one state to another, what became of a channel depends only on the calls made on it. */
  lemma {:induction false} OwnCallsDecide<Id>(s: State<Id>, ls: seq<Label<Id>>, t: State<Id>, id: Id)
    requires Inv(s) && Reaches(s, ls, t) && id in s.chans
    requires forall l :: l in ls && l.id == id ==> l.Do?
    ensures id in t.chans && t.chans[id] == RunAlone(s.chans[id], CallsOn(ls, id))
    decreases |ls|
  {
    if ls != [] {
      var l := ls[0];
      var next := Next(s, l);
      assert l in ls;
      StepKeeps(s, l);
      if l.Do? {
        InvokeKeeps(s, l.id, l.call);
        if l.id == id {
          RunAloneCons(s.chans[id], l.call, CallsOn(ls[1..], id));
        }
      } else if l.Destroy? {
        InvokeKeeps(s, l.id, Remove);
      }
      assert [] + CallsOn(ls[1..], id) == CallsOn(ls[1..], id);
      OwnCallsDecide(next, ls[1..], t, id);
    }
  }

  // ---------------------------------------------------------------- when a channel is registered

  /** Updates that ask for nothing. */
  predicate AllEmpty(c: Chan, calls: seq<Call>) {
    forall i :: 0 <= i < |calls| ==> calls[i] != Remove && RunAlone(c, calls[..i + 1]).events == {}
  }

  /** Each such update flips the registration. */
  lemma {:induction false} EmptyUpdatesFlip(c: Chan, calls: seq<Call>)
    requires AllEmpty(c, calls)
    ensures RunAlone(c, calls).index == Added <==> (c.index == Added) == (|calls| % 2 == 0)
    decreases |calls|
  {
    if calls != [] {
      var init := calls[..|calls| - 1];
      forall i | 0 <= i < |init| ensures init[i] != Remove && RunAlone(c, init[..i + 1]).events == {} {
        assert init[..i + 1] == calls[..i + 1];
        assert calls[i] != Remove;
      }
      EmptyUpdatesFlip(c, init);
      assert calls[..|calls| - 1 + 1] == calls;
      assert calls[|calls| - 1] != Remove;
    }
  }

  lemma {:induction false} RunAloneAppend(c: Chan, first: seq<Call>, rest: seq<Call>)
    ensures RunAlone(c, first + rest) == RunAlone(RunAlone(c, first), rest)
    decreases |rest|
  {
    if rest == [] {
      assert first + rest == first;
    } else {
      RunAloneAppend(c, first, rest[..|rest| - 1]);
      assert (first + rest)[..|first + rest| - 1] == first + rest[..|rest| - 1];
    }
  }

  lemma {:induction false} AddedUnlessUnregistered(fd: Fd, calls: seq<Call>)
    ensures var c := RunAlone(Fresh(fd), calls); c.index == Added ==> c.added
    decreases |calls|
  {
    if calls != [] {
      AddedUnlessUnregistered(fd, calls[..|calls| - 1]);
    }
  }

  /**
   The closed form over all call sequences: look at the last call that was a remove or asked for
   something. The channel is registered iff the number of updates after it is odd, if that call
   was a remove or there was none, and iff it is even otherwise.
   */
  lemma RegisteredByParity(fd: Fd, first: seq<Call>, rest: seq<Call>)
    requires first == [] || first[|first| - 1] == Remove || RunAlone(Fresh(fd), first).events != {}
    requires AllEmpty(RunAlone(Fresh(fd), first), rest)
    ensures RunAlone(Fresh(fd), first + rest).index == Added <==>
            (first != [] && first[|first| - 1] != Remove) == (|rest| % 2 == 0)
  {
    RunAloneAppend(Fresh(fd), first, rest);
    EmptyUpdatesFlip(RunAlone(Fresh(fd), first), rest);
    if first != [] {
      AddedUnlessUnregistered(fd, first[..|first| - 1]);
    }
  }

  /** A bit of events_ is what the last call about it made it. */
  predicate LastAsksFor(calls: seq<Call>, on: Call, off: Call)
    decreases |calls|
  {
    calls != [] &&
    var last := calls[|calls| - 1];
    if last == on then true
    else if last == off || last == DisableAll then false
    else LastAsksFor(calls[..|calls| - 1], on, off)
  }

  lemma {:induction false} InterestIsLastAsked(fd: Fd, calls: seq<Call>)
    ensures var events := RunAlone(Fresh(fd), calls).events;
            && (EPOLLIN in events <==> LastAsksFor(calls, EnableReading, DisableReading))
            && (EPOLLOUT in events <==> LastAsksFor(calls, EnableWriting, DisableWriting))
    decreases |calls|
  {
    if calls != [] {
      InterestIsLastAsked(fd, calls[..|calls| - 1]);
    }
  }

  /**
   The poller takes out a channel that asks for nothing. So after an update the kernel should list
   a channel exactly when it asks for something; that holds iff it does, or was listed before.
   */
  lemma EmptyInterestIsExact<Id>(ls: seq<Label<Id>>, s: State<Id>, id: Id, call: Call)
    requires Reaches(Empty(), ls, s) && id in s.chans && call != Remove
    ensures var (fd, wanted) := (s.chans[id].fd, Wanted(s.chans[id].events, call));
            (fd in Invoke(s, id, call).kernel <==> wanted != {}) <==> wanted != {} || fd in s.kernel
  {
    hide Invoke, InvokeSafe, Wanted;
    RunsKeep(Empty(), ls, s);
    InvokeKeeps(s, id, call);
    AgreesIn(s, id);
    AgreesIn(Invoke(s, id, call), id);
  }

  /** The input for which it fails: disableAll on a channel that is not registered registers it. */
  lemma DisableAllTogglesRegistration<Id>(s: State<Id>, id: Id)
    requires Inv(s) && id in s.chans
    ensures var t := Invoke(s, id, DisableAll);
            if s.chans[id].index == Added then s.chans[id].fd !in t.kernel
            else s.chans[id].fd in t.kernel && t.kernel[s.chans[id].fd] == Interest({}, id)
  {
    InvokeKeeps(s, id, DisableAll);
    var t := Invoke(s, id, DisableAll);
    assert Agrees(t.chans[id], id, t.channelMap, t.kernel);
  }

  /** So does disableAll as the first call on a new channel. */
  lemma NewChannelDisabled<Id>(id: Id, fd: Fd)
    ensures var s: State<Id> := Next(Empty(), Create(id, fd));
            && Reaches(Empty(), [Create(id, fd)], s)
            && var t := Invoke(s, id, DisableAll);
               fd in t.kernel && t.kernel[fd] == Interest({}, id)
  {
    var s: State<Id> := Next(Empty(), Create(id, fd));
    assert Reaches(s, [], s);
  }

  /** remove always unregisters, but events_ stays: a later enable asks for the old events too. */
  lemma RemoveForgetsNothing<Id>(s: State<Id>, id: Id)
    requires Inv(s) && id in s.chans
    ensures var t := Invoke(s, id, Remove);
            && s.chans[id].fd !in t.kernel && s.chans[id].fd !in t.channelMap
            && var u := Invoke(t, id, EnableReading);
               s.chans[id].fd in u.kernel && u.kernel[s.chans[id].fd] == Interest(s.chans[id].events + {EPOLLIN}, id)
  {
    var t := Invoke(s, id, Remove);
    InvokeKeeps(s, id, Remove);
    InvokeKeeps(t, id, EnableReading);
    var u := Invoke(t, id, EnableReading);
    assert Agrees(s.chans[id], id, s.channelMap, s.kernel);
    assert Agrees(t.chans[id], id, t.channelMap, t.kernel);
    assert Agrees(u.chans[id], id, u.channelMap, u.kernel);
  }
}
