/**
 What every step of the timer queue keeps: the two ordered sets agree, every live timer is
 owned in exactly one way, every timer is deleted at most once, and callbacks are spaced.
 */
module TimerInvariant {
  import opened TimerModel

  type Heap = map<nat, Timer>

  /** The entries the current batch still owns. */
  function Owned(s: State): seq<Entry> {
    if s.phase == Resetting && s.next <= |s.expired| then s.expired[s.next..] else s.expired
  }

  /** The owned entries whose callback has been entered in this batch. */
  function Entered(s: State): seq<Entry> {
    if s.next > |s.expired| then []
    else match s.phase
      case Idle => []
      case Running => s.expired[..s.next]
      case InCallback => if s.next < |s.expired| then s.expired[..s.next + 1] else []
      case Resetting => s.expired[s.next..]
  }

  ghost predicate Shape(s: State) {
    && s.next <= |s.expired|
    && s.now <= s.clock
    && (s.phase == Idle ==> s.expired == [] && s.cancelling == {})
    && (s.phase == InCallback ==> s.next < |s.expired|)
  }

  // ---------------------------------------------------------------- ownership

  function EntryAt(h: Heap, a: nat): Entry
    requires a in h
  {
    Entry(h[a].expiration, a)
  }

  function KeyAt(h: Heap, a: nat): Key
    requires a in h
  {
    Key(h[a].sequence, a)
  }

  /** Every entry stands for a live timer and carries its current expiration. */
  ghost predicate Points(h: Heap, entries: seq<Entry>) {
    Sorted(entries) && forall e :: e in entries ==> e.timer in h && e == EntryAt(h, e.timer)
  }

  /** timers_ and activeTimers_ hold the same timers. */
  ghost predicate Agree(h: Heap, timers: seq<Entry>, active: set<Key>) {
    && (forall k :: k in active ==> k.timer in h && k == KeyAt(h, k.timer))
    && (forall a :: a in h ==> (KeyAt(h, a) in active <==> EntryAt(h, a) in timers))
  }

  ghost predicate ExactlyOne(p: bool, q: bool, r: bool) {
    (p || q || r) && !(p && q) && !(p && r) && !(q && r)
  }

  /** The live timer at `a` is posted, or active, or in the batch, and only one of these. */
  ghost predicate OwnedOnce(h: Heap, posted: set<nat>, timers: seq<Entry>, owned: seq<Entry>, a: nat)
    requires a in h
  {
    ExactlyOne(a in posted, EntryAt(h, a) in timers, EntryAt(h, a) in owned)
  }

  ghost predicate Unowned(h: Heap, posted: set<nat>, timers: seq<Entry>, owned: seq<Entry>, a: nat)
    requires a in h
  {
    a !in posted && EntryAt(h, a) !in timers && EntryAt(h, a) !in owned
  }

  /** Ownership; the timers in `loose` are between two owners. */
  ghost predicate Partition(h: Heap, posted: set<nat>, timers: seq<Entry>, owned: seq<Entry>, loose: set<nat>) {
    && posted <= h.Keys
    && forall a :: a in h ==>
         if a in loose then Unowned(h, posted, timers, owned, a) else OwnedOnce(h, posted, timers, owned, a)
  }

  lemma PointsAt(h: Heap, entries: seq<Entry>, e: Entry)
    requires Points(h, entries) && e in entries
    ensures e.timer in h && e == EntryAt(h, e.timer)
  {
  }

  lemma AgreeAt(h: Heap, timers: seq<Entry>, active: set<Key>, k: Key)
    requires Agree(h, timers, active) && k in active
    ensures k.timer in h && k == KeyAt(h, k.timer)
  {
  }

  // ---------------------------------------------------------------- accounting

  ghost predicate Distinct(f: seq<nat>) {
    forall i, j :: 0 <= i < j < |f| ==> f[i] != f[j]
  }

  /** Each timer created is alive or was deleted, once; no Timer is ever marked cancelled. */
  ghost predicate Accounted(h: Heap, created: nat, freed: seq<nat>) {
    && (forall a, b :: a in h && b in h && h[a].sequence == h[b].sequence ==> a == b)
    && (forall a :: a in h ==> 0 < a < UINTPTR_MAX && h[a].sequence < created && !h[a].cancelled)
    && (forall a :: a in h ==> h[a].sequence !in freed)
    && (forall n :: n in freed ==> n < created)
    && Distinct(freed)
    && |h| + |freed| == created
  }

  // ---------------------------------------------------------------- history

  /** Two runs of one timer, in order: it repeats, and its interval lies between the batches. */
  ghost predicate Spaced(r0: Run, r1: Run) {
    r0.interval == r1.interval && r0.interval > 0.0 && r0.now + Micro(r0.interval) <= r1.now
  }

  /** The timer t, which was run as r, is not due before its interval has passed. */
  ghost predicate SpacedFrom(r: Run, t: Timer) {
    r.interval == t.interval && t.Repeat() && r.now + Micro(t.interval) <= t.expiration
  }

  ghost predicate RunFits(h: Heap, entered: seq<Entry>, now: int, a: nat, r: Run)
    requires a in h
  {
    if EntryAt(h, a) in entered then r.interval == h[a].interval && r.now <= now else SpacedFrom(r, h[a])
  }

  /** What the runs so far mean for the timers alive, except for those in `loose`. */
  ghost predicate RunsFit(h: Heap, entered: seq<Entry>, now: int, runs: seq<Run>, loose: set<nat>) {
    forall a, r :: a in h && a !in loose && r in runs && r.sequence == h[a].sequence ==>
      RunFits(h, entered, now, a, r)
  }

  ghost predicate AllSpaced(runs: seq<Run>, created: nat) {
    && (forall r :: r in runs ==> r.sequence < created)
    && (forall i, j :: 0 <= i < j < |runs| && runs[i].sequence == runs[j].sequence ==> Spaced(runs[i], runs[j]))
  }

  function RunOf(h: Heap, e: Entry, now: int): Run
    requires e.timer in h
  {
    Run(h[e.timer].sequence, h[e.timer].interval, now)
  }

  /** The latest runs are those of the entered part of the batch, one each, in order. */
  ghost predicate BatchRuns(h: Heap, entered: seq<Entry>, now: int, runs: seq<Run>) {
    var k := |entered|;
    && k <= |runs|
    && forall i :: 0 <= i < k ==> entered[i].timer in h && runs[|runs| - k + i] == RunOf(h, entered[i], now)
  }

  // ---------------------------------------------------------------- the invariant

  ghost predicate Consistent(s: State, loose: set<nat>) {
    && Points(s.heap, s.timers)
    && Points(s.heap, Owned(s))
    && (forall e :: e in Owned(s) ==> e.expiration <= s.now)
    && Agree(s.heap, s.timers, s.active)
    && Partition(s.heap, s.posted, s.timers, Owned(s), loose)
  }

  ghost predicate History(s: State, loose: set<nat>) {
    && RunsFit(s.heap, Entered(s), s.now, s.runs, loose)
    && AllSpaced(s.runs, s.created)
    && (s.HandleTimer() ==> BatchRuns(s.heap, Entered(s), s.now, s.runs))
  }

  ghost predicate Inv(s: State) {
    Shape(s) && Consistent(s, {}) && Accounted(s.heap, s.created, s.freed) && History(s, {})
  }

  // ---------------------------------------------------------------- moves of one timer

  lemma NewPartition(h: Heap, posted: set<nat>, timers: seq<Entry>, owned: seq<Entry>, a: nat, t: Timer)
    requires a !in h && Points(h, timers) && Points(h, owned) && Partition(h, posted, timers, owned, {})
    ensures Points(h[a := t], timers) && Points(h[a := t], owned)
    ensures Partition(h[a := t], posted, timers, owned, {a})
  {
    var g := h[a := t];
    forall b | b in g
      ensures if b == a then Unowned(g, posted, timers, owned, b) else OwnedOnce(g, posted, timers, owned, b)
    {
      if b != a { assert OwnedOnce(h, posted, timers, owned, b); }
    }
  }

  lemma NewAgree(h: Heap, timers: seq<Entry>, active: set<Key>, a: nat, t: Timer)
    requires a !in h && Points(h, timers) && Agree(h, timers, active)
    ensures Agree(h[a := t], timers, active)
  {
    assert forall k :: k in active ==> k.timer != a;
  }

  lemma NewAccounted(h: Heap, created: nat, freed: seq<nat>, a: nat, t: Timer)
    requires a !in h && 0 < a < UINTPTR_MAX && Accounted(h, created, freed)
    requires t.sequence == created && !t.cancelled
    ensures Accounted(h[a := t], created + 1, freed)
  {
    var g := h[a := t];
    assert g.Keys == h.Keys + {a};
    forall b, c | b in g && c in g && g[b].sequence == g[c].sequence ensures b == c {
      if b != a && c != a { assert h[b].sequence == h[c].sequence; }
    }
    forall b | b in g
      ensures 0 < b < UINTPTR_MAX && g[b].sequence < created + 1 && !g[b].cancelled && g[b].sequence !in freed
    {
      if b != a { assert h[b].sequence !in freed; }
    }
    hide Distinct;
  }

  lemma NewHistory(h: Heap, entered: seq<Entry>, now: int, runs: seq<Run>, created: nat, a: nat, t: Timer)
    requires a !in h && t.sequence == created
    requires RunsFit(h, entered, now, runs, {}) && AllSpaced(runs, created)
    ensures RunsFit(h[a := t], entered, now, runs, {}) && AllSpaced(runs, created + 1)
    ensures BatchRuns(h, entered, now, runs) ==> BatchRuns(h[a := t], entered, now, runs)
  {
    var g := h[a := t];
    forall b, r | b in g && r in runs && r.sequence == g[b].sequence ensures RunFits(g, entered, now, b, r) {
      assert RunFits(h, entered, now, b, r);
    }
    if BatchRuns(h, entered, now, runs) {
      assert forall i :: 0 <= i < |entered| ==> entered[i].timer != a;
    }
  }

  lemma NewTimerKeeps(s: State, a: nat, when: int, interval: real)
    requires Inv(s) && Allocatable(s, a)
    ensures var t := NewTimer(s, a, when, interval);
            Shape(t) && Consistent(t, {a}) && Accounted(t.heap, t.created, t.freed) && History(t, {})
  {
    hide Points, Agree, Partition, Accounted, RunsFit, AllSpaced, BatchRuns;
    var t := NewTimer(s, a, when, interval);
    NewPartition(s.heap, s.posted, s.timers, Owned(s), a, t.heap[a]);
    NewAgree(s.heap, s.timers, s.active, a, t.heap[a]);
    NewAccounted(s.heap, s.created, s.freed, a, t.heap[a]);
    NewHistory(s.heap, Entered(s), s.now, s.runs, s.created, a, t.heap[a]);
  }

  lemma AddPartition(h: Heap, posted: set<nat>, timers: seq<Entry>, active: set<Key>, owned: seq<Entry>, a: nat)
    requires a in h && Points(h, timers) && Agree(h, timers, active) && Partition(h, posted, timers, owned, {a})
    ensures var e := EntryAt(h, a);
            && Points(h, Insert(timers, e)) && Agree(h, Insert(timers, e), active + {KeyAt(h, a)})
            && Partition(h, posted, Insert(timers, e), owned, {})
  {
    var e := EntryAt(h, a);
    InsertSpec(timers, e);
    assert Unowned(h, posted, timers, owned, a);
    forall b | b in h ensures OwnedOnce(h, posted, Insert(timers, e), owned, b) {
      if b != a { assert OwnedOnce(h, posted, timers, owned, b); }
    }
  }

  lemma AddKeeps(s: State, a: nat)
    requires a in s.heap
    requires Shape(s) && Consistent(s, {a}) && Accounted(s.heap, s.created, s.freed) && History(s, {})
    ensures Inv(AddTimerInLoop(s, a))
  {
    hide Points, Agree, Partition, Accounted, RunsFit, AllSpaced, BatchRuns, Insert;
    AddPartition(s.heap, s.posted, s.timers, s.active, Owned(s), a);
    var t := AddTimerInLoop(s, a);
    assert Owned(t) == Owned(s) && Entered(t) == Entered(s);
  }

  lemma PostPartition(h: Heap, posted: set<nat>, timers: seq<Entry>, owned: seq<Entry>, a: nat)
    requires a in h
    ensures Partition(h, posted, timers, owned, {a}) ==> Partition(h, posted + {a}, timers, owned, {})
    ensures a in posted && Partition(h, posted, timers, owned, {}) ==> Partition(h, posted - {a}, timers, owned, {a})
  {
    if Partition(h, posted, timers, owned, {a}) {
      forall b | b in h ensures OwnedOnce(h, posted + {a}, timers, owned, b) {
        if b != a { assert OwnedOnce(h, posted, timers, owned, b); }
        else { assert Unowned(h, posted, timers, owned, b); }
      }
    }
    if a in posted && Partition(h, posted, timers, owned, {}) {
      forall b | b in h
        ensures if b == a then Unowned(h, posted - {a}, timers, owned, b)
                else OwnedOnce(h, posted - {a}, timers, owned, b)
      {
        assert OwnedOnce(h, posted, timers, owned, b);
      }
    }
  }

  lemma DeletePartition(h: Heap, posted: set<nat>, timers: seq<Entry>, active: set<Key>, owned: seq<Entry>, a: nat)
    requires a in h && Points(h, timers) && Points(h, owned) && Agree(h, timers, active)
    requires Partition(h, posted, timers, owned, {a})
    ensures Points(h - {a}, timers) && Points(h - {a}, owned) && Agree(h - {a}, timers, active)
    ensures Partition(h - {a}, posted, timers, owned, {})
  {
    var g := h - {a};
    assert Unowned(h, posted, timers, owned, a);
    forall b | b in g ensures OwnedOnce(g, posted, timers, owned, b) {
      assert OwnedOnce(h, posted, timers, owned, b);
    }
  }

  lemma DeleteAccounted(h: Heap, created: nat, freed: seq<nat>, a: nat)
    requires a in h && Accounted(h, created, freed)
    ensures Accounted(h - {a}, created, freed + [h[a].sequence])
  {
    assert (h - {a}).Keys == h.Keys - {a};
    assert |h.Keys - {a}| == |h| - 1;
  }

  lemma DeleteHistory(h: Heap, entered: seq<Entry>, now: int, runs: seq<Run>, a: nat)
    requires a in h && RunsFit(h, entered, now, runs, {a})
    ensures RunsFit(h - {a}, entered, now, runs, {})
    ensures BatchRuns(h, entered, now, runs) && (forall e :: e in entered ==> e.timer != a)
            ==> BatchRuns(h - {a}, entered, now, runs)
  {
    var g := h - {a};
    forall b, r | b in g && r in runs && r.sequence == g[b].sequence ensures RunFits(g, entered, now, b, r) {
      assert RunFits(h, entered, now, b, r);
    }
    if BatchRuns(h, entered, now, runs) && forall e :: e in entered ==> e.timer != a {
      assert forall i :: 0 <= i < |entered| ==> entered[i] in entered;
    }
  }

  lemma DeleteKeeps(s: State, a: nat)
    requires a in s.heap
    requires Shape(s) && Consistent(s, {a}) && Accounted(s.heap, s.created, s.freed) && History(s, {a})
    requires s.HandleTimer() ==> forall e :: e in Entered(s) ==> e.timer != a
    ensures Inv(Delete(s, a))
  {
    hide Points, Agree, Partition, Accounted, RunsFit, AllSpaced, BatchRuns;
    DeletePartition(s.heap, s.posted, s.timers, s.active, Owned(s), a);
    DeleteAccounted(s.heap, s.created, s.freed, a);
    DeleteHistory(s.heap, Entered(s), s.now, s.runs, a);
  }

  // ---------------------------------------------------------------- steps

  lemma PostKeeps(s: State, a: nat, when: int, interval: real)
    requires Inv(s) && Enabled(s, Post(a, when, interval))
    ensures Inv(Next(s, Post(a, when, interval)))
  {
    hide Points, Agree, Partition, Accounted, RunsFit, AllSpaced, BatchRuns;
    NewTimerKeeps(s, a, when, interval);
    var t := NewTimer(s, a, when, interval);
    PostPartition(t.heap, t.posted, t.timers, Owned(t), a);
  }

  lemma RunPostedKeeps(s: State, a: nat)
    requires Inv(s) && Enabled(s, RunPosted(a)) && Safe(s, RunPosted(a))
    ensures Inv(Next(s, RunPosted(a)))
  {
    hide Points, Agree, Partition, Accounted, RunsFit, AllSpaced, BatchRuns;
    PostPartition(s.heap, s.posted, s.timers, Owned(s), a);
    AddKeeps(s.(posted := s.posted - {a}), a);
  }

  lemma AddHereKeeps(s: State, a: nat, when: int, interval: real)
    requires Inv(s) && Enabled(s, AddHere(a, when, interval))
    ensures Inv(Next(s, AddHere(a, when, interval)))
  {
    hide Points, Agree, Partition, Accounted, RunsFit, AllSpaced, BatchRuns;
    NewTimerKeeps(s, a, when, interval);
    AddKeeps(NewTimer(s, a, when, interval), a);
  }

  lemma DetachPartition(h: Heap, posted: set<nat>, timers: seq<Entry>, active: set<Key>, owned: seq<Entry>, a: nat)
    requires a in h && Points(h, timers) && Agree(h, timers, active) && Partition(h, posted, timers, owned, {})
    requires KeyAt(h, a) in active
    ensures var e := EntryAt(h, a);
            && Points(h, Erase(timers, e)) && Agree(h, Erase(timers, e), active - {KeyAt(h, a)})
            && Partition(h, posted, Erase(timers, e), owned, {a})
            && e !in owned
  {
    var e := EntryAt(h, a);
    EraseSpec(timers, e);
    assert OwnedOnce(h, posted, timers, owned, a);
    forall b | b in h
      ensures if b == a then Unowned(h, posted, Erase(timers, e), owned, b)
              else OwnedOnce(h, posted, Erase(timers, e), owned, b)
    {
      assert OwnedOnce(h, posted, timers, owned, b);
    }
  }

  lemma EnteredAreOwned(s: State)
    requires Shape(s)
    ensures forall e :: e in Entered(s) ==> e in Owned(s)
  {
  }

  lemma RunsFitLess(h: Heap, entered: seq<Entry>, now: int, runs: seq<Run>, a: nat)
    requires RunsFit(h, entered, now, runs, {})
    ensures RunsFit(h, entered, now, runs, {a})
  {
  }

  lemma CancelKeeps(s: State, id: TimerId)
    requires Inv(s) && Enabled(s, Cancel(id)) && Safe(s, Cancel(id))
    ensures Inv(Next(s, Cancel(id)))
  {
    hide Points, Agree, Partition, Accounted, RunsFit, AllSpaced, BatchRuns;
    if Key(id.sequence, id.timer) in s.active {
      var a := id.timer;
      AgreeAt(s.heap, s.timers, s.active, Key(id.sequence, a));
      DetachPartition(s.heap, s.posted, s.timers, s.active, Owned(s), a);
      EnteredAreOwned(s);
      forall e | e in Entered(s) ensures e.timer != a {
        PointsAt(s.heap, Owned(s), e);
      }
      RunsFitLess(s.heap, Entered(s), s.now, s.runs, a);
      DeleteKeeps(s.(timers := Erase(s.timers, s.EntryOf(a)), active := s.active - {s.KeyOf(a)}), a);
    }
  }

  /** The sentinel splits timers_ exactly at the current time. */
  lemma DueIsExact(s: State)
    requires Sorted(s.timers) && forall e :: e in s.timers ==> e.timer < UINTPTR_MAX
    ensures forall i :: 0 <= i < |s.timers| ==> (i < Due(s) <==> s.timers[i].expiration <= s.now)
  {
    var n := Due(s);
    forall i | 0 <= i < |s.timers| ensures i < n <==> s.timers[i].expiration <= s.now {
      assert s.timers[i] in s.timers;
      if n < i { assert Less(s.timers[n], s.timers[i]); assert s.timers[n] in s.timers; }
    }
  }

  lemma SplitPartition(h: Heap, posted: set<nat>, timers: seq<Entry>, active: set<Key>, n: nat)
    requires n <= |timers| && Points(h, timers) && Agree(h, timers, active) && Partition(h, posted, timers, [], {})
    ensures Points(h, timers[..n]) && Points(h, timers[n..])
    ensures Partition(h, posted, timers[n..], timers[..n], {})
    ensures (forall e :: e in timers[..n] ==> e.timer in h)
         && Agree(h, timers[n..], active - set e | e in timers[..n] :: KeyAt(h, e.timer))
  {
    var batch, rest := timers[..n], timers[n..];
    assert timers == batch + rest;
    assert forall e :: e in timers <==> e in batch || e in rest;
    assert forall e :: e in batch ==> e !in rest by {
      forall e | e in batch ensures e !in rest {
        var i :| 0 <= i < n && timers[i] == e;
        assert forall j :: n <= j < |timers| ==> Less(timers[i], timers[j]);
      }
    }
    var gone := set e | e in batch :: KeyAt(h, e.timer);
    forall a | a in h ensures KeyAt(h, a) in active - gone <==> EntryAt(h, a) in rest {
      if KeyAt(h, a) in gone {
        var e :| e in batch && KeyAt(h, e.timer) == KeyAt(h, a);
        assert e == EntryAt(h, a);
      }
    }
    forall a | a in h ensures OwnedOnce(h, posted, rest, batch, a) {
      assert OwnedOnce(h, posted, timers, [], a);
    }
  }

  /** Nothing has been entered in the new batch, so all runs lie an interval back. */
  lemma BeginHistory(h: Heap, now: int, later: int, runs: seq<Run>)
    requires RunsFit(h, [], now, runs, {})
    ensures RunsFit(h, [], later, runs, {}) && BatchRuns(h, [], later, runs)
  {
    forall b, r | b in h && r in runs && r.sequence == h[b].sequence ensures RunFits(h, [], later, b, r) {
      assert RunFits(h, [], now, b, r);
    }
  }

  lemma BatchIsDue(s: State)
    requires Points(s.heap, s.timers) && forall a :: a in s.heap ==> a < UINTPTR_MAX
    ensures forall e :: e in s.timers[..Due(s)] ==> e.expiration <= s.now
    ensures forall e :: e in s.timers[Due(s)..] ==> s.now < e.expiration
  {
    DueIsExact(s);
  }

  lemma AccountedAddresses(h: Heap, created: nat, freed: seq<nat>)
    requires Accounted(h, created, freed)
    ensures forall a :: a in h ==> a < UINTPTR_MAX && !h[a].cancelled
  {
  }

  lemma BeginKeeps(s: State)
    requires Inv(s) && Enabled(s, Begin) && Safe(s, Begin)
    ensures Inv(Next(s, Begin))
  {
    hide Points, Agree, Partition, Accounted, RunsFit, AllSpaced, BatchRuns;
    var read := if s.Readable() then s.(fd := Disarmed) else s;
    var s1 := read.(now := s.clock, phase := Running, next := 0);
    AccountedAddresses(s.heap, s.created, s.freed);
    BatchIsDue(s1);
    SplitPartition(s.heap, s.posted, s.timers, s.active, Due(s1));
    BeginHistory(s.heap, s.now, s.clock, s.runs);
    var t := GetExpired(s1);
    assert Next(s, Begin) == t;
    assert Entered(t) == [] && Owned(t) == s.timers[..Due(s1)] && t.timers == s.timers[Due(s1)..];
    assert t.active == s.active - set e | e in s.timers[..Due(s1)] :: KeyAt(s.heap, e.timer);
  }

  lemma MicroNonNegative(interval: real)
    requires interval > 0.0
    ensures 0 <= Micro(interval)
  {
    assert interval * 1000000.0 > 0.0;
  }

  /** Earlier runs of the timer that is entered now lie its interval back. */
  lemma StartSpaced(h: Heap, entered: seq<Entry>, e: Entry, now: int, runs: seq<Run>, created: nat, freed: seq<nat>)
    requires e.timer in h && e == EntryAt(h, e.timer) && e !in entered && e.expiration <= now
    requires Accounted(h, created, freed) && RunsFit(h, entered, now, runs, {}) && AllSpaced(runs, created)
    ensures AllSpaced(runs + [RunOf(h, e, now)], created)
  {
    var r1 := RunOf(h, e, now);
    forall r | r in runs && r.sequence == r1.sequence ensures Spaced(r, r1) {
      assert RunFits(h, entered, now, e.timer, r);
    }
  }

  lemma StartFits(h: Heap, entered: seq<Entry>, e: Entry, now: int, runs: seq<Run>, created: nat, freed: seq<nat>)
    requires e.timer in h && e == EntryAt(h, e.timer) && e !in entered && e.expiration <= now
    requires Accounted(h, created, freed) && RunsFit(h, entered, now, runs, {})
    ensures RunsFit(h, entered + [e], now, runs + [RunOf(h, e, now)], {})
  {
    forall b, r | b in h && r in runs + [RunOf(h, e, now)] && r.sequence == h[b].sequence
      ensures RunFits(h, entered + [e], now, b, r)
    {
      if r in runs {
        assert RunFits(h, entered, now, b, r);
        if b == e.timer && h[b].Repeat() { MicroNonNegative(h[b].interval); }
      } else {
        assert b == e.timer && e in entered + [e];
      }
    }
  }

  lemma StartBatchRuns(h: Heap, entered: seq<Entry>, e: Entry, now: int, runs: seq<Run>)
    requires e.timer in h && BatchRuns(h, entered, now, runs)
    ensures BatchRuns(h, entered + [e], now, runs + [RunOf(h, e, now)])
  {
  }

  lemma NextNotEntered(s: State)
    requires s.phase == Running && s.next < |s.expired| && Points(s.heap, s.expired)
    ensures s.expired[s.next] !in Entered(s)
  {
  }

  lemma StartKeeps(s: State)
    requires Inv(s) && Enabled(s, Start) && Safe(s, Start)
    ensures Inv(Next(s, Start))
    ensures Next(s, Start).phase == InCallback
  {
    hide Points, Agree, Partition, Accounted, RunsFit, AllSpaced, BatchRuns;
    var t := Next(s, Start);
    var e := s.expired[s.next];
    assert e in Owned(s);
    PointsAt(s.heap, Owned(s), e);
    NextNotEntered(s);
    AccountedAddresses(s.heap, s.created, s.freed);
    StartSpaced(s.heap, Entered(s), e, s.now, s.runs, s.created, s.freed);
    StartFits(s.heap, Entered(s), e, s.now, s.runs, s.created, s.freed);
    StartBatchRuns(s.heap, Entered(s), e, s.now, s.runs);
    assert Entered(t) == Entered(s) + [e];
  }

  lemma EndKeeps(s: State)
    requires Inv(s) && Enabled(s, End)
    ensures Inv(Next(s, End))
  {
    hide Points, Agree, Partition, Accounted, RunsFit, AllSpaced, BatchRuns;
  }

  lemma StartResetKeeps(s: State)
    requires Inv(s) && Enabled(s, StartReset)
    ensures Inv(Next(s, StartReset))
  {
    hide Points, Agree, Partition, Accounted, RunsFit, AllSpaced, BatchRuns;
    var t := Next(s, StartReset);
    assert Owned(t) == s.expired && Entered(t) == s.expired && Entered(s) == s.expired;
  }

  lemma FinishKeeps(s: State)
    requires Inv(s) && Enabled(s, Finish)
    ensures Inv(Next(s, Finish))
  {
    hide Points, Agree, Partition, Accounted, RunsFit, AllSpaced, BatchRuns;
    var t := Next(s, Finish);
    assert Owned(t) == [] && Owned(s) == [] && Entered(s) == [];
  }

  lemma PopPartition(h: Heap, posted: set<nat>, timers: seq<Entry>, owned: seq<Entry>)
    requires owned != [] && Points(h, owned) && Partition(h, posted, timers, owned, {})
    ensures Points(h, owned[1..]) && Partition(h, posted, timers, owned[1..], {owned[0].timer})
  {
    var e := owned[0];
    assert owned == [e] + owned[1..] && e in owned;
    assert e !in owned[1..];
    forall b | b in h
      ensures if b == e.timer then Unowned(h, posted, timers, owned[1..], b)
              else OwnedOnce(h, posted, timers, owned[1..], b)
    {
      assert OwnedOnce(h, posted, timers, owned, b);
    }
  }

  lemma PopHistory(h: Heap, owned: seq<Entry>, now: int, runs: seq<Run>)
    requires owned != [] && RunsFit(h, owned, now, runs, {})
    ensures RunsFit(h, owned[1..], now, runs, {owned[0].timer})
  {
    assert owned == [owned[0]] + owned[1..];
    forall b, r | b in h && b != owned[0].timer && r in runs && r.sequence == h[b].sequence
      ensures RunFits(h, owned[1..], now, b, r)
    {
      assert RunFits(h, owned, now, b, r);
    }
  }

  lemma RestartPartition(h: Heap, posted: set<nat>, timers: seq<Entry>, active: set<Key>, owned: seq<Entry>, a: nat, t: Timer)
    requires a in h && t.sequence == h[a].sequence
    requires Points(h, timers) && Points(h, owned) && Agree(h, timers, active)
    requires Partition(h, posted, timers, owned, {a})
    ensures var g := h[a := t];
            Points(g, timers) && Points(g, owned) && Agree(g, timers, active) && Partition(g, posted, timers, owned, {a})
  {
    var g := h[a := t];
    assert Unowned(h, posted, timers, owned, a);
    assert forall e :: e in timers || e in owned ==> e.timer != a;
    forall b | b in g
      ensures if b == a then Unowned(g, posted, timers, owned, b) else OwnedOnce(g, posted, timers, owned, b)
    {
      if b != a { assert OwnedOnce(h, posted, timers, owned, b); }
    }
  }

  lemma RestartAccounted(h: Heap, created: nat, freed: seq<nat>, a: nat, t: Timer)
    requires a in h && t.sequence == h[a].sequence && t.cancelled == h[a].cancelled && Accounted(h, created, freed)
    ensures Accounted(h[a := t], created, freed)
  {
    assert h[a := t].Keys == h.Keys;
  }

  lemma RestartHistory(h: Heap, owned: seq<Entry>, now: int, runs: seq<Run>, a: nat, created: nat, freed: seq<nat>)
    requires a in h && h[a].Repeat() && Accounted(h, created, freed)
    requires owned != [] && owned[0] == EntryAt(h, a) && Points(h, owned)
    requires RunsFit(h, owned, now, runs, {})
    ensures RunsFit(h[a := h[a].Restart(now)], owned[1..], now, runs, {})
  {
    var g := h[a := h[a].Restart(now)];
    PopHistory(h, owned, now, runs);
    forall b, r | b in g && r in runs && r.sequence == g[b].sequence ensures RunFits(g, owned[1..], now, b, r) {
      assert RunFits(h, owned, now, b, r);
      if b == a {
        assert owned[0] in owned;
        assert forall e :: e in owned[1..] ==> e.timer != a by {
          assert forall i :: 0 < i < |owned| ==> Less(owned[0], owned[i]);
          assert forall i :: 0 < i < |owned| ==> owned[i] in owned;
        }
      } else {
        assert RunFits(h, owned[1..], now, b, r);
      }
    }
  }

  /** The entry that reset turns to is let go by the batch. */
  lemma ResetPops(s: State)
    requires Inv(s) && Enabled(s, ResetNext)
    ensures var a := s.expired[s.next].timer;
            var s1 := s.(next := s.next + 1);
            && a in s.heap && Owned(s) != [] && Owned(s)[0] == s.EntryOf(a)
            && Owned(s1) == Owned(s)[1..] && Entered(s1) == Owned(s)[1..] && Entered(s) == Owned(s)
            && Shape(s1) && Consistent(s1, {a}) && History(s1, {a})
  {
    hide Points, Agree, Partition, Accounted, RunsFit, AllSpaced, BatchRuns;
    var owned := Owned(s);
    var s1 := s.(next := s.next + 1);
    assert owned[0] == s.expired[s.next] && owned[0] in owned;
    PointsAt(s.heap, owned, owned[0]);
    assert Owned(s1) == owned[1..];
    PopPartition(s.heap, s.posted, s.timers, owned);
    PopHistory(s.heap, owned, s.now, s.runs);
  }

  /** A repeating timer goes back into both sets. */
  lemma ResetRestartKeeps(s: State)
    requires Inv(s) && Enabled(s, ResetNext)
    requires var a := s.expired[s.next].timer;
             a in s.heap && s.heap[a].Repeat() && s.KeyOf(a) !in s.cancelling && !s.heap[a].cancelled
    ensures Inv(Next(s, ResetNext))
  {
    hide Points, Agree, Partition, Accounted, RunsFit, AllSpaced, BatchRuns, Insert, Micro;
    var a := s.expired[s.next].timer;
    var t := s.heap[a].Restart(s.now);
    var s2 := s.(next := s.next + 1, heap := s.heap[a := t]);
    ResetPops(s);
    RestartPartition(s.heap, s.posted, s.timers, s.active, Owned(s)[1..], a, t);
    RestartAccounted(s.heap, s.created, s.freed, a, t);
    RestartHistory(s.heap, Owned(s), s.now, s.runs, a, s.created, s.freed);
    AddPartition(s2.heap, s.posted, s.timers, s.active, Owned(s)[1..], a);
    assert Next(s, ResetNext) == s2.(timers := Insert(s.timers, s2.EntryOf(a)), active := s.active + {s2.KeyOf(a)});
  }

  lemma ResetNextKeeps(s: State)
    requires Inv(s) && Enabled(s, ResetNext) && Safe(s, ResetNext)
    ensures Inv(Next(s, ResetNext))
  {
    hide Points, Agree, Partition, Accounted, RunsFit, AllSpaced, BatchRuns;
    var a := s.expired[s.next].timer;
    if s.KeyOf(a) !in s.cancelling && !s.heap[a].cancelled && s.heap[a].Repeat() {
      ResetRestartKeeps(s);
    } else {
      ResetPops(s);
      DeleteKeeps(s.(next := s.next + 1), a);
    }
  }

  // ---------------------------------------------------------------- all steps, all runs

  /** No reachable step dereferences a deleted timer. */
  lemma StepsAreSafe(s: State, l: Label)
    requires Inv(s) && Enabled(s, l)
    ensures Safe(s, l)
  {
    match l
    case Start => assert s.expired[s.next] in Owned(s);
    case ResetNext => assert Owned(s)[0] == s.expired[s.next] && Owned(s)[0] in Owned(s);
    case _ =>
  }

  lemma ClockKeeps(s: State, l: Label)
    requires Inv(s) && Enabled(s, l) && Safe(s, l) && (l.Tick? || l.Lag?)
    ensures Inv(Next(s, l))
  {
    hide Points, Agree, Partition, Accounted, RunsFit, AllSpaced, BatchRuns;
  }

  lemma StepKeeps(s: State, l: Label)
    requires Inv(s) && Enabled(s, l) && Safe(s, l)
    ensures Inv(Next(s, l))
  {
    hide *;
    match l
    case Tick(_) => ClockKeeps(s, l);
    case Lag(_) => ClockKeeps(s, l);
    case Post(a, when, interval) => PostKeeps(s, a, when, interval);
    case RunPosted(a) => RunPostedKeeps(s, a);
    case AddHere(a, when, interval) => AddHereKeeps(s, a, when, interval);
    case Cancel(id) => CancelKeeps(s, id);
    case Begin => BeginKeeps(s);
    case Start => StartKeeps(s);
    case End => EndKeeps(s);
    case StartReset => StartResetKeeps(s);
    case ResetNext => ResetNextKeeps(s);
    case Finish => FinishKeeps(s);
  }

  lemma {:induction false} RunsKeep(s: State, ls: seq<Label>, t: State)
    requires Inv(s) && Reaches(s, ls, t)
    ensures Inv(t)
    decreases |ls|
  {
    if ls != [] {
      StepKeeps(s, ls[0]);
      RunsKeep(Next(s, ls[0]), ls[1..], t);
    }
  }

  /** Ownership and accounting hold in every reachable state, also in the middle of a batch. */
  lemma Reachable(clock: int, ls: seq<Label>, t: State)
    requires Reaches(Initial(clock), ls, t)
    ensures Inv(t)
    ensures forall l :: Enabled(t, l) ==> Safe(t, l)
  {
    var s := Initial(clock);
    assert Owned(s) == [] && Entered(s) == [];
    RunsKeep(s, ls, t);
    forall l | Enabled(t, l) ensures Safe(t, l) {
      StepsAreSafe(t, l);
    }
  }
}
