/** The space management of net/Buffer.cc: growth, compaction, and how much they cost. */
module BufferSizes {
  const CHEAP_PREPEND: nat := 8
  const EXTRA: nat := 65536

  /** buff_.size(), readIndex_ and writeIndex_ */
  datatype Shape = Shape(size: nat, read: nat, write: nat) {
    predicate Ok() {
      CHEAP_PREPEND <= size && read <= write <= size
    }
    function Readable(): nat
      requires Ok()
    {
      write - read
    }
    function Writeable(): nat
      requires Ok()
    {
      size - write
    }
  }

  const EMPTY := Shape(CHEAP_PREPEND, CHEAP_PREPEND, CHEAP_PREPEND)

  function EnsureWriteable(sh: Shape, len: nat): (r: Shape)
    requires sh.Ok()
    ensures r.Ok() && r.Readable() == sh.Readable() && len <= r.Writeable()
  {
    if len <= sh.Writeable() then sh
    else if sh.Writeable() + sh.read < len + CHEAP_PREPEND then sh.(size := sh.write + len)
    else sh.(read := CHEAP_PREPEND, write := CHEAP_PREPEND + sh.Readable())
  }

  function Append(sh: Shape, len: nat): (r: Shape)
    requires sh.Ok()
    ensures r.Ok() && r.Readable() == sh.Readable() + len
  {
    var e := EnsureWriteable(sh, len);
    e.(write := e.write + len)
  }

  function Retrieve(sh: Shape, len: nat): (r: Shape)
    requires sh.Ok() && len <= sh.Readable()
    ensures r.Ok() && r.Readable() == sh.Readable() - len
  {
    if len < sh.Readable() then sh.(read := sh.read + len)
    else sh.(read := CHEAP_PREPEND, write := CHEAP_PREPEND)
  }

  function ReadFd(sh: Shape, n: nat): (r: Shape)
    requires sh.Ok()
    ensures r.Ok() && r.Readable() == sh.Readable() + n
  {
    if n < sh.Writeable() then sh.(write := sh.write + n)
    else Append(sh.(write := sh.size), n - sh.Writeable())
  }

  /** The operations of the class, by their effect on the sizes. */
  datatype Op = Appended(len: nat) | Prepended(len: nat) | Retrieved(len: nat) | ReadFrom(n: nat)

  /** What the assertions of the class demand of its callers. */
  predicate Allowed(sh: Shape, op: Op)
    requires sh.Ok()
  {
    match op
    case Prepended(len) => len <= sh.read
    case Retrieved(len) => len <= sh.Readable()
    case _ => true
  }

  function Apply(sh: Shape, op: Op): (r: Shape)
    requires sh.Ok() && Allowed(sh, op)
    ensures r.Ok()
  {
    match op
    case Appended(len) => Append(sh, len)
    case Prepended(len) => sh.(read := sh.read - len)
    case Retrieved(len) => Retrieve(sh, len)
    case ReadFrom(n) => ReadFd(sh, n)
  }

  /** From sh the operations lead to r, and at no time were more than `peak` bytes readable. */
  ghost predicate Leads(sh: Shape, ops: seq<Op>, r: Shape, peak: nat)
    requires sh.Ok()
    decreases |ops|
  {
    && sh.Readable() <= peak
    && if ops == [] then r == sh
       else Allowed(sh, ops[0]) && Leads(Apply(sh, ops[0]), ops[1..], r, peak)
  }

  ghost predicate Bounded(sh: Shape, peak: nat) {
    sh.size == CHEAP_PREPEND || sh.size <= 2 * peak + 7
  }

  /** Growth is never more than what the fresh data makes unavoidable, twice over. */
  lemma AppendBound(sh: Shape, len: nat, peak: nat)
    requires sh.Ok() && Bounded(sh, peak) && sh.Readable() + len <= peak
    ensures Bounded(Append(sh, len), peak)
  {
    if sh.Writeable() < len && sh.Writeable() + sh.read < len + CHEAP_PREPEND {
      assert sh.write + len <= 2 * len + 7 + sh.Readable();
    }
  }

  /** The buffer never takes more than twice the most it had to hold, and seven bytes. */
  lemma {:induction false} SpaceBound(sh: Shape, ops: seq<Op>, r: Shape, peak: nat)
    requires sh.Ok() && Bounded(sh, peak) && Leads(sh, ops, r, peak)
    ensures r.Ok() && Bounded(r, peak)
    decreases |ops|
  {
    if ops != [] {
      var next := Apply(sh, ops[0]);
      assert next.Readable() <= peak by { assert Leads(next, ops[1..], r, peak); }
      match ops[0] {
        case Appended(len) => AppendBound(sh, len, peak);
        case ReadFrom(n) =>
          if sh.Writeable() <= n { AppendBound(sh.(write := sh.size), n - sh.Writeable(), peak); }
        case _ =>
      }
      SpaceBound(next, ops[1..], r, peak);
    }
  }

  /** Over any history of a new buffer, its array is at most twice the peak content plus eight. */
  lemma NewBufferSpace(ops: seq<Op>, r: Shape, peak: nat)
    requires Leads(EMPTY, ops, r, peak)
    ensures r.Ok() && r.size <= 2 * peak + 8
  {
    SpaceBound(EMPTY, ops, r, peak);
  }

  /** Compaction happens only behind the header room, so it moves the data to the left. */
  lemma CompactionMovesLeft(sh: Shape, len: nat)
    requires sh.Ok() && sh.Writeable() < len && EnsureWriteable(sh, len).size == sh.size
    ensures CHEAP_PREPEND < sh.read
    ensures EnsureWriteable(sh, len).read < sh.read
  {
  }

  /** A new buffer is its eight bytes of header room; one that is emptied goes back to there. */
  lemma EmptyBufferStartsOver(sh: Shape)
    requires sh.Ok()
    ensures EMPTY == Shape(8, 8, 8)
    ensures Retrieve(sh, sh.Readable()) == Shape(sh.size, 8, 8)
    ensures forall len: nat :: len < sh.Readable() ==> Retrieve(sh, len) == Shape(sh.size, sh.read + len, sh.write)
  {
  }

  /**
   When room is made: nothing happens if there is enough; the content moves back to the eight bytes
   of header room if that gives enough; otherwise the array grows, at its end and by just enough.
   */
  lemma RoomIsMadeExactly(sh: Shape, len: nat)
    requires sh.Ok()
    ensures EnsureWriteable(sh, len) ==
            if sh.write + len <= sh.size then sh
            else if 8 + (sh.write - sh.read) + len <= sh.size then Shape(sh.size, 8, 8 + (sh.write - sh.read))
            else Shape(sh.write + len, sh.read, sh.write)
  {
  }
}
