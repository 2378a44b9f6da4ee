/**
 The I/O buffer of net/Buffer.h and net/Buffer.cc: one byte array, a read and a write index,
 and eight bytes of header room. It behaves as a plain byte sequence, Readable().
 */
module Buffers {
  import opened Octets
  import opened Sizes = BufferSizes
  import Endian

  // ---------------------------------------------------------------- searching

  /** Position of the first CRLF, as std::search finds it. */
  function FindCRLF(s: string): (r: Option<nat>)
    ensures r.Some? ==> r.value + 2 <= |s| && s[r.value] == '\r' && s[r.value + 1] == '\n'
    ensures forall i :: 0 <= i && i + 1 < |s| && (r.Some? ==> i < r.value) ==> !(s[i] == '\r' && s[i + 1] == '\n')
  {
    if |s| < 2 then None
    else if s[0] == '\r' && s[1] == '\n' then Some(0)
    else
      match FindCRLF(s[1..])
      case None =>
        assert forall i :: 0 < i && i + 1 < |s| ==> s[i] == s[1..][i - 1] && s[i + 1] == s[1..][i];
        None
      case Some(i) =>
        assert forall j :: 0 < j <= i ==> s[j] == s[1..][j - 1] && s[j + 1] == s[1..][j];
        Some(i + 1)
  }

  // ---------------------------------------------------------------- the class

  /** std::copy within one array: front to back, so the target must not lie to the right. */
  method CopyForward(a: array<octet>, from: nat, to: nat, count: nat)
    requires to <= from && from + count <= a.Length
    modifies a
    ensures a[to..to + count] == old(a[from..from + count])
    ensures a[..to] == old(a[..to])
  {
    for i := 0 to count
      invariant a[to..to + i] == old(a[from..from + i])
      invariant a[..to] == old(a[..to])
      invariant forall j :: from + i <= j < from + count ==> a[j] == old(a[j])
    {
      a[to + i] := a[from + i];
      assert a[to..to + i + 1] == a[to..to + i] + [a[to + i]];
    }
  }

  /** std::copy from elsewhere. */
  method CopyIn(a: array<octet>, src: Bytes, to: nat)
    requires to + |src| <= a.Length
    modifies a
    ensures a[to..to + |src|] == src
    ensures a[..to] == old(a[..to])
    ensures a[to + |src|..] == old(a[to + |src|..])
  {
    forall i | 0 <= i < |src| {
      a[to + i] := src[i];
    }
  }

  lemma JoinSlices(s: Bytes, i: nat, j: nat, k: nat)
    requires i <= j <= k <= |s|
    ensures s[i..k] == s[i..j] + s[j..k]
  {
  }

  lemma PrefixSlice(s: Bytes, t: Bytes, i: nat, j: nat)
    requires i <= j <= |s| && j <= |t| && s[..j] == t[..j]
    ensures s[i..j] == t[i..j]
  {
    assert s[i..j] == s[..j][i..] && t[i..j] == t[..j][i..];
  }

  datatype ReadResult = Got(data: Bytes) | ReadFailed(errno: int)
  datatype WriteResult = Wrote(n: nat) | WriteFailed(errno: int)

  class Buffer {
    var buff: array<octet>
    var readIndex: nat
    var writeIndex: nat

    ghost predicate Valid()
      reads this
    {
      Extent().Ok()
    }

    function Extent(): Shape
      reads this
    {
      Shape(buff.Length, readIndex, writeIndex)
    }

    /** The bytes from peek() to beginWrite(). */
    function Readable(): Bytes
      requires Valid()
      reads this, buff
    {
      buff[readIndex..writeIndex]
    }

    constructor ()
      ensures Valid() && fresh(buff) && Extent() == EMPTY && Readable() == []
    {
      buff := new octet[CHEAP_PREPEND](_ => '\0');
      readIndex, writeIndex := CHEAP_PREPEND, CHEAP_PREPEND;
    }

    method EnsureWriteable(len: nat)
      requires Valid()
      modifies this, buff
      ensures Valid() && (buff == old(buff) || fresh(buff))
      ensures Extent() == Sizes.EnsureWriteable(old(Extent()), len)
      ensures Readable() == old(Readable())
    {
      if buff.Length - writeIndex < len {
        if buff.Length - writeIndex + readIndex < len + CHEAP_PREPEND {
          var bigger := new octet[writeIndex + len](_ => '\0');
          forall i | 0 <= i < buff.Length {
            bigger[i] := buff[i];
          }
          buff := bigger;
        } else {
          var readableSize := writeIndex - readIndex;
          CopyForward(buff, readIndex, CHEAP_PREPEND, readableSize);
          readIndex := CHEAP_PREPEND;
          writeIndex := readIndex + readableSize;
        }
      }
    }

    method Append(src: Bytes)
      requires Valid()
      modifies this, buff
      ensures Valid() && (buff == old(buff) || fresh(buff))
      ensures Extent() == Sizes.Append(old(Extent()), |src|)
      ensures Readable() == old(Readable()) + src
    {
      EnsureWriteable(|src|);
      CopyToEnd(src);
    }

    /** Into the free space, followed by hasWritten(). */
    method CopyToEnd(src: Bytes)
      requires Valid() && |src| <= Extent().Writeable()
      modifies this`writeIndex, buff
      ensures Valid() && Extent() == old(Extent()).(write := old(writeIndex) + |src|)
      ensures Readable() == old(Readable()) + src
    {
      CopyIn(buff, src, writeIndex);
      PrefixSlice(old(buff[..]), buff[..], readIndex, writeIndex);
      JoinSlices(buff[..], readIndex, writeIndex, writeIndex + |src|);
      writeIndex := writeIndex + |src|;
    }

    method Prepend(src: Bytes)
      requires Valid() && |src| <= readIndex
      modifies this, buff
      ensures Valid() && buff == old(buff)
      ensures Extent() == old(Extent()).(read := old(readIndex) - |src|)
      ensures Readable() == src + old(Readable())
    {
      readIndex := readIndex - |src|;
      CopyIn(buff, src, readIndex);
      assert old(Readable()) == buff[old(readIndex)..][..writeIndex - old(readIndex)];
      JoinSlices(buff[..], readIndex, old(readIndex), writeIndex);
    }

    method Retrieve(len: nat)
      requires Valid() && len <= |Readable()|
      modifies this
      ensures Valid() && buff == old(buff) && buff[..] == old(buff[..])
      ensures Extent() == Sizes.Retrieve(old(Extent()), len)
      ensures Readable() == old(Readable())[len..]
    {
      if len < writeIndex - readIndex {
        readIndex := readIndex + len;
      } else {
        readIndex, writeIndex := CHEAP_PREPEND, CHEAP_PREPEND;
      }
    }

    /** read and readAsString: at most what is there. */
    method Read(len: nat) returns (result: Bytes)
      requires Valid()
      modifies this
      ensures Valid() && buff == old(buff) && buff[..] == old(buff[..])
      ensures var n := Min(len, |old(Readable())|);
              && result == old(Readable())[..n]
              && Readable() == old(Readable())[n..]
              && Extent() == Sizes.Retrieve(old(Extent()), n)
    {
      var n := if writeIndex - readIndex < len then writeIndex - readIndex else len;
      result := buff[readIndex..readIndex + n];
      assert result == Readable()[..n];
      hide Sizes.Retrieve;
      Retrieve(n);
    }

    /** prependInt8 to prependInt64, by width in bytes */
    method PrependInt(order: Endian.ByteOrder, x: nat, width: nat)
      requires Valid() && x < Endian.Pow256(width) && width <= readIndex
      modifies this, buff
      ensures Valid() && buff == old(buff)
      ensures Extent() == old(Extent()).(read := old(readIndex) - width)
      ensures Readable() == Endian.Digits(x, width) + old(Readable())
    {
      Endian.WireFormat(order, x, width);
      var bigInt := Endian.HostToNet(order, x, width);
      Prepend(Endian.Store(order, bigInt, width));
    }

    /** readUint8 to readUint64, by width in bytes */
    method ReadUint(order: Endian.ByteOrder, width: nat) returns (x: nat)
      requires Valid() && width <= |Readable()|
      modifies this
      ensures Valid() && buff == old(buff) && buff[..] == old(buff[..])
      ensures x == Endian.Value(old(Readable())[..width]) && x < Endian.Pow256(width)
      ensures Readable() == old(Readable())[width..]
    {
      hide Endian.NetToHost, Endian.Load, Endian.Value, Endian.Pow256, Sizes.Retrieve;
      ghost var wire := Readable()[..width];
      assert wire == buff[readIndex..readIndex + width];
      Endian.WireValue(order, wire);
      var netVal := Endian.Load(order, buff[readIndex..readIndex + width]);
      Retrieve(width);
      x := Endian.NetToHost(order, netVal, width);
    }

    /** Reading back what was just prepended gives the integer and leaves the content as it was. */
    method PrependThenRead(order: Endian.ByteOrder, x: nat, width: nat) returns (y: nat)
      requires Valid() && x < Endian.Pow256(width) && width <= readIndex
      modifies this, buff
      ensures Valid() && y == x && Readable() == old(Readable())
    {
      PrependInt(order, x, width);
      Endian.ValueOfDigits(x, width);
      y := ReadUint(order, width);
    }

    /** readv into the free space and, beyond it, into 64 KB on the stack. */
    method ReadFd(r: ReadResult) returns (n: int, savedErrno: int)
      requires Valid() && (r.Got? ==> |r.data| <= Extent().Writeable() + EXTRA)
      modifies this, buff
      ensures Valid() && (buff == old(buff) || fresh(buff))
      ensures r.Got? ==> n == |r.data| && Readable() == old(Readable()) + r.data && Extent() == Sizes.ReadFd(old(Extent()), |r.data|)
      ensures r.ReadFailed? ==> n < 0 && savedErrno == r.errno && Readable() == old(Readable()) && Extent() == old(Extent())
    {
      savedErrno := 0;
      var writeble := buff.Length - writeIndex;
      match r {
        case ReadFailed(errno) =>
          n := -1;
          savedErrno := errno;
        case Got(data) =>
          n := |data|;
          var direct := Min(|data|, writeble);
          CopyToEnd(data[..direct]);
          assert data[..direct] + data[direct..] == data;
          if n >= writeble {
            Append(data[direct..]);
          }
      }
    }

    /** write(2) of all that is readable; the kernel takes a prefix. */
    method WriteFd(r: WriteResult) returns (n: int, savedErrno: int, sent: Bytes)
      requires Valid() && (r.Wrote? ==> r.n <= |Readable()|)
      modifies this
      ensures Valid() && buff == old(buff) && buff[..] == old(buff[..])
      ensures sent + Readable() == old(Readable())
      ensures r.Wrote? ==> n == r.n == |sent| && savedErrno == 0
      ensures r.WriteFailed? ==> n < 0 && sent == [] && savedErrno == r.errno
    {
      savedErrno, sent := 0, [];
      match r {
        case WriteFailed(errno) =>
          n := -1;
          savedErrno := errno;
        case Wrote(k) =>
          n := k;
          sent := buff[readIndex..readIndex + k];
          Retrieve(k);
      }
    }
  }
}
