/** Byte order conversions of net/Endian.h, for a host of either byte order. */
module Endian {
  import opened Octets

  datatype ByteOrder = Little | Big

  function Pow256(n: nat): (p: nat)
    ensures p > 0
  {
    if n == 0 then 1 else 256 * Pow256(n - 1)
  }

  /** The n low bytes of v, most significant first: the format on the wire. */
  function Digits(v: nat, n: nat): (s: Bytes)
    ensures |s| == n
  {
    if n == 0 then [] else Digits(v / 256, n - 1) + [(v % 256) as char]
  }

  function Value(s: Bytes): (v: nat)
    ensures v < Pow256(|s|)
  {
    if s == [] then 0 else Value(s[..|s| - 1]) * 256 + s[|s| - 1] as int
  }

  function Reverse(s: Bytes): (r: Bytes)
    ensures |r| == |s| && forall i :: 0 <= i < |s| ==> r[i] == s[|s| - 1 - i]
  {
    if s == [] then [] else [s[|s| - 1]] + Reverse(s[..|s| - 1])
  }

  /** The bytes of an n-byte integer variable, in address order. */
  function Store(order: ByteOrder, v: nat, n: nat): (s: Bytes)
    ensures |s| == n
  {
    if order.Big? then Digits(v, n) else Reverse(Digits(v, n))
  }

  /** The integer variable that memcpy fills with these bytes. */
  function Load(order: ByteOrder, s: Bytes): nat {
    if order.Big? then Value(s) else Value(Reverse(s))
  }

  /** htobe and betoh are one function: identity on a big-endian host, byte swap on the other. */
  function HostToNet(order: ByteOrder, v: nat, n: nat): nat {
    if order.Big? then v else Value(Reverse(Digits(v, n)))
  }

  function NetToHost(order: ByteOrder, v: nat, n: nat): nat {
    HostToNet(order, v, n)
  }

  lemma {:induction false} ValueOfDigits(v: nat, n: nat)
    requires v < Pow256(n)
    ensures Value(Digits(v, n)) == v
  {
    if n > 0 {
      var s := Digits(v, n);
      assert s[..n - 1] == Digits(v / 256, n - 1);
      ValueOfDigits(v / 256, n - 1);
    }
  }

  lemma {:induction false} DigitsOfValue(s: Bytes)
    ensures Digits(Value(s), |s|) == s
  {
    if s != [] {
      DigitsOfValue(s[..|s| - 1]);
    }
  }

  lemma ReverseTwice(s: Bytes)
    ensures Reverse(Reverse(s)) == s
  {
  }

  /** Whatever the host, converting and then copying the variable yields big-endian bytes. */
  lemma WireFormat(order: ByteOrder, v: nat, n: nat)
    requires v < Pow256(n)
    ensures Store(order, HostToNet(order, v, n), n) == Digits(v, n)
  {
    if order.Little? {
      DigitsOfValue(Reverse(Digits(v, n)));
      ReverseTwice(Digits(v, n));
    }
  }

  /** Whatever the host, copying wire bytes into a variable and converting reads big-endian. */
  lemma WireValue(order: ByteOrder, s: Bytes)
    ensures NetToHost(order, Load(order, s), |s|) == Value(s)
  {
    if order.Little? {
      DigitsOfValue(Reverse(s));
      ReverseTwice(s);
    }
  }

  // ---------------------------------------------------------------- 64 bits under _WIN32

  const TWO32: nat := 0x1_0000_0000

  function Hi(v: nat): nat { v / TWO32 % TWO32 }

  function Lo(v: nat): (lo: nat)
    ensures lo < TWO32
  {
    v % TWO32
  }

  function Join(hi: nat, lo: nat): nat { hi * TWO32 + lo }

  lemma JoinIsInverse(hi: nat, lo: nat)
    requires hi < TWO32 && lo < TWO32
    ensures Hi(Join(hi, lo)) == hi && Lo(Join(hi, lo)) == lo
  {
  }

  lemma HalvesOf(v: nat)
    requires v < Pow256(8)
    ensures Hi(v) < TWO32 && v == Join(Hi(v), Lo(v))
  {
    assert Pow256(8) == 0x1_0000_0000_0000_0000;
  }

  /** host64ToNet and netToHost64 under _WIN32: each half is converted, but they keep their places. */
  function ConvertHalves(order: ByteOrder, v: nat): nat {
    Join(HostToNet(order, Hi(v), 4), HostToNet(order, Lo(v), 4))
  }

  lemma LowByte(x: nat, lo: nat)
    ensures (256 * x + lo) / 256 == x + lo / 256 && (256 * x + lo) % 256 == lo % 256
  {
  }

  lemma {:induction false} DigitsSplit(hi: nat, m: nat, lo: nat, k: nat)
    requires lo < Pow256(k)
    ensures Digits(hi * Pow256(k) + lo, m + k) == Digits(hi, m) + Digits(lo, k)
    decreases k
  {
    if k > 0 {
      var p := Pow256(k - 1);
      assert hi * Pow256(k) == 256 * (hi * p);
      LowByte(hi * p, lo);
      DigitsSplit(hi, m, lo / 256, k - 1);
    } else {
      assert hi * Pow256(0) == hi;
    }
  }

  lemma JoinDigits(hi: nat, lo: nat)
    requires lo < TWO32
    ensures Digits(Join(hi, lo), 8) == Digits(hi, 4) + Digits(lo, 4)
  {
    hide Digits;
    assert Pow256(4) == TWO32;
    DigitsSplit(hi, 4, lo, 4);
  }

  lemma ReverseAppend(a: Bytes, b: Bytes)
    ensures Reverse(a + b) == Reverse(b) + Reverse(a)
  {
  }

  lemma HalfFits(order: ByteOrder, v: nat)
    requires v < TWO32
    ensures HostToNet(order, v, 4) < TWO32
  {
    assert Pow256(4) == TWO32;
  }

  /** On a little-endian host, the bytes of the low half come first. */
  lemma HalvesInMemory(v: nat)
    requires v < Pow256(8)
    ensures Store(Little, ConvertHalves(Little, v), 8) == Digits(Lo(v), 4) + Digits(Hi(v), 4)
  {
    HalvesOf(v);
    assert Pow256(4) == TWO32;
    hide Hi, Lo, Join, Digits, Pow256, HostToNet;
    var hi, lo := HostToNet(Little, Hi(v), 4), HostToNet(Little, Lo(v), 4);
    HalfFits(Little, Lo(v));
    JoinDigits(hi, lo);
    ReverseAppend(Digits(hi, 4), Digits(lo, 4));
    WireFormat(Little, Hi(v), 4);
    WireFormat(Little, Lo(v), 4);
  }

  lemma SwapIsSame(a: nat, b: nat)
    requires a < TWO32 && b < TWO32
    ensures Digits(a, 4) + Digits(b, 4) == Digits(b, 4) + Digits(a, 4) <==> a == b
  {
    assert Pow256(4) == TWO32;
    ValueOfDigits(a, 4);
    ValueOfDigits(b, 4);
    hide Digits, Value;
    assert (Digits(a, 4) + Digits(b, 4))[..4] == Digits(a, 4);
    assert (Digits(b, 4) + Digits(a, 4))[..4] == Digits(b, 4);
  }

  /** Under _WIN32 the 64-bit format is big-endian exactly on a big-endian host, or for equal halves. */
  lemma HalvesWireFormatIsExact(order: ByteOrder, v: nat)
    requires v < Pow256(8)
    ensures Store(order, ConvertHalves(order, v), 8) == Digits(v, 8) <==> order.Big? || Hi(v) == Lo(v)
  {
    HalvesOf(v);
    if order.Little? {
      hide Hi, Lo, Join, Digits, Pow256, ConvertHalves, Store;
      HalvesInMemory(v);
      JoinDigits(Hi(v), Lo(v));
      SwapIsSame(Hi(v), Lo(v));
    }
  }

  lemma TwiceIsSame(order: ByteOrder, v: nat)
    requires v < TWO32
    ensures HostToNet(order, HostToNet(order, v, 4), 4) == v
  {
    assert Pow256(4) == TWO32;
    WireValue(order, Store(order, HostToNet(order, v, 4), 4));
    WireFormat(order, v, 4);
    ValueOfDigits(v, 4);
    if order.Little? { ReverseTwice(Digits(v, 4)); }
  }

  /** Both conversions use it, so a value written and read back is the same all the same. */
  lemma HalvesRoundTrip(order: ByteOrder, v: nat)
    requires v < Pow256(8)
    ensures ConvertHalves(order, ConvertHalves(order, v)) == v
  {
    HalvesOf(v);
    hide Hi, Lo, Join, HostToNet, Pow256;
    var hi, lo := HostToNet(order, Hi(v), 4), HostToNet(order, Lo(v), 4);
    HalfFits(order, Hi(v));
    HalfFits(order, Lo(v));
    JoinIsInverse(hi, lo);
    TwiceIsSame(order, Hi(v));
    TwiceIsSame(order, Lo(v));
  }
}
