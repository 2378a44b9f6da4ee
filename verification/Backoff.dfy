/** The exponential backoff of net/TcpConnection.cc, with the integer types of the source. */
module Backoff {

  newtype uint32 = x: int | 0 <= x < 0x1_0000_0000
  newtype uint64 = x: int | 0 <= x < 0x1_0000_0000_0000_0000
  newtype int32 = x: int | -0x8000_0000 <= x < 0x8000_0000

  const INT_MAX: uint32 := 0x7FFF_FFFF

  function Pow2(n: nat): (p: nat)
    ensures p > 0
  {
    if n == 0 then 1 else 2 * Pow2(n - 1)
  }

  /** The base delay doubled once per retry, but never more than the maximum. */
  function Cap(base: nat, retries: nat, max: nat): nat {
    if base * Pow2(retries) < max then base * Pow2(retries) else max
  }

  lemma {:induction false} Pow2Monotone(m: nat, n: nat)
    requires m <= n
    ensures Pow2(m) <= Pow2(n)
    decreases n - m
  {
    if m < n { Pow2Monotone(m + 1, n); }
  }

  lemma TimesMonotone(base: nat, a: nat, b: nat)
    requires a <= b
    ensures base * a <= base * b
  {
  }

  lemma {:induction false} CapMonotone(base: nat, retries: nat, more: nat, max: nat)
    requires retries <= more
    ensures Cap(base, retries, max) <= Cap(base, more, max) <= max
  {
    Pow2Monotone(retries, more);
    TimesMonotone(base, Pow2(retries), Pow2(more));
  }

  /** A doubling too far: from here on the maximum is the cap. */
  lemma Saturates(base: nat, i: nat, retries: nat, max: nat)
    requires i < retries && base * Pow2(i) > max / 2
    ensures Cap(base, retries, max) == max
  {
    Pow2Monotone(i + 1, retries);
    TimesMonotone(base, Pow2(i + 1), Pow2(retries));
    assert base * Pow2(i + 1) == 2 * (base * Pow2(i));
  }

  /** A nonzero 32-bit value cannot be doubled 32 times and stay one. */
  lemma FewDoublings(base: nat, i: nat)
    requires 0 < base && base * Pow2(i) < 0x1_0000_0000
    ensures i < 32
  {
    Pow2Of32();
    AtLeastOnce(base, Pow2(i));
    if 32 <= i { Pow2Monotone(32, i); }
  }

  lemma AtLeastOnce(base: nat, p: nat)
    requires 0 < base
    ensures p <= base * p
  {
  }

  lemma Pow2Of32()
    ensures Pow2(32) == 0x1_0000_0000
  {
    assert Pow2(8) == 256;
    assert Pow2(16) == 65536;
    assert Pow2(24) == 16777216;
  }

  /**
   The delay is drawn from 0 up to the cap, both included, by a random number. Nothing overflows;
   the counter of the loop is a signed int, which only matters for a base of 0, where the loop is
   not left early.
   */
  method BackoffJitter(base: uint32, retries: uint32, max: uint32, random: nat) returns (jitter: uint64, cap_ms: uint64)
    requires base == 0 ==> retries <= INT_MAX
    ensures cap_ms as nat == Cap(base as nat, retries as nat, max as nat)
    ensures jitter <= cap_ms && jitter as nat == random % (cap_ms as nat + 1)
  {
    cap_ms := base as uint64;
    var i: int32 := 0;
    while i as int < retries as int
      invariant 0 <= i as int <= retries as int
      invariant cap_ms as nat == base as nat * Pow2(i as nat)
      invariant i > 0 ==> cap_ms <= max as uint64
      invariant base == 0 ==> retries <= INT_MAX
    {
      if cap_ms > max as uint64 / 2 {
        Saturates(base as nat, i as nat, retries as nat, max as nat);
        cap_ms := max as uint64;
        break;
      }
      if base != 0 { FewDoublings(base as nat, i as nat); }
      cap_ms := cap_ms * 2;
      i := i + 1;
    }
    if max as uint64 < cap_ms {
      cap_ms := max as uint64;
    }
    jitter := (random % (cap_ms as nat + 1)) as uint64;
  }

  const BASE_TIMEOUT: nat := 1
  const MAX_TIMEOUT: nat := 10

  /** The constants are read as milliseconds: no retransmission waits longer than 10 ms. */
  lemma RetransmissionDelays(retries: nat)
    ensures Cap(BASE_TIMEOUT, retries, MAX_TIMEOUT) ==
            if retries < 4 then [1, 2, 4, 8][retries] else 10
  {
    if 4 <= retries {
      CapMonotone(BASE_TIMEOUT, 4, retries, MAX_TIMEOUT);
    }
    assert Pow2(4) == 16;
  }
}
