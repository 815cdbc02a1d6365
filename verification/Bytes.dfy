/** Machine integers as bounded `int`s, byte strings, and the little-endian integers of the wire. */
module Bytes {

  type Byte = x: int | 0 <= x < 0x100
  type U32 = x: int | 0 <= x < 0x1_0000_0000
  type U64 = x: int | 0 <= x < 0x1_0000_0000_0000_0000

  const TWO_16: nat := 0x1_0000
  const TWO_31: nat := 0x8000_0000
  const TWO_32: nat := 0x1_0000_0000
  const TWO_64: nat := 0x1_0000_0000_0000_0000

  type Data = seq<Byte>

  /** `u32` addition of one, wrapping at 2^32. */
  function Succ32(x: U32): U32 {
    if x + 1 == TWO_32 then 0 else x + 1
  }

  /** The number of increments `n`, counted in a `u32`. */
  function Wrap32(n: nat): U32 {
    if n == 0 then 0 else Succ32(Wrap32(n - 1))
  }

  lemma {:induction false} Wrap32Small(n: nat)
    ensures n < TWO_32 ==> Wrap32(n) == n
    ensures Wrap32(n) == n % TWO_32
  {
    if n > 0 {
      Wrap32Small(n - 1);
    }
  }

  function Pow256(k: nat): (p: nat)
    ensures p > 0
  {
    if k == 0 then 1 else 256 * Pow256(k - 1)
  }

  /** The `k` low bytes of `n`, least significant first: `to_le_bytes` after a truncating cast. */
  function ToLE(n: nat, k: nat): (bs: Data)
    ensures |bs| == k
  {
    if k == 0 then [] else [n % 256] + ToLE(n / 256, k - 1)
  }

  function FromLE(bs: Data): (n: nat)
    ensures n < Pow256(|bs|)
  {
    if bs == [] then 0 else bs[0] + 256 * FromLE(bs[1..])
  }

  /** A number that fits in `k` bytes survives the trip through them. */
  lemma {:induction false} LERoundTrip(n: nat, k: nat)
    requires n < Pow256(k)
    ensures FromLE(ToLE(n, k)) == n
  {
    if k > 0 {
      LERoundTrip(n / 256, k - 1);
      assert ToLE(n, k)[1..] == ToLE(n / 256, k - 1);
    }
  }

  /** Every byte string is the encoding of the number it decodes to. */
  lemma {:induction false} LECanonical(bs: Data)
    ensures ToLE(FromLE(bs), |bs|) == bs
  {
    if bs != [] {
      var n := FromLE(bs);
      assert n % 256 == bs[0] && n / 256 == FromLE(bs[1..]);
      LECanonical(bs[1..]);
    }
  }

  /** The digits come least significant first. */
  lemma {:induction false} LEDigit(n: nat, k: nat, i: nat)
    requires i < k
    ensures ToLE(n, k)[i] == (n / Pow256(i)) % 256
  {
    if i > 0 {
      LEDigit(n / 256, k - 1, i - 1);
      DivideTwice(n, Pow256(i - 1));
    }
  }

  lemma DivideTwice(n: nat, p: nat)
    requires p > 0
    ensures (n / 256) / p == n / (256 * p)
  {
    var q, r := n / (256 * p), n % (256 * p);
    assert n == q * (256 * p) + r;
    var s := r / 256;
    assert q * (256 * p) == 256 * (q * p);
    assert n / 256 == q * p + s;
    assert s < p;
    DivideExact(n / 256, p, q, s);
  }

  lemma DivideExact(n: nat, p: nat, q: nat, s: nat)
    requires p > 0 && n == q * p + s && s < p
    ensures n / p == q
  {
    var a, b := n / p, n % p;
    assert n == a * p + b;
    assert (q - a) * p == q * p - a * p == b - s;
    SmallMultiple(q - a, p);
  }

  lemma SmallMultiple(x: int, p: int)
    requires -p < x * p < p
    ensures x == 0
  {
    if x >= 1 {
      Grows(1, x, p);
    } else if x <= -1 {
      Grows(1, -x, p);
    }
  }

  lemma Grows(a: int, b: int, p: int)
    requires a <= b && p >= 0
    ensures a * p <= b * p
  {
    assert b * p - a * p == (b - a) * p;
  }

  lemma PowersOf256()
    ensures Pow256(2) == TWO_16 && Pow256(4) == TWO_32 && Pow256(8) == TWO_64
  {
    assert Pow256(2) == 256 * Pow256(1) == 256 * 256;
    assert Pow256(4) == 256 * Pow256(3) == 256 * (256 * Pow256(2));
    assert Pow256(6) == 256 * Pow256(5) == 256 * (256 * Pow256(4));
    assert Pow256(8) == 256 * Pow256(7) == 256 * (256 * Pow256(6));
  }
}
