/** Integers as bytes, in both orders. */
module Endian {
  import opened Basics

  const WORD32: nat := 0x1_0000_0000

  function Power256(n: nat): nat {
    if n == 0 then 1 else 256 * Power256(n - 1)
  }

  /** The low `n` bytes, lowest first. */
  function Little(v: nat, n: nat): (s: Bytes)
    ensures |s| == n
  {
    if n == 0 then [] else [v % 256] + Little(v / 256, n - 1)
  }

  function FromLittle(s: Bytes): nat {
    if s == [] then 0 else s[0] + 256 * FromLittle(s[1..])
  }

  lemma {:induction false} LittleRoundTrip(v: nat, n: nat)
    requires v < Power256(n)
    ensures FromLittle(Little(v, n)) == v
  {
    if n > 0 {
      LittleRoundTrip(v / 256, n - 1);
      assert Little(v, n)[1..] == Little(v / 256, n - 1);
    }
  }

  lemma Powers()
    ensures Power256(4) == WORD32 && Power256(8) == WORD
  {
    assert Power256(2) == 0x1_0000;
    assert Power256(3) == 0x100_0000;
    assert Power256(4) == WORD32;
    assert Power256(6) == 0x1_0000_0000_0000;
    assert Power256(7) == 0x100_0000_0000_0000;
  }

  lemma {:induction false} FromLittleBound(s: Bytes)
    ensures FromLittle(s) < Power256(|s|)
  {
    if s != [] {
      FromLittleBound(s[1..]);
    }
  }

  /** One more byte weighs the next power. */
  lemma {:induction false} FromLittleGrows(s: Bytes, b: Byte)
    ensures FromLittle(s + [b]) == FromLittle(s) + Power256(|s|) * b
  {
    if s == [] {
      assert s + [b] == [b] && [b][1..] == [];
    } else {
      assert (s + [b])[1..] == s[1..] + [b];
      FromLittleGrows(s[1..], b);
      Reassociate(Power256(|s| - 1), b);
    }
  }

  lemma Reassociate(p: nat, b: nat)
    ensures 256 * (p * b) == 256 * p * b
  {
  }

  /** The low `n` bytes, highest first. */
  function Big(v: nat, n: nat): (s: Bytes)
    ensures |s| == n
  {
    if n == 0 then [] else Big(v / 256, n - 1) + [v % 256]
  }
}
