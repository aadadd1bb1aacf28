/** 32-bit words as the code computes them, with shifts and ors, against the
    rotations and byte orders of the standards. */
module HashWords {
  import opened Basics
  import opened Endian
  import opened HashSpec

  // ---- the operators of the code ----

  /** `x << n`: bits shifted out at the top are lost. */
  function Shl(x: Word, n: nat): Word {
    if n == 0 then x else 2 * Shl(x, n - 1) % WORD32
  }

  function RotateRight(x: Word, n: nat): Word
    requires n <= 32
  {
    Or(Shr(x, n), Shl(x, 32 - n))
  }

  function RotateLeft(x: Word, n: nat): Word
    requires n <= 32
  {
    Or(Shl(x, n), Shr(x, 32 - n))
  }

  /** Four bytes in memory order, the first one on top. */
  function JoinBig(s: Bytes, i: nat): Word
    requires i + 4 <= |s|
  {
    Or(Or(Or(Shl(s[i], 24), Shl(s[i + 1], 16)), Shl(s[i + 2], 8)), s[i + 3])
  }

  function JoinLittle(s: Bytes, i: nat): Word
    requires i + 4 <= |s|
  {
    Or(Or(Or(s[i], Shl(s[i + 1], 8)), Shl(s[i + 2], 16)), Shl(s[i + 3], 24))
  }

  // ---- multiples of powers of two ----

  function Scale(a: nat, n: nat): nat {
    if n == 0 then a else 2 * Scale(a, n - 1)
  }

  lemma ScaleStep(a: nat, n: nat)
    ensures Scale(a, 0) == a && Scale(a, n + 1) == 2 * Scale(a, n)
  {
  }

  lemma {:induction false} ScaleAdds(a: nat, b: nat, n: nat)
    ensures Scale(a + b, n) == Scale(a, n) + Scale(b, n)
  {
    if n > 0 {
      ScaleAdds(a, b, n - 1);
    }
  }

  lemma {:induction false} ScaleTwice(a: nat, m: nat, n: nat)
    ensures Scale(Scale(a, m), n) == Scale(a, m + n)
  {
    if n > 0 {
      ScaleTwice(a, m, n - 1);
    }
  }

  lemma {:induction false} ScaleBit(n: nat)
    ensures Scale(0, n) == 0 && Scale(1, n) == Power2(n) > 0
  {
    if n > 0 {
      ScaleBit(n - 1);
    }
  }

  /** Numbers below a power of two stay below a larger one when they are scaled. */
  lemma ScaleBelow(a: nat, m: nat, n: nat)
    requires a < Scale(1, m)
    ensures Scale(a, n) + Scale(1, n) <= Scale(1, m + n)
  {
    ScaleTwice(1, m, n);
    ScaleAdds(a + 1, Scale(1, m) - a - 1, n);
    ScaleAdds(a, 1, n);
  }

  lemma {:induction false} ScaleGrows(a: nat, n: nat)
    ensures a <= Scale(a, n)
  {
    if n > 0 {
      ScaleGrows(a, n - 1);
    }
  }

  lemma WordScale()
    ensures Scale(1, 32) == WORD32 && Scale(1, 31) == WORD32 / 2 && Scale(0, 31) == Scale(0, 32) == 0
  {
    WordPower();
    ScaleBit(32);
    ScaleBit(31);
  }

  // ---- a word in two parts ----

  predicate Splits(x: nat, n: nat, q: nat, r: nat) {
    x == Scale(q, n) + r && r < Scale(1, n)
  }

  /** The lowest bit of the upper part may go to the lower one. */
  lemma MoveBit(x: nat, n: nat, q: nat, r: nat)
    ensures Splits(x, n, q, r) ==> Splits(x, n + 1, q / 2, Scale(q % 2, n) + r)
  {
    ScaleAdds(2 * (q / 2), q % 2, n);
    ScaleTwice(q / 2, 1, n);
    assert Scale(q / 2, 1) == 2 * (q / 2);
    ScaleBit(n);
  }

  lemma {:induction false} ShrSplits(x: Word, n: nat) returns (r: nat)
    ensures Splits(x, n, Shr(x, n), r)
  {
    if n == 0 {
      r := 0;
    } else {
      r := ShrSplits(x, n - 1);
      MoveBit(x, n - 1, Shr(x, n - 1), r);
      r := Scale(Shr(x, n - 1) % 2, n - 1) + r;
    }
  }

  /** A word has no bits above the lowest 32. */
  lemma NothingAbove(x: Word, q: nat, r: nat)
    requires Splits(x, 32, q, r)
    ensures q == 0 && r == x
  {
    hide Scale;
    WordScale();
    if q > 0 {
      ScaleAdds(1, q - 1, 32);
    }
  }

  lemma {:induction false} ShlSplits(x: Word, m: nat, q: nat, r: nat)
    requires m <= 32 && Splits(x, 32 - m, q, r)
    ensures Shl(x, m) == Scale(r, m)
  {
    hide Scale, Splits;
    if m == 0 {
      NothingAbove(x, q, r);
      ScaleStep(r, 0);
    } else {
      var b := q % 2;
      MoveBit(x, 32 - m, q, r);
      ShlSplits(x, m - 1, q / 2, Scale(b, 32 - m) + r);
      ShlBit(x, m, q, r);
    }
  }

  lemma ShlBit(x: Word, m: nat, q: nat, r: nat)
    requires 0 < m <= 32 && Splits(x, 32 - m, q, r)
    requires Shl(x, m - 1) == Scale(Scale(q % 2, 32 - m) + r, m - 1)
    ensures Shl(x, m) == Scale(r, m)
  {
    hide Scale;
    var b := q % 2;
    ScaleAdds(Scale(b, 32 - m), r, m - 1);
    ScaleTwice(b, 32 - m, m - 1);
    ScaleBelow(r, 32 - m, m);
    WordScale();
    ScaleStep(r, m - 1);
    ScaleBit(m);
    assert Scale(b, 31) == if b == 1 then WORD32 / 2 else 0;
    DropTop(Shl(x, m - 1), b, Scale(r, m));
  }

  lemma DropTop(y: nat, b: nat, z: nat)
    requires b <= 1 && 2 * y == (if b == 1 then WORD32 else 0) + z && z < WORD32
    ensures 2 * y % WORD32 == z
  {
  }

  lemma {:induction false} RotrSplits(x: Word, n: nat, q: nat, r: nat)
    requires n <= 32 && Splits(x, n, q, r)
    ensures Rotr(x, n) == q + Scale(r, 32 - n)
  {
    hide Scale;
    WordScale();
    if n == 0 {
      ScaleStep(q, 0);
      ScaleStep(1, 0);
      ScaleBit(32);
    } else {
      var half := Scale(1, n - 1);
      var b, r1 := if r >= half then 1 else 0, if r >= half then r - half else r;
      TakeBit(x, n, q, r);
      RotrSplits(x, n - 1, 2 * q + b, r1);
      ScaleStep(r1, 32 - n);
      ScaleAdds(Scale(b, n - 1), r1, 32 - n);
      ScaleTwice(b, n - 1, 32 - n);
      ScaleBit(n - 1);
    }
  }

  /** The highest bit of the lower part may go to the upper one. */
  lemma TakeBit(x: nat, n: nat, q: nat, r: nat)
    requires 0 < n && Splits(x, n, q, r)
    ensures var half := Scale(1, n - 1);
            var b, r1 := if r >= half then 1 else 0, if r >= half then r - half else r;
            Splits(x, n - 1, 2 * q + b, r1) && r == Scale(b, n - 1) + r1
  {
    ScaleBit(n - 1);
    ScaleAdds(2 * q, if r >= Scale(1, n - 1) then 1 else 0, n - 1);
    ScaleTwice(q, 1, n - 1);
    ScaleStep(q, 0);
    ScaleStep(1, n - 1);
    hide Scale;
  }

  lemma {:induction false} RotlSplits(x: Word, n: nat, q: nat, r: nat)
    requires n <= 32 && Splits(x, 32 - n, q, r) && q < Scale(1, n)
    ensures Rotl(x, n) == q + Scale(r, n)
  {
    hide Scale;
    WordScale();
    ScaleStep(1, 0);
    if n == 0 {
      NothingAbove(x, q, r);
      ScaleStep(r, 0);
    } else {
      var b := q % 2;
      MoveBit(x, 32 - n, q, r);
      ScaleStep(1, n - 1);
      RotlSplits(x, n - 1, q / 2, Scale(b, 32 - n) + r);
      ScaleAdds(Scale(b, 32 - n), r, n - 1);
      ScaleTwice(b, 32 - n, n - 1);
      ScaleBelow(r, 32 - n, n - 1);
      ScaleStep(r, n - 1);
    }
  }

  // ---- the operators mean what the standards say ----

  /** Numbers without a common one bit: combining them is adding them. */
  lemma {:induction false} OrAdds(high: nat, k: nat, low: nat, n: nat)
    requires k <= n && low < Scale(1, k) && high < Scale(1, n - k)
    ensures Bitwise(OR, Scale(high, k), low, n) == Bitwise(OR, low, Scale(high, k), n) == Scale(high, k) + low
  {
    if k == 0 {
      OrZero(high, n);
    } else {
      OrAdds(high, k - 1, low / 2, n - 1);
    }
  }

  lemma {:induction false} OrZero(x: nat, n: nat)
    requires x < Scale(1, n)
    ensures Bitwise(OR, x, 0, n) == Bitwise(OR, 0, x, n) == x
  {
    if n > 0 {
      OrZero(x / 2, n - 1);
    }
  }

  lemma UpperBelow(x: Word, n: nat, q: nat, r: nat)
    requires n <= 32 && Splits(x, n, q, r)
    ensures q < Scale(1, 32 - n)
  {
    if q >= Scale(1, 32 - n) {
      ScaleAdds(q - Scale(1, 32 - n), Scale(1, 32 - n), n);
      ScaleTwice(1, 32 - n, n);
      WordScale();
    }
  }

  /** Shifting both ways and combining the parts is rotating. */
  lemma RotatesRight(x: Word, n: nat)
    requires n <= 32
    ensures RotateRight(x, n) == Rotr(x, n)
  {
    hide Shr, Shl, Rotr, Bitwise, Scale;
    var q := Shr(x, n);
    var r := ShrSplits(x, n);
    UpperBelow(x, n, q, r);
    ShlSplits(x, 32 - n, q, r);
    OrAdds(r, 32 - n, q, 32);
    RotrSplits(x, n, q, r);
  }

  lemma RotatesLeft(x: Word, n: nat)
    requires n <= 32
    ensures RotateLeft(x, n) == Rotl(x, n)
  {
    hide Shr, Shl, Rotl, Bitwise, Scale;
    var q := Shr(x, 32 - n);
    var r := ShrSplits(x, 32 - n);
    UpperBelow(x, 32 - n, q, r);
    ShlSplits(x, n, q, r);
    OrAdds(r, n, q, 32);
    RotlSplits(x, n, q, r);
  }

  lemma ShiftsByte(b: Byte, n: nat)
    requires n <= 24
    ensures Shl(b, n) == Scale(b, n)
    ensures Scale(b, n) + Scale(1, n) <= Scale(1, n + 8)
  {
    ScaleBit(8);
    ScaleBelow(b, 8, n);
    ScaleBelow(b, 8, 24 - n);
    ScaleGrows(b, 24 - n);
    ScaleBit(32 - n);
    ScaleBit(24 - n);
    ShlSplits(b, n, 0, b);
  }

  lemma EightBits(a: nat)
    ensures Scale(a, 8) == 0x100 * a
  {
    ScaleStep(a, 0);
    ScaleStep(a, 1);
    ScaleStep(a, 2);
    ScaleStep(a, 3);
    ScaleStep(a, 4);
    ScaleStep(a, 5);
    ScaleStep(a, 6);
    ScaleStep(a, 7);
    hide Scale;
  }

  lemma BytesScale(b: nat)
    ensures Scale(b, 8) == 0x100 * b && Scale(b, 16) == 0x1_0000 * b && Scale(b, 24) == 0x100_0000 * b
  {
    EightBits(b);
    EightBits(0x100 * b);
    EightBits(0x1_0000 * b);
    ScaleTwice(b, 8, 8);
    ScaleTwice(b, 16, 8);
  }

  lemma ShiftsBytes(a: Byte, b: Byte, c: Byte)
    ensures Shl(a, 8) == Scale(a, 8) == 0x100 * a && Shl(b, 16) == Scale(b, 16) == 0x1_0000 * b
    ensures Shl(c, 24) == Scale(c, 24) == 0x100_0000 * c
    ensures Scale(1, 8) == 0x100 && Scale(1, 16) == 0x1_0000 && Scale(1, 24) == 0x100_0000
  {
    hide Shl, Scale;
    ShiftsByte(a, 8);
    ShiftsByte(b, 16);
    ShiftsByte(c, 24);
    BytesScale(1);
    BytesScale(a);
    BytesScale(b);
    BytesScale(c);
  }

  /** Combining four shifted bytes is the number they spell. */
  lemma JoinsBig(s: Bytes, i: nat)
    requires i + 4 <= |s|
    ensures JoinBig(s, i) == LoadBig(s, i)
  {
    hide Shl, Bitwise, Scale;
    var a, b, c, d := s[i] as nat, s[i + 1] as nat, s[i + 2] as nat, s[i + 3] as nat;
    ShiftsBytes(s[i + 2], s[i + 1], s[i]);
    OrAdds(a, 24, Scale(b, 16), 32);
    BytesScale(0x100 * a + b);
    OrAdds(0x100 * a + b, 16, Scale(c, 8), 32);
    BytesScale(0x1_0000 * a + 0x100 * b + c);
    OrAdds(0x1_0000 * a + 0x100 * b + c, 8, d, 32);
  }

  lemma {:induction false} JoinsLittle(s: Bytes, i: nat)
    requires i + 4 <= |s|
    ensures JoinLittle(s, i) == LoadLittle(s, i)
  {
    hide Shl, Bitwise, Scale;
    var a, b, c, d := s[i] as nat, s[i + 1] as nat, s[i + 2] as nat, s[i + 3] as nat;
    ShiftsBytes(s[i + 1], s[i + 2], s[i + 3]);
    OrAdds(b, 8, a, 32);
    OrAdds(c, 16, a + 0x100 * b, 32);
    OrAdds(d, 24, a + 0x100 * b + 0x1_0000 * c, 32);
  }
}
