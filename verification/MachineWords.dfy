/** 32-bit machine words. The words of the hash functions are numbers; their
    operations on numbers are what a processor does with the bits. */
module MachineWords {
  import opened Basics
  import opened Endian
  import opened HashSpec

  // ---- the operations of the machine ----

  function MAnd(x: bv32, y: bv32): bv32 {
    x & y
  }

  function MOr(x: bv32, y: bv32): bv32 {
    x | y
  }

  function MXor(x: bv32, y: bv32): bv32 {
    x ^ y
  }

  function MNot(x: bv32): bv32 {
    !x
  }

  function Half(x: bv32): bv32 {
    x >> 1
  }

  function Left(x: bv32): bv32 {
    x.RotateLeft(1)
  }

  function Right(x: bv32): bv32 {
    x.RotateRight(1)
  }

  // ---- the number of a word ----

  function BitOf(x: bv32): (b: nat)
    ensures b <= 1
  {
    if x & 1 == 1 then 1 else 0
  }

  /** The number that the low `n` bits make. */
  function Low(x: bv32, n: nat): (r: nat)
    ensures r < Power2(n)
    decreases n
  {
    if n == 0 then 0 else BitOf(x) + 2 * Low(Half(x), n - 1)
  }

  lemma {:induction false} LowSplits(x: bv32, n: nat)
    ensures Low(x, 0) == 0
    ensures n > 0 ==> Low(x, n) / 2 == Low(Half(x), n - 1) && Low(x, n) % 2 == BitOf(x)
    ensures n > 0 ==> Low(x, n) == BitOf(x) + 2 * Low(Half(x), n - 1)
  {
    hide BitOf, Half;
  }

  /** The number of a word. */
  function Num(x: bv32): Word {
    WordPower();
    Low(x, 32)
  }

  // ---- and, or, exclusive or ----

  lemma HalfAnd(x: bv32, y: bv32)
    ensures Half(MAnd(x, y)) == MAnd(Half(x), Half(y))
  {
  }

  lemma HalfOr(x: bv32, y: bv32)
    ensures Half(MOr(x, y)) == MOr(Half(x), Half(y))
  {
  }

  lemma HalfXor(x: bv32, y: bv32)
    ensures Half(MXor(x, y)) == MXor(Half(x), Half(y))
  {
  }

  lemma BitAnd(x: bv32, y: bv32)
    ensures BitOf(MAnd(x, y)) == Bit(AND, BitOf(x), BitOf(y))
  {
  }

  lemma BitOr(x: bv32, y: bv32)
    ensures BitOf(MOr(x, y)) == Bit(OR, BitOf(x), BitOf(y))
  {
  }

  lemma BitXor(x: bv32, y: bv32)
    ensures BitOf(MXor(x, y)) == Bit(XOR, BitOf(x), BitOf(y))
  {
  }

  lemma {:induction false} AndLow(x: bv32, y: bv32, n: nat)
    ensures Bitwise(AND, Low(x, n), Low(y, n), n) == Low(MAnd(x, y), n)
    decreases n
  {
    hide BitOf, Half, MAnd, Low, Bit;
    LowSplits(x, n);
    LowSplits(y, n);
    LowSplits(MAnd(x, y), n);
    if n > 0 {
      AndLow(Half(x), Half(y), n - 1);
      HalfAnd(x, y);
      BitAnd(x, y);
    }
  }

  lemma {:induction false} OrLow(x: bv32, y: bv32, n: nat)
    ensures Bitwise(OR, Low(x, n), Low(y, n), n) == Low(MOr(x, y), n)
    decreases n
  {
    hide BitOf, Half, MOr, Low, Bit;
    LowSplits(x, n);
    LowSplits(y, n);
    LowSplits(MOr(x, y), n);
    if n > 0 {
      OrLow(Half(x), Half(y), n - 1);
      HalfOr(x, y);
      BitOr(x, y);
    }
  }

  lemma {:induction false} XorLow(x: bv32, y: bv32, n: nat)
    ensures Bitwise(XOR, Low(x, n), Low(y, n), n) == Low(MXor(x, y), n)
    decreases n
  {
    hide BitOf, Half, MXor, Low, Bit;
    LowSplits(x, n);
    LowSplits(y, n);
    LowSplits(MXor(x, y), n);
    if n > 0 {
      XorLow(Half(x), Half(y), n - 1);
      HalfXor(x, y);
      BitXor(x, y);
    }
  }

  /** The bitwise operations on numbers are those of the machine. */
  lemma {:induction false} BitwiseIsMachine(x: bv32, y: bv32)
    ensures And(Num(x), Num(y)) == Num(MAnd(x, y))
    ensures Or(Num(x), Num(y)) == Num(MOr(x, y))
    ensures Xor(Num(x), Num(y)) == Num(MXor(x, y))
  {
    hide Bitwise, Low, MAnd, MOr, MXor;
    AndLow(x, y, 32);
    OrLow(x, y, 32);
    XorLow(x, y, 32);
  }

  // ---- low bits ----

  /** The `n` lowest bits are set. */
  predicate Mask(m: bv32, n: nat)
    decreases n
  {
    n > 0 ==> BitOf(m) == 1 && Mask(Half(m), n - 1)
  }

  /** Words that agree under the mask have the same low bits. */
  lemma {:induction false} SameLow(x: bv32, y: bv32, m: bv32, n: nat)
    requires Mask(m, n) && MAnd(x, m) == MAnd(y, m)
    ensures Low(x, n) == Low(y, n)
    decreases n
  {
    hide BitOf, Half, MAnd, Low;
    LowSplits(x, n);
    LowSplits(y, n);
    if n > 0 {
      HalfAnd(x, m);
      HalfAnd(y, m);
      BitAnd(x, m);
      BitAnd(y, m);
      SameLow(Half(x), Half(y), Half(m), n - 1);
    }
  }

  function Half4(x: bv32): bv32 {
    Half(Half(Half(Half(x))))
  }

  /** The number of the four lowest bits. */
  function Four(x: bv32): nat {
    BitOf(x) + 2 * BitOf(Half(x)) + 4 * BitOf(Half(Half(x))) + 8 * BitOf(Half(Half(Half(x))))
  }

  lemma {:induction false} MaskFour(m: bv32, n: nat)
    requires Mask(Half4(m), n) && Four(m) == 15
    ensures Mask(m, n + 4)
  {
    hide BitOf, Half, Mask;
    MaskOne(Half(Half(Half(m))), n);
    MaskOne(Half(Half(m)), n + 1);
    MaskOne(Half(m), n + 2);
    MaskOne(m, n + 3);
  }

  lemma MaskOne(m: bv32, n: nat)
    requires Mask(Half(m), n) && BitOf(m) == 1
    ensures Mask(m, n + 1)
  {
    hide BitOf, Half;
  }

  const ONES: bv32 := 0xFFFF_FFFF
  const REST: bv32 := 0x7FFF_FFFF

  /** All 32 bits are set in one word, all but the top one in the other. */
  lemma {:induction false} FullMasks()
    ensures Mask(ONES, 32) && Mask(REST, 31)
  {
    hide Mask;
    NoMask(0);
    MaskFour(0xF, 0);
    MaskFour(0xFF, 4);
    MaskFour(0xFFF, 8);
    MaskFour(0xFFFF, 12);
    MaskFour(0xF_FFFF, 16);
    MaskFour(0xFF_FFFF, 20);
    MaskFour(0xFFF_FFFF, 24);
    MaskFour(ONES, 28);
    MaskRest();
  }

  lemma {:induction false} MaskRest()
    ensures Mask(REST, 31)
  {
    hide Mask;
    NoMask(0);
    MaskOne(1, 0);
    MaskOne(3, 1);
    MaskOne(7, 2);
    MaskFour(0x7F, 3);
    MaskFour(0x7FF, 7);
    MaskFour(0x7FFF, 11);
    MaskFour(0x7_FFFF, 15);
    MaskFour(0x7F_FFFF, 19);
    MaskFour(0x7FF_FFFF, 23);
    MaskFour(REST, 27);
  }

  lemma NoMask(m: bv32)
    ensures Mask(m, 0)
  {
  }

  // ---- not ----

  /** Where every low bit differs, the two numbers add up to all ones. */
  lemma {:induction false} OppositeLow(x: bv32, y: bv32, m: bv32, n: nat)
    requires Mask(m, n) && MAnd(MXor(x, y), m) == m
    ensures Low(x, n) + Low(y, n) + 1 == Power2(n)
    decreases n
  {
    hide BitOf, Half, MAnd, MXor, Low;
    LowSplits(x, n);
    LowSplits(y, n);
    if n > 0 {
      HalfAnd(MXor(x, y), m);
      HalfXor(x, y);
      BitAnd(MXor(x, y), m);
      BitXor(x, y);
      OppositeLow(Half(x), Half(y), Half(m), n - 1);
    }
  }

  lemma NotDiffers(x: bv32, m: bv32)
    ensures MAnd(MXor(x, MNot(x)), m) == m
  {
  }

  /** Complement on numbers is that of the machine. */
  lemma {:induction false} NotIsMachine(x: bv32)
    ensures Not(Num(x)) == Num(MNot(x))
  {
    hide Low, MNot, MAnd, MXor, Mask;
    FullMasks();
    NotDiffers(x, ONES);
    OppositeLow(x, MNot(x), ONES, 32);
    WordPower();
  }

  // ---- shifts and rotations ----

  /** Bit `n` and no lower one is set. */
  predicate OneBit(b: bv32, n: nat)
    decreases n
  {
    if n == 0 then b == 1 else BitOf(b) == 0 && OneBit(Half(b), n - 1)
  }

  lemma HalfKeeps(x: bv32, b: bv32)
    requires BitOf(b) == 0
    ensures MAnd(x, b) != 0 <==> MAnd(Half(x), Half(b)) != 0
  {
  }

  lemma LowestBit(x: bv32)
    ensures BitOf(x) == if MAnd(x, 1) != 0 then 1 else 0
  {
  }

  lemma {:induction false} TopBit(x: bv32, b: bv32, n: nat)
    requires OneBit(b, n)
    ensures Low(x, n + 1) == Low(x, n) + if MAnd(x, b) != 0 then Power2(n) else 0
    decreases n
  {
    hide BitOf, Half, MAnd, Low;
    LowSplits(x, n + 1);
    LowSplits(x, n);
    if n == 0 {
      LowSplits(Half(x), 0);
      LowestBit(x);
    } else {
      HalfKeeps(x, b);
      TopBit(Half(x), Half(b), n - 1);
    }
  }

  lemma {:induction false} OneBitFour(b: bv32, n: nat)
    requires OneBit(Half4(b), n) && Four(b) == 0
    ensures OneBit(b, n + 4)
  {
    hide BitOf, Half, OneBit;
    OneBitOne(Half(Half(Half(b))), n);
    OneBitOne(Half(Half(b)), n + 1);
    OneBitOne(Half(b), n + 2);
    OneBitOne(b, n + 3);
  }

  lemma OneBitOne(b: bv32, n: nat)
    requires OneBit(Half(b), n) && BitOf(b) == 0
    ensures OneBit(b, n + 1)
  {
    hide BitOf, Half;
  }

  const TOP: bv32 := 0x8000_0000

  lemma {:induction false} TopIsOneBit()
    ensures OneBit(TOP, 31)
  {
    assert OneBit(1, 0);
    hide OneBit;
    OneBitOne(2, 0);
    OneBitOne(4, 1);
    OneBitOne(8, 2);
    OneBitFour(0x80, 3);
    OneBitFour(0x800, 7);
    OneBitFour(0x8000, 11);
    OneBitFour(0x8_0000, 15);
    OneBitFour(0x80_0000, 19);
    OneBitFour(0x800_0000, 23);
    OneBitFour(TOP, 27);
  }

  /** A word is its top bit and the rest. */
  lemma {:induction false} NumByTop(x: bv32)
    ensures Num(x) == Low(x, 31) + if MAnd(x, TOP) != 0 then 0x8000_0000 else 0
    ensures Mask(REST, 31)
  {
    hide Low, MAnd, Mask, OneBit;
    FullMasks();
    TopIsOneBit();
    TopBit(x, TOP, 31);
    WordPower();
  }

  lemma LeftBits(x: bv32)
    ensures MAnd(Half(Left(x)), REST) == MAnd(x, REST)
    ensures BitOf(Left(x)) == if MAnd(x, TOP) != 0 then 1 else 0
  {
  }

  lemma RightBits(x: bv32)
    ensures MAnd(Right(x), REST) == MAnd(Half(x), REST)
    ensures MAnd(Right(x), TOP) != 0 <==> BitOf(x) == 1
  {
  }

  lemma HalfBits(x: bv32)
    ensures MAnd(Half(x), TOP) == 0
  {
  }

  /** One step of a rotation or shift on numbers is that of the machine. */
  lemma {:induction false} OneStep(x: bv32)
    ensures Rotl(Num(x), 1) == Num(Left(x))
    ensures Rotr(Num(x), 1) == Num(Right(x))
    ensures Shr(Num(x), 1) == Num(Half(x))
  {
    hide Low, MAnd, Mask, Half, BitOf, Left, Right;
    NumByTop(x);
    NumByTop(Right(x));
    NumByTop(Half(x));
    LowSplits(x, 32);
    LowSplits(Left(x), 32);
    LeftBits(x);
    RightBits(x);
    HalfBits(x);
    SameLow(Half(Left(x)), x, REST, 31);
    SameLow(Right(x), Half(x), REST, 31);
    assert Rotl(Num(x), 0) == Num(x) && Rotr(Num(x), 0) == Num(x) && Shr(Num(x), 0) == Num(x);
  }

  // Rotations and shifts by so many bits.

  function LeftBy(x: bv32, n: nat): bv32 {
    if n == 0 then x else Left(LeftBy(x, n - 1))
  }

  function RightBy(x: bv32, n: nat): bv32 {
    if n == 0 then x else Right(RightBy(x, n - 1))
  }

  function HalfBy(x: bv32, n: nat): bv32 {
    if n == 0 then x else Half(HalfBy(x, n - 1))
  }

  // Rotations and shifts on numbers are those of the machine.

  lemma {:induction false} RotlIsMachine(x: bv32, n: nat)
    ensures Rotl(Num(x), n) == Num(LeftBy(x, n))
  {
    hide Num, Left;
    if n == 0 {
      assert Rotl(Num(x), 0) == Num(x);
    } else {
      RotlIsMachine(x, n - 1);
      OneStep(LeftBy(x, n - 1));
      OneRotl(Num(x), n - 1);
    }
  }

  lemma {:induction false} OneRotl(w: Word, n: nat)
    ensures Rotl(w, n + 1) == Rotl(Rotl(w, n), 1)
  {
    assert Rotl(Rotl(w, n), 0) == Rotl(w, n);
  }

  lemma {:induction false} RotrIsMachine(x: bv32, n: nat)
    ensures Rotr(Num(x), n) == Num(RightBy(x, n))
  {
    hide Num, Right;
    if n == 0 {
      assert Rotr(Num(x), 0) == Num(x);
    } else {
      RotrIsMachine(x, n - 1);
      OneStep(RightBy(x, n - 1));
      OneRotr(Num(x), n - 1);
    }
  }

  lemma {:induction false} OneRotr(w: Word, n: nat)
    ensures Rotr(w, n + 1) == Rotr(Rotr(w, n), 1)
  {
    assert Rotr(Rotr(w, n), 0) == Rotr(w, n);
  }

  lemma {:induction false} ShrIsMachine(x: bv32, n: nat)
    ensures Shr(Num(x), n) == Num(HalfBy(x, n))
  {
    hide Num, Half;
    if n == 0 {
      assert Shr(Num(x), 0) == Num(x);
    } else {
      ShrIsMachine(x, n - 1);
      OneStep(HalfBy(x, n - 1));
      OneShr(Num(x), n - 1);
    }
  }

  lemma {:induction false} OneShr(w: Word, n: nat)
    ensures Shr(w, n + 1) == Shr(Shr(w, n), 1)
  {
    assert Shr(Shr(w, n), 0) == Shr(w, n);
  }

  // ---- the number by bytes ----

  function ByteOf(x: bv32): Byte {
    ((x & 0xFF) as bv8) as int
  }

  function Shift8(x: bv32): bv32 {
    x >> 8
  }

  lemma {:induction false} LowFour(x: bv32, n: nat)
    ensures Low(x, n + 4) == Four(x) + 16 * Low(Half4(x), n)
  {
    hide BitOf, Half, Low;
    LowSplits(x, n + 4);
    LowSplits(Half(x), n + 3);
    LowSplits(Half(Half(x)), n + 2);
    LowSplits(Half(Half(Half(x))), n + 1);
  }

  lemma LowByte(x: bv32)
    ensures ByteOf(x) == Four(x) + 16 * Four(Half4(x))
  {
  }

  lemma EightHalves(x: bv32)
    ensures Half4(Half4(x)) == Shift8(x)
  {
  }

  lemma {:induction false} LowEight(x: bv32, n: nat)
    ensures Low(x, n + 8) == ByteOf(x) + 256 * Low(Shift8(x), n)
  {
    hide Four, Half4, Low, ByteOf, Shift8;
    LowFour(x, n + 4);
    LowFour(Half4(x), n);
    LowByte(x);
    EightHalves(x);
  }

  /** The upper and the lower half of a word, as numbers. */
  function Upper(x: bv32): nat {
    ((x >> 16) as bv16) as int
  }

  function Lower(x: bv32): nat {
    ((x & 0xFFFF) as bv16) as int
  }

  lemma TwoBytes(x: bv16)
    ensures x as int == ((x & 0xFF) as bv8) as int + 0x100 * ((x >> 8) as bv8) as int
  {
  }

  lemma LowerByBytes(x: bv32)
    ensures var a: nat, b: nat := ByteOf(x), ByteOf(Shift8(x)); Lower(x) == a + 0x100 * b
  {
    TwoBytes((x & 0xFFFF) as bv16);
  }

  lemma UpperByBytes(x: bv32)
    ensures var a: nat, b: nat := ByteOf(Shift8(Shift8(x))), ByteOf(Shift8(Shift8(Shift8(x))));
            Upper(x) == a + 0x100 * b
  {
    TwoBytes((x >> 16) as bv16);
  }

  /** The number of a word is that of its two halves. */
  lemma {:induction false} NumByHalves(x: bv32)
    ensures Num(x) == Lower(x) + 0x1_0000 * Upper(x)
  {
    hide ByteOf, Low, Shift8, Upper, Lower;
    LowEight(x, 24);
    LowEight(Shift8(x), 16);
    LowEight(Shift8(Shift8(x)), 8);
    LowEight(Shift8(Shift8(Shift8(x))), 0);
    LowSplits(Shift8(Shift8(Shift8(Shift8(x)))), 0);
    LowerByBytes(x);
    UpperByBytes(x);
  }

  // ---- the formulas of the standards, in machine words ----

  function MXor3(x: bv32, y: bv32, z: bv32): bv32 {
    MXor(MXor(x, y), z)
  }

  lemma {:induction false} XorOfThree(x: bv32, y: bv32, z: bv32)
    ensures Xor(Xor(Num(x), Num(y)), Num(z)) == Num(MXor3(x, y, z))
  {
    hide Num, Xor, MXor;
    BitwiseIsMachine(x, y);
    BitwiseIsMachine(MXor(x, y), z);
  }

  /** Section 4.1.2 of FIPS 180-4: choice and majority. */
  lemma {:induction false} ChAndMaj(x: bv32, y: bv32, z: bv32)
    ensures Ch(Num(x), Num(y), Num(z)) == Num(MXor(MAnd(x, y), MAnd(MNot(x), z)))
    ensures Maj(Num(x), Num(y), Num(z)) == Num(MXor3(MAnd(x, y), MAnd(x, z), MAnd(y, z)))
  {
    hide Num, Xor, And, Not, MXor, MAnd, MNot, MXor3;
    NotIsMachine(x);
    BitwiseIsMachine(x, y);
    BitwiseIsMachine(x, z);
    BitwiseIsMachine(y, z);
    BitwiseIsMachine(MNot(x), z);
    BitwiseIsMachine(MAnd(x, y), MAnd(MNot(x), z));
    XorOfThree(MAnd(x, y), MAnd(x, z), MAnd(y, z));
  }

  /** Section 4.1.2 of FIPS 180-4: the rotations and shifts of the four sigma functions. */
  lemma {:induction false} Sigmas(x: bv32)
    ensures BigSigma0(Num(x)) == Num(MXor3(RightBy(x, 2), RightBy(x, 13), RightBy(x, 22)))
    ensures BigSigma1(Num(x)) == Num(MXor3(RightBy(x, 6), RightBy(x, 11), RightBy(x, 25)))
    ensures SmallSigma0(Num(x)) == Num(MXor3(RightBy(x, 7), RightBy(x, 18), HalfBy(x, 3)))
    ensures SmallSigma1(Num(x)) == Num(MXor3(RightBy(x, 17), RightBy(x, 19), HalfBy(x, 10)))
  {
    hide Num, Xor, Rotr, Shr, MXor3, RightBy, HalfBy;
    RotrIsMachine(x, 2);
    RotrIsMachine(x, 13);
    RotrIsMachine(x, 22);
    RotrIsMachine(x, 6);
    RotrIsMachine(x, 11);
    RotrIsMachine(x, 25);
    RotrIsMachine(x, 7);
    RotrIsMachine(x, 18);
    ShrIsMachine(x, 3);
    RotrIsMachine(x, 17);
    RotrIsMachine(x, 19);
    ShrIsMachine(x, 10);
    XorOfThree(RightBy(x, 2), RightBy(x, 13), RightBy(x, 22));
    XorOfThree(RightBy(x, 6), RightBy(x, 11), RightBy(x, 25));
    XorOfThree(RightBy(x, 7), RightBy(x, 18), HalfBy(x, 3));
    XorOfThree(RightBy(x, 17), RightBy(x, 19), HalfBy(x, 10));
  }

  /** Section 3.4 of RFC 1321: the auxiliary functions of MD5, round by round. */
  lemma {:induction false} Md5Functions(i: nat, x: bv32, y: bv32, z: bv32)
    requires i < 64
    ensures i < 16 ==> Md5F(i, Num(x), Num(y), Num(z)) == Num(MOr(MAnd(x, y), MAnd(MNot(x), z)))
    ensures 16 <= i < 32 ==> Md5F(i, Num(x), Num(y), Num(z)) == Num(MOr(MAnd(x, z), MAnd(y, MNot(z))))
    ensures 32 <= i < 48 ==> Md5F(i, Num(x), Num(y), Num(z)) == Num(MXor3(x, y, z))
    ensures 48 <= i ==> Md5F(i, Num(x), Num(y), Num(z)) == Num(MXor(y, MOr(x, MNot(z))))
  {
    hide Num, Xor, And, Or, Not, MXor, MAnd, MOr, MNot, MXor3;
    NotIsMachine(x);
    NotIsMachine(z);
    if i < 16 {
      BitwiseIsMachine(x, y);
      BitwiseIsMachine(MNot(x), z);
      BitwiseIsMachine(MAnd(x, y), MAnd(MNot(x), z));
    } else if i < 32 {
      BitwiseIsMachine(x, z);
      BitwiseIsMachine(y, MNot(z));
      BitwiseIsMachine(MAnd(x, z), MAnd(y, MNot(z)));
    } else if i < 48 {
      XorOfThree(x, y, z);
    } else {
      BitwiseIsMachine(x, MNot(z));
      BitwiseIsMachine(y, MOr(x, MNot(z)));
    }
  }
}
