/** The hash functions as their standards define them: on a whole message. */
module HashSpec {
  import opened Basics
  import opened Endian

  type Word = Word32

  type Block = b: Bytes | |b| == 64 witness seq(64, _ => 0)

  // ---- padding ----

  function Zeros(n: nat): (s: Bytes)
    ensures |s| == n
  {
    seq(n, _ => 0)
  }

  /** How many zero bytes go between the end mark and the length: the fewest
      that leave eight bytes of the last block free. */
  function ZeroCount(length: nat): (z: nat)
    ensures z < 64 && (length + 1 + z) % 64 == 56
  {
    (55 - length) % 64
  }

  lemma PadSize(length: nat)
    ensures (length + 1 + ZeroCount(length) + 8) % 64 == 0
  {
  }

  /** The bit length, as the 64-bit value it is stored in. */
  function BitLength(length: nat): nat {
    8 * length % WORD
  }

  lemma ShortMessages(length: nat)
    requires length < 0x2000_0000_0000_0000
    ensures BitLength(length) == 8 * length
  {
  }

  /** Section 5.1.1 of FIPS 180-4: a one bit, zero bits, the length with its high bytes first. */
  function PadBig(m: Bytes): (p: Bytes)
    ensures |p| % 64 == 0
  {
    PadSize(|m|);
    m + [0x80] + Zeros(ZeroCount(|m|)) + Big(BitLength(|m|), 8)
  }

  /** Sections 3.1 and 3.2 of RFC 1321: the same with the low bytes first. */
  function PadLittle(m: Bytes): (p: Bytes)
    ensures |p| % 64 == 0
  {
    PadSize(|m|);
    m + [0x80] + Zeros(ZeroCount(|m|)) + Little(BitLength(|m|), 8)
  }

  lemma FirstBlock(m: Bytes)
    requires |m| % 64 == 0 && m != []
    ensures |m| >= 64 && |m[..64]| == 64 && |m[64..]| % 64 == 0 && |m[64..]| < |m|
  {
  }

  // ---- words ----

  function LoadBig(s: Bytes, i: nat): Word
    requires i + 4 <= |s|
  {
    0x100_0000 * (s[i] as int) + 0x1_0000 * (s[i + 1] as int) + 0x100 * (s[i + 2] as int) + s[i + 3]
  }

  function LoadLittle(s: Bytes, i: nat): Word
    requires i + 4 <= |s|
  {
    s[i] + 0x100 * (s[i + 1] as int) + 0x1_0000 * (s[i + 2] as int) + 0x100_0000 * (s[i + 3] as int)
  }

  function StoreBig(w: Word): (s: Bytes)
    ensures |s| == 4
  {
    Big(w, 4)
  }

  function StoreLittle(w: Word): (s: Bytes)
    ensures |s| == 4
  {
    Little(w, 4)
  }

  /** Addition modulo 2^32. */
  function Add(x: Word, y: Word): Word {
    if x + y < WORD32 then x + y else x + y - WORD32
  }

  datatype Op = AND | OR | XOR

  function Bit(op: Op, a: nat, b: nat): (c: nat)
    ensures c <= 1
  {
    match op
    case AND => if a == 1 && b == 1 then 1 else 0
    case OR => if a == 1 || b == 1 then 1 else 0
    case XOR => if a != b then 1 else 0
  }

  function Power2(n: nat): nat {
    if n == 0 then 1 else 2 * Power2(n - 1)
  }

  /** The low `n` bits, combined bit by bit. */
  function Bitwise(op: Op, x: nat, y: nat, n: nat): (r: nat)
    ensures r < Power2(n)
  {
    if n == 0 then 0 else Bit(op, x % 2, y % 2) + 2 * Bitwise(op, x / 2, y / 2, n - 1)
  }

  lemma WordPower()
    ensures Power2(32) == WORD32
  {
    assert Power2(8) == 0x100;
    assert Power2(16) == 0x1_0000;
    assert Power2(24) == 0x100_0000;
  }

  function And(x: Word, y: Word): Word {
    WordPower();
    Bitwise(AND, x, y, 32)
  }

  function Or(x: Word, y: Word): Word {
    WordPower();
    Bitwise(OR, x, y, 32)
  }

  function Xor(x: Word, y: Word): Word {
    WordPower();
    Bitwise(XOR, x, y, 32)
  }

  function Not(x: Word): Word {
    WORD32 - 1 - x
  }

  function Shr(x: Word, n: nat): Word {
    if n == 0 then x else Shr(x, n - 1) / 2
  }

  /** Rotations, one bit at a time. */
  function Rotr(x: Word, n: nat): Word {
    if n == 0 then x
    else
      var y := Rotr(x, n - 1);
      y / 2 + (if y % 2 == 1 then WORD32 / 2 else 0)
  }

  function Rotl(x: Word, n: nat): Word {
    if n == 0 then x
    else
      var y := Rotl(x, n - 1);
      if y < WORD32 / 2 then 2 * y else 2 * y - WORD32 + 1
  }

  // ---- SHA-256: section 6.2.2 of FIPS 180-4 ----

  /** Section 4.1.2. */
  function Ch(x: Word, y: Word, z: Word): Word {
    Xor(And(x, y), And(Not(x), z))
  }

  function Maj(x: Word, y: Word, z: Word): Word {
    Xor(Xor(And(x, y), And(x, z)), And(y, z))
  }

  function BigSigma0(x: Word): Word {
    Xor(Xor(Rotr(x, 2), Rotr(x, 13)), Rotr(x, 22))
  }

  function BigSigma1(x: Word): Word {
    Xor(Xor(Rotr(x, 6), Rotr(x, 11)), Rotr(x, 25))
  }

  function SmallSigma0(x: Word): Word {
    Xor(Xor(Rotr(x, 7), Rotr(x, 18)), Shr(x, 3))
  }

  function SmallSigma1(x: Word): Word {
    Xor(Xor(Rotr(x, 17), Rotr(x, 19)), Shr(x, 10))
  }

  /** Section 4.2.2. */
  const SHA_TABLE1: seq<Word> := [
    0x428a2f98, 0x71374491, 0xb5c0fbcf, 0xe9b5dba5, 0x3956c25b, 0x59f111f1, 0x923f82a4, 0xab1c5ed5,
    0xd807aa98, 0x12835b01, 0x243185be, 0x550c7dc3, 0x72be5d74, 0x80deb1fe, 0x9bdc06a7, 0xc19bf174]
  const SHA_TABLE2: seq<Word> := [
    0xe49b69c1, 0xefbe4786, 0x0fc19dc6, 0x240ca1cc, 0x2de92c6f, 0x4a7484aa, 0x5cb0a9dc, 0x76f988da,
    0x983e5152, 0xa831c66d, 0xb00327c8, 0xbf597fc7, 0xc6e00bf3, 0xd5a79147, 0x06ca6351, 0x14292967]
  const SHA_TABLE3: seq<Word> := [
    0x27b70a85, 0x2e1b2138, 0x4d2c6dfc, 0x53380d13, 0x650a7354, 0x766a0abb, 0x81c2c92e, 0x92722c85,
    0xa2bfe8a1, 0xa81a664b, 0xc24b8b70, 0xc76c51a3, 0xd192e819, 0xd6990624, 0xf40e3585, 0x106aa070]
  const SHA_TABLE4: seq<Word> := [
    0x19a4c116, 0x1e376c08, 0x2748774c, 0x34b0bcb5, 0x391c0cb3, 0x4ed8aa4a, 0x5b9cca4f, 0x682e6ff3,
    0x748f82ee, 0x78a5636f, 0x84c87814, 0x8cc70208, 0x90befffa, 0xa4506ceb, 0xbef9a3f7, 0xc67178f2]

  function ShaK(t: nat): Word
    requires t < 64
  {
    if t < 16 then SHA_TABLE1[t] else if t < 32 then SHA_TABLE2[t - 16]
    else if t < 48 then SHA_TABLE3[t - 32] else SHA_TABLE4[t - 48]
  }

  /** The message schedule, written top-down. */
  function Schedule(b: Block, t: nat): Word {
    if t < 16 then LoadBig(b, 4 * t)
    else
      Add(Add(Add(SmallSigma1(Schedule(b, t - 2)), Schedule(b, t - 7)), SmallSigma0(Schedule(b, t - 15))),
          Schedule(b, t - 16))
  }

  datatype Sha = Sha(a: Word, b: Word, c: Word, d: Word, e: Word, f: Word, g: Word, h: Word)

  /** Section 5.3.3. */
  const SHA_START := Sha(0x6a09e667, 0xbb67ae85, 0x3c6ef372, 0xa54ff53a, 0x510e527f, 0x9b05688c, 0x1f83d9ab, 0x5be0cd19)

  function ShaRound(s: Sha, k: Word, w: Word): Sha {
    var t1 := Add(Add(Add(Add(s.h, BigSigma1(s.e)), Ch(s.e, s.f, s.g)), k), w);
    var t2 := Add(BigSigma0(s.a), Maj(s.a, s.b, s.c));
    Sha(Add(t1, t2), s.a, s.b, s.c, Add(s.d, t1), s.e, s.f, s.g)
  }

  function ShaRounds(s: Sha, b: Block, t: nat): Sha
    requires t <= 64
  {
    if t == 0 then s else ShaRound(ShaRounds(s, b, t - 1), ShaK(t - 1), Schedule(b, t - 1))
  }

  function ShaSum(s: Sha, r: Sha): Sha {
    Sha(Add(r.a, s.a), Add(r.b, s.b), Add(r.c, s.c), Add(r.d, s.d),
        Add(r.e, s.e), Add(r.f, s.f), Add(r.g, s.g), Add(r.h, s.h))
  }

  function ShaCompress(s: Sha, b: Block): Sha {
    ShaSum(s, ShaRounds(s, b, 64))
  }

  /** Block after block. */
  function ShaFold(s: Sha, m: Bytes): Sha
    requires |m| % 64 == 0
    decreases |m|
  {
    if m == [] then s
    else
      FirstBlock(m);
      ShaFold(ShaCompress(s, m[..64]), m[64..])
  }

  function ShaBytes(s: Sha): (d: Bytes)
    ensures |d| == 32
  {
    StoreBig(s.a) + StoreBig(s.b) + StoreBig(s.c) + StoreBig(s.d)
    + StoreBig(s.e) + StoreBig(s.f) + StoreBig(s.g) + StoreBig(s.h)
  }

  function Sha256(m: Bytes): (d: Bytes)
    ensures |d| == 32
  {
    ShaBytes(ShaFold(SHA_START, PadBig(m)))
  }

  // ---- HMAC: section 2 of RFC 2104 ----

  /** A key longer than a block is hashed first; shorter ones are filled up with zeros. */
  function BlockKey(key: Bytes): (k: Block) {
    var short := if |key| > 64 then Sha256(key) else key;
    short + Zeros(64 - |short|)
  }

  function XorAll(k: Bytes, x: Byte): (r: Bytes)
    ensures |r| == |k|
    ensures forall i :: 0 <= i < |k| ==> r[i] == XorByte(k[i], x)
  {
    if k == [] then [] else [XorByte(k[0], x)] + XorAll(k[1..], x)
  }

  function Hmac(key: Bytes, text: Bytes): Bytes {
    var k := BlockKey(key);
    Sha256(XorAll(k, 0x5c) + Sha256(XorAll(k, 0x36) + text))
  }

  // ---- MD5: section 3.4 of RFC 1321 ----

  // Section 3.4: the sine table.

  const MD5_TABLE1: seq<Word> := [
    0xd76aa478, 0xe8c7b756, 0x242070db, 0xc1bdceee, 0xf57c0faf, 0x4787c62a, 0xa8304613, 0xfd469501,
    0x698098d8, 0x8b44f7af, 0xffff5bb1, 0x895cd7be, 0x6b901122, 0xfd987193, 0xa679438e, 0x49b40821]
  const MD5_TABLE2: seq<Word> := [
    0xf61e2562, 0xc040b340, 0x265e5a51, 0xe9b6c7aa, 0xd62f105d, 0x02441453, 0xd8a1e681, 0xe7d3fbc8,
    0x21e1cde6, 0xc33707d6, 0xf4d50d87, 0x455a14ed, 0xa9e3e905, 0xfcefa3f8, 0x676f02d9, 0x8d2a4c8a]
  const MD5_TABLE3: seq<Word> := [
    0xfffa3942, 0x8771f681, 0x6d9d6122, 0xfde5380c, 0xa4beea44, 0x4bdecfa9, 0xf6bb4b60, 0xbebfbc70,
    0x289b7ec6, 0xeaa127fa, 0xd4ef3085, 0x04881d05, 0xd9d4d039, 0xe6db99e5, 0x1fa27cf8, 0xc4ac5665]
  const MD5_TABLE4: seq<Word> := [
    0xf4292244, 0x432aff97, 0xab9423a7, 0xfc93a039, 0x655b59c3, 0x8f0ccc92, 0xffeff47d, 0x85845dd1,
    0x6fa87e4f, 0xfe2ce6e0, 0xa3014314, 0x4e0811a1, 0xf7537e82, 0xbd3af235, 0x2ad7d2bb, 0xeb86d391]

  function Md5T(i: nat): Word
    requires i < 64
  {
    if i < 16 then MD5_TABLE1[i] else if i < 32 then MD5_TABLE2[i - 16]
    else if i < 48 then MD5_TABLE3[i - 32] else MD5_TABLE4[i - 48]
  }

  type Index = i: nat | i < 16

  // The word that each operation takes, as the RFC lists them round by round.

  const ROUND1: seq<Index> := [0, 1, 2, 3, 4, 5, 6, 7, 8, 9, 10, 11, 12, 13, 14, 15]
  const ROUND2: seq<Index> := [1, 6, 11, 0, 5, 10, 15, 4, 9, 14, 3, 8, 13, 2, 7, 12]
  const ROUND3: seq<Index> := [5, 8, 11, 14, 1, 4, 7, 10, 13, 0, 3, 6, 9, 12, 15, 2]
  const ROUND4: seq<Index> := [0, 7, 14, 5, 12, 3, 10, 1, 8, 15, 6, 13, 4, 11, 2, 9]

  function Md5Word(i: nat): Index
    requires i < 64
  {
    if i < 16 then ROUND1[i] else if i < 32 then ROUND2[i - 16] else if i < 48 then ROUND3[i - 32] else ROUND4[i - 48]
  }

  /** The shifts repeat after four operations, and change with the round. */
  const MD5_SHIFTS: seq<nat> := [7, 12, 17, 22, 5, 9, 14, 20, 4, 11, 16, 23, 6, 10, 15, 21]

  function Md5Shift(i: nat): (n: nat)
    requires i < 64
    ensures 0 < n < 32
  {
    MD5_SHIFTS[4 * (i / 16) + i % 4]
  }

  function Md5F(i: nat, x: Word, y: Word, z: Word): Word {
    if i < 16 then Or(And(x, y), And(Not(x), z))
    else if i < 32 then Or(And(x, z), And(y, Not(z)))
    else if i < 48 then Xor(Xor(x, y), z)
    else Xor(y, Or(x, Not(z)))
  }

  /** The registers A, B, C and D, which the operations change in turn. */
  datatype Md5 = Md5(a: Word, b: Word, c: Word, d: Word)

  const MD5_START := Md5(0x67452301, 0xefcdab89, 0x98badcfe, 0x10325476)

  /** `a = b + ((a + F(b, c, d) + X[k] + T[i]) <<< s)`, for the registers that the operation names. */
  function Md5Operation(i: nat, x: Block, a: Word, b: Word, c: Word, d: Word): Word
    requires i < 64
  {
    Add(b, Rotl(Add(Add(Add(a, Md5F(i, b, c, d)), LoadLittle(x, 4 * Md5Word(i))), Md5T(i)), Md5Shift(i)))
  }

  /** Operation `i` is one of [ABCD], [DABC], [CDAB] and [BCDA], by turns. */
  function Md5Step(s: Md5, i: nat, x: Block): Md5
    requires i < 64
  {
    if i % 4 == 0 then s.(a := Md5Operation(i, x, s.a, s.b, s.c, s.d))
    else if i % 4 == 1 then s.(d := Md5Operation(i, x, s.d, s.a, s.b, s.c))
    else if i % 4 == 2 then s.(c := Md5Operation(i, x, s.c, s.d, s.a, s.b))
    else s.(b := Md5Operation(i, x, s.b, s.c, s.d, s.a))
  }

  function Md5Steps(s: Md5, x: Block, n: nat): Md5
    requires n <= 64
  {
    if n == 0 then s else Md5Step(Md5Steps(s, x, n - 1), n - 1, x)
  }

  function Md5Compress(s: Md5, x: Block): Md5 {
    var r := Md5Steps(s, x, 64);
    Md5(Add(r.a, s.a), Add(r.b, s.b), Add(r.c, s.c), Add(r.d, s.d))
  }

  function Md5Fold(s: Md5, m: Bytes): Md5
    requires |m| % 64 == 0
    decreases |m|
  {
    if m == [] then s
    else
      FirstBlock(m);
      Md5Fold(Md5Compress(s, m[..64]), m[64..])
  }

  function Md5Bytes(s: Md5): (d: Bytes)
    ensures |d| == 16
  {
    StoreLittle(s.a) + StoreLittle(s.b) + StoreLittle(s.c) + StoreLittle(s.d)
  }

  function Md5Sum(m: Bytes): (d: Bytes)
    ensures |d| == 16
  {
    Md5Bytes(Md5Fold(MD5_START, PadLittle(m)))
  }
}
