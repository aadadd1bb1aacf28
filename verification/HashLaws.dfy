/** Facts both streaming hashes need. */
module HashLaws {
  import opened Basics
  import opened Endian
  import opened HashSpec

  /** Taking in one more block. */
  lemma {:induction false} ShaFoldStep(s: Sha, m: Bytes, b: Block)
    requires |m| % 64 == 0
    ensures |m + b| % 64 == 0 && ShaFold(s, m + b) == ShaCompress(ShaFold(s, m), b)
    decreases |m|
  {
    hide ShaCompress;
    if m == [] {
      assert m + b == b && b[..64] == b && b[64..] == [];
    } else {
      assert (m + b)[..64] == m[..64] && (m + b)[64..] == m[64..] + b;
      ShaFoldStep(ShaCompress(s, m[..64]), m[64..], b);
    }
  }

  lemma {:induction false} Md5FoldStep(s: Md5, m: Bytes, b: Block)
    requires |m| % 64 == 0
    ensures |m + b| % 64 == 0 && Md5Fold(s, m + b) == Md5Compress(Md5Fold(s, m), b)
    decreases |m|
  {
    hide Md5Compress;
    if m == [] {
      assert m + b == b && b[..64] == b && b[64..] == [];
    } else {
      assert (m + b)[..64] == m[..64] && (m + b)[64..] == m[64..] + b;
      Md5FoldStep(Md5Compress(s, m[..64]), m[64..], b);
    }
  }

  lemma AddCommutes(a: Word, b: Word)
    ensures Add(a, b) == Add(b, a)
  {
  }

  lemma AddAssociates(a: Word, b: Word, c: Word)
    ensures Add(Add(a, b), c) == Add(a, Add(b, c))
  {
  }

  lemma AddSwapped(x: Word, c: Word, d: Word)
    ensures Add(Add(x, c), d) == Add(Add(x, d), c)
  {
    hide Add;
    AddAssociates(x, c, d);
    AddCommutes(c, d);
    AddAssociates(x, d, c);
  }

  lemma AddReversed(a: Word, b: Word, c: Word, d: Word)
    ensures Add(Add(Add(a, b), c), d) == Add(Add(Add(d, c), b), a)
  {
    hide Add;
    AddCommutes(a, b);
    AddSwapped(b, a, c);
    AddSwapped(Add(b, c), a, d);
    AddCommutes(b, c);
    AddSwapped(c, b, d);
    AddCommutes(c, d);
  }

  /** The number of padding bytes, by how full the last block is. */
  lemma PadLength(length: nat, used: nat)
    requires used == length % 64
    ensures (if used < 56 then 56 - used else 120 - used) == 1 + ZeroCount(length)
  {
  }

  lemma PadPrefix(n: nat)
    requires n < 64
    ensures ([0x80] + Zeros(63))[..1 + n] == [0x80] + Zeros(n)
  {
  }

  /** The 64-bit counter holds the length modulo its range, and the bit length comes out right all the same. */
  lemma CountOn(length: nat, more: nat)
    ensures (length % WORD + more) % WORD == (length + more) % WORD
  {
    var q := length / WORD;
    assert length == q * WORD + length % WORD;
    Shift(length % WORD + more, q);
  }

  lemma {:induction false} Shift(x: nat, q: nat)
    ensures (q * WORD + x) % WORD == x % WORD
  {
    if q > 0 {
      Shift(x, q - 1);
      assert q * WORD + x == WORD + ((q - 1) * WORD + x);
    }
  }

  lemma CountBits(length: nat)
    ensures length % WORD * 8 % WORD == BitLength(length)
  {
    var q := length / WORD;
    assert length == q * WORD + length % WORD;
    assert 8 * length == (8 * q) * WORD + length % WORD * 8;
    Shift(length % WORD * 8, 8 * q);
  }

  // ---- the input, the buffer and what has been hashed ----

  lemma Blocks(hashed: Bytes, data: Bytes, pos: nat)
    requires pos + 64 <= |data|
    ensures hashed + data[pos..pos + 64] + [] + data[pos + 64..] == hashed + [] + data[pos..]
  {
    assert data[pos..] == data[pos..pos + 64] + data[pos + 64..];
    assert hashed + [] == hashed;
    assert hashed + data[pos..pos + 64] + [] == hashed + data[pos..pos + 64];
  }

  /** Less than a block is left; when there is something left, the buffer is empty. */
  lemma Remainder(hashed: Bytes, kept: Bytes, data: Bytes, pos: nat)
    requires pos <= |data| && (pos < |data| ==> kept == [])
    ensures hashed + kept + data[pos..] == hashed + (kept + data[pos..])
    ensures pos == |data| ==> kept + data[pos..] == kept
  {
  }

  lemma Rejoin(hashed: Bytes, kept: Bytes, data: Bytes, n: nat)
    requires n <= |data|
    ensures hashed + (kept + data[..n]) + data[n..] == hashed + kept + data
  {
    assert data == data[..n] + data[n..];
  }

  lemma UsedBytes(hashed: Bytes, kept: Bytes)
    requires |hashed| % 64 == 0 && |kept| < 64
    ensures |kept| == |hashed + kept| % 64
  {
  }

  lemma NothingLeft(hashed: Bytes, kept: Bytes)
    requires |hashed| % 64 == 0 && |kept| < 64 && |hashed + kept| % 64 == 0
    ensures hashed + kept == hashed
  {
  }

  function Join(pieces: seq<Bytes>): Bytes {
    if pieces == [] then [] else Join(pieces[..|pieces| - 1]) + pieces[|pieces| - 1]
  }

  // ---- storing a 64-bit length ----

  function StoreBig64(v: nat): Bytes {
    [v / 0x100_0000_0000_0000 % 0x100, v / 0x1_0000_0000_0000 % 0x100, v / 0x100_0000_0000 % 0x100,
     v / 0x1_0000_0000 % 0x100, v / 0x100_0000 % 0x100, v / 0x1_0000 % 0x100, v / 0x100 % 0x100, v % 0x100]
  }

  function StoreLittle64(v: nat): Bytes {
    [v % 0x100, v / 0x100 % 0x100, v / 0x1_0000 % 0x100, v / 0x100_0000 % 0x100, v / 0x1_0000_0000 % 0x100,
     v / 0x100_0000_0000 % 0x100, v / 0x1_0000_0000_0000 % 0x100, v / 0x100_0000_0000_0000 % 0x100]
  }

  function Shifted(v: nat, n: nat): nat {
    if n == 0 then v else Shifted(v / 0x100, n - 1)
  }

  lemma Shifts(v: nat)
    ensures Shifted(v, 1) == v / 0x100 && Shifted(v, 2) == v / 0x1_0000 && Shifted(v, 3) == v / 0x100_0000
    ensures Shifted(v, 4) == v / 0x1_0000_0000 && Shifted(v, 5) == v / 0x100_0000_0000
    ensures Shifted(v, 6) == v / 0x1_0000_0000_0000 && Shifted(v, 7) == v / 0x100_0000_0000_0000
  {
    assert v / 0x1_0000 == v / 0x100 / 0x100;
    assert v / 0x100_0000 == v / 0x1_0000 / 0x100;
    assert v / 0x1_0000_0000 == v / 0x100_0000 / 0x100;
    assert v / 0x100_0000_0000 == v / 0x1_0000_0000 / 0x100;
    assert v / 0x1_0000_0000_0000 == v / 0x100_0000_0000 / 0x100;
    assert v / 0x100_0000_0000_0000 == v / 0x1_0000_0000_0000 / 0x100;
    ShiftedOn(v, 1);
    ShiftedOn(v, 2);
    ShiftedOn(v, 3);
    ShiftedOn(v, 4);
    ShiftedOn(v, 5);
    ShiftedOn(v, 6);
    assert Shifted(v, 1) == v / 0x100;
  }

  lemma {:induction false} ShiftedOn(v: nat, n: nat)
    ensures Shifted(v, n + 1) == Shifted(v, n) / 0x100
  {
    if n > 0 {
      ShiftedOn(v / 0x100, n - 1);
    }
  }

  lemma {:induction false} LittleAt(v: nat, n: nat, i: nat)
    requires i < n
    ensures Little(v, n)[i] == Shifted(v, i) % 0x100
  {
    if i > 0 {
      LittleAt(v / 0x100, n - 1, i - 1);
    }
  }

  lemma {:induction false} BigAt(v: nat, n: nat, i: nat)
    requires i < n
    ensures Big(v, n)[n - 1 - i] == Shifted(v, i) % 0x100
  {
    if i > 0 {
      BigAt(v / 0x100, n - 1, i - 1);
    }
  }

  lemma StoreBig64Exact(v: nat)
    ensures StoreBig64(v) == Big(v, 8)
  {
    Shifts(v);
    hide Shifted, Big;
    forall i | 0 <= i < 8 ensures Big(v, 8)[7 - i] == Shifted(v, i) % 0x100 {
      BigAt(v, 8, i);
    }
    LowByte(v);
    assert Big(v, 8)[7] == v % 0x100 && Big(v, 8)[6] == v / 0x100 % 0x100 && Big(v, 8)[5] == v / 0x1_0000 % 0x100;
    assert Big(v, 8)[4] == v / 0x100_0000 % 0x100 && Big(v, 8)[3] == v / 0x1_0000_0000 % 0x100;
    assert Big(v, 8)[2] == v / 0x100_0000_0000 % 0x100 && Big(v, 8)[1] == v / 0x1_0000_0000_0000 % 0x100;
    assert Big(v, 8)[0] == v / 0x100_0000_0000_0000 % 0x100;
  }

  lemma LowByte(v: nat)
    ensures Shifted(v, 0) == v
  {
  }

  lemma StoreLittle64Exact(v: nat)
    ensures StoreLittle64(v) == Little(v, 8)
  {
    Shifts(v);
    hide Shifted, Little;
    forall i | 0 <= i < 8 ensures Little(v, 8)[i] == Shifted(v, i) % 0x100 {
      LittleAt(v, 8, i);
    }
    LowByte(v);
    assert Little(v, 8)[0] == v % 0x100 && Little(v, 8)[1] == v / 0x100 % 0x100 && Little(v, 8)[2] == v / 0x1_0000 % 0x100;
    assert Little(v, 8)[3] == v / 0x100_0000 % 0x100 && Little(v, 8)[4] == v / 0x1_0000_0000 % 0x100;
    assert Little(v, 8)[5] == v / 0x100_0000_0000 % 0x100 && Little(v, 8)[6] == v / 0x1_0000_0000_0000 % 0x100;
    assert Little(v, 8)[7] == v / 0x100_0000_0000_0000 % 0x100;
  }

  // ---- storing a word ----

  function StoreBig32(v: Word): Bytes {
    [v / 0x100_0000, v / 0x1_0000 % 0x100, v / 0x100 % 0x100, v % 0x100]
  }

  function StoreLittle32(v: Word): Bytes {
    [v % 0x100, v / 0x100 % 0x100, v / 0x1_0000 % 0x100, v / 0x100_0000]
  }

  lemma StoreBig32Exact(v: Word)
    ensures StoreBig32(v) == StoreBig(v)
  {
    Shifts(v);
    BigAt(v, 4, 0);
    BigAt(v, 4, 1);
    BigAt(v, 4, 2);
    BigAt(v, 4, 3);
    LowByte(v);
    hide Shifted, Big;
  }

  lemma StoreLittle32Exact(v: Word)
    ensures StoreLittle32(v) == StoreLittle(v)
  {
    Shifts(v);
    LittleAt(v, 4, 0);
    LittleAt(v, 4, 1);
    LittleAt(v, 4, 2);
    LittleAt(v, 4, 3);
    LowByte(v);
    hide Shifted, Little;
  }

  /** Section 2 of RFC 2104, byte by byte: the key, hashed first when it is longer
      than 64 bytes, is filled up with zeros and combined with 0x36 before the
      text and with 0x5c before the inner digest. */
  lemma HmacByBytes(key: Bytes, text: Bytes) returns (inner: Bytes, outer: Bytes)
    ensures |inner| == 64 && |outer| == 64
    ensures var k := if |key| > 64 then Sha256(key) else key;
            forall i :: 0 <= i < 64 ==>
              && inner[i] == XorByte(if i < |k| then k[i] else 0, 0x36)
              && outer[i] == XorByte(if i < |k| then k[i] else 0, 0x5c)
    ensures Hmac(key, text) == Sha256(outer + Sha256(inner + text))
  {
    hide Sha256, XorByte;
    inner, outer := XorAll(BlockKey(key), 0x36), XorAll(BlockKey(key), 0x5c);
  }

  // ---- padding ----

  lemma {:induction false} BigIsReversed(v: nat, n: nat, i: nat)
    requires i < n
    ensures Big(v, n)[i] == Little(v, n)[n - 1 - i]
    decreases n
  {
    assert Big(v, n) == Big(v / 256, n - 1) + [v % 256];
    assert Little(v, n) == [v % 256] + Little(v / 256, n - 1);
    hide Big, Little;
    if i < n - 1 {
      BigIsReversed(v / 256, n - 1, i);
    }
  }

  /** Both paddings by positions: the message, 0x80, zeros, and in the last eight
      bytes its length in bits, low bytes first for MD5 and high bytes first for SHA-256. */
  lemma {:induction false} PadBytes(m: Bytes)
    requires |m| < 0x2000_0000_0000_0000
    ensures var p, n := PadLittle(m), |m|;
            && |p| % 64 == 0 && n + 9 <= |p| <= n + 72
            && p[..n] == m && p[n] == 0x80 && (forall i :: n < i < |p| - 8 ==> p[i] == 0)
            && FromLittle(p[|p| - 8..]) == 8 * n
    ensures var p, q := PadLittle(m), PadBig(m);
            && |p| == |q| && q[..|q| - 8] == p[..|p| - 8]
            && forall i :: |q| - 8 <= i < |q| ==> q[i] == p[2 * |q| - 9 - i]
  {
    hide Little, Big, FromLittle;
    ShortMessages(|m|);
    Powers();
    LittleRoundTrip(8 * |m|, 8);
    forall i | 0 <= i < 8 ensures Big(8 * |m|, 8)[i] == Little(8 * |m|, 8)[7 - i] {
      BigIsReversed(8 * |m|, 8, i);
    }
    var p, q := PadLittle(m), PadBig(m);
    assert p[|p| - 8..] == Little(8 * |m|, 8);
    assert q[|q| - 8..] == Big(8 * |m|, 8);
    assert forall i :: |q| - 8 <= i < |q| ==> q[i] == Big(8 * |m|, 8)[i - (|q| - 8)];
    assert forall i :: |p| - 8 <= i < |p| ==> p[i] == Little(8 * |m|, 8)[i - (|p| - 8)];
    assert q[..|q| - 8] == p[..|p| - 8] == m + [0x80] + Zeros(ZeroCount(|m|));
  }

  // ---- the formulas of the standards, by sums ----

  lemma AddIsSum(x: Word, y: Word)
    ensures Add(x, y) == (x + y) % WORD32
  {
  }

  /** Sums taken step by step are the sum, up to multiples of 2^32. */
  lemma SumOfFour(p: Word, q: Word, r: Word, s: Word)
    ensures var z: int := p; Add(Add(Add(p, q), r), s) == (z + q + r + s) % WORD32
  {
  }

  lemma SumOfFive(p: Word, q: Word, r: Word, s: Word, t: Word)
    ensures var z: int := p; Add(Add(Add(Add(p, q), r), s), t) == (z + q + r + s + t) % WORD32
  {
  }

  /** Section 6.2.2 of FIPS 180-4, step 3: six variables move on by one, and two are sums. */
  lemma {:induction false} ShaRoundSums(s: Sha, k: Word, w: Word)
    ensures var r := ShaRound(s, k, w);
            var t1 := s.h + BigSigma1(s.e) + Ch(s.e, s.f, s.g) + k + w;
            && r.b == s.a && r.c == s.b && r.d == s.c && r.f == s.e && r.g == s.f && r.h == s.g
            && r.e == (s.d + t1) % WORD32
            && r.a == (t1 + BigSigma0(s.a) + Maj(s.a, s.b, s.c)) % WORD32
  {
    hide Add, BigSigma0, BigSigma1, Ch, Maj;
    var h1, ch, s0, mj := BigSigma1(s.e), Ch(s.e, s.f, s.g), BigSigma0(s.a), Maj(s.a, s.b, s.c);
    SumOfFive(s.h, h1, ch, k, w);
    AddIsSum(s0, mj);
    var t1, t2 := Add(Add(Add(Add(s.h, h1), ch), k), w), Add(s0, mj);
    AddIsSum(t1, t2);
    AddIsSum(s.d, t1);
    var x: nat, y: nat, d: nat := s.h, s0, s.d;
    SumsModulo(x + h1 + ch + k + w, y + mj, t1, t2);
    SumsModulo(d, x + h1 + ch + k + w, s.d, t1);
  }

  lemma SumsModulo(x: nat, y: nat, a: Word, b: Word)
    requires x % WORD32 == a && y % WORD32 == b
    ensures (a + b) % WORD32 == (x + y) % WORD32
  {
  }

  /** The message schedule of section 6.2.2 of FIPS 180-4: sixteen words of the
      block, high bytes first, and sums of four after that. */
  lemma {:induction false} ScheduleSums(b: Block, t: nat)
    requires t < 64
    ensures t < 16 ==>
              Schedule(b, t) == 0x100_0000 * (b[4 * t] as int) + 0x1_0000 * (b[4 * t + 1] as int)
                                + 0x100 * (b[4 * t + 2] as int) + b[4 * t + 3]
    ensures t >= 16 ==>
              Schedule(b, t) == (SmallSigma1(Schedule(b, t - 2)) + Schedule(b, t - 7)
                                 + SmallSigma0(Schedule(b, t - 15)) + Schedule(b, t - 16)) % WORD32
  {
    if t >= 16 {
      var p, q := SmallSigma1(Schedule(b, t - 2)), Schedule(b, t - 7);
      var r, s := SmallSigma0(Schedule(b, t - 15)), Schedule(b, t - 16);
      hide Add, SmallSigma0, SmallSigma1;
      SumOfFour(p, q, r, s);
    }
  }

  /** Section 3.4 of RFC 1321: the operation adds four numbers, rotates the sum and
      adds it to the next register; by turns it changes A, D, C and B. */
  lemma {:induction false} Md5StepSums(s: Md5, i: nat, x: Block)
    requires i < 64
    ensures var r := Md5Step(s, i, x);
            var (a, b, c, d) := if i % 4 == 0 then (s.a, s.b, s.c, s.d) else if i % 4 == 1 then (s.d, s.a, s.b, s.c)
                                else if i % 4 == 2 then (s.c, s.d, s.a, s.b) else (s.b, s.c, s.d, s.a);
            var sum: Word := (a + Md5F(i, b, c, d) + LoadLittle(x, 4 * Md5Word(i)) + Md5T(i)) % WORD32;
            var next: Word := (b + Rotl(sum, Md5Shift(i))) % WORD32;
            r == if i % 4 == 0 then s.(a := next) else if i % 4 == 1 then s.(d := next)
                 else if i % 4 == 2 then s.(c := next) else s.(b := next)
  {
    hide Add, Md5F, LoadLittle, Md5Word, Md5T, Rotl, Md5Shift;
    var (a, b, c, d) := if i % 4 == 0 then (s.a, s.b, s.c, s.d) else if i % 4 == 1 then (s.d, s.a, s.b, s.c)
                        else if i % 4 == 2 then (s.c, s.d, s.a, s.b) else (s.b, s.c, s.d, s.a);
    var f, w, t := Md5F(i, b, c, d), LoadLittle(x, 4 * Md5Word(i)), Md5T(i);
    SumOfFour(a, f, w, t);
    AddIsSum(b, Rotl(Add(Add(Add(a, f), w), t), Md5Shift(i)));
  }

  /** Section 3.3 of RFC 1321 lists the first values of the registers byte by byte. */
  lemma Md5Start()
    ensures MD5_START.a == LoadLittle([0x01, 0x23, 0x45, 0x67], 0)
    ensures MD5_START.b == LoadLittle([0x89, 0xab, 0xcd, 0xef], 0)
    ensures MD5_START.c == LoadLittle([0xfe, 0xdc, 0xba, 0x98], 0)
    ensures MD5_START.d == LoadLittle([0x76, 0x54, 0x32, 0x10], 0)
  {
  }
}
