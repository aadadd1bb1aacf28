/** Buffered MD5. */
module Md5Stream {
  import opened Basics
  import opened Endian
  import opened HashSpec
  import opened HashLaws
  import opened HashWords

  // ---- one block ----

  // The shifts, listed for every operation.

  const SHIFTS1: seq<nat> := [7, 12, 17, 22, 7, 12, 17, 22, 7, 12, 17, 22, 7, 12, 17, 22]
  const SHIFTS2: seq<nat> := [5, 9, 14, 20, 5, 9, 14, 20, 5, 9, 14, 20, 5, 9, 14, 20]
  const SHIFTS3: seq<nat> := [4, 11, 16, 23, 4, 11, 16, 23, 4, 11, 16, 23, 4, 11, 16, 23]
  const SHIFTS4: seq<nat> := [6, 10, 15, 21, 6, 10, 15, 21, 6, 10, 15, 21, 6, 10, 15, 21]

  function ShiftAt(i: nat): nat
    requires i < 64
  {
    if i < 16 then SHIFTS1[i] else if i < 32 then SHIFTS2[i - 16] else if i < 48 then SHIFTS3[i - 32] else SHIFTS4[i - 48]
  }

  /** The index formulas of the four rounds; masking with 15 is the remainder by 16. */
  function WordAt(i: nat): (g: nat)
    ensures g < 16
  {
    if i < 16 then i
    else if i < 32 then (5 * i + 1) % 16
    else if i < 48 then (3 * i + 5) % 16
    else 7 * i % 16
  }

  lemma TablesAgree1(i: nat)
    requires 0 <= i < 16
    ensures ShiftAt(i) == Md5Shift(i) && WordAt(i) == Md5Word(i)
  {
    match i
    case 0 => case 1 => case 2 => case 3 => case 4 => case 5 => case 6 => case 7 =>
    case 8 => case 9 => case 10 => case 11 => case 12 => case 13 => case 14 => case 15 =>
  }

  lemma TablesAgree2(i: nat)
    requires 16 <= i < 32
    ensures ShiftAt(i) == Md5Shift(i) && WordAt(i) == Md5Word(i)
  {
    match i
    case 16 => case 17 => case 18 => case 19 => case 20 => case 21 => case 22 => case 23 =>
    case 24 => case 25 => case 26 => case 27 => case 28 => case 29 => case 30 => case 31 =>
  }

  lemma TablesAgree3(i: nat)
    requires 32 <= i < 48
    ensures ShiftAt(i) == Md5Shift(i) && WordAt(i) == Md5Word(i)
  {
    match i
    case 32 => case 33 => case 34 => case 35 => case 36 => case 37 => case 38 => case 39 =>
    case 40 => case 41 => case 42 => case 43 => case 44 => case 45 => case 46 => case 47 =>
  }

  lemma TablesAgree4(i: nat)
    requires 48 <= i < 64
    ensures ShiftAt(i) == Md5Shift(i) && WordAt(i) == Md5Word(i)
  {
    match i
    case 48 => case 49 => case 50 => case 51 => case 52 => case 53 => case 54 => case 55 =>
    case 56 => case 57 => case 58 => case 59 => case 60 => case 61 => case 62 => case 63 =>
  }

  lemma {:induction false} TablesAgree(i: nat)
    requires i < 64
    ensures ShiftAt(i) == Md5Shift(i) && WordAt(i) == Md5Word(i)
  {
    hide ShiftAt, Md5Shift, WordAt, Md5Word;
    if i < 16 {
      TablesAgree1(i);
    } else if i < 32 {
      TablesAgree2(i);
    } else if i < 48 {
      TablesAgree3(i);
    } else {
      TablesAgree4(i);
    }
  }

  function Mix(i: nat, b: Word, c: Word, d: Word): Word {
    if i < 16 then Or(And(b, c), And(Not(b), d))
    else if i < 32 then Or(And(d, b), And(Not(d), c))
    else if i < 48 then Xor(Xor(b, c), d)
    else Xor(c, Or(b, Not(d)))
  }

  lemma {:induction false} BitwiseCommutes(op: Op, x: nat, y: nat, n: nat)
    ensures Bitwise(op, x, y, n) == Bitwise(op, y, x, n)
  {
    if n > 0 {
      BitwiseCommutes(op, x / 2, y / 2, n - 1);
    }
  }

  lemma MixAgrees(i: nat, b: Word, c: Word, d: Word)
    ensures Mix(i, b, c, d) == Md5F(i, b, c, d)
  {
    hide Bitwise, Not, Or, Xor;
    BitwiseCommutes(AND, d, b, 32);
    BitwiseCommutes(AND, Not(d), c, 32);
  }

  /** The code renames its variables after each operation instead of taking the registers by turns. */
  function Turned(s: Md5, i: nat): Md5 {
    if i % 4 == 0 then s
    else if i % 4 == 1 then Md5(s.d, s.a, s.b, s.c)
    else if i % 4 == 2 then Md5(s.c, s.d, s.a, s.b)
    else Md5(s.b, s.c, s.d, s.a)
  }

  lemma {:induction false} TurnStep(s: Md5, i: nat, x: Block)
    requires i < 64
    ensures var v := Turned(s, i);
            Turned(Md5Step(s, i, x), i + 1) == Md5(v.d, Md5Operation(i, x, v.a, v.b, v.c, v.d), v.b, v.c)
  {
    hide Md5Operation;
  }

  method Operation(i: nat, x: Block, m: seq<Word>, v: Md5) returns (r: Md5)
    requires i < 64 && |m| == 16 && forall t :: 0 <= t < 16 ==> m[t] == LoadLittle(x, 4 * t)
    ensures r == Md5(v.d, Md5Operation(i, x, v.a, v.b, v.c, v.d), v.b, v.c)
  {
    hide Md5F, Mix, Md5T, Add, Rotl, RotateLeft, LoadLittle, WordAt, ShiftAt, Md5Word, Md5Shift;
    TablesAgree(i);
    MixAgrees(i, v.b, v.c, v.d);
    AddSwapped(Add(v.a, Mix(i, v.b, v.c, v.d)), Md5T(i), m[WordAt(i)]);
    var sum := Add(Add(Add(v.a, Mix(i, v.b, v.c, v.d)), Md5T(i)), m[WordAt(i)]);
    RotatesLeft(sum, ShiftAt(i));
    r := Md5(v.d, Add(v.b, RotateLeft(sum, ShiftAt(i))), v.b, v.c);
  }

  method LoadBlock(block: Block) returns (words: seq<Word>)
    ensures |words| == 16 && forall t :: 0 <= t < 16 ==> words[t] == LoadLittle(block, 4 * t)
  {
    hide LoadLittle, JoinLittle;
    var m := new Word[16];
    var i := 0;
    while i < 16
      invariant 0 <= i <= 16 && forall t :: 0 <= t < i ==> m[t] == LoadLittle(block, 4 * t)
    {
      JoinsLittle(block, 4 * i);
      m[i] := JoinLittle(block, i * 4);
      i := i + 1;
    }
    words := m[..];
  }

  method Transform(h: Md5, block: Block) returns (r: Md5)
    ensures r == Md5Compress(h, block)
  {
    hide Md5Step, Md5Operation, Add, LoadLittle;
    var m := LoadBlock(block);
    var v := h;
    var i := 0;
    while i < 64
      invariant 0 <= i <= 64 && v == Turned(Md5Steps(h, block, i), i)
    {
      StepsAt(h, block, i);
      TurnStep(Md5Steps(h, block, i), i, block);
      v := Operation(i, block, m, v);
      i := i + 1;
    }
    r := Md5(Add(h.a, v.a), Add(h.b, v.b), Add(h.c, v.c), Add(h.d, v.d));
    AddCommutes(h.a, v.a);
    AddCommutes(h.b, v.b);
    AddCommutes(h.c, v.c);
    AddCommutes(h.d, v.d);
  }

  lemma StepsAt(s: Md5, x: Block, i: nat)
    requires i < 64
    ensures Md5Steps(s, x, i + 1) == Md5Step(Md5Steps(s, x, i), i, x)
  {
    hide Md5Step;
  }

  // ---- streaming ----

  /** The state after the blocks of `m`. */
  ghost predicate Absorbed(h: Md5, m: Bytes) {
    |m| % 64 == 0 && h == Md5Fold(MD5_START, m)
  }

  /** The hash context. `message` is everything fed in so far: the part already
      hashed, in whole blocks, and the start of a block in the buffer. */
  class Context {
    var h: Md5
    var len: nat
    var buf: array<Byte>
    var bufLen: nat
    ghost var hashed: Bytes
    ghost var message: Bytes

    ghost predicate Valid()
      reads this, buf
    {
      && buf.Length == 64 && bufLen < 64
      && Absorbed(h, hashed)
      && message == hashed + buf[..bufLen]
      && len == |message| % WORD
    }

    constructor ()
      ensures Valid() && message == [] && fresh(buf)
    {
      h := MD5_START;
      len := 0;
      bufLen := 0;
      buf := new Byte[64](_ => 0);
      hashed, message := [], [];
    }

    /** Copies bytes behind those in the buffer. */
    method Fill(s: Bytes)
      requires buf.Length == 64 && bufLen + |s| <= 64
      modifies this`bufLen, buf
      ensures bufLen == old(bufLen) + |s| && buf[..bufLen] == old(buf[..bufLen]) + s
    {
      var at := bufLen;
      forall i | 0 <= i < |s| {
        buf[at + i] := s[i];
      }
      bufLen := at + |s|;
      assert buf[..at] == old(buf[..bufLen]) && buf[at..bufLen] == s;
    }

    method Absorb(block: Block)
      requires Absorbed(h, hashed)
      modifies this`h, this`hashed
      ensures hashed == old(hashed) + block && Absorbed(h, hashed)
    {
      hide Md5Fold, Md5Compress;
      Md5FoldStep(MD5_START, hashed, block);
      h := Transform(h, block);
      hashed := hashed + block;
    }

    /** Feeds bytes in: first a partial block is completed, then whole blocks are
        hashed straight from the input, then the rest is kept. */
    method Update(data: Bytes)
      requires Valid()
      modifies this`h, this`len, this`bufLen, this`hashed, this`message, buf
      ensures Valid() && message == old(message) + data
    {
      hide Md5Fold, Md5Compress;
      CountOn(|message|, |data|);
      message := message + data;
      len := (len + |data|) % WORD;
      var pos := Complete(data);
      pos := AbsorbBlocks(data, pos);
      Remainder(hashed, buf[..bufLen], data, pos);
      if |data| - pos > 0 {
        Fill(data[pos..]);
      }
    }

    /** Hashes whole blocks straight from the input. */
    method AbsorbBlocks(data: Bytes, from: nat) returns (pos: nat)
      requires from <= |data| && buf.Length == 64 && bufLen < 64 && (from < |data| ==> bufLen == 0)
      requires Absorbed(h, hashed)
      modifies this`h, this`hashed
      ensures from <= pos <= |data| < pos + 64 && (pos < |data| ==> bufLen == 0)
      ensures Absorbed(h, hashed)
      ensures hashed + buf[..bufLen] + data[pos..] == old(hashed + buf[..bufLen] + data[from..])
    {
      hide Md5Fold, Md5Compress;
      pos := from;
      while |data| - pos >= 64
        invariant from <= pos <= |data| && (pos < |data| ==> bufLen == 0)
        invariant Absorbed(h, hashed)
        invariant hashed + buf[..bufLen] + data[pos..] == old(hashed + buf[..bufLen] + data[from..])
      {
        Blocks(hashed, data, pos);
        assert buf[..bufLen] == [];
        Absorb(data[pos..pos + 64]);
        pos := pos + 64;
      }
    }

    /** Completes a block that was begun before, as far as the input goes. */
    method Complete(data: Bytes) returns (pos: nat)
      requires buf.Length == 64 && bufLen < 64
      requires Absorbed(h, hashed)
      modifies this`h, this`bufLen, this`hashed, buf
      ensures pos <= |data| && bufLen < 64 && (pos < |data| ==> bufLen == 0)
      ensures Absorbed(h, hashed)
      ensures hashed + buf[..bufLen] + data[pos..] == old(hashed + buf[..bufLen]) + data
    {
      hide Md5Fold, Md5Compress;
      pos := 0;
      if bufLen > 0 {
        var n := 64 - bufLen;
        if n > |data| {
          n := |data|;
        }
        Fill(data[..n]);
        pos := n;
        Rejoin(hashed, old(buf[..bufLen]), data, n);
        if bufLen == 64 {
          assert buf[..64] == buf[..];
          Absorb(buf[..]);
          bufLen := 0;
          assert hashed + [] == hashed;
        }
      } else {
        assert data[0..] == data;
      }
    }

    /** Pads with the end mark and zeros, then with the bit length, and gives the digest. */
    method Final() returns (digest: Bytes)
      requires Valid()
      modifies this`h, this`len, this`bufLen, this`hashed, this`message, buf
      ensures digest == Md5Sum(old(message))
    {
      hide Md5Fold, Md5Compress, Md5Bytes, Little, Zeros, StoreLittle64;
      var pad: Bytes := [0x80] + Zeros(63);
      var bitLen := len * 8 % WORD;
      CountBits(|message|);
      var padLen := if bufLen < 56 then 56 - bufLen else 120 - bufLen;
      ghost var m := message;
      UsedBytes(hashed, buf[..bufLen]);
      PadLength(|m|, bufLen);
      PadPrefix(ZeroCount(|m|));
      Update(pad[..padLen]);
      StoreLittle64Exact(bitLen);
      Update(StoreLittle64(bitLen));
      PadParts(m);
      assert message == PadLittle(m);
      NothingLeft(hashed, buf[..bufLen]);
      digest := Digest(h);
    }
  }

  /** The four words, low bytes first. */
  method Digest(s: Md5) returns (d: Bytes)
    ensures d == Md5Bytes(s)
  {
    hide StoreLittle, StoreLittle32;
    StoreLittle32Exact(s.a);
    StoreLittle32Exact(s.b);
    StoreLittle32Exact(s.c);
    StoreLittle32Exact(s.d);
    d := StoreLittle32(s.a) + StoreLittle32(s.b) + StoreLittle32(s.c) + StoreLittle32(s.d);
  }

  lemma PadParts(m: Bytes)
    ensures m + ([0x80] + Zeros(ZeroCount(|m|))) + Little(BitLength(|m|), 8) == PadLittle(m)
  {
    hide Little, Zeros;
    assert m + ([0x80] + Zeros(ZeroCount(|m|))) == m + [0x80] + Zeros(ZeroCount(|m|));
  }

  // ---- whole messages ----

  method Hash(data: Bytes) returns (digest: Bytes)
    ensures digest == Md5Sum(data)
  {
    hide Md5Sum;
    var ctx := new Context();
    ctx.Update(data);
    assert [] + data == data;
    digest := ctx.Final();
  }

  /** However a message is split across updates, the digest is that of the whole message. */
  method HashPieces(pieces: seq<Bytes>) returns (digest: Bytes)
    ensures digest == Md5Sum(Join(pieces))
  {
    hide Md5Sum;
    var ctx := new Context();
    var i := 0;
    while i < |pieces|
      invariant 0 <= i <= |pieces| && ctx.Valid() && fresh(ctx) && fresh(ctx.buf)
      invariant ctx.message == Join(pieces[..i])
    {
      ctx.Update(pieces[i]);
      assert pieces[..i + 1][..i] == pieces[..i];
      i := i + 1;
    }
    assert pieces[..i] == pieces;
    digest := ctx.Final();
  }
}
