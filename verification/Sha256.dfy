/** Buffered SHA-256 and HMAC. */
module Sha256 {
  import opened Basics
  import opened Endian
  import opened HashSpec
  import opened HashLaws
  import opened HashWords

  /** The schedule, filled from the front. */
  method ExpandSchedule(block: Block) returns (words: seq<Word>)
    ensures |words| == 64 && forall t :: 0 <= t < 64 ==> words[t] == Schedule(block, t)
  {
    hide LoadBig, JoinBig;
    var w := new Word[64];
    var i := 0;
    while i < 16
      invariant 0 <= i <= 16
      invariant forall t :: 0 <= t < i ==> w[t] == Schedule(block, t)
    {
      JoinsBig(block, 4 * i);
      w[i] := JoinBig(block, i * 4);
      i := i + 1;
    }
    while i < 64
      invariant 16 <= i <= 64
      invariant forall t :: 0 <= t < i ==> w[t] == Schedule(block, t)
    {
      w[i] := NextWord(block, i, w[i - 16], w[i - 15], w[i - 7], w[i - 2]);
      i := i + 1;
    }
    words := w[..];
  }

  method NextWord(block: Block, i: nat, w16: Word, w15: Word, w7: Word, w2: Word) returns (w: Word)
    requires i >= 16 && w16 == Schedule(block, i - 16) && w15 == Schedule(block, i - 15)
    requires w7 == Schedule(block, i - 7) && w2 == Schedule(block, i - 2)
    ensures w == Schedule(block, i)
  {
    ScheduleAt(block, i);
    hide Rotr, RotateRight, Shr, Schedule, Add, Xor;
    RotatesRight(w15, 7);
    RotatesRight(w15, 18);
    RotatesRight(w2, 17);
    RotatesRight(w2, 19);
    var s0 := Xor(Xor(RotateRight(w15, 7), RotateRight(w15, 18)), Shr(w15, 3));
    var s1 := Xor(Xor(RotateRight(w2, 17), RotateRight(w2, 19)), Shr(w2, 10));
    AddReversed(w16, s0, w7, s1);
    w := Add(Add(Add(w16, s0), w7), s1);
  }

  lemma ScheduleAt(block: Block, i: nat)
    requires i >= 16
    ensures Schedule(block, i) ==
            Add(Add(Add(SmallSigma1(Schedule(block, i - 2)), Schedule(block, i - 7)), SmallSigma0(Schedule(block, i - 15))),
                Schedule(block, i - 16))
  {
    hide SmallSigma0, SmallSigma1, Add;
  }

  /** One round on the eight working variables. */
  method Round(s: Sha, k: Word, w: Word) returns (r: Sha)
    ensures r == ShaRound(s, k, w)
  {
    hide Rotr, RotateRight, Add, Xor, And, Not;
    RotatesRight(s.e, 6);
    RotatesRight(s.e, 11);
    RotatesRight(s.e, 25);
    RotatesRight(s.a, 2);
    RotatesRight(s.a, 13);
    RotatesRight(s.a, 22);
    var s1 := Xor(Xor(RotateRight(s.e, 6), RotateRight(s.e, 11)), RotateRight(s.e, 25));
    var ch := Xor(And(s.e, s.f), And(Not(s.e), s.g));
    var t1 := Add(Add(Add(Add(s.h, s1), ch), k), w);
    var s0 := Xor(Xor(RotateRight(s.a, 2), RotateRight(s.a, 13)), RotateRight(s.a, 22));
    var maj := Xor(Xor(And(s.a, s.b), And(s.a, s.c)), And(s.b, s.c));
    var t2 := Add(s0, maj);
    r := Sha(Add(t1, t2), s.a, s.b, s.c, Add(s.d, t1), s.e, s.f, s.g);
  }

  method Transform(h: Sha, block: Block) returns (r: Sha)
    ensures r == ShaCompress(h, block)
  {
    hide Schedule, ShaRound, ShaK, Add;
    var w := ExpandSchedule(block);
    var v := h;
    var i := 0;
    while i < 64
      invariant 0 <= i <= 64 && v == ShaRounds(h, block, i)
    {
      RoundsAt(h, block, i);
      v := Round(v, ShaK(i), w[i]);
      i := i + 1;
    }
    r := Sha(Add(h.a, v.a), Add(h.b, v.b), Add(h.c, v.c), Add(h.d, v.d),
             Add(h.e, v.e), Add(h.f, v.f), Add(h.g, v.g), Add(h.h, v.h));
    SumCommutes(h, v);
  }

  lemma RoundsAt(s: Sha, block: Block, i: nat)
    requires i < 64
    ensures ShaRounds(s, block, i + 1) == ShaRound(ShaRounds(s, block, i), ShaK(i), Schedule(block, i))
  {
    hide ShaRound, Schedule, ShaK;
  }

  lemma SumCommutes(s: Sha, r: Sha)
    ensures Sha(Add(s.a, r.a), Add(s.b, r.b), Add(s.c, r.c), Add(s.d, r.d),
                Add(s.e, r.e), Add(s.f, r.f), Add(s.g, r.g), Add(s.h, r.h)) == ShaSum(s, r)
  {
    hide Add;
    AddCommutes(s.a, r.a);
    AddCommutes(s.b, r.b);
    AddCommutes(s.c, r.c);
    AddCommutes(s.d, r.d);
    AddCommutes(s.e, r.e);
    AddCommutes(s.f, r.f);
    AddCommutes(s.g, r.g);
    AddCommutes(s.h, r.h);
  }

  /** The state after the blocks of `m`. */
  ghost predicate Absorbed(h: Sha, m: Bytes) {
    |m| % 64 == 0 && h == ShaFold(SHA_START, m)
  }

  /** The hash context. `message` is everything fed in so far: the part already
      hashed, in whole blocks, and the start of a block in the buffer. */
  class Context {
    var h: Sha
    var len: nat
    var buf: array<Byte>
    var bufLen: nat
    ghost var hashed: Bytes
    ghost var message: Bytes

    ghost predicate Valid()
      reads this, buf
    {
      && buf.Length == 64 && bufLen < 64
      && Absorbed(h, hashed)
      && message == hashed + buf[..bufLen]
      && len == |message| % WORD
    }

    constructor ()
      ensures Valid() && message == [] && fresh(buf)
    {
      h := SHA_START;
      len := 0;
      bufLen := 0;
      buf := new Byte[64](_ => 0);
      hashed, message := [], [];
    }

    /** Copies bytes behind those in the buffer. */
    method Fill(s: Bytes)
      requires buf.Length == 64 && bufLen + |s| <= 64
      modifies this`bufLen, buf
      ensures bufLen == old(bufLen) + |s| && buf[..bufLen] == old(buf[..bufLen]) + s
    {
      var at := bufLen;
      forall i | 0 <= i < |s| {
        buf[at + i] := s[i];
      }
      bufLen := at + |s|;
      assert buf[..at] == old(buf[..bufLen]) && buf[at..bufLen] == s;
    }

    method Absorb(block: Block)
      requires Absorbed(h, hashed)
      modifies this`h, this`hashed
      ensures hashed == old(hashed) + block && Absorbed(h, hashed)
    {
      hide ShaFold, ShaCompress;
      ShaFoldStep(SHA_START, hashed, block);
      h := Transform(h, block);
      hashed := hashed + block;
    }

    /** Feeds bytes in: first a partial block is completed, then whole blocks are
        hashed straight from the input, then the rest is kept. */
    method Update(data: Bytes)
      requires Valid()
      modifies this`h, this`len, this`bufLen, this`hashed, this`message, buf
      ensures Valid() && message == old(message) + data
    {
      hide ShaFold, ShaCompress;
      CountOn(|message|, |data|);
      message := message + data;
      len := (len + |data|) % WORD;
      var pos := Complete(data);
      pos := AbsorbBlocks(data, pos);
      Remainder(hashed, buf[..bufLen], data, pos);
      if |data| - pos > 0 {
        Fill(data[pos..]);
      }
    }

    /** Hashes whole blocks straight from the input. */
    method AbsorbBlocks(data: Bytes, from: nat) returns (pos: nat)
      requires from <= |data| && buf.Length == 64 && bufLen < 64 && (from < |data| ==> bufLen == 0)
      requires Absorbed(h, hashed)
      modifies this`h, this`hashed
      ensures from <= pos <= |data| < pos + 64 && (pos < |data| ==> bufLen == 0)
      ensures Absorbed(h, hashed)
      ensures hashed + buf[..bufLen] + data[pos..] == old(hashed + buf[..bufLen] + data[from..])
    {
      hide ShaFold, ShaCompress;
      pos := from;
      while |data| - pos >= 64
        invariant from <= pos <= |data| && (pos < |data| ==> bufLen == 0)
        invariant Absorbed(h, hashed)
        invariant hashed + buf[..bufLen] + data[pos..] == old(hashed + buf[..bufLen] + data[from..])
      {
        Blocks(hashed, data, pos);
        assert buf[..bufLen] == [];
        Absorb(data[pos..pos + 64]);
        pos := pos + 64;
      }
    }

    /** Completes a block that was begun before, as far as the input goes. */
    method Complete(data: Bytes) returns (pos: nat)
      requires buf.Length == 64 && bufLen < 64
      requires Absorbed(h, hashed)
      modifies this`h, this`bufLen, this`hashed, buf
      ensures pos <= |data| && bufLen < 64 && (pos < |data| ==> bufLen == 0)
      ensures Absorbed(h, hashed)
      ensures hashed + buf[..bufLen] + data[pos..] == old(hashed + buf[..bufLen]) + data
    {
      hide ShaFold, ShaCompress;
      pos := 0;
      if bufLen > 0 {
        var n := 64 - bufLen;
        if n > |data| {
          n := |data|;
        }
        Fill(data[..n]);
        pos := n;
        Rejoin(hashed, old(buf[..bufLen]), data, n);
        if bufLen == 64 {
          assert buf[..64] == buf[..];
          Absorb(buf[..]);
          bufLen := 0;
          assert hashed + [] == hashed;
        }
      } else {
        assert data[0..] == data;
      }
    }

    /** Pads with the end mark and zeros, then with the bit length, and gives the digest. */
    method Final() returns (digest: Bytes)
      requires Valid()
      modifies this`h, this`len, this`bufLen, this`hashed, this`message, buf
      ensures digest == Sha256(old(message))
    {
      hide ShaFold, ShaCompress, ShaBytes, Big, Zeros, StoreBig64;
      var pad: Bytes := [0x80] + Zeros(63);
      var bitLen := len * 8 % WORD;
      CountBits(|message|);
      var padLen := if bufLen < 56 then 56 - bufLen else 120 - bufLen;
      ghost var m := message;
      UsedBytes(hashed, buf[..bufLen]);
      PadLength(|m|, bufLen);
      PadPrefix(ZeroCount(|m|));
      Update(pad[..padLen]);
      StoreBig64Exact(bitLen);
      Update(StoreBig64(bitLen));
      PadParts(m);
      assert message == PadBig(m);
      NothingLeft(hashed, buf[..bufLen]);
      digest := Digest(h);
    }
  }

  /** The eight words, high bytes first. */
  method Digest(s: Sha) returns (d: Bytes)
    ensures d == ShaBytes(s)
  {
    hide StoreBig, StoreBig32;
    StoreBig32Exact(s.a);
    StoreBig32Exact(s.b);
    StoreBig32Exact(s.c);
    StoreBig32Exact(s.d);
    StoreBig32Exact(s.e);
    StoreBig32Exact(s.f);
    StoreBig32Exact(s.g);
    StoreBig32Exact(s.h);
    d := StoreBig32(s.a) + StoreBig32(s.b) + StoreBig32(s.c) + StoreBig32(s.d)
      + StoreBig32(s.e) + StoreBig32(s.f) + StoreBig32(s.g) + StoreBig32(s.h);
  }

  lemma PadParts(m: Bytes)
    ensures m + ([0x80] + Zeros(ZeroCount(|m|))) + Big(BitLength(|m|), 8) == PadBig(m)
  {
    hide Big, Zeros;
    assert m + ([0x80] + Zeros(ZeroCount(|m|))) == m + [0x80] + Zeros(ZeroCount(|m|));
  }

  // ---- whole messages ----

  method Hash(data: Bytes) returns (digest: Bytes)
    ensures digest == Sha256(data)
  {
    hide Sha256;
    var ctx := new Context();
    ctx.Update(data);
    assert [] + data == data;
    digest := ctx.Final();
  }

  /** However a message is split across updates, the digest is that of the whole message. */
  method HashPieces(pieces: seq<Bytes>) returns (digest: Bytes)
    ensures digest == Sha256(Join(pieces))
  {
    hide Sha256;
    var ctx := new Context();
    var i := 0;
    while i < |pieces|
      invariant 0 <= i <= |pieces| && ctx.Valid() && fresh(ctx) && fresh(ctx.buf)
      invariant ctx.message == Join(pieces[..i])
    {
      ctx.Update(pieces[i]);
      assert pieces[..i + 1][..i] == pieces[..i];
      i := i + 1;
    }
    assert pieces[..i] == pieces;
    digest := ctx.Final();
  }

  // ---- HMAC ----

  method HmacSha256(key: Bytes, data: Bytes) returns (mac: Bytes)
    ensures mac == Hmac(key, data)
  {
    hide Sha256, XorAll, BlockKey;
    var k0 := KeyBlock(key);
    var ipad, opad := XorPads(k0);
    var inner := new Context();
    inner.Update(ipad);
    inner.Update(data);
    assert [] + ipad == ipad;
    var innerHash := inner.Final();
    var outer := new Context();
    outer.Update(opad);
    outer.Update(innerHash);
    assert [] + opad == opad;
    mac := outer.Final();
  }

  /** The key, hashed when it is longer than a block, and filled up with zeros. */
  method KeyBlock(key: Bytes) returns (k: Block)
    ensures k == BlockKey(key)
  {
    hide Sha256;
    var k0 := new Byte[64](_ => 0);
    if |key| > 64 {
      var tmp := Hash(key);
      forall i | 0 <= i < 32 {
        k0[i] := tmp[i];
      }
      assert k0[..] == tmp + Zeros(32);
    } else {
      forall i | 0 <= i < |key| {
        k0[i] := key[i];
      }
      assert k0[..] == key + Zeros(64 - |key|);
    }
    k := k0[..];
  }

  method XorPads(k: Block) returns (ipad: Bytes, opad: Bytes)
    ensures ipad == XorAll(k, 0x36) && opad == XorAll(k, 0x5c)
  {
    hide XorByte;
    var inner, outer := new Byte[64](_ => 0), new Byte[64](_ => 0);
    var i := 0;
    while i < 64
      invariant 0 <= i <= 64
      invariant forall j :: 0 <= j < i ==> inner[j] == XorByte(k[j], 0x36) && outer[j] == XorByte(k[j], 0x5c)
    {
      inner[i] := XorByte(k[i], 0x36);
      outer[i] := XorByte(k[i], 0x5c);
      i := i + 1;
    }
    ipad, opad := inner[..], outer[..];
  }
}
