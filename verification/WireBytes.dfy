/** The wire format byte by byte: which byte introduces each part of a message
    and how its length and numbers are written. */
module WireBytes {
  import opened Basics
  import opened Wire
  import WireLaws

  // ---- numbers ----

  /** The number that groups of seven bits make, low bits first. */
  function SevenBits(s: Bytes): nat {
    if s == [] then 0 else s[0] % 128 + 128 * SevenBits(s[1..])
  }

  /** A varint spells its value seven bits a byte; all bytes but the last are
      marked, and it is as short as can be. That leaves one spelling only. */
  lemma {:induction false} VarintSpells(v: nat)
    ensures var s := Varint(v);
            && SevenBits(s) == v
            && s[|s| - 1] < 128 && (forall i :: 0 <= i < |s| - 1 ==> s[i] >= 128)
            && (|s| > 1 ==> s[|s| - 1] > 0)
  {
    if v < 128 {
      assert [v][1..] == [];
      assert SevenBits([]) == 0;
    } else {
      var s, rest := Varint(v), Varint(v / 128);
      VarintSpells(v / 128);
      assert s[1..] == rest;
      assert forall i :: 1 <= i < |s| ==> s[i] == rest[i - 1];
    }
  }

  /** A 32-bit value is stored low byte first. */
  lemma FixedBytes(w: nat)
    requires w < 0x1_0000_0000
    ensures var s := Fixed32(w);
            var a: nat, b: nat, c: nat, d: nat := s[0], s[1], s[2], s[3];
            |s| == 4 && w == a + 0x100 * b + 0x1_0000 * c + 0x100_0000 * d
  {
    hide Fixed32;
    Fixed32RoundTrip(w);
  }

  // ---- messages ----

  /** A one-byte key, the length, the data. */
  predicate IsBlock(s: Bytes, key: Byte, data: Bytes) {
    s == [key] + Varint(|data|) + data
  }

  lemma SmallKeys(d: Bytes)
    ensures IsBlock(Encode(BytesField(1, d)), 0x0A, d)
    ensures IsBlock(Encode(BytesField(2, d)), 0x12, d)
    ensures IsBlock(Encode(BytesField(3, d)), 0x1A, d)
    ensures IsBlock(Encode(BytesField(4, d)), 0x22, d)
    ensures IsBlock(Encode(BytesField(5, d)), 0x2A, d)
  {
    KeyBytes();
    hide Varint, Tag;
  }

  lemma KeyBytes()
    ensures Tag(1, 0) == [0x08] && Tag(3, 5) == [0x1D]
    ensures Tag(1, 2) == [0x0A] && Tag(2, 2) == [0x12] && Tag(3, 2) == [0x1A] && Tag(4, 2) == [0x22] && Tag(5, 2) == [0x2A]
  {
  }

  /** A pair is its key behind 0x0A and its value behind 0x12. */
  lemma PairBytes(p: Pair)
    ensures PairMessage(p) == [0x0A] + Varint(|p.key|) + p.key + [0x12] + Varint(|p.value|) + p.value
  {
    SmallKeys(p.key);
    SmallKeys(p.value);
    EncodeConcat([BytesField(1, p.key)], [BytesField(2, p.value)]);
    EncodeOne(BytesField(1, p.key));
    EncodeOne(BytesField(2, p.value));
    hide Encode, Varint;
    assert PairRecords(p) == [BytesField(1, p.key)] + [BytesField(2, p.value)];
    var k, v := [0x0A] + Varint(|p.key|) + p.key, [0x12] + Varint(|p.value|);
    assert k + (v + p.value) == k + [0x12] + Varint(|p.value|) + p.value;
  }

  /** Blocks behind one key, one after the other. */
  function Blocks(key: Byte, ds: seq<Bytes>): Bytes {
    if ds == [] then [] else [key] + Varint(|ds[0]|) + ds[0] + Blocks(key, ds[1..])
  }

  lemma {:induction false} PairBlocks(ps: seq<Pair>)
    ensures EncodeAll(PairFields(2, ps)) == Blocks(0x12, WireLaws.PairMessages(ps))
    ensures EncodeAll(PairFields(3, ps)) == Blocks(0x1A, WireLaws.PairMessages(ps))
  {
    if ps != [] {
      SmallKeys(PairMessage(ps[0]));
      PairBlocks(ps[1..]);
      hide PairMessage, Encode, Varint;
      assert PairFields(2, ps)[1..] == PairFields(2, ps[1..]);
      assert PairFields(3, ps)[1..] == PairFields(3, ps[1..]);
      assert WireLaws.PairMessages(ps)[1..] == WireLaws.PairMessages(ps[1..]);
    }
  }

  lemma {:induction false} LogBlocks(ls: seq<Log>)
    ensures EncodeAll(LogFields(ls)) == Blocks(0x0A, LogMessages(ls))
  {
    if ls != [] {
      SmallKeys(LogMessage(ls[0]));
      LogBlocks(ls[1..]);
      hide LogMessage, Encode, Varint;
      assert LogFields(ls)[1..] == LogFields(ls[1..]);
      assert LogMessages(ls)[1..] == LogMessages(ls[1..]);
    }
  }

  /** A log is its time behind 0x08, its pairs behind 0x12 each, and its
      nanoseconds behind 0x1D when it has any. */
  lemma LogBytes(l: Log)
    ensures LogMessage(l) == [0x08] + Varint(l.time) + Blocks(0x12, WireLaws.PairMessages(l.kvs))
                             + (if l.ns.Some? then [0x1D] + Fixed32(l.ns.value) else [])
  {
    KeyBytes();
    PairBlocks(l.kvs);
    EncodeConcat([VarintField(1, l.time)] + PairFields(2, l.kvs), NsFields(l.ns));
    EncodeConcat([VarintField(1, l.time)], PairFields(2, l.kvs));
    EncodeOne(VarintField(1, l.time));
    if l.ns.Some? {
      EncodeOne(Fixed32Field(3, l.ns.value));
    }
    hide PairFields, Blocks, Varint, Tag, Fixed32;
  }

  /** Text that is not empty, behind its key. */
  function TextBlock(key: Byte, s: Bytes): Bytes {
    if s == [] then [] else [key] + Varint(|s|) + s
  }

  lemma {:induction false} TextBlocks(s: Bytes)
    ensures EncodeAll(TextField(2, s)) == TextBlock(0x12, s)
    ensures EncodeAll(TextField(4, s)) == TextBlock(0x22, s)
    ensures EncodeAll(TextField(5, s)) == TextBlock(0x2A, s)
  {
    SmallKeys(s);
    EncodeOne(BytesField(2, s));
    EncodeOne(BytesField(4, s));
    EncodeOne(BytesField(5, s));
    hide Encode, Varint;
    assert EncodeAll([]) == [];
  }

  /** A group is its logs behind 0x0A each, then its source behind 0x12, its file
      name behind 0x22, its tags behind 0x1A each and its context flow behind 0x2A. */
  lemma GroupBytes(ls: seq<Log>, g: GroupInfo)
    ensures GroupMessage(ls, g) ==
            Blocks(0x0A, LogMessages(ls))
            + (TextBlock(0x12, g.source) + TextBlock(0x22, g.fileName)
               + Blocks(0x1A, WireLaws.PairMessages(g.tags)) + TextBlock(0x2A, g.contextFlow))
  {
    LogBlocks(ls);
    PairBlocks(g.tags);
    TextBlocks(g.source);
    TextBlocks(g.fileName);
    TextBlocks(g.contextFlow);
    EncodeConcat(TextField(2, g.source) + TextField(4, g.fileName) + PairFields(3, g.tags), TextField(5, g.contextFlow));
    EncodeConcat(TextField(2, g.source) + TextField(4, g.fileName), PairFields(3, g.tags));
    EncodeConcat(TextField(2, g.source), TextField(4, g.fileName));
    hide Blocks, TextBlock, TextField, PairFields, EncodeAll;
  }

  /** A list of one group is the group behind 0x0A. */
  lemma ListBytes(ls: seq<Log>, g: GroupInfo)
    ensures OneGroup(ls, g) == [0x0A] + Varint(|GroupMessage(ls, g)|) + GroupMessage(ls, g)
  {
    SmallKeys(GroupMessage(ls, g));
    hide GroupMessage, Encode, Varint;
  }

  // ---- sizes of groups ----

  /** The logs are cut from the front: every group but the last holds exactly
      `per` logs, and the last between one and that many. */
  lemma {:induction false} ChunkSizes(ls: seq<Log>, g: GroupInfo, per: nat)
    requires 0 < per
    ensures var gs := WireLaws.Chunks(ls, g, per);
            && (gs == [] <==> ls == [])
            && (forall i :: 0 <= i < |gs| ==> gs[i].info == g && 1 <= |gs[i].logs| <= per)
            && (forall i :: 0 <= i < |gs| - 1 ==> |gs[i].logs| == per)
    decreases |ls|
  {
    if ls != [] {
      var rest := ls[Min(per, |ls|)..];
      ChunkSizes(rest, g, per);
      var gs := WireLaws.Chunks(ls, g, per);
      assert forall i :: 1 <= i < |gs| ==> gs[i] == WireLaws.Chunks(rest, g, per)[i - 1];
    }
  }
}
