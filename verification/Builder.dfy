/** The fast encoder: sizes are computed first, room is made once, and the log
    is written straight into the builder's buffer. */
module Builder {
  import opened Basics
  import opened Wire
  import opened ProtoEncoder

  const MAX32 := 0xFFFF_FFFF

  // ---- sizes ----

  method U64Size(v: nat) returns (n: nat)
    ensures n == |Varint(v)|
  {
    n := 1;
    var w := v;
    while w >= 0x80
      invariant n + |Varint(w)| == 1 + |Varint(v)|
      decreases w
    {
      n, w := n + 1, w / 0x80;
    }
  }

  /** The thresholds agree with the loop. */
  function U32Size(v: nat): (n: nat)
    requires v <= MAX32
    ensures n == |Varint(v)|
  {
    VarintLength(v);
    if v < 0x80 then 1
    else if v < 0x4000 then 2
    else if v < 0x20_0000 then 3
    else if v < 0x1000_0000 then 4
    else 5
  }

  method KeySize(field: nat, wireType: nat) returns (n: nat)
    ensures n == |Tag(field, wireType)|
  {
    n := U64Size(8 * field + wireType);
  }

  method BytesFieldSize(field: nat, len: nat, ghost s: Bytes) returns (n: nat)
    requires len == |s|
    ensures n == |Encode(BytesField(field, s))|
  {
    var k := KeySize(field, 2);
    var l := U64Size(len);
    n := k + l + len;
  }

  method ContentMsgSize(klen: nat, vlen: nat, ghost p: Pair) returns (n: nat)
    requires klen == |p.key| && vlen == |p.value|
    ensures n == |PairMessage(p)|
  {
    hide Encode;
    PairIsTwoFields(p);
    var k := BytesFieldSize(1, klen, p.key);
    var v := BytesFieldSize(2, vlen, p.value);
    n := k + v;
  }

  method ContentFieldSize(klen: nat, vlen: nat, ghost p: Pair) returns (n: nat)
    requires klen == |p.key| && vlen == |p.value|
    ensures n == |Encode(BytesField(2, PairMessage(p)))|
  {
    hide PairMessage;
    var msg := ContentMsgSize(klen, vlen, p);
    var k := KeySize(2, 2);
    var l := U64Size(msg);
    n := k + l + msg;
  }

  /** The lengths the caller passes along with its pairs. */
  predicate LengthsOf(klens: seq<nat>, vlens: seq<nat>, kvs: seq<Pair>) {
    && |klens| == |vlens| == |kvs|
    && forall i :: 0 <= i < |kvs| ==> klens[i] == |kvs[i].key| && vlens[i] == |kvs[i].value|
  }

  /** The size of a log message, from the lengths alone. */
  method MsgSize(timeMs: int, timeNs: nat, hasTimeNs: bool, klens: seq<nat>, vlens: seq<nat>, ghost kvs: seq<Pair>)
    returns (n: nat)
    requires LengthsOf(klens, vlens, kvs)
    ensures n == |LogMessage(Normal(timeMs, timeNs, hasTimeNs, kvs))|
    ensures n == 1 + |Varint(if timeMs > 0 then timeMs else 0)| + |EncodeAll(PairFields(2, kvs))|
                 + (if timeMs > 0 && hasTimeNs then 5 else 0)
  {
    hide PairMessage, LogMessage, PairFields, EncodeAll;
    var time, hasNs := timeMs, hasTimeNs;
    if time <= 0 {
      time, hasNs := 0, false;
    }
    var k := KeySize(1, 0);
    var t := U64Size(time);
    n := k + t;
    var i := 0;
    NoPairs(2);
    assert kvs[..0] == [];
    while i < |klens|
      invariant 0 <= i <= |klens|
      invariant n == k + t + |EncodeAll(PairFields(2, kvs[..i]))|
    {
      PairsStep(kvs, 2, i);
      var c := ContentFieldSize(klens[i], vlens[i], kvs[i]);
      n, i := n + c, i + 1;
    }
    assert kvs[..i] == kvs;
    LogInParts(Normal(timeMs, timeNs, hasTimeNs, kvs));
    SmallTags();
    if hasNs {
      var f := KeySize(3, 5);
      n := n + f + 4;
    }
  }

  lemma NoPairs(field: nat)
    ensures EncodeAll(PairFields(field, [])) == []
  {
  }

  /** The size of a whole entry: the log message behind its own key and length. */
  method EstimateKvLens(timeMs: int, timeNs: nat, hasTimeNs: bool, klens: seq<nat>, vlens: seq<nat>, ghost kvs: seq<Pair>)
    returns (n: nat)
    requires LengthsOf(klens, vlens, kvs)
    ensures n == |Entry(Normal(timeMs, timeNs, hasTimeNs, kvs))|
  {
    hide LogMessage;
    var msg := MsgSize(timeMs, timeNs, hasTimeNs, klens, vlens, kvs);
    n := 1;
    if msg <= MAX32 {
      n := n + U32Size(msg);
    } else {
      var l := U64Size(msg);
      n := n + l;
    }
    n := n + msg;
  }

  /** One log as it stands in a group. */
  function Entry(l: Log): Bytes {
    Encode(BytesField(1, LogMessage(l)))
  }

  // ---- writing in place ----

  /** The low byte of `v | 0x80`. */
  function Continued(v: nat): Byte {
    (((v % 0x100) as bv8) | 0x80) as int
  }

  lemma {:induction false} ContinuedIsLowSeven(v: nat)
    ensures Continued(v) == v % 0x80 + 0x80
  {
    OrTopBit(v % 0x100);
    LowSevenOfByte(v);
  }

  lemma LowSevenOfByte(v: nat)
    ensures v % 0x80 == v % 0x100 % 0x80
  {
    assert v == 0x100 * (v / 0x100) + v % 0x100;
  }

  lemma {:induction false} OrTopBit(b: Byte)
    ensures ((b as bv8) | 0x80) as int == b % 0x80 + 0x80
  {
    if b < 0x80 {
      assert (b as bv8) & 0x80 == 0;
    }
  }

  method PutByte(buf: array<Byte>, at: nat, b: Byte) returns (end: nat)
    requires at < buf.Length
    modifies buf
    ensures end == at + 1 && buf[..end] == old(buf[..at]) + [b]
  {
    buf[at] := b;
    end := at + 1;
  }

  /** Copies a block of bytes. */
  method PutBlock(buf: array<Byte>, at: nat, s: Bytes) returns (end: nat)
    requires at + |s| <= buf.Length
    modifies buf
    ensures end == at + |s| && buf[..end] == old(buf[..at]) + s
  {
    forall i | 0 <= i < |s| {
      buf[at + i] := s[i];
    }
    end := at + |s|;
    assert buf[..at] == old(buf[..at]) && buf[at..end] == s;
  }

  /** One byte of a varint that goes on. */
  method PutContinued(buf: array<Byte>, at: nat, v: nat) returns (end: nat, w: nat)
    requires v >= 0x80 && at < buf.Length
    modifies buf
    ensures end == at + 1 && w == v / 0x80
    ensures buf[..end] + Varint(w) == old(buf[..at]) + Varint(v)
  {
    ContinuedIsLowSeven(v);
    hide Continued;
    end := PutByte(buf, at, Continued(v));
    w := v / 0x80;
    assert Varint(v) == [v % 0x80 + 0x80] + Varint(w);
  }

  /** The unrolled loop for 32-bit values. */
  method PackU32(buf: array<Byte>, at: nat, v: nat) returns (end: nat)
    requires v <= MAX32 && at + |Varint(v)| <= buf.Length
    modifies buf
    ensures end == at + |Varint(v)| && buf[..end] == old(buf[..at]) + Varint(v)
  {
    VarintLength(v);
    var w;
    end, w := at, v;
    if w >= 0x80 {
      end, w := PutContinued(buf, end, w);
      if w >= 0x80 {
        end, w := PutContinued(buf, end, w);
        if w >= 0x80 {
          end, w := PutContinued(buf, end, w);
          if w >= 0x80 {
            end, w := PutContinued(buf, end, w);
          }
        }
      }
    }
    assert w < 0x80 && buf[..end] + Varint(w) == old(buf[..at]) + Varint(v);
    end := PutByte(buf, end, w);
  }

  method PackU64(buf: array<Byte>, at: nat, v: nat) returns (end: nat)
    requires at + |Varint(v)| <= buf.Length
    modifies buf
    ensures end == at + |Varint(v)| && buf[..end] == old(buf[..at]) + Varint(v)
  {
    var w;
    end, w := at, v;
    while w >= 0x80
      invariant at <= end && end + |Varint(w)| == at + |Varint(v)|
      invariant buf[..end] + Varint(w) == old(buf[..at]) + Varint(v)
      decreases w
    {
      end, w := PutContinued(buf, end, w);
    }
    end := PutByte(buf, end, w);
  }

  /** Packs by the width of the value. */
  method Pack(buf: array<Byte>, at: nat, v: nat) returns (end: nat)
    requires at + |Varint(v)| <= buf.Length
    modifies buf
    ensures end == at + |Varint(v)| && buf[..end] == old(buf[..at]) + Varint(v)
  {
    if v <= MAX32 {
      end := PackU32(buf, at, v);
    } else {
      end := PackU64(buf, at, v);
    }
  }

  /** A key byte, a length and a block: one length-delimited field. */
  method PutField(buf: array<Byte>, at: nat, key: Byte, s: Bytes, ghost field: nat) returns (end: nat)
    requires Tag(field, 2) == [key] && at + |Encode(BytesField(field, s))| <= buf.Length
    modifies buf
    ensures end == at + |Encode(BytesField(field, s))| && buf[..end] == old(buf[..at]) + Encode(BytesField(field, s))
  {
    hide Varint, Tag;
    end := PutByte(buf, at, key);
    end := Pack(buf, end, |s|);
    if |s| > 0 {
      end := PutBlock(buf, end, s);
    }
    FieldBytes(old(buf[..at]), field, key, s);
  }

  lemma {:induction false} FieldBytes(start: Bytes, field: nat, key: Byte, s: Bytes)
    requires Tag(field, 2) == [key]
    ensures start + [key] + Varint(|s|) + s == start + Encode(BytesField(field, s))
    ensures s == [] ==> start + [key] + Varint(|s|) == start + Encode(BytesField(field, s))
  {
    hide Varint, Tag;
    ConcatThree(start, [key], Varint(|s|), s);
    assert start + [key] + Varint(|s|) + [] == start + [key] + Varint(|s|);
  }

  lemma SmallTags()
    ensures Tag(1, 0) == [0x08] && Tag(1, 2) == [0x0A] && Tag(2, 2) == [0x12] && Tag(3, 5) == [0x1D]
  {
  }

  /** One pair: its precomputed length, then its two fields. */
  method PutContent(buf: array<Byte>, at: nat, p: Pair) returns (end: nat)
    requires at + |Encode(BytesField(2, PairMessage(p)))| <= buf.Length
    modifies buf
    ensures end == at + |Encode(BytesField(2, PairMessage(p)))|
    ensures buf[..end] == old(buf[..at]) + Encode(BytesField(2, PairMessage(p)))
  {
    SmallTags();
    PairIsTwoFields(p);
    ContentSize(p);
    hide Varint, Tag, PairMessage, Encode;
    var msg := ContentMsgSize(|p.key|, |p.value|, p);
    end := PutByte(buf, at, 0x12);
    end := Pack(buf, end, msg);
    end := PutField(buf, end, 0x0A, p.key, 1);
    end := PutField(buf, end, 0x12, p.value, 2);
    ContentBytes(old(buf[..at]), p);
  }

  lemma ContentSize(p: Pair)
    ensures |Encode(BytesField(2, PairMessage(p)))| ==
            1 + |Varint(|PairMessage(p)|)| + |Encode(BytesField(1, p.key))| + |Encode(BytesField(2, p.value))|
  {
    hide PairMessage;
    SmallTags();
    PairIsTwoFields(p);
  }

  lemma ContentBytes(start: Bytes, p: Pair)
    ensures start + [0x12] + Varint(|PairMessage(p)|) + Encode(BytesField(1, p.key)) + Encode(BytesField(2, p.value)) ==
            start + Encode(BytesField(2, PairMessage(p)))
  {
    SmallTags();
    PairIsTwoFields(p);
    hide Varint, Tag, PairMessage;
    var k, v := Encode(BytesField(1, p.key)), Encode(BytesField(2, p.value));
    assert PairMessage(p) == k + v;
    ConcatTwo(start + [0x12] + Varint(|PairMessage(p)|), k, v);
    ConcatThree(start, [0x12], Varint(|PairMessage(p)|), k + v);
  }

  method PutContents(buf: array<Byte>, at: nat, kvs: seq<Pair>) returns (end: nat)
    requires at + |EncodeAll(PairFields(2, kvs))| <= buf.Length
    modifies buf
    ensures end == at + |EncodeAll(PairFields(2, kvs))|
    ensures buf[..end] == old(buf[..at]) + EncodeAll(PairFields(2, kvs))
  {
    hide EncodeAll, PairFields, PairMessage, Encode;
    ghost var start := buf[..at];
    NoPairs(2);
    assert kvs[..0] == [] && kvs[0..] == kvs;
    end := at;
    var i := 0;
    while i < |kvs|
      invariant 0 <= i <= |kvs| && at <= end
      invariant end + |EncodeAll(PairFields(2, kvs[i..]))| == at + |EncodeAll(PairFields(2, kvs))|
      invariant end == at + |EncodeAll(PairFields(2, kvs[..i]))|
      invariant buf[..end] == start + EncodeAll(PairFields(2, kvs[..i]))
    {
      PairsRest(kvs, i);
      PairsStep(kvs, 2, i);
      ConcatTwo(start, EncodeAll(PairFields(2, kvs[..i])), Encode(BytesField(2, PairMessage(kvs[i]))));
      end := PutContent(buf, end, kvs[i]);
      i := i + 1;
    }
    assert kvs[..i] == kvs;
  }

  lemma PairsRest(kvs: seq<Pair>, i: nat)
    requires i < |kvs|
    ensures |EncodeAll(PairFields(2, kvs[i..]))| ==
            |Encode(BytesField(2, PairMessage(kvs[i])))| + |EncodeAll(PairFields(2, kvs[i + 1..]))|
  {
    hide PairMessage, Encode;
    assert kvs[i..][1..] == kvs[i + 1..];
    assert PairFields(2, kvs[i..])[1..] == PairFields(2, kvs[i + 1..]);
  }

  method PutNs(buf: array<Byte>, at: nat, ns: nat) returns (end: nat)
    requires at + 5 <= buf.Length
    modifies buf
    ensures end == at + 5 && buf[..end] == old(buf[..at]) + Encode(Fixed32Field(3, ns))
  {
    SmallTags();
    hide Tag, Varint;
    end := PutByte(buf, at, 0x1D);
    end := PutBlock(buf, end, [ns % 0x100, ns / 0x100 % 0x100, ns / 0x1_0000 % 0x100, ns / 0x100_0000 % 0x100]);
    ConcatTwo(old(buf[..at]), [0x1D], Fixed32(ns));
  }

  /** A whole entry, given the size of its message. It fills exactly the room that was computed for it. */
  method PutEntry(buf: array<Byte>, at: nat, msgSize: nat, l: Log) returns (end: nat)
    requires msgSize == |LogMessage(l)| && at + |Entry(l)| <= buf.Length
    modifies buf
    ensures end == at + |Entry(l)| && buf[..end] == old(buf[..at]) + Entry(l)
  {
    SmallTags();
    EntrySize(l);
    EntryBytes(old(buf[..at]), l);
    hide Tag, Varint, LogMessage, Entry, Encode, EncodeAll, PairFields;
    end := PutByte(buf, at, 0x0A);
    end := Pack(buf, end, msgSize);
    end := PutByte(buf, end, 0x08);
    end := Pack(buf, end, l.time);
    end := PutContents(buf, end, l.kvs);
    if l.ns.Some? {
      end := PutNs(buf, end, l.ns.value);
    }
  }

  lemma EntrySize(l: Log)
    ensures |Entry(l)| == 1 + |Varint(|LogMessage(l)|)| + |LogMessage(l)|
    ensures |LogMessage(l)| ==
            1 + |Varint(l.time)| + |EncodeAll(PairFields(2, l.kvs))| + (if l.ns.Some? then 5 else 0)
  {
    SmallTags();
    LogInParts(l);
    hide LogMessage, EncodeAll, PairFields;
  }

  lemma EntryInParts(l: Log)
    ensures Entry(l) == [0x0A] + Varint(|LogMessage(l)|) + LogMessage(l)
  {
    SmallTags();
    hide LogMessage, Varint, Tag;
  }

  lemma MessageInParts(l: Log)
    ensures LogMessage(l) == [0x08] + Varint(l.time) + EncodeAll(PairFields(2, l.kvs))
                             + (if l.ns.Some? then Encode(Fixed32Field(3, l.ns.value)) else [])
  {
    SmallTags();
    LogInParts(l);
    hide LogMessage, EncodeAll, PairFields, Varint, Tag;
    assert [] + ([0x08] + Varint(l.time)) == [0x08] + Varint(l.time);
  }

  lemma EntryBytes(start: Bytes, l: Log)
    ensures var head := start + [0x0A] + Varint(|LogMessage(l)|) + [0x08] + Varint(l.time) + EncodeAll(PairFields(2, l.kvs));
            && (l.ns.None? ==> head == start + Entry(l))
            && (l.ns.Some? ==> head + Encode(Fixed32Field(3, l.ns.value)) == start + Entry(l))
  {
    EntryInParts(l);
    MessageInParts(l);
    hide LogMessage, EncodeAll, Encode, Entry, PairFields, Varint;
    var a, kvs := start + [0x0A] + Varint(|LogMessage(l)|), EncodeAll(PairFields(2, l.kvs));
    ConcatThree(a, [0x08], Varint(l.time), kvs);
    var head := [0x08] + Varint(l.time) + kvs;
    ConcatThree(start, [0x0A], Varint(|LogMessage(l)|), LogMessage(l));
    if l.ns.Some? {
      ConcatTwo(a, head, Encode(Fixed32Field(3, l.ns.value)));
    } else {
      assert head + [] == head;
    }
  }
}
