/** The simple encoder: every message is first built in a buffer of its own,
    whose length then goes in front of it. */
module ProtoEncoder {
  import opened Basics
  import opened Wire
  import WireLaws

  /** A growable byte buffer. */
  class Buffer {
    var data: array<Byte>
    var len: nat
    ghost var contents: Bytes

    ghost predicate Valid()
      reads this, data
    {
      len == |contents| <= data.Length && data[..len] == contents
    }

    constructor ()
      ensures Valid() && contents == [] && fresh(data)
    {
      data := new Byte[0];
      len := 0;
      contents := [];
    }

    /** Doubles from 128 until `n` more bytes fit. */
    method Reserve(n: nat)
      requires Valid()
      modifies this`data
      ensures Valid() && len + n <= data.Length
      ensures data == old(data) || fresh(data)
    {
      if len + n <= data.Length {
        return;
      }
      var target := len + n;
      var next := if data.Length > 0 then data.Length else 128;
      while next < target
        invariant 0 < next
        decreases target - next
      {
        if next > (WORD - 1) / 2 {
          next := target;
          break;
        }
        next := next * 2;
      }
      var was := data;
      data := new Byte[next](i requires 0 <= i < next reads was => if i < was.Length then was[i] else 0);
      assert data[..len] == was[..len];
    }

    method Put(s: Bytes)
      requires Valid()
      modifies this, data
      ensures Valid() && contents == old(contents) + s
      ensures data == old(data) || fresh(data)
    {
      Reserve(|s|);
      var at := len;
      forall i | 0 <= i < |s| {
        data[at + i] := s[i];
      }
      len := len + |s|;
      contents := contents + s;
      assert data[..at] == old(contents);
      assert data[at..len] == s;
    }

    method PutVarint(v: nat)
      requires Valid()
      modifies this, data
      ensures Valid() && contents == old(contents) + Varint(v)
      ensures data == old(data) || fresh(data)
    {
      var w := v;
      while w >= 0x80
        invariant Valid() && (data == old(data) || fresh(data))
        invariant contents + Varint(w) == old(contents) + Varint(v)
        decreases w
      {
        ghost var before := contents;
        Put([w % 0x80 + 0x80]);
        assert before + Varint(w) == contents + Varint(w / 0x80);
        w := w / 0x80;
      }
      Put([w]);
    }

    method PutKey(field: nat, wireType: nat)
      requires Valid()
      modifies this, data
      ensures Valid() && contents == old(contents) + Tag(field, wireType)
      ensures data == old(data) || fresh(data)
    {
      PutVarint(8 * field + wireType);
    }

    method PutLenDelimited(s: Bytes)
      requires Valid()
      modifies this, data
      ensures Valid() && contents == old(contents) + (Varint(|s|) + s)
      ensures data == old(data) || fresh(data)
    {
      PutVarint(|s|);
      Put(s);
    }

    /** A length-delimited field: a string or a nested message. */
    method PutBytes(field: nat, s: Bytes)
      requires Valid()
      modifies this, data
      ensures Valid() && contents == old(contents) + Encode(BytesField(field, s))
      ensures data == old(data) || fresh(data)
    {
      PutKey(field, 2);
      PutLenDelimited(s);
      assert Tag(field, 2) + (Varint(|s|) + s) == Encode(BytesField(field, s));
    }

    method PutInt64(field: nat, v: nat)
      requires Valid()
      modifies this, data
      ensures Valid() && contents == old(contents) + Encode(VarintField(field, v))
      ensures data == old(data) || fresh(data)
    {
      hide Varint;
      PutKey(field, 0);
      PutVarint(v);
    }

    method PutFixed32(field: nat, w: nat)
      requires Valid()
      modifies this, data
      ensures Valid() && contents == old(contents) + Encode(Fixed32Field(field, w))
      ensures data == old(data) || fresh(data)
    {
      PutKey(field, 5);
      Put([w % 0x100, w / 0x100 % 0x100, w / 0x1_0000 % 0x100, w / 0x100_0000 % 0x100]);
    }

    /** A key-value pair, encoded in a buffer of its own first. */
    method PutPair(field: nat, p: Pair)
      requires Valid()
      modifies this, data
      ensures Valid() && contents == old(contents) + Encode(BytesField(field, PairMessage(p)))
      ensures data == old(data) || fresh(data)
    {
      var tmp := new Buffer();
      tmp.PutBytes(1, p.key);
      tmp.PutBytes(2, p.value);
      PairIsTwoFields(p);
      assert tmp.contents == PairMessage(p);
      PutBytes(field, tmp.data[..tmp.len]);
    }
  }

  lemma {:induction false} PairIsTwoFields(p: Pair)
    ensures [] + Encode(BytesField(1, p.key)) + Encode(BytesField(2, p.value)) == PairMessage(p)
  {
    EncodeConcat([BytesField(1, p.key)], [BytesField(2, p.value)]);
    EncodeOne(BytesField(1, p.key));
    EncodeOne(BytesField(2, p.value));
    assert PairRecords(p) == [BytesField(1, p.key)] + [BytesField(2, p.value)];
  }

  /** The log a caller's time and nanoseconds stand for: a time that is not
      positive is stored as zero, without nanoseconds. */
  function Normal(timeMs: int, timeNs: nat, hasTimeNs: bool, kvs: seq<Pair>): Log {
    if timeMs <= 0 then Log(0, None, kvs)
    else Log(timeMs, if hasTimeNs then Some(timeNs) else None, kvs)
  }

  /** The message of one log. It decodes to the caller's pairs and, when the time
      is positive, to the caller's time and nanoseconds; otherwise the time is
      zero and the nanoseconds are left out. */
  method EncodeLog(timeMs: int, timeNs: nat, hasTimeNs: bool, kvs: seq<Pair>) returns (out: Bytes)
    ensures out == LogMessage(Normal(timeMs, timeNs, hasTimeNs, kvs))
    ensures timeMs > 0 && timeNs < 0x1_0000_0000 ==>
              DecodeLog(out) == Some(Log(timeMs, if hasTimeNs then Some(timeNs) else None, kvs))
    ensures timeMs <= 0 ==> DecodeLog(out) == Some(Log(0, None, kvs))
  {
    hide LogMessage, DecodeLog, Encode, EncodeAll, PairFields;
    var b := new Buffer();
    var time, ns, hasNs := timeMs, timeNs, hasTimeNs;
    if time <= 0 {
      time, ns, hasNs := 0, 0, false;
    }
    b.PutInt64(1, time);
    PutPairs(b, 2, kvs);
    ghost var l := Normal(timeMs, timeNs, hasTimeNs, kvs);
    LogInParts(l);
    if hasNs {
      b.PutFixed32(3, ns);
    }
    out := b.data[..b.len];
    if timeMs <= 0 || timeNs < 0x1_0000_0000 {
      WireLaws.LogRoundTrip(l);
    }
  }

  /** A record at a time makes the whole message. */
  lemma {:induction false} LogInParts(l: Log)
    ensures var head := [] + Encode(VarintField(1, l.time)) + EncodeAll(PairFields(2, l.kvs));
            && (l.ns.None? ==> head == LogMessage(l))
            && (l.ns.Some? ==> head + Encode(Fixed32Field(3, l.ns.value)) == LogMessage(l))
  {
    LogHead(l.time, l.kvs);
    EncodeConcat([VarintField(1, l.time)] + PairFields(2, l.kvs), NsFields(l.ns));
    if l.ns.Some? {
      EncodeOne(Fixed32Field(3, l.ns.value));
    }
  }

  lemma {:induction false} LogHead(time: nat, kvs: seq<Pair>)
    ensures [] + Encode(VarintField(1, time)) + EncodeAll(PairFields(2, kvs)) ==
            EncodeAll([VarintField(1, time)] + PairFields(2, kvs))
  {
    EncodeConcat([VarintField(1, time)], PairFields(2, kvs));
    EncodeOne(VarintField(1, time));
    assert [] + Encode(VarintField(1, time)) == Encode(VarintField(1, time));
  }

  lemma {:induction false} PairsStep(ps: seq<Pair>, field: nat, i: nat)
    requires i < |ps|
    ensures EncodeAll(PairFields(field, ps[..i + 1])) ==
            EncodeAll(PairFields(field, ps[..i])) + Encode(BytesField(field, PairMessage(ps[i])))
  {
    assert ps[..i + 1] == ps[..i] + [ps[i]];
    PairFieldsConcat(field, ps[..i], [ps[i]]);
    OnePair(field, ps[i]);
    EncodeConcat(PairFields(field, ps[..i]), PairFields(field, [ps[i]]));
  }

  lemma OnePair(field: nat, p: Pair)
    ensures EncodeAll(PairFields(field, [p])) == Encode(BytesField(field, PairMessage(p)))
  {
    hide PairMessage, Encode;
    assert PairFields(field, [p]) == [BytesField(field, PairMessage(p))];
    EncodeOne(BytesField(field, PairMessage(p)));
  }

  method PutPairs(b: Buffer, field: nat, ps: seq<Pair>)
    requires b.Valid()
    modifies b, b.data
    ensures b.Valid() && b.contents == old(b.contents) + EncodeAll(PairFields(field, ps))
    ensures b.data == old(b.data) || fresh(b.data)
  {
    ghost var start := b.contents;
    var i := 0;
    assert start + EncodeAll(PairFields(field, ps[..0])) == start;
    while i < |ps|
      invariant 0 <= i <= |ps| && b.Valid()
      invariant b.data == old(b.data) || fresh(b.data)
      invariant b.contents == start + EncodeAll(PairFields(field, ps[..i]))
    {
      hide PairFields, Encode, PairMessage, EncodeAll;
      PairsStep(ps, field, i);
      ConcatTwo(start, EncodeAll(PairFields(field, ps[..i])), Encode(BytesField(field, PairMessage(ps[i]))));
      b.PutPair(field, ps[i]);
      i := i + 1;
    }
    assert ps[..|ps|] == ps;
  }

  // ---- groups ----

  lemma {:induction false} LogsStep(ls: seq<Log>, i: nat)
    requires i < |ls|
    ensures EncodeAll(LogFields(ls[..i + 1])) ==
            EncodeAll(LogFields(ls[..i])) + Encode(BytesField(1, LogMessage(ls[i])))
  {
    assert ls[..i + 1] == ls[..i] + [ls[i]];
    LogFieldsConcat(ls[..i], [ls[i]]);
    OneLog(ls[i]);
    EncodeConcat(LogFields(ls[..i]), LogFields([ls[i]]));
  }

  lemma OneLog(l: Log)
    ensures EncodeAll(LogFields([l])) == Encode(BytesField(1, LogMessage(l)))
  {
    hide LogMessage, Encode;
    assert LogFields([l]) == [BytesField(1, LogMessage(l))];
    EncodeOne(BytesField(1, LogMessage(l)));
  }

  lemma {:induction false} MessageAt(ls: seq<Log>, i: nat)
    requires i < |ls|
    ensures LogMessages(ls)[i] == LogMessage(ls[i])
  {
    hide LogMessage;
    if i > 0 {
      MessageAt(ls[1..], i - 1);
    }
  }

  lemma {:induction false} MessagesSlice(ls: seq<Log>, a: nat, b: nat)
    requires a <= b <= |ls|
    ensures LogMessages(ls)[a..b] == LogMessages(ls[a..b])
  {
    hide LogMessage, LogMessages;
    forall i | 0 <= i < b - a ensures LogMessages(ls)[a..b][i] == LogMessages(ls[a..b])[i] {
      MessageAt(ls, a + i);
      MessageAt(ls[a..b], i);
    }
  }

  lemma {:induction false} TextStep(field: nat, s: Bytes)
    ensures EncodeAll(TextField(field, s)) == if s == [] then [] else Encode(BytesField(field, s))
  {
    if s != [] {
      EncodeOne(BytesField(field, s));
    }
  }

  lemma {:induction false} InfoInParts(g: GroupInfo)
    ensures EncodeAll(InfoFields(g)) ==
            EncodeAll(TextField(2, g.source)) + EncodeAll(TextField(4, g.fileName))
            + EncodeAll(PairFields(3, g.tags)) + EncodeAll(TextField(5, g.contextFlow))
  {
    EncodeConcat(TextField(2, g.source) + TextField(4, g.fileName) + PairFields(3, g.tags), TextField(5, g.contextFlow));
    EncodeConcat(TextField(2, g.source) + TextField(4, g.fileName), PairFields(3, g.tags));
    EncodeConcat(TextField(2, g.source), TextField(4, g.fileName));
  }

  /** A string field that is left out when it is empty. */
  method PutText(b: Buffer, field: nat, s: Bytes)
    requires b.Valid()
    modifies b, b.data
    ensures b.Valid() && b.contents == old(b.contents) + EncodeAll(TextField(field, s))
    ensures b.data == old(b.data) || fresh(b.data)
  {
    TextStep(field, s);
    if |s| > 0 {
      b.PutBytes(field, s);
    }
  }

  method PutInfo(b: Buffer, g: GroupInfo)
    requires b.Valid()
    modifies b, b.data
    ensures b.Valid() && b.contents == old(b.contents) + EncodeAll(InfoFields(g))
    ensures b.data == old(b.data) || fresh(b.data)
  {
    InfoInParts(g);
    PutText(b, 2, g.source);
    PutText(b, 4, g.fileName);
    PutPairs(b, 3, g.tags);
    PutText(b, 5, g.contextFlow);
    InfoJoins(old(b.contents), g);
  }

  lemma {:induction false} InfoJoins(s: Bytes, g: GroupInfo)
    ensures s + EncodeAll(TextField(2, g.source)) + EncodeAll(TextField(4, g.fileName))
            + EncodeAll(PairFields(3, g.tags)) + EncodeAll(TextField(5, g.contextFlow)) == s + EncodeAll(InfoFields(g))
  {
    InfoInParts(g);
    ConcatFour(s, EncodeAll(TextField(2, g.source)), EncodeAll(TextField(4, g.fileName)),
                EncodeAll(PairFields(3, g.tags)), EncodeAll(TextField(5, g.contextFlow)));
  }

  /** Encodes the logs `msgs`, which are the messages of `ls`, as one group. */
  method PutGroup(b: Buffer, msgs: seq<Bytes>, g: GroupInfo, ghost ls: seq<Log>)
    requires b.Valid() && msgs == LogMessages(ls)
    modifies b, b.data
    ensures b.Valid() && b.contents == old(b.contents) + OneGroup(ls, g)
    ensures b.data == old(b.data) || fresh(b.data)
  {
    var tmp := new Buffer();
    PutLogs(tmp, msgs, ls);
    PutInfo(tmp, g);
    assert tmp.contents == GroupMessage(ls, g);
    b.PutBytes(1, tmp.data[..tmp.len]);
  }

  method PutLogs(b: Buffer, msgs: seq<Bytes>, ghost ls: seq<Log>)
    requires b.Valid() && b.contents == [] && msgs == LogMessages(ls)
    modifies b, b.data
    ensures b.Valid() && b.contents == EncodeAll(LogFields(ls))
    ensures b.data == old(b.data) || fresh(b.data)
  {
    var i := 0;
    while i < |msgs|
      invariant 0 <= i <= |msgs| && b.Valid()
      invariant b.data == old(b.data) || fresh(b.data)
      invariant b.contents == EncodeAll(LogFields(ls[..i]))
    {
      LogsStep(ls, i);
      MessageAt(ls, i);
      b.PutBytes(1, msgs[i]);
      i := i + 1;
    }
    assert ls[..|ls|] == ls;
  }

  /** At most 10000 logs a group, or fewer when asked. */
  function PerGroup(maxLogs: nat): nat {
    if maxLogs == 0 || maxLogs > 10000 then 10000 else maxLogs
  }

  method EncodeGroupList(msgs: seq<Bytes>, g: GroupInfo, maxLogs: nat, ghost ls: seq<Log>) returns (out: Bytes)
    requires msgs == LogMessages(ls)
    ensures out == GroupList(ls, g, PerGroup(maxLogs))
  {
    if |msgs| == 0 {
      return [];
    }
    var b := new Buffer();
    PutGroups(b, msgs, g, PerGroup(maxLogs), ls);
    out := b.data[..b.len];
  }

  method PutGroups(b: Buffer, msgs: seq<Bytes>, g: GroupInfo, perGroup: nat, ghost ls: seq<Log>)
    requires b.Valid() && b.contents == [] && 0 < perGroup && msgs == LogMessages(ls)
    modifies b, b.data
    ensures b.Valid() && b.contents == GroupList(ls, g, perGroup)
  {
    hide GroupList, LogMessages, Written, OneGroup, LogMessage;
    var off := 0;
    ghost var all, at := GroupList(ls, g, perGroup), 0;
    assert ls[0..] == ls;
    WrittenNothing(ls, g, perGroup);
    while off < |msgs|
      invariant at == Min(off, |ls|) && b.Valid()
      invariant b.data == old(b.data) || fresh(b.data)
      invariant Written(b.contents, ls[at..], g, perGroup, all)
      decreases |msgs| - off
    {
      var n := |msgs| - off;
      if n > perGroup {
        n := perGroup;
      }
      MessagesSlice(ls, off, off + n);
      PutNextGroup(b, msgs[off..off + n], g, perGroup, ls, off, all);
      at := off + n;
      off := off + perGroup;
    }
    assert ls[at..] == [];
    WrittenAll(b.contents, g, perGroup, all);
  }

  method PutNextGroup(b: Buffer, msgs: seq<Bytes>, g: GroupInfo, per: nat, ghost ls: seq<Log>, ghost off: nat, ghost all: Bytes)
    requires b.Valid() && 0 < per && off < |ls| && |msgs| == Min(per, |ls| - off)
    requires msgs == LogMessages(ls[off..off + |msgs|])
    requires Written(b.contents, ls[off..], g, per, all)
    modifies b, b.data
    ensures b.Valid() && Written(b.contents, ls[off + |msgs|..], g, per, all)
    ensures b.data == old(b.data) || fresh(b.data)
  {
    hide OneGroup, Written, GroupList, LogMessages;
    WrittenStep(b.contents, ls, g, per, off, |msgs|, all);
    PutGroup(b, msgs, g, ls[off..off + |msgs|]);
  }

  /** What is written, with the groups still to come, makes the whole list. */
  ghost predicate Written(done: Bytes, rest: seq<Log>, g: GroupInfo, per: nat, all: Bytes)
    requires 0 < per
  {
    done + GroupList(rest, g, per) == all
  }

  lemma {:induction false} WrittenNothing(ls: seq<Log>, g: GroupInfo, per: nat)
    requires 0 < per
    ensures Written([], ls, g, per, GroupList(ls, g, per))
  {
    assert [] + GroupList(ls, g, per) == GroupList(ls, g, per);
  }

  lemma {:induction false} WrittenAll(done: Bytes, g: GroupInfo, per: nat, all: Bytes)
    requires 0 < per && Written(done, [], g, per, all)
    ensures done == all
  {
    assert done + [] == done;
  }

  lemma {:induction false} WrittenStep(done: Bytes, ls: seq<Log>, g: GroupInfo, per: nat, off: nat, n: nat, all: Bytes)
    requires 0 < per && off < |ls| && n == Min(per, |ls| - off)
    requires Written(done, ls[off..], g, per, all)
    ensures Written(done + OneGroup(ls[off..off + n], g), ls[off + n..], g, per, all)
  {
    GroupListStep(ls, g, per, off, n);
    ConcatTwo(done, OneGroup(ls[off..off + n], g), GroupList(ls[off + n..], g, per));
  }

  lemma {:induction false} GroupListStep(ls: seq<Log>, g: GroupInfo, per: nat, off: nat, n: nat)
    requires 0 < per && off < |ls| && n == Min(per, |ls| - off)
    ensures GroupList(ls[off..], g, per) == OneGroup(ls[off..off + n], g) + GroupList(ls[off + n..], g, per)
  {
    Slices(ls, off, n);
  }

  lemma Slices<T>(s: seq<T>, off: nat, n: nat)
    requires off + n <= |s|
    ensures s[off..][..n] == s[off..off + n] && s[off..][n..] == s[off + n..]
  {
  }
}
