/** The log group builder, the group suffix, and the body of a send task. */
module LogBuilder {
  import opened Basics
  import opened Wire
  import opened ProtoEncoder
  import opened Builder
  import opened BuilderStats
  import WireLaws

  class LogGroupBuilder {
    var logs: array<Byte>
    var logsLen: nat
    var logCount: nat
    var earliest: int
    var latest: int
    var startId: int
    var endId: int
    var lastTimeMs: int
    var lastTimeNs: nat
    var lastHasTimeNs: bool
    ghost var entries: seq<Log>

    function Record(): Stats
      reads this
    {
      Stats(logCount, earliest, latest, startId, endId, lastTimeMs, lastTimeNs, lastHasTimeNs)
    }

    /** The buffer starts with the entries, back to back. */
    ghost predicate Valid()
      reads this, logs
    {
      && logsLen <= logs.Length && logs[..logsLen] == EncodeAll(LogFields(entries))
      && logCount == |entries|
    }

    constructor ()
      ensures Valid() && entries == [] && logsLen == 0 && Record() == FRESH && fresh(logs)
    {
      logs := new Byte[0];
      logsLen, logCount := 0, 0;
      earliest, latest, startId, endId := 0, 0, 0, 0;
      lastTimeMs, lastTimeNs, lastHasTimeNs := 0, 0, false;
      entries := [];
    }

    /** Doubles from 256 until `need` bytes fit. */
    method Reserve(need: nat)
      requires Valid()
      modifies this`logs
      ensures Valid() && need <= logs.Length && logs[..logsLen] == old(logs[..logsLen])
      ensures logs == old(logs) || fresh(logs)
    {
      if logs.Length >= need {
        return;
      }
      var next := if logs.Length > 0 then logs.Length else 256;
      while next < need
        invariant 0 < next
        decreases need - next
      {
        if next > (WORD - 1) / 2 {
          next := need;
          break;
        }
        next := next * 2;
      }
      var was := logs;
      logs := new Byte[next](i requires 0 <= i < next reads was => if i < was.Length then was[i] else 0);
      assert logs[..logsLen] == was[..logsLen];
    }

    /** Adds one log. It fails only when the buffer would outgrow the address
        space, and then changes nothing. What is appended is exactly the entry
        the simple encoder would write, and as long as the estimate said. */
    method AddKvLens(a: Arrival, kvs: seq<Pair>, klens: seq<nat>, vlens: seq<nat>) returns (ok: bool)
      requires Valid() && LengthsOf(klens, vlens, kvs)
      modifies this, logs
      ensures Valid() && (logs == old(logs) || fresh(logs))
      ensures var l := if a.timeMs > 0 then Log(a.timeMs, if a.hasTimeNs then Some(a.timeNs) else None, kvs)
                       else Log(0, None, kvs);
              && ok == (old(logsLen) + |Entry(l)| < WORD)
              && (ok ==> entries == old(entries) + [l] && logsLen == old(logsLen) + |Entry(l)|
                         && Record() == Add(old(Record()), a))
              && (!ok ==> entries == old(entries) && Record() == old(Record()) && logsLen == old(logsLen))
    {
      hide EncodeAll, LogFields, Entry, LogMessage, Encode;
      var n := Normalised(a);
      ghost var l := Normal(a.timeMs, a.timeNs, a.hasTimeNs, kvs);
      var msgSize := MsgSize(n.timeMs, n.timeNs, n.hasTimeNs, klens, vlens, kvs);
      var entrySize := EstimateKvLens(n.timeMs, n.timeNs, n.hasTimeNs, klens, vlens, kvs);
      assert Normal(n.timeMs, n.timeNs, n.hasTimeNs, kvs) == l;
      if entrySize > WORD - 1 || logsLen > WORD - 1 - entrySize {
        return false;
      }
      Reserve(logsLen + entrySize);
      var end := PutEntry(logs, logsLen, msgSize, Normal(n.timeMs, n.timeNs, n.hasTimeNs, kvs));
      EntriesGrow(entries, l);
      logsLen := end;
      entries := entries + [l];
      Note(a.id, n);
      ok := true;
    }

    /** The record of one more log. */
    method Note(id: int, n: Arrival)
      requires n == Normalised(n) && n.id == id
      modifies this`logCount, this`earliest, this`latest, this`startId, this`endId
      modifies this`lastTimeMs, this`lastTimeNs, this`lastHasTimeNs
      ensures Record() == Add(old(Record()), n)
    {
      logCount := logCount + 1;
      if n.timeMs > 0 {
        if earliest == 0 || n.timeMs < earliest {
          earliest := n.timeMs;
        }
        if latest == 0 || n.timeMs > latest {
          latest := n.timeMs;
        }
      }
      if startId == 0 {
        startId := id;
      }
      endId := id;
      lastTimeMs, lastTimeNs, lastHasTimeNs := n.timeMs, n.timeNs, n.hasTimeNs;
    }

    /** Appends the logs of another builder; an empty one is refused. */
    method AppendBatch(b: LogGroupBuilder) returns (ok: bool)
      requires Valid() && b.Valid() && b != this && b.logs != logs
      modifies this, logs
      ensures Valid() && (logs == old(logs) || fresh(logs))
      ensures ok == (b.entries != [])
      ensures ok ==> entries == old(entries) + b.entries && Record() == Append(old(Record()), b.Record())
      ensures ok ==> logsLen == old(logsLen) + b.logsLen
      ensures !ok ==> entries == old(entries) && Record() == old(Record())
    {
      hide EncodeAll, LogFields, Append;
      NoBytesNoLogs(b.entries);
      if b.logsLen == 0 || b.logCount <= 0 {
        return false;
      }
      Reserve(logsLen + b.logsLen);
      LogFieldsConcat(entries, b.entries);
      EncodeConcat(LogFields(entries), LogFields(b.entries));
      var end := PutBlock(logs, logsLen, b.logs[..b.logsLen]);
      logsLen := end;
      entries := entries + b.entries;
      NoteBatch(b.Record());
      ok := true;
    }

    method NoteBatch(b: Stats)
      modifies this`logCount, this`earliest, this`latest, this`startId, this`endId
      modifies this`lastTimeMs, this`lastTimeNs, this`lastHasTimeNs
      ensures Record() == Append(old(Record()), b) && logCount == old(logCount) + b.logCount
    {
      logCount := logCount + b.logCount;
      if b.earliest > 0 {
        if earliest == 0 || b.earliest < earliest {
          earliest := b.earliest;
        }
      }
      if b.latest > 0 {
        if b.latest > latest {
          latest := b.latest;
        }
      }
      if startId == 0 || b.startId < startId {
        startId := b.startId;
      }
      if b.endId > endId {
        endId := b.endId;
      }
      lastTimeMs, lastTimeNs, lastHasTimeNs := b.lastTimeMs, b.lastTimeNs, b.lastHasTimeNs;
    }
  }

  lemma {:induction false} EntriesGrow(entries: seq<Log>, l: Log)
    ensures EncodeAll(LogFields(entries + [l])) == EncodeAll(LogFields(entries)) + Entry(l)
  {
    LogFieldsConcat(entries, [l]);
    EncodeConcat(LogFields(entries), LogFields([l]));
    OneLog(l);
    hide EncodeAll, LogFields, LogMessage;
  }

  lemma NoBytesNoLogs(entries: seq<Log>)
    ensures |EncodeAll(LogFields(entries))| == 0 <==> entries == []
  {
    if entries != [] {
      assert |Encode(LogFields(entries)[0])| > 0;
    }
  }

  // ---- the group suffix ----

  /** The tags with precomputed lengths, and the texts that are not empty. */
  method BuildGroupSuffix(g: GroupInfo) returns (suffix: Bytes)
    ensures suffix == EncodeAll(InfoFields(g))
  {
    hide EncodeAll, InfoFields, TextField, PairFields;
    var b := new Buffer();
    PutText(b, 2, g.source);
    PutText(b, 4, g.fileName);
    PutTags(b, g.tags);
    PutText(b, 5, g.contextFlow);
    InfoJoins([], g);
    assert [] + EncodeAll(InfoFields(g)) == EncodeAll(InfoFields(g));
    suffix := b.data[..b.len];
  }

  method PutTag(b: Buffer, p: Pair)
    requires b.Valid()
    modifies b, b.data
    ensures b.Valid() && b.contents == old(b.contents) + Encode(BytesField(3, PairMessage(p)))
    ensures b.data == old(b.data) || fresh(b.data)
  {
    TagBytes(b.contents, p);
    hide Encode, PairMessage, Tag, Varint;
    var msg := ContentMsgSize(|p.key|, |p.value|, p);
    b.PutKey(3, 2);
    b.PutVarint(msg);
    b.PutBytes(1, p.key);
    b.PutBytes(2, p.value);
  }

  lemma TagBytes(start: Bytes, p: Pair)
    ensures start + Tag(3, 2) + Varint(|PairMessage(p)|) + Encode(BytesField(1, p.key)) + Encode(BytesField(2, p.value)) ==
            start + Encode(BytesField(3, PairMessage(p)))
  {
    PairIsTwoFields(p);
    hide Varint, Tag, PairMessage;
    var k, v := Encode(BytesField(1, p.key)), Encode(BytesField(2, p.value));
    assert PairMessage(p) == k + v;
    ConcatTwo(start + Tag(3, 2) + Varint(|PairMessage(p)|), k, v);
    ConcatThree(start, Tag(3, 2), Varint(|PairMessage(p)|), k + v);
  }

  method PutTags(b: Buffer, ps: seq<Pair>)
    requires b.Valid()
    modifies b, b.data
    ensures b.Valid() && b.contents == old(b.contents) + EncodeAll(PairFields(3, ps))
    ensures b.data == old(b.data) || fresh(b.data)
  {
    hide PairFields, Encode, PairMessage, EncodeAll;
    ghost var start := b.contents;
    var i := 0;
    NoTags(start, ps);
    while i < |ps|
      invariant 0 <= i <= |ps| && b.Valid()
      invariant b.data == old(b.data) || fresh(b.data)
      invariant b.contents == start + EncodeAll(PairFields(3, ps[..i]))
    {
      PairsStep(ps, 3, i);
      ConcatTwo(start, EncodeAll(PairFields(3, ps[..i])), Encode(BytesField(3, PairMessage(ps[i]))));
      PutTag(b, ps[i]);
      i := i + 1;
    }
    assert ps[..|ps|] == ps;
  }

  lemma NoTags(start: Bytes, ps: seq<Pair>)
    ensures start + EncodeAll(PairFields(3, ps[..0])) == start
  {
  }

  // ---- the send task ----

  datatype BuiltTask = BuiltTask(body: Bytes, rawBodySize: nat, batchBytes: nat, stats: Stats)

  /** Wraps the entries and the suffix into a list of one group. */
  method ToSendTask(b: LogGroupBuilder, suffix: Bytes, ghost g: GroupInfo) returns (t: BuiltTask)
    requires b.Valid() && suffix == EncodeAll(InfoFields(g))
    ensures t.body == OneGroup(b.entries, g) && t.rawBodySize == |t.body|
    ensures t.batchBytes == |GroupMessage(b.entries, g)| && t.stats == b.Record()
  {
    hide EncodeAll, InfoFields, LogFields, Tag, Varint;
    var groupLen := b.logsLen + |suffix|;
    var wb := new Buffer();
    wb.PutKey(1, 2);
    wb.PutVarint(groupLen);
    wb.Put(b.logs[..b.logsLen]);
    if |suffix| > 0 {
      wb.Put(suffix);
    }
    GroupBytes(b.entries, g);
    var body := wb.data[..wb.len];
    t := BuiltTask(body, wb.len, groupLen, b.Record());
  }

  lemma {:induction false} GroupBytes(entries: seq<Log>, g: GroupInfo)
    ensures var start := [] + Tag(1, 2) + Varint(|GroupMessage(entries, g)|) + EncodeAll(LogFields(entries));
            && (EncodeAll(InfoFields(g)) == [] ==> start == OneGroup(entries, g))
            && start + EncodeAll(InfoFields(g)) == OneGroup(entries, g)
  {
    hide EncodeAll, InfoFields, LogFields, Tag, Varint;
    var a, c := EncodeAll(LogFields(entries)), EncodeAll(InfoFields(g));
    ConcatTwo([] + Tag(1, 2) + Varint(|GroupMessage(entries, g)|), a, c);
    assert [] + Tag(1, 2) == Tag(1, 2);
    if c == [] {
      assert a + c == a;
    }
  }

  // ---- the two encoders agree ----

  /** The builder's body is byte for byte the simple encoder's list exactly when
      it holds at least one log and no more than go into one group. */
  lemma BodyIsReference(entries: seq<Log>, g: GroupInfo)
    requires WireLaws.AllSound(entries)
    ensures OneGroup(entries, g) == GroupList(entries, g, PerGroup(10000)) <==> 1 <= |entries| <= 10000
  {
    WireLaws.OneGroupIsList(entries, g, 10000);
  }

  /** Any body of the builder decodes to exactly its logs and the group's texts and tags. */
  lemma BodyRoundTrip(entries: seq<Log>, g: GroupInfo)
    requires WireLaws.AllSound(entries)
    ensures DecodeList(OneGroup(entries, g)) == Some([Group(entries, g)])
  {
    WireLaws.OneGroupRoundTrip(entries, g);
  }
}
