/** The decoder recovers exactly what was encoded. */
module WireLaws {
  import opened Basics
  import opened Wire

  // ---- fields of records ----

  lemma {:induction false} DataConcat(a: seq<Record>, b: seq<Record>, f: nat)
    ensures AllData(a + b, f) == AllData(a, f) + AllData(b, f)
  {
    if a == [] {
      assert a + b == b;
    } else {
      assert (a + b)[1..] == a[1..] + b;
      DataConcat(a[1..], b, f);
    }
  }

  lemma {:induction false} NumbersConcat(a: seq<Record>, b: seq<Record>, f: nat)
    ensures Numbers(a + b, f) == Numbers(a, f) + Numbers(b, f)
  {
    if a == [] {
      assert a + b == b;
    } else {
      assert (a + b)[1..] == a[1..] + b;
      NumbersConcat(a[1..], b, f);
    }
  }

  lemma {:induction false} WordsConcat(a: seq<Record>, b: seq<Record>, f: nat)
    ensures Words(a + b, f) == Words(a, f) + Words(b, f)
  {
    if a == [] {
      assert a + b == b;
    } else {
      assert (a + b)[1..] == a[1..] + b;
      WordsConcat(a[1..], b, f);
    }
  }

  function PairMessages(ps: seq<Pair>): seq<Bytes> {
    if ps == [] then [] else [PairMessage(ps[0])] + PairMessages(ps[1..])
  }

  lemma {:induction false} FieldsOfPairs(field: nat, ps: seq<Pair>, f: nat)
    ensures AllData(PairFields(field, ps), f) == if f == field then PairMessages(ps) else []
    ensures Numbers(PairFields(field, ps), f) == []
    ensures Words(PairFields(field, ps), f) == []
  {
    if ps != [] {
      FieldsOfPairs(field, ps[1..], f);
      assert PairFields(field, ps)[1..] == PairFields(field, ps[1..]);
    }
  }

  lemma {:induction false} FieldsOfLogs(ls: seq<Log>, f: nat)
    ensures AllData(LogFields(ls), f) == if f == 1 then LogMessages(ls) else []
  {
    if ls != [] {
      FieldsOfLogs(ls[1..], f);
      assert LogFields(ls)[1..] == LogFields(ls[1..]);
    }
  }

  // ---- pairs and logs ----

  lemma DataOfOne(field: nat, a: Bytes, f: nat)
    ensures AllData([BytesField(field, a)], f) == if f == field then [a] else []
  {
    assert [BytesField(field, a)][1..] == [];
    assert AllData([], f) == [];
  }

  lemma {:induction false} DataOfTwo(a: Bytes, b: Bytes)
    ensures AllData([BytesField(1, a), BytesField(2, b)], 1) == [a]
    ensures AllData([BytesField(1, a), BytesField(2, b)], 2) == [b]
  {
    hide AllData;
    assert [BytesField(1, a), BytesField(2, b)] == [BytesField(1, a)] + [BytesField(2, b)];
    DataConcat([BytesField(1, a)], [BytesField(2, b)], 1);
    DataConcat([BytesField(1, a)], [BytesField(2, b)], 2);
    DataOfOne(1, a, 1);
    DataOfOne(1, a, 2);
    DataOfOne(2, b, 1);
    DataOfOne(2, b, 2);
  }

  lemma PairRoundTrip(p: Pair)
    ensures DecodePair(PairMessage(p)) == Some(p)
  {
    ParseRoundTrip(PairRecords(p));
    DataOfTwo(p.key, p.value);
  }

  lemma {:induction false} PairsRoundTrip(ps: seq<Pair>)
    ensures DecodePairs(PairMessages(ps)) == Some(ps)
  {
    hide DecodePair, PairMessage;
    if ps != [] {
      PairRoundTrip(ps[0]);
      PairsRoundTrip(ps[1..]);
      assert PairMessages(ps)[1..] == PairMessages(ps[1..]);
      assert [ps[0]] + ps[1..] == ps;
    }
  }

  /** Nanoseconds are a 32-bit value. */
  predicate Sound(l: Log) {
    l.ns.Some? ==> l.ns.value < 0x1_0000_0000
  }

  lemma LogRoundTrip(l: Log)
    requires Sound(l)
    ensures DecodeLog(LogMessage(l)) == Some(l)
  {
    ParseRoundTrip(LogRecords(l));
    LogFieldValues(l);
    PairsRoundTrip(l.kvs);
  }

  lemma LogFieldValues(l: Log)
    ensures LastNumber(LogRecords(l), 1) == l.time
    ensures LastWord(LogRecords(l), 3) == l.ns
    ensures AllData(LogRecords(l), 2) == PairMessages(l.kvs)
  {
    hide PairFields, NsFields, AllData, Numbers, Words, PairMessages;
    var time, kvs, ns := [VarintField(1, l.time)], PairFields(2, l.kvs), NsFields(l.ns);
    HeadFields(l.time, l.ns);
    NumbersConcat(time + kvs, ns, 1);
    NumbersConcat(time, kvs, 1);
    FieldsOfPairs(2, l.kvs, 1);
    DataConcat(time + kvs, ns, 2);
    DataConcat(time, kvs, 2);
    FieldsOfPairs(2, l.kvs, 2);
    WordsConcat(time + kvs, ns, 3);
    WordsConcat(time, kvs, 3);
    FieldsOfPairs(2, l.kvs, 3);
  }

  lemma HeadFields(time: nat, ns: Option<nat>)
    ensures Numbers([VarintField(1, time)], 1) == [time] && Words([VarintField(1, time)], 3) == []
    ensures AllData([VarintField(1, time)], 2) == []
    ensures Numbers(NsFields(ns), 1) == [] && AllData(NsFields(ns), 2) == []
    ensures Words(NsFields(ns), 3) == if ns.Some? then [ns.value] else []
  {
  }

  lemma {:induction false} LogsRoundTrip(ls: seq<Log>)
    requires forall i :: 0 <= i < |ls| ==> Sound(ls[i])
    ensures DecodeLogs(LogMessages(ls)) == Some(ls)
  {
    hide DecodeLog, LogMessage;
    if ls != [] {
      LogRoundTrip(ls[0]);
      LogsRoundTrip(ls[1..]);
      assert LogMessages(ls)[1..] == LogMessages(ls[1..]);
      assert [ls[0]] + ls[1..] == ls;
    }
  }

  // ---- groups ----

  lemma FieldsOfText(field: nat, s: Bytes, f: nat)
    ensures AllData(TextField(field, s), f) == if f == field && s != [] then [s] else []
  {
    assert s != [] ==> TextField(field, s)[1..] == [];
  }

  lemma FieldsOfInfo(g: GroupInfo, f: nat)
    ensures AllData(InfoFields(g), f) ==
            AllData(TextField(2, g.source), f) + AllData(TextField(4, g.fileName), f)
            + AllData(PairFields(3, g.tags), f) + AllData(TextField(5, g.contextFlow), f)
  {
    DataConcat(TextField(2, g.source) + TextField(4, g.fileName) + PairFields(3, g.tags), TextField(5, g.contextFlow), f);
    DataConcat(TextField(2, g.source) + TextField(4, g.fileName), PairFields(3, g.tags), f);
    DataConcat(TextField(2, g.source), TextField(4, g.fileName), f);
  }

  lemma InfoField(g: GroupInfo, f: nat)
    ensures AllData(InfoFields(g), f) ==
            if f == 2 && g.source != [] then [g.source]
            else if f == 3 then PairMessages(g.tags)
            else if f == 4 && g.fileName != [] then [g.fileName]
            else if f == 5 && g.contextFlow != [] then [g.contextFlow]
            else []
  {
    hide InfoFields, PairMessages, AllData, TextField, PairFields;
    FieldsOfInfo(g, f);
    FieldsOfText(2, g.source, f);
    FieldsOfText(4, g.fileName, f);
    FieldsOfText(5, g.contextFlow, f);
    FieldsOfPairs(3, g.tags, f);
  }

  lemma {:induction false} GroupField(ls: seq<Log>, g: GroupInfo, f: nat)
    ensures AllData(LogFields(ls) + InfoFields(g), f) ==
            (if f == 1 then LogMessages(ls) else []) + AllData(InfoFields(g), f)
  {
    DataConcat(LogFields(ls), InfoFields(g), f);
    FieldsOfLogs(ls, f);
  }

  predicate AllSound(ls: seq<Log>) {
    forall i :: 0 <= i < |ls| ==> Sound(ls[i])
  }

  /** Keys, values, times, nanoseconds, source, file name, tags and context flow all come back. */
  lemma GroupRoundTrip(ls: seq<Log>, g: GroupInfo)
    requires AllSound(ls)
    ensures DecodeGroup(GroupMessage(ls, g)) == Some(Group(ls, g))
  {
    var rs := LogFields(ls) + InfoFields(g);
    EncodeConcat(LogFields(ls), InfoFields(g));
    NoWords(ls, g);
    ParseRoundTrip(rs);
    GroupFields(ls, g);
    LogsRoundTrip(ls);
    PairsRoundTrip(g.tags);
  }

  lemma NoWords(ls: seq<Log>, g: GroupInfo)
    ensures Word32s(LogFields(ls) + InfoFields(g))
  {
    hide PairMessage, LogMessage;
  }

  lemma GroupFields(ls: seq<Log>, g: GroupInfo)
    ensures var rs := LogFields(ls) + InfoFields(g);
            && AllData(rs, 1) == LogMessages(ls) && AllData(rs, 3) == PairMessages(g.tags)
            && LastData(rs, 2) == g.source && LastData(rs, 4) == g.fileName && LastData(rs, 5) == g.contextFlow
  {
    hide InfoFields, LogFields, LogMessages, PairMessages, AllData;
    GroupField(ls, g, 1);
    InfoField(g, 1);
    GroupField(ls, g, 2);
    InfoField(g, 2);
    GroupField(ls, g, 3);
    InfoField(g, 3);
    GroupField(ls, g, 4);
    InfoField(g, 4);
    GroupField(ls, g, 5);
    InfoField(g, 5);
  }

  // ---- lists of groups ----

  /** The groups of a list: at most `per` logs each, in order. */
  function Chunks(ls: seq<Log>, g: GroupInfo, per: nat): seq<Group>
    requires 0 < per
    decreases |ls|
  {
    if ls == [] then []
    else
      var n := Min(per, |ls|);
      [Group(ls[..n], g)] + Chunks(ls[n..], g, per)
  }

  function GroupMessages(gs: seq<Group>): seq<Bytes> {
    if gs == [] then [] else [GroupMessage(gs[0].logs, gs[0].info)] + GroupMessages(gs[1..])
  }

  function GroupFieldsOf(gs: seq<Group>): (rs: seq<Record>)
    ensures |rs| == |gs|
    ensures forall i :: 0 <= i < |gs| ==> rs[i] == BytesField(1, GroupMessage(gs[i].logs, gs[i].info))
  {
    if gs == [] then [] else [BytesField(1, GroupMessage(gs[0].logs, gs[0].info))] + GroupFieldsOf(gs[1..])
  }

  lemma {:induction false} GroupListRecords(ls: seq<Log>, g: GroupInfo, per: nat)
    requires 0 < per
    ensures GroupList(ls, g, per) == EncodeAll(GroupFieldsOf(Chunks(ls, g, per)))
    decreases |ls|
  {
    if ls != [] {
      var n := Min(per, |ls|);
      GroupListRecords(ls[n..], g, per);
      var gs := Chunks(ls, g, per);
      assert gs[1..] == Chunks(ls[n..], g, per);
      assert GroupFieldsOf(gs)[1..] == GroupFieldsOf(gs[1..]);
    }
  }

  lemma {:induction false} FieldsOfGroups(gs: seq<Group>)
    ensures AllData(GroupFieldsOf(gs), 1) == GroupMessages(gs)
  {
    if gs != [] {
      FieldsOfGroups(gs[1..]);
      assert GroupFieldsOf(gs)[1..] == GroupFieldsOf(gs[1..]);
    }
  }

  lemma {:induction false} GroupsRoundTrip(gs: seq<Group>)
    requires forall i :: 0 <= i < |gs| ==> AllSound(gs[i].logs)
    ensures DecodeGroups(GroupMessages(gs)) == Some(gs)
  {
    hide DecodeGroup, GroupMessage;
    if gs != [] {
      GroupRoundTrip(gs[0].logs, gs[0].info);
      GroupsRoundTrip(gs[1..]);
      assert GroupMessages(gs)[1..] == GroupMessages(gs[1..]);
      assert [gs[0]] + gs[1..] == gs;
    }
  }

  lemma GroupFieldsRoundTrip(gs: seq<Group>)
    requires forall i :: 0 <= i < |gs| ==> AllSound(gs[i].logs)
    ensures DecodeList(EncodeAll(GroupFieldsOf(gs))) == Some(gs)
  {
    ParseRoundTrip(GroupFieldsOf(gs));
    FieldsOfGroups(gs);
    GroupsRoundTrip(gs);
  }

  lemma {:induction false} ChunksSound(ls: seq<Log>, g: GroupInfo, per: nat)
    requires 0 < per && AllSound(ls)
    ensures forall i :: 0 <= i < |Chunks(ls, g, per)| ==> AllSound(Chunks(ls, g, per)[i].logs)
    decreases |ls|
  {
    if ls != [] {
      ChunksSound(ls[Min(per, |ls|)..], g, per);
    }
  }

  function LogsOf(gs: seq<Group>): seq<Log> {
    if gs == [] then [] else gs[0].logs + LogsOf(gs[1..])
  }

  lemma {:induction false} ChunksHoldAll(ls: seq<Log>, g: GroupInfo, per: nat)
    requires 0 < per
    ensures LogsOf(Chunks(ls, g, per)) == ls
    decreases |ls|
  {
    if ls != [] {
      var n := Min(per, |ls|);
      ChunksHoldAll(ls[n..], g, per);
      assert ls[..n] + ls[n..] == ls;
    }
  }

  /** A list decodes to its groups, and these hold all the logs in order. */
  lemma {:induction false} ListRoundTrip(ls: seq<Log>, g: GroupInfo, per: nat)
    requires 0 < per && AllSound(ls)
    ensures DecodeList(GroupList(ls, g, per)) == Some(Chunks(ls, g, per))
    ensures LogsOf(Chunks(ls, g, per)) == ls
  {
    GroupListRecords(ls, g, per);
    ChunksSound(ls, g, per);
    GroupFieldsRoundTrip(Chunks(ls, g, per));
    ChunksHoldAll(ls, g, per);
  }

  lemma OneGroupRoundTrip(ls: seq<Log>, g: GroupInfo)
    requires AllSound(ls)
    ensures DecodeList(OneGroup(ls, g)) == Some([Group(ls, g)])
  {
    var gs := [Group(ls, g)];
    EncodeOne(BytesField(1, GroupMessage(ls, g)));
    assert GroupFieldsOf(gs) == [BytesField(1, GroupMessage(ls, g))];
    GroupFieldsRoundTrip(gs);
  }

  /** One group is the whole list exactly when there are logs and they fit in one group. */
  lemma OneGroupIsList(ls: seq<Log>, g: GroupInfo, per: nat)
    requires 0 < per && AllSound(ls)
    ensures OneGroup(ls, g) == GroupList(ls, g, per) <==> 1 <= |ls| <= per
  {
    if 1 <= |ls| <= per {
      assert ls[..|ls|] == ls && ls[|ls|..] == [];
      assert OneGroup(ls, g) + GroupList([], g, per) == OneGroup(ls, g);
    } else {
      OneGroupRoundTrip(ls, g);
      ListRoundTrip(ls, g, per);
      assert Chunks(ls, g, per) != [] ==> |Chunks(ls, g, per)[0].logs| == per;
      assert [Group(ls, g)][0].logs == ls;
    }
  }
}
