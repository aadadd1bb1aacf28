/** The wire format of logs: records as the Protocol Buffers encoding writes
    them (base-128 varints, length-delimited and fixed 32-bit fields), the
    messages built from them, and a decoder. */
module Wire {
  import opened Basics

  // ---- varints ----

  /** Seven bits a byte, low bits first; the top bit says that more follows. */
  function Varint(v: nat): (s: Bytes)
    ensures 1 <= |s|
  {
    if v < 128 then [v] else [v % 128 + 128] + Varint(v / 128)
  }

  datatype Got<+T> = Got(value: T, rest: Bytes)

  function ReadVarint(s: Bytes): (r: Option<Got<nat>>)
    ensures r.Some? ==> |r.value.rest| < |s|
  {
    if s == [] then None
    else if s[0] < 128 then Some(Got(s[0], s[1..]))
    else
      match ReadVarint(s[1..])
      case None => None
      case Some(g) => Some(Got(s[0] - 128 + 128 * g.value, g.rest))
  }

  lemma {:induction false} VarintRoundTrip(v: nat, tail: Bytes)
    ensures ReadVarint(Varint(v) + tail) == Some(Got(v, tail))
  {
    var s := Varint(v) + tail;
    if v >= 128 {
      VarintRoundTrip(v / 128, tail);
      assert s[1..] == Varint(v / 128) + tail;
    } else {
      assert s[1..] == tail;
    }
  }

  /** Ten bytes are enough for 64 bits, five for 32. */
  lemma {:induction false} VarintLength(v: nat)
    ensures v < 0x80 <==> |Varint(v)| == 1
    ensures v < 0x4000 <==> |Varint(v)| <= 2
    ensures v < 0x20_0000 <==> |Varint(v)| <= 3
    ensures v < 0x1000_0000 <==> |Varint(v)| <= 4
    ensures v < 0x8_0000_0000 <==> |Varint(v)| <= 5
  {
    if v >= 128 {
      VarintLength(v / 128);
    }
  }

  // ---- records ----

  function Fixed32(w: nat): (s: Bytes)
    ensures |s| == 4
  {
    [w % 256, w / 0x100 % 256, w / 0x1_0000 % 256, w / 0x100_0000 % 256]
  }

  datatype Record =
    | VarintField(field: nat, number: nat)
    | BytesField(field: nat, data: Bytes)
    | Fixed32Field(field: nat, word: nat)

  const VARINT := 0
  const LENGTH_DELIMITED := 2
  const FIXED32 := 5

  function Tag(field: nat, wireType: nat): Bytes {
    Varint(8 * field + wireType)
  }

  function Encode(r: Record): Bytes {
    match r
    case VarintField(f, v) => Tag(f, VARINT) + Varint(v)
    case BytesField(f, d) => Tag(f, LENGTH_DELIMITED) + Varint(|d|) + d
    case Fixed32Field(f, w) => Tag(f, FIXED32) + Fixed32(w)
  }

  function EncodeAll(rs: seq<Record>): Bytes {
    if rs == [] then [] else Encode(rs[0]) + EncodeAll(rs[1..])
  }

  lemma {:induction false} EncodeConcat(a: seq<Record>, b: seq<Record>)
    ensures EncodeAll(a + b) == EncodeAll(a) + EncodeAll(b)
  {
    if a == [] {
      assert a + b == b;
    } else {
      assert (a + b)[1..] == a[1..] + b;
      EncodeConcat(a[1..], b);
    }
  }

  lemma EncodeOne(r: Record)
    ensures EncodeAll([r]) == Encode(r)
  {
    assert EncodeAll([]) == [];
  }

  // ---- the decoder ----

  function ReadBytes(field: nat, s: Bytes): (r: Option<Got<Record>>)
    ensures r.Some? ==> |r.value.rest| < |s|
  {
    match ReadVarint(s)
    case None => None
    case Some(g) =>
      if |g.rest| < g.value then None else Some(Got(BytesField(field, g.rest[..g.value]), g.rest[g.value..]))
  }

  function ReadNumber(field: nat, s: Bytes): (r: Option<Got<Record>>)
    ensures r.Some? ==> |r.value.rest| < |s|
  {
    match ReadVarint(s)
    case None => None
    case Some(g) => Some(Got(VarintField(field, g.value), g.rest))
  }

  function WordOf(a: nat, b: nat, c: nat, d: nat): nat {
    a + 0x100 * b + 0x1_0000 * c + 0x100_0000 * d
  }

  function ReadFixed32(field: nat, s: Bytes): (r: Option<Got<Record>>)
    ensures r.Some? ==> |r.value.rest| < |s|
  {
    if |s| < 4 then None
    else Some(Got(Fixed32Field(field, WordOf(s[0], s[1], s[2], s[3])), s[4..]))
  }

  function ReadRecord(s: Bytes): (r: Option<Got<Record>>)
    ensures r.Some? ==> |r.value.rest| < |s|
  {
    match ReadVarint(s)
    case None => None
    case Some(g) =>
      var field, wireType := g.value / 8, g.value % 8;
      if wireType == VARINT then ReadNumber(field, g.rest)
      else if wireType == LENGTH_DELIMITED then ReadBytes(field, g.rest)
      else if wireType == FIXED32 then ReadFixed32(field, g.rest)
      else None
  }

  function Parse(s: Bytes): Option<seq<Record>>
    decreases |s|
  {
    if s == [] then Some([])
    else
      match ReadRecord(s)
      case None => None
      case Some(g) =>
        match Parse(g.rest)
        case None => None
        case Some(rs) => Some([g.value] + rs)
  }

  predicate Word32s(rs: seq<Record>) {
    forall i :: 0 <= i < |rs| && rs[i].Fixed32Field? ==> rs[i].word < 0x1_0000_0000
  }

  lemma DivideOnce(w: nat)
    ensures w / 0x1_0000 == w / 0x100 / 0x100
  {
  }

  lemma DivideTwice(w: nat)
    ensures w / 0x100_0000 == w / 0x1_0000 / 0x100
  {
  }

  lemma LowByte(w: nat)
    ensures w == w % 0x100 + 0x100 * (w / 0x100)
  {
  }

  lemma {:induction false} Fixed32RoundTrip(w: nat)
    requires w < 0x1_0000_0000
    ensures var s := Fixed32(w); WordOf(s[0], s[1], s[2], s[3]) == w
  {
    DivideOnce(w);
    DivideTwice(w);
    var a, b := w / 0x100, w / 0x100 / 0x100;
    var c := b / 0x100;
    LowByte(w);
    LowByte(a);
    LowByte(b);
    TopByte(w);
  }

  lemma TopByte(w: nat)
    requires w < 0x1_0000_0000
    ensures w / 0x100_0000 % 0x100 == w / 0x100_0000
  {
  }

  lemma TagRoundTrip(field: nat, wireType: nat, tail: Bytes)
    requires wireType < 8
    ensures ReadVarint(Tag(field, wireType) + tail) == Some(Got(8 * field + wireType, tail))
    ensures (8 * field + wireType) / 8 == field && (8 * field + wireType) % 8 == wireType
  {
    VarintRoundTrip(8 * field + wireType, tail);
  }

  lemma NumberRoundTrip(f: nat, v: nat, tail: Bytes)
    ensures ReadRecord(Encode(VarintField(f, v)) + tail) == Some(Got(VarintField(f, v), tail))
  {
    hide Varint, ReadVarint;
    TagRoundTrip(f, VARINT, Varint(v) + tail);
    VarintRoundTrip(v, tail);
    assert Encode(VarintField(f, v)) + tail == Tag(f, VARINT) + (Varint(v) + tail);
  }

  lemma DataRoundTrip(f: nat, d: Bytes, tail: Bytes)
    ensures ReadRecord(Encode(BytesField(f, d)) + tail) == Some(Got(BytesField(f, d), tail))
  {
    hide Varint, ReadVarint;
    TagRoundTrip(f, LENGTH_DELIMITED, Varint(|d|) + (d + tail));
    assert Encode(BytesField(f, d)) + tail == Tag(f, LENGTH_DELIMITED) + (Varint(|d|) + (d + tail));
    LengthRoundTrip(f, d, tail);
  }

  lemma {:induction false} LengthRoundTrip(f: nat, d: Bytes, tail: Bytes)
    ensures ReadBytes(f, Varint(|d|) + (d + tail)) == Some(Got(BytesField(f, d), tail))
  {
    VarintRoundTrip(|d|, d + tail);
    assert (d + tail)[..|d|] == d && (d + tail)[|d|..] == tail;
  }

  lemma {:induction false} WordRoundTrip(f: nat, w: nat, tail: Bytes)
    requires w < 0x1_0000_0000
    ensures ReadRecord(Encode(Fixed32Field(f, w)) + tail) == Some(Got(Fixed32Field(f, w), tail))
  {
    TagRoundTrip(f, FIXED32, Fixed32(w) + tail);
    assert Encode(Fixed32Field(f, w)) + tail == Tag(f, FIXED32) + (Fixed32(w) + tail);
    Fixed32Read(f, w, tail);
  }

  lemma Fixed32Read(f: nat, w: nat, tail: Bytes)
    requires w < 0x1_0000_0000
    ensures ReadFixed32(f, Fixed32(w) + tail) == Some(Got(Fixed32Field(f, w), tail))
  {
    var s := Fixed32(w) + tail;
    assert s[0] == Fixed32(w)[0] && s[1] == Fixed32(w)[1] && s[2] == Fixed32(w)[2] && s[3] == Fixed32(w)[3];
    assert s[4..] == tail;
    Fixed32RoundTrip(w);
  }

  lemma {:induction false} RecordRoundTrip(r: Record, tail: Bytes)
    requires r.Fixed32Field? ==> r.word < 0x1_0000_0000
    ensures ReadRecord(Encode(r) + tail) == Some(Got(r, tail))
  {
    match r
    case VarintField(f, v) => NumberRoundTrip(f, v, tail);
    case BytesField(f, d) => DataRoundTrip(f, d, tail);
    case Fixed32Field(f, w) => WordRoundTrip(f, w, tail);
  }

  /** Whatever records are written, parsing gives exactly them back. */
  lemma {:induction false} ParseRoundTrip(rs: seq<Record>)
    requires Word32s(rs)
    ensures Parse(EncodeAll(rs)) == Some(rs)
  {
    if rs != [] {
      RecordRoundTrip(rs[0], EncodeAll(rs[1..]));
      ParseRoundTrip(rs[1..]);
      assert |EncodeAll(rs)| > 0;
      assert [rs[0]] + rs[1..] == rs;
    }
  }

  // ---- messages ----

  datatype Pair = Pair(key: Bytes, value: Bytes)

  /** `ns` is present when the log carries nanoseconds. */
  datatype Log = Log(time: nat, ns: Option<nat>, kvs: seq<Pair>)

  datatype GroupInfo = GroupInfo(source: Bytes, fileName: Bytes, tags: seq<Pair>, contextFlow: Bytes)

  datatype Group = Group(logs: seq<Log>, info: GroupInfo)

  function PairRecords(p: Pair): seq<Record> {
    [BytesField(1, p.key), BytesField(2, p.value)]
  }

  function PairMessage(p: Pair): Bytes {
    EncodeAll(PairRecords(p))
  }

  function PairFields(field: nat, ps: seq<Pair>): (rs: seq<Record>)
    ensures |rs| == |ps|
    ensures forall i :: 0 <= i < |ps| ==> rs[i].BytesField?
  {
    if ps == [] then [] else [BytesField(field, PairMessage(ps[0]))] + PairFields(field, ps[1..])
  }

  function NsFields(ns: Option<nat>): seq<Record> {
    if ns.Some? then [Fixed32Field(3, ns.value)] else []
  }

  function LogRecords(l: Log): seq<Record> {
    [VarintField(1, l.time)] + PairFields(2, l.kvs) + NsFields(l.ns)
  }

  function LogMessage(l: Log): Bytes {
    EncodeAll(LogRecords(l))
  }

  function LogMessages(ls: seq<Log>): (ms: seq<Bytes>)
    ensures |ms| == |ls|
  {
    if ls == [] then [] else [LogMessage(ls[0])] + LogMessages(ls[1..])
  }

  function LogFields(ls: seq<Log>): (rs: seq<Record>)
    ensures |rs| == |ls|
    ensures forall i :: 0 <= i < |ls| ==> rs[i].BytesField?
  {
    if ls == [] then [] else [BytesField(1, LogMessage(ls[0]))] + LogFields(ls[1..])
  }

  lemma {:induction false} PairFieldsConcat(field: nat, a: seq<Pair>, b: seq<Pair>)
    ensures PairFields(field, a + b) == PairFields(field, a) + PairFields(field, b)
  {
    hide PairMessage;
    if a == [] {
      assert a + b == b;
    } else {
      assert (a + b)[1..] == a[1..] + b;
      PairFieldsConcat(field, a[1..], b);
    }
  }

  lemma {:induction false} LogFieldsConcat(a: seq<Log>, b: seq<Log>)
    ensures LogFields(a + b) == LogFields(a) + LogFields(b)
  {
    hide LogMessage;
    if a == [] {
      assert a + b == b;
    } else {
      assert (a + b)[1..] == a[1..] + b;
      LogFieldsConcat(a[1..], b);
    }
  }

  /** Empty text is left out. */
  function TextField(field: nat, s: Bytes): seq<Record> {
    if s == [] then [] else [BytesField(field, s)]
  }

  function InfoFields(g: GroupInfo): seq<Record> {
    TextField(2, g.source) + TextField(4, g.fileName) + PairFields(3, g.tags) + TextField(5, g.contextFlow)
  }

  function GroupMessage(ls: seq<Log>, g: GroupInfo): Bytes {
    EncodeAll(LogFields(ls)) + EncodeAll(InfoFields(g))
  }

  /** A list holding one group. */
  function OneGroup(ls: seq<Log>, g: GroupInfo): Bytes {
    Encode(BytesField(1, GroupMessage(ls, g)))
  }

  /** The list with at most `per` logs a group; nothing at all when there are no logs. */
  function GroupList(ls: seq<Log>, g: GroupInfo, per: nat): Bytes
    requires 0 < per
    decreases |ls|
  {
    if ls == [] then []
    else
      var n := Min(per, |ls|);
      OneGroup(ls[..n], g) + GroupList(ls[n..], g, per)
  }

  // ---- reading messages ----

  // Every value of a field, in order.

  function Numbers(rs: seq<Record>, field: nat): seq<nat> {
    if rs == [] then []
    else (if rs[0].VarintField? && rs[0].field == field then [rs[0].number] else []) + Numbers(rs[1..], field)
  }

  function Words(rs: seq<Record>, field: nat): seq<nat> {
    if rs == [] then []
    else (if rs[0].Fixed32Field? && rs[0].field == field then [rs[0].word] else []) + Words(rs[1..], field)
  }

  function AllData(rs: seq<Record>, field: nat): seq<Bytes> {
    if rs == [] then []
    else (if rs[0].BytesField? && rs[0].field == field then [rs[0].data] else []) + AllData(rs[1..], field)
  }

  // The last occurrence of a field counts.

  function LastNumber(rs: seq<Record>, field: nat): nat {
    var vs := Numbers(rs, field);
    if vs == [] then 0 else vs[|vs| - 1]
  }

  function LastWord(rs: seq<Record>, field: nat): Option<nat> {
    var ws := Words(rs, field);
    if ws == [] then None else Some(ws[|ws| - 1])
  }

  function LastData(rs: seq<Record>, field: nat): Bytes {
    var ds := AllData(rs, field);
    if ds == [] then [] else ds[|ds| - 1]
  }

  function Both<T>(x: Option<T>, xs: Option<seq<T>>): Option<seq<T>> {
    if x.Some? && xs.Some? then Some([x.value] + xs.value) else None
  }

  function DecodePair(s: Bytes): Option<Pair> {
    match Parse(s)
    case None => None
    case Some(rs) => Some(Pair(LastData(rs, 1), LastData(rs, 2)))
  }

  function DecodePairs(ds: seq<Bytes>): Option<seq<Pair>> {
    if ds == [] then Some([]) else Both(DecodePair(ds[0]), DecodePairs(ds[1..]))
  }

  function DecodeLog(s: Bytes): Option<Log> {
    match Parse(s)
    case None => None
    case Some(rs) =>
      match DecodePairs(AllData(rs, 2))
      case None => None
      case Some(kvs) => Some(Log(LastNumber(rs, 1), LastWord(rs, 3), kvs))
  }

  function DecodeLogs(ds: seq<Bytes>): Option<seq<Log>> {
    if ds == [] then Some([]) else Both(DecodeLog(ds[0]), DecodeLogs(ds[1..]))
  }

  function DecodeGroup(s: Bytes): Option<Group> {
    match Parse(s)
    case None => None
    case Some(rs) =>
      match (DecodeLogs(AllData(rs, 1)), DecodePairs(AllData(rs, 3)))
      case (Some(ls), Some(tags)) =>
        Some(Group(ls, GroupInfo(LastData(rs, 2), LastData(rs, 4), tags, LastData(rs, 5))))
      case (_, _) => None
  }

  function DecodeGroups(ds: seq<Bytes>): Option<seq<Group>> {
    if ds == [] then Some([]) else Both(DecodeGroup(ds[0]), DecodeGroups(ds[1..]))
  }

  function DecodeList(s: Bytes): Option<seq<Group>> {
    match Parse(s)
    case None => None
    case Some(rs) => DecodeGroups(AllData(rs, 1))
  }
}
