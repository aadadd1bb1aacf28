/** Both encoders from end to end: logs handed over in batches, against the same
    logs encoded one message at a time. */
module EncodersAgree {
  import opened Basics
  import opened Wire
  import opened ProtoEncoder
  import opened Builder
  import opened BuilderStats
  import opened LogBuilder
  import WireLaws
  import WireBytes

  /** A log as a caller gives it. */
  datatype Given = Given(arrival: Arrival, kvs: seq<Pair>)

  function LogOf(x: Given): Log {
    Normal(x.arrival.timeMs, x.arrival.timeNs, x.arrival.hasTimeNs, x.kvs)
  }

  function LogsOf(xs: seq<Given>): (ls: seq<Log>)
    ensures |ls| == |xs|
  {
    if xs == [] then [] else LogsOf(xs[..|xs| - 1]) + [LogOf(xs[|xs| - 1])]
  }

  function ArrivalsOf(xs: seq<Given>): (r: seq<Arrival>)
    ensures |r| == |xs|
  {
    if xs == [] then [] else ArrivalsOf(xs[..|xs| - 1]) + [xs[|xs| - 1].arrival]
  }

  function AllLogs(batches: seq<seq<Given>>): seq<Log> {
    if batches == [] then [] else AllLogs(batches[..|batches| - 1]) + LogsOf(batches[|batches| - 1])
  }

  function AllArrivals(batches: seq<seq<Given>>): (r: seq<seq<Arrival>>)
    ensures |r| == |batches|
  {
    if batches == [] then [] else AllArrivals(batches[..|batches| - 1]) + [ArrivalsOf(batches[|batches| - 1])]
  }

  lemma Steps(xs: seq<Given>, i: nat)
    requires i < |xs|
    ensures LogsOf(xs[..i + 1]) == LogsOf(xs[..i]) + [LogOf(xs[i])]
    ensures OneByOne(ArrivalsOf(xs[..i + 1])) == Add(OneByOne(ArrivalsOf(xs[..i])), xs[i].arrival)
  {
    hide LogOf, Add;
    assert xs[..i + 1][..i] == xs[..i];
    var r := ArrivalsOf(xs[..i + 1]);
    assert r[..|r| - 1] == ArrivalsOf(xs[..i]);
  }

  lemma BatchSteps(batches: seq<seq<Given>>, i: nat)
    requires i < |batches|
    ensures AllLogs(batches[..i + 1]) == AllLogs(batches[..i]) + LogsOf(batches[i])
    ensures Merged(AllArrivals(batches[..i + 1])) ==
            Append(Merged(AllArrivals(batches[..i])), OneByOne(ArrivalsOf(batches[i])))
  {
    hide LogsOf, ArrivalsOf, Append, OneByOne;
    assert batches[..i + 1][..i] == batches[..i];
    var r := AllArrivals(batches[..i + 1]);
    assert r[..|r| - 1] == AllArrivals(batches[..i]);
  }

  method LengthsFor(kvs: seq<Pair>) returns (klens: seq<nat>, vlens: seq<nat>)
    ensures LengthsOf(klens, vlens, kvs)
  {
    klens := seq(|kvs|, i requires 0 <= i < |kvs| => |kvs[i].key|);
    vlens := seq(|kvs|, i requires 0 <= i < |kvs| => |kvs[i].value|);
  }

  /** The size of the logs as they stand in a builder. */
  function EncodedSize(xs: seq<Given>): nat {
    |EncodeAll(LogFields(LogsOf(xs)))|
  }

  lemma {:induction false} SizeSteps(xs: seq<Given>, i: nat)
    requires i < |xs|
    ensures EncodedSize(xs[..i + 1]) == EncodedSize(xs[..i]) + |Entry(LogOf(xs[i]))| <= EncodedSize(xs)
    ensures EncodedSize([]) == 0
  {
    hide LogOf, LogsOf, Entry, EncodeAll, LogFields;
    Steps(xs, i);
    EntriesGrow(LogsOf(xs[..i]), LogOf(xs[i]));
    assert xs == xs[..i + 1] + xs[i + 1..];
    LogsConcat(xs[..i + 1], xs[i + 1..]);
    LogFieldsConcat(LogsOf(xs[..i + 1]), LogsOf(xs[i + 1..]));
    EncodeConcat(LogFields(LogsOf(xs[..i + 1])), LogFields(LogsOf(xs[i + 1..])));
    NoSize();
  }

  lemma NoSize()
    ensures EncodedSize([]) == 0
  {
  }

  /** A thread batch: its logs one after the other. */
  method FillBatch(xs: seq<Given>) returns (ok: bool, b: LogGroupBuilder)
    ensures fresh(b) && b.Valid() && fresh(b.logs)
    ensures ok ==> b.entries == LogsOf(xs) && b.Record() == OneByOne(ArrivalsOf(xs))
    ensures ok <==> EncodedSize(xs) < WORD
  {
    hide EncodedSize, Add, Entry, LogFields, EncodeAll, LengthsOf, LogsOf, ArrivalsOf, OneByOne;
    b := new LogGroupBuilder();
    Nothing();
    NoSize();
    var i := 0;
    assert xs[..0] == [];
    while i < |xs|
      invariant 0 <= i <= |xs| && b.Valid() && fresh(b) && fresh(b.logs)
      invariant b.logsLen == EncodedSize(xs[..i]) < WORD
      invariant b.entries == LogsOf(xs[..i]) && b.Record() == OneByOne(ArrivalsOf(xs[..i]))
    {
      Steps(xs, i);
      SizeSteps(xs, i);
      var klens, vlens := LengthsFor(xs[i].kvs);
      var added := b.AddKvLens(xs[i].arrival, xs[i].kvs, klens, vlens);
      if !added {
        return false, b;
      }
      i := i + 1;
    }
    assert xs[..i] == xs;
    ok := true;
  }

  lemma Nothing()
    ensures LogsOf([]) == [] && ArrivalsOf([]) == [] && OneByOne([]) == FRESH
    ensures AllLogs([]) == [] && AllArrivals([]) == [] && Merged([]) == FRESH
  {
  }

  /** Batches filled on their own and appended to one builder. */
  method MergeBatches(batches: seq<seq<Given>>) returns (ok: bool, b: LogGroupBuilder)
    requires forall i :: 0 <= i < |batches| ==> batches[i] != []
    ensures fresh(b) && b.Valid() && fresh(b.logs)
    ensures ok ==> b.entries == AllLogs(batches) && b.Record() == Merged(AllArrivals(batches))
    ensures ok <==> forall i :: 0 <= i < |batches| ==> EncodedSize(batches[i]) < WORD
  {
    hide EncodedSize, Append, LogFields, EncodeAll, LogsOf, ArrivalsOf, OneByOne, AllLogs, AllArrivals, Merged;
    b := new LogGroupBuilder();
    Nothing();
    var i := 0;
    assert batches[..0] == [];
    while i < |batches|
      invariant 0 <= i <= |batches| && b.Valid() && fresh(b) && fresh(b.logs)
      invariant forall j :: 0 <= j < i ==> EncodedSize(batches[j]) < WORD
      invariant b.entries == AllLogs(batches[..i]) && b.Record() == Merged(AllArrivals(batches[..i]))
    {
      BatchSteps(batches, i);
      var filled, batch := FillBatch(batches[i]);
      if !filled {
        return false, b;
      }
      assert |LogsOf(batches[i])| > 0;
      var appended := b.AppendBatch(batch);
      assert appended;
      i := i + 1;
    }
    assert batches[..i] == batches;
    ok := true;
  }

  /** The simple encoder's message for every log. */
  method EncodeLogs(xs: seq<Given>) returns (msgs: seq<Bytes>)
    ensures msgs == LogMessages(LogsOf(xs))
  {
    hide LogMessage, LogsOf, LogMessages, Normal;
    msgs := [];
    Nothing();
    NoMessages();
    var i := 0;
    assert xs[..0] == [];
    while i < |xs|
      invariant 0 <= i <= |xs| && msgs == LogMessages(LogsOf(xs[..i]))
    {
      Steps(xs, i);
      MessagesGrow(LogsOf(xs[..i]), LogOf(xs[i]));
      var a := xs[i].arrival;
      var msg := EncodeLog(a.timeMs, a.timeNs, a.hasTimeNs, xs[i].kvs);
      msgs := msgs + [msg];
      i := i + 1;
    }
    assert xs[..i] == xs;
  }

  lemma NoMessages()
    ensures LogMessages([]) == []
  {
  }

  lemma {:induction false} MessagesGrow(ls: seq<Log>, l: Log)
    ensures LogMessages(ls + [l]) == LogMessages(ls) + [LogMessage(l)]
  {
    hide LogMessage;
    if ls == [] {
      assert [] + [l] == [l];
    } else {
      assert (ls + [l])[1..] == ls[1..] + [l];
      MessagesGrow(ls[1..], l);
    }
  }

  function Flatten(batches: seq<seq<Given>>): seq<Given> {
    if batches == [] then [] else Flatten(batches[..|batches| - 1]) + batches[|batches| - 1]
  }

  lemma {:induction false} LogsConcat(a: seq<Given>, b: seq<Given>)
    ensures LogsOf(a + b) == LogsOf(a) + LogsOf(b)
    ensures ArrivalsOf(a + b) == ArrivalsOf(a) + ArrivalsOf(b)
  {
    hide LogOf;
    if b == [] {
      assert a + b == a;
    } else {
      assert (a + b)[..|a + b| - 1] == a + b[..|b| - 1];
      LogsConcat(a, b[..|b| - 1]);
    }
  }

  lemma {:induction false} FlattenedLogs(batches: seq<seq<Given>>)
    ensures AllLogs(batches) == LogsOf(Flatten(batches))
    ensures Concat(AllArrivals(batches)) == ArrivalsOf(Flatten(batches))
  {
    hide LogsOf, ArrivalsOf;
    Nothing();
    if batches != [] {
      var init, last := batches[..|batches| - 1], batches[|batches| - 1];
      FlattenedLogs(init);
      LogsConcat(Flatten(init), last);
      var r := AllArrivals(batches);
      assert r[..|r| - 1] == AllArrivals(init);
    }
  }

  predicate Words(xs: seq<Given>) {
    forall i :: 0 <= i < |xs| ==> xs[i].arrival.timeNs < 0x1_0000_0000
  }

  lemma {:induction false} LogsSound(xs: seq<Given>)
    requires Words(xs)
    ensures WireLaws.AllSound(LogsOf(xs))
  {
    if xs != [] {
      LogsSound(xs[..|xs| - 1]);
    }
  }

  // ---- what the caller gave, log by log ----

  /** The logs are the caller's, one by one: the same pairs and, where the time is
      positive, the same time and nanoseconds; otherwise time zero and none. */
  predicate Carries(ls: seq<Log>, xs: seq<Given>) {
    && |ls| == |xs|
    && forall i :: 0 <= i < |xs| ==>
         && ls[i].kvs == xs[i].kvs
         && ls[i].time == (if xs[i].arrival.timeMs > 0 then xs[i].arrival.timeMs else 0)
         && ls[i].ns == (if xs[i].arrival.timeMs > 0 && xs[i].arrival.hasTimeNs
                         then Some(xs[i].arrival.timeNs) else None)
  }

  lemma {:induction false} LogsCarry(xs: seq<Given>)
    ensures Carries(LogsOf(xs), xs)
    ensures forall i :: 0 <= i < |xs| ==> ArrivalsOf(xs)[i] == xs[i].arrival
  {
    if xs != [] {
      LogsCarry(xs[..|xs| - 1]);
    }
  }

  /** The logs of all batches together stand batch after batch, each in its order. */
  lemma {:induction false} FlattenAt(batches: seq<seq<Given>>, i: nat)
    requires i < |batches|
    ensures var start := |Flatten(batches[..i])|;
            start + |batches[i]| <= |Flatten(batches)| && Flatten(batches)[start..start + |batches[i]|] == batches[i]
    ensures |Flatten(batches[..i + 1])| == |Flatten(batches[..i])| + |batches[i]| && |Flatten([])| == 0
    ensures i == |batches| - 1 ==> |Flatten(batches)| == |Flatten(batches[..i])| + |batches[i]|
  {
    var init := batches[..|batches| - 1];
    assert batches[..i + 1][..i] == batches[..i];
    if i < |init| {
      assert init[..i] == batches[..i];
      FlattenAt(init, i);
    }
  }

  /** What both encoders make of the logs: decoded, each is the caller's list of
      logs, the fast one in a single group and the simple one in groups of 10000. */
  ghost predicate BothDecode(fast: Bytes, simple: Bytes, xs: seq<Given>, g: GroupInfo) {
    && (exists ls :: DecodeList(fast) == Some([Group(ls, g)]) && Carries(ls, xs))
    && (exists gs :: DecodeList(simple) == Some(gs) && Carries(WireLaws.LogsOf(gs), xs) && GroupsOf(gs, g, 10000))
  }

  /** Full groups, the last of them perhaps with fewer logs. */
  predicate GroupsOf(gs: seq<Group>, g: GroupInfo, per: nat) {
    && (forall i :: 0 <= i < |gs| ==> gs[i].info == g && 1 <= |gs[i].logs| <= per)
    && (forall i :: 0 <= i < |gs| - 1 ==> |gs[i].logs| == per)
  }

  lemma DecodesBoth(fast: Bytes, simple: Bytes, xs: seq<Given>, g: GroupInfo)
    requires Words(xs)
    requires fast == OneGroup(LogsOf(xs), g) && simple == GroupList(LogsOf(xs), g, 10000)
    ensures BothDecode(fast, simple, xs, g)
  {
    hide DecodeList, LogsOf, Words, Carries, OneGroup, GroupList, WireLaws.AllSound, WireLaws.Chunks, WireLaws.LogsOf;
    LogsCarry(xs);
    LogsSound(xs);
    BodyRoundTrip(LogsOf(xs), g);
    WireLaws.ListRoundTrip(LogsOf(xs), g, 10000);
    WireBytes.ChunkSizes(LogsOf(xs), g, 10000);
  }

  /** Logs cut in any way into batches that are not empty, each filled by itself and
      appended: the body is byte for byte what the simple encoder makes of all the
      logs, exactly when there are between one and 10000 of them, and it decodes to
      the caller's logs one by one; the record is that of all the logs, and with
      growing ids that of adding them one by one. */
  method BuildBoth(batches: seq<seq<Given>>, g: GroupInfo) returns (ok: bool, fast: BuiltTask, simple: Bytes)
    requires forall i :: 0 <= i < |batches| ==> batches[i] != []
    requires Words(Flatten(batches))
    ensures simple == GroupList(LogsOf(Flatten(batches)), g, 10000)
    ensures ok <==> forall i :: 0 <= i < |batches| ==> EncodedSize(batches[i]) < WORD
    ensures ok ==> (fast.body == simple <==> 1 <= |Flatten(batches)| <= 10000)
    ensures ok ==> BothDecode(fast.body, simple, Flatten(batches), g)
    ensures ok ==> fast.stats == Merged(AllArrivals(batches))
    ensures ok && Batches(AllArrivals(batches)) && Increasing(ArrivalsOf(Flatten(batches))) ==>
              fast.stats == OneByOne(ArrivalsOf(Flatten(batches)))
    ensures ok && Batches(AllArrivals(batches)) ==> Records(fast.stats, ArrivalsOf(Flatten(batches)))
  {
    hide EncodedSize, OneGroup, GroupList, BothDecode, Records, Summary, LogsOf, AllLogs, ArrivalsOf, AllArrivals, Flatten, Merged, OneByOne,
         Batches, Increasing, Words, InfoFields, EncodeAll, LogFields, WireLaws.AllSound, LogMessages;
    FlattenedLogs(batches);
    LogsSound(Flatten(batches));
    var msgs := EncodeLogs(Flatten(batches));
    simple := EncodeGroupList(msgs, g, 10000, LogsOf(Flatten(batches)));
    var suffix := BuildGroupSuffix(g);
    var b;
    ok, b := MergeBatches(batches);
    fast := ToSendTask(b, suffix, g);
    if ok {
      BodyIsReference(LogsOf(Flatten(batches)), g);
      DecodesBoth(fast.body, simple, Flatten(batches), g);
      if Batches(AllArrivals(batches)) {
        MergedIsSummary(AllArrivals(batches));
        ExtremesMean(ArrivalsOf(Flatten(batches)));
      }
      if Batches(AllArrivals(batches)) && Increasing(ArrivalsOf(Flatten(batches))) {
        MergedIsOneByOne(AllArrivals(batches));
      }
    }
  }
}
