/** Open builders in a snapshot: each becomes one record, and reading the snapshot
    back gives every log that was in them. */
module BuilderExport {
  import opened Basics
  import opened Endian
  import opened Wire
  import opened LogBuilder
  import B = BuilderStats
  import Builder
  import Snapshot
  import opened SnapshotSpec
  import SnapshotLaws
  import WireLaws

  /** The builder of a key; the default builder comes under the default key. */
  datatype Keyed = Keyed(key: Key, builder: LogGroupBuilder)

  /** What a builder holds. */
  datatype Held = Held(key: Key, entries: seq<Log>, stats: B.Stats)

  ghost function HeldBy(k: Keyed): Held
    reads k.builder
  {
    Held(k.key, k.builder.entries, k.builder.Record())
  }

  /** The fields of the builder hold values of their C types. */
  predicate FieldsTyped(s: B.Stats) {
    Signed64(s.endId) && Signed64(s.lastTimeMs) && s.lastTimeNs < 0x1_0000_0000
  }

  /** The record of a builder: its last log lends the id and the time, and its
      body is that of the send task it would become. */
  function RecordOf(h: Held, g: GroupInfo): Item {
    Item(h.stats.endId, h.stats.lastTimeMs, h.stats.lastHasTimeNs, h.stats.lastTimeNs, h.key, OneGroup(h.entries, g))
  }

  /** Builders without logs are passed over. */
  function RecordsOf(hs: seq<Held>, g: GroupInfo): seq<Item> {
    if hs == [] then []
    else RecordsOf(hs[..|hs| - 1], g) + (if hs[|hs| - 1].entries == [] then [] else [RecordOf(hs[|hs| - 1], g)])
  }

  predicate AllFieldsTyped(hs: seq<Held>) {
    forall i :: 0 <= i < |hs| ==> FieldsTyped(hs[i].stats)
  }

  lemma {:induction false} RecordsTyped(hs: seq<Held>, g: GroupInfo)
    requires AllFieldsTyped(hs)
    ensures AllTyped(RecordsOf(hs, g))
  {
    if hs != [] {
      RecordsTyped(hs[..|hs| - 1], g);
    }
  }

  /** The records of all open builders, in the order the builders are visited. */
  method BuiltRecords(builders: seq<Keyed>, suffix: Bytes, ghost g: GroupInfo, ghost hs: seq<Held>)
    returns (built: seq<Item>)
    requires |hs| == |builders| && suffix == EncodeAll(InfoFields(g))
    requires forall i :: 0 <= i < |builders| ==> builders[i].builder.Valid() && hs[i] == HeldBy(builders[i])
    ensures built == RecordsOf(hs, g)
  {
    hide OneGroup, InfoFields, EncodeAll;
    built := [];
    var i := 0;
    assert hs[..0] == [];
    while i < |builders|
      invariant 0 <= i <= |builders| && built == RecordsOf(hs[..i], g)
    {
      var b := builders[i].builder;
      assert hs[..i + 1][..i] == hs[..i] && hs[i] == HeldBy(builders[i]);
      if b.logCount > 0 {
        var t := ToSendTask(b, suffix, g);
        built := built + [Item(t.stats.endId, t.stats.lastTimeMs, t.stats.lastHasTimeNs, t.stats.lastTimeNs,
                               builders[i].key, t.body)];
      }
      i := i + 1;
    }
    assert hs[..i] == hs;
  }

  /** The record holds all of its parts, and its data decodes to the logs of the builder. */
  predicate Recovers(it: Item, h: Held, g: GroupInfo) {
    && it.key == h.key && DecodeList(it.data) == Some([Group(h.entries, g)])
    && it.id == h.stats.endId && it.timeMs == h.stats.lastTimeMs
    && it.hasNs == h.stats.lastHasTimeNs && it.timeNs == h.stats.lastTimeNs
  }

  /** The builders that hold logs. */
  function Filled(hs: seq<Held>): seq<Held> {
    if hs == [] then []
    else Filled(hs[..|hs| - 1]) + (if hs[|hs| - 1].entries == [] then [] else [hs[|hs| - 1]])
  }

  predicate AllRecover(items: seq<Item>, hs: seq<Held>, g: GroupInfo) {
    |items| == |hs| && forall i :: 0 <= i < |hs| ==> Recovers(items[i], hs[i], g)
  }

  /** Keys are C strings, bodies are shorter than 4 GiB, nanoseconds are 32-bit values. */
  predicate Exportable(h: Held, g: GroupInfo) {
    && FieldsTyped(h.stats) && SnapshotLaws.NoZero(h.key) && |h.key| < 0x1_0000_0000
    && |OneGroup(h.entries, g)| < 0x1_0000_0000 && WireLaws.AllSound(h.entries)
  }

  lemma RecordRecovers(h: Held, g: GroupInfo)
    requires Exportable(h, g)
    ensures SnapshotLaws.Stored(RecordOf(h, g)) == RecordOf(h, g)
    ensures Recovers(RecordOf(h, g), h, g) && RecordOf(h, g).data != []
  {
    hide DecodeList, WireLaws.AllSound, SnapshotLaws.Stored;
    SnapshotLaws.StoredWhole(RecordOf(h, g));
    BodyRoundTrip(h.entries, g);
  }

  lemma {:induction false} RecordsRecover(hs: seq<Held>, g: GroupInfo)
    requires forall i :: 0 <= i < |hs| ==> Exportable(hs[i], g)
    ensures AllRecover(RecordsOf(hs, g), Filled(hs), g)
    ensures forall i :: 0 <= i < |RecordsOf(hs, g)| ==>
              SnapshotLaws.Stored(RecordsOf(hs, g)[i]) == RecordsOf(hs, g)[i] && RecordsOf(hs, g)[i].data != []
  {
    hide Exportable, RecordOf, Recovers, SnapshotLaws.Stored;
    if hs != [] {
      RecordsRecover(hs[..|hs| - 1], g);
      RecordRecovers(hs[|hs| - 1], g);
    }
  }

  // ---- from open builders to an importing producer ----

  /** A record as a producer holds it: its id was handed out, its parts fit the format. */
  predicate Storable(it: Item, nextId: int) {
    0 <= it.id < nextId && SnapshotLaws.Stored(it) == it && it.data != []
  }

  lemma {:induction false} RecordsStorable(hs: seq<Held>, g: GroupInfo, nextId: int)
    requires forall i :: 0 <= i < |hs| ==> Exportable(hs[i], g) && 0 <= hs[i].stats.endId < nextId
    ensures AllTyped(RecordsOf(hs, g))
    ensures forall i :: 0 <= i < |RecordsOf(hs, g)| ==> Storable(RecordsOf(hs, g)[i], nextId)
  {
    hide OneGroup, SnapshotLaws.Stored, SnapshotLaws.NoZero, WireLaws.AllSound, DecodeList;
    if hs != [] {
      RecordsStorable(hs[..|hs| - 1], g, nextId);
      RecordRecovers(hs[|hs| - 1], g);
    }
  }

  /** Queued records and open builders are exported and imported into a fresh
      producer with room for them: it holds the queued records unchanged, then one
      record for each builder with logs, which decodes to exactly those logs under
      the key of the builder; and it goes on with the same next id. */
  method ExportImportLogs(queued: seq<Item>, builders: seq<Keyed>, nextId: int, maxBuffer: int, g: GroupInfo,
                          ghost hs: seq<Held>)
    returns (status: Status, importer: Snapshot.RawBuffer)
    requires |hs| == |builders| && 1 <= nextId < HALF
    requires forall i :: 0 <= i < |builders| ==> builders[i].builder.Valid() && hs[i] == HeldBy(builders[i])
    requires forall i :: 0 <= i < |hs| ==> Exportable(hs[i], g) && 0 <= hs[i].stats.endId < nextId
    requires AllTyped(queued) && forall i :: 0 <= i < |queued| ==> Storable(queued[i], nextId)
    requires |queued + RecordsOf(hs, g)| < 0x1_0000_0000 && AllTyped(queued + RecordsOf(hs, g))
    requires |Print(queued + RecordsOf(hs, g), nextId)| < WORD && Fits(maxBuffer, Sizes(queued + RecordsOf(hs, g)))
    ensures status == Ok && fresh(importer)
    ensures |importer.queue| >= |queued| && importer.queue[..|queued|] == queued && importer.nextId == nextId
    ensures AllRecover(importer.queue[|queued|..], Filled(hs), g)
  {
    hide OneGroup, InfoFields, EncodeAll, Exportable, RecordsOf, Filled, DecodeList, Print, PrintItems, PrintHeader,
         ImportItems, Snapshot.Header, Snapshot.Version, Snapshot.Count, Snapshot.HeaderNext, Sizes, SnapshotLaws.Stored, FromLittle;
    RecordsStorable(hs, g, nextId);
    RecordsRecover(hs, g);
    var suffix := BuildGroupSuffix(g);
    var built := BuiltRecords(builders, suffix, g, hs);
    var exporter := new Snapshot.RawBuffer(maxBuffer);
    exporter.queue, exporter.nextId := queued, nextId;
    var bytes;
    status, bytes := exporter.Export(built);
    ghost var items := queued + built;
    SnapshotLaws.SnapshotRoundTrip(items, nextId, maxBuffer);
    PrintParts(items, nextId);
    Snapshot.HeaderRoundTrip(|items|, nextId, PrintItems(items));
    importer := new Snapshot.RawBuffer(maxBuffer);
    status := importer.Import(bytes);
    assert [] + items == items;
    assert importer.queue == items;
    assert items[..|queued|] == queued && items[|queued|..] == built;
  }

  lemma PrintParts(items: seq<Item>, nextId: int)
    requires AllTyped(items) && Signed64(nextId)
    ensures Print(items, nextId) == PrintHeader(3, |items|, nextId) + PrintItems(items)
  {
  }
}
