/** Export and import of the raw buffer, over byte buffers with a cursor. */
module Snapshot {
  import opened Basics
  import opened Endian
  import opened SnapshotSpec
  import SnapshotLaws
  import Builder

  // ---- writing ----

  /** Writes the low `n` bytes of `v`, lowest first. */
  method PutLittle(buf: array<Byte>, at: nat, v: nat, n: nat) returns (end: nat)
    requires at + n <= buf.Length
    modifies buf
    ensures end == at + n && buf[..end] == old(buf[..at]) + Little(v, n)
  {
    ghost var start := buf[..at];
    var w, i := v, 0;
    end := at;
    while i < n
      invariant 0 <= i <= n && end == at + i
      invariant buf[..end] + Little(w, n - i) == start + Little(v, n)
    {
      assert Little(w, n - i) == [w % 256] + Little(w / 256, n - i - 1);
      end := Builder.PutByte(buf, end, w % 256);
      w, i := w / 256, i + 1;
    }
  }

  method PutHead(buf: array<Byte>, at: nat, it: Item) returns (end: nat)
    requires Typed(it) && at + 29 <= buf.Length
    modifies buf
    ensures end == at + 29 && buf[..end] == old(buf[..at]) + PrintHead(it)
  {
    hide Little, Cut;
    end := PutLittle(buf, at, Unsigned(it.id), 8);
    end := PutLittle(buf, end, Unsigned(it.timeMs), 8);
    end := Builder.PutByte(buf, end, if it.hasNs then 1 else 0);
    end := PutLittle(buf, end, it.timeNs, 4);
    end := PutLittle(buf, end, |it.key| % WORD32, 4);
    end := PutLittle(buf, end, |it.data| % WORD32, 4);
    CutSize(it.key);
    CutSize(it.data);
    ConcatSix(old(buf[..at]), Little(Unsigned(it.id), 8), Little(Unsigned(it.timeMs), 8), [if it.hasNs then 1 else 0],
            Little(it.timeNs, 4), Little(|Cut(it.key)|, 4), Little(|Cut(it.data)|, 4));
  }

  lemma CutSize(s: Bytes)
    ensures |Cut(s)| == |s| % WORD32 <= |s|
  {
    SnapshotLaws.CutWhole(s);
  }

  method PutItem(buf: array<Byte>, at: nat, it: Item) returns (end: nat)
    requires Typed(it) && at + |PrintItem(it)| <= buf.Length
    modifies buf
    ensures end == at + |PrintItem(it)| && buf[..end] == old(buf[..at]) + PrintItem(it)
  {
    hide Little, Cut, PrintHead;
    HeadIs29(it);
    CutSize(it.key);
    CutSize(it.data);
    CutIs(it.key);
    CutIs(it.data);
    end := PutHead(buf, at, it);
    if |Cut(it.key)| > 0 {
      end := Builder.PutBlock(buf, end, it.key[..|it.key| % WORD32]);
    }
    end := Builder.PutBlock(buf, end, it.data[..|it.data| % WORD32]);
    ConcatThree(old(buf[..at]), PrintHead(it), Cut(it.key), Cut(it.data));
    assert Cut(it.key) == [] ==> old(buf[..at]) + PrintHead(it) + [] == old(buf[..at]) + PrintHead(it);
  }

  lemma CutIs(s: Bytes)
    ensures |s| % WORD32 <= |s| && Cut(s) == s[..|s| % WORD32]
  {
    CutSize(s);
  }

  lemma HeadIs29(it: Item)
    requires Typed(it)
    ensures |PrintHead(it)| == 29
  {
    hide Little;
  }

  lemma {:induction false} PrintStep(items: seq<Item>, i: nat)
    requires AllTyped(items) && i < |items|
    ensures PrintItems(items[..i + 1]) == PrintItems(items[..i]) + PrintItem(items[i])
  {
    hide PrintItem;
    if i == 0 {
      assert items[..1][1..] == [];
    } else {
      PrintStep(items[1..], i - 1);
      assert items[..i + 1][1..] == items[1..][..i] && items[..i][1..] == items[1..][..i - 1];
    }
  }

  lemma {:induction false} PrintGrows(items: seq<Item>, i: nat, j: nat)
    requires AllTyped(items) && i <= j <= |items|
    ensures |PrintItems(items[..i])| <= |PrintItems(items[..j])|
    decreases j - i
  {
    hide PrintItem, PrintItems;
    if i < j {
      PrintStep(items, i);
      PrintGrows(items, i + 1, j);
    }
  }

  /** The size of the snapshot, or none when it does not fit in memory. */
  method TotalSize(items: seq<Item>) returns (fits: bool, total: nat)
    requires AllTyped(items)
    ensures fits == (20 + |PrintItems(items)| < WORD)
    ensures fits ==> total == 20 + |PrintItems(items)|
  {
    hide PrintItem, PrintItems, Cut;
    total := 4 + 4 + 4 + 8;
    var i := 0;
    NothingPrinted();
    assert items[..0] == [];
    while i < |items|
      invariant 0 <= i <= |items|
      invariant total == 20 + |PrintItems(items[..i])| < WORD
    {
      PrintStep(items, i);
      ItemSize(items[i]);
      PrintGrows(items, i + 1, |items|);
      assert items[..|items|] == items;
      var add := 29 + |items[i].key| % WORD32 + |items[i].data| % WORD32;
      if total > WORD - 1 - add {
        return false, total;
      }
      total, i := total + add, i + 1;
    }
    assert items[..i] == items;
    fits := true;
  }

  lemma NothingPrinted()
    ensures PrintItems([]) == []
  {
  }

  lemma ItemSize(it: Item)
    requires Typed(it)
    ensures |PrintItem(it)| == 29 + |it.key| % WORD32 + |it.data| % WORD32 < WORD
  {
    hide PrintHead, Cut;
    HeadIs29(it);
    CutSize(it.key);
    CutSize(it.data);
  }

  method PutItems(buf: array<Byte>, at: nat, items: seq<Item>) returns (end: nat)
    requires AllTyped(items) && at + |PrintItems(items)| <= buf.Length
    modifies buf
    ensures end == at + |PrintItems(items)| && buf[..end] == old(buf[..at]) + PrintItems(items)
  {
    hide PrintItem, PrintItems;
    ghost var start := buf[..at];
    end := at;
    var i := 0;
    NothingPrinted();
    assert items[..0] == [] && start + [] == start;
    while i < |items|
      invariant 0 <= i <= |items| && end == at + |PrintItems(items[..i])| <= buf.Length
      invariant buf[..end] == start + PrintItems(items[..i])
    {
      PrintStep(items, i);
      PrintGrows(items, i + 1, |items|);
      assert items[..|items|] == items;
      ConcatTwo(start, PrintItems(items[..i]), PrintItem(items[i]));
      end := PutItem(buf, end, items[i]);
      i := i + 1;
    }
    assert items[..i] == items;
  }

  method PutHeader(buf: array<Byte>, count: nat, nextId: int) returns (end: nat)
    requires Signed64(nextId) && 20 <= buf.Length
    modifies buf
    ensures end == 20 && buf[..end] == PrintHeader(3, count, nextId)
  {
    hide Little;
    end := Builder.PutBlock(buf, 0, MAGIC);
    end := PutLittle(buf, end, 3, 4);
    end := PutLittle(buf, end, count, 4);
    end := PutLittle(buf, end, Unsigned(nextId), 8);
    assert old(buf[..0]) + MAGIC == MAGIC;
  }

  // ---- reading ----

  /** Reads `n` bytes at the cursor, lowest first, when they are there. */
  method ReadLittle(buf: Bytes, at: nat, n: nat) returns (ok: bool, v: nat, next: nat)
    ensures ok <==> at + n <= |buf|
    ensures ok ==> v == FromLittle(buf[at..at + n]) && next == at + n
    ensures !ok ==> next == at
  {
    v, next := 0, at;
    if at + n > |buf| {
      return false, 0, at;
    }
    var i: nat, place: nat := 0, 1;
    while i < n
      invariant 0 <= i <= n && place == Power256(i)
      invariant v == FromLittle(buf[at..at + i])
    {
      FromLittleGrows(buf[at..at + i], buf[at + i]);
      assert buf[at..at + i] + [buf[at + i]] == buf[at..at + (i + 1)];
      v, place, i := v + place * buf[at + i], 256 * place, i + 1;
    }
    ok, next := true, at + n;
  }

  /** The fixed part of a record, field by field; version 1 has no key length. */
  method ReadFixedPart(buf: Bytes, version: nat, off: nat) returns (ok: bool, h: Head, next: nat)
    requires off <= |buf|
    ensures ok <==> |buf| - off >= HeadSize(version)
    ensures ok ==> h == ReadHead(version, buf[off..]) && next == off + HeadSize(version)
  {
    hide FromLittle;
    h := Head(0, 0, false, 0, 0, 0);
    var id, timeMs, timeNs, keyLen, size;
    ok, id, next := ReadLittle(buf, off, 8);
    if !ok {
      return;
    }
    ok, timeMs, next := ReadLittle(buf, next, 8);
    if !ok || |buf| - next < 1 {
      return false, h, next;
    }
    var flag := buf[next];
    next := next + 1;
    ok, timeNs, next := ReadLittle(buf, next, 4);
    if !ok {
      return;
    }
    keyLen := 0;
    if version >= 2 {
      ok, keyLen, next := ReadLittle(buf, next, 4);
      if !ok {
        return;
      }
    }
    ok, size, next := ReadLittle(buf, next, 4);
    if !ok {
      return;
    }
    h := Head(id, timeMs, flag != 0, timeNs, keyLen, size);
    var s := buf[off..];
    assert s[..8] == buf[off..off + 8] && s[8..16] == buf[off + 8..off + 16] && s[16] == flag;
    assert s[17..21] == buf[off + 17..off + 21] && s[21..25] == buf[off + 21..off + 25];
    assert version >= 2 ==> s[25..29] == buf[off + 25..off + 29];
  }

  // ---- the raw buffer ----

  class RawBuffer {
    const maxBuffer: int
    var queue: seq<Item>
    var queueBytes: nat
    var nextId: int

    ghost predicate Valid()
      reads this
    {
      AllTyped(queue) && Signed64(nextId)
    }

    constructor (maxBuffer: int)
      ensures Valid() && queue == [] && queueBytes == 0 && nextId == 1 && this.maxBuffer == maxBuffer
    {
      this.maxBuffer := maxBuffer;
      queue, queueBytes, nextId := [], 0, 1;
    }

    /** Prints the queued records, then one record for each open builder. It
        fails exactly when they are too many to count or too large for memory. */
    method Export(built: seq<Item>) returns (status: Status, out: Bytes)
      requires Valid() && AllTyped(built)
      ensures AllTyped(queue + built)
      ensures status == (if |queue + built| < WORD32 && |Print(queue + built, nextId)| < WORD then Ok else DropError)
      ensures status == Ok ==> out == Print(queue + built, nextId)
    {
      hide PrintItems, PrintHeader;
      var items := queue + built;
      HeaderIs20(3, |items|, nextId);
      if |items| > WORD32 - 1 {
        return DropError, [];
      }
      var fits, total := TotalSize(items);
      if !fits {
        return DropError, [];
      }
      var buf := new Byte[total](_ => 0);
      var off := PutHeader(buf, |items|, nextId);
      off := PutItems(buf, off, items);
      return Ok, buf[..off];
    }

    /** Reads a snapshot and appends its records. Whatever the bytes are, no read
        leaves them; a refused header changes nothing, and a record that cannot be
        taken ends the import behind the records before it. */
    method Import(buf: Bytes) returns (status: Status)
      requires Valid()
      modifies this`queue, this`queueBytes, this`nextId
      ensures Valid()
      ensures !Header(buf) ==> status == Invalid && queue == old(queue) && nextId == old(nextId)
      ensures Header(buf) ==>
                var o := ImportItems(Version(buf), Count(buf), buf[20..], maxBuffer, old(queueBytes), StartId(old(nextId)));
                && status == o.status && queue == old(queue) + o.items
                && nextId == (if o.status == Ok then Advanced(old(nextId), DesiredNext(o.maxId, HeaderNext(buf)))
                              else old(nextId))
    {
      hide ImportItems, ReadHead, FromLittle;
      if |buf| < 4 + 4 + 4 + 8 {
        return Invalid;
      }
      if !(buf[0] == 0x56 && buf[1] == 0x54 && buf[2] == 0x4C && buf[3] == 0x53) {
        return Invalid;
      }
      var ok, version, off := ReadLittle(buf, 4, 4);
      if version != 1 && version != 2 && version != 3 {
        return Invalid;
      }
      var count, headerNext;
      ok, count, off := ReadLittle(buf, off, 4);
      ok, headerNext, off := ReadLittle(buf, off, 8);
      assert Header(buf) by { assert buf[..4] == MAGIC; }
      var maxId;
      status, maxId := ImportRecords(buf, version, count, StartId(nextId));
      if status != Ok {
        return;
      }
      var desired := DesiredNext(maxId, headerNext);
      if desired <= HALF - 1 {
        if desired > 0 && nextId < desired {
          nextId := desired;
        }
      }
    }

    /** The loop over the records, from offset 20 on. */
    method ImportRecords(buf: Bytes, version: nat, count: nat, startId: nat) returns (status: Status, maxId: nat)
      requires Valid() && |buf| >= 20
      modifies this`queue, this`queueBytes
      ensures Valid()
      ensures var o := ImportItems(version, count, buf[20..], maxBuffer, old(queueBytes), startId);
              status == o.status && queue == old(queue) + o.items && (status == Ok ==> maxId == o.maxId)
    {
      hide ImportItems, ReadHead;
      var off, i := 20, 0;
      maxId := startId;
      ghost var o := ImportItems(version, count, buf[20..], maxBuffer, queueBytes, startId);
      assert queue + o.items == old(queue) + o.items;
      while i < count
        invariant 0 <= i <= count && 20 <= off <= |buf| && Valid()
        invariant var rest := ImportItems(version, count - i, buf[off..], maxBuffer, queueBytes, maxId);
                  queue + rest.items == old(queue) + o.items && rest.status == o.status && rest.maxId == o.maxId
      {
        status, off, maxId := ImportRecord(buf, version, off, maxId, count - i);
        if status != Ok {
          return;
        }
        i := i + 1;
      }
      SnapshotLaws.ImportNone(version, buf[off..], maxBuffer, queueBytes, maxId);
      status := Ok;
    }

    /** One record: its fixed part, the key, the limit, the data. */
    method ImportRecord(buf: Bytes, version: nat, off: nat, maxId: nat, ghost left: nat)
      returns (status: Status, next: nat, largest: nat)
      requires Valid() && off <= |buf| && left > 0
      modifies this`queue, this`queueBytes
      ensures Valid() && off <= next <= |buf|
      ensures var o := ImportItems(version, left, buf[off..], maxBuffer, old(queueBytes), maxId);
              if status == Ok then
                var rest := ImportItems(version, left - 1, buf[next..], maxBuffer, queueBytes, largest);
                queue + rest.items == old(queue) + o.items && rest.status == o.status && rest.maxId == o.maxId
              else queue == old(queue) + o.items && status == o.status
    {
      hide ReadHead, ImportItems, Signed, CString;
      next, largest := off, maxId;
      ImportCases(version, left, buf[off..], maxBuffer, queueBytes, maxId);
      var whole, h, at := ReadFixedPart(buf, version, off);
      if !whole {
        return Invalid, next, largest;
      }
      next := at;
      assert buf[off..][HeadSize(version)..] == buf[next..];
      if |buf| - next < h.keyLen {
        return Invalid, next, largest;
      }
      if maxBuffer > 0 && !(queueBytes <= maxBuffer && h.size <= maxBuffer - queueBytes) {
        return DropError, next, largest;
      }
      var key := buf[next..next + h.keyLen];
      next := next + h.keyLen;
      if |buf| - next < h.size {
        return Invalid, next, largest;
      }
      HeadBounds(version, buf[off..]);
      var data := buf[next..next + h.size];
      Parts(buf, off + HeadSize(version), h.keyLen, h.size);
      if h.size == 0 {
        return DropError, next, largest;
      }
      ghost var before := queue;
      queue := queue + [ItemOf(h, key, data)];
      queueBytes := queueBytes + h.size;
      if h.id > largest {
        largest := h.id;
      }
      next := next + h.size;
      status := Ok;
      ConcatTwo(before, [ItemOf(h, key, data)],
                   ImportItems(version, left - 1, buf[next..], maxBuffer, queueBytes, largest).items);
    }
  }

  lemma HeaderIs20(version: nat, count: nat, nextId: int)
    requires Signed64(nextId)
    ensures |PrintHeader(version, count, nextId)| == 20
  {
    hide Little;
  }

  /** Positions in what is left are positions in the whole. */
  lemma Parts(buf: Bytes, at: nat, k: nat, d: nat)
    requires at + k + d <= |buf|
    ensures buf[at..][..k] == buf[at..at + k]
    ensures buf[at..][k..k + d] == buf[at + k..at + k + d]
    ensures buf[at..][k + d..] == buf[at + k + d..]
  {
  }

  /** The cases of one record, in the order in which they are looked at. */
  lemma {:induction false} ImportCases(version: nat, n: nat, s: Bytes, limit: int, used: nat, maxId: nat)
    requires n > 0
    ensures var o := ImportItems(version, n, s, limit, used, maxId);
            if |s| < HeadSize(version) then o == Outcome([], Invalid, maxId)
            else
              var h, rest := ReadHead(version, s), s[HeadSize(version)..];
              if |rest| < h.keyLen then o == Outcome([], Invalid, maxId)
              else if !Fits(limit, used + h.size) then o == Outcome([], DropError, maxId)
              else if |rest| - h.keyLen < h.size then o == Outcome([], Invalid, maxId)
              else if h.size == 0 then o == Outcome([], DropError, maxId)
              else
                && h.id < WORD && h.timeMs < WORD
                && var r := ImportItems(version, n - 1, rest[h.keyLen + h.size..], limit, used + h.size, Max(maxId, h.id));
                  o == r.(items := [ItemOf(h, rest[..h.keyLen], rest[h.keyLen..h.keyLen + h.size])] + r.items)
  {
    hide ReadHead, CString, Signed;
    if |s| >= HeadSize(version) {
      HeadBounds(version, s);
    }
  }

  // ---- the header ----

  /** The magic bytes, all twenty bytes of the header, and a version that is known. */
  predicate Header(buf: Bytes) {
    |buf| >= 20 && buf[..4] == MAGIC && 1 <= Version(buf) <= 3
  }

  function Version(buf: Bytes): nat
    requires |buf| >= 20
  {
    FromLittle(buf[4..8])
  }

  function Count(buf: Bytes): nat
    requires |buf| >= 20
  {
    FromLittle(buf[8..12])
  }

  function HeaderNext(buf: Bytes): nat
    requires |buf| >= 20
  {
    FromLittle(buf[12..20])
  }

  lemma HeaderRoundTrip(count: nat, nextId: int, tail: Bytes)
    requires count < WORD32 && Signed64(nextId)
    ensures var buf := PrintHeader(3, count, nextId) + tail;
            && Header(buf) && Version(buf) == 3 && Count(buf) == count && HeaderNext(buf) == Unsigned(nextId)
            && buf[20..] == tail
  {
    hide Little, FromLittle;
    var buf := PrintHeader(3, count, nextId) + tail;
    assert buf[..4] == MAGIC && buf[4..8] == Little(3, 4) && buf[8..12] == Little(count, 4);
    assert buf[12..20] == Little(Unsigned(nextId), 8) && buf[20..] == tail;
    Powers();
    LittleRoundTrip(3, 4);
    LittleRoundTrip(count, 4);
    LittleRoundTrip(Unsigned(nextId), 8);
  }

  /** Export, import into a fresh producer, export: the same records, the same
      next id, the same bytes. The records are such as a producer holds: keys are
      C strings, records hold data, parts are below 4 GiB, ids were handed out
      before the next one; and the importing producer has room for them. */
  method ExportImportExport(items: seq<Item>, nextId: int, maxBuffer: int) returns (same: bool)
    requires AllTyped(items) && 1 <= nextId < HALF && |items| < WORD32
    requires |Print(items, nextId)| < WORD && Fits(maxBuffer, Sizes(items))
    requires forall i :: 0 <= i < |items| ==> 0 <= items[i].id < nextId
    requires forall i :: 0 <= i < |items| ==> SnapshotLaws.Stored(items[i]) == items[i] && items[i].data != []
    ensures same
  {
    hide PrintItems, PrintHeader, ImportItems, Header, Version, Count, HeaderNext, Sizes, SnapshotLaws.Stored, FromLittle;
    var exporter := new RawBuffer(maxBuffer);
    exporter.queue, exporter.nextId := items, nextId;
    assert items + [] == items;
    var status, bytes := exporter.Export([]);
    var importer := new RawBuffer(maxBuffer);
    HeaderRoundTrip(|items|, nextId, PrintItems(items));
    SnapshotLaws.SnapshotRoundTrip(items, nextId, maxBuffer);
    var read := importer.Import(bytes);
    assert [] + items == items;
    var again, copy := importer.Export([]);
    same := read == Ok && importer.queue == items && importer.nextId == nextId && again == Ok && copy == bytes;
  }
}
