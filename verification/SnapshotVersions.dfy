/** Snapshots of every version the import accepts, and the format by positions. */
module SnapshotVersions {
  import opened Basics
  import opened Endian
  import opened SnapshotSpec
  import opened SnapshotLaws
  import Snapshot

  // ---- numbers by their bytes ----

  /** The 32-bit number at `i`, low byte first. */
  function Word32At(s: Bytes, i: nat): nat
    requires i + 4 <= |s|
  {
    var a: nat, b: nat, c: nat, d: nat := s[i], s[i + 1], s[i + 2], s[i + 3];
    a + 0x100 * b + 0x1_0000 * c + 0x100_0000 * d
  }

  function Word64At(s: Bytes, i: nat): nat
    requires i + 8 <= |s|
  {
    Word32At(s, i) + 0x1_0000_0000 * Word32At(s, i + 4)
  }

  lemma FourBytes(a: Byte, b: Byte, c: Byte, d: Byte)
    ensures FromLittle([a, b, c, d]) == Word32At([a, b, c, d], 0)
  {
    assert [a, b, c, d][1..] == [b, c, d] && [b, c, d][1..] == [c, d] && [c, d][1..] == [d] && [d][1..] == [];
    assert FromLittle([d]) == d;
    assert FromLittle([c, d]) == c + 256 * FromLittle([d]);
    assert FromLittle([b, c, d]) == b + 256 * FromLittle([c, d]);
  }

  lemma ReadsWord32(s: Bytes, i: nat)
    requires i + 4 <= |s|
    ensures FromLittle(s[i..i + 4]) == Word32At(s, i)
  {
    assert s[i..i + 4] == [s[i], s[i + 1], s[i + 2], s[i + 3]];
    FourBytes(s[i], s[i + 1], s[i + 2], s[i + 3]);
  }

  lemma {:induction false} FromLittleConcat(s: Bytes, t: Bytes)
    requires |s| == 4
    ensures FromLittle(s + t) == FromLittle(s) + 0x1_0000_0000 * FromLittle(t)
  {
    var r := s + t;
    assert s[1..][1..][1..][1..] == [];
    assert r[1..][1..][1..][1..] == t;
    assert r[1..] == s[1..] + t && s[1..][1..] + t == r[1..][1..] && s[1..][1..][1..] + t == r[1..][1..][1..];
    assert FromLittle(r) == r[0] + 256 * FromLittle(r[1..]);
    assert FromLittle(r[1..]) == r[1] + 256 * FromLittle(r[1..][1..]);
    assert FromLittle(r[1..][1..]) == r[2] + 256 * FromLittle(r[1..][1..][1..]);
    assert FromLittle(r[1..][1..][1..]) == r[3] + 256 * FromLittle(t);
    FourBytes(s[0], s[1], s[2], s[3]);
    assert s == [s[0], s[1], s[2], s[3]];
  }

  lemma {:induction false} ReadsWord64(s: Bytes, i: nat)
    requires i + 8 <= |s|
    ensures FromLittle(s[i..i + 8]) == Word64At(s, i)
  {
    assert s[i..i + 8] == s[i..i + 4] + s[i + 4..i + 8];
    FromLittleConcat(s[i..i + 4], s[i + 4..i + 8]);
    ReadsWord32(s, i);
    ReadsWord32(s, i + 4);
  }

  // ---- the format by positions ----

  /** A printed record: id, time, the flag, nanoseconds, the two lengths, the key, the data. */
  lemma {:induction false} RecordLayout(it: Item)
    requires Typed(it) && |it.key| < WORD32 && |it.data| < WORD32
    ensures var s := PrintItem(it);
            && |s| == 29 + |it.key| + |it.data|
            && Word64At(s, 0) == (if it.id < 0 then it.id + WORD else it.id)
            && Word64At(s, 8) == (if it.timeMs < 0 then it.timeMs + WORD else it.timeMs)
            && s[16] == (if it.hasNs then 1 else 0) && Word32At(s, 17) == it.timeNs
            && Word32At(s, 21) == |it.key| && Word32At(s, 25) == |it.data|
            && s[29..29 + |it.key|] == it.key && s[29 + |it.key|..] == it.data
  {
    hide Little, FromLittle, PrintHead, ReadHead, Word32At, Word64At, Cut;
    CutWhole(it.key);
    CutWhole(it.data);
    HeadFields(it, it.key + it.data);
    HeadRoundTrip(it, it.key + it.data);
    var s := PrintItem(it);
    assert s == PrintHead(it) + (it.key + it.data);
    assert s[29..] == it.key + it.data;
    HeadByPositions(3, s);
  }

  /** The header: the letters VTLS, the version, the number of records, the next id. */
  lemma HeaderLayout(version: nat, count: nat, nextId: int)
    requires version < WORD32 && count < WORD32 && 0 <= nextId < HALF
    ensures var s := PrintHeader(version, count, nextId);
            && |s| == 20 && s[0] == 'V' as int && s[1] == 'T' as int && s[2] == 'L' as int && s[3] == 'S' as int
            && Word32At(s, 4) == version && Word32At(s, 8) == count && Word64At(s, 12) == nextId
  {
    hide Little, FromLittle, Word32At, Word64At;
    var s := PrintHeader(version, count, nextId);
    assert s[4..8] == Little(version, 4) && s[8..12] == Little(count, 4) && s[12..20] == Little(nextId, 8);
    Powers();
    LittleRoundTrip(version, 4);
    LittleRoundTrip(count, 4);
    LittleRoundTrip(nextId, 8);
    ReadsWord32(s, 4);
    ReadsWord32(s, 8);
    ReadsWord64(s, 12);
  }

  /** A header is accepted for its letters and a version from 1 to 3, and says how
      many records follow and which id comes next. */
  lemma HeaderExactly(buf: Bytes)
    ensures Snapshot.Header(buf) <==>
              && |buf| >= 20 && buf[0] == 'V' as int && buf[1] == 'T' as int && buf[2] == 'L' as int && buf[3] == 'S' as int
              && 1 <= Word32At(buf, 4) <= 3
    ensures |buf| >= 20 ==>
              && Snapshot.Version(buf) == Word32At(buf, 4) && Snapshot.Count(buf) == Word32At(buf, 8)
              && Snapshot.HeaderNext(buf) == Word64At(buf, 12)
  {
    hide FromLittle, Word32At, Word64At;
    if |buf| >= 20 {
      ReadsWord32(buf, 4);
      ReadsWord32(buf, 8);
      ReadsWord64(buf, 12);
      assert buf[..4] == [buf[0], buf[1], buf[2], buf[3]];
    }
  }

  // ---- one record of any version ----

  /** Where a record of this version holds what: version 1 has no key. */
  function FixedPart(version: nat): nat {
    if version == 1 then 25 else 29
  }

  function KeyLength(version: nat, s: Bytes): nat
    requires |s| >= FixedPart(version)
  {
    if version == 1 then 0 else Word32At(s, 21)
  }

  function DataLength(version: nat, s: Bytes): nat
    requires |s| >= FixedPart(version)
  {
    Word32At(s, FixedPart(version) - 4)
  }

  lemma HeadByPositions(version: nat, s: Bytes)
    requires 1 <= version <= 3 && |s| >= FixedPart(version)
    ensures HeadSize(version) == FixedPart(version)
    ensures ReadHead(version, s) ==
              Head(Word64At(s, 0), Word64At(s, 8), s[16] != 0, Word32At(s, 17), KeyLength(version, s), DataLength(version, s))
  {
    hide FromLittle, Word32At, Word64At;
    ReadsWord64(s, 0);
    ReadsWord64(s, 8);
    ReadsWord32(s, 17);
    ReadsWord32(s, 21);
    assert s[0..8] == s[..8];
    if version > 1 {
      ReadsWord32(s, 25);
    }
  }

  /** The first record of an import, by the bytes: a fixed part that is not there
      in full or a key longer than what follows makes the import invalid; then
      data over the limit makes it a drop, before it is known whether the data is
      there; then data that is not there makes it invalid, and no data a drop. */
  lemma {:induction false} RecordRefused(version: nat, n: nat, s: Bytes, limit: int, used: nat, maxId: nat)
    requires 1 <= version <= 3 && n > 0
    ensures var o, fixed := ImportItems(version, n, s, limit, used, maxId), FixedPart(version);
            if |s| < fixed then o.items == [] && o.status == Invalid
            else
              var key, data, left := KeyLength(version, s), DataLength(version, s), |s| - fixed;
              && (key > left ==> o.items == [] && o.status == Invalid)
              && (key <= left && limit > 0 && used + data > limit ==> o.items == [] && o.status == DropError)
              && (key <= left && (limit <= 0 || used + data <= limit) && key + data > left ==>
                    o.items == [] && o.status == Invalid)
              && (key <= left && data == 0 && (limit <= 0 || used <= limit) ==> o.items == [] && o.status == DropError)
              && (key + data <= left && data > 0 && (limit <= 0 || used + data <= limit) ==> o.items != [])
  {
    hide ReadHead, ImportItems, Word32At, Word64At, CString, KeyLength, DataLength;
    Snapshot.ImportCases(version, n, s, limit, used, maxId);
    if |s| >= FixedPart(version) {
      HeadByPositions(version, s);
    }
  }

  /** A record that is accepted, by the bytes: its id, time, flag and nanoseconds
      stand at the same places in every version. */
  lemma {:induction false} RecordAccepted(version: nat, n: nat, s: Bytes, limit: int, used: nat, maxId: nat)
    requires 1 <= version <= 3 && n > 0 && |s| >= FixedPart(version)
    requires KeyLength(version, s) + DataLength(version, s) <= |s| - FixedPart(version)
    requires DataLength(version, s) > 0 && (limit <= 0 || used + DataLength(version, s) <= limit)
    ensures var o, key, data := ImportItems(version, n, s, limit, used, maxId), KeyLength(version, s), DataLength(version, s);
            var rest := s[FixedPart(version)..];
            && o.items != []
            && o.items[0] == Item(SignedOf(Word64At(s, 0)), SignedOf(Word64At(s, 8)), s[16] != 0, Word32At(s, 17),
                                  CString(rest[..key]), rest[key..key + data])
            && var r := ImportItems(version, n - 1, rest[key + data..], limit, used + data, Max(maxId, Word64At(s, 0)));
               o.items[1..] == r.items && o.status == r.status && o.maxId == r.maxId
  {
    hide ReadHead, ImportItems, Word32At, Word64At, CString, KeyLength, DataLength;
    Snapshot.ImportCases(version, n, s, limit, used, maxId);
    HeadByPositions(version, s);
  }

  /** A 64-bit pattern as a signed number. */
  function SignedOf(u: nat): int {
    if u < 0x8000_0000_0000_0000 then u else u - 0x1_0000_0000_0000_0000
  }

  /** A key ends before its first zero byte. */
  lemma {:induction false} CStringEnds(s: Bytes) returns (n: nat)
    ensures n <= |s| && CString(s) == s[..n]
    ensures NoZero(s[..n]) && (n < |s| ==> s[n] == 0)
  {
    n := 0;
    if s != [] && s[0] != 0 {
      var m := CStringEnds(s[1..]);
      n := m + 1;
      assert s[..n] == [s[0]] + s[1..][..m];
      assert forall i :: 1 <= i < n ==> s[..n][i] == s[1..][..m][i - 1];
    }
  }

  // ---- older versions ----

  /** A record of version 1: no key, and no length of one. */
  function PrintKeyless(it: Item): Bytes
    requires Typed(it)
  {
    Little(Unsigned(it.id), 8) + Little(Unsigned(it.timeMs), 8) + [if it.hasNs then 1 else 0]
    + Little(it.timeNs, 4) + Little(|it.data|, 4) + it.data
  }

  function PrintKeylessItems(items: seq<Item>): Bytes
    requires AllTyped(items)
  {
    if items == [] then [] else PrintKeyless(items[0]) + PrintKeylessItems(items[1..])
  }

  /** A snapshot of any version: versions 2 and 3 hold the same, version 1 has no keys. */
  function PrintVersion(version: nat, items: seq<Item>, nextId: int): Bytes
    requires AllTyped(items) && Signed64(nextId)
  {
    PrintHeader(version, |items|, nextId) + (if version == 1 then PrintKeylessItems(items) else PrintItems(items))
  }

  lemma KeylessFields(it: Item, tail: Bytes)
    requires Typed(it)
    ensures var s := PrintKeyless(it) + tail;
            && |s| == 25 + |it.data| + |tail|
            && s[..8] == Little(Unsigned(it.id), 8) && s[8..16] == Little(Unsigned(it.timeMs), 8)
            && s[16] == (if it.hasNs then 1 else 0) && s[17..21] == Little(it.timeNs, 4)
            && s[21..25] == Little(|it.data|, 4)
            && s[25..] == it.data + tail
  {
    hide Little;
  }

  lemma KeylessRoundTrip(it: Item, tail: Bytes)
    requires Typed(it) && |it.data| < WORD32
    ensures var s := PrintKeyless(it) + tail;
            && |s| >= 25
            && ReadHead(1, s) == Head(Unsigned(it.id), Unsigned(it.timeMs), it.hasNs, it.timeNs, 0, |it.data|)
            && ReadItem(1, s) == Some((it.(key := []), Unsigned(it.id), tail))
  {
    KeylessFields(it, tail);
    Powers();
    LittleRoundTrip(Unsigned(it.id), 8);
    LittleRoundTrip(Unsigned(it.timeMs), 8);
    LittleRoundTrip(it.timeNs, 4);
    LittleRoundTrip(|it.data|, 4);
    CastRoundTrip(it.id);
    CastRoundTrip(it.timeMs);
    hide Little, FromLittle, PrintKeyless, Signed, Unsigned;
    var s := PrintKeyless(it) + tail;
    var rest := s[25..];
    assert rest[..0] == [] && rest[0..0 + |it.data|] == it.data && rest[0 + |it.data|..] == tail;
    assert CString([]) == [];
  }

  function Keyless(items: seq<Item>): (r: seq<Item>)
    ensures |r| == |items| && forall i :: 0 <= i < |items| ==> r[i] == items[i].(key := [])
  {
    if items == [] then [] else [items[0].(key := [])] + Keyless(items[1..])
  }

  /** The parts of the records are shorter than 4 GiB, and there is data. */
  predicate HoldData(items: seq<Item>) {
    forall i :: 0 <= i < |items| ==> 0 < |items[i].data| < WORD32
  }

  lemma {:induction false} KeylessItemsRoundTrip(items: seq<Item>, limit: int, used: nat, maxId: nat)
    requires AllTyped(items) && HoldData(items) && Fits(limit, used + Sizes(items))
    ensures ImportItems(1, |items|, PrintKeylessItems(items), limit, used, maxId) ==
            Outcome(Keyless(items), Ok, LargestId(items, maxId))
    decreases |items|
  {
    hide PrintKeyless, ReadItem, ReadHead, Unsigned, ImportItems;
    if items == [] {
      ImportNone(1, PrintKeylessItems(items), limit, used, maxId);
    } else {
      var it, rest := items[0], items[1..];
      assert HoldData(rest) by { assert forall i :: 0 <= i < |rest| ==> rest[i] == items[i + 1]; }
      KeylessItemsRoundTrip(rest, limit, used + |it.data|, Max(maxId, Unsigned(it.id)));
      KeylessRoundTrip(it, PrintKeylessItems(rest));
      ImportStep(1, |items|, PrintKeylessItems(items), limit, used, maxId);
    }
  }

  lemma SameHead(s: Bytes)
    requires |s| >= 29
    ensures ReadHead(2, s) == ReadHead(3, s)
  {
  }

  /** Versions 2 and 3 read alike, whatever the bytes. */
  lemma {:induction false} SecondIsThird(n: nat, s: Bytes, limit: int, used: nat, maxId: nat)
    ensures ImportItems(2, n, s, limit, used, maxId) == ImportItems(3, n, s, limit, used, maxId)
    decreases n
  {
    hide ReadHead, ImportItems, CString, Signed, FromLittle;
    if n == 0 {
      ImportNone(2, s, limit, used, maxId);
      ImportNone(3, s, limit, used, maxId);
    } else {
      Snapshot.ImportCases(2, n, s, limit, used, maxId);
      Snapshot.ImportCases(3, n, s, limit, used, maxId);
      if |s| >= 29 {
        SameHead(s);
        var h, rest := ReadHead(3, s), s[29..];
        if h.keyLen + h.size <= |rest| {
          SecondIsThird(n - 1, rest[h.keyLen + h.size..], limit, used + h.size, Max(maxId, h.id));
        }
      }
    }
  }

  /** The records as version 1 can hold them. */
  function Held(version: nat, items: seq<Item>): (r: seq<Item>)
    ensures |r| == |items|
    ensures forall i :: 0 <= i < |items| ==> r[i] == if version == 1 then items[i].(key := []) else items[i]
  {
    if version == 1 then Keyless(items) else items
  }

  /** Every version comes back: the import appends exactly the printed records,
      and gives the next id. */
  lemma {:induction false} VersionRoundTrip(version: nat, items: seq<Item>, nextId: int, limit: int)
    requires 1 <= version <= 3 && AllTyped(items) && 1 <= nextId < HALF && Fits(limit, Sizes(items))
    requires forall i :: 0 <= i < |items| ==>
               0 <= items[i].id < nextId && Stored(items[i]) == items[i] && items[i].data != []
    ensures var o := ImportItems(version, |items|, PrintVersion(version, items, nextId)[20..], limit, 0, StartId(1));
            && o.items == Held(version, items) && o.status == Ok
            && Advanced(1, DesiredNext(o.maxId, Unsigned(nextId))) == nextId
  {
    hide ImportItems, PrintItems, PrintKeylessItems, PrintHeader, LargestId, Stored, DesiredNext, Advanced, Unsigned;
    Snapshot.HeaderIs20(version, |items|, nextId);
    SnapshotRoundTrip(items, nextId, limit);
    SecondIsThird(|items|, PrintItems(items), limit, 0, StartId(1));
    if version == 1 {
      StoredHoldData(items);
      KeylessItemsRoundTrip(items, limit, 0, StartId(1));
      LargestIdBelow(items, StartId(1), nextId);
      NextIdRebuilt(items, nextId);
    }
  }

  lemma StoredHoldData(items: seq<Item>)
    requires forall i :: 0 <= i < |items| ==> Stored(items[i]) == items[i] && items[i].data != []
    ensures HoldData(items)
  {
    hide Stored;
    forall i | 0 <= i < |items| ensures 0 < |items[i].data| < WORD32 {
      StoredWhole(items[i]);
    }
  }

  /** A snapshot of any version read into a fresh producer with room for it: the
      producer holds every record with its id, time, nanoseconds, data and, from
      version 2 on, its key, and goes on with the next id of the snapshot. */
  method ImportPrinted(version: nat, items: seq<Item>, nextId: int, maxBuffer: int)
    returns (status: Status, importer: Snapshot.RawBuffer)
    requires 1 <= version <= 3 && AllTyped(items) && |items| < WORD32
    requires 1 <= nextId < HALF && Fits(maxBuffer, Sizes(items))
    requires forall i :: 0 <= i < |items| ==>
               0 <= items[i].id < nextId && Stored(items[i]) == items[i] && items[i].data != []
    ensures status == Ok && fresh(importer) && importer.nextId == nextId
    ensures |importer.queue| == |items|
    ensures forall i :: 0 <= i < |items| ==>
              importer.queue[i] == if version == 1 then items[i].(key := []) else items[i]
  {
    hide PrintVersion, ImportItems, Stored, Advanced, DesiredNext, Sizes, Unsigned,
         Snapshot.Header, Snapshot.Version, Snapshot.Count, Snapshot.HeaderNext;
    var bytes := PrintVersion(version, items, nextId);
    VersionHeader(version, items, nextId);
    VersionRoundTrip(version, items, nextId, maxBuffer);
    importer := new Snapshot.RawBuffer(maxBuffer);
    status := importer.Import(bytes);
  }

  lemma VersionHeader(version: nat, items: seq<Item>, nextId: int)
    requires 1 <= version <= 3 && AllTyped(items) && |items| < WORD32 && 1 <= nextId < HALF
    ensures var buf := PrintVersion(version, items, nextId);
            && Snapshot.Header(buf) && Snapshot.Version(buf) == version && Snapshot.Count(buf) == |items|
            && Snapshot.HeaderNext(buf) == Unsigned(nextId)
  {
    hide PrintItems, PrintKeylessItems, PrintHeader, Word32At, Word64At, Snapshot.Header;
    var buf, header := PrintVersion(version, items, nextId), PrintHeader(version, |items|, nextId);
    HeaderLayout(version, |items|, nextId);
    HeaderExactly(buf);
    SameWords(header, buf);
  }

  lemma SameWords(header: Bytes, buf: Bytes)
    requires |header| == 20 && header <= buf
    ensures Word32At(buf, 4) == Word32At(header, 4) && Word32At(buf, 8) == Word32At(header, 8)
    ensures Word64At(buf, 12) == Word64At(header, 12)
  {
  }

  // ---- the next id ----

  /** The largest id an import has seen is that of a record it took, or the one it started with. */
  lemma {:induction false} LargestSeen(version: nat, n: nat, s: Bytes, limit: int, used: nat, maxId: nat)
    requires maxId < WORD
    ensures var o := ImportItems(version, n, s, limit, used, maxId);
            && maxId <= o.maxId < WORD
            && (forall i :: 0 <= i < |o.items| ==> Signed64(o.items[i].id) && Unsigned(o.items[i].id) <= o.maxId)
            && (o.maxId == maxId || exists i :: 0 <= i < |o.items| && Unsigned(o.items[i].id) == o.maxId)
    decreases n
  {
    hide ReadHead, ImportItems, CString;
    if n == 0 {
      ImportNone(version, s, limit, used, maxId);
    } else {
      Snapshot.ImportCases(version, n, s, limit, used, maxId);
      if |s| >= HeadSize(version) {
        HeadBounds(version, s);
        var h, rest := ReadHead(version, s), s[HeadSize(version)..];
        if h.keyLen + h.size <= |rest| {
          var r := ImportItems(version, n - 1, rest[h.keyLen + h.size..], limit, used + h.size, Max(maxId, h.id));
          LargestSeen(version, n - 1, rest[h.keyLen + h.size..], limit, used + h.size, Max(maxId, h.id));
          var first := ItemOf(h, rest[..h.keyLen], rest[h.keyLen..h.keyLen + h.size]);
          assert Unsigned(first.id) == h.id;
          OneMore(first, r.items, maxId, r.maxId);
        }
      }
    }
  }

  lemma OneMore(first: Item, items: seq<Item>, maxId: nat, largest: nat)
    requires Signed64(first.id) && forall i :: 0 <= i < |items| ==> Signed64(items[i].id)
    requires Max(maxId, Unsigned(first.id)) <= largest
    requires forall i :: 0 <= i < |items| ==> Unsigned(items[i].id) <= largest
    requires largest == Max(maxId, Unsigned(first.id)) || exists i :: 0 <= i < |items| && Unsigned(items[i].id) == largest
    ensures var all := [first] + items;
            && (forall i :: 0 <= i < |all| ==> Signed64(all[i].id) && Unsigned(all[i].id) <= largest)
            && (largest == maxId || exists i :: 0 <= i < |all| && Unsigned(all[i].id) == largest)
  {
    hide Unsigned;
    var all := [first] + items;
    assert all[0] == first && forall i :: 0 <= i < |items| ==> all[i + 1] == items[i];
  }

  /** The next id becomes the largest of what it was, the next id in the header
      and one more than the largest id seen, as long as these two are no more than
      the largest signed value; it never goes back. */
  lemma NextIdIsLargest(current: int, maxId: nat, headerNext: nat)
    requires Signed64(current) && maxId < WORD && headerNext < WORD
    ensures Advanced(current, DesiredNext(maxId, headerNext)) >= current
    ensures maxId + 1 < HALF && headerNext < HALF ==>
              Advanced(current, DesiredNext(maxId, headerNext)) == Max(current, Max(maxId + 1, headerNext))
    ensures HALF <= headerNext || HALF <= maxId + 1 < WORD ==> Advanced(current, DesiredNext(maxId, headerNext)) == current
    ensures StartId(current) == Max(current - 1, 0)
  {
  }
}
