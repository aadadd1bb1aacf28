/** Reading back what was printed, and reading anything at all. */
module SnapshotLaws {
  import opened Basics
  import opened Endian
  import opened SnapshotSpec

  /** What a record becomes on its way through a snapshot: lengths are cut to 32
      bits, and the key ends at its first zero byte. */
  function Stored(it: Item): Item {
    it.(key := CString(Cut(it.key)), data := Cut(it.data))
  }

  predicate NoZero(s: Bytes) {
    forall i :: 0 <= i < |s| ==> s[i] != 0
  }

  lemma {:induction false} CStringWhole(s: Bytes)
    ensures CString(s) == s <==> NoZero(s)
    ensures |CString(s)| <= |s|
  {
    if s != [] {
      CStringWhole(s[1..]);
      assert NoZero(s) ==> s[0] != 0;
      assert NoZero(s[1..]) && s[0] != 0 ==> NoZero(s) by {
        assert forall i :: 1 <= i < |s| ==> s[i] == s[1..][i - 1];
      }
    }
  }

  /** A record survives exactly when its key is a C string and its parts are shorter than 4 GiB. */
  lemma StoredWhole(it: Item)
    ensures Stored(it) == it <==> NoZero(it.key) && |it.key| < WORD32 && |it.data| < WORD32
  {
    CStringWhole(Cut(it.key));
    CutWhole(it.key);
    CutWhole(it.data);
  }

  lemma CutWhole(s: Bytes)
    ensures Cut(s) == s <==> |s| < WORD32
    ensures |Cut(s)| <= |s| && |Cut(s)| < WORD32
  {
    if |s| < WORD32 {
      assert |s| % WORD32 == |s|;
      assert s[..|s|] == s;
    } else {
      assert |s| % WORD32 < WORD32 <= |s|;
    }
  }

  // ---- one record ----

  lemma CastRoundTrip(x: int)
    requires Signed64(x)
    ensures Signed(Unsigned(x)) == x
  {
  }

  /** The fixed part of a record reads back field by field. */
  lemma HeadFields(it: Item, tail: Bytes)
    requires Typed(it)
    ensures var s := PrintHead(it) + tail;
            && |PrintHead(it)| == 29
            && s[..8] == Little(Unsigned(it.id), 8) && s[8..16] == Little(Unsigned(it.timeMs), 8)
            && s[16] == (if it.hasNs then 1 else 0) && s[17..21] == Little(it.timeNs, 4)
            && s[21..25] == Little(|Cut(it.key)|, 4) && s[25..29] == Little(|Cut(it.data)|, 4)
            && s[29..] == tail
  {
    hide Little, Cut;
  }

  lemma HeadRoundTrip(it: Item, tail: Bytes)
    requires Typed(it)
    ensures |PrintHead(it) + tail| >= 29
    ensures ReadHead(3, PrintHead(it) + tail) ==
            Head(Unsigned(it.id), Unsigned(it.timeMs), it.hasNs, it.timeNs, |Cut(it.key)|, |Cut(it.data)|)
  {
    HeadFields(it, tail);
    CutWhole(it.key);
    CutWhole(it.data);
    Powers();
    LittleRoundTrip(Unsigned(it.id), 8);
    LittleRoundTrip(Unsigned(it.timeMs), 8);
    LittleRoundTrip(it.timeNs, 4);
    LittleRoundTrip(|Cut(it.key)|, 4);
    LittleRoundTrip(|Cut(it.data)|, 4);
    hide Little, FromLittle, PrintHead, Cut;
  }

  lemma Body(a: Bytes, b: Bytes, c: Bytes, d: Bytes)
    ensures a + b + c + d == a + (b + c + d)
    ensures (b + c + d)[..|b|] == b && (b + c + d)[|b|..|b| + |c|] == c && (b + c + d)[|b| + |c|..] == d
  {
    assert (b + c + d)[|b|..|b| + |c|] == c;
  }

  lemma ItemRoundTrip(it: Item, tail: Bytes)
    requires Typed(it)
    ensures ReadItem(3, PrintItem(it) + tail) == Some((Stored(it), Unsigned(it.id), tail))
    ensures |PrintItem(it) + tail| >= 29
    ensures ReadHead(3, PrintItem(it) + tail).size == |Cut(it.data)|
    ensures ReadHead(3, PrintItem(it) + tail).keyLen == |Cut(it.key)| <= |(PrintItem(it) + tail)[29..]|
  {
    var k, d := Cut(it.key), Cut(it.data);
    Body(PrintHead(it), k, d, tail);
    HeadRoundTrip(it, k + d + tail);
    HeadFields(it, k + d + tail);
    CastRoundTrip(it.id);
    CastRoundTrip(it.timeMs);
    hide Little, FromLittle, PrintHead, Cut, ReadHead, CString, Signed, Unsigned;
    assert PrintItem(it) + tail == PrintHead(it) + (k + d + tail);
  }

  // ---- a whole snapshot ----

  function StoredAll(items: seq<Item>): (r: seq<Item>)
    ensures |r| == |items|
    ensures forall i :: 0 <= i < |items| ==> r[i] == Stored(items[i])
  {
    if items == [] then [] else [Stored(items[0])] + StoredAll(items[1..])
  }

  function LargestId(items: seq<Item>, maxId: nat): nat
    requires AllTyped(items)
  {
    if items == [] then maxId else LargestId(items[1..], Max(maxId, Unsigned(items[0].id)))
  }

  predicate HaveData(items: seq<Item>) {
    forall i :: 0 <= i < |items| ==> items[i].data != []
  }

  /** Printed records that hold data and fit are all read back, whatever follows them. */
  lemma {:induction false} ItemsRoundTrip(items: seq<Item>, tail: Bytes, limit: int, used: nat, maxId: nat)
    requires AllTyped(items) && HaveData(StoredAll(items)) && Fits(limit, used + Sizes(StoredAll(items)))
    ensures ImportItems(3, |items|, PrintItems(items) + tail, limit, used, maxId) ==
            Outcome(StoredAll(items), Ok, LargestId(items, maxId))
    decreases |items|
  {
    hide PrintItem, ReadItem, ReadHead, CString, Cut, Unsigned, PrintItems, ImportItems, StoredAll, HaveData, Sizes;
    if items == [] {
      NoItems(tail, limit, used, maxId);
    } else {
      PrintFirst(items, tail);
      StoredFirst(items);
      ItemsRoundTrip(items[1..], tail, limit, used + |Cut(items[0].data)|, Max(maxId, Unsigned(items[0].id)));
      ItemRoundTrip(items[0], PrintItems(items[1..]) + tail);
      ImportStep(3, |items|, PrintItems(items) + tail, limit, used, maxId);
    }
  }

  lemma NoItems(tail: Bytes, limit: int, used: nat, maxId: nat)
    ensures ImportItems(3, 0, PrintItems([]) + tail, limit, used, maxId) == Outcome(StoredAll([]), Ok, LargestId([], maxId))
  {
  }

  lemma {:induction false} PrintFirst(items: seq<Item>, tail: Bytes)
    requires AllTyped(items) && items != []
    ensures PrintItems(items) + tail == PrintItem(items[0]) + (PrintItems(items[1..]) + tail)
  {
    hide PrintItem;
  }

  lemma {:induction false} StoredFirst(items: seq<Item>)
    requires items != []
    ensures StoredAll(items) == [Stored(items[0])] + StoredAll(items[1..])
    ensures Sizes(StoredAll(items)) == |Cut(items[0].data)| + Sizes(StoredAll(items[1..]))
    ensures HaveData(StoredAll(items)) ==> |Cut(items[0].data)| > 0 && HaveData(StoredAll(items[1..]))
  {
    hide Cut, CString;
    assert StoredAll(items)[1..] == StoredAll(items[1..]);
    HaveDataCons(Stored(items[0]), StoredAll(items[1..]));
  }

  /** One accepted record. */
  lemma {:induction false} ImportStep(version: nat, n: nat, s: Bytes, limit: int, used: nat, maxId: nat)
    requires n > 0 && ReadItem(version, s).Some?
    requires |s| >= HeadSize(version) && ReadHead(version, s).keyLen <= |s[HeadSize(version)..]|
    requires ReadHead(version, s).size > 0 && Fits(limit, used + ReadHead(version, s).size)
    ensures var r := ReadItem(version, s).value;
            var o := ImportItems(version, n - 1, r.2, limit, used + ReadHead(version, s).size, Max(maxId, r.1));
            ImportItems(version, n, s, limit, used, maxId) == o.(items := [r.0] + o.items)
  {
    hide ReadItem, ReadHead;
  }

  // ---- anything at all ----

  /** What is appended is a prefix of the records that can be parsed, and the
      import succeeds exactly when all of them are there, hold data and fit. */
  lemma {:induction false} ImportIsPrefix(version: nat, n: nat, s: Bytes, limit: int, used: nat, maxId: nat)
    requires Fits(limit, used)
    ensures var o, all := ImportItems(version, n, s, limit, used, maxId), Parsed(version, n, s);
            && o.items <= all
            && Fits(limit, used + Sizes(o.items))
            && (o.status == Ok <==> |all| == n && HaveData(all) && Fits(limit, used + Sizes(all)))
            && (o.status == Ok ==> o.items == all)
    decreases n
  {
    hide ReadHead, ReadItem, ImportItems, HaveData, Sizes, HeadSize, Parsed;
    ParsedTells(version, n, s);
    NoSizes();
    if n == 0 {
      ImportNone(version, s, limit, used, maxId);
    } else if ReadItem(version, s).Some? {
      ReadTells(version, s);
      var r, size := ReadItem(version, s).value, ReadHead(version, s).size;
      var rest := Parsed(version, n - 1, r.2);
      HaveDataCons(r.0, rest);
      SizesCons(r.0, rest);
      if Fits(limit, used + size) && size > 0 {
        ImportIsPrefix(version, n - 1, r.2, limit, used + size, Max(maxId, r.1));
        ImportStep(version, n, s, limit, used, maxId);
        SizesCons(r.0, ImportItems(version, n - 1, r.2, limit, used + size, Max(maxId, r.1)).items);
      } else {
        ImportRefused(version, n, s, limit, used, maxId);
      }
    } else {
      ImportShort(version, n, s, limit, used, maxId);
    }
  }

  lemma {:induction false} ImportNone(version: nat, s: Bytes, limit: int, used: nat, maxId: nat)
    ensures ImportItems(version, 0, s, limit, used, maxId) == Outcome([], Ok, maxId)
    ensures HaveData([])
  {
    hide ReadHead, ReadItem;
  }

  lemma {:induction false} ParsedTells(version: nat, n: nat, s: Bytes)
    ensures n == 0 || ReadItem(version, s).None? ==> Parsed(version, n, s) == []
    ensures n > 0 && ReadItem(version, s).Some? ==>
              var r := ReadItem(version, s).value;
              Parsed(version, n, s) == [r.0] + Parsed(version, n - 1, r.2)
  {
    hide ReadItem;
  }

  lemma NoSizes()
    ensures Sizes([]) == 0
  {
  }

  lemma {:induction false} ReadTells(version: nat, s: Bytes)
    requires ReadItem(version, s).Some?
    ensures |s| >= HeadSize(version) && ReadHead(version, s).keyLen <= |s[HeadSize(version)..]|
    ensures |ReadItem(version, s).value.0.data| == ReadHead(version, s).size
  {
    hide ReadHead, CString, Signed;
  }

  lemma {:induction false} ImportRefused(version: nat, n: nat, s: Bytes, limit: int, used: nat, maxId: nat)
    requires n > 0 && ReadItem(version, s).Some?
    requires |s| >= HeadSize(version) && ReadHead(version, s).keyLen <= |s[HeadSize(version)..]|
    requires ReadHead(version, s).size == 0 || !Fits(limit, used + ReadHead(version, s).size)
    ensures ImportItems(version, n, s, limit, used, maxId) == Outcome([], DropError, maxId)
  {
    hide ReadItem, ReadHead;
  }

  lemma {:induction false} ImportShort(version: nat, n: nat, s: Bytes, limit: int, used: nat, maxId: nat)
    requires n > 0 && ReadItem(version, s).None?
    ensures var o := ImportItems(version, n, s, limit, used, maxId);
            o.items == [] && o.status != Ok
  {
    hide ReadHead;
  }

  lemma {:induction false} SizesCons(it: Item, rest: seq<Item>)
    ensures Sizes([it] + rest) == |it.data| + Sizes(rest)
  {
    assert ([it] + rest)[1..] == rest;
  }

  lemma HaveDataCons(it: Item, rest: seq<Item>)
    ensures HaveData([it] + rest) <==> it.data != [] && HaveData(rest)
  {
    assert forall i :: 1 <= i < |rest| + 1 ==> ([it] + rest)[i] == rest[i - 1];
    assert ([it] + rest)[0] == it;
    if HaveData([it] + rest) {
      forall i | 0 <= i < |rest| ensures rest[i].data != [] {
        assert ([it] + rest)[i + 1].data != [];
      }
    }
  }

  // ---- the next id ----

  /** A fresh producer ends up with the exporting producer's next id exactly when
      every id was below it, or one of them was -1 (which wraps the successor of
      the largest id), or the ids are too large to count on and nothing is advanced. */
  lemma NextIdRebuilt(items: seq<Item>, nextId: int)
    requires AllTyped(items) && 1 <= nextId < HALF
    ensures var m := LargestId(items, StartId(1));
            Advanced(1, DesiredNext(m, Unsigned(nextId))) == nextId <==>
              (m < nextId || m == WORD - 1 || (m + 1 >= HALF && nextId == 1))
  {
    LargestIdBound(items, StartId(1));
  }

  lemma {:induction false} LargestIdBound(items: seq<Item>, maxId: nat)
    requires AllTyped(items) && maxId < WORD
    ensures maxId <= LargestId(items, maxId) < WORD
    ensures forall i :: 0 <= i < |items| ==> Unsigned(items[i].id) <= LargestId(items, maxId)
  {
    if items != [] {
      LargestIdBound(items[1..], Max(maxId, Unsigned(items[0].id)));
      assert forall i :: 1 <= i < |items| ==> items[i] == items[1..][i - 1];
    }
  }

  lemma {:induction false} LargestIdBelow(items: seq<Item>, maxId: nat, bound: nat)
    requires AllTyped(items) && maxId < bound
    requires forall i :: 0 <= i < |items| ==> 0 <= items[i].id < bound
    ensures LargestId(items, maxId) < bound
  {
    if items != [] {
      LargestIdBelow(items[1..], Max(maxId, Unsigned(items[0].id)), bound);
    }
  }

  /** Ids that were handed out before the next one: everything comes back, and
      printing again gives the same bytes. */
  lemma {:induction false} SnapshotRoundTrip(items: seq<Item>, nextId: int, limit: int)
    requires AllTyped(items) && 1 <= nextId < HALF
    requires forall i :: 0 <= i < |items| ==> 0 <= items[i].id < nextId
    requires forall i :: 0 <= i < |items| ==> Stored(items[i]) == items[i] && items[i].data != []
    requires Fits(limit, Sizes(items))
    ensures var o := ImportItems(3, |items|, PrintItems(items), limit, 0, StartId(1));
            var next := Advanced(1, DesiredNext(o.maxId, Unsigned(nextId)));
            && o.items == items && o.status == Ok && next == nextId
            && Print(o.items, next) == Print(items, nextId)
  {
    assert StoredAll(items) == items;
    ItemsRoundTrip(items, [], limit, 0, StartId(1));
    assert PrintItems(items) + [] == PrintItems(items);
    LargestIdBelow(items, StartId(1), nextId);
    NextIdRebuilt(items, nextId);
    hide PrintItems, ImportItems, Print;
  }
}
