/** The snapshot format of the raw buffer: what is printed, and what reading it back gives. */
module SnapshotSpec {
  import opened Basics
  import opened Endian

  /** One queued record. An empty key stands for no key. */
  datatype Item = Item(id: int, timeMs: int, hasNs: bool, timeNs: nat, key: Bytes, data: Bytes)

  datatype Status = Ok | Invalid | DropError

  const HALF: nat := 0x8000_0000_0000_0000

  predicate Signed64(x: int) {
    -(HALF as int) <= x < HALF
  }

  /** The fields hold values of their C types. */
  predicate Typed(it: Item) {
    Signed64(it.id) && Signed64(it.timeMs) && it.timeNs < WORD32
  }

  // ---- integers ----

  /** The casts between the signed and the unsigned 64-bit type. */
  function Unsigned(x: int): (u: nat)
    requires Signed64(x)
    ensures u < WORD
  {
    if x < 0 then x + WORD else x
  }

  function Signed(u: nat): (x: int)
    requires u < WORD
    ensures Signed64(x)
  {
    if u >= HALF then u - WORD else u
  }

  // ---- printing ----

  /** Lengths are cut to 32 bits, and the text and data with them. */
  function Cut(s: Bytes): Bytes {
    s[..|s| % WORD32]
  }

  function PrintHead(it: Item): Bytes
    requires Typed(it)
  {
    Little(Unsigned(it.id), 8) + Little(Unsigned(it.timeMs), 8) + [if it.hasNs then 1 else 0]
    + Little(it.timeNs, 4) + Little(|Cut(it.key)|, 4) + Little(|Cut(it.data)|, 4)
  }

  function PrintItem(it: Item): Bytes
    requires Typed(it)
  {
    PrintHead(it) + Cut(it.key) + Cut(it.data)
  }

  predicate AllTyped(items: seq<Item>) {
    forall i :: 0 <= i < |items| ==> Typed(items[i])
  }

  function PrintItems(items: seq<Item>): Bytes
    requires AllTyped(items)
  {
    if items == [] then [] else PrintItem(items[0]) + PrintItems(items[1..])
  }

  const MAGIC: Bytes := [0x56, 0x54, 0x4C, 0x53]

  function PrintHeader(version: nat, count: nat, nextId: int): Bytes
    requires Signed64(nextId)
  {
    MAGIC + Little(version, 4) + Little(count, 4) + Little(Unsigned(nextId), 8)
  }

  function Print(items: seq<Item>, nextId: int): Bytes
    requires AllTyped(items) && Signed64(nextId)
  {
    PrintHeader(3, |items|, nextId) + PrintItems(items)
  }

  // ---- reading ----

  /** The fixed part of a record; version 1 has no key length. */
  datatype Head = Head(id: nat, timeMs: nat, hasNs: bool, timeNs: nat, keyLen: nat, size: nat)

  function HeadSize(version: nat): nat {
    if version >= 2 then 29 else 25
  }

  function ReadHead(version: nat, s: Bytes): Head
    requires |s| >= HeadSize(version)
  {
    Head(FromLittle(s[..8]), FromLittle(s[8..16]), s[16] != 0, FromLittle(s[17..21]),
         if version >= 2 then FromLittle(s[21..25]) else 0,
         if version >= 2 then FromLittle(s[25..29]) else FromLittle(s[21..25]))
  }

  /** A C string ends at its first zero byte. */
  function CString(s: Bytes): Bytes {
    if s == [] || s[0] == 0 then [] else [s[0]] + CString(s[1..])
  }

  function ItemOf(h: Head, key: Bytes, data: Bytes): (it: Item)
    requires h.id < WORD && h.timeMs < WORD
  {
    Item(Signed(h.id), Signed(h.timeMs), h.hasNs, h.timeNs, CString(key), data)
  }

  lemma HeadBounds(version: nat, s: Bytes)
    requires |s| >= HeadSize(version)
    ensures ReadHead(version, s).id < WORD && ReadHead(version, s).timeMs < WORD
    ensures ReadHead(version, s).timeNs < WORD32 && ReadHead(version, s).size < WORD32
  {
    Powers();
    FromLittleBound(s[..8]);
    FromLittleBound(s[8..16]);
    FromLittleBound(s[17..21]);
    FromLittleBound(s[21..25]);
    if version >= 2 {
      FromLittleBound(s[25..29]);
    }
  }

  /** The record at the front of `s`, when it is there in full, and what follows it. */
  function ReadItem(version: nat, s: Bytes): (r: Option<(Item, nat, Bytes)>)
    ensures r.Some? ==> |r.value.2| < |s|
  {
    if |s| < HeadSize(version) then None
    else
      HeadBounds(version, s);
      var h, rest := ReadHead(version, s), s[HeadSize(version)..];
      if |rest| < h.keyLen || |rest| - h.keyLen < h.size then None
      else
        var it := ItemOf(h, rest[..h.keyLen], rest[h.keyLen..h.keyLen + h.size]);
        Some((it, h.id, rest[h.keyLen + h.size..]))
  }

  /** All records that are there in full, at most `n`. */
  function Parsed(version: nat, n: nat, s: Bytes): seq<Item> {
    if n == 0 then []
    else
      match ReadItem(version, s)
      case None => []
      case Some(r) => [r.0] + Parsed(version, n - 1, r.2)
  }

  function Sizes(items: seq<Item>): nat {
    if items == [] then 0 else |items[0].data| + Sizes(items[1..])
  }

  predicate Fits(limit: int, bytes: nat) {
    limit <= 0 || bytes <= limit
  }

  /** What an import appends, how it ends, and the largest id seen. */
  datatype Outcome = Outcome(items: seq<Item>, status: Status, maxId: nat)

  /** Record by record: a record that is not there in full ends the import as
      invalid, one that breaks the limit or holds no data ends it with a drop.
      The limit is looked at before it is known whether the data is there. */
  function ImportItems(version: nat, n: nat, s: Bytes, limit: int, used: nat, maxId: nat): Outcome {
    if n == 0 then Outcome([], Ok, maxId)
    else if |s| < HeadSize(version) then Outcome([], Invalid, maxId)
    else
      var h, rest := ReadHead(version, s), s[HeadSize(version)..];
      if |rest| < h.keyLen then Outcome([], Invalid, maxId)
      else if !Fits(limit, used + h.size) then Outcome([], DropError, maxId)
      else
        match ReadItem(version, s)
        case None => Outcome([], Invalid, maxId)
        case Some(r) =>
          if h.size == 0 then Outcome([], DropError, maxId)
          else
            var o := ImportItems(version, n - 1, r.2, limit, used + h.size, Max(maxId, r.1));
            o.(items := [r.0] + o.items)
  }

  // ---- the next id ----

  /** One more than the largest id seen, or the id in the header when that is
      larger, all in unsigned 64-bit arithmetic. */
  function DesiredNext(maxId: nat, headerNext: nat): nat {
    var next := if maxId + 1 == WORD then 0 else maxId + 1;
    if headerNext > next then headerNext else next
  }

  /** The id only ever advances, and not at all when the wish is no signed value. */
  function Advanced(current: int, desired: nat): int {
    if 0 < desired < HALF && current < desired then desired else current
  }

  function StartId(current: int): nat {
    if current > 0 then current - 1 else 0
  }
}
