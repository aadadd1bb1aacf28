/** The canonical form of a query string, and when two queries share it. */
module QuerySpec {
  import opened Basics

  const AMP: Byte := 0x26
  const EQUALS: Byte := 0x3D
  const PERCENT: Byte := 0x25

  // ---- percent-encoding ----

  /** Section 2.3 of RFC 3986: letters, digits, '-', '.', '_' and '~'. */
  predicate Unreserved(c: Byte) {
    || 0x41 <= c <= 0x5A || 0x61 <= c <= 0x7A || 0x30 <= c <= 0x39
    || c == 0x2D || c == 0x2E || c == 0x5F || c == 0x7E
  }

  /** An upper-case hexadecimal digit, and its value. */
  function Digit(v: nat): (c: Byte)
    requires v < 16
    ensures Unreserved(c)
  {
    if v < 10 then 0x30 + v else 0x41 + v - 10
  }

  function DigitValue(c: Byte): nat {
    if 0x30 <= c <= 0x39 then c - 0x30 else if 0x41 <= c <= 0x46 then c - 0x41 + 10 else 0
  }

  /** Section 2.1 of RFC 3986: a percent sign and two digits for everything that is not unreserved. */
  function EncodeByte(c: Byte): (s: Bytes) {
    if Unreserved(c) then [c] else [PERCENT, Digit(c / 16), Digit(c % 16)]
  }

  function Encode(s: Bytes): Bytes {
    if s == [] then [] else EncodeByte(s[0]) + Encode(s[1..])
  }

  function Decode(s: Bytes): Bytes {
    if s == [] then []
    else if s[0] == PERCENT && |s| >= 3 then
      [(16 * DigitValue(s[1]) + DigitValue(s[2])) % 256] + Decode(s[3..])
    else [s[0]] + Decode(s[1..])
  }

  lemma ByteRoundTrip(c: Byte, tail: Bytes)
    ensures Decode(EncodeByte(c) + tail) == [c] + Decode(tail)
  {
    var s := EncodeByte(c) + tail;
    if Unreserved(c) {
      assert s[1..] == tail;
    } else {
      assert s[3..] == tail;
      assert DigitValue(Digit(c / 16)) == c / 16 && DigitValue(Digit(c % 16)) == c % 16;
    }
  }

  /** The bytes that encode to themselves, one by one; any other becomes a percent
      sign and its two upper-case hexadecimal digits. */
  lemma EncodedBytes(c: Byte)
    ensures Encode([c]) == [c] <==>
              || (c as char) in "ABCDEFGHIJKLMNOPQRSTUVWXYZ"
              || (c as char) in "abcdefghijklmnopqrstuvwxyz"
              || (c as char) in "0123456789-._~"
    ensures Encode([c]) != [c] ==>
              Encode([c]) == ['%' as int, "0123456789ABCDEF"[c / 16] as int, "0123456789ABCDEF"[c % 16] as int]
  {
    hide Encode, Digit, Unreserved;
    EncodeOne(c);
    UpperListed(c);
    LowerListed(c);
    UnreservedListed(c);
    DigitIs(c / 16);
    DigitIs(c % 16);
  }

  lemma UpperListed(c: Byte)
    ensures 0x41 <= c <= 0x5A <==> (c as char) in "ABCDEFGHIJKLMNOPQRSTUVWXYZ"
  {
  }

  lemma LowerListed(c: Byte)
    ensures 0x61 <= c <= 0x7A <==> (c as char) in "abcdefghijklmnopqrstuvwxyz"
  {
  }

  lemma UnreservedListed(c: Byte)
    ensures Unreserved(c) <==> 0x41 <= c <= 0x5A || 0x61 <= c <= 0x7A || (c as char) in "0123456789-._~"
  {
  }

  lemma EncodeOne(c: Byte)
    ensures Encode([c]) == EncodeByte(c)
  {
    assert [c][1..] == [];
  }

  lemma DigitIs(v: nat)
    requires v < 16
    ensures Digit(v) == "0123456789ABCDEF"[v] as int
  {
  }

  lemma {:induction false} EncodeConcat(s: Bytes, t: Bytes)
    ensures Encode(s + t) == Encode(s) + Encode(t)
  {
    if s == [] {
      assert s + t == t;
    } else {
      assert (s + t)[1..] == s[1..] + t;
      EncodeConcat(s[1..], t);
    }
  }

  /** Percent-encoding can be undone, so different texts have different encodings. */
  lemma {:induction false} EncodeRoundTrip(s: Bytes)
    ensures Decode(Encode(s)) == s
  {
    if s != [] {
      ByteRoundTrip(s[0], Encode(s[1..]));
      EncodeRoundTrip(s[1..]);
    }
  }

  lemma EncodeInjective(s: Bytes, t: Bytes)
    ensures Encode(s) == Encode(t) <==> s == t
  {
    EncodeRoundTrip(s);
    EncodeRoundTrip(t);
  }

  /** Only unreserved characters and percent signs are left. */
  predicate Clean(s: Bytes) {
    forall i :: 0 <= i < |s| ==> Unreserved(s[i]) || s[i] == PERCENT
  }

  lemma {:induction false} EncodeClean(s: Bytes)
    ensures Clean(Encode(s))
  {
    if s != [] {
      EncodeClean(s[1..]);
    }
  }

  predicate AllUnreserved(s: Bytes) {
    forall i :: 0 <= i < |s| ==> Unreserved(s[i])
  }

  /** Text that needs no escape encodes to itself, and only such text does. */
  lemma {:induction false} EncodeSame(s: Bytes)
    ensures AllUnreserved(s) ==> Encode(s) == s
    ensures Encode(s) == s ==> AllUnreserved(s)
    ensures |Encode(s)| >= |s|
  {
    if s != [] {
      EncodeSame(s[1..]);
      if AllUnreserved(s) {
        assert AllUnreserved(s[1..]);
      }
      if !Unreserved(s[0]) {
        assert |Encode(s)| == 3 + |Encode(s[1..])|;
      } else if Encode(s) == s {
        assert Encode(s)[1..] == Encode(s[1..]);
        assert forall i :: 1 <= i < |s| ==> s[i] == s[1..][i - 1];
      }
    }
  }

  // ---- splitting ----

  /** The position of the first `c`, or the length. */
  function Find(s: Bytes, c: Byte): (i: nat)
    ensures i <= |s|
    ensures forall j :: 0 <= j < i ==> s[j] != c
    ensures i < |s| ==> s[i] == c
  {
    if s == [] || s[0] == c then 0 else 1 + Find(s[1..], c)
  }

  lemma {:induction false} FindAt(s: Bytes, c: Byte, i: nat)
    requires i <= |s| && (forall j :: 0 <= j < i ==> s[j] != c) && (i < |s| ==> s[i] == c)
    ensures Find(s, c) == i
  {
    if i > 0 {
      assert s[0] != c;
      FindAt(s[1..], c, i - 1);
    }
  }

  datatype Pair = Pair(key: Bytes, value: Bytes)

  /** Key and value are separated by the first '='; without one the value is empty. */
  function PairOf(s: Bytes): Pair {
    var e := Find(s, EQUALS);
    Pair(s[..e], if e < |s| then s[e + 1..] else [])
  }

  /** The pairs of a query. A last '&' opens no pair; two in a row hold an empty one. */
  function Pairs(s: Bytes): seq<Pair>
    decreases |s|
  {
    if s == [] then []
    else
      var a := Find(s, AMP);
      [PairOf(s[..a])] + (if a < |s| then Pairs(s[a + 1..]) else [])
  }

  function EncodePair(p: Pair): Pair {
    Pair(Encode(p.key), Encode(p.value))
  }

  function DecodePair(p: Pair): Pair {
    Pair(Decode(p.key), Decode(p.value))
  }

  function EncodePairs(ps: seq<Pair>): (r: seq<Pair>)
    ensures |r| == |ps|
  {
    if ps == [] then [] else [EncodePair(ps[0])] + EncodePairs(ps[1..])
  }

  // ---- order ----

  /** As `strcmp` compares: byte by byte, a prefix first. */
  function Compare(s: Bytes, t: Bytes): int {
    if s == [] then (if t == [] then 0 else -1)
    else if t == [] then 1
    else if s[0] != t[0] then (if s[0] < t[0] then -1 else 1)
    else Compare(s[1..], t[1..])
  }

  lemma {:induction false} CompareEqual(s: Bytes, t: Bytes)
    ensures Compare(s, t) == 0 <==> s == t
    ensures Compare(s, t) == -Compare(t, s)
  {
    if s != [] && t != [] {
      CompareEqual(s[1..], t[1..]);
      assert s == [s[0]] + s[1..] && t == [t[0]] + t[1..];
    }
  }

  /** The order of dictionaries, by positions: up to some position both are the
      same, and there the first one ends or holds the smaller byte. */
  predicate Before(s: Bytes, t: Bytes) {
    exists i :: 0 <= i <= |s| && i < |t| && s[..i] == t[..i] && (i == |s| || s[i] < t[i])
  }

  /** At the first difference, the text that ends or holds the smaller byte comes first. */
  lemma {:induction false} CompareAtDifference(s: Bytes, t: Bytes, i: nat)
    requires i <= |s| && i <= |t| && s[..i] == t[..i]
    requires if i < |s| && i < |t| then s[i] != t[i] else i < |s| || i < |t|
    ensures Compare(s, t) < 0 <==> i == |s| || (i < |t| && s[i] < t[i])
    ensures Compare(s, t) != 0
  {
    if i > 0 {
      assert s[0] == s[..i][0] == t[..i][0] == t[0];
      assert s[1..][..i - 1] == s[..i][1..] && t[1..][..i - 1] == t[..i][1..];
      CompareAtDifference(s[1..], t[1..], i - 1);
    }
  }

  lemma {:induction false} FirstDifference(s: Bytes, t: Bytes) returns (i: nat)
    requires s != t
    ensures i <= |s| && i <= |t| && s[..i] == t[..i]
    ensures if i < |s| && i < |t| then s[i] != t[i] else i < |s| || i < |t|
  {
    i := 0;
    while i < |s| && i < |t| && s[i] == t[i]
      invariant i <= |s| && i <= |t| && s[..i] == t[..i]
    {
      i := i + 1;
    }
    assert s[..|s|] == s && t[..|t|] == t;
  }

  /** `strcmp` decides the order of dictionaries. */
  lemma CompareIsBefore(s: Bytes, t: Bytes)
    ensures Compare(s, t) < 0 <==> Before(s, t)
    ensures Compare(s, t) > 0 <==> Before(t, s)
  {
    CompareEqual(s, t);
    BeforeIsLess(s, t);
    BeforeIsLess(t, s);
  }

  lemma BeforeIsLess(s: Bytes, t: Bytes)
    ensures Compare(s, t) < 0 <==> Before(s, t)
  {
    hide Compare;
    CompareEqual(s, t);
    if s != t {
      var i := FirstDifference(s, t);
      CompareAtDifference(s, t, i);
      if Before(s, t) {
        var j :| 0 <= j <= |s| && j < |t| && s[..j] == t[..j] && (j == |s| || s[j] < t[j]);
        CompareAtDifference(s, t, j);
      }
    }
  }

  /** Keys first, then values. */
  predicate PairBefore(p: Pair, q: Pair) {
    Before(p.key, q.key) || (p.key == q.key && Before(p.value, q.value))
  }

  lemma OrderedIsBefore(p: Pair, q: Pair)
    ensures Ordered(p, q) <==> p == q || PairBefore(p, q)
  {
    hide Compare, Before;
    CompareEqual(p.key, q.key);
    CompareEqual(p.value, q.value);
    CompareIsBefore(p.key, q.key);
    CompareIsBefore(p.value, q.value);
    CompareIsBefore(p.key, p.key);
  }

  lemma {:induction false} CompareTransitive(s: Bytes, t: Bytes, u: Bytes)
    ensures Compare(s, t) <= 0 && Compare(t, u) <= 0 ==> Compare(s, u) <= 0
    ensures Compare(s, t) < 0 && Compare(t, u) <= 0 ==> Compare(s, u) < 0
    ensures Compare(s, t) <= 0 && Compare(t, u) < 0 ==> Compare(s, u) < 0
  {
    if s != [] && t != [] && u != [] {
      CompareTransitive(s[1..], t[1..], u[1..]);
    }
  }

  function ComparePairs(p: Pair, q: Pair): int {
    var c := Compare(p.key, q.key);
    if c != 0 then c else Compare(p.value, q.value)
  }

  predicate Ordered(p: Pair, q: Pair) {
    ComparePairs(p, q) <= 0
  }

  lemma OrderedTotal(p: Pair, q: Pair)
    ensures Ordered(p, q) || Ordered(q, p)
    ensures Ordered(p, q) && Ordered(q, p) ==> p == q
    ensures Ordered(p, p)
  {
    hide Compare;
    CompareEqual(p.key, q.key);
    CompareEqual(p.value, q.value);
    CompareEqual(p.key, p.key);
    CompareEqual(p.value, p.value);
  }

  lemma OrderedTransitive(p: Pair, q: Pair, r: Pair)
    requires Ordered(p, q) && Ordered(q, r)
    ensures Ordered(p, r)
  {
    hide Compare;
    CompareEqual(p.key, q.key);
    CompareEqual(q.key, r.key);
    CompareTransitive(p.key, q.key, r.key);
    CompareTransitive(p.value, q.value, r.value);
  }

  predicate Sorted(ps: seq<Pair>) {
    forall i, j :: 0 <= i < j < |ps| ==> Ordered(ps[i], ps[j])
  }

  /** Behind everything that is not larger. */
  function Insert(ps: seq<Pair>, p: Pair): seq<Pair> {
    if ps == [] then [p]
    else if Ordered(ps[|ps| - 1], p) then ps + [p]
    else Insert(ps[..|ps| - 1], p) + [ps[|ps| - 1]]
  }

  function Sort(ps: seq<Pair>): seq<Pair> {
    if ps == [] then [] else Insert(Sort(ps[..|ps| - 1]), ps[|ps| - 1])
  }

  // ---- the canonical form ----

  function JoinPair(p: Pair): Bytes {
    p.key + [EQUALS] + p.value
  }

  function Join(ps: seq<Pair>): Bytes {
    if ps == [] then []
    else if |ps| == 1 then JoinPair(ps[0])
    else JoinPair(ps[0]) + [AMP] + Join(ps[1..])
  }

  /** Split, encode, sort, join. */
  function Canonical(query: Bytes): Bytes {
    Join(Sort(EncodePairs(Pairs(query))))
  }
}
