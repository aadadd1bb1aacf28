/** The query normaliser as the code runs it: a shortcut, cursors over the text,
    and an insertion sort in place. */
module Query {
  import opened Basics
  import opened QuerySpec
  import QueryLaws
  import Builder

  /** `strcmp`: negative when the first text comes before the second in the order
      of dictionaries, positive the other way round, zero for equal texts. */
  method StrCmp(s: Bytes, t: Bytes) returns (c: int)
    ensures c == Compare(s, t)
    ensures c < 0 <==> Before(s, t)
    ensures c > 0 <==> Before(t, s)
    ensures c == 0 <==> s == t
  {
    hide Before;
    CompareIsBefore(s, t);
    CompareEqual(s, t);
    var i := 0;
    assert s[0..] == s && t[0..] == t;
    while i < |s| && i < |t| && s[i] == t[i]
      invariant 0 <= i <= |s| && i <= |t|
      invariant Compare(s[i..], t[i..]) == Compare(s, t)
    {
      assert s[i..][1..] == s[i + 1..] && t[i..][1..] == t[i + 1..];
      i := i + 1;
    }
    if i == |s| {
      c := if i == |t| then 0 else -1;
    } else if i == |t| {
      c := 1;
    } else {
      c := if s[i] < t[i] then -1 else 1;
    }
  }

  // ---- percent-encoding ----

  /** Counts the bytes to escape, so that the encoding fits its buffer exactly. */
  method CountEscapes(s: Bytes) returns (n: nat)
    ensures |s| + 2 * n == |Encode(s)|
  {
    n := 0;
    var i := 0;
    assert s[0..] == s;
    while i < |s|
      invariant 0 <= i <= |s| && i + 2 * n + |Encode(s[i..])| == |Encode(s)|
    {
      assert s[i..][1..] == s[i + 1..];
      if !Unreserved(s[i]) {
        n := n + 1;
      }
      i := i + 1;
    }
  }

  method UrlEncodeSpan(s: Bytes) returns (r: Bytes)
    ensures r == Encode(s)
  {
    hide Encode, Unreserved, Digit;
    var hexCount := CountEscapes(s);
    var out := new Byte[|s| + hexCount * 2](_ => 0);
    var i, j := 0, 0;
    assert s[0..] == s && [] + Encode(s) == Encode(s);
    while i < |s|
      invariant 0 <= i <= |s| && 0 <= j <= out.Length && j + |Encode(s[i..])| == out.Length
      invariant out[..j] + Encode(s[i..]) == Encode(s)
    {
      EncodeFirst(s, i);
      var c := s[i];
      if !Unreserved(c) {
        j := Builder.PutBlock(out, j, [PERCENT, Digit(c / 16), Digit(c % 16)]);
      } else {
        j := Builder.PutByte(out, j, c);
      }
      i := i + 1;
    }
    NothingEncoded();
    assert s[i..] == [] && out[..j] + [] == out[..j];
    r := out[..j];
  }

  lemma NothingEncoded()
    ensures Encode([]) == []
  {
  }

  lemma EncodeFirst(s: Bytes, i: nat)
    requires i < |s|
    ensures Encode(s[i..]) == EncodeByte(s[i]) + Encode(s[i + 1..])
  {
    assert s[i..][1..] == s[i + 1..];
  }

  // ---- sorting in place ----

  method CompareKeyThenValue(p: Pair, q: Pair) returns (c: int)
    ensures c == ComparePairs(p, q)
  {
    c := StrCmp(p.key, q.key);
    if c == 0 {
      c := StrCmp(p.value, q.value);
    }
  }

  /** What `qsort` of the C library promises with this comparison. */
  ghost predicate Sorts(qsort: seq<Pair> -> seq<Pair>) {
    forall ps: seq<Pair> :: Sorted(qsort(ps)) && multiset(qsort(ps)) == multiset(ps)
  }

  /** Up to sixteen pairs are sorted by insertion, more by the C library. Both
      give the one sorted list there is. */
  method PairSort(pairs: array<Pair>, qsort: seq<Pair> -> seq<Pair>)
    requires Sorts(qsort)
    modifies pairs
    ensures pairs[..] == Sort(old(pairs[..]))
    ensures QueryLaws.InDictionaryOrder(pairs[..]) && multiset(pairs[..]) == multiset(old(pairs[..]))
  {
    hide Sort, Sorted, QueryLaws.InDictionaryOrder;
    QueryLaws.SortKeeps(pairs[..]);
    QueryLaws.SortedInOrder(Sort(pairs[..]));
    if pairs.Length <= 1 {
      OneSorted(pairs[..]);
    } else if pairs.Length <= 16 {
      InsertionSort(pairs);
    } else {
      var sorted := qsort(pairs[..]);
      SortedAlike(pairs[..], sorted);
      forall i | 0 <= i < pairs.Length {
        pairs[i] := sorted[i];
      }
      assert pairs[..] == sorted;
    }
  }

  lemma OneSorted(ps: seq<Pair>)
    requires |ps| <= 1
    ensures Sort(ps) == ps
  {
  }

  lemma SortedAlike(ps: seq<Pair>, sorted: seq<Pair>)
    requires Sorted(sorted) && multiset(sorted) == multiset(ps)
    ensures sorted == Sort(ps) && |sorted| == |ps|
  {
    hide Sort, Sorted;
    QueryLaws.SortKeeps(ps);
    QueryLaws.SortedUnique(sorted, Sort(ps));
    assert |multiset(sorted)| == |sorted| && |multiset(ps)| == |ps|;
  }

  /** Insertion sort: larger pairs move up by one until the place for the next one is found. */
  method InsertionSort(pairs: array<Pair>)
    modifies pairs
    ensures pairs[..] == Sort(old(pairs[..]))
  {
    hide Sort, Insert, ComparePairs;
    ghost var all := pairs[..];
    var i := 0;
    NothingSorted();
    assert pairs[..0] == [] && all[..0] == [];
    while i < pairs.Length
      invariant 0 <= i <= pairs.Length
      invariant pairs[..i] == Sort(all[..i]) && pairs[i..] == all[i..]
    {
      SortStep(all, i);
      assert pairs[i..][0] == all[i];
      InsertAt(pairs, i);
      assert pairs[i + 1..] == all[i + 1..];
      i := i + 1;
    }
    assert all[..i] == all;
  }

  lemma NothingSorted()
    ensures Sort([]) == []
  {
  }

  lemma SortStep(all: seq<Pair>, i: nat)
    requires i < |all|
    ensures Sort(all[..i + 1]) == Insert(Sort(all[..i]), all[i])
  {
    hide Insert;
    assert all[..i + 1][..i] == all[..i];
  }

  /** Puts the pair at `i` into its place among those before it. */
  method InsertAt(pairs: array<Pair>, i: nat)
    requires i < pairs.Length
    modifies pairs
    ensures pairs[..i + 1] == Insert(old(pairs[..i]), old(pairs[i]))
    ensures forall k :: i < k < pairs.Length ==> pairs[k] == old(pairs[k])
  {
    hide Insert, ComparePairs;
    var cur := pairs[i];
    ghost var before := pairs[..i];
    var j := i;
    assert before[..i] == before;
    while j > 0
      invariant 0 <= j <= i
      invariant forall k :: 0 <= k < j ==> pairs[k] == before[k]
      invariant forall k :: j < k <= i ==> pairs[k] == before[k - 1]
      invariant forall k :: i < k < pairs.Length ==> pairs[k] == old(pairs[k])
      invariant Insert(before, cur) == Insert(before[..j], cur) + before[j..]
    {
      InsertStep(before, j, cur);
      var c := CompareKeyThenValue(pairs[j - 1], cur);
      if c <= 0 {
        break;
      }
      pairs[j] := pairs[j - 1];
      j := j - 1;
    }
    InsertHere(before, j, cur);
    pairs[j] := cur;
    Assemble(pairs[..i + 1], before, j, cur);
  }

  lemma InsertStep(ps: seq<Pair>, j: nat, p: Pair)
    requires 0 < j <= |ps|
    ensures Ordered(ps[j - 1], p) ==> Insert(ps[..j], p) == ps[..j] + [p]
    ensures !Ordered(ps[j - 1], p) ==>
              Insert(ps[..j], p) + ps[j..] == Insert(ps[..j - 1], p) + ps[j - 1..]
  {
    hide Ordered;
    assert ps[..j][..j - 1] == ps[..j - 1];
    assert [ps[j - 1]] + ps[j..] == ps[j - 1..];
  }

  lemma InsertHere(ps: seq<Pair>, j: nat, p: Pair)
    requires j <= |ps| && (j > 0 ==> Ordered(ps[j - 1], p))
    ensures Insert(ps[..j], p) == ps[..j] + [p]
  {
    hide Ordered;
  }

  lemma Assemble(r: seq<Pair>, ps: seq<Pair>, j: nat, p: Pair)
    requires j <= |ps| && |r| == |ps| + 1 && r[j] == p
    requires forall k :: 0 <= k < j ==> r[k] == ps[k]
    requires forall k :: j < k <= |ps| ==> r[k] == ps[k - 1]
    ensures r == ps[..j] + [p] + ps[j..]
  {
  }

  // ---- the normaliser ----

  /** One pair: its key up to the first '=', its value behind it. */
  method EncodeSegment(segment: Bytes) returns (p: Pair)
    ensures p == EncodePair(PairOf(segment))
  {
    hide Encode;
    var e := Find(segment, EQUALS);
    var k := UrlEncodeSpan(segment[..e]);
    var v := UrlEncodeSpan(if e < |segment| then segment[e + 1..] else []);
    p := Pair(k, v);
  }

  /** Encodes the pairs between the '&'s, with cursors into the query. */
  method SplitAndEncode(query: Bytes) returns (pairs: seq<Pair>)
    ensures pairs == EncodePairs(Pairs(query))
  {
    hide Pairs, EncodePairs, EncodePair, Find, PairOf;
    pairs := [];
    var p := 0;
    assert query[0..] == query;
    assert [] + EncodePairs(Pairs(query)) == EncodePairs(Pairs(query));
    while p < |query|
      invariant 0 <= p <= |query|
      invariant pairs + EncodePairs(Pairs(query[p..])) == EncodePairs(Pairs(query))
    {
      PairsStep(query, p);
      var end := p + Find(query[p..], AMP);
      SegmentIs(query, p, Find(query[p..], AMP));
      var pair := EncodeSegment(query[p..end]);
      pairs := pairs + [pair];
      p := if end < |query| then end + 1 else end;
    }
    NoPairsLeft();
    assert query[p..] == [];
    assert pairs + [] == pairs;
  }

  lemma SegmentIs(s: Bytes, p: nat, a: nat)
    requires p + a <= |s|
    ensures s[p..][..a] == s[p..p + a]
  {
  }

  lemma NoPairsLeft()
    ensures EncodePairs(Pairs([])) == []
  {
  }

  lemma PairsStep(query: Bytes, p: nat)
    requires p < |query|
    ensures var end := p + Find(query[p..], AMP);
            var next := if end < |query| then end + 1 else end;
            EncodePairs(Pairs(query[p..])) ==
            [EncodePair(PairOf(query[p..][..Find(query[p..], AMP)]))] + EncodePairs(Pairs(query[next..]))
  {
    hide EncodePair, PairOf, Find;
    FirstPair(query[p..]);
    var a := Find(query[p..], AMP);
    if p + a < |query| {
      assert query[p..][a + 1..] == query[p + a + 1..];
    } else {
      assert query[p + a..] == [];
    }
  }

  lemma FirstPair(s: Bytes)
    requires s != []
    ensures var a := Find(s, AMP);
            EncodePairs(Pairs(s)) ==
            [EncodePair(PairOf(s[..a]))] + EncodePairs(if a < |s| then Pairs(s[a + 1..]) else Pairs([]))
  {
    hide EncodePair, PairOf, Find;
    var a := Find(s, AMP);
    NoPairsLeft();
    assert Pairs(s)[1..] == if a < |s| then Pairs(s[a + 1..]) else [];
  }

  method JoinPairs(pairs: seq<Pair>) returns (out: Bytes)
    ensures out == Join(pairs)
  {
    out := [];
    var i := 0;
    while i < |pairs|
      invariant 0 <= i <= |pairs| && out == Join(pairs[..i])
    {
      JoinStep(pairs, i);
      if i > 0 {
        out := out + [AMP];
      }
      out := out + pairs[i].key;
      out := out + [EQUALS];
      out := out + pairs[i].value;
      i := i + 1;
    }
    assert pairs[..i] == pairs;
  }

  lemma {:induction false} JoinStep(pairs: seq<Pair>, i: nat)
    requires i < |pairs|
    ensures var sep := if i > 0 then [AMP] else [];
            Join(pairs[..i + 1]) == Join(pairs[..i]) + sep + pairs[i].key + [EQUALS] + pairs[i].value
    ensures i == 0 ==> Join(pairs[..i]) == []
  {
    if i == 0 {
      assert pairs[..1] == [pairs[0]];
    } else {
      var rest := pairs[1..];
      JoinStep(rest, i - 1);
      assert pairs[..i + 1][1..] == rest[..i] && pairs[..i][1..] == rest[..i - 1];
      assert rest[i - 1] == pairs[i];
      if i > 1 {
        ConcatFive(JoinPair(pairs[0]) + [AMP], Join(rest[..i - 1]), [AMP], pairs[i].key, [EQUALS], pairs[i].value);
      } else {
        assert rest[..0] == [] && pairs[..1] == [pairs[0]];
        ConcatFive(JoinPair(pairs[0]) + [AMP], [], [], pairs[i].key, [EQUALS], pairs[i].value);
      }
    }
  }

  method NeedsEscape(s: Bytes) returns (yes: bool)
    ensures yes == !AllUnreserved(s)
  {
    var i := 0;
    while i < |s|
      invariant 0 <= i <= |s| && forall j :: 0 <= j < i ==> Unreserved(s[j])
    {
      if !Unreserved(s[i]) {
        return true;
      }
      i := i + 1;
    }
    yes := false;
  }

  /** The shortcut and the general path compute the same canonical form. */
  method NormQuery(query: Bytes, qsort: seq<Pair> -> seq<Pair>) returns (out: Bytes)
    requires Sorts(qsort)
    ensures out == Canonical(query)
    ensures QueryLaws.InDictionaryOrder(Pairs(out)) && multiset(Pairs(out)) == multiset(EncodePairs(Pairs(query)))
  {
    hide Pairs, EncodePairs, Join, Sort, AllUnreserved, Sorts, Canonical, QueryLaws.InDictionaryOrder;
    QueryLaws.CanonicalOrder(query);
    QueryLaws.CanonicalPairs(query);
    QueryLaws.SortKeeps(EncodePairs(Pairs(query)));
    if |query| == 0 {
      EmptyQuery();
      return [];
    }
    if Find(query, AMP) == |query| {
      var e := Find(query, EQUALS);
      var needsEscape := NeedsEscape(query[..e]);
      if !needsEscape {
        needsEscape := NeedsEscape(if e < |query| then query[e + 1..] else []);
      }
      if !needsEscape {
        QueryLaws.ShortcutAgrees(query);
        if e < |query| {
          return query;
        }
        return query + [EQUALS];
      }
    }
    var list := SplitAndEncode(query);
    assert Canonical(query) == Join(Sort(list)) by {
      CanonicalIs(query);
    }
    var pairs := new Pair[|list|](i requires 0 <= i < |list| => list[i]);
    assert pairs[..] == list;
    PairSort(pairs, qsort);
    out := JoinPairs(pairs[..]);
  }

  lemma CanonicalIs(query: Bytes)
    ensures Canonical(query) == Join(Sort(EncodePairs(Pairs(query))))
  {
  }

  lemma EmptyQuery()
    ensures Canonical([]) == []
  {
  }
}
