/** Two queries have the same canonical form exactly when they hold the same pairs. */
module QueryLaws {
  import opened Basics
  import opened QuerySpec

  // ---- sorting ----

  lemma {:induction false} InsertKeeps(ps: seq<Pair>, p: Pair)
    requires Sorted(ps)
    ensures Sorted(Insert(ps, p)) && multiset(Insert(ps, p)) == multiset(ps) + multiset{p}
    ensures forall x :: x in Insert(ps, p) <==> x in ps || x == p
  {
    hide Ordered;
    if ps != [] {
      var init, last := ps[..|ps| - 1], ps[|ps| - 1];
      assert ps == init + [last];
      if Ordered(last, p) {
        forall i | 0 <= i < |ps| ensures Ordered(ps[i], p) {
          if i < |ps| - 1 {
            OrderedTransitive(ps[i], last, p);
          }
        }
        SortedSnoc(ps, p);
      } else {
        InsertKeeps(init, p);
        OrderedTotal(last, p);
        forall x | x in Insert(init, p) ensures Ordered(x, last) {
          assert x in init || x == p;
        }
        SortedSnoc(Insert(init, p), last);
      }
    }
  }

  lemma SortedSnoc(ps: seq<Pair>, p: Pair)
    requires Sorted(ps) && forall x :: x in ps ==> Ordered(x, p)
    ensures Sorted(ps + [p])
  {
    hide Ordered;
  }

  lemma {:induction false} SortKeeps(ps: seq<Pair>)
    ensures Sorted(Sort(ps)) && multiset(Sort(ps)) == multiset(ps)
  {
    hide Ordered, Insert;
    if ps != [] {
      SortKeeps(ps[..|ps| - 1]);
      InsertKeeps(Sort(ps[..|ps| - 1]), ps[|ps| - 1]);
      assert ps == ps[..|ps| - 1] + [ps[|ps| - 1]];
    }
  }

  /** The order is total, so there is only one sorted list of the same pairs:
      whatever algorithm sorts them gives the same list. */
  lemma {:induction false} SortedUnique(a: seq<Pair>, b: seq<Pair>)
    requires Sorted(a) && Sorted(b) && multiset(a) == multiset(b)
    ensures a == b
  {
    hide Ordered;
    if a == [] {
      assert |multiset(b)| == |b|;
    } else {
      assert a[0] in multiset(b);
      assert b[0] in multiset(a) && b != [];
      OrderedTotal(a[0], b[0]);
      OrderedTotal(a[0], a[0]);
      TailMultiset(a);
      TailMultiset(b);
      SortedUnique(a[1..], b[1..]);
    }
  }

  lemma TailMultiset(a: seq<Pair>)
    requires a != []
    ensures multiset(a[1..]) == multiset(a) - multiset{a[0]} && a == [a[0]] + a[1..]
  {
    assert a == [a[0]] + a[1..];
  }

  lemma {:induction false} SortsAgree(a: seq<Pair>, b: seq<Pair>)
    ensures Sort(a) == Sort(b) <==> multiset(a) == multiset(b)
  {
    hide Sort, Sorted;
    SortKeeps(a);
    SortKeeps(b);
    if multiset(a) == multiset(b) {
      SortedUnique(Sort(a), Sort(b));
    }
  }

  // ---- joining ----

  predicate CleanPairs(ps: seq<Pair>) {
    forall i :: 0 <= i < |ps| ==> Clean(ps[i].key) && Clean(ps[i].value)
  }

  lemma JoinedPair(p: Pair)
    requires Clean(p.key) && Clean(p.value)
    ensures PairOf(JoinPair(p)) == p && AMP !in JoinPair(p) && JoinPair(p) != []
  {
    var s := JoinPair(p);
    assert forall i :: 0 <= i < |p.key| ==> s[i] == p.key[i];
    FindAt(s, EQUALS, |p.key|);
    assert s[..|p.key|] == p.key && s[|p.key| + 1..] == p.value;
  }

  /** Joining clean pairs loses nothing: splitting the result gives them back. */
  lemma {:induction false} JoinRoundTrip(ps: seq<Pair>)
    requires CleanPairs(ps)
    ensures Pairs(Join(ps)) == ps
  {
    hide Clean, PairOf, Find, JoinPair, Pairs;
    if ps == [] {
      NoPairs();
    } else {
      JoinedPair(ps[0]);
      if |ps| == 1 {
        NoAmp(JoinPair(ps[0]));
        assert ps == [ps[0]];
      } else {
        FirstAmp(JoinPair(ps[0]), Join(ps[1..]));
        JoinRoundTrip(ps[1..]);
        assert ps == [ps[0]] + ps[1..];
      }
    }
  }

  lemma NoPairs()
    ensures Pairs([]) == []
  {
  }

  lemma NoAmp(s: Bytes)
    requires AMP !in s && s != []
    ensures Pairs(s) == [PairOf(s)]
  {
    hide PairOf;
    FindAt(s, AMP, |s|);
    assert s[..|s|] == s;
  }

  lemma FirstAmp(s: Bytes, rest: Bytes)
    requires AMP !in s
    ensures Pairs(s + [AMP] + rest) == [PairOf(s)] + Pairs(rest)
  {
    hide PairOf;
    var t := s + [AMP] + rest;
    assert forall i :: 0 <= i < |s| ==> t[i] == s[i];
    FindAt(t, AMP, |s|);
    assert t[..|s|] == s && t[|s| + 1..] == rest;
  }

  lemma JoinInjective(a: seq<Pair>, b: seq<Pair>)
    requires CleanPairs(a) && CleanPairs(b)
    ensures Join(a) == Join(b) <==> a == b
  {
    hide Join, Pairs;
    JoinRoundTrip(a);
    JoinRoundTrip(b);
  }

  // ---- encoding pairs ----

  lemma {:induction false} EncodePairsClean(ps: seq<Pair>)
    ensures CleanPairs(EncodePairs(ps))
  {
    if ps != [] {
      hide Clean, Encode;
      EncodePairsClean(ps[1..]);
      EncodeClean(ps[0].key);
      EncodeClean(ps[0].value);
    }
  }

  lemma SameElementsClean(a: seq<Pair>, b: seq<Pair>)
    requires CleanPairs(a) && multiset(a) == multiset(b)
    ensures CleanPairs(b)
  {
    hide Clean;
    forall i | 0 <= i < |b| ensures Clean(b[i].key) && Clean(b[i].value) {
      assert b[i] in multiset(b);
      assert b[i] in multiset(a);
      assert b[i] in a;
    }
  }

  /** How often an encoded pair occurs: as often as the pair it encodes, if it encodes one. */
  lemma {:induction false} CountEncoded(ps: seq<Pair>, y: Pair)
    ensures multiset(EncodePairs(ps))[y] == if EncodePair(DecodePair(y)) == y then multiset(ps)[DecodePair(y)] else 0
  {
    hide EncodePair, DecodePair;
    if ps != [] {
      CountEncoded(ps[1..], y);
      PairRoundTrip(ps[0]);
      assert ps == [ps[0]] + ps[1..];
    }
  }

  lemma PairRoundTrip(p: Pair)
    ensures DecodePair(EncodePair(p)) == p
  {
    EncodeRoundTrip(p.key);
    EncodeRoundTrip(p.value);
  }

  lemma {:induction false} EncodedMultisets(a: seq<Pair>, b: seq<Pair>)
    ensures multiset(EncodePairs(a)) == multiset(EncodePairs(b)) <==> multiset(a) == multiset(b)
  {
    hide EncodePairs, EncodePair, DecodePair;
    if multiset(a) == multiset(b) {
      forall y: Pair ensures multiset(EncodePairs(a))[y] == multiset(EncodePairs(b))[y] {
        CountEncoded(a, y);
        CountEncoded(b, y);
      }
    }
    if multiset(EncodePairs(a)) == multiset(EncodePairs(b)) {
      forall x: Pair ensures multiset(a)[x] == multiset(b)[x] {
        PairRoundTrip(x);
        CountEncoded(a, EncodePair(x));
        CountEncoded(b, EncodePair(x));
      }
    }
  }

  // ---- the main result ----

  /** Two queries, empty ones included, have the same canonical form if and only
      if they hold the same pairs, each as often. */
  lemma {:induction false} CanonicalExact(q: Bytes, r: Bytes)
    ensures Canonical(q) == Canonical(r) <==> multiset(Pairs(q)) == multiset(Pairs(r))
  {
    hide Sort, Join, EncodePairs, Pairs, CleanPairs, Sorted;
    var a, b := EncodePairs(Pairs(q)), EncodePairs(Pairs(r));
    EncodePairsClean(Pairs(q));
    EncodePairsClean(Pairs(r));
    SortKeeps(a);
    SortKeeps(b);
    SameElementsClean(a, Sort(a));
    SameElementsClean(b, Sort(b));
    JoinInjective(Sort(a), Sort(b));
    SortsAgree(a, b);
    EncodedMultisets(Pairs(q), Pairs(r));
  }

  /** The canonical form holds the encoded pairs, in order. */
  lemma {:induction false} CanonicalPairs(q: Bytes)
    ensures Pairs(Canonical(q)) == Sort(EncodePairs(Pairs(q))) && Sorted(Pairs(Canonical(q)))
  {
    hide Sort, Join, EncodePairs, Pairs, CleanPairs, Sorted;
    var a := EncodePairs(Pairs(q));
    EncodePairsClean(Pairs(q));
    SortKeeps(a);
    SameElementsClean(a, Sort(a));
    JoinRoundTrip(Sort(a));
  }

  /** In the canonical form each pair is the next one or comes before it: by key,
      and among equal keys by value, byte by byte. */
  lemma {:induction false} CanonicalOrder(q: Bytes)
    ensures InDictionaryOrder(Pairs(Canonical(q)))
  {
    hide Sort, Join, EncodePairs, Pairs, Ordered, PairBefore, Canonical;
    CanonicalPairs(q);
    SortedInOrder(Pairs(Canonical(q)));
  }

  predicate InDictionaryOrder(ps: seq<Pair>) {
    forall i, j :: 0 <= i < j < |ps| ==> ps[i] == ps[j] || PairBefore(ps[i], ps[j])
  }

  lemma SortedInOrder(ps: seq<Pair>)
    ensures Sorted(ps) <==> InDictionaryOrder(ps)
  {
    hide Ordered, PairBefore;
    forall i, j | 0 <= i < j < |ps| ensures Ordered(ps[i], ps[j]) <==> ps[i] == ps[j] || PairBefore(ps[i], ps[j]) {
      OrderedIsBefore(ps[i], ps[j]);
    }
  }

  // ---- splitting ----

  /** A query is split at every '&', which a last one only ends; the text between
      is split at its first '=', without which the value is empty. */
  lemma SplitsAt(s: Bytes, rest: Bytes)
    requires forall i :: 0 <= i < |s| ==> s[i] != '&' as int
    ensures Pairs(s + ['&' as int] + rest) == [PairOf(s)] + Pairs(rest)
    ensures Pairs(s) == if s == [] then [] else [PairOf(s)]
  {
    FirstAmp(s, rest);
    if s != [] {
      NoAmp(s);
    }
  }

  lemma PairSplits(s: Bytes)
    ensures var p := PairOf(s);
            && (forall i :: 0 <= i < |p.key| ==> p.key[i] != '=' as int)
            && (if '=' as int in s then s == p.key + ['=' as int] + p.value else p == Pair(s, []))
  {
    var e := Find(s, EQUALS);
    if e < |s| {
      assert s == s[..e] + [EQUALS] + s[e + 1..];
      assert s[e] in s;
    } else {
      assert s[..e] == s;
    }
  }

  // ---- the shortcut ----

  /** A query without '&' whose key and value need no escape is its own canonical
      form, up to an '=' that may be missing. */
  lemma ShortcutAgrees(q: Bytes)
    requires q != [] && AMP !in q && AllUnreserved(PairOf(q).key) && AllUnreserved(PairOf(q).value)
    ensures Canonical(q) == if EQUALS in q then q else q + [EQUALS]
  {
    var p := PairOf(q);
    NoAmp(q);
    EncodeSame(p.key);
    EncodeSame(p.value);
    SortOne(p);
    WholePair(q);
    hide Sort, Encode, PairOf, Pairs, AllUnreserved;
    assert EncodePairs([p]) == [p];
  }

  lemma SortOne(p: Pair)
    ensures Sort([p]) == [p]
  {
    hide Ordered;
    assert [p][..0] == [];
  }

  lemma WholePair(q: Bytes)
    ensures JoinPair(PairOf(q)) == if EQUALS in q then q else q + [EQUALS]
  {
    var e := Find(q, EQUALS);
    if e < |q| {
      assert q == q[..e] + [EQUALS] + q[e + 1..];
    } else {
      assert EQUALS !in q;
      assert q[..e] == q;
    }
  }
}
