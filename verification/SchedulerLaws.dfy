/** The invariant of the key-queue scheduler holds in every run, and what
    follows from it: order per key and bounded bypass. */
module SchedulerLaws {
  import opened Basics
  import opened SchedulerSpec

  // ---- lists ----

  lemma {:induction false} WithoutAbsent(es: seq<Entry>, k: Key)
    requires k !in KeysOf(es)
    ensures Without(es, k) == es
  {
    if es != [] {
      assert es[0].key == KeysOf(es)[0];
      assert KeysOf(es[1..]) == KeysOf(es)[1..];
      WithoutAbsent(es[1..], k);
    }
  }

  lemma {:induction false} OmitAbsent<T>(s: seq<T>, x: T)
    requires x !in s
    ensures Omit(s, x) == s
  {
    if s != [] {
      OmitAbsent(s[1..], x);
    }
  }

  lemma DropShift<T>(s: seq<T>, i: nat)
    requires 0 < i < |s|
    ensures s[..i] + s[i + 1..] == [s[0]] + (s[1..][..i - 1] + s[1..][i..])
  {
    assert s[1..][..i - 1] == s[..i][1..];
    assert s[1..][i..] == s[i + 1..];
  }

  lemma PutShift<T>(s: seq<T>, p: nat, x: T)
    requires 0 < p <= |s|
    ensures s[..p] + [x] + s[p..] == [s[0]] + (s[1..][..p - 1] + [x] + s[1..][p - 1..])
  {
    assert s[1..][..p - 1] == s[..p][1..];
    assert s[1..][p - 1..] == s[p..];
  }

  lemma PutDrop<T>(s: seq<T>, p: nat, x: T)
    requires p <= |s|
    ensures var r := s[..p] + [x] + s[p..];
            r[p] == x && r[..p] + r[p + 1..] == s
  {
    var r := s[..p] + [x] + s[p..];
    assert r[..p] == s[..p] && r[p + 1..] == s[p..];
  }

  /** Removing a listed key takes out its one entry and keeps the order of the others. */
  lemma {:induction false} WithoutAt(es: seq<Entry>, i: nat)
    requires Distinct(KeysOf(es)) && i < |es|
    ensures Without(es, es[i].key) == es[..i] + es[i + 1..]
  {
    if i > 0 {
      assert KeysOf(es)[0] != KeysOf(es)[i];
      assert KeysOf(es[1..]) == KeysOf(es)[1..];
      WithoutAt(es[1..], i - 1);
      DropShift(es, i);
    }
  }

  lemma {:induction false} OmitAt<T>(s: seq<T>, i: nat)
    requires Distinct(s) && i < |s|
    ensures Omit(s, s[i]) == s[..i] + s[i + 1..]
  {
    if i > 0 {
      assert s[0] != s[i];
      OmitAt(s[1..], i - 1);
      DropShift(s, i);
    }
  }

  lemma DropDistinct<T>(ks: seq<T>, i: nat)
    requires Distinct(ks) && i < |ks|
    ensures Distinct(ks[..i] + ks[i + 1..])
    ensures forall x :: x in ks[..i] + ks[i + 1..] <==> x in ks && x != ks[i]
  {
    var r := ks[..i] + ks[i + 1..];
    assert forall j :: 0 <= j < |r| ==> r[j] == ks[if j < i then j else j + 1];
    forall x | x in ks && x != ks[i] ensures x in r {
      var j :| 0 <= j < |ks| && ks[j] == x;
      assert r[if j < i then j else j - 1] == x;
    }
  }

  lemma DistinctCons<T>(x: T, s: seq<T>)
    ensures Distinct([x] + s) <==> Distinct(s) && x !in s
  {
    var r := [x] + s;
    assert forall i :: 1 <= i < |r| ==> r[i] == s[i - 1];
    if Distinct(r) {
      forall i, j | 0 <= i < j < |s| ensures s[i] != s[j] {
        assert r[i + 1] != r[j + 1];
      }
      forall i | 0 <= i < |s| ensures s[i] != x {
        assert r[0] != r[i + 1];
      }
    }
  }

  lemma AddDistinct<T>(ks: seq<T>, p: nat, k: T)
    requires Distinct(ks) && p <= |ks| && k !in ks
    ensures Distinct(ks[..p] + [k] + ks[p..])
    ensures forall x :: x in ks[..p] + [k] + ks[p..] <==> x in ks || x == k
  {
    var r := ks[..p] + [k] + ks[p..];
    assert forall j :: 0 <= j < |r| && j != p ==> r[j] == ks[if j < p then j else j - 1];
    assert r[p] == k;
    forall x | x in ks ensures x in r {
      var j :| 0 <= j < |ks| && ks[j] == x;
      assert r[if j < p then j else j + 1] == x;
    }
  }

  lemma WithoutKeeps(es: seq<Entry>, k: Key)
    requires Distinct(KeysOf(es))
    ensures Distinct(KeysOf(Without(es, k)))
    ensures forall x :: x in KeysOf(Without(es, k)) <==> x in KeysOf(es) && x != k
  {
    if k !in KeysOf(es) {
      WithoutAbsent(es, k);
    } else {
      var i: nat :| i < |es| && KeysOf(es)[i] == k;
      WithoutAt(es, i);
      KeysOfSplit(es, i, []);
      DropDistinct(KeysOf(es), i);
    }
  }

  lemma KeysOfSplit(es: seq<Entry>, i: nat, mid: seq<Entry>)
    requires i <= |es|
    ensures KeysOf(es[..i] + mid + es[i..]) == KeysOf(es)[..i] + KeysOf(mid) + KeysOf(es)[i..]
    ensures i < |es| ==> KeysOf(es[..i] + es[i + 1..]) == KeysOf(es)[..i] + KeysOf(es)[i + 1..]
  {
    KeysOfConcat(es[..i] + mid, es[i..]);
    KeysOfConcat(es[..i], mid);
    KeysOfSlices(es, i);
    if i < |es| {
      KeysOfConcat(es[..i], es[i + 1..]);
      KeysOfSlices(es, i + 1);
    }
  }

  lemma KeysOfConcat(a: seq<Entry>, b: seq<Entry>)
    ensures KeysOf(a + b) == KeysOf(a) + KeysOf(b)
  {
    forall i | 0 <= i < |a| + |b| ensures KeysOf(a + b)[i] == (KeysOf(a) + KeysOf(b))[i] {
      assert (a + b)[i] == if i < |a| then a[i] else b[i - |a|];
    }
  }

  lemma KeysOfSlices(es: seq<Entry>, i: nat)
    requires i <= |es|
    ensures KeysOf(es[..i]) == KeysOf(es)[..i]
    ensures KeysOf(es[i..]) == KeysOf(es)[i..]
  {
  }

  lemma {:induction false} WithoutSorted(es: seq<Entry>, k: Key)
    requires Sorted(es)
    ensures Sorted(Without(es, k))
    ensures forall e :: e in Without(es, k) ==> e in es
  {
    if es != [] && es[0].key != k {
      WithoutSorted(es[1..], k);
      SortedCons(es[0], Without(es[1..], k));
    }
  }

  lemma SortedCons(e: Entry, es: seq<Entry>)
    requires Sorted(es) && forall x :: x in es ==> e.at <= x.at
    ensures Sorted([e] + es)
  {
  }

  lemma {:induction false} InsertSorted(es: seq<Entry>, e: Entry)
    requires Sorted(es)
    ensures Sorted(Insert(es, e))
    ensures forall x :: x in Insert(es, e) ==> x in es || x == e
  {
    if es == [] || es[0].at > e.at {
      SortedCons(e, es);
    } else {
      InsertSorted(es[1..], e);
      SortedCons(es[0], Insert(es[1..], e));
    }
  }

  /** Insertion splits the list: everything before is due no later than the new
      entry, everything behind is due strictly later, nothing else moves. */
  lemma {:induction false} InsertPosition(es: seq<Entry>, e: Entry) returns (p: nat)
    requires Sorted(es)
    ensures p <= |es|
    ensures Insert(es, e) == es[..p] + [e] + es[p..]
    ensures forall j :: 0 <= j < p ==> es[j].at <= e.at
    ensures forall j :: p <= j < |es| ==> es[j].at > e.at
  {
    if es == [] || es[0].at > e.at {
      p := 0;
    } else {
      p := InsertPosition(es[1..], e);
      p := p + 1;
      PutShift(es, p, e);
    }
  }

  /** Insertion at the first position whose entry is due later, which is where the code's walk stops. */
  lemma {:induction false} InsertAt(es: seq<Entry>, e: Entry, p: nat)
    requires p <= |es|
    requires forall j :: 0 <= j < p ==> es[j].at <= e.at
    requires p < |es| ==> es[p].at > e.at
    ensures Insert(es, e) == es[..p] + [e] + es[p..]
  {
    if p > 0 {
      assert es[0].at <= e.at;
      InsertAt(es[1..], e, p - 1);
      PutShift(es, p, e);
    }
  }

  lemma {:induction false} InsertKeeps(es: seq<Entry>, e: Entry)
    requires Sorted(es) && Distinct(KeysOf(es)) && e.key !in KeysOf(es)
    ensures Distinct(KeysOf(Insert(es, e)))
    ensures forall x :: x in KeysOf(Insert(es, e)) <==> x in KeysOf(es) || x == e.key
  {
    var p := InsertPosition(es, e);
    assert KeysOf(Insert(es, e)) == KeysOf(es)[..p] + [e.key] + KeysOf(es)[p..] by {
      KeysOfSplit(es, p, [e]);
    }
    AddDistinct(KeysOf(es), p, e.key);
  }

  /** Re-inserting a delayed key keeps the list sorted and takes effect only on that key:
      the other entries keep their times and their order. */
  lemma {:induction false} ReinsertStable(es: seq<Entry>, k: Key, at: int)
    requires Sorted(es) && Distinct(KeysOf(es))
    ensures Sorted(Insert(Without(es, k), Entry(k, at)))
    ensures Distinct(KeysOf(Insert(Without(es, k), Entry(k, at))))
    ensures Without(Insert(Without(es, k), Entry(k, at)), k) == Without(es, k)
  {
    var rest := Without(es, k);
    WithoutKeeps(es, k);
    WithoutSorted(es, k);
    InsertKeeps(rest, Entry(k, at));
    InsertSorted(rest, Entry(k, at));
    var p := InsertPosition(rest, Entry(k, at));
    PutDrop(rest, p, Entry(k, at));
    WithoutAt(Insert(rest, Entry(k, at)), p);
  }

  // ---- the log ----

  lemma LogAppend(log: seq<Event>, e: Event)
    ensures forall k :: PushedOf(log + [e], k) ==
                        PushedOf(log, k) + (if e.Pushed? && e.key == k then [e.task] else [])
    ensures forall k :: FinishedOf(log + [e], k) ==
                        FinishedOf(log, k) + (if e.Finished? && e.key == k then [e.task] else [])
  {
    assert (log + [e])[..|log|] == log;
  }

  // ---- each step keeps the invariant ----

  /** Placed, except that queue `k` itself may not have been listed yet. */
  predicate PlacedBut(s: State, k: Key) {
    && Listed(s)
    && k in s.queues && k !in s.ready && k !in KeysOf(s.delayed)
    && (forall x | x in s.queues && Waiting(s.queues[x]) && x != k :: x in s.ready || x in KeysOf(s.delayed))
  }

  lemma ReadyAddPlaced(s: State, k: Key)
    requires PlacedBut(s, k) && k !in KeysOf(s.idle)
    ensures Placed(ReadyAdd(s, k))
    ensures s.ready <= ReadyAdd(s, k).ready
  {
  }

  lemma {:induction false} DelayedAddPlaced(s: State, k: Key, next: int)
    requires PlacedBut(s, k) && k !in KeysOf(s.idle) && Waiting(s.queues[k]) && Sorted(s.delayed)
    ensures DelayedAdd(s, k, next) == s.(delayed := Insert(s.delayed, Entry(k, next)))
    ensures Placed(DelayedAdd(s, k, next)) && Sorted(DelayedAdd(s, k, next).delayed)
  {
    OmitAbsent(s.ready, k);
    WithoutAbsent(s.idle, k);
    WithoutAbsent(s.delayed, k);
    InsertKeeps(s.delayed, Entry(k, next));
    InsertSorted(s.delayed, Entry(k, next));
  }

  // Looking a key up, or creating it.

  lemma GetOrCreatePlaced(c: Config, s: State, k: Key)
    requires Placed(s) && WithinLimit(c, s) && GetOrCreate(c, s, k).Some?
    ensures var s1 := GetOrCreate(c, s, k).value;
            && Placed(s1) && WithinLimit(c, s1)
            && k in s1.queues && k !in KeysOf(s1.idle)
            && s1.ready == s.ready && s1.delayed == s.delayed && s1.log == s.log
  {
    if k in s.queues {
      WithoutKeeps(s.idle, k);
    }
  }

  /** A step that neither logs nor changes what is pending keeps the order. */
  lemma OrderSame(s: State, s': State)
    requires InOrder(s) && s'.log == s.log
    requires forall k :: Pending(s', k) == Pending(s, k)
    ensures InOrder(s')
  {
  }

  // Push.

  lemma PendingPush(s1: State, s2: State, k: Key, t: SendTask)
    requires k in s1.queues
    requires s2.queues == s1.queues[k := s1.queues[k].(tasks := s1.queues[k].tasks + [t])]
    ensures forall x :: Pending(s2, x) == Pending(s1, x) + (if x == k then [t] else [])
  {
  }

  lemma AppendPlaced(s: State, k: Key, t: SendTask)
    requires Placed(s) && k in s.queues && k !in KeysOf(s.idle)
    ensures Listed(Append(s, k, t))
    ensures s.queues[k].tasks == [] ==> PlacedBut(Append(s, k, t), k)
    ensures s.queues[k].tasks != [] || s.queues[k].hand.Some? ==> Placed(Append(s, k, t))
  {
  }

  lemma AppendOrder(s: State, k: Key, t: SendTask)
    requires InOrder(s) && k in s.queues
    ensures InOrder(Append(s, k, t))
  {
    var s' := Append(s, k, t);
    LogAppend(s.log, Pushed(k, t));
    PendingPush(s, s', k, t);
    forall x ensures PushedOf(s'.log, x) == FinishedOf(s'.log, x) + Pending(s', x) {
      assert PushedOf(s.log, x) == FinishedOf(s.log, x) + Pending(s, x);
    }
  }

  lemma {:induction false} PushPlaced(c: Config, s: State, k: Key, t: SendTask)
    requires Placed(s) && WithinLimit(c, s) && Sorted(s.delayed)
    ensures Placed(DoPush(c, s, k, t)) && WithinLimit(c, DoPush(c, s, k, t))
    ensures DoPush(c, s, k, t).delayed == s.delayed
    ensures s.ready <= DoPush(c, s, k, t).ready
  {
    if GetOrCreate(c, s, k).Some? {
      GetOrCreatePlaced(c, s, k);
      var s1 := GetOrCreate(c, s, k).value;
      AppendPlaced(s1, k, t);
      assert s1.queues.Keys == Append(s1, k, t).queues.Keys;
      if s1.queues[k].tasks == [] && s1.queues[k].hand.None? {
        ReadyAddPlaced(Append(s1, k, t), k);
      }
    }
  }

  lemma LookupOrder(c: Config, s: State, k: Key)
    requires InOrder(s) && GetOrCreate(c, s, k).Some?
    ensures InOrder(GetOrCreate(c, s, k).value) && k in GetOrCreate(c, s, k).value.queues
  {
    OrderSame(s, GetOrCreate(c, s, k).value);
  }

  lemma {:induction false} PushOrder(c: Config, s: State, k: Key, t: SendTask)
    requires InOrder(s)
    ensures InOrder(DoPush(c, s, k, t))
  {
    hide InOrder, GetOrCreate, KeysOf;
    if GetOrCreate(c, s, k).Some? {
      var s1 := GetOrCreate(c, s, k).value;
      LookupOrder(c, s, k);
      AppendOrder(s1, k, t);
      OrderSame(Append(s1, k, t), DoPush(c, s, k, t));
    }
  }

  // The builder of a key.

  lemma SetBuilderInv(c: Config, s: State, k: Key, n: nat)
    requires Inv(c, s) && k in s.queues
    ensures Inv(c, SetBuilder(s, k, n))
  {
    var s1 := SetBuilder(s, k, n);
    SetBuilderPlaced(s, k, n);
    assert forall x :: Pending(s1, x) == Pending(s, x);
    OrderSame(s, s1);
    assert s1.queues.Keys == s.queues.Keys;
  }

  lemma SetBuilderPlaced(s: State, k: Key, n: nat)
    requires Placed(s) && k in s.queues
    ensures Placed(SetBuilder(s, k, n))
  {
  }

  lemma {:induction false} GetOrCreateInv(c: Config, s: State, k: Key)
    requires Inv(c, s) && GetOrCreate(c, s, k).Some?
    ensures var s1 := GetOrCreate(c, s, k).value;
            Inv(c, s1) && k in s1.queues && s1.ready == s.ready
  {
    GetOrCreatePlaced(c, s, k);
    LookupOrder(c, s, k);
    hide Placed, InOrder;
  }

  lemma {:induction false} CollectInv(c: Config, s: State, k: Key, n: nat)
    requires Inv(c, s)
    ensures Inv(c, DoCollect(c, s, k, n))
    ensures DoCollect(c, s, k, n).ready == s.ready
  {
    hide Inv, GetOrCreate;
    if GetOrCreate(c, s, k).Some? {
      GetOrCreateInv(c, s, k);
      var s1 := GetOrCreate(c, s, k).value;
      SetBuilderInv(c, s1, k, s1.queues[k].builder + n);
    }
  }

  // Pick.

  lemma PromotePlaced(s: State, now: int)
    requires Placed(s) && Sorted(s.delayed)
    ensures var p := Promote(s, now);
            && Placed(p) && Sorted(p.delayed)
            && p.queues == s.queues && p.log == s.log && p.idle == s.idle
            && s.ready <= p.ready
    decreases |s.delayed|
  {
    if s.delayed != [] && s.delayed[0].at <= now {
      var k := s.delayed[0].key;
      var s0 := s.(delayed := s.delayed[1..]);
      assert KeysOf(s.delayed)[0] in KeysOf(s.delayed);
      DelayedTailPlaced(s);
      ReadyAddPlaced(s0, k);
      PromotePlaced(ReadyAdd(s0, k), now);
    }
  }

  lemma DelayedTailPlaced(s: State)
    requires Placed(s) && Sorted(s.delayed) && s.delayed != []
    ensures var s0 := s.(delayed := s.delayed[1..]);
            PlacedBut(s0, s.delayed[0].key) && s.delayed[0].key !in KeysOf(s0.idle) && Sorted(s0.delayed)
  {
    TailTells(s.delayed);
    DelayedTailListed(s);
  }

  lemma DelayedTailListed(s: State)
    requires Listed(s) && Sorted(s.delayed) && s.delayed != []
    ensures var k := s.delayed[0].key;
            && Listed(s.(delayed := s.delayed[1..]))
            && k in s.queues && k !in s.ready && k !in KeysOf(s.idle)
  {
    TailTells(s.delayed);
  }

  lemma TailTells(es: seq<Entry>)
    requires es != [] && Distinct(KeysOf(es)) && Sorted(es)
    ensures Distinct(KeysOf(es[1..])) && Sorted(es[1..])
    ensures es[0].key !in KeysOf(es[1..])
    ensures forall x :: x in KeysOf(es) <==> x == es[0].key || x in KeysOf(es[1..])
  {
    DistinctCons(es[0].key, KeysOf(es[1..]));
  }

  lemma TakePlaced(s: State)
    requires Placed(s)
    ensures Placed(Take(s))
  {
    if s.ready != [] {
      var k := s.ready[0];
      assert k in s.ready;
      assert forall i :: 1 <= i < |s.ready| ==> s.ready[i] != s.ready[0];
      assert forall x :: x in s.ready[1..] <==> x in s.ready && x != k;
    }
  }

  lemma TakePending(s: State)
    requires Placed(s)
    ensures forall x :: Pending(Take(s), x) == Pending(s, x)
  {
    if s.ready != [] {
      var k := s.ready[0];
      assert k in s.ready;
      assert [s.queues[k].tasks[0]] + s.queues[k].tasks[1..] == s.queues[k].tasks;
      assert Pending(Take(s), k) == Pending(s, k);
    }
  }

  lemma PickInv(c: Config, s: State, now: int)
    requires Inv(c, s)
    ensures Inv(c, DoPick(s, now))
    ensures |DoPick(s, now).queues| == |s.queues|
  {
    PromotePlaced(s, now);
    var p := Promote(s, now);
    OrderSame(s, p);
    TakePlaced(p);
    TakePending(p);
    OrderSame(p, Take(p));
    assert Take(p).queues.Keys == s.queues.Keys;
  }

  // Gate requeue.

  lemma PutBackPlaced(s: State, k: Key)
    requires Placed(s) && InFlight(s, k)
    ensures PlacedBut(PutBack(s, k), k) && k !in KeysOf(PutBack(s, k).idle)
    ensures forall x :: Pending(PutBack(s, k), x) == Pending(s, x)
  {
  }

  lemma RequeueInv(c: Config, s: State, k: Key, next: int)
    requires Inv(c, s) && InFlight(s, k)
    ensures Inv(c, DoRequeue(s, k, next))
    ensures DoRequeue(s, k, next).ready == s.ready
  {
    PutBackPlaced(s, k);
    var s1 := PutBack(s, k);
    OrderSame(s, s1);
    DelayedAddPlaced(s1, k, next);
    OrderSame(s1, DelayedAdd(s1, k, next));
    assert s1.queues.Keys == s.queues.Keys;
  }

  // Key breaker.

  lemma BreakerResultInv(c: Config, s: State, k: Key, ok: bool, now: int)
    requires Inv(c, s) && InFlight(s, k)
    ensures Inv(c, DoBreakerResult(c, s, k, ok, now))
  {
    var s1 := DoBreakerResult(c, s, k, ok, now);
    assert forall x :: Pending(s1, x) == Pending(s, x);
    OrderSame(s, s1);
    assert s1.queues.Keys == s.queues.Keys;
  }

  // Finish.

  lemma ReleasePlaced(s: State, k: Key)
    requires Placed(s) && InFlight(s, k)
    ensures PlacedBut(Release(s, k), k) && k !in KeysOf(Release(s, k).idle)
    ensures s.queues[k].tasks == [] ==> Placed(Release(s, k))
  {
  }

  lemma ReleaseOrder(s: State, k: Key)
    requires InOrder(s) && InFlight(s, k)
    ensures InOrder(Release(s, k))
  {
    var s', t := Release(s, k), s.queues[k].hand.value;
    LogAppend(s.log, Finished(k, t));
    forall x ensures PushedOf(s'.log, x) == FinishedOf(s'.log, x) + Pending(s', x) {
      assert PushedOf(s.log, x) == FinishedOf(s.log, x) + Pending(s, x);
    }
  }

  lemma IdleAddPlaced(s: State, k: Key, now: int)
    requires Placed(s) && k in s.queues && k !in KeysOf(s.idle)
    requires s.queues[k].tasks == [] && s.queues[k].hand.None?
    ensures Placed(IdleAdd(s, k, now))
  {
    assert KeysOf(s.idle + [Entry(k, now)]) == KeysOf(s.idle) + [k] by {
      KeysOfSplit(s.idle, |s.idle|, [Entry(k, now)]);
      assert s.idle[..|s.idle|] + [Entry(k, now)] + s.idle[|s.idle|..] == s.idle + [Entry(k, now)];
    }
  }

  lemma RemovePlaced(s: State, k: Key)
    requires Placed(s) && k in s.queues && k !in KeysOf(s.idle)
    requires s.queues[k].tasks == [] && s.queues[k].hand.None?
    ensures Remove(s, k) == s.(queues := s.queues - {k})
    ensures Placed(Remove(s, k))
  {
    OmitAbsent(s.ready, k);
    WithoutAbsent(s.delayed, k);
    WithoutAbsent(s.idle, k);
  }

  lemma PendingRemove(s: State, k: Key)
    requires k in s.queues && s.queues[k].tasks == [] && s.queues[k].hand.None?
    ensures forall x :: Pending(Remove(s, k), x) == Pending(s, x)
  {
  }

  lemma FinishPlaced(c: Config, s: State, k: Key, now: int)
    requires Placed(s) && Sorted(s.delayed) && InFlight(s, k)
    ensures Placed(DoFinish(c, s, k, now)) && Sorted(DoFinish(c, s, k, now).delayed)
    ensures s.ready <= DoFinish(c, s, k, now).ready
  {
    var q, s1 := s.queues[k], Release(s, k);
    ReleasePlaced(s, k);
    if q.tasks != [] {
      if c.breakerThreshold > 0 && q.openUntilMs > now {
        DelayedAddPlaced(s1, k, q.openUntilMs);
      } else {
        ReadyAddPlaced(s1, k);
      }
    } else if c.idleTtlMs > 0 {
      IdleAddPlaced(s1, k, now);
    } else {
      RemovePlaced(s1, k);
    }
  }

  lemma {:induction false} FinishOrder(c: Config, s: State, k: Key, now: int)
    requires InOrder(s) && InFlight(s, k)
    ensures InOrder(DoFinish(c, s, k, now))
    ensures DoFinish(c, s, k, now).queues.Keys <= s.queues.Keys
  {
    var s1 := Release(s, k);
    ReleaseOrder(s, k);
    if s.queues[k].tasks == [] {
      PendingRemove(s1, k);
    }
    OrderSame(s1, DoFinish(c, s, k, now));
  }

  // Idle cleanup.

  lemma ExpiredCons(c: Config, es: seq<Entry>, now: int)
    requires es != []
    ensures ExpiredKeys(c, es, now) ==
            (if Expired(c, es[0], now) then {es[0].key} else {}) + ExpiredKeys(c, es[1..], now)
  {
    assert forall e :: e in es <==> e == es[0] || e in es[1..];
  }

  lemma ExpiredListed(c: Config, es: seq<Entry>, now: int)
    ensures forall k :: k in ExpiredKeys(c, es, now) ==> k in KeysOf(es)
  {
    forall e | e in es ensures e.key in KeysOf(es) {
      var i :| 0 <= i < |es| && es[i] == e;
      assert KeysOf(es)[i] == e.key;
    }
  }

  lemma {:induction false} KeptKeys(c: Config, es: seq<Entry>, now: int)
    requires Distinct(KeysOf(es))
    ensures Distinct(KeysOf(Kept(c, es, now)))
    ensures forall x :: x in KeysOf(Kept(c, es, now)) <==> x in KeysOf(es) && x !in ExpiredKeys(c, es, now)
  {
    if es != [] {
      var rest := es[1..];
      DistinctCons(es[0].key, KeysOf(rest));
      KeptKeys(c, rest, now);
      ExpiredCons(c, es, now);
      ExpiredListed(c, rest, now);
      DistinctCons(es[0].key, KeysOf(Kept(c, rest, now)));
    }
  }

  lemma ExpiredAreIdle(c: Config, s: State, now: int)
    requires Placed(s)
    ensures forall k :: k in ExpiredKeys(c, s.idle, now) ==>
                        k in s.queues && s.queues[k].tasks == [] && s.queues[k].hand.None?
  {
    ExpiredListed(c, s.idle, now);
  }

  lemma IdleCleanupPlaced(c: Config, s: State, now: int)
    requires Placed(s)
    ensures Placed(DoIdleCleanup(c, s, now))
  {
    hide Kept, ExpiredKeys, KeysOf;
    KeptKeys(c, s.idle, now);
    ExpiredAreIdle(c, s, now);
  }

  lemma IdleCleanupOrder(c: Config, s: State, now: int)
    requires Placed(s) && InOrder(s)
    ensures InOrder(DoIdleCleanup(c, s, now))
  {
    hide Kept, ExpiredKeys, KeysOf, InOrder;
    ExpiredAreIdle(c, s, now);
    OrderSame(s, DoIdleCleanup(c, s, now));
  }

  lemma IdleCleanupInv(c: Config, s: State, now: int)
    requires Inv(c, s)
    ensures Inv(c, DoIdleCleanup(c, s, now))
  {
    hide Placed, InOrder, Sorted, Kept, ExpiredKeys;
    IdleCleanupPlaced(c, s, now);
    IdleCleanupOrder(c, s, now);
    Fewer(DoIdleCleanup(c, s, now).queues.Keys, s.queues.Keys);
  }

  lemma Fewer(a: set<Key>, b: set<Key>)
    requires a <= b
    ensures |a| <= |b|
  {
    if a != {} {
      var x :| x in a;
      Fewer(a - {x}, b - {x});
    }
  }

  /** The cleanup as the code does it: one entry at a time, from position `i` on. */
  function CleanFrom(c: Config, s: State, i: nat, now: int): State
    decreases |s.idle| - i
  {
    if i >= |s.idle| then s
    else if Expired(c, s.idle[i], now) then
      var s1 := Remove(s, s.idle[i].key);
      if |s1.idle| < |s.idle| then CleanFrom(c, s1, i, now) else s1
    else CleanFrom(c, s, i + 1, now)
  }

  lemma RemoveIdle(s: State, i: nat)
    requires Placed(s) && i < |s.idle|
    ensures var k := s.idle[i].key;
            && k in s.queues && s.queues[k].tasks == [] && s.queues[k].hand.None?
            && Remove(s, k) == s.(queues := s.queues - {k}, idle := s.idle[..i] + s.idle[i + 1..])
            && Placed(Remove(s, k))
  {
    var k := s.idle[i].key;
    assert KeysOf(s.idle)[i] in KeysOf(s.idle);
    OmitAbsent(s.ready, k);
    WithoutAbsent(s.delayed, k);
    WithoutAt(s.idle, i);
    WithoutKeeps(s.idle, k);
  }

  /** Taking the entry off the idle list first changes nothing in what freeing the queue does. */
  lemma RemoveTwice(s: State, i: nat)
    requires Placed(s) && i < |s.idle|
    ensures var k := s.idle[i].key;
            Remove(s.(idle := Without(s.idle, k)), k) == Remove(s, k)
  {
    WithoutKeeps(s.idle, s.idle[i].key);
    WithoutAbsent(Without(s.idle, s.idle[i].key), s.idle[i].key);
  }

  lemma CleanRound(c: Config, s: State, i: nat, now: int)
    requires Placed(s) && i < |s.idle|
    ensures var s1 := Remove(s, s.idle[i].key);
            && Placed(s1) && s1.idle == s.idle[..i] + s.idle[i + 1..]
            && (Expired(c, s.idle[i], now) ==> CleanFrom(c, s, i, now) == CleanFrom(c, s1, i, now))
    ensures !Expired(c, s.idle[i], now) ==> CleanFrom(c, s, i, now) == CleanFrom(c, s, i + 1, now)
  {
    RemoveIdle(s, i);
  }

  /** Freeing entry by entry is the same as keeping the entries that have not expired. */
  lemma {:induction false} CleanFromExact(c: Config, s: State, i: nat, now: int)
    requires Placed(s) && i <= |s.idle|
    ensures CleanFrom(c, s, i, now) ==
            s.(idle := s.idle[..i] + Kept(c, s.idle[i..], now), queues := s.queues - ExpiredKeys(c, s.idle[i..], now))
    decreases |s.idle| - i
  {
    if i == |s.idle| {
      assert s.idle[..i] + Kept(c, s.idle[i..], now) == s.idle;
      assert s.queues - ExpiredKeys(c, s.idle[i..], now) == s.queues;
    } else if Expired(c, s.idle[i], now) {
      RemoveIdle(s, i);
      var s1 := Remove(s, s.idle[i].key);
      CleanFromExact(c, s1, i, now);
      CleanStep(c, s.idle, i, now);
      assert s1.idle[i..] == s.idle[i + 1..] && s1.idle[..i] == s.idle[..i];
    } else {
      CleanFromExact(c, s, i + 1, now);
      CleanStep(c, s.idle, i, now);
    }
  }

  lemma CleanAll(c: Config, s: State, now: int)
    requires Placed(s) && c.idleTtlMs > 0
    ensures CleanFrom(c, s, 0, now) == DoIdleCleanup(c, s, now)
  {
    hide Placed;
    CleanFromExact(c, s, 0, now);
    assert s.idle[0..] == s.idle;
  }

  lemma CleanStep(c: Config, es: seq<Entry>, i: nat, now: int)
    requires i < |es|
    ensures Expired(c, es[i], now) ==>
              && Kept(c, es[i..], now) == Kept(c, es[i + 1..], now)
              && ExpiredKeys(c, es[i..], now) == {es[i].key} + ExpiredKeys(c, es[i + 1..], now)
    ensures !Expired(c, es[i], now) ==>
              && es[..i] + Kept(c, es[i..], now) == es[..i + 1] + Kept(c, es[i + 1..], now)
              && ExpiredKeys(c, es[i..], now) == ExpiredKeys(c, es[i + 1..], now)
  {
    assert es[i..][1..] == es[i + 1..];
    assert es[i..] == [es[i]] + es[i + 1..];
    assert es[..i + 1] == es[..i] + [es[i]];
  }

  // ---- every run ----

  lemma ApplyInv(c: Config, s: State, step: Step)
    requires Inv(c, s) && Enabled(s, step)
    ensures Inv(c, Apply(c, s, step))
  {
    hide DoPush, DoCollect, DoPick, DoRequeue, DoBreakerResult, DoFinish, DoIdleCleanup, Placed, Sorted, InOrder;
    match step
    case Push(k, t) => PushPlaced(c, s, k, t); PushOrder(c, s, k, t);
    case Reserve(k) =>
      if GetOrCreate(c, s, k).Some? {
        GetOrCreateInv(c, s, k);
      }
    case Collect(k, n) => CollectInv(c, s, k, n);
    case Seal(k) => SetBuilderInv(c, s, k, 0);
    case Pick(now) => PickInv(c, s, now);
    case Requeue(k, next) => RequeueInv(c, s, k, next);
    case BreakerResult(k, ok, now) => BreakerResultInv(c, s, k, ok, now);
    case Finish(k, now) =>
      FinishPlaced(c, s, k, now);
      FinishOrder(c, s, k, now);
      Fewer(DoFinish(c, s, k, now).queues.Keys, s.queues.Keys);
    case IdleCleanup(now) => IdleCleanupInv(c, s, now);
  }

  /** One step of a run. A sender requeues, reports or finishes only a queue it holds. */
  predicate Next(c: Config, s: State, step: Step, s': State) {
    Known(s) && Enabled(s, step) && s' == Apply(c, s, step)
  }

  predicate StepAt(c: Config, trace: seq<State>, steps: seq<Step>, i: nat)
    requires |trace| == |steps| + 1 && i < |steps|
  {
    Next(c, trace[i], steps[i], trace[i + 1])
  }

  predicate IsRun(c: Config, trace: seq<State>, steps: seq<Step>) {
    && |trace| == |steps| + 1
    && trace[0] == INITIAL
    && forall i :: 0 <= i < |steps| ==> StepAt(c, trace, steps, i)
  }

  lemma InitialInv(c: Config)
    ensures Inv(c, INITIAL)
  {
  }

  lemma {:induction false} InvInEveryRun(c: Config, trace: seq<State>, steps: seq<Step>, n: nat)
    requires IsRun(c, trace, steps) && n < |trace|
    ensures Inv(c, trace[n])
  {
    if n == 0 {
      InitialInv(c);
    } else {
      InvInEveryRun(c, trace, steps, n - 1);
      assert StepAt(c, trace, steps, n - 1);
      ApplyInv(c, trace[n - 1], steps[n - 1]);
    }
  }

  /** In every run, for each key: what was pushed is what was finished, then the
      task in a sender's hand, then the deque, in this order. A queue that was
      freed and created again changes nothing in this. */
  lemma OrderPerKey(c: Config, trace: seq<State>, steps: seq<Step>, n: nat, k: Key)
    requires IsRun(c, trace, steps) && n < |trace|
    ensures var r := trace[n];
            && PushedOf(r.log, k) == FinishedOf(r.log, k) + Pending(r, k)
            && FinishedOf(r.log, k) <= PushedOf(r.log, k)
            && (k !in r.queues ==> FinishedOf(r.log, k) == PushedOf(r.log, k))
  {
    InvInEveryRun(c, trace, steps, n);
    PendingSplits(trace[n], k);
  }

  lemma PendingSplits(s: State, k: Key)
    requires InOrder(s)
    ensures PushedOf(s.log, k) == FinishedOf(s.log, k) + Pending(s, k)
  {
  }

  /** In every run the lists are as `Placed` says, the delayed list is sorted
      and the number of queues respects a positive limit. */
  lemma PlacedInEveryRun(c: Config, trace: seq<State>, steps: seq<Step>, n: nat)
    requires IsRun(c, trace, steps) && n < |trace|
    ensures Placed(trace[n]) && Sorted(trace[n].delayed) && WithinLimit(c, trace[n])
  {
    InvInEveryRun(c, trace, steps, n);
  }

  /** One task in flight per key: a pick only takes a queue no sender holds, and
      hands out the oldest pending task of its key. */
  lemma PickTakesOldest(c: Config, s: State, now: int)
    requires Inv(c, s) && Picked(s, now).Some?
    ensures var k, s1 := Picked(s, now).value, DoPick(s, now);
            && k in s.queues && !InFlight(s, k)
            && InFlight(s1, k)
            && Pending(s, k) != []
            && s1.queues[k].hand.value == Pending(s, k)[0]
            && s1.queues[k].tasks == Pending(s, k)[1..]
            && forall x :: x != k ==> InFlight(s1, x) == InFlight(s, x)
  {
    PromotePlaced(s, now);
    TakeOldest(Promote(s, now));
    assert Pending(Promote(s, now), Picked(s, now).value) == Pending(s, Picked(s, now).value);
  }

  lemma TakeOldest(s: State)
    requires Placed(s) && s.ready != []
    ensures var k, s1 := s.ready[0], Take(s);
            && k in s.queues && !InFlight(s, k)
            && InFlight(s1, k)
            && Pending(s, k) != []
            && s1.queues[k].hand.value == Pending(s, k)[0]
            && s1.queues[k].tasks == Pending(s, k)[1..]
            && forall x :: x != k ==> InFlight(s1, x) == InFlight(s, x)
  {
    assert s.ready[0] in s.ready;
  }

  /** A step gives up a key the way its sender asked for. */
  predicate GivesUp(step: Step, k: Key) {
    (step.Requeue? || step.Finish?) && step.key == k
  }

  /** A task stays in its sender's hand, and its queue stays in the index, until
      that sender puts it back or finishes it: no other step takes either away. */
  lemma HandStays(c: Config, s: State, step: Step, k: Key)
    requires Inv(c, s) && Enabled(s, step) && InFlight(s, k) && !GivesUp(step, k)
    ensures InFlight(Apply(c, s, step), k) && Apply(c, s, step).queues[k].hand == s.queues[k].hand
  {
    match step
    case Pick(now) =>
      PromotePlaced(s, now);
      TakeKeepsHands(Promote(s, now));
    case IdleCleanup(now) => ExpiredAreIdle(c, s, now);
    case Finish(x, now) => FinishKeepsHand(c, s, x, now, k);
    case Requeue(_, _) =>
    case Collect(_, _) =>
    case Seal(_) =>
    case _ => PushKeepsHand(c, s, step, k);
  }

  lemma PushKeepsHand(c: Config, s: State, step: Step, k: Key)
    requires Known(s) && Enabled(s, step) && InFlight(s, k) && (step.Push? || step.Reserve? || step.BreakerResult?)
    ensures InFlight(Apply(c, s, step), k) && Apply(c, s, step).queues[k].hand == s.queues[k].hand
  {
  }

  lemma FinishKeepsHand(c: Config, s: State, x: Key, now: int, k: Key)
    requires InFlight(s, x) && InFlight(s, k) && x != k
    ensures InFlight(DoFinish(c, s, x, now), k) && DoFinish(c, s, x, now).queues[k].hand == s.queues[k].hand
  {
  }

  lemma TakeKeepsHands(s: State)
    requires Placed(s)
    ensures forall k :: InFlight(s, k) ==> InFlight(Take(s), k) && Take(s).queues[k].hand == s.queues[k].hand
  {
    assert s.ready != [] ==> s.ready[0] in s.ready;
  }

  /** An idle cleanup never frees a queue in flight or one that holds tasks, and
      leaves all other queues as they were. */
  lemma CleanupFreesOnlyIdle(c: Config, s: State, now: int, k: Key)
    requires Inv(c, s) && k in s.queues
    ensures var s1 := DoIdleCleanup(c, s, now);
            && (k in s1.queues ==> s1.queues[k] == s.queues[k])
            && (k !in s1.queues ==> Pending(s, k) == [] && !InFlight(s, k))
            && (k !in s1.queues <==>
                  c.idleTtlMs > 0 && exists e :: e in s.idle && e.key == k && now - e.at >= c.idleTtlMs)
  {
    ExpiredAreIdle(c, s, now);
  }

  lemma InvKnown(c: Config, s: State)
    requires Inv(c, s)
    ensures Known(s)
  {
  }

  lemma InvPlaced(c: Config, s: State)
    requires Inv(c, s)
    ensures Placed(s) && Known(s) && Sorted(s.delayed) && WithinLimit(c, s) && Distinct(KeysOf(s.idle))
  {
  }

  // ---- what happens to the builders ----

  /** What a step means for the builder of a key: it may add to it or empty it by sealing. */
  function BuilderAfter(c: Config, s: State, step: Step, k: Key): nat {
    match step
    case Collect(x, n) => BuilderBytes(s, k) + (if x == k && GetOrCreate(c, s, k).Some? then n else 0)
    case Seal(x) => if x == k then 0 else BuilderBytes(s, k)
    case _ => BuilderBytes(s, k)
  }

  /** The builder of a key changes only by what is added or sealed, unless the step frees the key. */
  lemma BuilderKept(c: Config, s: State, step: Step, k: Key)
    requires Inv(c, s) && Enabled(s, step)
    ensures var s1 := Apply(c, s, step);
            BuilderBytes(s1, k) == if k in s.queues && k !in s1.queues then 0 else BuilderAfter(c, s, step, k)
  {
    hide Inv, Placed, DoPick, Promote, Insert, Without, Omit, KeysOf, Kept, ExpiredKeys, Known;
    InvPlaced(c, s);
    match step
    case Pick(now) => PickKeepsBuilders(s, now);
    case _ =>
  }

  lemma PickKeepsBuilders(s: State, now: int)
    requires Placed(s) && Sorted(s.delayed)
    ensures DoPick(s, now).queues.Keys == s.queues.Keys
    ensures forall k :: k in s.queues ==> DoPick(s, now).queues[k].builder == s.queues[k].builder
  {
    PromotePlaced(s, now);
    hide Promote;
  }

  /** A step frees only empty queues nobody holds, and it loses bytes, that is
      frees a queue whose builder holds some, exactly under the guards of `Loses`. */
  lemma LosesExactly(c: Config, s: State, step: Step)
    requires Inv(c, s) && Enabled(s, step)
    ensures var s1 := Apply(c, s, step);
            && (forall k | k in s.queues && k !in s1.queues :: step.Finish? || step.IdleCleanup?)
            && (Loses(c, s, step) <==> exists k :: k in s.queues && k !in s1.queues && s.queues[k].builder > 0)
  {
    hide Inv, Placed, Promote, Insert, Without, Omit, KeysOf, Kept;
    InvPlaced(c, s);
    match step
    case Finish(k, now) => FinishFrees(c, s, k, now);
    case IdleCleanup(now) => CleanupLoses(c, s, now);
    case Pick(now) => PickKeepsBuilders(s, now);
    case _ =>
  }

  lemma FinishFrees(c: Config, s: State, k: Key, now: int)
    requires InFlight(s, k)
    ensures forall x :: x in s.queues && x !in DoFinish(c, s, k, now).queues <==>
                        x == k && s.queues[k].tasks == [] && c.idleTtlMs <= 0
  {
  }

  lemma CleanupLoses(c: Config, s: State, now: int)
    requires Placed(s)
    ensures Loses(c, s, IdleCleanup(now)) <==>
              exists k :: k in s.queues && k !in DoIdleCleanup(c, s, now).queues && s.queues[k].builder > 0
  {
    ExpiredAreIdle(c, s, now);
    if Loses(c, s, IdleCleanup(now)) {
      var e :| e in s.idle && Expired(c, e, now) && e.key in s.queues && s.queues[e.key].builder > 0;
      assert e.key in ExpiredKeys(c, s.idle, now);
    }
  }

  // ---- queues no cleanup can take ----

  /** An empty queue on no list: it was looked up, for a log or a reservation, and no task has come yet. */
  predicate Limbo(s: State, k: Key) {
    k in s.queues && s.queues[k].tasks == [] && s.queues[k].hand.None? && k !in KeysOf(s.idle)
  }

  predicate Pushes(step: Step, k: Key) {
    step.Push? && step.key == k
  }

  /** Looking a key up leaves an empty queue in limbo, be it new or taken off the idle list. */
  lemma LookupMakesLimbo(c: Config, s: State, k: Key)
    requires Placed(s) && WithinLimit(c, s) && GetOrCreate(c, s, k).Some?
    ensures Limbo(GetOrCreate(c, s, k).value, k) <==>
              k in s.queues ==> s.queues[k].tasks == [] && s.queues[k].hand.None?
  {
    GetOrCreatePlaced(c, s, k);
  }

  /** Only a task pushed for the key gets its queue out of limbo. */
  lemma LimboEndsWithPush(c: Config, s: State, step: Step, k: Key)
    requires Inv(c, s) && Enabled(s, step) && Limbo(s, k)
    ensures Limbo(Apply(c, s, step), k) <==> !Pushes(step, k)
  {
    hide Inv, Promote;
    match step
    case Push(x, t) => LookupKeepsLimbo(c, s, x, k);
    case Reserve(x) => LookupKeepsLimbo(c, s, x, k);
    case Collect(x, n) => LookupKeepsLimbo(c, s, x, k);
    case Seal(x) =>
    case Pick(now) => PickKeepsLimbo(c, s, now, k);
    case Requeue(x, next) => InvPlaced(c, s); WithoutKeeps(s.idle, x);
    case BreakerResult(_, _, _) =>
    case Finish(x, now) => FinishKeepsLimbo(c, s, x, now, k);
    case IdleCleanup(now) => CleanupKeepsLimbo(c, s, now, k);
  }

  lemma LookupKeepsLimbo(c: Config, s: State, x: Key, k: Key)
    requires Inv(c, s) && Limbo(s, k)
    ensures GetOrCreate(c, s, x).Some? ==> Limbo(GetOrCreate(c, s, x).value, k)
    ensures GetOrCreate(c, s, k).Some?
  {
    if x in s.queues {
      WithoutKeeps(s.idle, x);
    }
  }

  lemma PickKeepsLimbo(c: Config, s: State, now: int, k: Key)
    requires Inv(c, s) && Limbo(s, k)
    ensures Limbo(DoPick(s, now), k)
  {
    PromotePlaced(s, now);
    var p := Promote(s, now);
    assert p.ready != [] ==> p.ready[0] in p.ready;
    hide Promote;
  }

  lemma FinishKeepsLimbo(c: Config, s: State, x: Key, now: int, k: Key)
    requires Inv(c, s) && InFlight(s, x) && Limbo(s, k)
    ensures Limbo(DoFinish(c, s, x, now), k)
  {
    WithoutKeeps(s.idle, x);
    KeysOfConcat(s.idle, [Entry(x, now)]);
    assert KeysOf([Entry(x, now)]) == [x];
    hide Placed, InOrder, Insert, KeysOf;
  }

  lemma CleanupKeepsLimbo(c: Config, s: State, now: int, k: Key)
    requires Inv(c, s) && Limbo(s, k)
    ensures Limbo(DoIdleCleanup(c, s, now), k)
  {
    KeptKeys(c, s.idle, now);
    ExpiredListed(c, s.idle, now);
    hide Kept, ExpiredKeys, KeysOf;
  }

  /** No step among those from `a` to `b` pushes a task for the key. */
  predicate NoPush(steps: seq<Step>, a: nat, b: nat, k: Key)
    requires a <= b <= |steps|
  {
    forall i | a <= i < b :: !Pushes(steps[i], k)
  }

  /** In every run, a queue in limbo stays, and stays in limbo, until a task is pushed for its key. */
  lemma {:induction false} LimboStays(c: Config, trace: seq<State>, steps: seq<Step>, a: nat, b: nat, k: Key)
    requires IsRun(c, trace, steps) && a <= b < |trace| && Limbo(trace[a], k)
    requires NoPush(steps, a, b, k)
    ensures Limbo(trace[b], k)
    decreases b
  {
    if a < b {
      LimboStays(c, trace, steps, a, b - 1, k);
      InvInEveryRun(c, trace, steps, b - 1);
      assert StepAt(c, trace, steps, b - 1);
      LimboEndsWithPush(c, trace[b - 1], steps[b - 1], k);
    }
  }

  /** Queues in limbo use the limit up: as long as no task is pushed for one of
      them, no cleanup makes room and every other key is refused. */
  lemma LimboUsesUpLimit(c: Config, trace: seq<State>, steps: seq<Step>, a: nat, b: nat, x: Key)
    requires IsRun(c, trace, steps) && a <= b < |trace|
    requires 0 < c.maxActive == |trace[a].queues|
    requires forall k | k in trace[a].queues :: Limbo(trace[a], k) && NoPush(steps, a, b, k)
    ensures trace[b].queues.Keys == trace[a].queues.Keys
    ensures x !in trace[a].queues ==> GetOrCreate(c, trace[b], x) == None
  {
    hide IsRun, NoPush;
    InvInEveryRun(c, trace, steps, b);
    forall k | k in trace[a].queues ensures k in trace[b].queues {
      LimboStays(c, trace, steps, a, b, k);
    }
    InvPlaced(c, trace[b]);
    hide Inv;
    SameSize(trace[a].queues.Keys, trace[b].queues.Keys);
  }

  lemma SameSize(a: set<Key>, b: set<Key>)
    requires a <= b && |b| <= |a|
    ensures a == b
  {
    if x :| x in b && x !in a {
      Fewer(a, b - {x});
    }
  }

  function LeadingDue(es: seq<Entry>, now: int): (n: nat)
    ensures n <= |es|
  {
    if es == [] || es[0].at > now then 0 else 1 + LeadingDue(es[1..], now)
  }

  lemma {:induction false} DueLead(es: seq<Entry>, now: int)
    requires Sorted(es)
    ensures forall j :: 0 <= j < |es| ==> (es[j].at <= now <==> j < LeadingDue(es, now))
  {
    if es != [] && es[0].at <= now {
      DueLead(es[1..], now);
      assert forall j :: 1 <= j < |es| ==> es[j] == es[1..][j - 1];
    }
  }

  /** The promotion stops at the first entry not yet due, and that loses nothing:
      it moves exactly the due entries, in their order, to the ready tail. */
  lemma {:induction false} PromoteExact(s: State, now: int) returns (n: nat)
    requires Placed(s) && Sorted(s.delayed)
    ensures n <= |s.delayed|
    ensures forall j :: 0 <= j < |s.delayed| ==> (s.delayed[j].at <= now <==> j < n)
    ensures Promote(s, now) ==
            s.(ready := s.ready + KeysOf(s.delayed[..n]), delayed := s.delayed[n..])
  {
    n := LeadingDue(s.delayed, now);
    DueLead(s.delayed, now);
    PromoteLead(s, now);
  }

  lemma LeadSplit(es: seq<Entry>, n: nat, ready: seq<Key>)
    requires 0 < n <= |es|
    ensures ready + KeysOf(es[..n]) == ready + [es[0].key] + KeysOf(es[1..][..n - 1])
    ensures es[n..] == es[1..][n - 1..]
  {
    assert es[..n] == [es[0]] + es[1..][..n - 1];
    assert KeysOf(es[..n]) == [es[0].key] + KeysOf(es[1..][..n - 1]);
  }

  lemma {:induction false} PromoteLead(s: State, now: int)
    requires Placed(s) && Sorted(s.delayed)
    ensures var n := LeadingDue(s.delayed, now);
            Promote(s, now) == s.(ready := s.ready + KeysOf(s.delayed[..n]), delayed := s.delayed[n..])
    decreases |s.delayed|
  {
    var n := LeadingDue(s.delayed, now);
    if n > 0 {
      var s1 := PromoteOne(s);
      PromoteLead(s1, now);
      LeadSplit(s.delayed, n, s.ready);
    }
  }

  /** One round of the promotion loop. */
  lemma PromoteOne(s: State) returns (s1: State)
    requires Placed(s) && Sorted(s.delayed) && s.delayed != []
    ensures s1 == s.(delayed := s.delayed[1..], ready := s.ready + [s.delayed[0].key])
    ensures Placed(s1) && Sorted(s1.delayed)
    ensures forall now :: s.delayed[0].at <= now ==> Promote(s, now) == Promote(s1, now)
  {
    assert KeysOf(s.delayed)[0] in KeysOf(s.delayed);
    DelayedTailPlaced(s);
    ReadyAddPlaced(s.(delayed := s.delayed[1..]), s.delayed[0].key);
    s1 := ReadyAdd(s.(delayed := s.delayed[1..]), s.delayed[0].key);
  }

  // ---- fairness ----

  /** How many keys a step takes from the front of the ready list. */
  function Taken(step: Step): nat {
    if step.Pick? then 1 else 0
  }

  /** What a step does not take stays at the front of the ready list. */
  predicate KeepsFront(before: seq<Key>, step: Step, after: seq<Key>) {
    Taken(step) <= |before| ==> before[Taken(step)..] <= after
  }

  lemma ReadyAfterStep(c: Config, s: State, step: Step, s': State)
    requires Inv(c, s) && Next(c, s, step, s')
    ensures KeepsFront(s.ready, step, s'.ready)
  {
    match step
    case Push(k, t) => PushPlaced(c, s, k, t);
    case Reserve(k) =>
    case Collect(k, n) => CollectInv(c, s, k, n);
    case Seal(k) =>
    case Pick(now) => PromotePlaced(s, now);
    case Requeue(k, next) => RequeueInv(c, s, k, next);
    case BreakerResult(k, ok, now) =>
    case Finish(k, now) => FinishPlaced(c, s, k, now);
    case IdleCleanup(now) =>
  }

  /** The number of picks among the steps. */
  function Picks(steps: seq<Step>): nat {
    if steps == [] then 0 else Taken(steps[0]) + Picks(steps[1..])
  }

  lemma {:induction false} Advance(ready: seq<seq<Key>>, steps: seq<Step>, i: nat)
    requires |ready| == |steps| + 1
    requires forall j {:trigger steps[j]} :: 0 <= j < |steps| ==> KeepsFront(ready[j], steps[j], ready[j + 1])
    requires Picks(steps) <= i < |ready[0]|
    ensures var last := ready[|steps|];
            i - Picks(steps) < |last| && last[i - Picks(steps)] == ready[0][i]
  {
    if steps != [] {
      var n := Taken(steps[0]);
      assert ready[0][n..][i - n] == ready[0][i];
      Advance(ready[1..], steps[1..], i - n);
    }
  }

  lemma FrontInEveryRun(c: Config, trace: seq<State>, steps: seq<Step>, j: nat)
    requires IsRun(c, trace, steps) && j < |steps|
    ensures KeepsFront(trace[j].ready, steps[j], trace[j + 1].ready)
  {
    InvInEveryRun(c, trace, steps, j);
    assert StepAt(c, trace, steps, j);
    ReadyAfterStep(c, trace[j], steps[j], trace[j + 1]);
  }

  /** However steps interleave, after `p <= i` picks the key at position `i` has moved up by `p`. */
  lemma ReadyPosition(c: Config, trace: seq<State>, steps: seq<Step>, a: nat, b: nat, i: nat)
    requires IsRun(c, trace, steps) && a <= b < |trace|
    requires Picks(steps[a..b]) <= i < |trace[a].ready|
    ensures var p := Picks(steps[a..b]);
            i - p < |trace[b].ready| && trace[b].ready[i - p] == trace[a].ready[i]
  {
    var ready := seq(b - a + 1, j requires 0 <= j <= b - a => trace[a + j].ready);
    forall j {:trigger steps[a..b][j]} | 0 <= j < b - a
      ensures KeepsFront(ready[j], steps[a..b][j], ready[j + 1])
    {
      FrontInEveryRun(c, trace, steps, a + j);
    }
    Advance(ready, steps[a..b], i);
  }

  /** Bounded bypass: the key at position `i` is taken by exactly the (i+1)-th
      pick from now, whatever is pushed, promoted, delayed or finished before it. */
  lemma BoundedBypass(c: Config, trace: seq<State>, steps: seq<Step>, a: nat, b: nat, i: nat, now: int)
    requires IsRun(c, trace, steps) && a <= b < |trace|
    requires i < |trace[a].ready| && Picks(steps[a..b]) == i
    ensures Known(trace[b]) && Picked(trace[b], now) == Some(trace[a].ready[i])
  {
    ReadyPosition(c, trace, steps, a, b, i);
    InvInEveryRun(c, trace, steps, b);
    PromotePlaced(trace[b], now);
  }
}
