/** Doubly linked lists threaded through the key queues, with one map for each
    pointer field: `next[q]` is what the code writes `q->next`. */
module Links {
  import opened Basics
  import opened SchedulerSpec
  import SchedulerLaws

  /** The address of a key queue. */
  type Ref = nat

  const NULL: Ref := 0

  /** `q->f` for every `q` whose memory has been in use. */
  type Field<T> = map<Ref, T>

  function Get<T>(f: Field<T>, q: Ref, default: T): T {
    if q in f then f[q] else default
  }

  predicate Nodes(qs: seq<Ref>) {
    Distinct(qs) && NULL !in qs
  }

  predicate Back(prev: Field<Ref>, qs: seq<Ref>) {
    && (forall i :: 0 <= i < |qs| ==> qs[i] in prev)
    && (qs != [] ==> prev[qs[0]] == NULL)
    && (forall i {:trigger prev[qs[i]]} :: 1 <= i < |qs| ==> prev[qs[i]] == qs[i - 1])
  }

  predicate Forth(next: Field<Ref>, qs: seq<Ref>) {
    && (forall i :: 0 <= i < |qs| ==> qs[i] in next)
    && (qs != [] ==> next[qs[|qs| - 1]] == NULL)
    && (forall i {:trigger next[qs[i]]} :: 0 <= i < |qs| - 1 ==> next[qs[i]] == qs[i + 1])
  }

  function First(qs: seq<Ref>): Ref {
    if qs == [] then NULL else qs[0]
  }

  function Last(qs: seq<Ref>): Ref {
    if qs == [] then NULL else qs[|qs| - 1]
  }

  /** One of the lists: its ends, and the two pointers and the membership flag of every queue. */
  datatype Chain = Chain(head: Ref, tail: Ref, prev: Field<Ref>, next: Field<Ref>, on: Field<bool>)

  predicate Marked(on: Field<bool>, qs: seq<Ref>) {
    && (forall i :: 0 <= i < |qs| ==> qs[i] in on)
    && (forall q | q in on :: on[q] <==> q in qs)
  }

  /** The pointers spell the list `qs` of live queues, and the flag is set on its members. */
  ghost predicate Spells(c: Chain, qs: seq<Ref>, live: set<Ref>) {
    && Nodes(qs)
    && c.head == First(qs) && c.tail == Last(qs)
    && Back(c.prev, qs) && Forth(c.next, qs)
    && Marked(c.on, qs)
    && NULL !in live && live <= c.on.Keys
    && (forall q | q in qs :: q in live)
  }

  lemma SpellsTells(c: Chain, qs: seq<Ref>, live: set<Ref>)
    requires Spells(c, qs, live)
    ensures Distinct(qs) && c.head == First(qs) && NULL !in live
    ensures forall q :: q in qs ==> q in live && q in c.next
    ensures forall q :: q in live ==> q in c.on && (c.on[q] <==> q in qs)
  {
  }

  /** Following the list from position `i`. */
  lemma NextTells(c: Chain, qs: seq<Ref>, live: set<Ref>, i: nat)
    requires Spells(c, qs, live) && i < |qs|
    ensures qs[i] != NULL && qs[i] in c.next && c.next[qs[i]] == First(qs[i + 1..])
  {
  }

  function Put<T>(s: seq<T>, p: nat, x: T): seq<T>
    requires p <= |s|
  {
    s[..p] + [x] + s[p..]
  }

  function Drop<T>(s: seq<T>, i: nat): seq<T>
    requires i < |s|
  {
    s[..i] + s[i + 1..]
  }

  // ---- hanging a queue behind the tail ----

  method LinkTail(c: Chain, q: Ref, ghost qs: seq<Ref>, ghost live: set<Ref>) returns (r: Chain)
    requires Spells(c, qs, live) && q in live && q !in qs
    ensures Spells(r, qs + [q], live)
    ensures r.on == c.on[q := true]
  {
    BackTail(c.prev, qs, q);
    ForthTail(c.next, qs, q);
    r := c.(on := c.on[q := true]);
    r := r.(prev := r.prev[q := r.tail]);
    r := r.(next := r.next[q := NULL]);
    if r.tail != NULL {
      r := r.(next := r.next[r.tail := q]);
    } else {
      r := r.(head := q);
    }
    r := r.(tail := q);
  }

  lemma BackTail(prev: Field<Ref>, qs: seq<Ref>, q: Ref)
    requires Nodes(qs) && Back(prev, qs) && q !in qs
    ensures Back(prev[q := Last(qs)], qs + [q])
  {
  }

  lemma ForthTail(next: Field<Ref>, qs: seq<Ref>, q: Ref)
    requires Nodes(qs) && Forth(next, qs) && q !in qs
    ensures qs == [] ==> Forth(next[q := NULL], [q])
    ensures qs != [] ==> Forth(next[q := NULL][Last(qs) := q], qs + [q])
  {
  }

  // ---- taking a queue out ----

  /** Does nothing to a queue whose flag is not set. */
  method Unlink(c: Chain, q: Ref, ghost qs: seq<Ref>, ghost live: set<Ref>) returns (r: Chain)
    requires Spells(c, qs, live) && q in live
    ensures q in c.on && Spells(r, Omit(qs, q), live)
    ensures r.on == c.on[q := false]
  {
    hide Spells;
    SpellsTells(c, qs, live);
    if !c.on[q] {
      SchedulerLaws.OmitAbsent(qs, q);
      return c;
    }
    ghost var i: nat :| i < |qs| && qs[i] == q;
    SchedulerLaws.OmitAt(qs, i);
    Out(c, qs, i, live);
    r := c;
    var before, behind := r.prev[q], r.next[q];
    if before != NULL {
      r := r.(next := r.next[before := behind]);
    } else {
      r := r.(head := behind);
    }
    if behind != NULL {
      r := r.(prev := r.prev[behind := before]);
    } else {
      r := r.(tail := before);
    }
    r := r.(prev := r.prev[q := NULL]);
    r := r.(next := r.next[q := NULL]);
    r := r.(on := r.on[q := false]);
  }

  /** The list with the links around `q` joined and those of `q` cleared. */
  function Cut(c: Chain, q: Ref): Chain {
    var before, behind := Get(c.prev, q, NULL), Get(c.next, q, NULL);
    Chain(if before != NULL then c.head else behind,
          if behind != NULL then c.tail else before,
          (if behind != NULL then c.prev[behind := before] else c.prev)[q := NULL],
          (if before != NULL then c.next[before := behind] else c.next)[q := NULL],
          c.on[q := false])
  }

  lemma {:induction false} Out(c: Chain, qs: seq<Ref>, i: nat, live: set<Ref>)
    requires Spells(c, qs, live) && i < |qs|
    ensures qs[i] in c.prev && qs[i] in c.next
    ensures Spells(Cut(c, qs[i]), Drop(qs, i), live)
  {
    assert i > 0 ==> c.prev[qs[i]] == qs[i - 1];
    assert i + 1 < |qs| ==> c.next[qs[i]] == qs[i + 1];
    SchedulerLaws.DropDistinct(qs, i);
    BackDrop(c.prev, qs, i);
    ForthDrop(c.next, qs, i);
    MarkDrop(c.on, qs, i);
    DropEnds(qs, i);
  }

  lemma DropEnds(qs: seq<Ref>, i: nat)
    requires i < |qs|
    ensures First(Drop(qs, i)) == if i > 0 then First(qs) else if |qs| > 1 then qs[1] else NULL
    ensures Last(Drop(qs, i)) == if i + 1 < |qs| then Last(qs) else if i > 0 then qs[i - 1] else NULL
  {
  }

  lemma MarkDrop(on: Field<bool>, qs: seq<Ref>, i: nat)
    requires Nodes(qs) && Marked(on, qs) && i < |qs|
    ensures Marked(on[qs[i] := false], Drop(qs, i))
  {
    SchedulerLaws.DropDistinct(qs, i);
  }

  lemma BackDrop(prev: Field<Ref>, qs: seq<Ref>, i: nat)
    requires Nodes(qs) && Back(prev, qs) && i < |qs|
    ensures i + 1 < |qs| ==> Back(prev[qs[i + 1] := prev[qs[i]]][qs[i] := NULL], Drop(qs, i))
    ensures i + 1 == |qs| ==> Back(prev[qs[i] := NULL], Drop(qs, i))
  {
    var r := Drop(qs, i);
    assert forall j :: 0 <= j < |r| ==> r[j] == qs[if j < i then j else j + 1];
  }

  lemma ForthDrop(next: Field<Ref>, qs: seq<Ref>, i: nat)
    requires Nodes(qs) && Forth(next, qs) && i < |qs|
    ensures i > 0 ==> Forth(next[qs[i - 1] := next[qs[i]]][qs[i] := NULL], Drop(qs, i))
    ensures i == 0 ==> Forth(next[qs[i] := NULL], Drop(qs, i))
  {
    var r := Drop(qs, i);
    assert forall j :: 0 <= j < |r| ==> r[j] == qs[if j < i then j else j + 1];
  }

  /** Takes the head. */
  method PopHead(c: Chain, ghost qs: seq<Ref>, ghost live: set<Ref>) returns (r: Chain)
    requires Spells(c, qs, live) && qs != []
    ensures c.head == qs[0] && qs[0] in c.on && Spells(r, qs[1..], live)
    ensures r.on == c.on[qs[0] := false]
  {
    hide Spells;
    SpellsTells(c, qs, live);
    Out(c, qs, 0, live);
    OnlyHead(c, qs, live);
    assert Drop(qs, 0) == qs[1..];
    var q := c.head;
    r := c.(head := c.next[q]);
    if r.head != NULL {
      r := r.(prev := r.prev[r.head := NULL]);
    } else {
      r := r.(tail := NULL);
    }
    r := r.(prev := r.prev[q := NULL]);
    r := r.(next := r.next[q := NULL]);
    r := r.(on := r.on[q := false]);
  }

  lemma OnlyHead(c: Chain, qs: seq<Ref>, live: set<Ref>)
    requires Spells(c, qs, live) && qs != []
    ensures qs[0] in c.prev && c.prev[qs[0]] == NULL && qs[0] in c.next && qs[0] in c.on
    ensures qs[0] in live
  {
  }

  /** A zeroed queue joins the live ones, on no list. */
  lemma Grow(c: Chain, qs: seq<Ref>, live: set<Ref>, q: Ref)
    requires Spells(c, qs, live) && q != NULL && q !in live
    ensures Spells(c.(prev := c.prev[q := NULL], next := c.next[q := NULL], on := c.on[q := false]), qs, live + {q})
  {
    assert q !in qs;
  }

  /** A queue on no list leaves the live ones. */
  lemma Shrink(c: Chain, qs: seq<Ref>, live: set<Ref>, q: Ref)
    requires Spells(c, qs, live) && q !in qs
    ensures Spells(c, qs, live - {q})
  {
  }

  // ---- hanging a queue before another one ----

  method LinkBefore(c: Chain, q: Ref, cur: Ref, ghost qs: seq<Ref>, ghost p: nat, ghost live: set<Ref>) returns (r: Chain)
    requires Spells(c, qs, live) && p < |qs| && qs[p] == cur && q in live && q !in qs
    ensures Spells(r, Put(qs, p, q), live)
    ensures r.on == c.on[q := true]
  {
    hide Spells;
    SpellsPrev(c, qs, p, live);
    PutSpells(c, q, qs, p, live);
    r := c.(on := c.on[q := true]);
    var before := r.prev[cur];
    r := r.(next := r.next[q := cur]);
    r := r.(prev := r.prev[q := before]);
    if before != NULL {
      r := r.(next := r.next[before := q]);
    } else {
      r := r.(head := q);
    }
    r := r.(prev := r.prev[cur := q]);
  }

  /** Hangs `q` in front of `cur`, or behind the tail when `cur` is null: either way at position `p`. */
  method LinkAt(c: Chain, q: Ref, cur: Ref, ghost qs: seq<Ref>, ghost p: nat, ghost live: set<Ref>) returns (r: Chain)
    requires Spells(c, qs, live) && p <= |qs| && cur == First(qs[p..]) && q in live && q !in qs
    ensures Spells(r, Put(qs, p, q), live)
    ensures r.on == c.on[q := true]
  {
    hide Spells;
    NoNull(c, qs, live);
    if cur == NULL {
      assert Put(qs, p, q) == qs + [q];
      r := LinkTail(c, q, qs, live);
    } else {
      r := LinkBefore(c, q, cur, qs, p, live);
    }
  }

  lemma NoNull(c: Chain, qs: seq<Ref>, live: set<Ref>)
    requires Spells(c, qs, live)
    ensures forall p :: 0 <= p < |qs| ==> qs[p] != NULL
  {
  }

  /** The list with `q` hung in front of `cur`. */
  function Hang(c: Chain, q: Ref, cur: Ref): Chain {
    var before, next1 := Get(c.prev, cur, NULL), c.next[q := cur];
    Chain(if before != NULL then c.head else q, c.tail,
          c.prev[q := before][cur := q],
          if before != NULL then next1[before := q] else next1,
          c.on[q := true])
  }

  /** Following the list backwards from position `p`. */
  lemma SpellsPrev(c: Chain, qs: seq<Ref>, p: nat, live: set<Ref>)
    requires Spells(c, qs, live) && p < |qs|
    ensures qs[p] in c.prev && qs[p] in c.next && qs[p] != NULL
    ensures c.prev[qs[p]] == if p > 0 then qs[p - 1] else NULL
    ensures p > 0 ==> qs[p - 1] in c.next && qs[p - 1] != NULL
  {
  }

  lemma {:induction false} PutSpells(c: Chain, q: Ref, qs: seq<Ref>, p: nat, live: set<Ref>)
    requires Spells(c, qs, live) && p < |qs| && q in live && q !in qs
    ensures Spells(Hang(c, q, qs[p]), Put(qs, p, q), live)
  {
    SchedulerLaws.AddDistinct(qs, p, q);
    BackPut(c.prev, qs, p, q);
    ForthPut(c.next, qs, p, q);
    MarkPut(c.on, qs, p, q);
    PutEnds(qs, p, q);
  }

  lemma PutEnds(qs: seq<Ref>, p: nat, q: Ref)
    requires p < |qs|
    ensures First(Put(qs, p, q)) == if p == 0 then q else First(qs)
    ensures Last(Put(qs, p, q)) == Last(qs)
  {
  }

  lemma MarkPut(on: Field<bool>, qs: seq<Ref>, p: nat, q: Ref)
    requires Nodes(qs) && Marked(on, qs) && p <= |qs| && q !in qs
    ensures Marked(on[q := true], Put(qs, p, q))
  {
    SchedulerLaws.AddDistinct(qs, p, q);
  }

  lemma BackPut(prev: Field<Ref>, qs: seq<Ref>, p: nat, q: Ref)
    requires Nodes(qs) && Back(prev, qs) && p < |qs| && q !in qs
    ensures Back(prev[q := prev[qs[p]]][qs[p] := q], Put(qs, p, q))
  {
    var r := Put(qs, p, q);
    assert r[p] == q;
    assert forall j :: 0 <= j < |r| && j != p ==> r[j] == qs[if j < p then j else j - 1];
  }

  lemma ForthPut(next: Field<Ref>, qs: seq<Ref>, p: nat, q: Ref)
    requires Nodes(qs) && Forth(next, qs) && p < |qs| && q !in qs
    ensures p > 0 ==> Forth(next[q := qs[p]][qs[p - 1] := q], Put(qs, p, q))
    ensures p == 0 ==> Forth(next[q := qs[p]], Put(qs, p, q))
  {
    var r := Put(qs, p, q);
    assert r[p] == q;
    assert forall j :: 0 <= j < |r| && j != p ==> r[j] == qs[if j < p then j else j - 1];
  }
}
