/** The key-queue scheduler as the code keeps it: a chained hash index and three
    intrusive doubly linked lists over the key queues, all updated in place.
    A queue is known by its address, and a field of the queue structure is a map
    over addresses: writing `q->hnext` is updating the map `hnext` at `q`. */
module Scheduler {
  import opened Basics
  import opened SchedulerSpec
  import opened Links
  import opened Rings
  import SchedulerLaws

  // ---- hashing ----

  /** One FNV-1a round: the byte is xored into the low eight bits, and the product wraps at 32 bits. */
  function FnvRound(h: Word32, b: Byte): Word32 {
    ((h - h % 256 + XorByte(h % 256, b)) * 16777619) % 0x1_0000_0000
  }

  function FnvFrom(h: Word32, s: Key): Word32
    decreases |s|
  {
    if s == [] then h else FnvFrom(FnvRound(h, s[0]), s[1..])
  }

  function Fnv1a(s: Key): Word32 {
    FnvFrom(2166136261, s)
  }

  /** Known values of 32-bit FNV-1a: of nothing, and of "a". */
  lemma FnvVectors(s: Key)
    ensures s == [] ==> Fnv1a(s) == 0x811c9dc5
    ensures s == ['a' as int] ==> Fnv1a(s) == 0xe40c292c
  {
    hide XorByte, FnvRound;
    if s == ['a' as int] {
      RoundOfA();
      assert s[1..] == [] && s[0] == 0x61;
      assert FnvFrom(FnvRound(0x811c9dc5, 0x61), []) == 0xe40c292c;
    }
  }

  lemma RoundOfA()
    ensures FnvRound(0x811c9dc5, 0x61) == 0xe40c292c
  {
    hide XorByte;
    XorOfA();
  }

  lemma XorOfA()
    ensures XorByte(0xc5, 0x61) == 0xa4
  {
  }

  method HashKey(s: Key) returns (h: Word32)
    ensures h == Fnv1a(s)
  {
    h := 2166136261;
    var i := 0;
    while i < |s|
      invariant 0 <= i <= |s|
      invariant FnvFrom(h, s[i..]) == Fnv1a(s)
    {
      assert s[i..][1..] == s[i + 1..];
      h := FnvRound(h, s[i]);
      i := i + 1;
    }
  }

  /** The fields of a queue that are neither its name nor a link nor its ring of
      tasks. `builder` is the length of the logs in its builder, zero without one. */
  datatype KeyQueue = KeyQueue(inflight: bool, openUntilMs: int, failures: int, builder: nat)

  const ZEROED_QUEUE := KeyQueue(false, 0, 0, 0)

  /** The ring `q->q` of every queue, with its `head`, `tail`, `count` and `cap`. */
  type Deques = map<Ref, Ring<SendTask>>

  /** The first capacity of a ring of tasks. */
  const FIRST_CAP := 64

  /** The rings hold as many tasks as `tasks` lists. */
  ghost predicate Counted(key: Field<Key>, rings: Deques, tasks: Field<seq<SendTask>>, repr: set<object>)
    reads repr
  {
    forall q | q in key :: q in rings && q in tasks && rings[q] in repr && rings[q].count == |tasks[q]|
  }

  /** The rings, which lie in `repr`, hold exactly these tasks, and no two share memory. */
  ghost predicate RingsHold(key: Field<Key>, rings: Deques, tasks: Field<seq<SendTask>>, repr: set<object>)
    reads repr
  {
    && (forall q | q in key ::
          && q in rings && q in tasks && rings[q] in repr && rings[q].buf in repr
          && rings[q].Valid() && rings[q].blank == BLANK && rings[q].contents == tasks[q])
    && (forall p, q | p in key && q in key && p != q :: rings[p] != rings[q] && rings[p].buf != rings[q].buf)
  }

  lemma HoldCounts(key: Field<Key>, rings: Deques, tasks: Field<seq<SendTask>>, repr: set<object>)
    requires RingsHold(key, rings, tasks, repr)
    ensures Counted(key, rings, tasks, repr)
    ensures forall q :: q in key ==> q in tasks
  {
  }

  lemma FewerRings(key: Field<Key>, key': Field<Key>, rings: Deques, tasks: Field<seq<SendTask>>, repr: set<object>)
    requires RingsHold(key, rings, tasks, repr) && key'.Keys <= key.Keys
    ensures RingsHold(key', rings, tasks, repr)
  {
  }

  /** The allocator hands out a zeroed queue at `memory`, whose ring has no array yet. */
  method Calloc(rings: Deques, memory: Ref, ghost k: Key, ghost key: Field<Key>, ghost tasks: Field<seq<SendTask>>,
                ghost repr: set<object>)
    returns (zeroed: Deques, ghost repr': set<object>)
    requires RingsHold(key, rings, tasks, repr) && memory !in key
    ensures RingsHold(key, zeroed, tasks, repr') && RingsHold(key[memory := k], zeroed, tasks[memory := []], repr')
    ensures repr <= repr' && fresh(repr' - repr)
  {
    var ring := new Ring(FIRST_CAP, BLANK);
    zeroed, repr' := rings[memory := ring], repr + {ring, ring.buf};
  }

  method DequePush(rings: Deques, q: Ref, t: SendTask, ghost key: Field<Key>, ghost tasks: Field<seq<SendTask>>,
                   ghost repr: set<object>)
    returns (ghost repr': set<object>)
    requires RingsHold(key, rings, tasks, repr) && q in key
    modifies repr
    ensures RingsHold(key, rings, tasks[q := tasks[q] + [t]], repr')
    ensures repr <= repr' && fresh(repr' - repr)
  {
    rings[q].PushBack(t);
    repr' := repr + {rings[q].buf};
  }

  method DequePushFront(rings: Deques, q: Ref, t: SendTask, ghost key: Field<Key>, ghost tasks: Field<seq<SendTask>>,
                        ghost repr: set<object>)
    returns (ghost repr': set<object>)
    requires RingsHold(key, rings, tasks, repr) && q in key
    modifies repr
    ensures RingsHold(key, rings, tasks[q := [t] + tasks[q]], repr')
    ensures repr <= repr' && fresh(repr' - repr)
  {
    rings[q].PushFront(t);
    repr' := repr + {rings[q].buf};
  }

  /** What a pop hands out: the front task, or a blank one when the deque is empty. */
  function Front(tasks: seq<SendTask>): SendTask {
    if tasks == [] then BLANK else tasks[0]
  }

  function Behind(tasks: seq<SendTask>): seq<SendTask> {
    if tasks == [] then [] else tasks[1..]
  }

  method DequePop(rings: Deques, q: Ref, ghost key: Field<Key>, ghost tasks: Field<seq<SendTask>>, ghost repr: set<object>)
    returns (t: SendTask)
    requires RingsHold(key, rings, tasks, repr) && q in key
    modifies repr
    ensures t == Front(tasks[q]) && RingsHold(key, rings, tasks[q := Behind(tasks[q])], repr)
  {
    var ok;
    ok, t := rings[q].PopFront();
  }

  /** The bucket of a hash: the remainder, written so that it unfolds without division. */
  function Slot(h: nat, n: nat): (b: nat)
    requires 0 < n
    ensures b < n
    decreases h
  {
    if h < n then h else Slot(h - n, n)
  }

  lemma {:induction false} SlotIsRemainder(h: nat, n: nat)
    requires 0 < n
    ensures Slot(h, n) == h % n
    decreases h
  {
    if h >= n {
      SlotIsRemainder(h - n, n);
      RemainderStep(h, n);
    }
  }

  lemma {:induction false} RemainderStep(h: nat, n: nat)
    requires 0 < n <= h
    ensures (h - n) % n == h % n
  {
    var d, r := (h - n) / n, (h - n) % n;
    assert h == (d + 1) * n + r;
    DivisionUnique(h, n, d + 1, r);
  }

  // ---- the parts of the invariant ----

  /** The index maps each key to the one live queue of that key. */
  ghost predicate Indexed(key: Field<Key>, index: map<Key, Ref>) {
    && (forall k | k in index :: index[k] in key && key[index[k]] == k)
    && (forall q | q in key :: key[q] in index && index[key[q]] == q)
  }

  /** Each bucket heads a chain of linked queues. */
  predicate Heads(hnext: Field<Ref>, buckets: seq<Ref>, chains: seq<seq<Ref>>) {
    && 0 < |buckets| == |chains|
    && (forall b {:trigger chains[b]} | 0 <= b < |chains| ::
          Nodes(chains[b]) && Forth(hnext, chains[b]) && buckets[b] == First(chains[b]))
  }

  /** The chains hold exactly the live queues, each in the bucket of its key's hash. */
  predicate Holds(key: Field<Key>, hash: Field<Word32>, chains: seq<seq<Ref>>) {
    && 0 < |chains|
    && (forall q | q in key ::
          q in hash && hash[q] == Fnv1a(key[q]) && q in chains[Slot(hash[q], |chains|)])
    && (forall b, q {:trigger q in chains[b]} | 0 <= b < |chains| && q in chains[b] ::
          q in key && q in hash && Slot(hash[q], |chains|) == b)
  }

  ghost predicate Chained(key: Field<Key>, hash: Field<Word32>, hnext: Field<Ref>, buckets: seq<Ref>, chains: seq<seq<Ref>>) {
    Heads(hnext, buckets, chains) && Holds(key, hash, chains)
  }

  function ViewOf(x: KeyQueue, tasks: seq<SendTask>, hand: Option<SendTask>): QueueState {
    QueueState(tasks, hand, x.failures, x.openUntilMs, x.builder)
  }

  /** The queues' fields are those of the abstract queues. */
  ghost predicate Viewed(key: Field<Key>, queues: Field<KeyQueue>, tasks: Field<seq<SendTask>>,
                         hand: Field<Option<SendTask>>, view: map<Key, QueueState>) {
    forall q | q in key ::
      && q in queues && q in tasks && q in hand && key[q] in view
      && (queues[q].inflight <==> hand[q].Some?)
      && view[key[q]] == ViewOf(queues[q], tasks[q], hand[q])
  }

  function KeysAt(key: Field<Key>, qs: seq<Ref>): (ks: seq<Key>)
    ensures |ks| == |qs|
    ensures forall i :: 0 <= i < |qs| ==> ks[i] == Get(key, qs[i], [])
  {
    if qs == [] then [] else [Get(key, qs[0], [])] + KeysAt(key, qs[1..])
  }

  function EntryAt(key: Field<Key>, at: Field<int>, q: Ref): Entry {
    Entry(Get(key, q, []), Get(at, q, 0))
  }

  function EntriesAt(key: Field<Key>, at: Field<int>, qs: seq<Ref>): (es: seq<Entry>)
    ensures |es| == |qs|
    ensures forall i :: 0 <= i < |qs| ==> es[i] == EntryAt(key, at, qs[i])
  {
    if qs == [] then [] else [EntryAt(key, at, qs[0])] + EntriesAt(key, at, qs[1..])
  }

  lemma KeyListed(key: Field<Key>, index: map<Key, Ref>, c: Chain, qs: seq<Ref>, q: Ref)
    requires Indexed(key, index) && Spells(c, qs, key.Keys) && q in key
    ensures q in c.on && (key[q] in KeysAt(key, qs) <==> c.on[q])
  {
    hide Spells;
    SpellsTells(c, qs, key.Keys);
    if q in qs {
      var i :| 0 <= i < |qs| && qs[i] == q;
      assert KeysAt(key, qs)[i] == key[q];
    }
    if key[q] in KeysAt(key, qs) {
      var i :| 0 <= i < |qs| && KeysAt(key, qs)[i] == key[q];
      assert qs[i] in key;
    }
  }

  lemma {:induction false} EntryListed(key: Field<Key>, index: map<Key, Ref>, at: Field<int>, c: Chain, qs: seq<Ref>, q: Ref)
    requires Indexed(key, index) && Spells(c, qs, key.Keys) && q in key
    ensures q in c.on && (key[q] in KeysOf(EntriesAt(key, at, qs)) <==> c.on[q])
  {
    hide Spells, Indexed;
    assert KeysOf(EntriesAt(key, at, qs)) == KeysAt(key, qs);
    KeyListed(key, index, c, qs, q);
  }

  lemma {:induction false} KeysOmit(key: Field<Key>, index: map<Key, Ref>, qs: seq<Ref>, q: Ref)
    requires Indexed(key, index) && q in key && forall x | x in qs :: x in key
    ensures KeysAt(key, Omit(qs, q)) == Omit(KeysAt(key, qs), key[q])
  {
    if qs != [] {
      assert qs[0] in key;
      assert KeysAt(key, qs)[1..] == KeysAt(key, qs[1..]);
      if qs[0] != q {
        assert key[qs[0]] != key[q];
        KeysOmit(key, index, qs[1..], q);
      }
    }
  }

  lemma {:induction false} EntriesSame(key: Field<Key>, key': Field<Key>, at: Field<int>, at': Field<int>, qs: seq<Ref>)
    requires forall x | x in qs :: EntryAt(key', at', x) == EntryAt(key, at, x)
    ensures EntriesAt(key', at', qs) == EntriesAt(key, at, qs)
  {
    if qs != [] {
      assert qs[0] in qs;
      EntriesSame(key, key', at, at', qs[1..]);
    }
  }

  lemma {:induction false} KeysSame(key: Field<Key>, key': Field<Key>, qs: seq<Ref>)
    requires forall x | x in qs :: Get(key', x, []) == Get(key, x, [])
    ensures KeysAt(key', qs) == KeysAt(key, qs)
  {
    if qs != [] {
      assert qs[0] in qs;
      KeysSame(key, key', qs[1..]);
    }
  }

  lemma {:induction false} EntriesOmit(key: Field<Key>, index: map<Key, Ref>, at: Field<int>, at': Field<int>, qs: seq<Ref>, q: Ref)
    requires Indexed(key, index) && q in key && Distinct(qs) && forall x | x in qs :: x in key
    requires forall x | x in qs && x != q :: Get(at', x, 0) == Get(at, x, 0)
    ensures EntriesAt(key, at', Omit(qs, q)) == Without(EntriesAt(key, at, qs), key[q])
  {
    if qs != [] {
      assert qs[0] in key;
      assert EntriesAt(key, at, qs)[1..] == EntriesAt(key, at, qs[1..]);
      if qs[0] == q {
        assert forall j :: 1 <= j < |qs| ==> qs[j] != q;
        EntriesSame(key, key, at, at', qs[1..]);
      } else {
        assert key[qs[0]] != key[q];
        EntriesOmit(key, index, at, at', qs[1..], q);
      }
    }
  }

  lemma EntriesConcat(key: Field<Key>, at: Field<int>, a: seq<Ref>, b: seq<Ref>)
    ensures EntriesAt(key, at, a + b) == EntriesAt(key, at, a) + EntriesAt(key, at, b)
  {
    var l, r := EntriesAt(key, at, a + b), EntriesAt(key, at, a) + EntriesAt(key, at, b);
    forall i | 0 <= i < |a| + |b| ensures l[i] == r[i] {
      assert (a + b)[i] == if i < |a| then a[i] else b[i - |a|];
    }
  }

  lemma EntriesPut(key: Field<Key>, at: Field<int>, next: int, qs: seq<Ref>, p: nat, q: Ref)
    requires p <= |qs| && q in key && q !in qs
    requires forall j :: 0 <= j < p ==> Get(at, qs[j], 0) <= next
    requires p < |qs| ==> Get(at, qs[p], 0) > next
    ensures EntriesAt(key, at[q := next], Put(qs, p, q)) == Insert(EntriesAt(key, at, qs), Entry(key[q], next))
  {
    EntriesAround(key, at, next, qs, p, q);
    SchedulerLaws.InsertAt(EntriesAt(key, at, qs), Entry(key[q], next), p);
  }

  lemma EntriesAround(key: Field<Key>, at: Field<int>, next: int, qs: seq<Ref>, p: nat, q: Ref)
    requires p <= |qs| && q in key && q !in qs
    ensures EntriesAt(key, at[q := next], Put(qs, p, q)) == Put(EntriesAt(key, at, qs), p, Entry(key[q], next))
  {
    EntriesConcat(key, at[q := next], qs[..p] + [q], qs[p..]);
    EntriesConcat(key, at[q := next], qs[..p], [q]);
    EntriesHalves(key, at, at[q := next], qs, p);
  }

  lemma EntriesHalves(key: Field<Key>, at: Field<int>, at': Field<int>, qs: seq<Ref>, p: nat)
    requires p <= |qs|
    requires forall x | x in qs :: EntryAt(key, at', x) == EntryAt(key, at, x)
    ensures EntriesAt(key, at', qs[..p]) == EntriesAt(key, at, qs)[..p]
    ensures EntriesAt(key, at', qs[p..]) == EntriesAt(key, at, qs)[p..]
  {
    EntriesSame(key, key, at, at', qs[..p]);
    EntriesSame(key, key, at, at', qs[p..]);
    EntriesSplit(key, at, qs, p);
  }

  lemma EntriesSplit(key: Field<Key>, at: Field<int>, qs: seq<Ref>, p: nat)
    requires p <= |qs|
    ensures EntriesAt(key, at, qs)[..p] == EntriesAt(key, at, qs[..p])
    ensures EntriesAt(key, at, qs)[p..] == EntriesAt(key, at, qs[p..])
  {
  }

  lemma KeysAppend(key: Field<Key>, qs: seq<Ref>, q: Ref)
    requires q in key
    ensures KeysAt(key, qs + [q]) == KeysAt(key, qs) + [key[q]]
  {
  }

  // ---- the producer's scheduler fields ----

  datatype Store = Store(
    buckets: seq<Ref>,
    keyQueueCount: nat,
    key: Field<Key>,
    hash: Field<Word32>,
    hnext: Field<Ref>,
    queues: Field<KeyQueue>,
    nextReadyMs: Field<int>,
    emptySinceMs: Field<int>,
    ready: Chain,
    delayed: Chain,
    idle: Chain)

  /** What the index, the chains, the lists and the rings stand for; the task each sender holds. */
  datatype Shape = Shape(
    index: map<Key, Ref>,
    chains: seq<seq<Ref>>,
    ready: seq<Ref>,
    delayed: seq<Ref>,
    idle: seq<Ref>,
    tasks: Field<seq<SendTask>>,
    hand: Field<Option<SendTask>>)

  /** Always true. `Stands` speaks under this mark only, so that a proof looks
      into the fields just where it asserts the mark. */
  ghost predicate SeeFields(o: int) {
    true
  }

  /** The fields `m`, read as `g`, stand for the abstract state `s`. */
  ghost predicate Stands(m: Store, g: Shape, s: State) {
    forall o {:trigger SeeFields(o)} | SeeFields(o) ::
      && Indexed(m.key, g.index) && m.keyQueueCount == |g.index| && s.queues.Keys == g.index.Keys
      && Viewed(m.key, m.queues, g.tasks, g.hand, s.queues)
      && Chained(m.key, m.hash, m.hnext, m.buckets, g.chains)
      && Spells(m.ready, g.ready, m.key.Keys) && s.ready == KeysAt(m.key, g.ready)
      && Spells(m.delayed, g.delayed, m.key.Keys) && s.delayed == EntriesAt(m.key, m.nextReadyMs, g.delayed)
      && Spells(m.idle, g.idle, m.key.Keys) && s.idle == EntriesAt(m.key, m.emptySinceMs, g.idle)
  }

  /** What the fields of `q` say about the abstract state. */
  lemma FieldsTell(m: Store, g: Shape, s: State, q: Ref)
    requires Stands(m, g, s) && q in m.key
    ensures q in m.queues && q in g.tasks && q in g.hand && q in m.ready.on && q in m.delayed.on && q in m.idle.on
    ensures m.key[q] in s.queues
    ensures s.queues[m.key[q]] == ViewOf(m.queues[q], g.tasks[q], g.hand[q])
    ensures m.queues[q].inflight <==> g.hand[q].Some?
    ensures m.ready.on[q] <==> m.key[q] in s.ready
    ensures m.delayed.on[q] <==> m.key[q] in KeysOf(s.delayed)
    ensures m.idle.on[q] <==> m.key[q] in KeysOf(s.idle)
    ensures (q in g.ready <==> m.ready.on[q]) && (q in g.delayed <==> m.delayed.on[q]) && (q in g.idle <==> m.idle.on[q])
  {
    hide Indexed, Chained;
    assert SeeFields(0);
    KeyListed(m.key, g.index, m.ready, g.ready, q);
    EntryListed(m.key, g.index, m.nextReadyMs, m.delayed, g.delayed, q);
    EntryListed(m.key, g.index, m.emptySinceMs, m.idle, g.idle, q);
  }

  // ---- the ready list ----

  method ReadyAdd(m: Store, q: Ref, rings: Deques, ghost g: Shape, ghost s: State) returns (m': Store, ghost g': Shape)
    requires Stands(m, g, s) && q in m.key && q in rings && q in g.tasks && rings[q].count == |g.tasks[q]|
    ensures m.key[q] in s.queues && Stands(m', g', SchedulerSpec.ReadyAdd(s, m.key[q]))
    ensures m' == m.(ready := m'.ready) && g' == g.(ready := g'.ready)
  {
    hide Spells, Indexed, Viewed, Chained;
    assert SeeFields(0);
    FieldsTell(m, g, s, q);
    m', g' := m, g;
    if m.ready.on[q] || m.delayed.on[q] || m.queues[q].inflight || rings[q].count == 0 {
      return;
    }
    KeysAppend(m.key, g.ready, q);
    var ready := LinkTail(m.ready, q, g.ready, m.key.Keys);
    m', g' := m.(ready := ready), g.(ready := g.ready + [q]);
  }

  method ReadyRemove(m: Store, q: Ref, ghost g: Shape, ghost s: State) returns (m': Store, ghost g': Shape)
    requires Stands(m, g, s) && q in m.key
    ensures Stands(m', g', s.(ready := Omit(s.ready, m.key[q])))
    ensures m' == m.(ready := m'.ready) && g' == g.(ready := Omit(g.ready, q))
  {
    hide Spells, Indexed, Viewed, Chained;
    assert SeeFields(0);
    MembersLive(m, g, s);
    KeysOmit(m.key, g.index, g.ready, q);
    var ready := Unlink(m.ready, q, g.ready, m.key.Keys);
    m', g' := m.(ready := ready), g.(ready := Omit(g.ready, q));
  }

  lemma MembersLive(m: Store, g: Shape, s: State)
    requires Stands(m, g, s)
    ensures Distinct(g.delayed) && Distinct(g.idle)
    ensures forall x :: x in g.ready || x in g.delayed || x in g.idle ==> x in m.key
  {
    hide Indexed, Viewed, Chained;
    assert SeeFields(0);
  }

  // ---- the idle list ----

  method IdleRemove(m: Store, q: Ref, ghost g: Shape, ghost s: State) returns (m': Store, ghost g': Shape)
    requires Stands(m, g, s) && q in m.key
    ensures Stands(m', g', s.(idle := Without(s.idle, m.key[q])))
    ensures m' == m.(idle := m'.idle, emptySinceMs := m'.emptySinceMs) && g' == g.(idle := Omit(g.idle, q))
  {
    hide Spells, Indexed, Viewed, Chained, Without, Omit, EntriesAt, KeysAt, KeysOf;
    assert SeeFields(0);
    FieldsTell(m, g, s, q);
    m' := m;
    MembersLive(m, g, s);
    if m.idle.on[q] {
      m' := m'.(emptySinceMs := m'.emptySinceMs[q := 0]);
    }
    EntriesOmit(m.key, g.index, m.emptySinceMs, m'.emptySinceMs, g.idle, q);
    var idle := Unlink(m.idle, q, g.idle, m.key.Keys);
    m', g' := m'.(idle := idle), g.(idle := Omit(g.idle, q));
  }

  // ---- the delayed list ----

  method DelayedRemove(m: Store, q: Ref, ghost g: Shape, ghost s: State) returns (m': Store, ghost g': Shape)
    requires Stands(m, g, s) && q in m.key
    ensures Stands(m', g', s.(delayed := Without(s.delayed, m.key[q])))
    ensures m' == m.(delayed := m'.delayed, nextReadyMs := m'.nextReadyMs) && g' == g.(delayed := Omit(g.delayed, q))
  {
    hide Spells, Indexed, Viewed, Chained, Without, Omit, EntriesAt, KeysAt, KeysOf;
    assert SeeFields(0);
    FieldsTell(m, g, s, q);
    m' := m;
    MembersLive(m, g, s);
    if m.delayed.on[q] {
      m' := m'.(nextReadyMs := m'.nextReadyMs[q := 0]);
    }
    EntriesOmit(m.key, g.index, m.nextReadyMs, m'.nextReadyMs, g.delayed, q);
    var delayed := Unlink(m.delayed, q, g.delayed, m.key.Keys);
    m', g' := m'.(delayed := delayed), g.(delayed := Omit(g.delayed, q));
  }

  /** The delayed list from position `i` on. */
  lemma DelayedTells(m: Store, g: Shape, s: State, i: nat)
    requires Stands(m, g, s)
    ensures m.delayed.head == First(g.delayed)
    ensures i < |g.delayed| ==>
              && g.delayed[i] != NULL && g.delayed[i] in m.delayed.next
              && m.delayed.next[g.delayed[i]] == First(g.delayed[i + 1..])
  {
    hide Spells, Indexed, Viewed, Chained;
    assert SeeFields(0);
    SpellsTells(m.delayed, g.delayed, m.key.Keys);
    if i < |g.delayed| {
      NextTells(m.delayed, g.delayed, m.key.Keys, i);
    }
  }

  /** Walks to the first queue due later than `next`, or to the end. */
  method WalkDelayed(m: Store, next: int, ghost g: Shape, ghost s: State) returns (cur: Ref, ghost p: nat)
    requires Stands(m, g, s)
    ensures p <= |g.delayed| && cur == First(g.delayed[p..])
    ensures forall j :: 0 <= j < p ==> Get(m.nextReadyMs, g.delayed[j], 0) <= next
    ensures p < |g.delayed| ==> Get(m.nextReadyMs, g.delayed[p], 0) > next
  {
    hide Stands;
    DelayedTells(m, g, s, 0);
    cur, p := m.delayed.head, 0;
    assert g.delayed[0..] == g.delayed;
    while cur != NULL && Get(m.nextReadyMs, cur, 0) <= next
      invariant p <= |g.delayed| && cur == First(g.delayed[p..])
      invariant forall j :: 0 <= j < p ==> Get(m.nextReadyMs, g.delayed[j], 0) <= next
      decreases |g.delayed| - p
    {
      assert p < |g.delayed| && g.delayed[p] == cur;
      DelayedTells(m, g, s, p);
      cur, p := m.delayed.next[cur], p + 1;
    }
    DelayedTells(m, g, s, p);
  }

  method DelayedInsert(m: Store, q: Ref, next: int, ghost g: Shape, ghost s: State) returns (m': Store, ghost g': Shape)
    requires Stands(m, g, s) && q in m.key && q !in g.delayed
    ensures Stands(m', g', s.(delayed := Insert(s.delayed, Entry(m.key[q], next))))
    ensures m' == m.(delayed := m'.delayed, nextReadyMs := m'.nextReadyMs) && g' == g.(delayed := g'.delayed)
  {
    hide Spells, Indexed, Viewed, Chained;
    assert SeeFields(0);
    var cur, p := WalkDelayed(m, next, g, s);
    EntriesPut(m.key, m.nextReadyMs, next, g.delayed, p, q);
    var delayed := LinkAt(m.delayed, q, cur, g.delayed, p, m.key.Keys);
    m', g' := m.(delayed := delayed, nextReadyMs := m.nextReadyMs[q := next]), g.(delayed := Put(g.delayed, p, q));
  }

  method DelayedAddSorted(m: Store, q: Ref, next: int, ghost g: Shape, ghost s: State) returns (m': Store, ghost g': Shape)
    requires Stands(m, g, s) && q in m.key
    ensures Stands(m', g', DelayedAdd(s, m.key[q], next))
    ensures m'.key == m.key && m'.queues == m.queues && g'.hand == g.hand && g'.tasks == g.tasks && g'.index == g.index
  {
    hide Stands;
    var k := m.key[q];
    m', g' := ReadyRemove(m, q, g, s);
    ghost var s1 := s.(ready := Omit(s.ready, k));
    m', g' := IdleRemove(m', q, g', s1);
    ghost var s2 := s1.(idle := Without(s1.idle, k));
    m', g' := DelayedRemove(m', q, g', s2);
    MembersLive(m, g, s);
    OmitGone(g.delayed, q);
    m', g' := DelayedInsert(m', q, next, g', s2.(delayed := Without(s2.delayed, k)));
  }

  lemma OmitGone(qs: seq<Ref>, q: Ref)
    requires Distinct(qs)
    ensures q !in Omit(qs, q)
  {
    if q in qs {
      var i: nat :| i < |qs| && qs[i] == q;
      SchedulerLaws.OmitAt(qs, i);
      SchedulerLaws.DropDistinct(qs, i);
    } else {
      SchedulerLaws.OmitAbsent(qs, q);
    }
  }

  lemma StandsKnown(m: Store, g: Shape, s: State)
    requires Stands(m, g, s)
    ensures Known(s)
  {
    hide Spells, Viewed, Chained;
    assert SeeFields(0);
    MembersLive(m, g, s);
    assert forall i :: 0 <= i < |g.ready| ==> g.ready[i] in m.key;
    assert forall i :: 0 <= i < |g.delayed| ==> g.delayed[i] in m.key;
    assert forall i :: 0 <= i < |g.idle| ==> g.idle[i] in m.key;
  }

  method PromoteDue(m: Store, now: int, rings: Deques, ghost g: Shape, ghost s: State, ghost repr: set<object>)
    returns (m': Store, ghost g': Shape)
    requires Stands(m, g, s) && Counted(m.key, rings, g.tasks, repr)
    ensures Known(s) && Stands(m', g', Promote(s, now))
    ensures m'.key == m.key && g'.tasks == g.tasks
  {
    hide Stands;
    StandsKnown(m, g, s);
    DelayedTells(m, g, s, 0);
    m', g' := m, g;
    ghost var s1 := s;
    var q := m.delayed.head;
    while q != NULL
      invariant m'.key == m.key && g'.tasks == g.tasks
      invariant Stands(m', g', s1) && Known(s1) && q == First(g'.delayed)
      invariant Promote(s, now) == Promote(s1, now)
      decreases |g'.delayed|
    {
      HeadTells(m', g', s1);
      if Get(m'.nextReadyMs, q, 0) > now {
        break;
      }
      DelayedTells(m', g', s1, 0);
      var next := m'.delayed.next[q];
      m', g', s1 := PromoteHead(m', q, now, rings, g', s1, repr);
      q := next;
    }
    if q == NULL {
      NoHead(m', g', s1);
    }
  }

  /** One round of the loop: the head of the delayed list, which is due. */
  method PromoteHead(m: Store, q: Ref, now: int, rings: Deques, ghost g: Shape, ghost s: State, ghost repr: set<object>)
    returns (m': Store, ghost g': Shape, ghost s': State)
    requires Stands(m, g, s) && Known(s) && g.delayed != [] && q == g.delayed[0] && Get(m.nextReadyMs, q, 0) <= now
    requires Counted(m.key, rings, g.tasks, repr)
    ensures Stands(m', g', s') && Known(s') && g'.delayed == g.delayed[1..]
    ensures Promote(s, now) == Promote(s', now)
    ensures m'.key == m.key && g'.tasks == g.tasks
  {
    hide Stands;
    HeadTells(m, g, s);
    ghost var k := m.key[q];
    m', g' := DelayedRemove(m, q, g, s);
    s' := s.(delayed := s.delayed[1..]);
    FieldsTell(m', g', s', q);
    if !m'.queues[q].inflight && rings[q].count > 0 {
      m', g' := ReadyAdd(m', q, rings, g', s');
    }
    s' := SchedulerSpec.ReadyAdd(s', k);
    StandsKnown(m', g', s');
  }

  lemma HeadTells(m: Store, g: Shape, s: State)
    requires Stands(m, g, s) && g.delayed != []
    ensures g.delayed[0] in m.key && s.delayed != []
    ensures s.delayed[0] == Entry(m.key[g.delayed[0]], Get(m.nextReadyMs, g.delayed[0], 0))
    ensures Omit(g.delayed, g.delayed[0]) == g.delayed[1..]
    ensures Without(s.delayed, m.key[g.delayed[0]]) == s.delayed[1..]
  {
    hide Spells, Indexed, Viewed, Chained;
    assert SeeFields(0);
    MembersLive(m, g, s);
    assert g.delayed[0] in g.delayed;
  }

  lemma NoHead(m: Store, g: Shape, s: State)
    requires Stands(m, g, s) && First(g.delayed) == NULL
    ensures s.delayed == []
  {
    hide Indexed, Viewed, Chained;
    assert SeeFields(0);
  }

  // ---- the fields of one queue ----

  /** Writing the fields of `q`, its tasks and what its sender holds, changes one abstract queue. */
  lemma StandsSet(m: Store, g: Shape, s: State, q: Ref, x: KeyQueue, ts: seq<SendTask>, h: Option<SendTask>)
    requires Stands(m, g, s) && q in m.key && (x.inflight <==> h.Some?)
    ensures m.key[q] in s.queues
    ensures Stands(m.(queues := m.queues[q := x]), g.(tasks := g.tasks[q := ts], hand := g.hand[q := h]),
                   s.(queues := s.queues[m.key[q] := ViewOf(x, ts, h)]))
  {
    hide Spells, Chained, Viewed;
    assert SeeFields(0);
    ViewSet(m.key, g.index, m.queues, g.tasks, g.hand, s.queues, q, x, ts, h);
    assert s.queues[m.key[q] := ViewOf(x, ts, h)].Keys == s.queues.Keys;
  }

  lemma ViewSet(key: Field<Key>, index: map<Key, Ref>, queues: Field<KeyQueue>, tasks: Field<seq<SendTask>>,
                hand: Field<Option<SendTask>>, view: map<Key, QueueState>,
                q: Ref, x: KeyQueue, ts: seq<SendTask>, h: Option<SendTask>)
    requires Indexed(key, index) && Viewed(key, queues, tasks, hand, view) && q in key && (x.inflight <==> h.Some?)
    ensures key[q] in view
    ensures Viewed(key, queues[q := x], tasks[q := ts], hand[q := h], view[key[q] := ViewOf(x, ts, h)])
  {
  }

  /** Takes the head of the ready list and marks it in flight, with no task in hand yet. */
  method ReadyPop(m: Store, ghost g: Shape, ghost s: State) returns (m': Store, q: Ref, ghost g': Shape)
    requires Stands(m, g, s)
    ensures q == NULL ==> s.ready == [] && m' == m && g' == g
    ensures q != NULL ==>
              && s.ready != [] && q in m.key && q in m.queues && m.key[q] == s.ready[0] && s.ready[0] in s.queues
              && m' == m.(ready := m'.ready, queues := m.queues[q := m.queues[q].(inflight := true)])
              && Stands(m', g', s.(ready := s.ready[1..],
                                   queues := s.queues[s.ready[0] := s.queues[s.ready[0]].(hand := Some(BLANK))]))
    ensures g'.tasks == g.tasks
  {
    hide Spells, Indexed, Viewed, Chained;
    assert SeeFields(0);
    SpellsTells(m.ready, g.ready, m.key.Keys);
    q := m.ready.head;
    m', g' := m, g;
    if q == NULL {
      NoReady(m, g, s);
      return;
    }
    assert g.ready[0] == q && q in g.ready;
    FieldsTell(m, g, s, q);
    var ready := PopHead(m.ready, g.ready, m.key.Keys);
    m', g' := m.(ready := ready), g.(ready := g.ready[1..]);
    assert KeysAt(m.key, g.ready)[1..] == KeysAt(m.key, g.ready[1..]);
    var x := m.queues[q].(inflight := true);
    StandsSet(m', g', s.(ready := s.ready[1..]), q, x, g.tasks[q], Some(BLANK));
    m', g' := m'.(queues := m'.queues[q := x]), g'.(hand := g'.hand[q := Some(BLANK)]);
    assert g.tasks[q := g.tasks[q]] == g.tasks;
  }

  lemma NoReady(m: Store, g: Shape, s: State)
    requires Stands(m, g, s) && m.ready.head == NULL
    ensures s.ready == []
  {
    hide Indexed, Viewed, Chained;
    assert SeeFields(0);
  }

  /** The first task of the deque goes into the sender's hand. */
  lemma StandsPop(m: Store, g: Shape, s: State, q: Ref)
    requires Stands(m, g, s) && q in m.key && m.key[q] in s.queues && s.queues[m.key[q]].hand == Some(BLANK)
    ensures q in g.tasks && g.tasks[q] == s.queues[m.key[q]].tasks
    ensures var ts, k := g.tasks[q], m.key[q];
            Stands(m, g.(tasks := g.tasks[q := Behind(ts)], hand := g.hand[q := Some(Front(ts))]),
                   s.(queues := s.queues[k := s.queues[k].(tasks := Behind(ts), hand := Some(Front(ts)))]))
  {
    hide Stands;
    FieldsTell(m, g, s, q);
    StandsSet(m, g, s, q, m.queues[q], Behind(g.tasks[q]), Some(Front(g.tasks[q])));
    assert m.queues[q := m.queues[q]] == m.queues;
  }

  // ---- the index ----

  /** One chain: its head, and where the link at position `i` leads. */
  lemma ChainTells(m: Store, g: Shape, s: State, b: nat, i: nat)
    requires Stands(m, g, s)
    ensures 0 < |m.buckets| == |g.chains|
    ensures b < |g.chains| ==> m.buckets[b] == First(g.chains[b]) && Nodes(g.chains[b])
    ensures b < |g.chains| && i < |g.chains[b]| ==>
              var q := g.chains[b][i];
              q != NULL && q in m.hnext && m.hnext[q] == First(g.chains[b][i + 1..])
  {
    hide Spells, Indexed, Viewed;
    assert SeeFields(0);
    if b < |g.chains| {
      LinkTells(m.hnext, g.chains[b]);
    }
  }

  lemma LinkTells(next: Field<Ref>, qs: seq<Ref>)
    requires Forth(next, qs)
    ensures forall i :: 0 <= i < |qs| ==> qs[i] in next && next[qs[i]] == First(qs[i + 1..])
  {
  }

  lemma BucketTells(m: Store, g: Shape, s: State, k: Key)
    requires Stands(m, g, s)
    ensures 0 < |m.buckets| == |g.chains|
    ensures var chain := g.chains[Slot(Fnv1a(k), |m.buckets|)];
            && (forall q :: q in chain ==> q in m.key && q in m.hash)
            && (k in s.queues <==> k in g.index)
            && (k in g.index ==> g.index[k] in chain && m.key[g.index[k]] == k)
    ensures forall q :: q in m.key ==> m.key[q] in s.queues
  {
    hide Spells, Viewed;
    assert SeeFields(0);
  }

  /** Walks the chain of the key's bucket; null when no queue has the key. */
  method Find(m: Store, k: Key, ghost g: Shape, ghost s: State) returns (p: Ref)
    requires Stands(m, g, s)
    ensures p == NULL <==> k !in s.queues
    ensures p != NULL ==> p in m.key && m.key[p] == k
  {
    hide Stands;
    BucketTells(m, g, s, k);
    var h := HashKey(k);
    ChainTells(m, g, s, Slot(h, |m.buckets|), 0);
    SlotIsRemainder(h, |m.buckets|);
    ghost var chain, i := g.chains[Slot(h, |m.buckets|)], 0;
    p := m.buckets[h % |m.buckets|];
    HashTells(m, g, s, chain, h);
    while p != NULL
      invariant 0 <= i <= |chain| && p == First(chain[i..])
      invariant forall j :: 0 <= j < i ==> m.key[chain[j]] != k
      decreases |chain| - i
    {
      ChainTells(m, g, s, Slot(h, |m.buckets|), i);
      assert chain[i] == p && p in chain;
      if m.hash[p] == h && m.key[p] == k {
        return;
      }
      p, i := m.hnext[p], i + 1;
    }
  }

  /** Live queues with equal keys have equal hashes, so comparing both finds what comparing keys would. */
  lemma HashTells(m: Store, g: Shape, s: State, chain: seq<Ref>, h: Word32)
    requires Stands(m, g, s) && forall q | q in chain :: q in m.key && q in m.hash
    ensures forall q :: q in chain && Fnv1a(m.key[q]) == h ==> m.hash[q] == h
  {
    hide Spells, Indexed, Viewed;
    assert SeeFields(0);
  }

  method GetOrCreate(c: Config, m: Store, k: Key, memory: Ref, ghost g: Shape, ghost s: State)
    returns (m': Store, q: Ref, ghost g': Shape)
    requires Stands(m, g, s) && memory != NULL && memory !in m.key
    ensures q == NULL <==> SchedulerSpec.GetOrCreate(c, s, k) == None
    ensures q == NULL ==> m' == m && g' == g
    ensures q != NULL ==>
              q in m'.key && m'.key[q] == k && Stands(m', g', SchedulerSpec.GetOrCreate(c, s, k).value)
    ensures if q == memory then m'.key == m.key[memory := k] && g'.tasks == g.tasks[memory := []]
            else m'.key == m.key && g'.tasks == g.tasks
  {
    hide Stands;
    m', g' := m, g;
    q := Find(m, k, g, s);
    if q != NULL {
      m', g' := IdleRemove(m, q, g, s);
      return;
    }
    KeysCounted(m, g, s);
    if c.maxActive > 0 && m.keyQueueCount >= c.maxActive {
      return;
    }
    m', g' := Create(m, k, memory, g, s);
    q := memory;
  }

  lemma KeysCounted(m: Store, g: Shape, s: State)
    requires Stands(m, g, s)
    ensures m.keyQueueCount == |s.queues|
  {
    hide Spells, Indexed, Viewed, Chained;
    assert SeeFields(0);
    assert |g.index| == |g.index.Keys| && |s.queues| == |s.queues.Keys|;
  }

  /** A zeroed queue at the address the allocator gave, put in front of its bucket's chain. */
  method Create(m: Store, k: Key, q: Ref, ghost g: Shape, ghost s: State) returns (m': Store, ghost g': Shape)
    requires Stands(m, g, s) && q != NULL && q !in m.key && k !in s.queues
    ensures m'.key == m.key[q := k] && Stands(m', g', s.(queues := s.queues[k := NEW_QUEUE]))
    ensures g'.tasks == g.tasks[q := []]
  {
    hide Spells, Indexed, Viewed, Chained;
    assert SeeFields(0);
    var h := HashKey(k);
    BucketTells(m, g, s, k);
    SlotIsRemainder(h, |m.buckets|);
    var b := h % |m.buckets|;
    m' := m.(
      key := m.key[q := k],
      hash := m.hash[q := h],
      queues := m.queues[q := ZEROED_QUEUE],
      nextReadyMs := m.nextReadyMs[q := 0],
      emptySinceMs := m.emptySinceMs[q := 0],
      ready := Zeroed(m.ready, q),
      delayed := Zeroed(m.delayed, q),
      idle := Zeroed(m.idle, q),
      hnext := m.hnext[q := m.buckets[b]],
      buckets := m.buckets[b := q],
      keyQueueCount := m.keyQueueCount + 1);
    g' := g.(index := g.index[k := q], chains := g.chains[b := [q] + g.chains[b]], tasks := g.tasks[q := []], hand := g.hand[q := None]);
    CreateIndex(m, g, s, k, q);
    CreateChains(m, g, s, k, q);
    CreateLists(m, g, s, k, q);
  }

  function Zeroed(c: Chain, q: Ref): Chain {
    c.(prev := c.prev[q := NULL], next := c.next[q := NULL], on := c.on[q := false])
  }

  lemma CreateIndex(m: Store, g: Shape, s: State, k: Key, q: Ref)
    requires Stands(m, g, s) && q != NULL && q !in m.key && k !in s.queues
    ensures Indexed(m.key[q := k], g.index[k := q])
    ensures m.keyQueueCount + 1 == |g.index[k := q]|
    ensures s.queues[k := NEW_QUEUE].Keys == g.index[k := q].Keys
    ensures Viewed(m.key[q := k], m.queues[q := ZEROED_QUEUE], g.tasks[q := []], g.hand[q := None], s.queues[k := NEW_QUEUE])
  {
    hide Spells, Indexed, Viewed, Chained;
    assert SeeFields(0);
    IndexPut(m.key, g.index, k, q);
    ViewPut(m.key, m.queues, g.tasks, g.hand, s.queues, k, q);
  }

  lemma IndexPut(key: Field<Key>, index: map<Key, Ref>, k: Key, q: Ref)
    requires Indexed(key, index) && q !in key && k !in index
    ensures Indexed(key[q := k], index[k := q])
  {
  }

  lemma ViewPut(key: Field<Key>, queues: Field<KeyQueue>, tasks: Field<seq<SendTask>>, hand: Field<Option<SendTask>>,
                view: map<Key, QueueState>, k: Key, q: Ref)
    requires Viewed(key, queues, tasks, hand, view) && q !in key && k !in view
    ensures Viewed(key[q := k], queues[q := ZEROED_QUEUE], tasks[q := []], hand[q := None], view[k := NEW_QUEUE])
  {
  }

  lemma CreateChains(m: Store, g: Shape, s: State, k: Key, q: Ref)
    requires Stands(m, g, s) && q != NULL && q !in m.key && k !in s.queues
    ensures 0 < |m.buckets| == |g.chains|
    ensures var h := Fnv1a(k);
            var b := Slot(h, |m.buckets|);
            Chained(m.key[q := k], m.hash[q := h], m.hnext[q := m.buckets[b]], m.buckets[b := q],
                    g.chains[b := [q] + g.chains[b]])
  {
    hide Spells, Indexed, Viewed, Chained;
    assert SeeFields(0);
    ChainPut(m.key, m.hash, m.hnext, m.buckets, g.chains, k, q);
  }

  lemma ChainPut(key: Field<Key>, hash: Field<Word32>, hnext: Field<Ref>, buckets: seq<Ref>, chains: seq<seq<Ref>>, k: Key, q: Ref)
    requires Chained(key, hash, hnext, buckets, chains) && q != NULL && q !in key
    ensures 0 < |buckets| == |chains|
    ensures var h := Fnv1a(k);
            var b := Slot(h, |buckets|);
            Chained(key[q := k], hash[q := h], hnext[q := buckets[b]], buckets[b := q], chains[b := [q] + chains[b]])
  {
    var h := Fnv1a(k);
    HeadsPut(hnext, buckets, chains, Slot(h, |buckets|), q);
    HoldsPut(key, hash, chains, k, h, q);
  }

  lemma HeadsPut(hnext: Field<Ref>, buckets: seq<Ref>, chains: seq<seq<Ref>>, b: nat, q: Ref)
    requires Heads(hnext, buckets, chains) && b < |buckets| && q != NULL
    requires forall j | 0 <= j < |chains| :: q !in chains[j]
    ensures Heads(hnext[q := buckets[b]], buckets[b := q], chains[b := [q] + chains[b]])
  {
    ForthCons(hnext, chains[b], q);
    forall j | 0 <= j < |chains| ensures Forth(hnext[q := buckets[b]], chains[j]) {
      ForthSame(hnext, hnext[q := buckets[b]], chains[j]);
    }
  }

  lemma HoldsPut(key: Field<Key>, hash: Field<Word32>, chains: seq<seq<Ref>>, k: Key, h: Word32, q: Ref)
    requires Holds(key, hash, chains) && q !in key && h == Fnv1a(k)
    ensures var b := Slot(h, |chains|);
            Holds(key[q := k], hash[q := h], chains[b := [q] + chains[b]])
  {
  }

  lemma ForthCons(next: Field<Ref>, qs: seq<Ref>, q: Ref)
    requires Forth(next, qs) && q !in qs
    ensures Forth(next[q := First(qs)], [q] + qs)
  {
    assert forall i :: 1 <= i < |qs| + 1 ==> ([q] + qs)[i] == qs[i - 1];
  }

  lemma ForthSame(next: Field<Ref>, next': Field<Ref>, qs: seq<Ref>)
    requires Forth(next, qs) && forall x | x in qs :: x in next' && next'[x] == next[x]
    ensures Forth(next', qs)
  {
    assert forall i :: 0 <= i < |qs| ==> qs[i] in qs;
  }

  lemma CreateLists(m: Store, g: Shape, s: State, k: Key, q: Ref)
    requires Stands(m, g, s) && q != NULL && q !in m.key
    ensures var key := m.key[q := k];
            && Spells(Zeroed(m.ready, q), g.ready, key.Keys) && s.ready == KeysAt(key, g.ready)
            && Spells(Zeroed(m.delayed, q), g.delayed, key.Keys)
            && s.delayed == EntriesAt(key, m.nextReadyMs[q := 0], g.delayed)
            && Spells(Zeroed(m.idle, q), g.idle, key.Keys)
            && s.idle == EntriesAt(key, m.emptySinceMs[q := 0], g.idle)
  {
    hide Spells, Indexed, Viewed, Chained;
    assert SeeFields(0);
    CreateList(m.ready, g.ready, m.key, m.nextReadyMs, k, q);
    CreateList(m.delayed, g.delayed, m.key, m.nextReadyMs, k, q);
    CreateList(m.idle, g.idle, m.key, m.emptySinceMs, k, q);
  }

  lemma CreateList(c: Chain, qs: seq<Ref>, key: Field<Key>, at: Field<int>, k: Key, q: Ref)
    requires Spells(c, qs, key.Keys) && q != NULL && q !in key
    ensures Spells(Zeroed(c, q), qs, key[q := k].Keys)
    ensures KeysAt(key[q := k], qs) == KeysAt(key, qs)
    ensures EntriesAt(key[q := k], at[q := 0], qs) == EntriesAt(key, at, qs)
  {
    hide Spells;
    SpellsTells(c, qs, key.Keys);
    Grow(c, qs, key.Keys, q);
    assert key[q := k].Keys == key.Keys + {q};
    KeysSame(key, key[q := k], qs);
    EntriesSame(key, key[q := k], at, at[q := 0], qs);
  }

  /** Takes a queue out of every list and out of its chain, and frees it together
      with its builder and whatever that holds. */
  method KeyQueueRemoveAndFree(m: Store, q: Ref, ghost g: Shape, ghost s: State) returns (m': Store, ghost g': Shape)
    requires Stands(m, g, s) && q in m.key
    ensures Stands(m', g', Remove(s, m.key[q]))
    ensures m'.key == m.key - {q} && g'.idle == Omit(g.idle, q) && g'.tasks == g.tasks
    ensures q in m'.queues && m'.queues[q].builder == 0
  {
    hide Stands;
    var k := m.key[q];
    m', g' := ReadyRemove(m, q, g, s);
    ghost var s1 := s.(ready := Omit(s.ready, k));
    m', g' := IdleRemove(m', q, g', s1);
    ghost var s2 := s1.(idle := Without(s1.idle, k));
    m', g' := DelayedRemove(m', q, g', s2);
    ghost var s3 := s2.(delayed := Without(s2.delayed, k));
    NoDuplicates(m, g, s);
    OmitGone(g.ready, q);
    OmitGone(g.idle, q);
    OmitGone(g.delayed, q);
    m', g' := Unchain(m', q, g', s3);
    m' := FreeBuilder(m', q, g', Remove(s, k));
  }

  /** The builder of a queue that is no longer live goes. */
  method FreeBuilder(m: Store, q: Ref, ghost g: Shape, ghost s: State) returns (m': Store)
    requires Stands(m, g, s) && q in m.queues && q !in m.key
    ensures Stands(m', g, s) && m'.key == m.key
    ensures q in m'.queues && m'.queues[q].builder == 0
  {
    hide Spells, Indexed, Chained;
    assert SeeFields(0);
    m' := m.(queues := m.queues[q := m.queues[q].(builder := 0)]);
  }

  lemma NoDuplicates(m: Store, g: Shape, s: State)
    requires Stands(m, g, s)
    ensures Distinct(g.ready) && Distinct(g.delayed) && Distinct(g.idle)
  {
    hide Indexed, Viewed, Chained;
    assert SeeFields(0);
  }

  /** Finds `q` in the chain of its bucket; `before` is the queue in front of it, or null. */
  method FindInChain(m: Store, q: Ref, ghost g: Shape, ghost s: State) returns (b: nat, before: Ref, ghost i: nat)
    requires Stands(m, g, s) && q in m.key
    ensures q in m.hash && |m.buckets| == |g.chains| && b < |g.chains| && b == Slot(m.hash[q], |g.chains|)
    ensures i < |g.chains[b]| && g.chains[b][i] == q
    ensures before == if i == 0 then NULL else g.chains[b][i - 1]
  {
    hide Spells, Indexed, Viewed, Chained;
    assert SeeFields(0);
    QueueInChain(m, g, s, q);
    SlotIsRemainder(m.hash[q], |m.buckets|);
    b, before, i := m.hash[q] % |m.buckets|, NULL, 0;
    ghost var chain := g.chains[b];
    ChainTells(m, g, s, b, 0);
    ghost var at: nat :| at < |chain| && chain[at] == q;
    var p := m.buckets[b];
    while p != q
      invariant i <= at && p == First(chain[i..])
      invariant before == if i == 0 then NULL else chain[i - 1]
      decreases at - i
    {
      ChainTells(m, g, s, b, i);
      assert chain[i] == p;
      before, p, i := p, m.hnext[p], i + 1;
    }
  }

  lemma QueueInChain(m: Store, g: Shape, s: State, q: Ref)
    requires Stands(m, g, s) && q in m.key
    ensures q in m.hash && 0 < |m.buckets| == |g.chains| && q in g.chains[Slot(m.hash[q], |g.chains|)]
  {
    hide Spells, Indexed, Viewed;
    assert SeeFields(0);
  }

  /** Takes a queue that is on no list out of its chain and frees it. */
  method Unchain(m: Store, q: Ref, ghost g: Shape, ghost s: State) returns (m': Store, ghost g': Shape)
    requires Stands(m, g, s) && q in m.key
    requires q !in g.ready && q !in g.delayed && q !in g.idle
    ensures Stands(m', g', s.(queues := s.queues - {m.key[q]}))
    ensures m'.key == m.key - {q} && g'.idle == g.idle && g'.tasks == g.tasks && m'.queues == m.queues && q in m.queues
  {
    hide Spells, Indexed, Viewed, Chained;
    assert SeeFields(0);
    var b, before, i := FindInChain(m, q, g, s);
    FieldsTell(m, g, s, q);
    ghost var k := m.key[q];
    ChainTells(m, g, s, b, i);
    m' := m;
    if before != NULL {
      m' := m'.(hnext := m'.hnext[before := m'.hnext[q]]);
    } else {
      m' := m'.(buckets := m'.buckets[b := m'.hnext[q]]);
    }
    UnchainChains(m, g, s, q, b, i);
    UnchainIndex(m, g, s, q);
    UnchainLists(m, g, s, q);
    m' := m'.(key := m'.key - {q}, hash := m'.hash - {q});
    if m'.keyQueueCount > 0 {
      m' := m'.(keyQueueCount := m'.keyQueueCount - 1);
    }
    g' := g.(index := g.index - {k}, chains := g.chains[b := Drop(g.chains[b], i)]);
  }

  lemma UnchainIndex(m: Store, g: Shape, s: State, q: Ref)
    requires Stands(m, g, s) && q in m.key
    ensures var k := m.key[q];
            && Indexed(m.key - {q}, g.index - {k})
            && Viewed(m.key - {q}, m.queues, g.tasks, g.hand, s.queues - {k})
            && m.keyQueueCount > 0 && m.keyQueueCount - 1 == |g.index - {k}|
            && (s.queues - {k}).Keys == (g.index - {k}).Keys
  {
    hide Spells, Indexed, Viewed, Chained;
    assert SeeFields(0);
    IndexDrop(m.key, g.index, q);
    ViewDrop(m.key, g.index, m.queues, g.tasks, g.hand, s.queues, q);
  }

  lemma IndexDrop(key: Field<Key>, index: map<Key, Ref>, q: Ref)
    requires Indexed(key, index) && q in key
    ensures Indexed(key - {q}, index - {key[q]})
    ensures |index - {key[q]}| == |index| - 1
  {
    assert (index - {key[q]}).Keys == index.Keys - {key[q]};
  }

  lemma ViewDrop(key: Field<Key>, index: map<Key, Ref>, queues: Field<KeyQueue>, tasks: Field<seq<SendTask>>,
                 hand: Field<Option<SendTask>>, view: map<Key, QueueState>, q: Ref)
    requires Indexed(key, index) && Viewed(key, queues, tasks, hand, view) && q in key
    ensures Viewed(key - {q}, queues, tasks, hand, view - {key[q]})
  {
  }

  lemma UnchainLists(m: Store, g: Shape, s: State, q: Ref)
    requires Stands(m, g, s) && q in m.key
    requires q !in g.ready && q !in g.delayed && q !in g.idle
    ensures var key := m.key - {q};
            && Spells(m.ready, g.ready, key.Keys) && s.ready == KeysAt(key, g.ready)
            && Spells(m.delayed, g.delayed, key.Keys) && s.delayed == EntriesAt(key, m.nextReadyMs, g.delayed)
            && Spells(m.idle, g.idle, key.Keys) && s.idle == EntriesAt(key, m.emptySinceMs, g.idle)
  {
    hide Spells, Indexed, Viewed, Chained;
    assert SeeFields(0);
    assert (m.key - {q}).Keys == m.key.Keys - {q};
    Shrink(m.ready, g.ready, m.key.Keys, q);
    Shrink(m.delayed, g.delayed, m.key.Keys, q);
    Shrink(m.idle, g.idle, m.key.Keys, q);
    KeysSame(m.key, m.key - {q}, g.ready);
    EntriesSame(m.key, m.key - {q}, m.nextReadyMs, m.nextReadyMs, g.delayed);
    EntriesSame(m.key, m.key - {q}, m.emptySinceMs, m.emptySinceMs, g.idle);
  }

  lemma UnchainChains(m: Store, g: Shape, s: State, q: Ref, b: nat, i: nat)
    requires Stands(m, g, s) && q in m.key && q in m.hnext
    requires b < |m.buckets| == |g.chains| && i < |g.chains[b]| && g.chains[b][i] == q
    ensures var hnext := if i == 0 then m.hnext else m.hnext[g.chains[b][i - 1] := m.hnext[q]];
            var buckets := if i == 0 then m.buckets[b := m.hnext[q]] else m.buckets;
            Chained(m.key - {q}, m.hash - {q}, hnext, buckets, g.chains[b := Drop(g.chains[b], i)])
  {
    hide Spells, Indexed, Viewed;
    assert SeeFields(0);
    HeadsDrop(m.hnext, m.buckets, g.chains, b, i);
    HoldsDrop(m.key, m.hash, g.chains, b, i);
  }

  lemma HeadsDrop(hnext: Field<Ref>, buckets: seq<Ref>, chains: seq<seq<Ref>>, b: nat, i: nat)
    requires Heads(hnext, buckets, chains) && b < |chains| && i < |chains[b]|
    requires forall j, q {:trigger q in chains[j]} | 0 <= j < |chains| && q in chains[j] && q in chains[b] :: j == b
    ensures chains[b][i] in hnext
    ensures var q := chains[b][i];
            Heads(if i == 0 then hnext else hnext[chains[b][i - 1] := hnext[q]],
                  if i == 0 then buckets[b := hnext[q]] else buckets,
                  chains[b := Drop(chains[b], i)])
  {
    ChainDrop(hnext, chains[b], i);
    if i > 0 {
      OtherChains(hnext, buckets, chains, b, chains[b][i - 1], hnext[chains[b][i]]);
    }
  }

  /** The chain that loses its queue at position `i`: its links and its head. */
  lemma ChainDrop(hnext: Field<Ref>, chain: seq<Ref>, i: nat)
    requires Nodes(chain) && Forth(hnext, chain) && i < |chain|
    ensures chain[i] in hnext && Nodes(Drop(chain, i))
    ensures Forth(if i == 0 then hnext else hnext[chain[i - 1] := hnext[chain[i]]], Drop(chain, i))
    ensures First(Drop(chain, i)) == if i == 0 then hnext[chain[0]] else chain[0]
  {
    LinkTells(hnext, chain);
    SchedulerLaws.DropDistinct(chain, i);
    DropEnds(chain, i);
    ForthDrop(hnext, chain, i);
    var hnext' := if i == 0 then hnext else hnext[chain[i - 1] := hnext[chain[i]]];
    ForthSame(hnext'[chain[i] := NULL], hnext', Drop(chain, i));
  }

  lemma OtherChains(hnext: Field<Ref>, buckets: seq<Ref>, chains: seq<seq<Ref>>, b: nat, x: Ref, y: Ref)
    requires Heads(hnext, buckets, chains) && b < |chains| && x in chains[b]
    requires forall j, q {:trigger q in chains[j]} | 0 <= j < |chains| && q in chains[j] && q in chains[b] :: j == b
    ensures forall j :: 0 <= j < |chains| && j != b ==> Forth(hnext[x := y], chains[j])
  {
    forall j | 0 <= j < |chains| && j != b ensures Forth(hnext[x := y], chains[j]) {
      ForthSame(hnext, hnext[x := y], chains[j]);
    }
  }

  lemma HoldsDrop(key: Field<Key>, hash: Field<Word32>, chains: seq<seq<Ref>>, b: nat, i: nat)
    requires Holds(key, hash, chains) && b < |chains| && i < |chains[b]| && Distinct(chains[b])
    ensures Holds(key - {chains[b][i]}, hash - {chains[b][i]}, chains[b := Drop(chains[b], i)])
  {
    var q, chains' := chains[b][i], chains[b := Drop(chains[b], i)];
    SchedulerLaws.DropDistinct(chains[b], i);
    forall j, x {:trigger x in chains'[j]} | 0 <= j < |chains| ensures x in chains'[j] <==> x in chains[j] && x != q {
      assert q in chains[b];
    }
  }

  /** The log is not kept in the queues. */
  lemma StandsLog(m: Store, g: Shape, s: State, log: seq<Event>)
    requires Stands(m, g, s)
    ensures Stands(m, g, s.(log := log))
  {
    hide Spells, Indexed, Viewed, Chained;
    assert SeeFields(0);
  }

  // ---- the steps ----

  /** A zeroed queue lies at `memory`. */
  method PushTask(c: Config, m: Store, k: Key, t: SendTask, memory: Ref, rings: Deques, ghost g: Shape, ghost s: State,
                  ghost repr: set<object>)
    returns (m': Store, q: Ref, ghost g': Shape, ghost repr': set<object>)
    requires Stands(m, g, s) && memory != NULL && memory !in m.key
    requires RingsHold(m.key, rings, g.tasks, repr) && RingsHold(m.key[memory := k], rings, g.tasks[memory := []], repr)
    modifies repr
    ensures Stands(m', g', DoPush(c, s, k, t)) && RingsHold(m'.key, rings, g'.tasks, repr')
    ensures m'.key == if q == memory then m.key[memory := k] else m.key
    ensures q == NULL <==> SchedulerSpec.GetOrCreate(c, s, k).None?
    ensures repr <= repr' && fresh(repr' - repr)
  {
    hide Stands, RingsHold, SchedulerSpec.GetOrCreate;
    repr' := repr;
    m', q, g' := GetOrCreate(c, m, k, memory, g, s);
    if q != NULL {
      ghost var s1 := SchedulerSpec.GetOrCreate(c, s, k).value;
      FieldsTell(m', g', s1, q);
      HoldCounts(m'.key, rings, g'.tasks, repr);
      var wasEmpty := rings[q].count == 0;
      repr' := DequePush(rings, q, t, m'.key, g'.tasks, repr);
      m', g' := ListPushed(m', q, wasEmpty, rings, t, g', s1, repr');
    }
  }

  /** The ring of `q` has taken `t`; an idle queue that was empty becomes ready. */
  method ListPushed(m: Store, q: Ref, wasEmpty: bool, rings: Deques, ghost t: SendTask, ghost g: Shape, ghost s: State,
                    ghost repr: set<object>)
    returns (m': Store, ghost g': Shape)
    requires Stands(m, g, s) && q in m.key && m.key[q] in s.queues && wasEmpty == (s.queues[m.key[q]].tasks == [])
    requires q in g.tasks && RingsHold(m.key, rings, g.tasks[q := g.tasks[q] + [t]], repr)
    ensures var k := m.key[q];
            Stands(m', g', if s.queues[k].tasks == [] && s.queues[k].hand.None?
                           then SchedulerSpec.ReadyAdd(Append(s, k, t), k) else Append(s, k, t))
    ensures m'.key == m.key && g'.tasks == g.tasks[q := g.tasks[q] + [t]]
  {
    hide Stands, RingsHold, SchedulerSpec.ReadyAdd;
    FieldsTell(m, g, s, q);
    ghost var k, ts := m.key[q], g.tasks[q] + [t];
    StandsSet(m, g, s, q, m.queues[q], ts, g.hand[q]);
    assert m.queues[q := m.queues[q]] == m.queues && g.hand[q := g.hand[q]] == g.hand;
    m', g' := m, g.(tasks := g.tasks[q := ts]);
    HoldCounts(m.key, rings, g'.tasks, repr);
    StandsLog(m', g', s.(queues := s.queues[k := s.queues[k].(tasks := ts)]), s.log + [Pushed(k, t)]);
    if wasEmpty && !m.queues[q].inflight {
      m', g' := ReadyAdd(m', q, rings, g', Append(s, k, t));
    }
  }

  method ReserveKey(c: Config, m: Store, k: Key, memory: Ref, ghost g: Shape, ghost s: State)
    returns (m': Store, q: Ref, ghost g': Shape)
    requires Stands(m, g, s) && memory != NULL && memory !in m.key
    ensures Stands(m', g', DoReserve(c, s, k))
    ensures if q == memory then m'.key == m.key[memory := k] && g'.tasks == g.tasks[memory := []]
            else m'.key == m.key && g'.tasks == g.tasks
    ensures q == NULL <==> SchedulerSpec.GetOrCreate(c, s, k).None?
  {
    hide Stands;
    m', q, g' := GetOrCreate(c, m, k, memory, g, s);
  }

  /** Adds `n` bytes of logs to the builder of the key. */
  method CollectLogs(c: Config, m: Store, k: Key, n: nat, memory: Ref, ghost g: Shape, ghost s: State)
    returns (m': Store, q: Ref, ghost g': Shape)
    requires Stands(m, g, s) && memory != NULL && memory !in m.key
    ensures Stands(m', g', DoCollect(c, s, k, n))
    ensures if q == memory then m'.key == m.key[memory := k] && g'.tasks == g.tasks[memory := []]
            else m'.key == m.key && g'.tasks == g.tasks
    ensures q == NULL <==> SchedulerSpec.GetOrCreate(c, s, k).None?
    ensures q != NULL ==> q in m'.key && m'.key[q] == k
  {
    hide Stands;
    m', q, g' := GetOrCreate(c, m, k, memory, g, s);
    if q != NULL {
      ghost var s1 := SchedulerSpec.GetOrCreate(c, s, k).value;
      FieldsTell(m', g', s1, q);
      m' := WriteBuilder(m', q, m'.queues[q].builder + n, g', s1);
    }
  }

  method WriteBuilder(m: Store, q: Ref, n: nat, ghost g: Shape, ghost s: State) returns (m': Store)
    requires Stands(m, g, s) && q in m.key
    ensures m.key[q] in s.queues && Stands(m', g, SetBuilder(s, m.key[q], n)) && m'.key == m.key
  {
    hide Stands;
    FieldsTell(m, g, s, q);
    var x := m.queues[q].(builder := n);
    StandsSet(m, g, s, q, x, g.tasks[q], g.hand[q]);
    assert g.tasks[q := g.tasks[q]] == g.tasks && g.hand[q := g.hand[q]] == g.hand;
    m' := m.(queues := m.queues[q := x]);
  }

  /** Promotes what is due, then takes the next ready queue and its first task. */
  method PickTask(m: Store, now: int, rings: Deques, ghost g: Shape, ghost s: State, ghost repr: set<object>)
    returns (m': Store, q: Ref, t: SendTask, ghost g': Shape)
    requires Stands(m, g, s) && RingsHold(m.key, rings, g.tasks, repr)
    modifies repr
    ensures Known(s) && Stands(m', g', DoPick(s, now)) && m'.key == m.key && RingsHold(m'.key, rings, g'.tasks, repr)
    ensures q == NULL <==> Picked(s, now) == None
    ensures q != NULL ==>
              && q in m'.key && Picked(s, now) == Some(m'.key[q])
              && m'.key[q] in DoPick(s, now).queues && DoPick(s, now).queues[m'.key[q]].hand == Some(t)
  {
    hide Stands, RingsHold;
    t := BLANK;
    HoldCounts(m.key, rings, g.tasks, repr);
    m', g' := PromoteDue(m, now, rings, g, s, repr);
    ghost var p := Promote(s, now);
    StandsKnown(m', g', p);
    m', q, g' := ReadyPop(m', g', p);
    if q != NULL {
      ghost var k := p.ready[0];
      ghost var p1 := p.(ready := p.ready[1..], queues := p.queues[k := p.queues[k].(hand := Some(BLANK))]);
      StandsPop(m', g', p1, q);
      t := DequePop(rings, q, m'.key, g'.tasks, repr);
      g' := g'.(tasks := g'.tasks[q := Behind(g'.tasks[q])], hand := g'.hand[q := Some(t)]);
      assert Take(p).queues == p1.queues[k := p1.queues[k].(tasks := Behind(p.queues[k].tasks), hand := Some(t))];
    }
  }

  /** The gate refuses the task in hand: it goes back to the front, and its queue waits until `next`. */
  method GateRequeue(m: Store, q: Ref, t: SendTask, next: int, rings: Deques, ghost g: Shape, ghost s: State,
                     ghost repr: set<object>)
    returns (m': Store, ghost g': Shape, ghost repr': set<object>)
    requires Stands(m, g, s) && q in m.key && m.key[q] in s.queues && s.queues[m.key[q]].hand == Some(t)
    requires RingsHold(m.key, rings, g.tasks, repr)
    modifies repr
    ensures Stands(m', g', DoRequeue(s, m.key[q], next)) && m'.key == m.key && RingsHold(m'.key, rings, g'.tasks, repr')
    ensures repr <= repr' && fresh(repr' - repr)
  {
    hide Stands, RingsHold;
    FieldsTell(m, g, s, q);
    repr' := DequePushFront(rings, q, t, m.key, g.tasks, repr);
    ghost var ts := [t] + g.tasks[q];
    var x := m.queues[q].(inflight := false);
    StandsSet(m, g, s, q, x, ts, None);
    m', g' := m.(queues := m.queues[q := x]), g.(tasks := g.tasks[q := ts], hand := g.hand[q := None]);
    m', g' := DelayedAddSorted(m', q, next, g', PutBack(s, m.key[q]));
  }

  method BreakerFields(c: Config, q: KeyQueue, ok: bool, now: int) returns (x: KeyQueue)
    ensures x.inflight == q.inflight
    ensures forall ts, h :: ViewOf(x, ts, h) == BreakerAfter(c, ViewOf(q, ts, h), ok, now)
  {
    x := q;
    if c.breakerThreshold <= 0 {
      return;
    }
    if ok {
      x := x.(failures := 0, openUntilMs := 0);
      return;
    }
    x := x.(failures := x.failures + 1);
    if x.failures >= c.breakerThreshold {
      var openMs := if c.breakerOpenMs > 0 then c.breakerOpenMs else 30000;
      x := x.(openUntilMs := now + openMs);
    }
  }

  method BreakerReport(c: Config, m: Store, q: Ref, ok: bool, now: int, ghost g: Shape, ghost s: State)
    returns (m': Store)
    requires Stands(m, g, s) && q in m.key && InFlight(s, m.key[q])
    ensures Stands(m', g, DoBreakerResult(c, s, m.key[q], ok, now))
    ensures m'.key == m.key
  {
    hide Stands;
    FieldsTell(m, g, s, q);
    var x := BreakerFields(c, m.queues[q], ok, now);
    StandsSet(m, g, s, q, x, g.tasks[q], g.hand[q]);
    assert g.tasks[q := g.tasks[q]] == g.tasks && g.hand[q := g.hand[q]] == g.hand;
    m' := m.(queues := m.queues[q := x]);
  }

  method IdleAdd(m: Store, q: Ref, now: int, rings: Deques, ghost g: Shape, ghost s: State)
    returns (m': Store, ghost g': Shape)
    requires Stands(m, g, s) && q in m.key && m.key[q] in s.queues
    requires q in rings && q in g.tasks && rings[q].count == |g.tasks[q]|
    requires s.queues[m.key[q]].tasks == [] && s.queues[m.key[q]].hand.None?
    ensures Stands(m', g', SchedulerSpec.IdleAdd(s, m.key[q], now)) && m'.key == m.key && g'.tasks == g.tasks
  {
    hide Spells, Indexed, Viewed, Chained;
    assert SeeFields(0);
    FieldsTell(m, g, s, q);
    m', g' := m, g;
    if m.idle.on[q] || rings[q].count != 0 || m.queues[q].inflight {
      return;
    }
    EntriesAppend(m.key, m.emptySinceMs, g.idle, q, now);
    var idle := LinkTail(m.idle, q, g.idle, m.key.Keys);
    m', g' := m.(idle := idle, emptySinceMs := m.emptySinceMs[q := now]), g.(idle := g.idle + [q]);
  }

  lemma EntriesAppend(key: Field<Key>, at: Field<int>, qs: seq<Ref>, q: Ref, now: int)
    requires q in key && q !in qs
    ensures EntriesAt(key, at[q := now], qs + [q]) == EntriesAt(key, at, qs) + [Entry(key[q], now)]
  {
  }

  /** The sender is done with the task in hand. */
  method FinishQueue(c: Config, m: Store, q: Ref, now: int, rings: Deques, ghost g: Shape, ghost s: State, ghost repr: set<object>)
    returns (m': Store, ghost g': Shape)
    requires Stands(m, g, s) && q in m.key && InFlight(s, m.key[q]) && Counted(m.key, rings, g.tasks, repr)
    ensures Stands(m', g', DoFinish(c, s, m.key[q], now))
    ensures (m'.key == m.key || m'.key == m.key - {q}) && g'.tasks == g.tasks
  {
    hide Stands;
    FieldsTell(m, g, s, q);
    var x := m.queues[q].(inflight := false);
    StandsSet(m, g, s, q, x, g.tasks[q], None);
    assert g.tasks[q := g.tasks[q]] == g.tasks;
    ghost var k, t := m.key[q], s.queues[m.key[q]].hand.value;
    m', g' := m.(queues := m.queues[q := x]), g.(hand := g.hand[q := None]);
    StandsLog(m', g', s.(queues := s.queues[k := s.queues[k].(hand := None)]), s.log + [Finished(k, t)]);
    if rings[q].count > 0 {
      if c.breakerThreshold > 0 && x.openUntilMs > now {
        m', g' := DelayedAddSorted(m', q, x.openUntilMs, g', Release(s, k));
      } else {
        m', g' := ReadyAdd(m', q, rings, g', Release(s, k));
      }
    } else if c.idleTtlMs > 0 {
      m', g' := IdleAdd(m', q, now, rings, g', Release(s, k));
    } else {
      m', g' := KeyQueueRemoveAndFree(m', q, g', Release(s, k));
    }
  }

  lemma IdleTells(m: Store, g: Shape, s: State, i: nat)
    requires Stands(m, g, s)
    ensures |g.idle| == |s.idle| && m.idle.head == First(g.idle)
    ensures i < |g.idle| ==>
              && g.idle[i] != NULL && g.idle[i] in m.key && g.idle[i] in m.idle.next
              && m.idle.next[g.idle[i]] == First(g.idle[i + 1..])
              && s.idle[i] == Entry(m.key[g.idle[i]], Get(m.emptySinceMs, g.idle[i], 0))
              && Omit(g.idle, g.idle[i]) == Drop(g.idle, i)
  {
    hide Spells, Indexed, Viewed, Chained;
    assert SeeFields(0);
    SpellsTells(m.idle, g.idle, m.key.Keys);
    if i < |g.idle| {
      NextTells(m.idle, g.idle, m.key.Keys, i);
      assert g.idle[i] in g.idle;
      SchedulerLaws.OmitAt(g.idle, i);
    }
  }

  /** Queues that still exist by key are where they were. */
  ghost predicate Stays(key: Field<Key>, key': Field<Key>, queues: map<Key, QueueState>) {
    forall q | q in key && key[q] in queues :: q in key' && key'[q] == key[q]
  }

  lemma StaysOn(key: Field<Key>, key': Field<Key>, key'': Field<Key>, queues: map<Key, QueueState>, queues': map<Key, QueueState>)
    requires Stays(key, key', queues) && Stays(key', key'', queues') && queues'.Keys <= queues.Keys
    ensures Stays(key, key'', queues')
  {
  }

  method CleanIdle(c: Config, m: Store, now: int, rings: Deques, ghost g: Shape, ghost s: State, ghost repr: set<object>)
    returns (m': Store, ghost g': Shape)
    requires Stands(m, g, s) && Placed(s) && Counted(m.key, rings, g.tasks, repr)
    ensures Stands(m', g', DoIdleCleanup(c, s, now)) && m'.key.Keys <= m.key.Keys && g'.tasks == g.tasks
    ensures Stays(m.key, m'.key, DoIdleCleanup(c, s, now).queues)
  {
    hide Stands, Placed;
    m', g' := m, g;
    if c.idleTtlMs <= 0 {
      return;
    }
    hide DoIdleCleanup;
    ghost var s1 := s;
    ghost var i: nat := 0;
    IdleTells(m, g, s, 0);
    assert g.idle[0..] == g.idle;
    var q := m.idle.head;
    while q != NULL
      invariant Stands(m', g', s1) && Placed(s1) && Stays(m.key, m'.key, s1.queues)
      invariant m'.key.Keys <= m.key.Keys && g'.tasks == g.tasks
      invariant i <= |g'.idle| == |s1.idle| && q == First(g'.idle[i..])
      invariant SchedulerLaws.CleanFrom(c, s, 0, now) == SchedulerLaws.CleanFrom(c, s1, i, now)
      decreases |g'.idle| - i
    {
      assert g'.idle[i] == q;
      IdleTells(m', g', s1, i);
      var next := m'.idle.next[q];
      ghost var key, queues := m'.key, s1.queues;
      m', g', s1, i := CleanOne(c, m', q, now, rings, g', s1, repr, i);
      StaysOn(m.key, key, m'.key, queues, s1.queues);
      q := next;
    }
    IdleTells(m', g', s1, i);
    SchedulerLaws.CleanAll(c, s, now);
  }

  /** One round of the loop: the idle queue at position `i` is freed or passed over. */
  method CleanOne(c: Config, m: Store, q: Ref, now: int, rings: Deques, ghost g: Shape, ghost s: State,
                  ghost repr: set<object>, ghost i: nat)
    returns (m': Store, ghost g': Shape, ghost s': State, ghost i': nat)
    requires Stands(m, g, s) && Placed(s) && i < |g.idle| == |s.idle| && g.idle[i] == q && c.idleTtlMs > 0
    requires Counted(m.key, rings, g.tasks, repr)
    ensures Stands(m', g', s') && Placed(s') && m'.key.Keys <= m.key.Keys && g'.tasks == g.tasks
    ensures Stays(m.key, m'.key, s'.queues) && s'.queues.Keys <= s.queues.Keys
    ensures i' <= |g'.idle| == |s'.idle| && g'.idle[i'..] == g.idle[i + 1..]
    ensures SchedulerLaws.CleanFrom(c, s, i, now) == SchedulerLaws.CleanFrom(c, s', i', now)
  {
    hide Stands;
    IdleQueueTells(m, g, s, i);
    SchedulerLaws.CleanRound(c, s, i, now);
    if m.idle.on[q] && rings[q].count == 0 && !m.queues[q].inflight
       && now - Get(m.emptySinceMs, q, 0) >= c.idleTtlMs
    {
      m', g' := FreeIdle(m, q, g, s, i);
      s', i' := Remove(s, m.key[q]), i;
    } else {
      m', g', s', i' := m, g, s, i + 1;
    }
  }

  lemma IdleQueueTells(m: Store, g: Shape, s: State, i: nat)
    requires Stands(m, g, s) && Placed(s) && i < |g.idle| == |s.idle|
    ensures var q := g.idle[i];
            && q in m.key && q in m.queues && q in g.tasks && q in m.idle.on
            && m.idle.on[q] && g.tasks[q] == [] && !m.queues[q].inflight
            && s.idle[i] == Entry(m.key[q], Get(m.emptySinceMs, q, 0))
  {
    hide Stands;
    IdleTells(m, g, s, i);
    FieldsTell(m, g, s, g.idle[i]);
    SchedulerLaws.RemoveIdle(s, i);
  }

  method FreeIdle(m: Store, q: Ref, ghost g: Shape, ghost s: State, ghost i: nat) returns (m': Store, ghost g': Shape)
    requires Stands(m, g, s) && Placed(s) && i < |g.idle| == |s.idle| && g.idle[i] == q
    ensures q in m.key && Stands(m', g', Remove(s, m.key[q])) && m'.key == m.key - {q}
    ensures g'.idle == Drop(g.idle, i) && g'.tasks == g.tasks
  {
    hide Stands;
    IdleTells(m, g, s, i);
    ghost var k := m.key[q];
    m', g' := IdleRemove(m, q, g, s);
    SchedulerLaws.RemoveTwice(s, i);
    NoDuplicates(m, g, s);
    OmitGone(g.idle, q);
    SchedulerLaws.OmitAbsent(Drop(g.idle, i), q);
    m', g' := KeyQueueRemoveAndFree(m', q, g', s.(idle := Without(s.idle, k)));
  }

  lemma OneQueuePerKey(m: Store, g: Shape, s: State)
    requires Stands(m, g, s)
    ensures forall x, y :: x in m.key && y in m.key && m.key[x] == m.key[y] ==> x == y
  {
    hide Spells, Viewed, Chained;
    assert SeeFields(0);
  }

  /** A sender has taken `t` from the queue at `q`. */
  ghost predicate HasHand(key: Field<Key>, s: State, q: Ref, t: SendTask) {
    q in key && key[q] in s.queues && s.queues[key[q]].hand == Some(t)
  }

  /** Whatever a sender holds of a queue other than `but`, it still holds at the same address. */
  ghost predicate KeepsHands(key: Field<Key>, s: State, key': Field<Key>, s': State, but: Ref) {
    forall q, t :: q != but && HasHand(key, s, q, t) ==> HasHand(key', s', q, t)
  }

  lemma HandsKept(c: Config, key: Field<Key>, key': Field<Key>, s: State, step: Step, but: Ref)
    requires Inv(c, s) && Enabled(s, step)
    requires forall q | q in key && q != but && key[q] in Apply(c, s, step).queues :: q in key' && key'[q] == key[q]
    requires forall q | q in key && q != but :: !SchedulerLaws.GivesUp(step, key[q])
    ensures KeepsHands(key, s, key', Apply(c, s, step), but)
  {
    forall q, t | q != but && HasHand(key, s, q, t) ensures HasHand(key', Apply(c, s, step), q, t) {
      SchedulerLaws.HandStays(c, s, step, key[q]);
    }
  }

  // ---- the producer ----

  const EMPTY_CHAIN := Chain(NULL, NULL, map[], map[], map[])

  function EmptyStore(bucketCount: nat): Store {
    Store(seq(bucketCount, _ => NULL), 0, map[], map[], map[], map[], map[], map[],
          EMPTY_CHAIN, EMPTY_CHAIN, EMPTY_CHAIN)
  }

  function EmptyShape(bucketCount: nat): Shape {
    Shape(map[], seq(bucketCount, _ => []), [], [], [], map[], map[])
  }

  lemma EmptyStands(bucketCount: nat)
    requires 0 < bucketCount
    ensures Stands(EmptyStore(bucketCount), EmptyShape(bucketCount), INITIAL)
  {
    assert SeeFields(0);
    EmptySpells();
    EmptyChained(bucketCount);
  }

  lemma {:induction false} EmptySpells()
    ensures Spells(EMPTY_CHAIN, [], {})
  {
  }

  lemma EmptyChained(bucketCount: nat)
    requires 0 < bucketCount
    ensures Chained(map[], map[], map[], seq(bucketCount, _ => NULL), seq(bucketCount, _ => []))
  {
  }

  /** The scheduler half of the producer. `state` is the abstract state its
      fields and the rings stand for; every method is one critical section and
      takes it by exactly the step of that name. */
  class Producer {
    const config: Config
    var fields: Store
    var rings: Deques
    ghost var Repr: set<object>
    ghost var shape: Shape
    ghost var state: State

    ghost predicate Valid()
      reads this, Repr
    {
      && Stands(fields, shape, state) && Inv(config, state)
      && this !in Repr && RingsHold(fields.key, rings, shape.tasks, Repr)
    }

    /** A sender has taken `t` from the queue at `q`. */
    ghost predicate InHand(q: Ref, t: SendTask)
      reads this
    {
      HasHand(fields.key, state, q, t)
    }

    constructor (config: Config, bucketCount: nat)
      requires 0 < bucketCount
      ensures Valid() && state == INITIAL && this.config == config && Repr == {}
    {
      hide Stands, Inv;
      this.config := config;
      fields := EmptyStore(bucketCount);
      rings, Repr := map[], {};
      shape := EmptyShape(bucketCount);
      state := INITIAL;
      EmptyStands(bucketCount);
      SchedulerLaws.InitialInv(config);
    }

    /** `memory` is the address the allocator would hand out. */
    method PushKeyQueue(k: Key, t: SendTask, memory: Ref) returns (ok: bool)
      requires Valid() && memory != NULL && memory !in fields.key
      modifies this, Repr
      ensures Valid() && SchedulerLaws.Next(config, old(state), Push(k, t), state)
      ensures KeepsHands(old(fields).key, old(state), fields.key, state, NULL)
      ensures ok <==> k in old(state).queues || !(0 < config.maxActive <= |old(state).queues|)
      ensures fresh(Repr - old(Repr))
    {
      hide Stands, Inv, RingsHold, Known, KeepsHands, DoPush;
      SchedulerLaws.ApplyInv(config, state, Push(k, t));
      SchedulerLaws.InvKnown(config, state);
      var zeroed, m, q;
      ghost var repr, g;
      zeroed, repr := Calloc(rings, memory, k, fields.key, shape.tasks, Repr);
      assert this !in repr;
      m, q, g, repr := PushTask(config, fields, k, t, memory, zeroed, shape, state, repr);
      HandsKept(config, fields.key, m.key, state, Push(k, t), NULL);
      ok := q != NULL;
      fields, rings, Repr, shape, state := m, zeroed, repr, g, DoPush(config, state, k, t);
    }

    method ReserveKeyQueue(k: Key, memory: Ref) returns (ok: bool)
      requires Valid() && memory != NULL && memory !in fields.key
      modifies this
      ensures Valid() && SchedulerLaws.Next(config, old(state), Reserve(k), state)
      ensures KeepsHands(old(fields).key, old(state), fields.key, state, NULL)
      ensures ok <==> k in old(state).queues || !(0 < config.maxActive <= |old(state).queues|)
      ensures fresh(Repr - old(Repr))
    {
      hide Stands, Inv, RingsHold, Known, KeepsHands, DoReserve;
      SchedulerLaws.ApplyInv(config, state, Reserve(k));
      SchedulerLaws.InvKnown(config, state);
      var zeroed, m, q;
      ghost var repr, g;
      zeroed, repr := Calloc(rings, memory, k, fields.key, shape.tasks, Repr);
      assert this !in repr;
      m, q, g := ReserveKey(config, fields, k, memory, shape, state);
      HandsKept(config, fields.key, m.key, state, Reserve(k), NULL);
      ok := q != NULL;
      fields, rings, Repr, shape, state := m, zeroed, repr, g, DoReserve(config, state, k);
    }

    /** A log is encoded into the builder of its key, or a batch is appended to it. */
    method CollectKeyQueue(k: Key, n: nat, memory: Ref) returns (ok: bool)
      requires Valid() && memory != NULL && memory !in fields.key
      modifies this
      ensures Valid() && SchedulerLaws.Next(config, old(state), Collect(k, n), state)
      ensures KeepsHands(old(fields).key, old(state), fields.key, state, NULL)
      ensures ok <==> k in old(state).queues || !(0 < config.maxActive <= |old(state).queues|)
      ensures fresh(Repr - old(Repr))
    {
      hide Stands, Inv, RingsHold, Known, KeepsHands, DoCollect;
      SchedulerLaws.ApplyInv(config, state, Collect(k, n));
      SchedulerLaws.InvKnown(config, state);
      var zeroed, m, q;
      ghost var repr, g;
      zeroed, repr := Calloc(rings, memory, k, fields.key, shape.tasks, Repr);
      assert this !in repr;
      m, q, g := CollectLogs(config, fields, k, n, memory, shape, state);
      HandsKept(config, fields.key, m.key, state, Collect(k, n), NULL);
      ok := q != NULL;
      fields, rings, Repr, shape, state := m, zeroed, repr, g, DoCollect(config, state, k, n);
    }

    /** The builder of the queue at `q` goes onto the sealed list with its bytes. */
    method SealKeyQueue(q: Ref) returns (bytes: nat)
      requires Valid() && q in fields.key
      modifies this
      ensures Valid() && SchedulerLaws.Next(config, old(state), Seal(old(fields).key[q]), state)
      ensures bytes == BuilderBytes(old(state), old(fields).key[q])
      ensures fields.key == old(fields).key && Repr == old(Repr)
      ensures KeepsHands(old(fields).key, old(state), fields.key, state, NULL)
    {
      hide Stands, Inv, RingsHold, Known, KeepsHands;
      FieldsTell(fields, shape, state, q);
      SchedulerLaws.ApplyInv(config, state, Seal(fields.key[q]));
      SchedulerLaws.InvKnown(config, state);
      bytes := fields.queues[q].builder;
      var m := WriteBuilder(fields, q, 0, shape, state);
      HandsKept(config, fields.key, m.key, state, Seal(fields.key[q]), NULL);
      fields, state := m, DoSeal(state, fields.key[q]);
    }

    method PickKeyQueue(now: int) returns (q: Ref, t: SendTask)
      requires Valid()
      modifies this, Repr
      ensures Valid() && SchedulerLaws.Next(config, old(state), Pick(now), state)
      ensures q == NULL <==> Picked(old(state), now) == None
      ensures q != NULL ==> InHand(q, t) && Picked(old(state), now) == Some(fields.key[q])
      ensures q != NULL ==> !InFlight(old(state), fields.key[q])
      ensures KeepsHands(old(fields).key, old(state), fields.key, state, NULL)
      ensures Repr == old(Repr)
    {
      hide Stands, Inv, RingsHold, Known, KeepsHands, Promote, DoPick;
      SchedulerLaws.ApplyInv(config, state, Pick(now));
      SchedulerLaws.InvKnown(config, state);
      if Picked(state, now).Some? {
        SchedulerLaws.PickTakesOldest(config, state, now);
      }
      var m;
      ghost var g;
      m, q, t, g := PickTask(fields, now, rings, shape, state, Repr);
      HandsKept(config, fields.key, m.key, state, Pick(now), NULL);
      fields, shape, state := m, g, DoPick(state, now);
    }

    method RequeueKeyQueue(q: Ref, t: SendTask, next: int)
      requires Valid() && InHand(q, t)
      modifies this, Repr
      ensures Valid() && SchedulerLaws.Next(config, old(state), Requeue(old(fields).key[q], next), state)
      ensures KeepsHands(old(fields).key, old(state), fields.key, state, q)
      ensures fresh(Repr - old(Repr))
    {
      hide Stands, Inv, RingsHold, Known, KeepsHands, DoRequeue;
      SchedulerLaws.ApplyInv(config, state, Requeue(fields.key[q], next));
      SchedulerLaws.InvKnown(config, state);
      OneQueuePerKey(fields, shape, state);
      var m;
      ghost var g, repr;
      m, g, repr := GateRequeue(fields, q, t, next, rings, shape, state, Repr);
      HandsKept(config, fields.key, m.key, state, Requeue(fields.key[q], next), q);
      fields, Repr, shape, state := m, repr, g, DoRequeue(state, fields.key[q], next);
    }

    method ReportKeyQueue(q: Ref, ghost t: SendTask, ok: bool, now: int)
      requires Valid() && InHand(q, t)
      modifies this
      ensures Valid() && InHand(q, t)
      ensures fields.key == old(fields).key && Repr == old(Repr)
      ensures SchedulerLaws.Next(config, old(state), BreakerResult(old(fields).key[q], ok, now), state)
      ensures KeepsHands(old(fields).key, old(state), fields.key, state, NULL)
    {
      hide Stands, Inv, RingsHold, Known, KeepsHands;
      SchedulerLaws.ApplyInv(config, state, BreakerResult(fields.key[q], ok, now));
      SchedulerLaws.InvKnown(config, state);
      var m := BreakerReport(config, fields, q, ok, now, shape, state);
      HandsKept(config, fields.key, m.key, state, BreakerResult(fields.key[q], ok, now), NULL);
      fields, state := m, DoBreakerResult(config, state, fields.key[q], ok, now);
    }

    method FinishKeyQueue(q: Ref, ghost t: SendTask, now: int)
      requires Valid() && InHand(q, t)
      modifies this
      ensures Valid() && SchedulerLaws.Next(config, old(state), Finish(old(fields).key[q], now), state)
      ensures KeepsHands(old(fields).key, old(state), fields.key, state, q)
      ensures Repr == old(Repr)
    {
      hide Stands, Inv, RingsHold, Known, KeepsHands, DoFinish;
      SchedulerLaws.ApplyInv(config, state, Finish(fields.key[q], now));
      SchedulerLaws.InvKnown(config, state);
      OneQueuePerKey(fields, shape, state);
      HoldCounts(fields.key, rings, shape.tasks, Repr);
      var m;
      ghost var g;
      m, g := FinishQueue(config, fields, q, now, rings, shape, state, Repr);
      FewerRings(fields.key, m.key, rings, shape.tasks, Repr);
      HandsKept(config, fields.key, m.key, state, Finish(fields.key[q], now), q);
      fields, shape, state := m, g, DoFinish(config, state, fields.key[q], now);
    }

    method CleanIdleKeyQueues(now: int)
      requires Valid()
      modifies this
      ensures Valid() && SchedulerLaws.Next(config, old(state), IdleCleanup(now), state)
      ensures KeepsHands(old(fields).key, old(state), fields.key, state, NULL)
      ensures Repr == old(Repr)
    {
      hide Stands, Inv, RingsHold, Known, Placed, KeepsHands, DoIdleCleanup;
      SchedulerLaws.ApplyInv(config, state, IdleCleanup(now));
      SchedulerLaws.InvKnown(config, state);
      SchedulerLaws.InvPlaced(config, state);
      HoldCounts(fields.key, rings, shape.tasks, Repr);
      var m;
      ghost var g;
      m, g := CleanIdle(config, fields, now, rings, shape, state, Repr);
      FewerRings(fields.key, m.key, rings, shape.tasks, Repr);
      HandsKept(config, fields.key, m.key, state, IdleCleanup(now), NULL);
      fields, shape, state := m, g, DoIdleCleanup(config, state, now);
    }
  }
}
