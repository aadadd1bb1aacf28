/** The byte budget, on the buffers themselves: which buffers are live in each
    stage, what each critical section does to them, and what every run keeps. */
module BudgetSpec {
  import opened Basics

  // ---- bags of sizes ----

  function Sum(s: seq<nat>): nat {
    if s == [] then 0 else s[0] + Sum(s[1..])
  }

  function Drop(s: seq<nat>, i: nat): seq<nat>
    requires i < |s|
  {
    s[..i] + s[i + 1..]
  }

  /** The buffer at `i` grows by `n`, or, at the end, a buffer of `n` bytes is new. */
  function Grow(s: seq<nat>, i: nat, n: nat): seq<nat>
    requires i <= |s|
  {
    if i == |s| then s + [n] else s[i := s[i] + n]
  }

  lemma {:induction false} SumConcat(s: seq<nat>, t: seq<nat>)
    ensures Sum(s + t) == Sum(s) + Sum(t)
  {
    if s == [] {
      assert s + t == t;
    } else {
      assert (s + t)[1..] == s[1..] + t;
      SumConcat(s[1..], t);
    }
  }

  lemma {:induction false} SumDrop(s: seq<nat>, i: nat)
    requires i < |s|
    ensures Sum(Drop(s, i)) == Sum(s) - s[i]
  {
    SumConcat(s[..i], s[i + 1..]);
    SumConcat(s[..i], s[i..]);
    assert s[..i] + s[i..] == s && s[i..][1..] == s[i + 1..];
  }

  lemma {:induction false} ElementsCovered(s: seq<nat>)
    ensures forall i :: 0 <= i < |s| ==> s[i] <= Sum(s)
  {
    if s != [] {
      ElementsCovered(s[1..]);
      assert forall i :: 1 <= i < |s| ==> s[i] == s[1..][i - 1];
    }
  }

  lemma {:induction false} SumGrow(s: seq<nat>, i: nat, n: nat)
    requires i <= |s|
    ensures Sum(Grow(s, i, n)) == Sum(s) + n
  {
    if i == |s| {
      SumConcat(s, [n]);
    } else {
      var t := s[i := s[i] + n];
      SumDrop(s, i);
      SumDrop(t, i);
      assert Drop(s, i) == Drop(t, i);
    }
  }

  // ---- open builders ----

  /** A builder that logs are added to: the default one, or that of a key queue. */
  datatype Builder = DefaultBuilder | KeyBuilder(key: Key)

  type Builders = map<Builder, nat>

  ghost function SumOpen(m: Builders): nat {
    if m == map[] then 0
    else
      var b :| b in m;
      m[b] + SumOpen(m - {b})
  }

  function BytesOf(m: Builders, b: Builder): nat {
    if b in m then m[b] else 0
  }

  /** The builder grows by `n`, or is new with `n` bytes. */
  function Fill(m: Builders, b: Builder, n: nat): Builders {
    m[b := BytesOf(m, b) + n]
  }

  function BuildersOf(keys: set<Key>): set<Builder> {
    set k | k in keys :: KeyBuilder(k)
  }

  /** What the builders of some keys hold. */
  ghost function Held(m: Builders, keys: set<Key>): nat {
    SumOpen(map b | b in m && b in BuildersOf(keys) :: m[b])
  }

  lemma {:induction false} SumTake(m: Builders, b: Builder)
    ensures SumOpen(m) == BytesOf(m, b) + SumOpen(m - {b})
    decreases |m|
  {
    if b in m {
      var x :| x in m && SumOpen(m) == m[x] + SumOpen(m - {x});
      if x != b {
        SumTake(m - {x}, b);
        SumTake(m - {b}, x);
        assert m - {x} - {b} == m - {b} - {x};
      }
    } else {
      assert m - {b} == m;
    }
  }

  lemma SumFill(m: Builders, b: Builder, n: nat)
    ensures SumOpen(Fill(m, b, n)) == SumOpen(m) + n
  {
    SumTake(m, b);
    SumTake(Fill(m, b, n), b);
    assert Fill(m, b, n) - {b} == m - {b};
  }

  lemma HeldNothing(m: Builders)
    ensures Held(m, {}) == 0
  {
    assert (map b | b in m && b in BuildersOf({}) :: m[b]) == map[];
  }

  lemma {:induction false} SumHeld(m: Builders, keys: set<Key>)
    ensures SumOpen(m) == SumOpen(m - BuildersOf(keys)) + Held(m, keys)
    decreases |keys|
  {
    if keys == {} {
      assert m - BuildersOf(keys) == m;
      HeldNothing(m);
    } else {
      var k :| k in keys;
      HeldTake(m, keys, k);
      SumHeld(m - {KeyBuilder(k)}, keys - {k});
      SumTake(m, KeyBuilder(k));
      assert m - {KeyBuilder(k)} - BuildersOf(keys - {k}) == m - BuildersOf(keys);
    }
  }

  lemma HeldTake(m: Builders, keys: set<Key>, k: Key)
    requires k in keys
    ensures Held(m, keys) == BytesOf(m, KeyBuilder(k)) + Held(m - {KeyBuilder(k)}, keys - {k})
  {
    var part := map b | b in m && b in BuildersOf(keys) :: m[b];
    var rest := m - {KeyBuilder(k)};
    SumTake(part, KeyBuilder(k));
    assert part - {KeyBuilder(k)} == map b | b in rest && b in BuildersOf(keys - {k}) :: rest[b];
  }

  lemma {:induction false} HeldPositive(m: Builders, keys: set<Key>)
    ensures Held(m, keys) > 0 <==> exists k :: k in keys && BytesOf(m, KeyBuilder(k)) > 0
    decreases |keys|
  {
    if keys == {} {
      HeldNothing(m);
    } else {
      var k :| k in keys;
      var rest := m - {KeyBuilder(k)};
      HeldTake(m, keys, k);
      HeldPositive(rest, keys - {k});
      assert forall x :: x != k ==> BytesOf(rest, KeyBuilder(x)) == BytesOf(m, KeyBuilder(x));
    }
  }

  // ---- live buffers ----

  /** The sizes of the live buffers by stage: raw records from admission on, open
      builders by name, sealed builders until the worker has given their bytes
      back, what a thread has reserved for a log it is about to encode, thread
      batches, ingress batches, send tasks before and after a sender took them
      over, and compression scratch space. A stage whose buffers have no name is a
      bag written as a sequence. `lost` is what the builders held that were freed
      along with their key; those bytes are live nowhere. */
  datatype Live = Live(
    raw: seq<nat>,
    open: Builders,
    sealed: seq<nat>,
    pending: seq<nat>,
    batches: seq<nat>,
    ingress: seq<nat>,
    send: seq<nat>,
    inflight: seq<nat>,
    scratch: seq<nat>,
    lost: nat)

  const NOTHING_LIVE := Live([], map[], [], [], [], [], [], [], [], 0)

  /** The bytes whose stage `queue_bytes` counts. */
  ghost function QueueSide(l: Live): nat {
    Sum(l.raw) + SumOpen(l.open) + Sum(l.sealed)
  }

  /** What `queue_bytes` counts: nothing ever takes out what was lost. */
  ghost function QueueBytes(l: Live): nat {
    QueueSide(l) + l.lost
  }

  function ThreadBytes(l: Live): nat {
    Sum(l.pending) + Sum(l.batches)
  }

  ghost function IngressSide(l: Live): nat {
    QueueBytes(l) + Sum(l.ingress) + ThreadBytes(l)
  }

  function SendSide(l: Live): nat {
    Sum(l.send) + Sum(l.inflight) + Sum(l.scratch)
  }

  ghost function Total(l: Live): nat {
    IngressSide(l) + SendSide(l)
  }

  // ---- the reservation ----

  datatype Limits = Limits(maxBuffer: int, reserved: nat)

  /** Package bytes times senders, saturating; at most half of the buffer. */
  function EffectiveReserved(maxBuffer: int, package: nat, senders: nat): (r: nat)
    requires 0 < senders && maxBuffer < 0x8000_0000
    ensures r == if maxBuffer <= 0 then 0 else Min(package * senders, maxBuffer / 2)
  {
    if maxBuffer <= 0 then 0
    else
      ProductSaturates(package, senders);
      var desired := if package > (WORD - 1) / senders then WORD - 1 else package * senders;
      if desired > maxBuffer / 2 then maxBuffer / 2 else desired
  }

  lemma {:induction false} ProductSaturates(package: nat, senders: nat)
    requires 0 < senders
    ensures package > (WORD - 1) / senders ==> package * senders >= WORD - 1
  {
    var q := (WORD - 1) / senders;
    assert (WORD - 1) == q * senders + (WORD - 1) % senders;
    if package > q {
      assert package * senders == q * senders + (package - q) * senders;
      MulAtLeast(package - q, senders);
    }
  }

  lemma {:induction false} MulAtLeast(a: nat, b: nat)
    requires 1 <= a
    ensures a * b >= b
  {
  }

  /** `max_buffer_bytes` is a signed 32-bit value, and the reservation is at most half of it. */
  predicate Sensible(c: Limits) {
    c.maxBuffer < 0x8000_0000 && (c.maxBuffer > 0 ==> 2 * c.reserved <= c.maxBuffer)
  }

  lemma ReservedIsSensible(maxBuffer: int, package: nat, senders: nat)
    requires 0 < senders && maxBuffer < 0x8000_0000
    ensures Sensible(Limits(maxBuffer, EffectiveReserved(maxBuffer, package, senders)))
  {
    hide EffectiveReserved;
  }

  /** Whether `n` more bytes may be taken. The send side may fill the buffer; the
      ingress side leaves out the reservation, or what the send side holds when that is more. */
  ghost predicate Room(c: Limits, l: Live, n: nat, forSend: bool) {
    || c.maxBuffer <= 0
    || (if forSend then Total(l) + n <= c.maxBuffer
        else IngressSide(l) + n + Max(SendSide(l), c.reserved) <= c.maxBuffer)
  }

  // ---- steps ----

  /** The critical sections. `n` is a size asked for or encoded, `i` the buffer the
      step works on, `into` and `batch` what it adds to (the end of the bag
      for a new batch). */
  datatype Step =
    | AdmitRaw(n: nat)
    | CancelRaw(i: nat)
    | PopRaw(i: nat)
    | AdmitKv(n: nat, into: Builder)
    | AdmitBatch(n: nat)
    | AppendBatch(i: nat, size: nat, batch: nat)
    | DropBatch(i: nat)
    | MoveToIngress(i: nat)
    | MergeBatch(i: nat, into: Builder)
    | MergeIngress(i: nat, into: Builder)
    | DropIngress(i: nat)
    | Seal(b: Builder)
    | FreeKeys(keys: set<Key>)
    | ReleaseBuilder(i: nat)
    | ReserveSend(n: nat)
    | ReleaseSend(i: nat)
    | MoveToInflight(i: nat)
    | ReleaseInflight(i: nat)
    | ReserveScratch(n: nat)
    | ReleaseScratch(i: nat)

  /** The buffer the step works on is live in the stage the step takes it from. */
  predicate Owned(l: Live, step: Step) {
    match step
    case AdmitRaw(_) => true
    case CancelRaw(i) => i < |l.raw|
    case PopRaw(i) => i < |l.raw|
    case AdmitKv(_, _) => true
    case AdmitBatch(_) => true
    case AppendBatch(i, _, batch) => i < |l.pending| && batch <= |l.batches|
    case DropBatch(i) => i < |l.batches|
    case MoveToIngress(i) => i < |l.batches|
    case MergeBatch(i, _) => i < |l.batches|
    case MergeIngress(i, _) => i < |l.ingress|
    case DropIngress(i) => i < |l.ingress|
    case Seal(b) => b in l.open
    case FreeKeys(_) => true
    case ReleaseBuilder(i) => i < |l.sealed|
    case ReserveSend(_) => true
    case ReleaseSend(i) => i < |l.send|
    case MoveToInflight(i) => i < |l.send|
    case ReleaseInflight(i) => i < |l.inflight|
    case ReserveScratch(_) => true
    case ReleaseScratch(i) => i < |l.scratch|
  }

  predicate Admission(step: Step) {
    step.AdmitRaw? || step.AdmitKv? || step.AdmitBatch?
  }

  predicate Reservation(step: Step) {
    step.ReserveSend? || step.ReserveScratch?
  }

  /** What the step asks of the budget: nothing, or `n` bytes for one of the two
      sides. A log encoded into a thread batch takes no more than was reserved for it. */
  ghost predicate Granted(c: Limits, l: Live, step: Step) {
    && (Admission(step) ==> Room(c, l, step.n, false))
    && (Reservation(step) ==> Room(c, l, step.n, true))
    && (step.AppendBatch? && step.i < |l.pending| ==> step.size <= l.pending[step.i])
  }

  ghost predicate Enabled(c: Limits, l: Live, step: Step) {
    Owned(l, step) && Granted(c, l, step)
  }

  ghost function Apply(l: Live, step: Step): Live
    requires Owned(l, step)
  {
    match step
    case AdmitRaw(n) => l.(raw := l.raw + [n])
    case CancelRaw(i) => l.(raw := Drop(l.raw, i))
    case PopRaw(i) => l.(raw := Drop(l.raw, i))
    case AdmitKv(n, into) => l.(open := Fill(l.open, into, n))
    case AdmitBatch(n) => l.(pending := l.pending + [n])
    case AppendBatch(i, size, batch) => l.(pending := Drop(l.pending, i), batches := Grow(l.batches, batch, size))
    case DropBatch(i) => l.(batches := Drop(l.batches, i))
    case MoveToIngress(i) => l.(batches := Drop(l.batches, i), ingress := l.ingress + [l.batches[i]])
    case MergeBatch(i, into) => l.(batches := Drop(l.batches, i), open := Fill(l.open, into, l.batches[i]))
    case MergeIngress(i, into) => l.(ingress := Drop(l.ingress, i), open := Fill(l.open, into, l.ingress[i]))
    case DropIngress(i) => l.(ingress := Drop(l.ingress, i))
    case Seal(b) => l.(open := l.open - {b}, sealed := l.sealed + [l.open[b]])
    case FreeKeys(keys) => l.(open := l.open - BuildersOf(keys), lost := l.lost + Held(l.open, keys))
    case ReleaseBuilder(i) => l.(sealed := Drop(l.sealed, i))
    case ReserveSend(n) => l.(send := l.send + [n])
    case ReleaseSend(i) => l.(send := Drop(l.send, i))
    case MoveToInflight(i) => l.(send := Drop(l.send, i), inflight := l.inflight + [l.send[i]])
    case ReleaseInflight(i) => l.(inflight := Drop(l.inflight, i))
    case ReserveScratch(n) => l.(scratch := l.scratch + [n])
    case ReleaseScratch(i) => l.(scratch := Drop(l.scratch, i))
  }

  // ---- what each step does to the sums ----

  /** By how much a step changes the sum of each stage. */
  datatype Change = Change(queue: int, thread: int, ingress: int, send: int, inflight: int, scratch: int)

  function ChangeOf(l: Live, step: Step): Change
    requires Owned(l, step)
  {
    match step
    case AdmitRaw(n) => Change(n, 0, 0, 0, 0, 0)
    case CancelRaw(i) => Change(-(l.raw[i] as int), 0, 0, 0, 0, 0)
    case PopRaw(i) => Change(-(l.raw[i] as int), 0, 0, 0, 0, 0)
    case AdmitKv(n, _) => Change(n, 0, 0, 0, 0, 0)
    case AdmitBatch(n) => Change(0, n, 0, 0, 0, 0)
    case AppendBatch(i, size, _) => Change(0, size - l.pending[i], 0, 0, 0, 0)
    case DropBatch(i) => Change(0, -(l.batches[i] as int), 0, 0, 0, 0)
    case MoveToIngress(i) => Change(0, -(l.batches[i] as int), l.batches[i], 0, 0, 0)
    case MergeBatch(i, _) => Change(l.batches[i], -(l.batches[i] as int), 0, 0, 0, 0)
    case MergeIngress(i, _) => Change(l.ingress[i], 0, -(l.ingress[i] as int), 0, 0, 0)
    case DropIngress(i) => Change(0, 0, -(l.ingress[i] as int), 0, 0, 0)
    case Seal(_) => Change(0, 0, 0, 0, 0, 0)
    case FreeKeys(_) => Change(0, 0, 0, 0, 0, 0)
    case ReleaseBuilder(i) => Change(-(l.sealed[i] as int), 0, 0, 0, 0, 0)
    case ReserveSend(n) => Change(0, 0, 0, n, 0, 0)
    case ReleaseSend(i) => Change(0, 0, 0, -(l.send[i] as int), 0, 0)
    case MoveToInflight(i) => Change(0, 0, 0, -(l.send[i] as int), l.send[i], 0)
    case ReleaseInflight(i) => Change(0, 0, 0, 0, -(l.inflight[i] as int), 0)
    case ReserveScratch(n) => Change(0, 0, 0, 0, 0, n)
    case ReleaseScratch(i) => Change(0, 0, 0, 0, 0, -(l.scratch[i] as int))
  }

  ghost predicate Moves(l: Live, d: Change, l': Live) {
    && QueueBytes(l') == QueueBytes(l) + d.queue
    && ThreadBytes(l') == ThreadBytes(l) + d.thread
    && Sum(l'.ingress) == Sum(l.ingress) + d.ingress
    && Sum(l'.send) == Sum(l.send) + d.send
    && Sum(l'.inflight) == Sum(l.inflight) + d.inflight
    && Sum(l'.scratch) == Sum(l.scratch) + d.scratch
  }

  predicate OnIngressSide(step: Step) {
    || Admission(step) || step.CancelRaw? || step.PopRaw? || step.AppendBatch? || step.DropBatch?
    || step.MoveToIngress? || step.MergeBatch? || step.MergeIngress? || step.DropIngress?
  }

  /** Conservation: a step changes the sums by exactly what it says, whatever is live. */
  lemma Conserves(l: Live, step: Step)
    requires Owned(l, step)
    ensures Moves(l, ChangeOf(l, step), Apply(l, step))
  {
    if OnIngressSide(step) {
      ConservesIngress(l, step);
    } else {
      ConservesSend(l, step);
    }
  }

  lemma ConservesIngress(l: Live, step: Step)
    requires Owned(l, step) && OnIngressSide(step)
    ensures Moves(l, ChangeOf(l, step), Apply(l, step))
  {
    match step
    case AdmitRaw(n) => SumConcat(l.raw, [n]);
    case CancelRaw(i) => SumDrop(l.raw, i);
    case PopRaw(i) => SumDrop(l.raw, i);
    case AdmitKv(n, into) => SumFill(l.open, into, n);
    case AdmitBatch(n) => SumConcat(l.pending, [n]);
    case AppendBatch(i, size, batch) => SumDrop(l.pending, i); SumGrow(l.batches, batch, size);
    case DropBatch(i) => SumDrop(l.batches, i);
    case MoveToIngress(i) => SumDrop(l.batches, i); SumConcat(l.ingress, [l.batches[i]]);
    case MergeBatch(i, into) => SumDrop(l.batches, i); SumFill(l.open, into, l.batches[i]);
    case MergeIngress(i, into) => SumDrop(l.ingress, i); SumFill(l.open, into, l.ingress[i]);
    case DropIngress(i) => SumDrop(l.ingress, i);
  }

  lemma ConservesSend(l: Live, step: Step)
    requires Owned(l, step) && !OnIngressSide(step)
    ensures Moves(l, ChangeOf(l, step), Apply(l, step))
  {
    match step
    case Seal(b) => SumTake(l.open, b); SumConcat(l.sealed, [l.open[b]]);
    case FreeKeys(keys) => SumHeld(l.open, keys);
    case ReleaseBuilder(i) => SumDrop(l.sealed, i);
    case ReserveSend(n) => SumConcat(l.send, [n]);
    case ReleaseSend(i) => SumDrop(l.send, i);
    case MoveToInflight(i) => SumDrop(l.send, i); SumConcat(l.inflight, [l.send[i]]);
    case ReleaseInflight(i) => SumDrop(l.inflight, i);
    case ReserveScratch(n) => SumConcat(l.scratch, [n]);
    case ReleaseScratch(i) => SumDrop(l.scratch, i);
  }

  // ---- what each step does to each stage ----

  /** The sums of the nine stages. */
  datatype Sums = Sums(raw: int, open: int, sealed: int, pending: int, batches: int,
                       ingress: int, send: int, inflight: int, scratch: int)

  ghost function SumsOf(l: Live): (m: Sums)
    ensures m.raw == Sum(l.raw) && m.open == SumOpen(l.open) && m.sealed == Sum(l.sealed)
    ensures m.pending == Sum(l.pending) && m.batches == Sum(l.batches) && m.ingress == Sum(l.ingress)
    ensures m.send == Sum(l.send) && m.inflight == Sum(l.inflight) && m.scratch == Sum(l.scratch)
  {
    Sums(Sum(l.raw), SumOpen(l.open), Sum(l.sealed), Sum(l.pending), Sum(l.batches),
         Sum(l.ingress), Sum(l.send), Sum(l.inflight), Sum(l.scratch))
  }

  /** Writers: what is admitted is added to its stage and to no other, a log
      encoded into a batch takes its encoded size there, a record cancelled or
      popped gives its bytes back, a batch dropped as well. */
  lemma WriterSums(l: Live, step: Step)
    requires Owned(l, step)
    ensures var m, m' := SumsOf(l), SumsOf(Apply(l, step));
            && (step.AdmitRaw? ==> m' == m.(raw := m.raw + step.n))
            && (step.CancelRaw? || step.PopRaw? ==> m' == m.(raw := m.raw - l.raw[step.i]))
            && (step.AdmitKv? ==> m' == m.(open := m.open + step.n))
            && (step.AdmitBatch? ==> m' == m.(pending := m.pending + step.n))
            && (step.AppendBatch? ==> m' == m.(pending := m.pending - l.pending[step.i],
                                               batches := m.batches + step.size))
            && (step.DropBatch? ==> m' == m.(batches := m.batches - l.batches[step.i]))
  {
    hide Sum, SumOpen, Fill, Grow, Drop;
    if step.AdmitRaw? || step.AdmitBatch? {
      SumConcat(l.raw, [step.n]);
      SumConcat(l.pending, [step.n]);
      SumOne(step.n);
    } else if step.CancelRaw? || step.PopRaw? {
      SumDrop(l.raw, step.i);
    } else if step.AdmitKv? {
      SumFill(l.open, step.into, step.n);
    } else if step.AppendBatch? {
      SumDrop(l.pending, step.i);
      SumGrow(l.batches, step.batch, step.size);
    } else if step.DropBatch? {
      SumDrop(l.batches, step.i);
    }
  }

  lemma SumOne(n: nat)
    ensures Sum([n]) == n
  {
  }

  /** The worker: batches change stage with all their bytes, a sealed builder keeps
      its bytes until they are released, and freed builders take theirs along. */
  lemma WorkerSums(l: Live, step: Step)
    requires Owned(l, step)
    ensures var m, m' := SumsOf(l), SumsOf(Apply(l, step));
            && (step.MoveToIngress? ==> m' == m.(batches := m.batches - l.batches[step.i],
                                                 ingress := m.ingress + l.batches[step.i]))
            && (step.MergeBatch? ==> m' == m.(batches := m.batches - l.batches[step.i],
                                              open := m.open + l.batches[step.i]))
            && (step.MergeIngress? ==> m' == m.(ingress := m.ingress - l.ingress[step.i],
                                                open := m.open + l.ingress[step.i]))
            && (step.DropIngress? ==> m' == m.(ingress := m.ingress - l.ingress[step.i]))
            && (step.Seal? ==> m' == m.(open := m.open - l.open[step.b], sealed := m.sealed + l.open[step.b]))
            && (step.ReleaseBuilder? ==> m' == m.(sealed := m.sealed - l.sealed[step.i]))
            && (step.FreeKeys? ==> m' == m.(open := m.open - (Apply(l, step).lost - l.lost)))
            && (!step.FreeKeys? ==> Apply(l, step).lost == l.lost)
  {
    hide Sum, SumOpen, Fill, Grow, Drop, Held, BuildersOf;
    if step.MoveToIngress? || step.MergeBatch? {
      SumDrop(l.batches, step.i);
      SumConcat(l.ingress, [l.batches[step.i]]);
      SumOne(l.batches[step.i]);
    } else if step.MergeIngress? || step.DropIngress? {
      SumDrop(l.ingress, step.i);
    } else if step.Seal? {
      SumTake(l.open, step.b);
      SumConcat(l.sealed, [l.open[step.b]]);
      SumOne(l.open[step.b]);
    } else if step.ReleaseBuilder? {
      SumDrop(l.sealed, step.i);
    } else if step.FreeKeys? {
      SumHeld(l.open, step.keys);
    }
    if step.MergeBatch? {
      SumFill(l.open, step.into, l.batches[step.i]);
    } else if step.MergeIngress? {
      SumFill(l.open, step.into, l.ingress[step.i]);
    }
  }

  /** Freeing keys takes their builders away and no other. */
  lemma FreedBuilders(l: Live, keys: set<Key>, b: Builder)
    ensures var l' := Apply(l, FreeKeys(keys));
            && (b in l'.open <==> b in l.open && (b.KeyBuilder? ==> b.key !in keys))
            && (b in l'.open ==> l'.open[b] == l.open[b])
  {
    hide SumOpen, Held;
  }

  /** The senders: a task is counted from its reservation until it is given back
      or finished, in one of the two send stages; scratch likewise. */
  lemma SenderSums(l: Live, step: Step)
    requires Owned(l, step)
    ensures var m, m' := SumsOf(l), SumsOf(Apply(l, step));
            && (step.ReserveSend? ==> m' == m.(send := m.send + step.n))
            && (step.ReleaseSend? ==> m' == m.(send := m.send - l.send[step.i]))
            && (step.MoveToInflight? ==> m' == m.(send := m.send - l.send[step.i],
                                                  inflight := m.inflight + l.send[step.i]))
            && (step.ReleaseInflight? ==> m' == m.(inflight := m.inflight - l.inflight[step.i]))
            && (step.ReserveScratch? ==> m' == m.(scratch := m.scratch + step.n))
            && (step.ReleaseScratch? ==> m' == m.(scratch := m.scratch - l.scratch[step.i]))
  {
    hide Sum, SumOpen, Fill, Grow, Drop, Held;
    if step.ReserveSend? || step.ReserveScratch? {
      SumConcat(l.send, [step.n]);
      SumConcat(l.scratch, [step.n]);
      SumOne(step.n);
    } else if step.ReleaseSend? || step.MoveToInflight? {
      SumDrop(l.send, step.i);
      SumConcat(l.inflight, [l.send[step.i]]);
      SumOne(l.send[step.i]);
    } else if step.ReleaseInflight? {
      SumDrop(l.inflight, step.i);
    } else if step.ReleaseScratch? {
      SumDrop(l.scratch, step.i);
    }
  }

  /** A request is granted exactly when, with those bytes taken, everything live or
      lost fits the limit and, for the ingress side, leaves the reservation free
      to the send side. Without a limit every request is granted. */
  lemma RoomExactly(c: Limits, l: Live, n: nat)
    ensures c.maxBuffer <= 0 ==> Room(c, l, n, true) && Room(c, l, n, false)
    ensures var ingress := Sum(l.raw) + SumOpen(l.open) + Sum(l.sealed) + l.lost
                           + Sum(l.pending) + Sum(l.batches) + Sum(l.ingress);
            var all := ingress + Sum(l.send) + Sum(l.inflight) + Sum(l.scratch);
            && (c.maxBuffer > 0 ==> (Room(c, l, n, true) <==> all + n <= c.maxBuffer))
            && (c.maxBuffer > 0 ==>
                  (Room(c, l, n, false) <==> all + n <= c.maxBuffer && ingress + n <= c.maxBuffer - c.reserved))
  {
    hide Sum, SumOpen;
  }

  // ---- every run ----

  ghost predicate WithinBudget(c: Limits, l: Live) {
    c.maxBuffer > 0 ==> Total(l) <= c.maxBuffer && IngressSide(l) <= c.maxBuffer - c.reserved
  }

  lemma NothingCounted(c: Limits)
    requires Sensible(c)
    ensures WithinBudget(c, NOTHING_LIVE)
    ensures Total(NOTHING_LIVE) == QueueBytes(NOTHING_LIVE) == ThreadBytes(NOTHING_LIVE) == 0
  {
  }

  lemma ApplyWithinBudget(c: Limits, l: Live, step: Step)
    requires Sensible(c) && WithinBudget(c, l) && Enabled(c, l, step)
    ensures WithinBudget(c, Apply(l, step))
  {
    Conserves(l, step);
    ChangeBound(c, l, step);
  }

  /** Neither side grows but by what an admission or a reservation asked for. */
  lemma ChangeBound(c: Limits, l: Live, step: Step)
    requires Enabled(c, l, step)
    ensures var d := ChangeOf(l, step);
            && d.queue + d.thread + d.ingress <= (if Admission(step) then step.n else 0)
            && d.send + d.inflight + d.scratch <= (if Reservation(step) then step.n else 0)
  {
  }

  ghost predicate Next(c: Limits, l: Live, step: Step, l': Live) {
    Enabled(c, l, step) && l' == Apply(l, step)
  }

  ghost predicate StepAt(c: Limits, trace: seq<Live>, steps: seq<Step>, i: nat)
    requires |trace| == |steps| + 1 && i < |steps|
  {
    Next(c, trace[i], steps[i], trace[i + 1])
  }

  ghost predicate IsRun(c: Limits, trace: seq<Live>, steps: seq<Step>) {
    && |trace| == |steps| + 1
    && trace[0] == NOTHING_LIVE
    && forall i :: 0 <= i < |steps| ==> StepAt(c, trace, steps, i)
  }

  /** In every interleaving the live buffers, and the bytes lost with freed keys,
      stay within a positive limit, and the ingress side leaves the reservation free. */
  lemma {:induction false} BoundedInEveryRun(c: Limits, trace: seq<Live>, steps: seq<Step>, n: nat)
    requires Sensible(c) && IsRun(c, trace, steps) && n < |trace|
    ensures c.maxBuffer > 0 ==> Total(trace[n]) <= c.maxBuffer
    ensures c.maxBuffer > 0 ==> IngressSide(trace[n]) <= c.maxBuffer - c.reserved
    ensures var l := trace[n];
            var ingress := Sum(l.raw) + SumOpen(l.open) + Sum(l.sealed) + l.lost
                           + Sum(l.pending) + Sum(l.batches) + Sum(l.ingress);
            c.maxBuffer > 0 ==>
              && ingress <= c.maxBuffer - c.reserved
              && ingress + Sum(l.send) + Sum(l.inflight) + Sum(l.scratch) <= c.maxBuffer
  {
    if n > 0 {
      BoundedInEveryRun(c, trace, steps, n - 1);
      assert StepAt(c, trace, steps, n - 1);
      ApplyWithinBudget(c, trace[n - 1], steps[n - 1]);
    }
  }

  /** Whatever the ingress side has taken, a send-side request that fits in the reservation is granted. */
  lemma {:induction false} ReservedIsGranted(c: Limits, trace: seq<Live>, steps: seq<Step>, i: nat, n: nat)
    requires Sensible(c) && IsRun(c, trace, steps) && i < |trace|
    requires SendSide(trace[i]) + n <= c.reserved
    ensures Room(c, trace[i], n, true)
  {
    BoundedInEveryRun(c, trace, steps, i);
  }

  /** A thread batch is already counted when it asks for room to be flushed, so
      the request is granted exactly when its size fits twice beside all else. */
  lemma {:induction false} FlushNeedsRoomTwice(c: Limits, l: Live, i: nat)
    requires c.maxBuffer > 0 && i < |l.batches|
    ensures var rest := l.(batches := Drop(l.batches, i));
            Room(c, l, l.batches[i], false) <==>
              IngressSide(rest) + 2 * l.batches[i] + Max(SendSide(rest), c.reserved) <= c.maxBuffer
  {
    SumDrop(l.batches, i);
  }

  // ---- what is lost ----

  /** The step frees no builder that holds bytes. */
  ghost predicate Spares(l: Live, step: Step) {
    step.FreeKeys? ==> Held(l.open, step.keys) == 0
  }

  lemma LostGrows(l: Live, step: Step)
    requires Owned(l, step)
    ensures Apply(l, step).lost >= l.lost
    ensures Apply(l, step).lost == l.lost <==> Spares(l, step)
  {
  }

  /** In every run `queue_bytes` counts exactly the live bytes of its stage if and
      only if no key was freed so far while its builder held bytes. */
  lemma {:induction false} QueueBytesExact(c: Limits, trace: seq<Live>, steps: seq<Step>, n: nat)
    requires IsRun(c, trace, steps) && n < |trace|
    ensures QueueBytes(trace[n]) == QueueSide(trace[n]) <==> forall i :: 0 <= i < n ==> Spares(trace[i], steps[i])
  {
    if n > 0 {
      QueueBytesExact(c, trace, steps, n - 1);
      assert StepAt(c, trace, steps, n - 1);
      LostGrows(trace[n - 1], steps[n - 1]);
    }
  }

  /** What was lost stays counted in every later state, and takes room from the ingress side. */
  lemma {:induction false} LostForever(c: Limits, trace: seq<Live>, steps: seq<Step>, i: nat, j: nat, n: nat)
    requires Sensible(c) && IsRun(c, trace, steps) && i <= j < |trace|
    ensures trace[i].lost <= trace[j].lost
    ensures c.maxBuffer > 0 && n + trace[i].lost > c.maxBuffer - c.reserved ==> !Room(c, trace[j], n, false)
    decreases j
  {
    if i < j {
      LostForever(c, trace, steps, i, j - 1, n);
      assert StepAt(c, trace, steps, j - 1);
      LostGrows(trace[j - 1], steps[j - 1]);
    }
  }
}
