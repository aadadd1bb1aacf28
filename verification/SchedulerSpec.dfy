/** What the key-queue scheduler computes, on values: one step for each
    critical section of the sender, and the invariant every step keeps. */
module SchedulerSpec {
  import opened Basics

  datatype SendTask = SendTask(hashKey: Key, startId: int, endId: int, batchBytes: nat, body: seq<Byte>)

  /** A zeroed task structure. */
  const BLANK := SendTask([], 0, 0, 0, [])

  datatype Config = Config(maxActive: int, idleTtlMs: int, breakerThreshold: int, breakerOpenMs: int)

  /** One key queue. `hand` is the task a sender has taken and not yet finished
      or put back; it is present exactly while the `inflight` flag is set.
      `builder` is how many bytes of logs wait in the builder of the key. */
  datatype QueueState = QueueState(
    tasks: seq<SendTask>,
    hand: Option<SendTask>,
    failures: int,
    openUntilMs: int,
    builder: nat)

  /** An entry of the delayed list (`at` = next_ready_ms) or of the idle list
      (`at` = empty_since_ms). */
  datatype Entry = Entry(key: Key, at: int)

  datatype Event = Pushed(key: Key, task: SendTask) | Finished(key: Key, task: SendTask)

  /** `log` records pushes and finishes in order; the code does not read it. */
  datatype State = State(
    queues: map<Key, QueueState>,
    ready: seq<Key>,
    delayed: seq<Entry>,
    idle: seq<Entry>,
    log: seq<Event>)

  datatype Step =
    | Push(key: Key, task: SendTask)
    | Reserve(key: Key)
    | Collect(key: Key, n: nat)
    | Seal(key: Key)
    | Pick(now: int)
    | Requeue(key: Key, next: int)
    | BreakerResult(key: Key, ok: bool, now: int)
    | Finish(key: Key, now: int)
    | IdleCleanup(now: int)

  const INITIAL := State(map[], [], [], [], [])
  const NEW_QUEUE := QueueState([], None, 0, 0, 0)

  // ---- lists ----

  predicate Distinct<T(==)>(s: seq<T>) {
    forall i, j :: 0 <= i < j < |s| ==> s[i] != s[j]
  }

  function KeysOf(es: seq<Entry>): (ks: seq<Key>)
    ensures |ks| == |es|
    ensures forall i :: 0 <= i < |es| ==> ks[i] == es[i].key
  {
    if es == [] then [] else [es[0].key] + KeysOf(es[1..])
  }

  predicate Sorted(es: seq<Entry>) {
    forall i, j :: 0 <= i < j < |es| ==> es[i].at <= es[j].at
  }

  /** The list without the first occurrence of `x`. */
  function Omit<T(==)>(s: seq<T>, x: T): seq<T> {
    if s == [] then []
    else if s[0] == x then s[1..]
    else [s[0]] + Omit(s[1..], x)
  }

  function Without(es: seq<Entry>, k: Key): seq<Entry> {
    if es == [] then []
    else if es[0].key == k then es[1..]
    else [es[0]] + Without(es[1..], k)
  }

  /** Behind every entry that is due no later, before all the others. */
  function Insert(es: seq<Entry>, e: Entry): (r: seq<Entry>) {
    if es == [] || es[0].at > e.at then [e] + es
    else [es[0]] + Insert(es[1..], e)
  }

  // ---- steps ----

  /** Looks the key up, creating its queue within the limit; None when the limit refuses it. */
  function GetOrCreate(c: Config, s: State, k: Key): Option<State> {
    if k in s.queues then Some(s.(idle := Without(s.idle, k)))
    else if c.maxActive > 0 && |s.queues| >= c.maxActive then None
    else Some(s.(queues := s.queues[k := NEW_QUEUE]))
  }

  function ReadyAdd(s: State, k: Key): State
    requires k in s.queues
  {
    if k in s.ready || k in KeysOf(s.delayed) || s.queues[k].hand.Some? || s.queues[k].tasks == [] then s
    else s.(ready := s.ready + [k])
  }

  function DelayedAdd(s: State, k: Key, next: int): State {
    s.(ready := Omit(s.ready, k),
       idle := Without(s.idle, k),
       delayed := Insert(Without(s.delayed, k), Entry(k, next)))
  }

  function Remove(s: State, k: Key): State {
    s.(queues := s.queues - {k},
       ready := Omit(s.ready, k),
       delayed := Without(s.delayed, k),
       idle := Without(s.idle, k))
  }

  /** The push itself, before the queue is listed. */
  function Append(s: State, k: Key, t: SendTask): State
    requires k in s.queues
  {
    var q := s.queues[k];
    s.(queues := s.queues[k := q.(tasks := q.tasks + [t])], log := s.log + [Pushed(k, t)])
  }

  function DoPush(c: Config, s: State, k: Key, t: SendTask): State {
    match GetOrCreate(c, s, k)
    case None => s
    case Some(s1) =>
      var q := s1.queues[k];
      if q.tasks == [] && q.hand.None? then ReadyAdd(Append(s1, k, t), k) else Append(s1, k, t)
  }

  function DoReserve(c: Config, s: State, k: Key): State {
    match GetOrCreate(c, s, k)
    case None => s
    case Some(s1) => s1
  }

  /** The builder of the queue holds `n` bytes from now on. */
  function SetBuilder(s: State, k: Key, n: nat): State
    requires k in s.queues
  {
    s.(queues := s.queues[k := s.queues[k].(builder := n)])
  }

  /** Adds `n` bytes of logs to the builder of the key. */
  function DoCollect(c: Config, s: State, k: Key, n: nat): State {
    match GetOrCreate(c, s, k)
    case None => s
    case Some(s1) => SetBuilder(s1, k, s1.queues[k].builder + n)
  }

  /** The builder leaves the queue for the sealed list. */
  function DoSeal(s: State, k: Key): State
    requires k in s.queues
  {
    SetBuilder(s, k, 0)
  }

  /** Moves delayed queues to the ready tail until the first one not yet due. */
  function Promote(s: State, now: int): State
    requires Known(s)
    decreases |s.delayed|
  {
    if s.delayed == [] || s.delayed[0].at > now then s
    else
      var k := s.delayed[0].key;
      assert s.delayed[0].key in s.queues by { assert KeysOf(s.delayed)[0] in KeysOf(s.delayed); }
      var s1 := ReadyAdd(s.(delayed := s.delayed[1..]), k);
      assert Known(s1) by { KnownTail(s.queues, s.delayed); }
      Promote(s1, now)
  }

  /** The key at the head of the ready list goes in flight with its first task. */
  function Take(s: State): State
    requires Known(s)
  {
    if s.ready == [] then s
    else
      var k := s.ready[0];
      var q := s.queues[k];
      var q' := if q.tasks == [] then q.(hand := Some(BLANK))
                else q.(tasks := q.tasks[1..], hand := Some(q.tasks[0]));
      s.(ready := s.ready[1..], queues := s.queues[k := q'])
  }

  function DoPick(s: State, now: int): State
    requires Known(s)
  {
    PromoteKnown(s, now);
    Take(Promote(s, now))
  }

  function Picked(s: State, now: int): Option<Key>
    requires Known(s)
  {
    var ready := Promote(s, now).ready;
    if ready == [] then None else Some(ready[0])
  }

  predicate InFlight(s: State, k: Key) {
    k in s.queues && s.queues[k].hand.Some?
  }

  /** The task in hand goes back to the front of its deque. */
  function PutBack(s: State, k: Key): State
    requires InFlight(s, k)
  {
    var q := s.queues[k];
    s.(queues := s.queues[k := q.(tasks := [q.hand.value] + q.tasks, hand := None)])
  }

  function DoRequeue(s: State, k: Key, next: int): State
    requires InFlight(s, k)
  {
    DelayedAdd(PutBack(s, k), k, next)
  }

  function BreakerAfter(c: Config, q: QueueState, ok: bool, now: int): QueueState {
    if c.breakerThreshold <= 0 then q
    else if ok then q.(failures := 0, openUntilMs := 0)
    else
      var q1 := q.(failures := q.failures + 1);
      if q1.failures >= c.breakerThreshold
      then q1.(openUntilMs := now + (if c.breakerOpenMs > 0 then c.breakerOpenMs else 30000))
      else q1
  }

  function DoBreakerResult(c: Config, s: State, k: Key, ok: bool, now: int): State
    requires InFlight(s, k)
  {
    s.(queues := s.queues[k := BreakerAfter(c, s.queues[k], ok, now)])
  }

  /** The task in hand is done with. */
  function Release(s: State, k: Key): State
    requires InFlight(s, k)
  {
    var q := s.queues[k];
    s.(queues := s.queues[k := q.(hand := None)], log := s.log + [Finished(k, q.hand.value)])
  }

  function IdleAdd(s: State, k: Key, now: int): State {
    if k in KeysOf(s.idle) then s else s.(idle := s.idle + [Entry(k, now)])
  }

  function DoFinish(c: Config, s: State, k: Key, now: int): State
    requires InFlight(s, k)
  {
    var q, s1 := s.queues[k], Release(s, k);
    if q.tasks != [] then
      if c.breakerThreshold > 0 && q.openUntilMs > now then DelayedAdd(s1, k, q.openUntilMs)
      else ReadyAdd(s1, k)
    else if c.idleTtlMs > 0 then IdleAdd(s1, k, now)
    else Remove(s1, k)
  }

  predicate Expired(c: Config, e: Entry, now: int) {
    now - e.at >= c.idleTtlMs
  }

  function Kept(c: Config, es: seq<Entry>, now: int): seq<Entry> {
    if es == [] then []
    else if Expired(c, es[0], now) then Kept(c, es[1..], now)
    else [es[0]] + Kept(c, es[1..], now)
  }

  function ExpiredKeys(c: Config, es: seq<Entry>, now: int): set<Key> {
    set e | e in es && Expired(c, e, now) :: e.key
  }

  function DoIdleCleanup(c: Config, s: State, now: int): State {
    if c.idleTtlMs <= 0 then s
    else s.(idle := Kept(c, s.idle, now), queues := s.queues - ExpiredKeys(c, s.idle, now))
  }

  /** The guards under which a step frees a queue whose builder still holds logs. */
  predicate Loses(c: Config, s: State, step: Step) {
    match step
    case Finish(k, _) =>
      k in s.queues && s.queues[k].tasks == [] && c.idleTtlMs <= 0 && s.queues[k].builder > 0
    case IdleCleanup(now) =>
      c.idleTtlMs > 0
      && exists e :: e in s.idle && Expired(c, e, now) && e.key in s.queues && s.queues[e.key].builder > 0
    case _ => false
  }

  /** The bytes in the builder of a key. */
  function BuilderBytes(s: State, k: Key): nat {
    if k in s.queues then s.queues[k].builder else 0
  }

  // ---- invariant ----

  /** Every listed key has a queue. */
  predicate Known(s: State) {
    && (forall k | k in s.ready :: k in s.queues)
    && (forall k | k in KeysOf(s.delayed) :: k in s.queues)
    && (forall k | k in KeysOf(s.idle) :: k in s.queues)
  }

  lemma KnownTail(queues: map<Key, QueueState>, es: seq<Entry>)
    requires es != []
    requires forall k | k in KeysOf(es) :: k in queues
    ensures forall k | k in KeysOf(es[1..]) :: k in queues
  {
    assert KeysOf(es[1..]) == KeysOf(es)[1..];
  }

  lemma PromoteKnown(s: State, now: int)
    requires Known(s)
    ensures Known(Promote(s, now))
    decreases |s.delayed|
  {
    if s.delayed != [] && s.delayed[0].at <= now {
      assert KeysOf(s.delayed)[0] in KeysOf(s.delayed);
      KnownTail(s.queues, s.delayed);
      PromoteKnown(ReadyAdd(s.(delayed := s.delayed[1..]), s.delayed[0].key), now);
    }
  }

  function PushedOf(log: seq<Event>, k: Key): seq<SendTask> {
    if log == [] then []
    else
      var e := log[|log| - 1];
      PushedOf(log[..|log| - 1], k) + (if e.Pushed? && e.key == k then [e.task] else [])
  }

  function FinishedOf(log: seq<Event>, k: Key): seq<SendTask> {
    if log == [] then []
    else
      var e := log[|log| - 1];
      FinishedOf(log[..|log| - 1], k) + (if e.Finished? && e.key == k then [e.task] else [])
  }

  /** What is still to be finished for a key: the task in hand, then the deque. */
  function Pending(s: State, k: Key): seq<SendTask> {
    if k !in s.queues then []
    else (if s.queues[k].hand.Some? then [s.queues[k].hand.value] else []) + s.queues[k].tasks
  }

  predicate Waiting(q: QueueState) {
    q.tasks != [] && q.hand.None?
  }

  /** The lists hold each key once; ready and delayed are disjoint and hold
      waiting queues only, an idle queue is empty and not in flight. */
  predicate Listed(s: State) {
    && Known(s)
    && Distinct(s.ready) && Distinct(KeysOf(s.delayed)) && Distinct(KeysOf(s.idle))
    && (forall k | k in s.ready :: Waiting(s.queues[k]) && k !in KeysOf(s.delayed))
    && (forall k | k in KeysOf(s.delayed) :: Waiting(s.queues[k]))
    && (forall k | k in KeysOf(s.idle) :: s.queues[k].tasks == [] && s.queues[k].hand.None?)
  }

  /** A waiting queue is on exactly one of ready and delayed, a queue in flight
      on no list, an idle queue is empty. */
  predicate Placed(s: State) {
    && Listed(s)
    && (forall k | k in s.queues && Waiting(s.queues[k]) :: k in s.ready || k in KeysOf(s.delayed))
  }

  predicate WithinLimit(c: Config, s: State) {
    c.maxActive > 0 ==> |s.queues| <= c.maxActive
  }

  ghost predicate InOrder(s: State) {
    forall k: Key :: PushedOf(s.log, k) == FinishedOf(s.log, k) + Pending(s, k)
  }

  ghost predicate Inv(c: Config, s: State) {
    Placed(s) && Sorted(s.delayed) && WithinLimit(c, s) && InOrder(s)
  }

  // ---- runs ----

  predicate Enabled(s: State, step: Step) {
    && (step.Requeue? || step.BreakerResult? || step.Finish? ==> InFlight(s, step.key))
    && (step.Seal? ==> step.key in s.queues)
  }

  function Apply(c: Config, s: State, step: Step): State
    requires Known(s) && Enabled(s, step)
  {
    match step
    case Push(k, t) => DoPush(c, s, k, t)
    case Reserve(k) => DoReserve(c, s, k)
    case Collect(k, n) => DoCollect(c, s, k, n)
    case Seal(k) => DoSeal(s, k)
    case Pick(now) => DoPick(s, now)
    case Requeue(k, next) => DoRequeue(s, k, next)
    case BreakerResult(k, ok, now) => DoBreakerResult(c, s, k, ok, now)
    case Finish(k, now) => DoFinish(c, s, k, now)
    case IdleCleanup(now) => DoIdleCleanup(c, s, now)
  }
}
