/** The scheduler and the byte budget together: the builders of key queues belong
    to both. What the scheduler holds for a key is what the budget counts for it,
    and bytes are lost exactly when a key is freed while its builder holds some. */
module KeyBuilders {
  import opened Basics
  import S = SchedulerSpec
  import L = SchedulerLaws
  import B = BudgetSpec

  datatype Setup = Setup(config: S.Config, limits: B.Limits)

  datatype Joint = Joint(s: S.State, l: B.Live)

  const START := Joint(S.INITIAL, B.NOTHING_LIVE)

  /** The critical sections that move bytes into or out of the builder of a key,
      and those that concern one side only. */
  datatype Step =
    | Admit(key: Key, n: nat)
    | MergeBatch(key: Key, i: nat)
    | MergeIngress(key: Key, i: nat)
    | Seal(key: Key)
    | Schedule(step: S.Step)
    | Account(account: B.Step)

  /** The step works on the builder of a key queue. */
  predicate OnKeyBuilder(step: B.Step) {
    match step
    case AdmitKv(_, into) => into.KeyBuilder?
    case MergeBatch(_, into) => into.KeyBuilder?
    case MergeIngress(_, into) => into.KeyBuilder?
    case Seal(b) => b.KeyBuilder?
    case FreeKeys(_) => true
    case _ => false
  }

  ghost predicate Enabled(y: Setup, j: Joint, step: Step) {
    match step
    case Admit(k, n) => B.Enabled(y.limits, j.l, B.AdmitKv(n, B.KeyBuilder(k)))
    case MergeBatch(_, i) => i < |j.l.batches|
    case MergeIngress(_, i) => i < |j.l.ingress|
    case Seal(k) => k in j.s.queues && B.KeyBuilder(k) in j.l.open
    case Schedule(st) => S.Known(j.s) && S.Enabled(j.s, st) && !st.Collect? && !st.Seal?
    case Account(st) => B.Enabled(y.limits, j.l, st) && !OnKeyBuilder(st)
  }

  /** What the scheduler does in a step. */
  function Scheduled(j: Joint, step: Step): Option<S.Step> {
    match step
    case Admit(k, n) => Some(S.Collect(k, n))
    case MergeBatch(k, i) => Some(S.Collect(k, if i < |j.l.batches| then j.l.batches[i] else 0))
    case MergeIngress(k, i) => Some(S.Collect(k, if i < |j.l.ingress| then j.l.ingress[i] else 0))
    case Seal(k) => Some(S.Seal(k))
    case Schedule(st) => Some(st)
    case Account(_) => None
  }

  /** What is done to the budget in a step that takes the scheduler to `s'`. A key
      that the limit refuses takes no bytes: a log is not admitted, a batch of a
      thread stays with it, and a batch from the ingress queue is dropped. */
  function Accounted(y: Setup, j: Joint, step: Step, s': S.State): Option<B.Step> {
    match step
    case Admit(k, n) => if S.GetOrCreate(y.config, j.s, k).Some? then Some(B.AdmitKv(n, B.KeyBuilder(k))) else None
    case MergeBatch(k, i) =>
      if S.GetOrCreate(y.config, j.s, k).Some? then Some(B.MergeBatch(i, B.KeyBuilder(k))) else None
    case MergeIngress(k, i) =>
      Some(if S.GetOrCreate(y.config, j.s, k).Some? then B.MergeIngress(i, B.KeyBuilder(k)) else B.DropIngress(i))
    case Seal(k) => Some(B.Seal(B.KeyBuilder(k)))
    case Schedule(_) => Some(B.FreeKeys(j.s.queues.Keys - s'.queues.Keys))
    case Account(st) => Some(st)
  }

  function NextState(y: Setup, j: Joint, step: Step): S.State
    requires Scheduled(j, step).Some? ==> S.Known(j.s) && S.Enabled(j.s, Scheduled(j, step).value)
  {
    if Scheduled(j, step).None? then j.s else S.Apply(y.config, j.s, Scheduled(j, step).value)
  }

  ghost predicate Next(y: Setup, j: Joint, step: Step, j': Joint) {
    && S.Known(j.s) && Enabled(y, j, step)
    && j'.s == NextState(y, j, step)
    && match Accounted(y, j, step, j'.s)
       case None => j'.l == j.l
       case Some(st) => B.Owned(j.l, st) && j'.l == B.Apply(j.l, st)
  }

  // ---- invariant ----

  /** Both sides agree on what the builder of each key holds. */
  ghost predicate Agree(j: Joint) {
    forall k: Key :: B.BytesOf(j.l.open, B.KeyBuilder(k)) == S.BuilderBytes(j.s, k)
  }

  ghost predicate Inv(y: Setup, j: Joint) {
    S.Inv(y.config, j.s) && B.WithinBudget(y.limits, j.l) && Agree(j)
  }

  lemma StartInv(y: Setup)
    requires B.Sensible(y.limits)
    ensures Inv(y, START)
  {
    L.InitialInv(y.config);
    B.NothingCounted(y.limits);
  }

  lemma StateInv(y: Setup, j: Joint, step: Step, j': Joint)
    requires S.Inv(y.config, j.s) && Next(y, j, step, j')
    ensures S.Inv(y.config, j'.s)
  {
    hide S.Inv, S.Apply;
    match Scheduled(j, step)
    case None =>
    case Some(st) => L.ApplyInv(y.config, j.s, st);
  }

  lemma BudgetInv(y: Setup, j: Joint, step: Step, j': Joint)
    requires B.Sensible(y.limits) && B.WithinBudget(y.limits, j.l) && Next(y, j, step, j')
    ensures B.WithinBudget(y.limits, j'.l)
  {
    hide B.WithinBudget, B.Apply, B.Room, S.Apply;
    match Accounted(y, j, step, j'.s)
    case None =>
    case Some(st) => B.ApplyWithinBudget(y.limits, j.l, st);
  }

  lemma {:induction false} Agrees(y: Setup, j: Joint, step: Step, j': Joint)
    requires S.Inv(y.config, j.s) && Agree(j) && Next(y, j, step, j')
    ensures Agree(j')
  {
    forall k ensures B.BytesOf(j'.l.open, B.KeyBuilder(k)) == S.BuilderBytes(j'.s, k) {
      AgreesOn(y, j, step, j', k);
    }
  }

  lemma {:induction false} AgreesOn(y: Setup, j: Joint, step: Step, j': Joint, k: Key)
    requires S.Inv(y.config, j.s) && Agree(j) && Next(y, j, step, j')
    ensures B.BytesOf(j'.l.open, B.KeyBuilder(k)) == S.BuilderBytes(j'.s, k)
  {
    hide S.Inv, S.Apply, S.GetOrCreate, B.Enabled, B.Apply;
    assert B.BytesOf(j.l.open, B.KeyBuilder(k)) == S.BuilderBytes(j.s, k);
    if Accounted(y, j, step, j'.s).Some? {
      BytesAfter(j.l, Accounted(y, j, step, j'.s).value, k);
    }
    if Scheduled(j, step).Some? {
      L.BuilderKept(y.config, j.s, Scheduled(j, step).value, k);
      L.LosesExactly(y.config, j.s, Scheduled(j, step).value);
    }
  }

  /** What an account step leaves in the builder of a key. */
  lemma BytesAfter(l: B.Live, st: B.Step, k: Key)
    requires B.Owned(l, st)
    ensures var was, b, now := B.BytesOf(l.open, B.KeyBuilder(k)), B.KeyBuilder(k),
                               B.BytesOf(B.Apply(l, st).open, B.KeyBuilder(k));
            && (!OnKeyBuilder(st) ==> now == was)
            && (st.AdmitKv? && st.into.KeyBuilder? ==> now == was + if st.into == b then st.n else 0)
            && (st.MergeBatch? && st.into.KeyBuilder? ==> now == was + if st.into == b then l.batches[st.i] else 0)
            && (st.MergeIngress? && st.into.KeyBuilder? ==> now == was + if st.into == b then l.ingress[st.i] else 0)
            && (st.Seal? ==> now == if st.b == b then 0 else was)
            && (st.FreeKeys? ==> now == if k in st.keys then 0 else was)
  {
  }

  lemma {:induction false} NextInv(y: Setup, j: Joint, step: Step, j': Joint)
    requires B.Sensible(y.limits) && Inv(y, j) && Next(y, j, step, j')
    ensures Inv(y, j')
  {
    hide S.Inv, B.WithinBudget, Agree, Next;
    StateInv(y, j, step, j');
    BudgetInv(y, j, step, j');
    Agrees(y, j, step, j');
  }

  // ---- what a step loses ----

  /** The guard of the branch that loses bytes. */
  predicate Loses(y: Setup, j: Joint, step: Step) {
    step.Schedule? && S.Loses(y.config, j.s, step.step)
  }

  /** A step loses bytes exactly under that guard. */
  lemma StepLoses(y: Setup, j: Joint, step: Step, j': Joint)
    requires Inv(y, j) && Next(y, j, step, j')
    ensures j'.l.lost >= j.l.lost
    ensures j'.l.lost > j.l.lost <==> Loses(y, j, step)
  {
    hide S.Inv, B.WithinBudget, S.Apply, S.GetOrCreate, S.Loses, B.Room;
    if step.Schedule? {
      L.LosesExactly(y.config, j.s, step.step);
      B.HeldPositive(j.l.open, j.s.queues.Keys - j'.s.queues.Keys);
      assert forall k :: k in j.s.queues ==> B.BytesOf(j.l.open, B.KeyBuilder(k)) == j.s.queues[k].builder by {
        assert forall k :: B.BytesOf(j.l.open, B.KeyBuilder(k)) == S.BuilderBytes(j.s, k);
      }
    }
  }

  /** A finish that frees the key loses just what its builder holds. */
  lemma FinishLoses(y: Setup, j: Joint, k: Key, now: int, j': Joint)
    requires Inv(y, j) && Next(y, j, Schedule(S.Finish(k, now)), j')
    ensures j'.l.lost == j.l.lost +
              if j.s.queues[k].tasks == [] && y.config.idleTtlMs <= 0 then j.s.queues[k].builder else 0
  {
    L.FinishFrees(y.config, j.s, k, now);
    hide S.Inv, B.WithinBudget, S.DoFinish, B.Room;
    var freed := j.s.queues.Keys - j'.s.queues.Keys;
    assert B.BytesOf(j.l.open, B.KeyBuilder(k)) == S.BuilderBytes(j.s, k);
    if j.s.queues[k].tasks == [] && y.config.idleTtlMs <= 0 {
      assert freed == {k};
      B.HeldTake(j.l.open, freed, k);
      assert freed - {k} == {};
      B.HeldNothing(j.l.open - {B.KeyBuilder(k)});
    } else {
      assert freed == {};
      B.HeldNothing(j.l.open);
    }
  }

  // ---- every run ----

  ghost predicate StepAt(y: Setup, trace: seq<Joint>, steps: seq<Step>, i: nat)
    requires |trace| == |steps| + 1 && i < |steps|
  {
    Next(y, trace[i], steps[i], trace[i + 1])
  }

  ghost predicate IsRun(y: Setup, trace: seq<Joint>, steps: seq<Step>) {
    && |trace| == |steps| + 1
    && trace[0] == START
    && forall i :: 0 <= i < |steps| ==> StepAt(y, trace, steps, i)
  }

  /** In every run the scheduler keeps its invariant, the budget its bound, and
      the two agree on every builder. */
  lemma {:induction false} InvInEveryRun(y: Setup, trace: seq<Joint>, steps: seq<Step>, n: nat)
    requires B.Sensible(y.limits) && IsRun(y, trace, steps) && n < |trace|
    ensures Inv(y, trace[n])
  {
    hide Inv, Next;
    if n == 0 {
      StartInv(y);
    } else {
      InvInEveryRun(y, trace, steps, n - 1);
      assert StepAt(y, trace, steps, n - 1);
      NextInv(y, trace[n - 1], steps[n - 1], trace[n]);
    }
  }

  lemma {:induction false} LostSoFar(y: Setup, trace: seq<Joint>, steps: seq<Step>, n: nat)
    requires B.Sensible(y.limits) && IsRun(y, trace, steps) && n < |trace|
    ensures trace[n].l.lost == 0 <==> forall i :: 0 <= i < n ==> !Loses(y, trace[i], steps[i])
  {
    hide Inv, Next, Loses;
    if n > 0 {
      LostSoFar(y, trace, steps, n - 1);
      assert StepAt(y, trace, steps, n - 1);
      InvInEveryRun(y, trace, steps, n - 1);
      StepLoses(y, trace[n - 1], steps[n - 1], trace[n]);
    }
  }

  /** In every run `queue_bytes` counts exactly what is live in its stage if and only
      if no key was freed so far under the losing guard: finished with an empty
      deque, no time to live and logs in its builder, or idle for its time to live
      with logs in its builder. */
  lemma NothingLostExactly(y: Setup, trace: seq<Joint>, steps: seq<Step>, n: nat)
    requires B.Sensible(y.limits) && IsRun(y, trace, steps) && n < |trace|
    ensures B.QueueBytes(trace[n].l) == B.QueueSide(trace[n].l) <==>
              forall i :: 0 <= i < n ==> !Loses(y, trace[i], steps[i])
    ensures trace[n].l.lost == 0 <==>
              forall i :: 0 <= i < n ==> FreesEmpty(trace[i].s, trace[i + 1].s)
  {
    hide Loses, Inv, Next, FreesEmpty;
    LostSoFar(y, trace, steps, n);
    forall i | 0 <= i < n ensures FreesEmpty(trace[i].s, trace[i + 1].s) == !Loses(y, trace[i], steps[i]) {
      assert StepAt(y, trace, steps, i);
      InvInEveryRun(y, trace, steps, i);
      FreesEmptyExactly(y, trace[i], steps[i], trace[i + 1]);
    }
    if j :| 0 <= j < n && Loses(y, trace[j], steps[j]) {
      assert !FreesEmpty(trace[j].s, trace[j + 1].s);
    }
  }

  /** Every key that is gone in `s'` had an empty builder in `s`. */
  predicate FreesEmpty(s: S.State, s': S.State) {
    forall k | k in s.queues && k !in s'.queues :: s.queues[k].builder == 0
  }

  lemma FreesEmptyExactly(y: Setup, j: Joint, step: Step, j': Joint)
    requires Inv(y, j) && Next(y, j, step, j')
    ensures FreesEmpty(j.s, j'.s) <==> !Loses(y, j, step)
  {
    hide S.Inv, B.WithinBudget, S.Apply, S.GetOrCreate, B.Room, B.Apply;
    if Scheduled(j, step).Some? {
      L.LosesExactly(y.config, j.s, Scheduled(j, step).value);
    }
  }

  // ---- a run that loses a log ----

  /** A queue that waits on the ready list with one task; then that task in a
      sender's hand, and `n` bytes in the builder. */
  function Waits(k: Key, t: S.SendTask): S.State {
    S.State(map[k := S.QueueState([t], None, 0, 0, 0)], [k], [], [], [S.Pushed(k, t)])
  }

  function Held(k: Key, t: S.SendTask, n: nat): S.State {
    S.State(map[k := S.QueueState([], Some(t), 0, 0, n)], [], [], [], [S.Pushed(k, t)])
  }

  function Emptied(k: Key, t: S.SendTask): S.State {
    S.State(map[], [], [], [], [S.Pushed(k, t), S.Finished(k, t)])
  }

  function Filled(k: Key, n: nat): B.Live {
    B.NOTHING_LIVE.(open := map[B.KeyBuilder(k) := n])
  }

  lemma PushWaits(c: S.Config, k: Key, t: S.SendTask)
    ensures S.DoPush(c, S.INITIAL, k, t) == Waits(k, t)
  {
    var s1 := S.INITIAL.(queues := map[k := S.NEW_QUEUE]);
    assert S.GetOrCreate(c, S.INITIAL, k) == Some(s1);
    assert [] + [t] == [t];
    assert S.Append(s1, k, t).queues == map[k := S.QueueState([t], None, 0, 0, 0)];
  }

  lemma PickHolds(k: Key, t: S.SendTask)
    ensures S.Known(Waits(k, t)) && S.DoPick(Waits(k, t), 0) == Held(k, t, 0)
  {
    assert S.Promote(Waits(k, t), 0) == Waits(k, t);
    assert [t][1..] == [] && [k][1..] == [];
    assert Waits(k, t).queues[k := S.QueueState([], Some(t), 0, 0, 0)] == Held(k, t, 0).queues;
  }

  lemma CollectFills(c: S.Config, k: Key, t: S.SendTask, n: nat)
    ensures S.GetOrCreate(c, Held(k, t, 0), k).Some? && S.DoCollect(c, Held(k, t, 0), k, n) == Held(k, t, n)
  {
    assert Held(k, t, 0).queues[k := S.QueueState([], Some(t), 0, 0, n)] == Held(k, t, n).queues;
  }

  lemma FinishEmpties(c: S.Config, k: Key, t: S.SendTask, n: nat)
    requires c.idleTtlMs <= 0
    ensures S.DoFinish(c, Held(k, t, n), k, 0) == Emptied(k, t)
    ensures Held(k, t, n).queues.Keys - Emptied(k, t).queues.Keys == {k}
  {
    assert Held(k, t, n).queues.Keys == {k};
    assert S.Release(Held(k, t, n), k).queues - {k} == map[];
  }

  lemma Fills(k: Key, n: nat)
    ensures B.Apply(B.NOTHING_LIVE, B.AdmitKv(n, B.KeyBuilder(k))) == Filled(k, n)
  {
  }

  lemma TaskInHand(y: Setup, k: Key, t: S.SendTask)
    ensures Next(y, START, Schedule(S.Push(k, t)), Joint(Waits(k, t), B.NOTHING_LIVE))
    ensures Next(y, Joint(Waits(k, t), B.NOTHING_LIVE), Schedule(S.Pick(0)), Joint(Held(k, t, 0), B.NOTHING_LIVE))
  {
    hide S.DoPush, S.DoPick, B.Apply;
    PushWaits(y.config, k, t);
    PickHolds(k, t);
    FreesNone(B.NOTHING_LIVE);
    assert S.INITIAL.queues.Keys - Waits(k, t).queues.Keys == {};
    assert Waits(k, t).queues.Keys - Held(k, t, 0).queues.Keys == {};
  }

  lemma LogLost(y: Setup, k: Key, t: S.SendTask, n: nat)
    requires y.config.idleTtlMs <= 0 && B.Room(y.limits, B.NOTHING_LIVE, n, false)
    ensures Next(y, Joint(Held(k, t, 0), B.NOTHING_LIVE), Admit(k, n), Joint(Held(k, t, n), Filled(k, n)))
    ensures Next(y, Joint(Held(k, t, n), Filled(k, n)), Schedule(S.Finish(k, 0)),
                 Joint(Emptied(k, t), B.NOTHING_LIVE.(lost := n)))
  {
    hide S.DoCollect, S.DoFinish, S.GetOrCreate, B.Room, B.Apply;
    CollectFills(y.config, k, t, n);
    Fills(k, n);
    FinishEmpties(y.config, k, t, n);
    FreesOne(k, n);
  }

  /** Without a time to live: a log is admitted while the last task of its key is in
      flight; finishing that task frees the key, and the log with it. Nothing is
      live any more, and the bytes of the log stay counted. */
  lemma FinishLosesLog(y: Setup, k: Key, t: S.SendTask, n: nat) returns (trace: seq<Joint>, steps: seq<Step>)
    requires y.config.idleTtlMs <= 0 && B.Room(y.limits, B.NOTHING_LIVE, n, false)
    ensures steps == [Schedule(S.Push(k, t)), Schedule(S.Pick(0)), Admit(k, n), Schedule(S.Finish(k, 0))]
    ensures IsRun(y, trace, steps)
    ensures trace[4].s.queues == map[] && trace[4].l == B.NOTHING_LIVE.(lost := n)
    ensures B.QueueBytes(trace[4].l) == n && B.QueueSide(trace[4].l) == 0
  {
    hide Next, Waits, Held, Filled;
    TaskInHand(y, k, t);
    LogLost(y, k, t, n);
    steps := [Schedule(S.Push(k, t)), Schedule(S.Pick(0)), Admit(k, n), Schedule(S.Finish(k, 0))];
    trace := [START, Joint(Waits(k, t), B.NOTHING_LIVE), Joint(Held(k, t, 0), B.NOTHING_LIVE),
              Joint(Held(k, t, n), Filled(k, n)), Joint(Emptied(k, t), B.NOTHING_LIVE.(lost := n))];
  }

  lemma FreesNone(l: B.Live)
    ensures B.Apply(l, B.FreeKeys({})) == l
  {
    B.HeldNothing(l.open);
    assert l.open - B.BuildersOf({}) == l.open;
  }

  lemma FreesOne(k: Key, n: nat)
    ensures B.Apply(Filled(k, n), B.FreeKeys({k})) == B.NOTHING_LIVE.(lost := n)
  {
    var open := map[B.KeyBuilder(k) := n];
    B.HeldTake(open, {k}, k);
    B.HeldNothing(open - {B.KeyBuilder(k)});
    assert {k} - {k} == {};
    assert open - B.BuildersOf({k}) == map[];
  }
}
