/** What each critical section of the key-queue scheduler does, read off the
    states before and after it: which list a key is on, at which place and with
    which time, what its queue holds, and that nothing else changes. */
module SchedulerSteps {
  import opened Basics
  import opened SchedulerSpec
  import opened SchedulerLaws

  /** The list without the entry of the key, the others in their order. */
  predicate DropsKey(es: seq<Entry>, es': seq<Entry>, k: Key) {
    if exists i :: 0 <= i < |es| && es[i].key == k
    then exists i :: 0 <= i < |es| && es[i].key == k && es' == es[..i] + es[i + 1..]
    else es' == es
  }

  lemma WithoutDrops(es: seq<Entry>, k: Key)
    requires Distinct(KeysOf(es))
    ensures DropsKey(es, Without(es, k), k)
  {
    if i :| 0 <= i < |es| && es[i].key == k {
      WithoutAt(es, i);
    } else {
      assert forall i :: 0 <= i < |es| ==> KeysOf(es)[i] == es[i].key;
      WithoutAbsent(es, k);
    }
  }

  /** The limit lets the key have a queue. */
  predicate Admitted(c: Config, s: State, k: Key) {
    k in s.queues || c.maxActive <= 0 || |s.queues| < c.maxActive
  }

  /** The queue of the key, zeroed when there is none yet. */
  function QueueOf(s: State, k: Key): QueueState {
    if k in s.queues then s.queues[k] else QueueState([], None, 0, 0, 0)
  }

  // ---- push, reserve, collect, seal ----

  /** A refused push changes nothing. A push that is let in puts the task behind
      those of its key; the key goes to the end of the ready list exactly when
      its queue was empty with no task in hand, and off the idle list. */
  lemma PushLaw(c: Config, s: State, k: Key, t: SendTask)
    requires Inv(c, s)
    ensures var s1, q := Apply(c, s, Push(k, t)), QueueOf(s, k);
            if Admitted(c, s, k) then
              && s1.queues == s.queues[k := q.(tasks := q.tasks + [t])]
              && s1.ready == s.ready + (if q.tasks == [] && q.hand == None then [k] else [])
              && s1.delayed == s.delayed
              && DropsKey(s.idle, s1.idle, k)
              && s1.log == s.log + [Pushed(k, t)]
            else s1 == s
  {
    hide KeysOf, Without, DropsKey, InOrder;
    WithoutDrops(s.idle, k);
    NewIsUnlisted(s, k);
  }

  lemma NewIsUnlisted(s: State, k: Key)
    requires Placed(s)
    ensures k !in s.queues ==> k !in s.ready && k !in KeysOf(s.delayed) && DropsKey(s.idle, s.idle, k)
    ensures k in s.queues && s.queues[k].tasks == [] ==> k !in s.ready && k !in KeysOf(s.delayed)
  {
    if k !in s.queues {
      forall i | 0 <= i < |s.idle| ensures s.idle[i].key != k {
        assert KeysOf(s.idle)[i] in KeysOf(s.idle);
      }
    }
  }

  /** Looking a key up takes it off the idle list; a new queue is zeroed and on no list. */
  lemma ReserveLaw(c: Config, s: State, k: Key)
    requires Inv(c, s)
    ensures var s1 := Apply(c, s, Reserve(k));
            if Admitted(c, s, k) then
              && s1 == s.(queues := s.queues[k := QueueOf(s, k)], idle := s1.idle)
              && DropsKey(s.idle, s1.idle, k)
            else s1 == s
  {
    hide KeysOf, Without, DropsKey, InOrder;
    WithoutDrops(s.idle, k);
    NewIsUnlisted(s, k);
    assert k in s.queues ==> s.queues[k := s.queues[k]] == s.queues;
  }

  /** A log of `n` bytes is added to the builder of its key. */
  lemma CollectLaw(c: Config, s: State, k: Key, n: nat)
    requires Inv(c, s)
    ensures var s1, q := Apply(c, s, Collect(k, n)), QueueOf(s, k);
            if Admitted(c, s, k) then
              && s1 == s.(queues := s.queues[k := q.(builder := q.builder + n)], idle := s1.idle)
              && DropsKey(s.idle, s1.idle, k)
            else s1 == s
  {
    hide KeysOf, Without, DropsKey, InOrder;
    WithoutDrops(s.idle, k);
    NewIsUnlisted(s, k);
  }

  // ---- pick ----

  /** The head of the line goes in flight with the first task of its queue, and
      the rest of the line stays ready. */
  predicate TakesHead(line: seq<Key>, s: State, s1: State) {
    if line == [] then s1.ready == [] && s1.queues == s.queues
    else if line[0] !in s.queues then false
    else
      var q := s.queues[line[0]];
      && q.hand == None && q.tasks != []
      && s1.queues == s.queues[line[0] := q.(tasks := q.tasks[1..], hand := Some(q.tasks[0]))]
      && s1.ready == line[1..]
  }

  lemma TakeTakesHead(s: State)
    requires Placed(s)
    ensures TakesHead(s.ready, s, Take(s))
    ensures Take(s) == s.(ready := Take(s).ready, queues := Take(s).queues)
  {
    hide KeysOf;
    assert s.ready != [] ==> s.ready[0] in s.ready;
  }

  /** With `n` delayed keys due, which are those at the front, the line is the
      ready list and then these. A pick takes the head of the line, and no entry
      due by now stays delayed. */
  lemma PickLaw(c: Config, s: State, now: int) returns (n: nat)
    requires Inv(c, s)
    ensures n <= |s.delayed|
    ensures forall j :: 0 <= j < |s.delayed| ==> (s.delayed[j].at <= now <==> j < n)
    ensures var s1, line := Apply(c, s, Pick(now)), s.ready + KeysOf(s.delayed[..n]);
            && TakesHead(line, s, s1)
            && s1.delayed == s.delayed[n..] && s1.idle == s.idle && s1.log == s.log
            && (forall e | e in s1.delayed :: e.at > now)
            && Picked(s, now) == (if line == [] then None else Some(line[0]))
  {
    hide Inv, Placed, Listed, Promote, KeysOf, Take, TakesHead;
    InvPlaced(c, s);
    n := PromoteExact(s, now);
    PromotePlaced(s, now);
    var p := Promote(s, now);
    TakeTakesHead(p);
    TakesHeadSame(p.ready, p, s, Take(p));
  }

  lemma TakesHeadSame(line: seq<Key>, s: State, s': State, s1: State)
    requires TakesHead(line, s, s1) && s.queues == s'.queues
    ensures TakesHead(line, s', s1)
  {
  }

  // ---- requeue ----

  /** The task goes back in front of its queue, and the key is delayed until
      exactly `next`: behind every entry due no later, before all the others. */
  lemma RequeueLaw(c: Config, s: State, k: Key, next: int) returns (p: nat)
    requires Inv(c, s) && InFlight(s, k)
    ensures p <= |s.delayed|
    ensures forall j :: 0 <= j < p ==> s.delayed[j].at <= next
    ensures forall j :: p <= j < |s.delayed| ==> s.delayed[j].at > next
    ensures var s1, q := Apply(c, s, Requeue(k, next)), s.queues[k];
            && s1.queues == s.queues[k := q.(tasks := [q.hand.value] + q.tasks, hand := None)]
            && s1.delayed == s.delayed[..p] + [Entry(k, next)] + s.delayed[p..]
            && s1.ready == s.ready && s1.idle == s.idle && s1.log == s.log
            && k !in s1.ready && Entry(k, next) in s1.delayed
  {
    hide Inv, InOrder, Placed, Listed, KeysOf, Insert;
    InvPlaced(c, s);
    PutBackPlaced(s, k);
    DelayedAddPlaced(PutBack(s, k), k, next);
    PutBackUnlisted(s, k);
    p := InsertPosition(s.delayed, Entry(k, next));
  }

  lemma PutBackUnlisted(s: State, k: Key)
    requires Placed(s) && InFlight(s, k)
    ensures k !in s.ready && k !in KeysOf(s.delayed) && k !in KeysOf(s.idle)
    ensures Waiting(PutBack(s, k).queues[k])
  {
  }

  // ---- breaker ----

  /** What the breaker of a queue is after a send. */
  predicate BreakerTold(c: Config, q: QueueState, q1: QueueState, ok: bool, now: int) {
    && q1 == q.(failures := q1.failures, openUntilMs := q1.openUntilMs)
    && (c.breakerThreshold <= 0 ==> q1 == q)
    && (c.breakerThreshold > 0 && ok ==> q1.failures == 0 && q1.openUntilMs == 0)
    && (c.breakerThreshold > 0 && !ok ==>
          && q1.failures == q.failures + 1
          && (q1.failures < c.breakerThreshold ==> q1.openUntilMs == q.openUntilMs)
          && (q1.failures >= c.breakerThreshold ==>
                q1.openUntilMs == now + (if c.breakerOpenMs > 0 then c.breakerOpenMs else 30000)))
  }

  /** With a threshold, a success clears the breaker; a failure is counted, and
      from the threshold on every failure opens the breaker for the time set,
      which is 30 s when none is. Nothing else changes. */
  lemma BreakerLaw(c: Config, s: State, k: Key, ok: bool, now: int)
    requires Inv(c, s) && InFlight(s, k)
    ensures var s1 := Apply(c, s, BreakerResult(k, ok, now));
            && k in s1.queues && BreakerTold(c, s.queues[k], s1.queues[k], ok, now)
            && s1 == s.(queues := s.queues[k := s1.queues[k]])
  {
    hide Inv;
    InvKnown(c, s);
  }

  // ---- finish ----

  /** The queue has tasks left and its breaker is open. */
  predicate Held(c: Config, s: State, k: Key, now: int)
    requires k in s.queues
  {
    s.queues[k].tasks != [] && c.breakerThreshold > 0 && s.queues[k].openUntilMs > now
  }

  /** The finished task is logged and leaves the hand. With tasks left and the
      breaker open the key is delayed until the breaker closes, and is not
      ready; with tasks left otherwise it goes to the end of the ready list. An
      empty queue becomes idle from now on, or is freed when no time to live is set. */
  lemma FinishLaw(c: Config, s: State, k: Key, now: int) returns (p: nat)
    requires Inv(c, s) && InFlight(s, k)
    ensures p <= |s.delayed|
    ensures var s1, q := Apply(c, s, Finish(k, now)), s.queues[k];
            var left := s.queues[k := q.(hand := None)];
            && s1.log == s.log + [Finished(k, q.hand.value)]
            && (Held(c, s, k, now) ==>
                  && s1.queues == left && s1.ready == s.ready && s1.idle == s.idle
                  && Entry(k, q.openUntilMs) in s1.delayed && k !in s1.ready
                  && s1.delayed == s.delayed[..p] + [Entry(k, q.openUntilMs)] + s.delayed[p..]
                  && (forall j :: 0 <= j < p ==> s.delayed[j].at <= q.openUntilMs)
                  && (forall j :: p <= j < |s.delayed| ==> s.delayed[j].at > q.openUntilMs))
            && (q.tasks != [] && !Held(c, s, k, now) ==>
                  && s1.queues == left && s1.ready == s.ready + [k]
                  && s1.delayed == s.delayed && s1.idle == s.idle)
            && (q.tasks == [] && c.idleTtlMs > 0 ==>
                  && s1.queues == left && s1.idle == s.idle + [Entry(k, now)]
                  && s1.ready == s.ready && s1.delayed == s.delayed)
            && (q.tasks == [] && c.idleTtlMs <= 0 ==>
                  && s1.queues == s.queues - {k}
                  && s1.ready == s.ready && s1.delayed == s.delayed && s1.idle == s.idle)
  {
    hide Inv, InOrder, Placed, Listed, KeysOf, Insert, Without, Omit;
    InvPlaced(c, s);
    PutBackUnlisted(s, k);
    ReleasePlaced(s, k);
    p := 0;
    var s1 := Release(s, k);
    if Held(c, s, k, now) {
      DelayedAddPlaced(s1, k, s.queues[k].openUntilMs);
      p := InsertPosition(s.delayed, Entry(k, s.queues[k].openUntilMs));
    } else if s.queues[k].tasks == [] && c.idleTtlMs <= 0 {
      RemovePlaced(s1, k);
      assert s.queues[k := s.queues[k].(hand := None)] - {k} == s.queues - {k};
    }
  }

  // ---- idle cleanup ----

  /** Where the entries that stay come from: `at` lists their places in order. */
  predicate Picks<T(==)>(from: seq<T>, at: seq<nat>, result: seq<T>) {
    && |at| == |result|
    && (forall i :: 0 <= i < |at| ==> at[i] < |from| && result[i] == from[at[i]])
    && (forall i, j :: 0 <= i < j < |at| ==> at[i] < at[j])
  }

  lemma PicksTail<T>(from: seq<T>, rest: seq<nat>, later: seq<nat>, result: seq<T>)
    requires from != [] && Picks(from[1..], rest, result)
    requires |later| == |rest| && forall i :: 0 <= i < |rest| ==> later[i] == rest[i] + 1
    ensures Picks(from, later, result) && Picks(from, [0] + later, [from[0]] + result)
  {
  }

  lemma {:induction false} KeptPlaces(c: Config, es: seq<Entry>, now: int) returns (at: seq<nat>)
    ensures Picks(es, at, Kept(c, es, now))
    ensures forall e :: e in Kept(c, es, now) <==> e in es && now - e.at < c.idleTtlMs
  {
    at := [];
    if es != [] {
      var rest := KeptPlaces(c, es[1..], now);
      var later := seq(|rest|, i requires 0 <= i < |rest| => rest[i] + 1);
      at := if Expired(c, es[0], now) then later else [0] + later;
      PicksTail(es, rest, later, Kept(c, es[1..], now));
      assert forall e :: e in es <==> e == es[0] || e in es[1..];
    }
  }

  /** With a time to live, the queues idle for that long or longer are freed, and
      the other idle entries keep their times and their order. */
  lemma CleanupLaw(c: Config, s: State, now: int) returns (at: seq<nat>)
    requires Inv(c, s)
    ensures var s1 := Apply(c, s, IdleCleanup(now));
            && (c.idleTtlMs <= 0 ==> s1 == s)
            && s1.ready == s.ready && s1.delayed == s.delayed && s1.log == s.log
            && (c.idleTtlMs > 0 ==>
                  && Picks(s.idle, at, s1.idle)
                  && (forall e :: e in s1.idle <==> e in s.idle && now - e.at < c.idleTtlMs)
                  && (forall k :: k in s1.queues <==>
                        k in s.queues && !exists e :: e in s.idle && e.key == k && now - e.at >= c.idleTtlMs)
                  && (forall k :: k in s1.queues ==> s1.queues[k] == s.queues[k]))
  {
    InvKnown(c, s);
    hide Inv, Kept, Known;
    at := KeptPlaces(c, s.idle, now);
  }
}
