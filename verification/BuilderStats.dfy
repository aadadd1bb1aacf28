/** What a builder records about its logs, and why merging batches records the
    same as adding the logs one by one. */
module BuilderStats {
  import opened Basics

  /** A log as a builder is told of it; the time is not yet normalised. */
  datatype Arrival = Arrival(id: int, timeMs: int, timeNs: nat, hasTimeNs: bool)

  datatype Stats = Stats(
    logCount: nat,
    earliest: int,
    latest: int,
    startId: int,
    endId: int,
    lastTimeMs: int,
    lastTimeNs: nat,
    lastHasTimeNs: bool)

  const FRESH := Stats(0, 0, 0, 0, 0, 0, 0, false)

  /** A time that is not positive counts as none, without nanoseconds. */
  function Normalised(a: Arrival): Arrival {
    if a.timeMs <= 0 then a.(timeMs := 0, timeNs := 0, hasTimeNs := false) else a
  }

  /** One log is added. */
  function Add(s: Stats, a: Arrival): Stats {
    var n := Normalised(a);
    Stats(
      s.logCount + 1,
      if n.timeMs > 0 && (s.earliest == 0 || n.timeMs < s.earliest) then n.timeMs else s.earliest,
      if n.timeMs > 0 && (s.latest == 0 || n.timeMs > s.latest) then n.timeMs else s.latest,
      if s.startId == 0 then n.id else s.startId,
      n.id,
      n.timeMs, n.timeNs, n.hasTimeNs)
  }

  /** A batch with its own record is appended. */
  function Append(s: Stats, b: Stats): Stats {
    Stats(
      s.logCount + b.logCount,
      if b.earliest > 0 && (s.earliest == 0 || b.earliest < s.earliest) then b.earliest else s.earliest,
      if b.latest > 0 && b.latest > s.latest then b.latest else s.latest,
      if s.startId == 0 || b.startId < s.startId then b.startId else s.startId,
      if b.endId > s.endId then b.endId else s.endId,
      b.lastTimeMs, b.lastTimeNs, b.lastHasTimeNs)
  }

  function OneByOne(arrivals: seq<Arrival>): Stats {
    if arrivals == [] then FRESH else Add(OneByOne(arrivals[..|arrivals| - 1]), arrivals[|arrivals| - 1])
  }

  function Merged(batches: seq<seq<Arrival>>): Stats {
    if batches == [] then FRESH else Append(Merged(batches[..|batches| - 1]), OneByOne(batches[|batches| - 1]))
  }

  function Concat(batches: seq<seq<Arrival>>): seq<Arrival> {
    if batches == [] then [] else Concat(batches[..|batches| - 1]) + batches[|batches| - 1]
  }

  // ---- what is recorded, said without the steps ----

  /** The smallest and the largest positive time, or 0 when there is none. */
  function Earliest(arrivals: seq<Arrival>): int {
    if arrivals == [] then 0
    else
      var e, t := Earliest(arrivals[..|arrivals| - 1]), arrivals[|arrivals| - 1].timeMs;
      if t > 0 && (e == 0 || t < e) then t else e
  }

  function Latest(arrivals: seq<Arrival>): int {
    if arrivals == [] then 0 else Max(Latest(arrivals[..|arrivals| - 1]), arrivals[|arrivals| - 1].timeMs)
  }

  /** The smallest and the largest id; ids are positive. */
  function FirstId(arrivals: seq<Arrival>): int {
    if arrivals == [] then 0
    else
      var i, x := FirstId(arrivals[..|arrivals| - 1]), arrivals[|arrivals| - 1].id;
      if i == 0 || x < i then x else i
  }

  function LastId(arrivals: seq<Arrival>): int {
    if arrivals == [] then 0 else Max(LastId(arrivals[..|arrivals| - 1]), arrivals[|arrivals| - 1].id)
  }

  function Summary(arrivals: seq<Arrival>): Stats {
    if arrivals == [] then FRESH
    else
      var n := Normalised(arrivals[|arrivals| - 1]);
      Stats(|arrivals|, Earliest(arrivals), Latest(arrivals), FirstId(arrivals), LastId(arrivals),
            n.timeMs, n.timeNs, n.hasTimeNs)
  }

  predicate PositiveIds(arrivals: seq<Arrival>) {
    forall i :: 0 <= i < |arrivals| ==> arrivals[i].id > 0
  }

  predicate Increasing(arrivals: seq<Arrival>) {
    PositiveIds(arrivals) && forall i, j :: 0 <= i < j < |arrivals| ==> arrivals[i].id < arrivals[j].id
  }

  /** The record holds the number of logs, the smallest and the largest positive
      time (zero when there is none), the smallest and the largest id, and the time
      of the last log, which is zero without nanoseconds when not positive. */
  predicate Records(s: Stats, arrivals: seq<Arrival>) {
    && s.logCount == |arrivals|
    && (forall a :: a in arrivals && a.timeMs > 0 ==> s.earliest <= a.timeMs <= s.latest)
    && (if exists a :: a in arrivals && a.timeMs > 0
        then (exists a :: a in arrivals && a.timeMs == s.earliest > 0) && (exists a :: a in arrivals && a.timeMs == s.latest)
        else s.earliest == 0 && s.latest == 0)
    && (arrivals != [] ==>
          && (forall a :: a in arrivals ==> s.startId <= a.id <= s.endId)
          && (exists a :: a in arrivals && a.id == s.startId) && (exists a :: a in arrivals && a.id == s.endId)
          && var last := arrivals[|arrivals| - 1];
             && s.lastTimeMs == (if last.timeMs > 0 then last.timeMs else 0)
             && s.lastHasTimeNs == (last.timeMs > 0 && last.hasTimeNs)
             && s.lastTimeNs == (if last.timeMs > 0 then last.timeNs else 0))
    && (arrivals == [] ==> s == Stats(0, 0, 0, 0, 0, 0, 0, false))
  }

  /** The recorded extremes are what they are named for. */
  lemma ExtremesMean(arrivals: seq<Arrival>)
    requires PositiveIds(arrivals)
    ensures forall a :: a in arrivals ==> a.timeMs <= Latest(arrivals) && FirstId(arrivals) <= a.id <= LastId(arrivals)
    ensures forall a :: a in arrivals && a.timeMs > 0 ==> 0 < Earliest(arrivals) <= a.timeMs
    ensures Latest(arrivals) > 0 ==> exists a :: a in arrivals && a.timeMs == Latest(arrivals)
    ensures Earliest(arrivals) > 0 ==> exists a :: a in arrivals && a.timeMs == Earliest(arrivals)
    ensures arrivals != [] ==> exists a :: a in arrivals && a.id == FirstId(arrivals)
    ensures arrivals != [] ==> exists a :: a in arrivals && a.id == LastId(arrivals)
    ensures Earliest(arrivals) >= 0 && Latest(arrivals) >= 0
    ensures Records(Summary(arrivals), arrivals)
  {
    EarliestMeans(arrivals);
    LatestMeans(arrivals);
    FirstIdMeans(arrivals);
    LastIdMeans(arrivals);
  }

  lemma InitAndLast(arrivals: seq<Arrival>)
    requires arrivals != []
    ensures forall a :: a in arrivals <==> a in arrivals[..|arrivals| - 1] || a == arrivals[|arrivals| - 1]
  {
    assert arrivals == arrivals[..|arrivals| - 1] + [arrivals[|arrivals| - 1]];
  }

  lemma {:induction false} EarliestMeans(arrivals: seq<Arrival>)
    ensures forall a :: a in arrivals && a.timeMs > 0 ==> 0 < Earliest(arrivals) <= a.timeMs
    ensures Earliest(arrivals) > 0 ==> exists a :: a in arrivals && a.timeMs == Earliest(arrivals)
    ensures Earliest(arrivals) >= 0
  {
    if arrivals != [] {
      EarliestMeans(arrivals[..|arrivals| - 1]);
      InitAndLast(arrivals);
    }
  }

  lemma {:induction false} LatestMeans(arrivals: seq<Arrival>)
    ensures forall a :: a in arrivals ==> a.timeMs <= Latest(arrivals)
    ensures Latest(arrivals) > 0 ==> exists a :: a in arrivals && a.timeMs == Latest(arrivals)
    ensures Latest(arrivals) >= 0
  {
    if arrivals != [] {
      LatestMeans(arrivals[..|arrivals| - 1]);
      InitAndLast(arrivals);
    }
  }

  lemma {:induction false} FirstIdMeans(arrivals: seq<Arrival>)
    requires PositiveIds(arrivals)
    ensures forall a :: a in arrivals ==> FirstId(arrivals) <= a.id
    ensures arrivals != [] ==> FirstId(arrivals) > 0 && exists a :: a in arrivals && a.id == FirstId(arrivals)
  {
    if arrivals != [] {
      FirstIdMeans(arrivals[..|arrivals| - 1]);
      InitAndLast(arrivals);
    }
  }

  lemma {:induction false} LastIdMeans(arrivals: seq<Arrival>)
    requires PositiveIds(arrivals)
    ensures forall a :: a in arrivals ==> a.id <= LastId(arrivals)
    ensures arrivals != [] ==> LastId(arrivals) > 0 && exists a :: a in arrivals && a.id == LastId(arrivals)
  {
    if arrivals != [] {
      LastIdMeans(arrivals[..|arrivals| - 1]);
      InitAndLast(arrivals);
    }
  }

  /** Ids that grow: the first is the smallest and the last the largest. */
  lemma {:induction false} IncreasingIds(arrivals: seq<Arrival>)
    requires Increasing(arrivals) && arrivals != []
    ensures FirstId(arrivals) == arrivals[0].id && LastId(arrivals) == arrivals[|arrivals| - 1].id
  {
    var init, last := arrivals[..|arrivals| - 1], arrivals[|arrivals| - 1];
    if init != [] {
      IncreasingIds(init);
      assert init[|init| - 1].id < last.id && init[0].id < last.id;
    } else {
      assert FirstId(init) == 0 && LastId(init) == 0;
    }
  }

  /** Adding logs with growing ids one by one records their summary. */
  lemma {:induction false} OneByOneIsSummary(arrivals: seq<Arrival>)
    requires Increasing(arrivals)
    ensures OneByOne(arrivals) == Summary(arrivals)
  {
    if arrivals != [] {
      var init := arrivals[..|arrivals| - 1];
      OneByOneIsSummary(init);
      IncreasingIds(arrivals);
      LatestMeans(init);
      if init != [] {
        IncreasingIds(init);
      }
      assert OneByOne(arrivals).earliest == Earliest(arrivals);
      assert OneByOne(arrivals).latest == Latest(arrivals);
      assert OneByOne(arrivals).startId == FirstId(arrivals);
      assert OneByOne(arrivals).endId == LastId(arrivals);
    }
  }

  lemma ConcatEnd(a: seq<Arrival>, b: seq<Arrival>)
    requires b != []
    ensures (a + b)[..|a + b| - 1] == a + b[..|b| - 1] && (a + b)[|a + b| - 1] == b[|b| - 1]
  {
  }

  lemma {:induction false} TimesConcat(a: seq<Arrival>, b: seq<Arrival>)
    ensures Earliest(a + b) == if Earliest(b) > 0 && (Earliest(a) == 0 || Earliest(b) < Earliest(a))
                               then Earliest(b) else Earliest(a)
    ensures Latest(a + b) == Max(Latest(a), Latest(b))
  {
    EarliestMeans(a);
    LatestMeans(a);
    if b == [] {
      assert a + b == a;
    } else {
      ConcatEnd(a, b);
      TimesConcat(a, b[..|b| - 1]);
      EarliestMeans(b[..|b| - 1]);
    }
  }

  lemma {:induction false} IdsConcat(a: seq<Arrival>, b: seq<Arrival>)
    requires PositiveIds(a) && PositiveIds(b)
    ensures b != [] ==> FirstId(a + b) == if FirstId(a) == 0 || FirstId(b) < FirstId(a) then FirstId(b) else FirstId(a)
    ensures LastId(a + b) == Max(LastId(a), LastId(b))
  {
    LastIdMeans(a);
    if b == [] {
      assert a + b == a;
    } else {
      var init := b[..|b| - 1];
      ConcatEnd(a, b);
      IdsConcat(a, init);
      FirstIdMeans(init);
      if init == [] {
        assert a + init == a;
      }
    }
  }

  /** Appending a batch to what is recorded records both. */
  lemma AppendIsConcat(a: seq<Arrival>, b: seq<Arrival>)
    requires PositiveIds(a) && PositiveIds(b) && b != []
    ensures Append(Summary(a), Summary(b)) == Summary(a + b)
  {
    TimesConcat(a, b);
    IdsConcat(a, b);
    LatestMeans(a);
    LastIdMeans(a);
    ConcatEnd(a, b);
  }

  predicate Batches(batches: seq<seq<Arrival>>) {
    forall i :: 0 <= i < |batches| ==> batches[i] != [] && Increasing(batches[i])
  }

  /** However logs are cut into batches and in whatever order the batches are
      merged, the record is that of all logs taken together. */
  lemma {:induction false} MergedIsSummary(batches: seq<seq<Arrival>>)
    requires Batches(batches)
    ensures Merged(batches) == Summary(Concat(batches)) && PositiveIds(Concat(batches))
  {
    if batches != [] {
      var init, last := batches[..|batches| - 1], batches[|batches| - 1];
      MergedIsSummary(init);
      OneByOneIsSummary(last);
      AppendIsConcat(Concat(init), last);
    }
  }

  /** Cut in any way, logs with growing ids are recorded as if added one by one. */
  lemma MergedIsOneByOne(batches: seq<seq<Arrival>>)
    requires Batches(batches) && Increasing(Concat(batches))
    ensures Merged(batches) == OneByOne(Concat(batches))
  {
    MergedIsSummary(batches);
    OneByOneIsSummary(Concat(batches));
  }
}
