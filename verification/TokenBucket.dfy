/** The token buckets that limit requests and bytes: one for the producer, one
    for each key queue. Tokens are real numbers; rounding is not modelled. */
module TokenBucket {
  import opened Basics

  datatype Rates = Rates(rps: int, bps: int)

  /** `last` is zero until the first use. */
  datatype Bucket = Bucket(last: int, req: real, bytes: real)

  const UNUSED := Bucket(0, 0.0, 0.0)

  /** One round: a clock reading and the size of the request. */
  datatype Attempt = Attempt(now: int, size: nat)

  // ---- one round ----

  function Full(rate: int): real {
    if rate > 0 then rate as real else 0.0
  }

  /** What `ms` milliseconds bring in. */
  function Earned(rate: int, ms: int): real {
    ms as real / 1000.0 * rate as real
  }

  function TopUp(rate: int, tokens: real, ms: int): real {
    if rate <= 0 then tokens
    else
      var t := tokens + Earned(rate, ms);
      if t > rate as real then rate as real else t
  }

  function Refilled(c: Rates, b: Bucket, now: int): Bucket {
    if b.last == 0 then Bucket(now, Full(c.rps), Full(c.bps))
    else if now > b.last then Bucket(now, TopUp(c.rps, b.req, now - b.last), TopUp(c.bps, b.bytes, now - b.last))
    else b
  }

  predicate Covers(c: Rates, b: Bucket, size: nat) {
    (c.rps > 0 ==> b.req >= 1.0) && (c.bps > 0 ==> b.bytes >= size as real)
  }

  function Spent(c: Rates, b: Bucket, size: nat): Bucket {
    b.(req := if c.rps > 0 then b.req - 1.0 else b.req, bytes := if c.bps > 0 then b.bytes - size as real else b.bytes)
  }

  predicate Granted(c: Rates, b: Bucket, a: Attempt) {
    Covers(c, Refilled(c, b, a.now), a.size)
  }

  function Next(c: Rates, b: Bucket, a: Attempt): Bucket {
    var r := Refilled(c, b, a.now);
    if Covers(c, r, a.size) then Spent(c, r, a.size) else r
  }

  function Less(x: real, y: real): real {
    if x < y then x else y
  }

  /** One round by numbers. The first use fills both buckets; later ones add the
      rate for each second that has passed, up to the rate. A request passes
      exactly when every limit that is set finds its tokens, one for the request
      and one for each byte, and then it takes just these. */
  lemma RoundByNumbers(c: Rates, b: Bucket, a: Attempt)
    ensures var n := Next(c, b, a);
            var dt := if b.last != 0 && a.now > b.last then (a.now - b.last) as real / 1000.0 else 0.0;
            var rps, bps := c.rps as real, c.bps as real;
            var req := if b.last == 0 then rps else if dt > 0.0 then Less(rps, b.req + dt * rps) else b.req;
            var bytes := if b.last == 0 then bps else if dt > 0.0 then Less(bps, b.bytes + dt * bps) else b.bytes;
            && (Granted(c, b, a) <==> (c.rps <= 0 || req >= 1.0) && (c.bps <= 0 || bytes >= a.size as real))
            && (c.rps > 0 ==> n.req == if Granted(c, b, a) then req - 1.0 else req)
            && (c.bps > 0 ==> n.bytes == if Granted(c, b, a) then bytes - a.size as real else bytes)
            && n.last == (if b.last == 0 || a.now > b.last then a.now else b.last)
  {
  }

  // ---- runs ----

  function After(c: Rates, b: Bucket, run: seq<Attempt>): Bucket {
    if run == [] then b else Next(c, After(c, b, run[..|run| - 1]), run[|run| - 1])
  }

  /** How many requests, and how many bytes, a run lets through. */
  function Requests(c: Rates, b: Bucket, run: seq<Attempt>): nat {
    if run == [] then 0
    else
      var init, a := run[..|run| - 1], run[|run| - 1];
      Requests(c, b, init) + (if Granted(c, After(c, b, init), a) then 1 else 0)
  }

  function BytesLet(c: Rates, b: Bucket, run: seq<Attempt>): nat {
    if run == [] then 0
    else
      var init, a := run[..|run| - 1], run[|run| - 1];
      BytesLet(c, b, init) + (if Granted(c, After(c, b, init), a) then a.size else 0)
  }

  /** The reading from which time counts: the last refill, or the first reading of all. */
  function Since(b: Bucket, run: seq<Attempt>): int {
    if b.last != 0 || run == [] then b.last else run[0].now
  }

  /** No reading is zero, the value that marks an unused bucket. */
  predicate NonZero(run: seq<Attempt>) {
    forall i :: 0 <= i < |run| ==> run[i].now != 0
  }

  /** In a bucket that has been used, tokens stay between zero and the rate. */
  predicate Within(c: Rates, b: Bucket) {
    && (b.last != 0 && c.rps > 0 ==> 0.0 <= b.req <= c.rps as real)
    && (b.last != 0 && c.bps > 0 ==> 0.0 <= b.bytes <= c.bps as real)
  }

  lemma EarnedIsNotNegative(rate: int, ms: int)
    requires rate >= 0 && ms >= 0
    ensures Earned(rate, ms) >= 0.0
  {
  }

  lemma EarnedAdds(rate: int, a: int, b: int)
    ensures Earned(rate, a + b) == Earned(rate, a) + Earned(rate, b)
  {
    var r, x, y := rate as real, a as real / 1000.0, b as real / 1000.0;
    assert (a + b) as real / 1000.0 == x + y;
    Distribute(x, y, r);
  }

  lemma Distribute(x: real, y: real, r: real)
    ensures (x + y) * r == x * r + y * r
  {
  }

  lemma TopUpWithin(rate: int, tokens: real, ms: int)
    requires rate > 0 && ms >= 0 && 0.0 <= tokens <= rate as real
    ensures 0.0 <= TopUp(rate, tokens, ms) <= rate as real
    ensures TopUp(rate, tokens, ms) <= tokens + Earned(rate, ms)
  {
    EarnedIsNotNegative(rate, ms);
    hide Earned;
  }

  lemma RefilledWithin(c: Rates, b: Bucket, now: int)
    requires Within(c, b)
    ensures Within(c, Refilled(c, b, now))
    ensures now != 0 ==> Refilled(c, b, now).last != 0
    ensures b.last != 0 ==> Refilled(c, b, now).last >= b.last
  {
    hide TopUp;
    if now > b.last && b.last != 0 {
      if c.rps > 0 {
        TopUpWithin(c.rps, b.req, now - b.last);
      }
      if c.bps > 0 {
        TopUpWithin(c.bps, b.bytes, now - b.last);
      }
    }
  }

  lemma NextWithin(c: Rates, b: Bucket, a: Attempt)
    requires Within(c, b)
    ensures Within(c, Next(c, b, a))
    ensures a.now != 0 ==> Next(c, b, a).last != 0
    ensures b.last != 0 ==> Next(c, b, a).last >= b.last
  {
    hide Refilled;
    RefilledWithin(c, b, a.now);
  }

  /** Tokens stay within their bounds whatever the clock reads. */
  lemma {:induction false} AfterWithin(c: Rates, b: Bucket, run: seq<Attempt>)
    requires Within(c, b)
    ensures Within(c, After(c, b, run))
  {
    hide Within, Next;
    if run != [] {
      AfterWithin(c, b, run[..|run| - 1]);
      NextWithin(c, After(c, b, run[..|run| - 1]), run[|run| - 1]);
    }
  }

  /** Without a zero reading a bucket stays in use, and its time does not go back. */
  lemma {:induction false} TimeAdvances(c: Rates, b: Bucket, run: seq<Attempt>)
    requires Within(c, b) && NonZero(run) && (run != [] || b.last != 0)
    ensures After(c, b, run).last != 0
    ensures After(c, b, run).last >= Since(b, run)
  {
    hide Within, Next;
    if run != [] {
      var init := run[..|run| - 1];
      if init != [] || b.last != 0 {
        TimeAdvances(c, b, init);
      }
      AfterWithin(c, b, init);
      NextWithin(c, After(c, b, init), run[|run| - 1]);
      FirstReading(c, b, run);
    }
  }

  /** The first reading of an unused bucket is where its time starts. */
  lemma {:induction false} FirstReading(c: Rates, b: Bucket, run: seq<Attempt>)
    requires run != []
    ensures |run| == 1 && b.last == 0 ==> Next(c, b, run[0]).last == run[0].now == Since(b, run)
    ensures |run| > 1 || b.last != 0 ==> Since(b, run) == Since(b, run[..|run| - 1])
  {
  }

  /** What has been let through, with what is still in the bucket, is at most what
      was in it and what time has brought in. */
  lemma RequestsStep(c: Rates, b: Bucket, a: Attempt, since: int)
    requires c.rps > 0 && Within(c, b) && a.now != 0
    requires b.last != 0 ==> since <= b.last
    requires b.last == 0 ==> since == a.now
    ensures var used := if b.last != 0 then c.rps as real + Earned(c.rps, b.last - since) - b.req else 0.0;
            var n := Next(c, b, a);
            (if Granted(c, b, a) then 1.0 else 0.0) + used + n.req <= c.rps as real + Earned(c.rps, n.last - since)
  {
    if b.last != 0 && a.now > b.last {
      TopUpWithin(c.rps, b.req, a.now - b.last);
      EarnedAdds(c.rps, b.last - since, a.now - b.last);
    }
    hide Earned, TopUp;
    EarnedNothing(c.rps);
  }

  lemma BytesStep(c: Rates, b: Bucket, a: Attempt, since: int)
    requires c.bps > 0 && Within(c, b) && a.now != 0
    requires b.last != 0 ==> since <= b.last
    requires b.last == 0 ==> since == a.now
    ensures var used := if b.last != 0 then c.bps as real + Earned(c.bps, b.last - since) - b.bytes else 0.0;
            var n := Next(c, b, a);
            (if Granted(c, b, a) then a.size as real else 0.0) + used + n.bytes <= c.bps as real + Earned(c.bps, n.last - since)
  {
    if b.last != 0 && a.now > b.last {
      TopUpWithin(c.bps, b.bytes, a.now - b.last);
      EarnedAdds(c.bps, b.last - since, a.now - b.last);
    }
    hide Earned, TopUp;
    EarnedNothing(c.bps);
  }

  lemma EarnedNothing(rate: int)
    ensures Earned(rate, 0) == 0.0
  {
  }

  lemma {:induction false} RequestsLeave(c: Rates, b: Bucket, run: seq<Attempt>)
    requires c.rps > 0 && Within(c, b) && NonZero(run) && (run != [] || b.last != 0)
    ensures var e := After(c, b, run);
            Requests(c, b, run) as real + e.req <= c.rps as real + Earned(c.rps, e.last - Since(b, run))
  {
    hide Within, Next, Granted, Earned;
    TimeAdvances(c, b, run);
    if run == [] {
      EarnedNothing(c.rps);
      WithinTells(c, b);
    } else {
      var init, a := run[..|run| - 1], run[|run| - 1];
      var m := After(c, b, init);
      AfterWithin(c, b, init);
      FirstReading(c, b, run);
      WithinTells(c, m);
      if init != [] || b.last != 0 {
        TimeAdvances(c, b, init);
        RequestsLeave(c, b, init);
      }
      RequestsStep(c, m, a, Since(b, run));
    }
  }

  lemma {:induction false} BytesLeave(c: Rates, b: Bucket, run: seq<Attempt>)
    requires c.bps > 0 && Within(c, b) && NonZero(run) && (run != [] || b.last != 0)
    ensures var e := After(c, b, run);
            BytesLet(c, b, run) as real + e.bytes <= c.bps as real + Earned(c.bps, e.last - Since(b, run))
  {
    hide Within, Next, Granted, Earned;
    TimeAdvances(c, b, run);
    if run == [] {
      EarnedNothing(c.bps);
      WithinTells(c, b);
    } else {
      var init, a := run[..|run| - 1], run[|run| - 1];
      var m := After(c, b, init);
      AfterWithin(c, b, init);
      FirstReading(c, b, run);
      WithinTells(c, m);
      if init != [] || b.last != 0 {
        TimeAdvances(c, b, init);
        BytesLeave(c, b, init);
      }
      BytesStep(c, m, a, Since(b, run));
    }
  }

  lemma WithinTells(c: Rates, b: Bucket)
    requires Within(c, b)
    ensures b.last != 0 && c.rps > 0 ==> 0.0 <= b.req <= c.rps as real
    ensures b.last != 0 && c.bps > 0 ==> 0.0 <= b.bytes <= c.bps as real
  {
  }

  /** What is let through is at most the rate times one second more than the clock has advanced. */
  predicate Bounded(c: Rates, b: Bucket, run: seq<Attempt>) {
    var d := After(c, b, run).last - Since(b, run);
    && (c.rps > 0 ==> Requests(c, b, run) as real <= c.rps as real * (1.0 + d as real / 1000.0))
    && (c.bps > 0 ==> BytesLet(c, b, run) as real <= c.bps as real * (1.0 + d as real / 1000.0))
  }

  /** Over any stretch of attempts without a zero reading, whoever makes them, requests and bytes are bounded. */
  lemma {:induction false} RateBound(c: Rates, b: Bucket, run: seq<Attempt>)
    requires Within(c, b) && NonZero(run) && run != []
    ensures Bounded(c, b, run)
    ensures After(c, b, run).last >= Since(b, run) && Within(c, After(c, b, run))
  {
    hide After, Requests, BytesLet, Within, Earned;
    TimeAdvances(c, b, run);
    AfterWithin(c, b, run);
    WithinTells(c, After(c, b, run));
    var d := After(c, b, run).last - Since(b, run);
    if c.rps > 0 {
      RequestsLeave(c, b, run);
      OneSecondMore(c.rps, d);
    }
    if c.bps > 0 {
      BytesLeave(c, b, run);
      OneSecondMore(c.bps, d);
    }
  }

  lemma OneSecondMore(rate: int, ms: int)
    ensures rate as real + Earned(rate, ms) == rate as real * (1.0 + ms as real / 1000.0)
  {
    var r, x := rate as real, ms as real / 1000.0;
    assert r * (1.0 + x) == r + x * r;
  }

  /** A clock that reads zero defeats the limit: the bucket looks unused at every
      round and is filled again, so everything that fits into a full bucket passes. */
  lemma {:induction false} ZeroClockUnlimited(c: Rates, size: nat, n: nat)
    requires c.bps > 0 ==> size <= c.bps
    ensures var run := seq(n, _ => Attempt(0, size));
            Requests(c, UNUSED, run) == n && BytesLet(c, UNUSED, run) == n * size && After(c, UNUSED, run).last == 0
  {
    var run := seq(n, _ => Attempt(0, size));
    if n > 0 {
      assert run[..n - 1] == seq(n - 1, _ => Attempt(0, size));
      ZeroClockUnlimited(c, size, n - 1);
    }
  }

  predicate Limited(c: Rates) {
    c.rps > 0 || c.bps > 0
  }

  /** All readings are taken from `s`. */
  ghost predicate ReadFrom(run: seq<Attempt>, s: iset<int>) {
    forall i :: 0 <= i < |run| ==> run[i].now in s
  }

  /** The limit holds for every run of a clock that reads values from `s` if and
      only if zero is none of them. */
  lemma BoundedExactly(c: Rates, s: iset<int>)
    requires Limited(c)
    ensures 0 !in s <==>
              forall b: Bucket, run: seq<Attempt> | Within(c, b) && ReadFrom(run, s) && run != [] :: Bounded(c, b, run)
  {
    if 0 in s {
      var run := ZeroRunUnbounded(c, s);
    } else {
      forall b: Bucket, run: seq<Attempt> | Within(c, b) && ReadFrom(run, s) && run != [] ensures Bounded(c, b, run) {
        RateBound(c, b, run);
      }
    }
  }

  lemma ZeroRunUnbounded(c: Rates, s: iset<int>) returns (run: seq<Attempt>)
    requires Limited(c) && 0 in s
    ensures Within(c, UNUSED) && ReadFrom(run, s) && run != [] && !Bounded(c, UNUSED, run)
  {
    var n, size := if c.rps > 0 then c.rps + 1 else 2, if c.rps > 0 then 0 else c.bps;
    run := seq(n, _ => Attempt(0, size));
    ZeroClockUnlimited(c, size, n);
  }

  // ---- what is never let through, and what is ----

  /** A request with more bytes than the rate is never let through, whatever the clock reads. */
  lemma TooLargeNeverGranted(c: Rates, b: Bucket, a: Attempt)
    requires Within(c, b) && c.bps > 0 && a.size > c.bps
    ensures !Granted(c, b, a)
  {
    if b.last != 0 && a.now > b.last {
      TopUpWithin(c.bps, b.bytes, a.now - b.last);
    }
    hide TopUp;
  }

  /** A second after the last refill the bucket is full, and then a request is let
      through exactly when it has no more bytes than the rate. */
  lemma GrantedAfterOneSecond(c: Rates, b: Bucket, a: Attempt)
    requires Within(c, b) && b.last != 0 && a.now >= b.last + 1000
    ensures Granted(c, b, a) <==> (c.bps > 0 ==> a.size <= c.bps)
  {
    if c.rps > 0 {
      FullAfterOneSecond(c.rps, b.req, a.now - b.last);
    }
    if c.bps > 0 {
      FullAfterOneSecond(c.bps, b.bytes, a.now - b.last);
    }
    hide TopUp;
  }

  lemma FullAfterOneSecond(rate: int, tokens: real, ms: int)
    requires rate > 0 && tokens >= 0.0 && ms >= 1000
    ensures TopUp(rate, tokens, ms) == rate as real
  {
    var r, x := rate as real, ms as real / 1000.0;
    assert x >= 1.0 && r >= 1.0;
    assert (x - 1.0) * r >= 0.0;
    assert x * r == r + (x - 1.0) * r;
  }

  // ---- the bucket in place ----

  class Limiter {
    const rates: Rates
    var lastMs: int
    var reqTokens: real
    var byteTokens: real

    function State(): Bucket
      reads this
    {
      Bucket(lastMs, reqTokens, byteTokens)
    }

    constructor (rates: Rates)
      ensures State() == UNUSED && this.rates == rates
    {
      this.rates := rates;
      lastMs, reqTokens, byteTokens := 0, 0.0, 0.0;
    }

    method Refill(now: int)
      modifies this
      ensures State() == Refilled(rates, old(State()), now)
    {
      if lastMs == 0 {
        lastMs := now;
        reqTokens := if rates.rps > 0 then rates.rps as real else 0.0;
        byteTokens := if rates.bps > 0 then rates.bps as real else 0.0;
      } else if now > lastMs {
        var dt := (now - lastMs) as real / 1000.0;
        lastMs := now;
        if rates.rps > 0 {
          reqTokens := reqTokens + dt * rates.rps as real;
          if reqTokens > rates.rps as real {
            reqTokens := rates.rps as real;
          }
        }
        if rates.bps > 0 {
          byteTokens := byteTokens + dt * rates.bps as real;
          if byteTokens > rates.bps as real {
            byteTokens := rates.bps as real;
          }
        }
      }
    }

    /** One round under the lock. */
    method Round(now: int, size: nat) returns (ok: bool)
      modifies this
      ensures ok == Granted(rates, old(State()), Attempt(now, size))
      ensures State() == Next(rates, old(State()), Attempt(now, size))
    {
      hide Refilled;
      var reqNeed := if rates.rps > 0 then 1.0 else 0.0;
      var byteNeed := if rates.bps > 0 then size as real else 0.0;
      Refill(now);
      ok := true;
      if rates.rps > 0 && reqTokens < reqNeed {
        ok := false;
      }
      if rates.bps > 0 && byteTokens < byteNeed {
        ok := false;
      }
      if ok {
        if rates.rps > 0 {
          reqTokens := reqTokens - reqNeed;
        }
        if rates.bps > 0 {
          byteTokens := byteTokens - byteNeed;
        }
      }
    }

    /** Waits until a round lets the request through or the producer is seen to have
        stopped; nothing is taken in the rounds before. Without limits, or without a
        clock, there is no wait. The clock readings are taken from a list, which
        ends a wait that would go on. */
    method Wait(hasClock: bool, readings: seq<Reading>, size: nat) returns (outcome: Outcome, used: nat)
      modifies this
      ensures outcome.Free? <==> !Limited(rates) || !hasClock
      ensures outcome.Free? ==> used == 0 && State() == old(State())
      ensures !outcome.Free? ==>
                && used <= |readings|
                && forall i :: 0 <= i < (if outcome.Waiting? then used else used - 1) ==>
                     !readings[i].stopped && !PassedAt(rates, old(State()), readings, i, size)
      ensures outcome.Waiting? ==> used == |readings| && State() == After(rates, old(State()), Tries(readings[..used], size))
      ensures outcome.Passed? ==>
                && used > 0 && !readings[used - 1].stopped && PassedAt(rates, old(State()), readings, used - 1, size)
                && State() == After(rates, old(State()), Tries(readings[..used], size))
      ensures outcome.Stopped? ==>
                && used > 0 && readings[used - 1].stopped
                && State() == After(rates, old(State()), Tries(readings[..used - 1], size))
    {
      hide Granted, Next, Tries;
      NoTries(size);
      outcome, used := Free, 0;
      if rates.rps <= 0 && rates.bps <= 0 {
        return;
      }
      if !hasClock {
        return;
      }
      outcome := Waiting;
      ghost var start := State();
      while used < |readings| && outcome.Waiting?
        invariant used <= |readings| && !outcome.Free?
        invariant outcome.Waiting? || outcome.Passed? ==> State() == After(rates, start, Tries(readings[..used], size))
        invariant outcome.Passed? ==>
                    used > 0 && !readings[used - 1].stopped && PassedAt(rates, start, readings, used - 1, size)
        invariant outcome.Stopped? ==>
                    && used > 0 && readings[used - 1].stopped
                    && State() == After(rates, start, Tries(readings[..used - 1], size))
        invariant forall i :: 0 <= i < (if outcome.Waiting? then used else used - 1) ==>
                    !readings[i].stopped && !PassedAt(rates, start, readings, i, size)
      {
        if readings[used].stopped {
          outcome := Stopped;
        } else {
          TriesStep(readings, size, used);
          var ok := Round(readings[used].now, size);
          outcome := if ok then Passed else Waiting;
        }
        used := used + 1;
      }
    }

    /** The bucket of a key: a refused request learns when to come back. A producer
        without a clock passes a reading of zero. */
    method ReserveKey(size: nat, now: int) returns (ok: bool, nextReadyMs: int)
      requires Within(rates, State())
      modifies this
      ensures Within(rates, State())
      ensures !Limited(rates) ==> ok && State() == old(State())
      ensures Limited(rates) ==>
                ok == Granted(rates, old(State()), Attempt(now, size)) && State() == Next(rates, old(State()), Attempt(now, size))
      ensures !ok ==> nextReadyMs == now + WaitMs(rates, State(), size) >= now + 10
      ensures !ok ==> WaitFits(rates, State(), size, nextReadyMs - now)
      ensures !ok && nextReadyMs > now + 10 && lastMs == now != 0 ==>
                forall earlier | now < earlier < nextReadyMs :: !Granted(rates, State(), Attempt(earlier, size))
      ensures !ok && (now >= old(lastMs) || old(lastMs) == 0) && (rates.bps > 0 ==> size <= rates.bps) ==>
                forall later | later > nextReadyMs :: Granted(rates, State(), Attempt(later, size))
      ensures now == 0 == old(lastMs) ==> (ok <==> rates.bps > 0 ==> size <= rates.bps) && lastMs == 0
    {
      hide Granted, Next, Within, WaitFits;
      nextReadyMs := 0;
      if rates.rps <= 0 && rates.bps <= 0 {
        return true, nextReadyMs;
      }
      NextWithin(rates, State(), Attempt(now, size));
      RefusedKeepsTime(rates, State(), Attempt(now, size));
      ZeroReading(rates, State(), size);
      ok := Round(now, size);
      if ok {
        return;
      }
      WithinTells(rates, State());
      var waitMs := 10;
      if rates.rps > 0 && reqTokens < 1.0 {
        var t := ((1.0 - reqTokens) * 1000.0 / rates.rps as real).Floor;
        if t > waitMs {
          waitMs := t;
        }
      }
      if rates.bps > 0 && byteTokens < size as real {
        var t := ((size as real - byteTokens) * 1000.0 / rates.bps as real).Floor;
        if t > waitMs {
          waitMs := t;
        }
      }
      nextReadyMs := now + waitMs;
      WaitIsLeast(rates, State(), size);
      assert waitMs == WaitMs(rates, State(), size);
      if waitMs > 10 && lastMs == now != 0 {
        NotBefore(rates, State(), size);
      }
      if (now >= old(lastMs) || old(lastMs) == 0) && (rates.bps > 0 ==> size <= rates.bps) {
        ToldTime(rates, State(), size);
      }
    }
  }

  // ---- the waiting loop ----

  /** What the loop sees in one round. */
  datatype Reading = Reading(now: int, stopped: bool)

  datatype Outcome = Free | Stopped | Passed | Waiting

  function Tries(readings: seq<Reading>, size: nat): (run: seq<Attempt>)
    ensures |run| == |readings|
    ensures forall i :: 0 <= i < |readings| ==> run[i] == Attempt(readings[i].now, size)
  {
    if readings == [] then []
    else Tries(readings[..|readings| - 1], size) + [Attempt(readings[|readings| - 1].now, size)]
  }

  /** The round at position `i` lets the request through. */
  predicate PassedAt(c: Rates, b: Bucket, readings: seq<Reading>, i: nat, size: nat)
    requires i < |readings|
  {
    Granted(c, After(c, b, Tries(readings[..i], size)), Attempt(readings[i].now, size))
  }

  lemma NoTries(size: nat)
    ensures Tries([], size) == []
  {
  }

  lemma TriesStep(readings: seq<Reading>, size: nat, i: nat)
    requires i < |readings|
    ensures var run := Tries(readings[..i + 1], size);
            run[..|run| - 1] == Tries(readings[..i], size) && run[|run| - 1] == Attempt(readings[i].now, size)
  {
    assert readings[..i + 1][..i] == readings[..i];
  }

  // ---- when to come back ----

  /** How long a key is told to wait. */
  function WaitMs(c: Rates, b: Bucket, size: nat): int {
    Max(10, Max(if c.rps > 0 && b.req < 1.0 then MissingMs(c.rps, b.req, 1.0).Floor else 10,
                if c.bps > 0 && b.bytes < size as real then MissingMs(c.bps, b.bytes, size as real).Floor else 10))
  }

  /** The time, in exact milliseconds, that brings in what is missing. */
  function MissingMs(rate: int, tokens: real, need: real): real
    requires rate > 0
  {
    (need - tokens) * 1000.0 / rate as real
  }

  /** After a refusal the tokens do not cover the request. */
  lemma RefusedKeepsTime(c: Rates, b: Bucket, a: Attempt)
    ensures a.now >= b.last || b.last == 0 ==> Next(c, b, a).last == a.now
    ensures !Granted(c, b, a) ==> !Covers(c, Next(c, b, a), a.size)
  {
    hide TopUp;
  }

  /** A reading of zero leaves an unused bucket unused, and a full one covers what fits the rate. */
  lemma ZeroReading(c: Rates, b: Bucket, size: nat)
    ensures b.last == 0 ==> (Granted(c, b, Attempt(0, size)) <==> c.bps > 0 ==> size <= c.bps)
    ensures b.last == 0 ==> Next(c, b, Attempt(0, size)).last == 0
  {
  }

  /** What is missing has been earned exactly when its time has passed. */
  lemma EarnedInTime(rate: int, tokens: real, need: real, ms: int)
    requires rate > 0
    ensures tokens + Earned(rate, ms) >= need <==> MissingMs(rate, tokens, need) <= ms as real
  {
    var r, x := rate as real, MissingMs(rate, tokens, need);
    assert x * r == (need - tokens) * 1000.0;
    assert Earned(rate, ms) == ms as real * r / 1000.0;
    if x <= ms as real {
      MulGrows(x, ms as real, r);
    } else {
      MulGrowsStrictly(ms as real, x, r);
    }
  }

  /** What is missing of the requests and of the bytes is brought in by `ms` milliseconds. */
  predicate TimeEnough(c: Rates, b: Bucket, size: nat, ms: int) {
    && (c.rps > 0 && b.req < 1.0 ==> MissingMs(c.rps, b.req, 1.0) <= ms as real)
    && (c.bps > 0 && b.bytes < size as real ==> MissingMs(c.bps, b.bytes, size as real) <= ms as real)
  }

  lemma EnoughByNumbers(c: Rates, b: Bucket, size: nat, ms: int)
    requires ms >= 0
    ensures TimeEnough(c, b, size, ms) <==>
              && (c.rps > 0 ==> (1.0 - b.req) * 1000.0 <= ms as real * c.rps as real)
              && (c.bps > 0 ==> (size as real - b.bytes) * 1000.0 <= ms as real * c.bps as real)
  {
    if c.rps > 0 {
      MissingByNumbers(c.rps, b.req, 1.0, ms);
      MulGrows(0.0, ms as real, c.rps as real);
    }
    if c.bps > 0 {
      MissingByNumbers(c.bps, b.bytes, size as real, ms);
      MulGrows(0.0, ms as real, c.bps as real);
    }
    hide MissingMs;
  }

  lemma MissingByNumbers(rate: int, tokens: real, need: real, ms: int)
    requires rate > 0
    ensures MissingMs(rate, tokens, need) <= ms as real <==> (need - tokens) * 1000.0 <= ms as real * rate as real
  {
    var r, x := rate as real, MissingMs(rate, tokens, need);
    assert x * r == (need - tokens) * 1000.0;
    if x <= ms as real {
      MulGrows(x, ms as real, r);
    } else {
      MulGrowsStrictly(ms as real, x, r);
    }
  }

  /** A wait brings in, or is less than a millisecond short of bringing in, what is
      missing of the requests and of the bytes; and a wait of more than ten
      milliseconds is no longer than the time one of the two takes. */
  predicate WaitFits(c: Rates, b: Bucket, size: nat, ms: int) {
    && (c.rps > 0 ==> (1.0 - b.req) * 1000.0 < (ms + 1) as real * c.rps as real)
    && (c.bps > 0 ==> (size as real - b.bytes) * 1000.0 < (ms + 1) as real * c.bps as real)
    && (ms > 10 ==>
          || (c.rps > 0 && ms as real * c.rps as real <= (1.0 - b.req) * 1000.0)
          || (c.bps > 0 && ms as real * c.bps as real <= (size as real - b.bytes) * 1000.0))
  }

  lemma MissingTimesRate(rate: int, tokens: real, need: real)
    requires rate > 0
    ensures MissingMs(rate, tokens, need) * rate as real == (need - tokens) * 1000.0
    ensures tokens >= need ==> (need - tokens) * 1000.0 <= 0.0
  {
  }

  lemma FloorBounds(x: real, ms: int)
    requires x.Floor <= ms
    ensures x < (ms + 1) as real
    ensures x.Floor == ms ==> ms as real <= x
  {
  }

  /** A whole number of milliseconds rounded down from what is missing. */
  lemma FloorFits(rate: int, tokens: real, need: real, ms: int)
    requires rate > 0 && ms >= 10
    requires tokens < need ==> MissingMs(rate, tokens, need).Floor <= ms
    ensures (need - tokens) * 1000.0 < (ms + 1) as real * rate as real
    ensures tokens < need && MissingMs(rate, tokens, need).Floor == ms ==>
              ms as real * rate as real <= (need - tokens) * 1000.0
  {
    var x := MissingMs(rate, tokens, need);
    MissingTimesRate(rate, tokens, need);
    hide MissingMs;
    if tokens < need {
      BelowNext(x, ms, rate as real, (need - tokens) * 1000.0);
      if x.Floor == ms {
        NotAbove(x, ms, rate as real, (need - tokens) * 1000.0);
      }
    } else {
      MulGrowsStrictly(0.0, (ms + 1) as real, rate as real);
    }
  }

  lemma BelowNext(x: real, ms: int, r: real, z: real)
    requires x.Floor <= ms && r > 0.0 && x * r == z
    ensures z < (ms + 1) as real * r
  {
    FloorBounds(x, ms);
    MulGrowsStrictly(x, (ms + 1) as real, r);
  }

  lemma NotAbove(x: real, ms: int, r: real, z: real)
    requires x.Floor == ms && r > 0.0 && x * r == z
    ensures ms as real * r <= z
  {
    FloorBounds(x, ms);
    MulGrows(ms as real, x, r);
  }

  lemma WaitIsLeast(c: Rates, b: Bucket, size: nat)
    ensures WaitFits(c, b, size, WaitMs(c, b, size))
  {
    hide MissingMs;
    var ms := WaitMs(c, b, size);
    if c.rps > 0 {
      FloorFits(c.rps, b.req, 1.0, ms);
    }
    if c.bps > 0 {
      FloorFits(c.bps, b.bytes, size as real, ms);
    }
  }

  /** A wait of more than ten milliseconds is the longest that is not too long: at
      no time before it is over would the key be let through. */
  lemma NotBefore(c: Rates, b: Bucket, size: nat)
    requires Within(c, b) && b.last != 0 && WaitMs(c, b, size) > 10
    ensures forall earlier :: b.last < earlier < b.last + WaitMs(c, b, size) ==> !Granted(c, b, Attempt(earlier, size))
  {
    var ms := WaitMs(c, b, size);
    WaitIsLeast(c, b, size);
    hide WaitMs, Granted, WaitFits;
    forall earlier | b.last < earlier < b.last + ms ensures !Granted(c, b, Attempt(earlier, size)) {
      if c.bps > 0 && size > c.bps {
        TooLargeNeverGranted(c, b, Attempt(earlier, size));
      } else {
        ComebackExactly(c, b, size, earlier);
        TooShort(c, b, size, earlier - b.last, ms);
      }
    }
  }

  /** Less than a fitting wait of more than ten milliseconds does not bring in what is missing. */
  lemma TooShort(c: Rates, b: Bucket, size: nat, less: int, ms: int)
    requires WaitFits(c, b, size, ms) && 0 < less < ms && 10 < ms
    ensures (c.rps > 0 && less as real * c.rps as real < (1.0 - b.req) * 1000.0)
            || (c.bps > 0 && less as real * c.bps as real < (size as real - b.bytes) * 1000.0)
  {
    var l, m := less as real, ms as real;
    if c.rps > 0 && m * c.rps as real <= (1.0 - b.req) * 1000.0 {
      MulGrowsStrictly(l, m, c.rps as real);
    } else {
      MulGrowsStrictly(l, m, c.bps as real);
    }
  }

  /** Whoever comes back is let through exactly when the time for what is missing has passed. */
  lemma ComebackExactly(c: Rates, b: Bucket, size: nat, later: int)
    requires Within(c, b) && b.last != 0 && later > b.last && (c.bps > 0 ==> size <= c.bps)
    ensures Granted(c, b, Attempt(later, size)) <==> TimeEnough(c, b, size, later - b.last)
    ensures Granted(c, b, Attempt(later, size)) <==>
              && (c.rps > 0 ==> (1.0 - b.req) * 1000.0 <= (later - b.last) as real * c.rps as real)
              && (c.bps > 0 ==> (size as real - b.bytes) * 1000.0 <= (later - b.last) as real * c.bps as real)
  {
    EnoughByNumbers(c, b, size, later - b.last);
    if c.rps > 0 {
      EarnedIsNotNegative(c.rps, later - b.last);
      EarnedInTime(c.rps, b.req, 1.0, later - b.last);
    }
    if c.bps > 0 {
      EarnedIsNotNegative(c.bps, later - b.last);
      EarnedInTime(c.bps, b.bytes, size as real, later - b.last);
    }
    hide Earned, MissingMs;
  }

  /** A key told at time `b.last` to wait is let through at any time later than it
      was told. Just at that time, which is when the scheduler makes it ready, it is
      let through if and only if rounding its waits down has cut nothing off. */
  lemma ToldTime(c: Rates, b: Bucket, size: nat)
    requires Within(c, b) && (c.bps > 0 ==> size <= c.bps)
    ensures forall later :: later > b.last + WaitMs(c, b, size) ==> Granted(c, b, Attempt(later, size))
    ensures b.last != 0 ==>
              (Granted(c, b, Attempt(b.last + WaitMs(c, b, size), size)) <==> TimeEnough(c, b, size, WaitMs(c, b, size)))
  {
    if b.last != 0 {
      hide Granted, Within, MissingMs;
      forall later | later > b.last + WaitMs(c, b, size) ensures Granted(c, b, Attempt(later, size)) {
        ComebackExactly(c, b, size, later);
      }
      ComebackExactly(c, b, size, b.last + WaitMs(c, b, size));
    }
  }

  /** So a key may be refused at the very time it was told to come back: 31 bytes at
      3000 bytes a second take 10.33 milliseconds, and it is told 10. */
  lemma ToldTooEarly()
    ensures var c, b := Rates(0, 3000), Bucket(1, 0.0, 0.0);
            && Within(c, b) && WaitMs(c, b, 31) == 10
            && !Granted(c, b, Attempt(b.last + 10, 31)) && Granted(c, b, Attempt(b.last + 11, 31))
  {
    var c, b := Rates(0, 3000), Bucket(1, 0.0, 0.0);
    assert MissingMs(3000, 0.0, 31.0) == 31000.0 / 3000.0;
    assert (31000.0 / 3000.0).Floor == 10;
    ComebackExactly(c, b, 31, 11);
    ComebackExactly(c, b, 31, 12);
  }

  /** The bucket after a refused return at the time it was told. */
  function Returned(c: Rates, b: Bucket, size: nat): Bucket {
    Next(c, b, Attempt(b.last + WaitMs(c, b, size), size))
  }

  /** A key that comes back when told is refused at most once more. */
  lemma {:induction false} RefusedOnceMore(c: Rates, b: Bucket, size: nat)
    requires Within(c, b) && b.last != 0 && b.last + WaitMs(c, b, size) != 0 && (c.bps > 0 ==> size <= c.bps)
    requires !Granted(c, b, Attempt(b.last + WaitMs(c, b, size), size))
    ensures var b1 := Returned(c, b, size);
            Granted(c, b1, Attempt(b1.last + WaitMs(c, b1, size), size))
  {
    var w := WaitMs(c, b, size);
    var b1 := Returned(c, b, size);
    NextWithin(c, b, Attempt(b.last + w, size));
    assert b1 == Refilled(c, b, b.last + w);
    if c.rps > 0 && b1.req < 1.0 {
      LessThanOneMissing(c.rps, b.req, 1.0, w);
    }
    if c.bps > 0 && b1.bytes < size as real {
      LessThanOneMissing(c.bps, b.bytes, size as real, w);
    }
    hide Granted, Within, MissingMs, Next, TopUp;
    ToldTime(c, b1, size);
  }

  /** After the wait that was told, less than a millisecond is missing. */
  lemma LessThanOneMissing(rate: int, tokens: real, need: real, w: int)
    requires rate > 0 && need <= rate as real && w >= 0
    requires tokens < need ==> MissingMs(rate, tokens, need).Floor <= w
    requires TopUp(rate, tokens, w) < need
    ensures MissingMs(rate, TopUp(rate, tokens, w), need) <= 1.0
  {
    var r := rate as real;
    EarnedIsNotNegative(rate, w);
    assert TopUp(rate, tokens, w) == tokens + Earned(rate, w);
    EarnedAdds(rate, w, 1);
    EarnedInTime(rate, tokens, need, w + 1);
    EarnedInTime(rate, tokens + Earned(rate, w), need, 1);
  }

  lemma MulGrows(x: real, y: real, r: real)
    requires x <= y && r >= 0.0
    ensures x * r <= y * r
  {
    assert (y - x) * r >= 0.0;
  }

  lemma MulGrowsStrictly(x: real, y: real, r: real)
    requires x < y && r > 0.0
    ensures x * r < y * r
  {
    assert (y - x) * r > 0.0;
  }
}
