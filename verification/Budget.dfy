/** The six byte counters of the producer and the critical sections that update
    them, in 64-bit unsigned arithmetic. */
module Budget {
  import opened Basics
  import opened BudgetSpec

  function AddSat(a: nat, b: nat): (r: nat)
    requires a < WORD && b < WORD
    ensures r == Min(a + b, WORD - 1)
  {
    if b > WORD - 1 - a then WORD - 1 else a + b
  }

  predicate FitsLimit(used: nat, need: nat, limit: nat)
    ensures FitsLimit(used, need, limit) <==> used + need <= limit
  {
    used <= limit && need <= limit - used
  }

  /** Unsigned addition and subtraction, which wrap. */
  function AddWrap(a: nat, b: nat): (r: nat)
    requires a < WORD && b < WORD
    ensures a + b < WORD ==> r == a + b
    ensures r < WORD
  {
    if a + b < WORD then a + b else a + b - WORD
  }

  function SubWrap(a: nat, b: nat): (r: nat)
    requires a < WORD && b < WORD
    ensures b <= a ==> r == a - b
    ensures r < WORD
  {
    if b <= a then a - b else a + WORD - b
  }

  /** The release paths clamp at zero. */
  function SubClamp(a: nat, b: nat): (r: nat)
    ensures r == Max(a - b, 0)
  {
    if a >= b then a - b else 0
  }

  /** Settles a counter that was raised by an estimate once `delta` bytes have been encoded. */
  function Settle(counter: nat, estimated: nat, delta: nat): nat
    requires counter < WORD && estimated < WORD && delta < WORD
  {
    if delta > estimated then AddWrap(counter, delta - estimated)
    else if estimated > delta then SubClamp(counter, estimated - delta)
    else counter
  }

  function SettleThread(counter: nat, estimated: nat, delta: nat): nat
    requires counter < WORD && estimated < WORD && delta < WORD
  {
    if delta > estimated then AddWrap(counter, delta - estimated)
    else if estimated > delta then SubWrap(counter, estimated - delta)
    else counter
  }

  class ByteCounters {
    const limits: Limits
    var queueBytes: nat
    var ingressBytes: nat
    var sendBytes: nat
    var inflightBytes: nat
    var scratchBytes: nat
    var tlsBytes: nat
    ghost var live: Live

    /** The counters count the live buffers of their stages; `queue_bytes` also
        counts what was lost with freed keys. */
    ghost predicate Counts()
      reads this
    {
      && Total(live) < WORD
      && queueBytes == QueueBytes(live)
      && ingressBytes == Sum(live.ingress)
      && sendBytes == Sum(live.send)
      && inflightBytes == Sum(live.inflight)
      && scratchBytes == Sum(live.scratch)
      && tlsBytes == ThreadBytes(live)
    }

    ghost predicate Valid()
      reads this
    {
      Sensible(limits) && WithinBudget(limits, live) && Counts()
    }

    constructor (maxBuffer: int, package: nat, senders: nat)
      requires maxBuffer < 0x8000_0000 && 0 < senders
      ensures Valid() && live == NOTHING_LIVE && limits.maxBuffer == maxBuffer
      ensures limits.reserved == EffectiveReserved(maxBuffer, package, senders)
    {
      hide EffectiveReserved, Sensible, WithinBudget, Total, QueueBytes, ThreadBytes;
      ReservedIsSensible(maxBuffer, package, senders);
      NothingCounted(Limits(maxBuffer, EffectiveReserved(maxBuffer, package, senders)));
      limits := Limits(maxBuffer, EffectiveReserved(maxBuffer, package, senders));
      queueBytes, ingressBytes, sendBytes := 0, 0, 0;
      inflightBytes, scratchBytes, tlsBytes := 0, 0, 0;
      live := NOTHING_LIVE;
    }

    // ---- room ----

    method BufferedBytes() returns (total: nat)
      requires Valid()
      ensures total == Total(live)
    {
      total := queueBytes;
      total := AddSat(total, ingressBytes);
      total := AddSat(total, sendBytes);
      total := AddSat(total, inflightBytes);
      total := AddSat(total, scratchBytes);
      total := AddSat(total, tlsBytes);
    }

    method IngressBytes() returns (total: nat)
      requires Valid()
      ensures total == IngressSide(live)
    {
      total := queueBytes;
      total := AddSat(total, ingressBytes);
      total := AddSat(total, tlsBytes);
    }

    /** The saturating arithmetic and its special cases decide the plain inequality. */
    method HasSpace(need: nat, forSend: bool) returns (ok: bool)
      requires Valid() && need < WORD
      ensures ok == Room(limits, live, need, forSend)
    {
      if limits.maxBuffer <= 0 {
        return true;
      }
      var maxBuffer: nat := limits.maxBuffer;
      if forSend {
        var total := BufferedBytes();
        return FitsLimit(total, need, maxBuffer);
      }
      var reserved := limits.reserved;
      if reserved > maxBuffer {
        reserved := maxBuffer;
      }
      var ingressLimit := maxBuffer - reserved;
      var sendSide := sendBytes;
      sendSide := AddSat(sendSide, inflightBytes);
      sendSide := AddSat(sendSide, scratchBytes);
      var ingress := IngressBytes();
      if sendSide > reserved {
        var over := sendSide - reserved;
        if over >= ingressLimit {
          return need == 0 && ingress == 0;
        }
        ingressLimit := ingressLimit - over;
      }
      return FitsLimit(ingress, need, ingressLimit);
    }

    /** Without a limit nothing is refused; then the bytes live at once must still fit in memory. */
    ghost predicate Addressable(n: nat)
      reads this
    {
      n < WORD && (limits.maxBuffer <= 0 ==> Total(live) + n < WORD)
    }

    /** No clamp is ever reached: whatever is released is part of its counter. */
    lemma ReleasesAreCovered()
      requires Valid()
      ensures forall i :: 0 <= i < |live.raw| ==> live.raw[i] <= queueBytes
      ensures forall i :: 0 <= i < |live.sealed| ==> live.sealed[i] <= queueBytes
      ensures forall i :: 0 <= i < |live.ingress| ==> live.ingress[i] <= ingressBytes
      ensures forall i :: 0 <= i < |live.send| ==> live.send[i] <= sendBytes
      ensures forall i :: 0 <= i < |live.inflight| ==> live.inflight[i] <= inflightBytes
      ensures forall i :: 0 <= i < |live.scratch| ==> live.scratch[i] <= scratchBytes
    {
      ElementsCovered(live.raw);
      ElementsCovered(live.sealed);
      ElementsCovered(live.ingress);
      ElementsCovered(live.send);
      ElementsCovered(live.inflight);
      ElementsCovered(live.scratch);
    }

    /** The buffers take a step. */
    ghost method Advance(step: Step)
      requires Sensible(limits) && WithinBudget(limits, live) && Total(live) < WORD
      requires Enabled(limits, live, step)
      requires Admission(step) || Reservation(step) ==> Addressable(step.n)
      modifies this`live
      ensures live == Apply(old(live), step)
      ensures Sensible(limits) && WithinBudget(limits, live) && Total(live) < WORD
      ensures Moves(old(live), ChangeOf(old(live), step), live)
    {
      Conserves(live, step);
      ChangeBound(limits, live, step);
      ApplyWithinBudget(limits, live, step);
      live := Apply(live, step);
    }

    // ---- writers ----

    method AdmitRaw(n: nat) returns (ok: bool)
      requires Valid() && 0 < n && Addressable(n)
      modifies this
      ensures Valid() && ok == Room(limits, old(live), n, false)
      ensures live == if ok then Apply(old(live), Step.AdmitRaw(n)) else old(live)
    {
      ok := HasSpace(n, false);
      if ok {
        queueBytes := AddWrap(queueBytes, n);
        Advance(Step.AdmitRaw(n));
      }
    }

    /** The producer was closed between admission and the push. */
    method CancelRaw(n: nat, ghost i: nat)
      requires Valid() && i < |live.raw| && live.raw[i] == n
      modifies this
      ensures Valid() && live == Apply(old(live), Step.CancelRaw(i))
    {
      SumDrop(live.raw, i);
      queueBytes := SubClamp(queueBytes, n);
      Advance(Step.CancelRaw(i));
    }

    /** The worker takes a raw record; the subtraction is not clamped and does not wrap. */
    method PopRaw(n: nat, ghost i: nat)
      requires Valid() && i < |live.raw| && live.raw[i] == n
      modifies this
      ensures Valid() && live == Apply(old(live), Step.PopRaw(i))
    {
      SumDrop(live.raw, i);
      queueBytes := SubWrap(queueBytes, n);
      Advance(Step.PopRaw(i));
    }

    /** Reserves the estimate, encodes `delta` bytes into a builder and settles the
        difference. When the key queue is refused the reservation is given back.
        The counters stay exact whatever `delta` is; the budget holds exactly when
        there was room for what was encoded, so whenever the estimate covers it. */
    method AdmitKv(estimated: nat, delta: nat, refused: bool, ghost into: Builder) returns (ok: bool)
      requires Valid() && Addressable(estimated) && Total(live) + delta < WORD
      modifies this
      ensures Counts() && ok == (Room(limits, old(live), estimated, false) && !refused)
      ensures live == if ok then Apply(old(live), Step.AdmitKv(delta, into)) else old(live)
      ensures Valid() <==> !ok || Room(limits, old(live), delta, false)
      ensures delta <= estimated ==> Valid()
    {
      hide Sum, SumOpen;
      ok := HasSpace(estimated, false);
      if !ok {
        return;
      }
      queueBytes := AddWrap(queueBytes, estimated);
      if refused {
        queueBytes := SubClamp(queueBytes, estimated);
        return false;
      }
      queueBytes := Settle(queueBytes, estimated, delta);
      Conserves(live, Step.AdmitKv(delta, into));
      live := Apply(live, Step.AdmitKv(delta, into));
    }

    method AdmitBatch(n: nat) returns (ok: bool)
      requires Valid() && Addressable(n)
      modifies this
      ensures Valid() && ok == Room(limits, old(live), n, false)
      ensures live == if ok then Apply(old(live), Step.AdmitBatch(n)) else old(live)
    {
      ok := HasSpace(n, false);
      if ok {
        tlsBytes := AddWrap(tlsBytes, n);
        Advance(Step.AdmitBatch(n));
      }
    }

    /** The thread encodes what it had reserved for into its own batch, outside the
        lock, and settles the difference. */
    method AppendBatch(estimated: nat, delta: nat, ghost i: nat, ghost batch: nat)
      requires Valid() && i < |live.pending| && live.pending[i] == estimated && batch <= |live.batches|
      requires Total(live) + delta < WORD
      modifies this
      ensures Counts() && live == Apply(old(live), Step.AppendBatch(i, delta, batch))
      ensures delta <= estimated ==> Valid()
    {
      SumDrop(live.pending, i);
      tlsBytes := SettleThread(tlsBytes, estimated, delta);
      Conserves(live, Step.AppendBatch(i, delta, batch));
      live := Apply(live, Step.AppendBatch(i, delta, batch));
    }

    method DropBatch(n: nat, ghost i: nat)
      requires Valid() && i < |live.batches| && live.batches[i] == n
      modifies this
      ensures Valid() && live == Apply(old(live), Step.DropBatch(i))
    {
      SumDrop(live.batches, i);
      if n > 0 {
        tlsBytes := SubWrap(tlsBytes, n);
      }
      Advance(Step.DropBatch(i));
    }

    /** A flushed batch goes onto the ingress queue. The room asked for before does
        not matter here: waiting for a free slot gives up the lock. */
    method MoveToIngress(n: nat, ghost i: nat)
      requires Valid() && i < |live.batches| && live.batches[i] == n
      modifies this
      ensures Valid() && live == Apply(old(live), Step.MoveToIngress(i))
    {
      SumDrop(live.batches, i);
      ingressBytes := AddWrap(ingressBytes, n);
      tlsBytes := SubWrap(tlsBytes, n);
      Advance(Step.MoveToIngress(i));
    }

    method MergeBatch(n: nat, ghost i: nat, ghost into: Builder)
      requires Valid() && i < |live.batches| && live.batches[i] == n
      modifies this
      ensures Valid() && live == Apply(old(live), Step.MergeBatch(i, into))
    {
      SumDrop(live.batches, i);
      queueBytes := AddWrap(queueBytes, n);
      tlsBytes := SubWrap(tlsBytes, n);
      Advance(Step.MergeBatch(i, into));
    }

    // ---- the worker ----

    method MergeIngress(n: nat, ghost i: nat, ghost into: Builder)
      requires Valid() && i < |live.ingress| && live.ingress[i] == n
      modifies this
      ensures Valid() && live == Apply(old(live), Step.MergeIngress(i, into))
    {
      SumDrop(live.ingress, i);
      ingressBytes := SubClamp(ingressBytes, n);
      queueBytes := AddWrap(queueBytes, n);
      Advance(Step.MergeIngress(i, into));
    }

    method DropIngress(n: nat, ghost i: nat)
      requires Valid() && i < |live.ingress| && live.ingress[i] == n
      modifies this
      ensures Valid() && live == Apply(old(live), Step.DropIngress(i))
    {
      SumDrop(live.ingress, i);
      ingressBytes := SubClamp(ingressBytes, n);
      Advance(Step.DropIngress(i));
    }

    /** A builder goes onto the sealed list; its bytes stay counted. */
    method SealBuilder(ghost b: Builder)
      requires Valid() && b in live.open
      modifies this`live
      ensures Valid() && live == Apply(old(live), Step.Seal(b))
    {
      Advance(Step.Seal(b));
    }

    /** Freeing keys along with their builders changes no counter: what the
        builders held stays in `queue_bytes`, which then counts more than is live. */
    method FreeKeyBuilders(ghost keys: set<Key>)
      requires Valid()
      modifies this`live
      ensures Valid() && live == Apply(old(live), Step.FreeKeys(keys))
      ensures queueBytes - QueueSide(live) == old(queueBytes - QueueSide(live)) + Held(old(live.open), keys)
    {
      SumHeld(live.open, keys);
      Advance(Step.FreeKeys(keys));
    }

    /** The worker is done with a sealed builder. */
    method ReleaseBuilder(n: nat, ghost i: nat)
      requires Valid() && i < |live.sealed| && live.sealed[i] == n
      modifies this
      ensures Valid() && live == Apply(old(live), Step.ReleaseBuilder(i))
    {
      SumDrop(live.sealed, i);
      queueBytes := SubClamp(queueBytes, n);
      Advance(Step.ReleaseBuilder(i));
    }

    // ---- the send side ----

    method ReserveSend(n: nat) returns (ok: bool)
      requires Valid() && Addressable(n)
      modifies this
      ensures Valid() && ok == (n == 0 || Room(limits, old(live), n, true))
      ensures live == if ok && n > 0 then Apply(old(live), Step.ReserveSend(n)) else old(live)
    {
      if n == 0 {
        return true;
      }
      ok := HasSpace(n, true);
      if ok {
        sendBytes := AddWrap(sendBytes, n);
        Advance(Step.ReserveSend(n));
      }
    }

    method ReleaseSend(n: nat, ghost i: nat)
      requires Valid() && (n > 0 ==> i < |live.send| && live.send[i] == n)
      modifies this
      ensures Valid() && live == if n == 0 then old(live) else Apply(old(live), Step.ReleaseSend(i))
    {
      if n == 0 {
        return;
      }
      SumDrop(live.send, i);
      sendBytes := SubClamp(sendBytes, n);
      Advance(Step.ReleaseSend(i));
    }

    method MoveToInflight(n: nat, ghost i: nat)
      requires Valid() && (n > 0 ==> i < |live.send| && live.send[i] == n)
      modifies this
      ensures Valid() && live == if n == 0 then old(live) else Apply(old(live), Step.MoveToInflight(i))
    {
      if n == 0 {
        return;
      }
      SumDrop(live.send, i);
      sendBytes := SubClamp(sendBytes, n);
      inflightBytes := AddWrap(inflightBytes, n);
      Advance(Step.MoveToInflight(i));
    }

    method ReleaseInflight(n: nat, ghost i: nat)
      requires Valid() && (n > 0 ==> i < |live.inflight| && live.inflight[i] == n)
      modifies this
      ensures Valid() && live == if n == 0 then old(live) else Apply(old(live), Step.ReleaseInflight(i))
    {
      if n == 0 {
        return;
      }
      SumDrop(live.inflight, i);
      inflightBytes := SubClamp(inflightBytes, n);
      Advance(Step.ReleaseInflight(i));
    }

    method ReserveScratch(n: nat) returns (ok: bool)
      requires Valid() && Addressable(n)
      modifies this
      ensures Valid() && ok == (n == 0 || Room(limits, old(live), n, true))
      ensures live == if ok && n > 0 then Apply(old(live), Step.ReserveScratch(n)) else old(live)
    {
      if n == 0 {
        return true;
      }
      ok := HasSpace(n, true);
      if ok {
        scratchBytes := AddWrap(scratchBytes, n);
        Advance(Step.ReserveScratch(n));
      }
    }

    method ReleaseScratch(n: nat, ghost i: nat)
      requires Valid() && (n > 0 ==> i < |live.scratch| && live.scratch[i] == n)
      modifies this
      ensures Valid() && live == if n == 0 then old(live) else Apply(old(live), Step.ReleaseScratch(i))
    {
      if n == 0 {
        return;
      }
      SumDrop(live.scratch, i);
      scratchBytes := SubClamp(scratchBytes, n);
      Advance(Step.ReleaseScratch(i));
    }
  }
}
