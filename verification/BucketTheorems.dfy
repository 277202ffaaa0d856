/** What holds over runs of one bucket: acquiring and refunding, changing the maximum, admission. */
module BucketTheorems {
  import opened Types
  import opened TokenBucket

  // ---------------------------------------------------------------- acquire, then refund

  /** A granted acquire of `u` at `t0`, whatever else happened, and its refund in full at `t1`. */
  function AcquiredAndRefunded(b: Bucket, u: real, t0: real, ops: seq<Op>, t1: real): (r: Bucket)
    requires Sound(b) && u >= 0.0 && AllPossible(ops)
    ensures Sound(r)
  {
    Apply(ApplyAll(Apply(b, Take(u, t0)), ops), Refund(u, t1))
  }

  /** The refund brings the lower bucket to at least the higher one. It overshoots by more than `u` exactly when
    the higher one is more than `u` below minus the maximum: the clamp then forgives debt. */
  lemma RefundClosesGap(lo: Bucket, hi: Bucket, u: real, t: real)
    requires ReadWithin(lo, hi, u, t) && u >= 0.0
    ensures var back := Apply(lo, Refund(u, t));
            && ReadWithin(hi, back, Read(back, t) - Read(hi, t), t)
            && (Read(back, t) <= Read(hi, t) + u <==> Read(hi, t) + u >= -hi.max)
  {
    NoTimePasses(Apply(lo, Refund(u, t)), t);
    hide Raw;
    assert Read(hi, t) <= hi.max;
  }

  /** No operation but a change of the maximum takes a bucket below minus its maximum. */
  lemma {:induction false} DebtIsBounded(b: Bucket, from: real, ops: seq<Op>, to: real)
    requires Sound(b) && AllPossible(ops) && InOrder(from, ops, to) && WrittenBy(b, from)
    requires Read(b, from) >= -b.max
    requires forall i :: 0 <= i < |ops| ==> !ops[i].SetMax?
    ensures Read(ApplyAll(b, ops), to) >= -ApplyAll(b, ops).max && ApplyAll(b, ops).max == b.max
    decreases |ops|
  {
    if ops == [] {
      ReadLater(b, from, to);
      AccruedPositive(Rate(b.max, b.per), from, to);
    } else {
      ReadLater(b, from, ops[0].at);
      AccruedPositive(Rate(b.max, b.per), from, ops[0].at);
      NoTimePasses(Apply(b, ops[0]), ops[0].at);
      hide Raw, Accrued, Rate;
      DebtIsBounded(Apply(b, ops[0]), ops[0].at, ops[1..], to);
    }
  }

  lemma TakeOpensGap(b: Bucket, u: real, t: real)
    requires Sound(b) && WrittenBy(b, t) && 0.0 <= u <= Read(b, t)
    ensures ReadWithin(Apply(b, Take(u, t)), b, u, t)
    ensures b.stored.Some? && Raw(b, t) <= b.max ==> RawWithin(Apply(b, Take(u, t)), b, u, t)
  {
    NoTimePasses(Apply(b, Take(u, t)), t);
    hide Rate, Accrued;
  }

  lemma RawIsReadWithin(lo: Bucket, hi: Bucket, d: real, t: real)
    requires RawWithin(lo, hi, d, t) && d >= 0.0
    ensures ReadWithin(lo, hi, d, t)
  {
    hide Raw;
  }

  /** While the maximum is fixed, acquiring and refunding in full, with anything in between,
    leaves between what never acquiring leaves and that much plus what was acquired. */
  lemma RefundRestoresAtFixedMaximum(b: Bucket, u: real, t0: real, ops: seq<Op>, t1: real, t: real)
    requires Sound(b) && WrittenBy(b, t0) && 0.0 <= u <= Read(b, t0)
    requires AllPossible(ops) && InOrder(t0, ops, t1) && t1 <= t
    requires forall i :: 0 <= i < |ops| ==> !ops[i].SetMax?
    ensures Read(ApplyAll(b, ops), t) <= Read(AcquiredAndRefunded(b, u, t0, ops, t1), t)
    ensures Read(AcquiredAndRefunded(b, u, t0, ops, t1), t) <= Read(ApplyAll(b, ops), t) + u
  {
    var lo := Apply(b, Take(u, t0));
    var never, back := ApplyAll(b, ops), AcquiredAndRefunded(b, u, t0, ops, t1);
    TakeOpensGap(b, u, t0);
    RunsKeepReadWithin(lo, b, u, t0, ops, t1);
    DebtIsBounded(b, t0, ops, t1);
    RefundClosesGap(ApplyAll(lo, ops), never, u, t1);
    ReadWithinLater(never, back, Read(back, t1) - Read(never, t1), t1, t);
  }

  /** With maximum changes in between, the lower bound still holds for a bucket with nothing hidden above its
    maximum; the upper one exactly when, at the refund, the debt is within the maximum in force then. */
  lemma RefundRestores(b: Bucket, u: real, t0: real, ops: seq<Op>, t1: real, t: real)
    requires Sound(b) && WrittenBy(b, t0) && 0.0 <= u <= Read(b, t0)
    requires AllPossible(ops) && InOrder(t0, ops, t1) && t1 <= t
    requires b.stored.Some? && Raw(b, t0) <= b.max
    ensures var never, back := ApplyAll(b, ops), AcquiredAndRefunded(b, u, t0, ops, t1);
            && Read(never, t) <= Read(back, t)
            && (Read(back, t1) <= Read(never, t1) + u <==> Read(never, t1) + u >= -never.max)
            && (Read(never, t1) + u >= -never.max ==> Read(back, t) <= Read(never, t) + u)
  {
    var lo := Apply(b, Take(u, t0));
    var never, back := ApplyAll(b, ops), AcquiredAndRefunded(b, u, t0, ops, t1);
    TakeOpensGap(b, u, t0);
    RunsKeepRawWithin(lo, b, u, t0, ops, t1);
    RawIsReadWithin(ApplyAll(lo, ops), never, u, t1);
    RefundClosesGap(ApplyAll(lo, ops), never, u, t1);
    ReadWithinLater(never, back, Read(back, t1) - Read(never, t1), t1, t);
  }

  /** The clamp can forgive debt: take 10 of 100, consume 180, lower the maximum to 50, refund the 10. That
    leaves -50 where never acquiring leaves -80. */
  lemma LoweringCanForgiveDebt(b: Bucket)
    requires b.stored == Some(Stored(100.0, 0.0)) && b.max == 100.0 && b.per > 0.0
    ensures Read(Apply(Apply(b, Consume(180.0, 0.0)), SetMax(50.0, 0.0)), 0.0) == -80.0
    ensures Read(Apply(Apply(Apply(Apply(b, Take(10.0, 0.0)), Consume(180.0, 0.0)), SetMax(50.0, 0.0)),
                       Refund(10.0, 0.0)), 0.0) == -50.0
  {
    hide Rate;
    NoTimePasses(b, 0.0);
    var taken := Apply(b, Take(10.0, 0.0));
    NoTimePasses(taken, 0.0);
    var consumed, consumed' := Apply(b, Consume(180.0, 0.0)), Apply(taken, Consume(180.0, 0.0));
    NoTimePasses(consumed, 0.0);
    NoTimePasses(consumed', 0.0);
    var lowered, lowered' := Apply(consumed, SetMax(50.0, 0.0)), Apply(consumed', SetMax(50.0, 0.0));
    NoTimePasses(lowered, 0.0);
    NoTimePasses(lowered', 0.0);
    NoTimePasses(Apply(lowered', Refund(10.0, 0.0)), 0.0);
    hide Raw;
  }

  /** Never acquiring shows no more capacity than acquiring and refunding in full, over every run. */
  ghost predicate AlwaysRestored(b: Bucket, u: real, t0: real)
    requires Sound(b) && u >= 0.0
  {
    forall ops, t1, t :: AllPossible(ops) && InOrder(t0, ops, t1) && t1 <= t ==>
      Read(ApplyAll(b, ops), t) <= Read(AcquiredAndRefunded(b, u, t0, ops, t1), t)
  }

  /** An acquire writes back the capped read, so what was hidden above the maximum is gone, and so is the
    right of an untouched bucket to start full at a later maximum. */
  lemma RaisingShowsTheLoss(b: Bucket, u: real, t0: real)
    requires Sound(b) && WrittenBy(b, t0) && 0.0 <= u <= Read(b, t0)
    requires b.stored.None? || Raw(b, t0) > b.max
    ensures !AlwaysRestored(b, u, t0)
  {
    var m := if b.stored.None? then 2.0 * b.max else Raw(b, t0);
    var ops := [SetMax(m, t0)];
    assert ops[1..] == [];
    var never := Apply(b, ops[0]);
    assert ApplyAll(b, ops) == never;
    assert Read(never, t0) == m by {
      if b.stored.Some? {
        NoTimePasses(never, t0);
      }
    }
    var taken := Apply(b, Take(u, t0));
    assert ApplyAll(taken, ops) == Apply(taken, ops[0]);
    NoTimePasses(taken, t0);
    NoTimePasses(Apply(taken, ops[0]), t0);
    var back := AcquiredAndRefunded(b, u, t0, ops, t0);
    NoTimePasses(back, t0);
    assert Read(back, t0) == b.max;
    assert AllPossible(ops) && InOrder(t0, ops, t0) && Read(ApplyAll(b, ops), t0) > Read(back, t0);
  }

  /** Acquiring and refunding never costs anything, whatever happens in between, exactly when the bucket
    had been written before and showed all it held. */
  lemma RefundRestoresIff(b: Bucket, u: real, t0: real)
    requires Sound(b) && WrittenBy(b, t0) && 0.0 <= u <= Read(b, t0)
    ensures AlwaysRestored(b, u, t0) <==> b.stored.Some? && Raw(b, t0) <= b.max
  {
    if b.stored.Some? && Raw(b, t0) <= b.max {
      forall ops, t1, t | AllPossible(ops) && InOrder(t0, ops, t1) && t1 <= t
        ensures Read(ApplyAll(b, ops), t) <= Read(AcquiredAndRefunded(b, u, t0, ops, t1), t)
      {
        RefundRestores(b, u, t0, ops, t1, t);
      }
    } else {
      RaisingShowsTheLoss(b, u, t0);
    }
  }

  /** With nothing in between, a refund in full leaves exactly what never acquiring leaves. */
  lemma ImmediateRefundIsExact(b: Bucket, u: real, t0: real, t1: real, t: real)
    requires Sound(b) && WrittenBy(b, t0) && 0.0 <= u <= Read(b, t0) && t0 <= t1 <= t
    ensures Read(AcquiredAndRefunded(b, u, t0, [], t1), t) == Read(b, t)
  {
    var taken := Apply(b, Take(u, t0));
    var back := Apply(taken, Refund(u, t1));
    ReadLater(b, t0, t1);
    ReadLater(b, t1, t);
    NoTimePasses(taken, t0);
    ReadLater(taken, t0, t1);
    NoTimePasses(back, t1);
    ReadLater(back, t1, t);
    AccruedPositive(Rate(b.max, b.per), t0, t1);
    AccruedPositive(Rate(b.max, b.per), t1, t);
    hide Rate, Accrued, Raw;
  }

  // ---------------------------------------------------------------- changing the maximum

  datatype MaxChange = MaxChange(value: real, at: real)

  function Changes(sets: seq<MaxChange>): (ops: seq<Op>)
    ensures |ops| == |sets|
    ensures forall i :: 0 <= i < |sets| ==> ops[i] == SetMax(sets[i].value, sets[i].at)
  {
    seq(|sets|, i requires 0 <= i < |sets| => SetMax(sets[i].value, sets[i].at))
  }

  predicate Positive(sets: seq<MaxChange>) {
    forall i :: 0 <= i < |sets| ==> sets[i].value > 0.0
  }

  function FinalMax(max: real, sets: seq<MaxChange>): real {
    if sets == [] then max else sets[|sets| - 1].value
  }

  /** The sum of each maximum's rate times the interval it was in force. */
  function Refilled(max: real, per: real, from: real, sets: seq<MaxChange>, to: real): real
    requires per > 0.0
    decreases |sets|
  {
    if sets == [] then Accrued(Rate(max, per), from, to)
    else Accrued(Rate(max, per), from, sets[0].at) + Refilled(sets[0].value, per, sets[0].at, sets[1..], to)
  }

  /** A read after any list of maximum changes is the final maximum, capping what was stored and all that
    was refilled at each rate meanwhile. */
  lemma {:induction false} ReadAfterChanges(b: Bucket, sets: seq<MaxChange>, now: real)
    requires Sound(b) && b.stored.Some? && Positive(sets)
    ensures AllPossible(Changes(sets))
    ensures var b' := ApplyAll(b, Changes(sets));
            && b'.max == FinalMax(b.max, sets) && b'.stored.Some?
            && Raw(b', now) == b.stored.value.capacity + Refilled(b.max, b.per, b.stored.value.last, sets, now)
            && Read(b', now) == Min(FinalMax(b.max, sets),
                                    b.stored.value.capacity + Refilled(b.max, b.per, b.stored.value.last, sets, now))
    decreases |sets|
  {
    if sets != [] {
      assert Changes(sets)[1..] == Changes(sets[1..]);
      ReadAfterChanges(Apply(b, Changes(sets)[0]), sets[1..], now);
    }
  }

  /** Lowering the maximum and raising it again later costs exactly the difference in refill while it was low:
    whatever was held above the low maximum is back. */
  lemma LoweringThenRaisingCostsOnlyRefill(b: Bucket, low: real, t1: real, t2: real, now: real)
    requires Sound(b) && WrittenBy(b, t1) && low > 0.0 && t1 <= t2 <= now
    ensures var b' := Apply(Apply(b, SetMax(low, t1)), SetMax(b.max, t2));
            var cost := Accrued(Rate(b.max, b.per), t1, t2) - Accrued(Rate(low, b.per), t1, t2);
            Read(b', now) == if b.stored.None? then b.max else Min(b.max, Raw(b, now) - cost)
  {
    if b.stored.Some? {
      var lowered := Apply(b, SetMax(low, t1));
      NoTimePasses(lowered, t1);
      ReadLater(lowered, t1, t2);
      var raised := Apply(lowered, SetMax(b.max, t2));
      NoTimePasses(raised, t2);
      ReadLater(raised, t2, now);
      ReadLater(b, t1, t2);
      ReadLater(b, t2, now);
      hide Accrued, Rate;
    }
  }

  /** Done at one instant it costs nothing. */
  lemma LoweringThenRaisingLosesNothing(b: Bucket, low: real, at: real, now: real)
    requires Sound(b) && WrittenBy(b, at) && low > 0.0 && at <= now
    ensures Read(Apply(Apply(b, SetMax(low, at)), SetMax(b.max, at)), now) == Read(b, now)
  {
    LoweringThenRaisingCostsOnlyRefill(b, low, at, at, now);
  }

  /** Setting the maximum to what it is changes no read after any later run. */
  lemma ResettingIsInvisible(b: Bucket, at: real, ops: seq<Op>, now: real)
    requires Sound(b) && WrittenBy(b, at) && AllPossible(ops) && InOrder(at, ops, now)
    ensures Read(ApplyAll(Apply(b, SetMax(b.max, at)), ops), now) == Read(ApplyAll(b, ops), now)
  {
    var b' := Apply(b, SetMax(b.max, at));
    if b.stored.None? {
      assert b' == b;
    } else {
      NoTimePasses(b', at);
      assert RawWithin(b, b', 0.0, at);
      RunsKeepRawWithin(b, b', 0.0, at, ops, now);
    }
  }

  // ---------------------------------------------------------------- admission

  function GrantedBy(op: Op): real {
    if op.Take? then op.usage else 0.0
  }

  function CreditedBy(op: Op): real {
    if op.Refund? then Max(0.0, op.amount) else 0.0
  }

  function Granted(ops: seq<Op>): real {
    if ops == [] then 0.0 else GrantedBy(ops[0]) + Granted(ops[1..])
  }

  function Credited(ops: seq<Op>): real {
    if ops == [] then 0.0 else CreditedBy(ops[0]) + Credited(ops[1..])
  }

  function Moved(from: Option<real>, to: real): real {
    if from.Some? then Elapsed(from.value, to) else 0.0
  }

  /** The forward moves of the clock from one write to the next; the clock may also be set back. */
  function ForwardMoves(from: Option<real>, ops: seq<Op>): real
    decreases |ops|
  {
    if ops == [] then 0.0 else Moved(from, ops[0].at) + ForwardMoves(Some(ops[0].at), ops[1..])
  }

  /** Every acquire in the run found what it took. */
  predicate Admissible(b: Bucket, ops: seq<Op>)
    requires Sound(b) && AllPossible(ops)
    decreases |ops|
  {
    ops == [] || ((ops[0].Take? ==> ops[0].usage <= Read(b, ops[0].at)) && Admissible(Apply(b, ops[0]), ops[1..]))
  }

  function LastWrite(b: Bucket): Option<real> {
    if b.stored.Some? then Some(b.stored.value.last) else None
  }

  /** What an acquire could take at once. */
  function Spendable(b: Bucket): real {
    if b.stored.None? then b.max else Max(0.0, Min(b.max, b.stored.value.capacity))
  }

  function RefillOf(moves: real, b: Bucket): real
    requires Sound(b)
  {
    moves * Rate(b.max, b.per)
  }

  lemma RefillAdds(m: real, n: real, b: Bucket)
    requires Sound(b)
    ensures RefillOf(m + n, b) == RefillOf(m, b) + RefillOf(n, b)
    ensures RefillOf(0.0, b) == 0.0
  {
    assert (m + n) * Rate(b.max, b.per) == m * Rate(b.max, b.per) + n * Rate(b.max, b.per);
  }

  /** What the clock's move to this operation refills. */
  function Refill(b: Bucket, op: Op): real
    requires Sound(b)
  {
    RefillOf(Moved(LastWrite(b), op.at), b)
  }

  lemma ReadIsSpendable(b: Bucket, op: Op)
    requires Sound(b)
    ensures Read(b, op.at) <= Spendable(b) + Refill(b, op) && Refill(b, op) >= 0.0
  {
    if b.stored.Some? {
      AccruedPositive(Rate(b.max, b.per), b.stored.value.last, op.at);
      assert Refill(b, op) == Accrued(Rate(b.max, b.per), b.stored.value.last, op.at);
    }
    hide Rate, Accrued;
  }

  lemma SpendableGrowsByRefill(b: Bucket, op: Op)
    requires Sound(b) && Possible(op) && !op.SetMax?
    requires op.Take? ==> op.usage <= Read(b, op.at)
    ensures Spendable(Apply(b, op)) <= Spendable(b) + Refill(b, op) - GrantedBy(op) + CreditedBy(op)
  {
    ReadIsSpendable(b, op);
    hide Raw, Refill;
  }

  /** Over any consecutive part of any run with a fixed maximum, what was granted less what was credited
    is at most one full bucket and the refill of every forward move of the clock. */
  lemma {:induction false} AdmissionBound(b: Bucket, ops: seq<Op>)
    requires Sound(b) && AllPossible(ops) && Admissible(b, ops)
    requires forall i :: 0 <= i < |ops| ==> !ops[i].SetMax?
    ensures Granted(ops) - Credited(ops) <= Spendable(b) + RefillOf(ForwardMoves(LastWrite(b), ops), b)
    ensures Granted(ops) - Credited(ops) <= b.max + RefillOf(ForwardMoves(LastWrite(b), ops), b)
    decreases |ops|
  {
    hide Rate, Read, RefillOf;
    if ops == [] {
      RefillAdds(0.0, 0.0, b);
    } else {
      var op, later := ops[0], Apply(b, ops[0]);
      SpendableGrowsByRefill(b, op);
      AdmissionBound(later, ops[1..]);
      RefillAdds(Moved(LastWrite(b), op.at), ForwardMoves(Some(op.at), ops[1..]), b);
      SameRefill(ForwardMoves(Some(op.at), ops[1..]), b, later);
      hide Apply;
    }
  }

  lemma SameRefill(moves: real, b: Bucket, b': Bucket)
    requires Sound(b) && Sound(b') && b'.max == b.max && b'.per == b.per
    ensures RefillOf(moves, b') == RefillOf(moves, b)
  {
  }

  /** When the clock never goes back, the forward moves add up to the time that passed. */
  lemma {:induction false} ForwardMovesAreElapsed(from: real, ops: seq<Op>, to: real)
    requires InOrder(from, ops, to)
    ensures ForwardMoves(Some(from), ops) <= to - from
    decreases |ops|
  {
    if ops != [] {
      ForwardMovesAreElapsed(ops[0].at, ops[1..], to);
    }
  }

  /** With a clock that never goes back the bound is one full bucket and the refill of the time that passed. */
  lemma AdmissionOverTime(b: Bucket, ops: seq<Op>, from: real, to: real)
    requires Sound(b) && AllPossible(ops) && Admissible(b, ops)
    requires forall i :: 0 <= i < |ops| ==> !ops[i].SetMax?
    requires b.stored.Some? && b.stored.value.last == from && InOrder(from, ops, to)
    ensures Granted(ops) - Credited(ops) <= b.max + Accrued(Rate(b.max, b.per), from, to)
  {
    hide RefillOf, Accrued, Rate, Admissible, Granted, Credited, ForwardMoves, InOrder;
    AdmissionBound(b, ops);
    ForwardMovesAreElapsed(from, ops, to);
    OrderIsTime(from, ops, to);
    RefillGrows(ForwardMoves(Some(from), ops), to - from, b);
    RefillIsAccrued(b, from, to);
  }

  lemma RefillIsAccrued(b: Bucket, from: real, to: real)
    requires Sound(b) && from <= to
    ensures RefillOf(to - from, b) == Accrued(Rate(b.max, b.per), from, to)
  {
  }

  lemma RefillGrows(m: real, n: real, b: Bucket)
    requires Sound(b) && m <= n
    ensures RefillOf(m, b) <= RefillOf(n, b)
  {
    var rate := Rate(b.max, b.per);
    assert (n - m) * rate >= 0.0;
    assert n * rate == m * rate + (n - m) * rate;
  }

  lemma {:induction false} OrderIsTime(from: real, ops: seq<Op>, to: real)
    requires InOrder(from, ops, to)
    ensures from <= to
    decreases |ops|
  {
    if ops != [] {
      OrderIsTime(ops[0].at, ops[1..], to);
    }
  }
}
