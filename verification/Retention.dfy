/** How long an idle bucket row is kept, and why dropping it afterwards is not noticed. */
module Retention {
  import opened Types
  import opened TokenBucket
  import opened BucketTheorems

  const MAX_STATE_TTL_SECONDS := 2147483647

  function Ceiling(x: real): (n: int)
    ensures x <= n as real < x + 1.0
  {
    -((-x).Floor)
  }

  lemma CeilingWithin(x: real, n: int)
    requires x <= n as real
    ensures Ceiling(x) <= n
  {
  }

  lemma ProductPositive(a: real, b: real)
    requires a > 0.0 && b > 0.0
    ensures a * b > 0.0
  {
  }

  lemma FactorPositive(x: real, b: real)
    requires b > 0.0 && x * b > 0.0
    ensures x > 0.0
  {
  }

  lemma QuotientTimes(a: real, b: real)
    requires b != 0.0
    ensures a / b * b == a
  {
  }

  lemma QuotientIs(a: real, b: real, c: real)
    requires b != 0.0 && c * b == a
    ensures a / b == c
  {
    QuotientTimes(a, b);
    assert (a / b - c) * b == 0.0;
  }

  lemma NegatedQuotient(a: real, b: real)
    requires b != 0.0
    ensures -a / b == -(a / b)
  {
    QuotientTimes(a, b);
    QuotientIs(-a, b, -(a / b));
  }

  lemma QuotientBelowOne(a: real, b: real)
    requires 0.0 < a < b
    ensures 0.0 < a / b < 1.0
  {
    QuotientTimes(a, b);
    FactorPositive(a / b, b);
    assert (1.0 - a / b) * b == b - a;
    FactorPositive(1.0 - a / b, b);
  }

  /** Seconds from the write until a debt is repaid at the slower rate, and one full window more. */
  function Repayment(capacity: real, per: real, slower: real): real
    requires slower > 0.0
  {
    (1.0 + -capacity / slower) * per
  }

  /** `debt_ttl_seconds`; `None` when the debt would have to be kept longer than a deadline can say. */
  function DebtTtl(capacity: real, bucketTtl: int, per: real, max: real, configured: real): Option<int>
    requires max > 0.0 && configured > 0.0 && per > 0.0
  {
    if capacity >= 0.0 then Some(bucketTtl)
    else
      var required := Repayment(capacity, per, Min(max, configured));
      if required > MAX_STATE_TTL_SECONDS as real then None
      else Some(if bucketTtl >= Ceiling(required) then bucketTtl else Ceiling(required))
  }

  /** The least deadline, in whole seconds, that is no shorter than the configured one and lets the debt be repaid at
    the slower maximum with one window to spare; refused when that is out of reach. */
  lemma DebtTtlIsLeast(capacity: real, bucketTtl: int, per: real, max: real, configured: real)
    requires max > 0.0 && configured > 0.0 && per > 0.0 && capacity < 0.0
    ensures var slower := if max < configured then max else configured;
            var needed := per + -capacity / slower * per;
            var ttl := DebtTtl(capacity, bucketTtl, per, max, configured);
            && (ttl.None? <==> needed > 2147483647.0)
            && (ttl.Some? ==>
                  && ttl.value >= bucketTtl && ttl.value as real >= needed
                  && (ttl.value == bucketTtl || ttl.value as real < needed + 1.0))
  {
    var slower := if max < configured then max else configured;
    Distributed(-capacity / slower, per);
  }

  lemma Distributed(windows: real, per: real)
    ensures (1.0 + windows) * per == per + windows * per
  {
  }

  lemma PositiveKeepsConfigured(capacity: real, bucketTtl: int, per: real, max: real, configured: real)
    requires max > 0.0 && configured > 0.0 && per > 0.0 && capacity >= 0.0
    ensures DebtTtl(capacity, bucketTtl, per, max, configured) == Some(bucketTtl)
  {
  }

  // ---------------------------------------------------------------- repayment

  /** One window refills one maximum. */
  lemma WindowRefills(max: real, per: real, from: real)
    requires max > 0.0 && per > 0.0
    ensures Accrued(Rate(max, per), from, from + per) == max
  {
    assert per * (max / per) == max;
  }

  /** At the slower rate, the repayment time less one window refills exactly the debt. */
  lemma DebtRefills(capacity: real, per: real, slower: real, from: real)
    requires slower > 0.0 && per > 0.0 && capacity <= 0.0
    ensures Repayment(capacity, per, slower) - per >= 0.0
    ensures Accrued(Rate(slower, per), from, from + (Repayment(capacity, per, slower) - per)) == -capacity
  {
    var windows := -capacity / slower;
    assert windows >= 0.0;
    assert Repayment(capacity, per, slower) - per == windows * per by {
      assert (1.0 + windows) * per == per + windows * per;
    }
    assert windows * per >= 0.0;
    assert windows * per * (slower / per) == windows * slower by {
      assert per * (slower / per) == slower;
    }
    assert windows * slower == -capacity;
  }

  lemma MoreTimeRefillsMore(rate: real, from: real, to: real, later: real)
    requires rate >= 0.0 && from <= to <= later
    ensures Accrued(rate, from, to) <= Accrued(rate, from, later)
  {
    AccruedSplits(rate, from, to, later);
    AccruedPositive(rate, to, later);
  }

  lemma DebtTtlCovers(capacity: real, bucketTtl: int, per: real, max: real, configured: real)
    requires max > 0.0 && configured > 0.0 && per > 0.0
    requires DebtTtl(capacity, bucketTtl, per, max, configured).Some?
    ensures DebtTtl(capacity, bucketTtl, per, max, configured).value >= bucketTtl
    ensures capacity < 0.0 ==>
              Repayment(capacity, per, Min(max, configured))
              <= DebtTtl(capacity, bucketTtl, per, max, configured).value as real
  {
  }

  lemma OrdinaryRepayment(capacity: real, per: real, max: real)
    requires max > 0.0 && per > 0.0 && -max <= capacity < 0.0
    ensures Repayment(capacity, per, max) <= 2.0 * per
  {
    var windows := -capacity / max;
    assert windows <= 1.0 by {
      assert windows * max == -capacity;
    }
    assert (1.0 + windows) * per <= 2.0 * per by {
      var slack := 1.0 - windows;
      assert slack * per >= 0.0;
      assert (1.0 + windows) * per + slack * per == 2.0 * per;
    }
  }

  /** Debt down to minus the maximum needs no more than the two windows every accepted configuration grants. */
  lemma OrdinaryDebtFits(capacity: real, bucketTtl: int, per: real, max: real)
    requires max > 0.0 && per > 0.0 && capacity >= -max
    requires bucketTtl as real >= 2.0 * per && bucketTtl <= MAX_STATE_TTL_SECONDS
    ensures DebtTtl(capacity, bucketTtl, per, max, max) == Some(bucketTtl)
  {
    if capacity < 0.0 {
      OrdinaryRepayment(capacity, per, max);
      hide Repayment;
      CeilingWithin(Repayment(capacity, per, max), bucketTtl);
    }
  }

  /** With one maximum, a bucket idle past its deadline reads full. */
  lemma IdleIsFull(b: Bucket, bucketTtl: int, now: real)
    requires Sound(b) && b.stored.Some? && bucketTtl as real >= b.per
    requires DebtTtl(b.stored.value.capacity, bucketTtl, b.per, b.max, b.max).Some?
    requires now >= b.stored.value.last + DebtTtl(b.stored.value.capacity, bucketTtl, b.per, b.max, b.max).value as real
    ensures Read(b, now) == b.max
  {
    var s := b.stored.value;
    var rate := Rate(b.max, b.per);
    hide Accrued, Rate, Repayment;
    DebtTtlCovers(s.capacity, bucketTtl, b.per, b.max, b.max);
    if s.capacity < 0.0 {
      var repaid := s.last + (Repayment(s.capacity, b.per, b.max) - b.per);
      DebtRefills(s.capacity, b.per, b.max, s.last);
      WindowRefills(b.max, b.per, repaid);
      AccruedSplits(rate, s.last, repaid, repaid + b.per);
      MoreTimeRefillsMore(rate, s.last, repaid + b.per, now);
    } else {
      WindowRefills(b.max, b.per, s.last);
      MoreTimeRefillsMore(rate, s.last, s.last + b.per, now);
    }
  }

  // ---------------------------------------------------------------- dropping idle rows

  datatype Step = Does(op: Op) | Prunes(at: real)

  function At(step: Step): real {
    match step
    case Does(op) => op.at
    case Prunes(t) => t
  }

  predicate StepsInOrder(from: real, steps: seq<Step>, to: real)
    decreases |steps|
  {
    if steps == [] then from <= to else from <= At(steps[0]) && StepsInOrder(At(steps[0]), steps[1..], to)
  }

  predicate Ordinary(steps: seq<Step>) {
    forall i :: 0 <= i < |steps| && steps[i].Does? ==> Possible(steps[i].op) && !steps[i].op.SetMax?
  }

  /** The row is older than its deadline. */
  predicate Expired(b: Bucket, bucketTtl: int, now: real)
    requires Sound(b)
  {
    && b.stored.Some?
    && var ttl := DebtTtl(b.stored.value.capacity, bucketTtl, b.per, b.max, b.max);
       ttl.Some? && now >= b.stored.value.last + ttl.value as real
  }

  function RunPruned(b: Bucket, bucketTtl: int, steps: seq<Step>): (b': Bucket)
    requires Sound(b) && Ordinary(steps)
    ensures Sound(b')
    decreases |steps|
  {
    if steps == [] then b
    else match steps[0]
      case Does(op) => RunPruned(Apply(b, op), bucketTtl, steps[1..])
      case Prunes(t) => RunPruned(if Expired(b, bucketTtl, t) then b.(stored := None) else b, bucketTtl, steps[1..])
  }

  /** The same run on a bucket whose row is never dropped. */
  function RunKept(b: Bucket, steps: seq<Step>): (b': Bucket)
    requires Sound(b) && Ordinary(steps)
    ensures Sound(b')
    decreases |steps|
  {
    if steps == [] then b
    else match steps[0]
      case Does(op) => RunKept(Apply(b, op), steps[1..])
      case Prunes(_) => RunKept(b, steps[1..])
  }

  /** The dropped row and the kept one read alike from `t` on. */
  ghost predicate Alike(dropped: Bucket, kept: Bucket, t: real) {
    && Sound(dropped) && Sound(kept) && dropped.max == kept.max && dropped.per == kept.per
    && (dropped == kept || (dropped.stored.None? && WrittenBy(kept, t) && Read(kept, t) == kept.max))
  }

  lemma AlikeLater(dropped: Bucket, kept: Bucket, t: real, later: real)
    requires Alike(dropped, kept, t) && t <= later
    ensures Alike(dropped, kept, later) && Read(dropped, later) == Read(kept, later)
  {
    if dropped != kept {
      ReadLater(kept, t, later);
      AccruedPositive(Rate(kept.max, kept.per), t, later);
      hide Raw, Accrued, Rate;
    }
  }

  /** Dropping rows after their deadline changes no read, over any run with a fixed maximum. */
  lemma {:induction false} PruningIsInvisible(dropped: Bucket, kept: Bucket, bucketTtl: int, from: real,
                                              steps: seq<Step>, now: real)
    requires Alike(dropped, kept, from) && bucketTtl as real >= dropped.per
    requires Ordinary(steps) && StepsInOrder(from, steps, now) && WrittenBy(dropped, from)
    ensures Read(RunPruned(dropped, bucketTtl, steps), now) == Read(RunKept(kept, steps), now)
    decreases |steps|
  {
    if steps == [] {
      AlikeLater(dropped, kept, from, now);
    } else {
      var t := At(steps[0]);
      AlikeLater(dropped, kept, from, t);
      match steps[0]
      case Does(op) =>
        assert Apply(dropped, op) == Apply(kept, op) by { SameReadSameWrite(dropped, kept, op); }
        PruningIsInvisible(Apply(dropped, op), Apply(kept, op), bucketTtl, t, steps[1..], now);
      case Prunes(_) =>
        var dropped' := if Expired(dropped, bucketTtl, t) then dropped.(stored := None) else dropped;
        if Expired(dropped, bucketTtl, t) {
          IdleIsFull(dropped, bucketTtl, t);
        }
        PruningIsInvisible(dropped', kept, bucketTtl, t, steps[1..], now);
    }
  }

  lemma SameReadSameWrite(a: Bucket, b: Bucket, op: Op)
    requires Sound(a) && Sound(b) && a.max == b.max && a.per == b.per && Possible(op) && !op.SetMax?
    requires Read(a, op.at) == Read(b, op.at)
    ensures Apply(a, op) == Apply(b, op)
  {
    hide Raw, Read;
  }

  // ---------------------------------------------------------------- changing maxima

  lemma {:induction false} RefilledAtLeast(max: real, per: real, from: real, sets: seq<MaxChange>, to: real,
                                           slower: real)
    requires per > 0.0 && slower > 0.0 && max >= slower && Positive(sets)
    requires forall i :: 0 <= i < |sets| ==> sets[i].value >= slower
    requires AllPossible(Changes(sets)) && InOrder(from, Changes(sets), to)
    ensures Refilled(max, per, from, sets, to) >= Accrued(Rate(slower, per), from, to)
    decreases |sets|
  {
    if sets == [] {
      FasterRefillsMore(slower, max, per, from, to);
    } else {
      assert Changes(sets)[1..] == Changes(sets[1..]);
      OrderIsTime(sets[0].at, Changes(sets[1..]), to);
      FasterRefillsMore(slower, max, per, from, sets[0].at);
      RefilledAtLeast(sets[0].value, per, sets[0].at, sets[1..], to, slower);
      AccruedSplits(Rate(slower, per), from, sets[0].at, to);
    }
  }

  lemma FasterRefillsMore(slower: real, faster: real, per: real, from: real, to: real)
    requires 0.0 < slower <= faster && per > 0.0
    ensures Accrued(Rate(slower, per), from, to) <= Accrued(Rate(faster, per), from, to)
  {
    assert faster / per - slower / per == (faster - slower) / per;
    var seconds := Elapsed(from, to);
    assert seconds * (faster / per - slower / per) >= 0.0;
    assert seconds * (faster / per) == seconds * (slower / per) + seconds * (faster / per - slower / per);
  }

  /** However often the maximum is switched while the row is kept, as long as it never goes below the smaller
    of the two the deadline was computed for, the debt is repaid one whole window before the deadline. */
  lemma DebtIsRepaidAWindowEarly(b: Bucket, configured: real, bucketTtl: int, sets: seq<MaxChange>, now: real)
    requires Sound(b) && b.stored.Some? && b.stored.value.capacity < 0.0 && configured > 0.0 && Positive(sets)
    requires DebtTtl(b.stored.value.capacity, bucketTtl, b.per, b.max, configured).Some?
    requires forall i :: 0 <= i < |sets| ==> sets[i].value >= Min(b.max, configured)
    requires AllPossible(Changes(sets)) && InOrder(b.stored.value.last, Changes(sets), now)
    requires now >= b.stored.value.last
                    + DebtTtl(b.stored.value.capacity, bucketTtl, b.per, b.max, configured).value as real - b.per
    ensures Read(ApplyAll(b, Changes(sets)), now) >= 0.0
  {
    hide Accrued, Rate, Repayment, Refilled;
    var s := b.stored.value;
    var slower := Min(b.max, configured);
    DebtTtlCovers(s.capacity, bucketTtl, b.per, b.max, configured);
    var repaid := s.last + (Repayment(s.capacity, b.per, slower) - b.per);
    DebtRefills(s.capacity, b.per, slower, s.last);
    MoreTimeRefillsMore(Rate(slower, b.per), s.last, repaid, now);
    RefilledAtLeast(b.max, b.per, s.last, sets, now, slower);
    ReadAfterChanges(b, sets, now);
  }

  /** When in addition the maximum stays put over that last window, the bucket is full at the deadline. */
  lemma FullIfConstantAtTheEnd(b: Bucket, configured: real, bucketTtl: int, sets: seq<MaxChange>, deadline: real)
    requires Sound(b) && b.stored.Some? && b.stored.value.capacity < 0.0 && configured > 0.0 && Positive(sets)
    requires DebtTtl(b.stored.value.capacity, bucketTtl, b.per, b.max, configured).Some?
    requires forall i :: 0 <= i < |sets| ==> sets[i].value >= Min(b.max, configured)
    requires AllPossible(Changes(sets)) && InOrder(b.stored.value.last, Changes(sets), deadline - b.per)
    requires deadline == b.stored.value.last
                         + DebtTtl(b.stored.value.capacity, bucketTtl, b.per, b.max, configured).value as real
    ensures var b' := ApplyAll(b, Changes(sets));
            Read(b', deadline) == b'.max
  {
    var start := deadline - b.per;
    var b' := ApplyAll(b, Changes(sets));
    DebtIsRepaidAWindowEarly(b, configured, bucketTtl, sets, start);
    ReadAfterChanges(b, sets, start);
    ChangesWrittenBy(b, sets, start);
    ReadLater(b', start, deadline);
    WindowRefills(b'.max, b'.per, start);
    hide Raw, Accrued, Rate;
  }

  lemma {:induction false} ChangesWrittenBy(b: Bucket, sets: seq<MaxChange>, now: real)
    requires Sound(b) && b.stored.Some? && Positive(sets) && AllPossible(Changes(sets))
    requires InOrder(b.stored.value.last, Changes(sets), now)
    ensures WrittenBy(ApplyAll(b, Changes(sets)), now)
    decreases |sets|
  {
    if sets != [] {
      assert Changes(sets)[1..] == Changes(sets[1..]);
      ChangesWrittenBy(Apply(b, Changes(sets)[0]), sets[1..], now);
    }
  }

  /** Constancy is needed: a bucket at minus its maximum, switched to a higher one at the very deadline, holds
    only the old maximum, where a row that was dropped would start full at the new one. */
  lemma LateSwitchIsNotFull(b: Bucket, higher: real)
    requires Sound(b) && b.stored.Some? && b.stored.value.capacity == -b.max && higher > b.max
    ensures var deadline := b.stored.value.last + 2.0 * b.per;
            && Repayment(b.stored.value.capacity, b.per, Min(b.max, higher)) == 2.0 * b.per
            && Read(Apply(b, SetMax(higher, deadline)), deadline) == b.max
            && Read(b.(stored := None, max := higher), deadline) == higher
  {
    var last := b.stored.value.last;
    var deadline := last + 2.0 * b.per;
    assert b.max / b.max == 1.0;
    WindowRefills(b.max, b.per, last);
    WindowRefills(b.max, b.per, last + b.per);
    hide Accrued, Rate;
    AccruedSplits(Rate(b.max, b.per), last, last + b.per, last + b.per + b.per);
    NoTimePasses(Apply(b, SetMax(higher, deadline)), deadline);
  }

  // ---------------------------------------------------------------- the refresh script

  function ScriptRequired(capacity: real, configured: real, per: real): int
    requires configured > 0.0
  {
    Ceiling((1.0 - capacity / configured) * per)
  }

  /** The script's deadline in milliseconds. It knows only the configured maximum. */
  function ScriptTtl(capacity: Option<real>, bucketTtl: int, configured: real, per: real): Option<int>
    requires configured > 0.0
  {
    if capacity.None? || capacity.value >= 0.0 then Some(bucketTtl * 1000)
    else
      var required := ScriptRequired(capacity.value, configured, per);
      if required > MAX_STATE_TTL_SECONDS then None
      else Some(if bucketTtl >= required then bucketTtl * 1000 else required * 1000)
  }

  /** The same with the configured maximum alone, in milliseconds. */
  lemma ScriptTtlIsLeast(capacity: Option<real>, bucketTtl: int, configured: real, per: real)
    requires configured > 0.0 && per > 0.0
    ensures capacity.None? || capacity.value >= 0.0 ==>
              ScriptTtl(capacity, bucketTtl, configured, per) == Some(bucketTtl * 1000)
    ensures capacity.Some? && capacity.value < 0.0 ==>
              var needed := per + -capacity.value / configured * per;
              var ttl := ScriptTtl(capacity, bucketTtl, configured, per);
              && (ttl.None? <==> needed > 2147483647.0)
              && (ttl.Some? ==> exists seconds: int ::
                    && ttl == Some(seconds * 1000) && seconds >= bucketTtl && seconds as real >= needed
                    && (seconds == bucketTtl || seconds as real < needed + 1.0))
  {
    if capacity.Some? && capacity.value < 0.0 {
      RequiredIsRepayment(capacity.value, configured, per);
      Distributed(-capacity.value / configured, per);
      var needed := per + -capacity.value / configured * per;
      var required := ScriptRequired(capacity.value, configured, per);
      assert required == Ceiling(needed);
      if needed <= 2147483647.0 {
        CeilingWithin(needed, 2147483647);
        var seconds := if bucketTtl >= required then bucketTtl else required;
        assert ScriptTtl(capacity, bucketTtl, configured, per) == Some(seconds * 1000);
      }
    }
  }

  function Millis(seconds: Option<int>): Option<int> {
    if seconds.None? then None else Some(seconds.value * 1000)
  }

  lemma RequiredIsRepayment(capacity: real, configured: real, per: real)
    requires configured > 0.0
    ensures ScriptRequired(capacity, configured, per) == Ceiling(Repayment(capacity, per, configured))
  {
    NegatedQuotient(capacity, configured);
  }

  lemma ScriptAgreesWhenSlower(capacity: real, bucketTtl: int, per: real, max: real, configured: real)
    requires 0.0 < configured <= max && per > 0.0
    ensures ScriptTtl(Some(capacity), bucketTtl, configured, per)
            == Millis(DebtTtl(capacity, bucketTtl, per, max, configured))
  {
    RequiredIsRepayment(capacity, configured, per);
    hide ScriptRequired, Repayment;
    if Repayment(capacity, per, configured) <= MAX_STATE_TTL_SECONDS as real {
      CeilingWithin(Repayment(capacity, per, configured), MAX_STATE_TTL_SECONDS);
    }
  }

  /** An ordinary case: an override of 1 under a configured 100. The write keeps the debt for six minutes, the
    script would for two. */
  lemma ScriptFallsShort()
    ensures DebtTtl(-5.0, 120, 60.0, 1.0, 100.0) == Some(360)
    ensures ScriptTtl(Some(-5.0), 120, 100.0, 60.0) == Some(120000)
  {
    CeilingWithin(360.0, 360);
  }

  /** A debt whose repayment at `max` takes just over `seconds`, and at `configured` no longer than that. */
  lemma DebtBetween(per: real, max: real, configured: real, seconds: int) returns (debt: real)
    requires 0.0 < max < configured && 0.0 < per < seconds as real
    ensures debt > 0.0
    ensures seconds as real < Repayment(-debt, per, max) <= seconds as real + 1.0
    ensures Repayment(-debt, per, configured) <= seconds as real
  {
    var ratio, rest := max / configured, seconds as real - per;
    QuotientBelowOne(max, configured);
    var over := SomeRoom(rest, ratio);
    var windows := (rest + over) / per;
    QuotientTimes(rest + over, per);
    QuotientPositive(rest + over, per);
    debt := max * windows;
    ProductPositive(max, windows);
    QuotientIs(debt, max, windows);
    QuotientTimes(max, configured);
    assert windows * ratio * configured == debt by {
      Rearranged(windows, ratio, configured);
    }
    QuotientIs(debt, configured, windows * ratio);
    Rearranged(windows, ratio, per);
    assert (1.0 + windows) * per == per + windows * per;
    assert (1.0 + windows * ratio) * per == per + windows * ratio * per;
  }

  lemma Rearranged(a: real, b: real, c: real)
    ensures a * b * c == a * c * b && a * b * c == a * (b * c)
  {
  }

  lemma QuotientPositive(a: real, b: real)
    requires a > 0.0 && b > 0.0
    ensures a / b > 0.0
  {
  }

  lemma SomeRoom(rest: real, ratio: real) returns (over: real)
    requires 0.0 < ratio < 1.0 && rest > 0.0
    ensures 0.0 < over <= 1.0
    ensures (rest + over) * ratio <= rest
  {
    ProductPositive(rest, 1.0 - ratio);
    over := Min(1.0, rest * (1.0 - ratio));
    ProductPositive(over, 1.0 - ratio);
    assert over * ratio + over * (1.0 - ratio) == over;
    assert rest * ratio + rest * (1.0 - ratio) == rest;
    assert (rest + over) * ratio == rest * ratio + over * ratio;
  }

  /** With a slower override in force some debt that the write accepts is kept too briefly by the script. */
  lemma ScriptKeepsTooLittle(bucketTtl: int, per: real, max: real, configured: real) returns (capacity: real)
    requires 0.0 < max < configured && 0.0 < per && 2.0 * per <= bucketTtl as real && bucketTtl < MAX_STATE_TTL_SECONDS
    ensures DebtTtl(capacity, bucketTtl, per, max, configured).Some?
    ensures ScriptTtl(Some(capacity), bucketTtl, configured, per)
            != Millis(DebtTtl(capacity, bucketTtl, per, max, configured))
  {
    var debt := DebtBetween(per, max, configured, bucketTtl);
    capacity := -debt;
    RequiredIsRepayment(capacity, configured, per);
    hide ScriptRequired, Repayment;
    CeilingWithin(Repayment(capacity, per, configured), bucketTtl);
    assert Ceiling(Repayment(capacity, per, max)) > bucketTtl;
  }

  /** For a lifetime that covers the two windows, the script computes the deadline that the write computed, for every
    capacity the write accepts, exactly when the configured maximum is the smaller of the two. */
  lemma ScriptAgreesIff(bucketTtl: int, per: real, max: real, configured: real)
    requires max > 0.0 && configured > 0.0 && per > 0.0
    requires 2.0 * per <= bucketTtl as real && bucketTtl < MAX_STATE_TTL_SECONDS
    ensures (forall capacity: real :: DebtTtl(capacity, bucketTtl, per, max, configured).Some? ==>
               ScriptTtl(Some(capacity), bucketTtl, configured, per)
               == Millis(DebtTtl(capacity, bucketTtl, per, max, configured)))
            <==> configured <= max
  {
    hide DebtTtl, ScriptTtl;
    if configured <= max {
      forall capacity: real
        ensures ScriptTtl(Some(capacity), bucketTtl, configured, per)
                == Millis(DebtTtl(capacity, bucketTtl, per, max, configured))
      {
        ScriptAgreesWhenSlower(capacity, bucketTtl, per, max, configured);
      }
    } else {
      var capacity := ScriptKeepsTooLittle(bucketTtl, per, max, configured);
    }
  }

  datatype ScriptReply = Missing | Kept | Extended | Unsafe

  /** The deadlines the script sees: remaining milliseconds, -1 for none, -2 for a missing key. */
  class StateKeys {
    var capacity: Option<real>
    var state: int
    var history: int

    /** Never creates a key, never shortens a finite deadline, and keeps the history at least as long. */
    method RefreshStateTtl(bucketTtl: nat, configured: real, per: real) returns (reply: ScriptReply)
      requires configured > 0.0 && per > 0.0 && state >= -2 && history >= -2
      modifies `state, `history
      ensures reply == Unsafe <==> ScriptTtl(capacity, bucketTtl, configured, per).None?
      ensures reply == Unsafe || old(state) == -2 ==> state == old(state) && history == old(history)
      ensures reply != Unsafe && old(state) != -2 ==>
                && state == (if old(state) >= ScriptTtl(capacity, bucketTtl, configured, per).value then old(state)
                             else ScriptTtl(capacity, bucketTtl, configured, per).value)
                && state >= old(state)
                && (old(history) >= 0 ==> history >= state && history >= old(history))
                && (old(history) < 0 ==> history == old(history))
                && (history != old(history) ==> history == state)
    {
      var ttl := bucketTtl * 1000;
      if capacity.Some? && capacity.value < 0.0 {
        var required := ScriptRequired(capacity.value, configured, per);
        if required > MAX_STATE_TTL_SECONDS {
          return Unsafe;
        }
        if required * 1000 > ttl {
          ttl := required * 1000;
        }
      }
      var remaining := state;
      if remaining == -2 {
        return Missing;
      }
      var historyRequired := if ttl >= remaining then ttl else remaining;
      if history >= 0 && history < historyRequired {
        history := historyRequired;
      }
      if remaining >= ttl {
        return Kept;
      }
      state := ttl;
      return Extended;
    }
  }

  // ---------------------------------------------------------------- accepting a configuration

  datatype Quota = Quota(metric: Metric, perSeconds: int, limit: real)

  const MIN_BUCKET_TTL_WINDOWS := 2

  function TooLong(bucketTtl: int, quotas: seq<Quota>): seq<Quota> {
    if quotas == [] then []
    else
      (if MIN_BUCKET_TTL_WINDOWS * quotas[0].perSeconds > bucketTtl then [quotas[0]] else [])
      + TooLong(bucketTtl, quotas[1..])
  }

  /** Collects the offending quotas in their order; the configuration is accepted when there are none. */
  method ValidateBucketTtlCoversQuotaWindows(bucketTtl: int, quotas: seq<Quota>) returns (offending: seq<Quota>)
    ensures offending == TooLong(bucketTtl, quotas)
    ensures forall q :: multiset(offending)[q] == if 2 * q.perSeconds > bucketTtl then multiset(quotas)[q] else 0
    ensures offending == [] <==> forall i :: 0 <= i < |quotas| ==>
            bucketTtl >= MIN_BUCKET_TTL_WINDOWS * quotas[i].perSeconds
  {
    offending := [];
    for i := 0 to |quotas|
      invariant offending + TooLong(bucketTtl, quotas[i..]) == TooLong(bucketTtl, quotas)
      invariant offending == [] <==> forall j :: 0 <= j < i ==>
                bucketTtl >= MIN_BUCKET_TTL_WINDOWS * quotas[j].perSeconds
    {
      ghost var rest := TooLong(bucketTtl, quotas[i + 1..]);
      ghost var before := offending;
      assert quotas[i..][0] == quotas[i] && quotas[i..][1..] == quotas[i + 1..];
      if MIN_BUCKET_TTL_WINDOWS * quotas[i].perSeconds > bucketTtl {
        offending := offending + [quotas[i]];
        assert offending + rest == before + ([quotas[i]] + rest);
      } else {
        assert TooLong(bucketTtl, quotas[i..]) == [] + rest == rest;
      }
    }
    assert quotas[|quotas|..] == [];
    TooLongIsComplete(bucketTtl, quotas);
  }

  lemma {:induction false} TooLongIsComplete(bucketTtl: int, quotas: seq<Quota>)
    ensures forall q :: multiset(TooLong(bucketTtl, quotas))[q]
                        == if 2 * q.perSeconds > bucketTtl then multiset(quotas)[q] else 0
  {
    if quotas != [] {
      TooLongIsComplete(bucketTtl, quotas[1..]);
      assert quotas == [quotas[0]] + quotas[1..];
    }
  }

  /** In the order of the quotas. */
  lemma {:induction false} TooLongInOrder(bucketTtl: int, quotas: seq<Quota>, i: nat, j: nat) returns (a: nat, b: nat)
    requires i < j < |quotas| && 2 * quotas[i].perSeconds > bucketTtl && 2 * quotas[j].perSeconds > bucketTtl
    ensures var list := TooLong(bucketTtl, quotas); a < b < |list| && list[a] == quotas[i] && list[b] == quotas[j]
  {
    if i > 0 {
      a, b := TooLongInOrder(bucketTtl, quotas[1..], i - 1, j - 1);
      if 2 * quotas[0].perSeconds > bucketTtl {
        a, b := a + 1, b + 1;
      }
    } else {
      b := TooLongHas(bucketTtl, quotas[1..], j - 1);
      a, b := 0, b + 1;
    }
  }

  lemma {:induction false} TooLongHas(bucketTtl: int, quotas: seq<Quota>, j: nat) returns (b: nat)
    requires j < |quotas| && 2 * quotas[j].perSeconds > bucketTtl
    ensures b < |TooLong(bucketTtl, quotas)| && TooLong(bucketTtl, quotas)[b] == quotas[j]
  {
    if j == 0 {
      b := 0;
    } else {
      b := TooLongHas(bucketTtl, quotas[1..], j - 1);
      if 2 * quotas[0].perSeconds > bucketTtl {
        b := b + 1;
      }
    }
  }

  /** For every quota of an accepted configuration, ordinary debt never moves the deadline, and dropping idle
    rows is never noticed. */
  lemma AcceptedQuotasExpireInvisibly(bucketTtl: int, quotas: seq<Quota>, i: nat, b: Bucket, steps: seq<Step>,
                                      from: real, now: real)
    requires TooLong(bucketTtl, quotas) == [] && i < |quotas| && bucketTtl <= MAX_STATE_TTL_SECONDS
    requires quotas[i].perSeconds > 0 && quotas[i].limit > 0.0
    requires b.max == quotas[i].limit && b.per == quotas[i].perSeconds as real
    requires WrittenBy(b, from) && Ordinary(steps) && StepsInOrder(from, steps, now)
    ensures b.stored.Some? && b.stored.value.capacity >= -b.max ==>
              DebtTtl(b.stored.value.capacity, bucketTtl, b.per, b.max, b.max) == Some(bucketTtl)
    ensures Read(RunPruned(b, bucketTtl, steps), now) == Read(RunKept(b, steps), now)
  {
    NoneTooLong(bucketTtl, quotas, i);
    if b.stored.Some? && b.stored.value.capacity >= -b.max {
      OrdinaryDebtFits(b.stored.value.capacity, bucketTtl, b.per, b.max);
    }
    PruningIsInvisible(b, b, bucketTtl, from, steps, now);
  }

  lemma {:induction false} NoneTooLong(bucketTtl: int, quotas: seq<Quota>, i: nat)
    requires TooLong(bucketTtl, quotas) == [] && i < |quotas|
    ensures bucketTtl >= MIN_BUCKET_TTL_WINDOWS * quotas[i].perSeconds
  {
    if i > 0 {
      NoneTooLong(bucketTtl, quotas[1..], i - 1);
    }
  }
}
