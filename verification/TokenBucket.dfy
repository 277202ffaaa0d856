/** One token bucket: `calculate_capacity` and the writes that the backends build on it. */
module TokenBucket {
  import opened Types

  // ---------------------------------------------------------------- reading

  /** Negative elapsed time, a clock set back, counts as none. */
  function Elapsed(from: real, to: real): (r: real)
    ensures r >= 0.0
  {
    if to < from then 0.0 else to - from
  }

  function Accrued(rate: real, from: real, to: real): real {
    Elapsed(from, to) * rate
  }

  datatype Calculated = Calculated(amount: real, freshStart: bool)

  datatype Rejection = BadTime | BadMaximum | BadRate

  /** `calculate_capacity`: a bucket with a missing half of its state starts full. */
  function CalculateCapacity(last: Option<real>, outdated: Option<real>, now: real, max: real, rate: real)
    : Result<Calculated, Rejection>
  {
    if now < 0.0 then Err(BadTime)
    else if max <= 0.0 then Err(BadMaximum)
    else if rate <= 0.0 then Err(BadRate)
    else if last.None? || outdated.None? then Ok(Calculated(max, true))
    else Ok(Calculated(Min(max, outdated.value + Accrued(rate, last.value, now)), false))
  }

  /** Why a read is refused, in this order. */
  lemma RefusedFor(last: Option<real>, outdated: Option<real>, now: real, max: real, rate: real)
    ensures var r := CalculateCapacity(last, outdated, now, max, rate);
            && (r == Err(BadTime) <==> now < 0.0)
            && (r == Err(BadMaximum) <==> now >= 0.0 && max <= 0.0)
            && (r == Err(BadRate) <==> now >= 0.0 && max > 0.0 && rate <= 0.0)
            && (r.Ok? ==> (r.value.freshStart <==> last.None? || outdated.None?))
  {
  }

  // ---------------------------------------------------------------- the bucket as a value

  /** What a bucket remembers of its last write: the capacity then, which may lie above the maximum. */
  datatype Stored = Stored(capacity: real, last: real)

  datatype Bucket = Bucket(stored: Option<Stored>, max: real, per: real)

  predicate Sound(b: Bucket) {
    b.max > 0.0 && b.per > 0.0
  }

  function Rate(max: real, per: real): (r: real)
    requires per > 0.0
    ensures max > 0.0 ==> r > 0.0
  {
    max / per
  }

  /** The uncapped capacity at `now`. */
  function Raw(b: Bucket, now: real): real
    requires Sound(b) && b.stored.Some?
  {
    b.stored.value.capacity + Accrued(Rate(b.max, b.per), b.stored.value.last, now)
  }

  function Read(b: Bucket, now: real): real
    requires Sound(b)
  {
    if b.stored.None? then b.max else Min(b.max, Raw(b, now))
  }

  function Written(b: Bucket, capacity: real, now: real): Bucket {
    b.(stored := Some(Stored(capacity, now)))
  }

  /** What a backend does to one bucket at one instant. */
  datatype Op =
    | Take(usage: real, at: real)       // a granted acquire
    | Consume(usage: real, at: real)    // unconditional; never below minus the maximum
    | Refund(amount: real, at: real)    // negative for overuse; clamped to plus and minus the maximum
    | Touch(at: real)                   // writes back what was read
    | Floor(at: real)                   // the same, but a debt is written back as zero
    | SetMax(value: real, at: real)     // anchors the raw capacity at the old rate

  predicate Possible(op: Op) {
    match op
    case Take(u, _) => u >= 0.0
    case Consume(u, _) => u >= 0.0
    case Refund(_, _) => true
    case Touch(_) => true
    case Floor(_) => true
    case SetMax(m, _) => m > 0.0
  }

  function Apply(b: Bucket, op: Op): (b': Bucket)
    requires Sound(b) && Possible(op)
    ensures Sound(b') && b'.per == b.per
    ensures !op.SetMax? ==> b'.max == b.max && b'.stored.Some? && b'.stored.value.last == op.at
  {
    match op
    case Take(u, t) => Written(b, Max(0.0, Read(b, t) - u), t)
    case Consume(u, t) => Written(b, Max(Read(b, t) - u, -b.max), t)
    case Refund(a, t) => Written(b, Max(-b.max, Min(Read(b, t) + Max(a, -b.max), b.max)), t)
    case Touch(t) => Written(b, Read(b, t), t)
    case Floor(t) => Written(b, Max(0.0, Read(b, t)), t)
    case SetMax(m, t) =>
      if b.stored.None? then b.(max := m) else Written(b, Raw(b, t), t).(max := m)
  }

  /** What each operation leaves, read at once, in terms of what a read found before it. */
  lemma LevelAfter(b: Bucket, op: Op)
    requires Sound(b) && Possible(op)
    ensures var (was, level) := (Read(b, op.at), Read(Apply(b, op), op.at));
            match op
            case Take(u, _) => u <= was ==> level == was - u
            case Consume(u, _) => level == if was - u < -b.max then -b.max else was - u
            // nothing is lost or made up within the bounds, and overuse is charged up to one maximum
            case Refund(a, _) =>
              && (-b.max <= a && -b.max <= was + a <= b.max ==> level == was + a)
              && (-b.max <= a && was + a > b.max ==> level == b.max)
              && (-b.max <= a && was + a < -b.max ==> level == -b.max)
              && (a < -b.max ==> level == if was < 0.0 then -b.max else was - b.max)
            case Touch(_) => level == was
            case Floor(_) => level == if was < 0.0 then 0.0 else was
            case SetMax(m, t) => level == if b.stored.None? then m else Min(m, Raw(b, t))
  {
    if !op.SetMax? || b.stored.Some? {
      NoTimePasses(Apply(b, op), op.at);
    }
  }

  predicate AllPossible(ops: seq<Op>) {
    forall i :: 0 <= i < |ops| ==> Possible(ops[i])
  }

  function ApplyAll(b: Bucket, ops: seq<Op>): (b': Bucket)
    requires Sound(b) && AllPossible(ops)
    ensures Sound(b') && b'.per == b.per
    decreases |ops|
  {
    if ops == [] then b else ApplyAll(Apply(b, ops[0]), ops[1..])
  }

  /** The operations happen in order, none before `from` or after `to`. */
  predicate InOrder(from: real, ops: seq<Op>, to: real)
    decreases |ops|
  {
    if ops == [] then from <= to else from <= ops[0].at && InOrder(ops[0].at, ops[1..], to)
  }

  predicate WrittenBy(b: Bucket, now: real) {
    b.stored.Some? ==> b.stored.value.last <= now
  }

  // ---------------------------------------------------------------- time

  lemma AccruedSplits(rate: real, a: real, b: real, c: real)
    requires a <= b <= c
    ensures Accrued(rate, a, c) == Accrued(rate, a, b) + Accrued(rate, b, c)
  {
    assert (c - a) * rate == (b - a) * rate + (c - b) * rate;
  }

  lemma AccruedPositive(rate: real, a: real, b: real)
    requires rate >= 0.0
    ensures Accrued(rate, a, b) >= 0.0
  {
  }

  /** A read is a read of an earlier read, refilled since and capped. */
  lemma ReadLater(b: Bucket, t: real, later: real)
    requires Sound(b) && WrittenBy(b, t) && t <= later
    ensures Read(b, later) == Min(b.max, Read(b, t) + Accrued(Rate(b.max, b.per), t, later))
    ensures b.stored.Some? ==> Raw(b, later) == Raw(b, t) + Accrued(Rate(b.max, b.per), t, later)
  {
    var rate := Rate(b.max, b.per);
    AccruedPositive(rate, t, later);
    if b.stored.Some? {
      AccruedSplits(rate, b.stored.value.last, t, later);
    }
  }

  // ---------------------------------------------------------------- order and distance

  /** `hi` holds as much as `lo` at time `t`, and at most `d` more, even above the maximum. */
  predicate RawWithin(lo: Bucket, hi: Bucket, d: real, t: real) {
    && Sound(lo) && Sound(hi) && lo.max == hi.max && lo.per == hi.per
    && lo.stored.Some? && hi.stored.Some? && WrittenBy(lo, t) && WrittenBy(hi, t)
    && Raw(lo, t) <= Raw(hi, t) <= Raw(lo, t) + d
  }

  /** The same for what reads show. */
  predicate ReadWithin(lo: Bucket, hi: Bucket, d: real, t: real) {
    && Sound(lo) && Sound(hi) && lo.max == hi.max && lo.per == hi.per
    && WrittenBy(lo, t) && WrittenBy(hi, t)
    && Read(lo, t) <= Read(hi, t) <= Read(lo, t) + d
  }

  lemma RawWithinLater(lo: Bucket, hi: Bucket, d: real, t: real, later: real)
    requires RawWithin(lo, hi, d, t) && t <= later
    ensures RawWithin(lo, hi, d, later)
  {
    hide Accrued, Rate;
    ReadLater(lo, t, later);
    ReadLater(hi, t, later);
  }

  lemma ReadWithinLater(lo: Bucket, hi: Bucket, d: real, t: real, later: real)
    requires ReadWithin(lo, hi, d, t) && t <= later && d >= 0.0
    ensures ReadWithin(lo, hi, d, later)
  {
    hide Accrued, Rate, Raw;
    ReadLater(lo, t, later);
    ReadLater(hi, t, later);
  }

  lemma NoTimePasses(b: Bucket, t: real)
    requires Sound(b) && b.stored.Some? && b.stored.value.last == t
    ensures Raw(b, t) == b.stored.value.capacity
  {
  }

  /** One operation on two buckets keeps their order and never drives them further apart. */
  lemma ApplyKeepsRawWithin(lo: Bucket, hi: Bucket, d: real, t: real, op: Op)
    requires RawWithin(lo, hi, d, t) && t <= op.at && d >= 0.0 && Possible(op)
    ensures RawWithin(Apply(lo, op), Apply(hi, op), d, op.at)
  {
    RawWithinLater(lo, hi, d, t, op.at);
    NoTimePasses(Apply(lo, op), op.at);
    NoTimePasses(Apply(hi, op), op.at);
    hide Raw;
  }

  lemma ApplyKeepsReadWithin(lo: Bucket, hi: Bucket, d: real, t: real, op: Op)
    requires ReadWithin(lo, hi, d, t) && t <= op.at && d >= 0.0 && Possible(op) && !op.SetMax?
    ensures ReadWithin(Apply(lo, op), Apply(hi, op), d, op.at)
  {
    ReadWithinLater(lo, hi, d, t, op.at);
    NoTimePasses(Apply(lo, op), op.at);
    NoTimePasses(Apply(hi, op), op.at);
    hide Raw;
  }

  lemma {:induction false} RunsKeepRawWithin(lo: Bucket, hi: Bucket, d: real, t: real, ops: seq<Op>, end: real)
    requires RawWithin(lo, hi, d, t) && d >= 0.0 && AllPossible(ops) && InOrder(t, ops, end)
    ensures RawWithin(ApplyAll(lo, ops), ApplyAll(hi, ops), d, end)
    decreases |ops|
  {
    hide RawWithin, Apply;
    if ops == [] {
      RawWithinLater(lo, hi, d, t, end);
    } else {
      RawWithinSound(lo, hi, d, t);
      ApplyKeepsRawWithin(lo, hi, d, t, ops[0]);
      RunsKeepRawWithin(Apply(lo, ops[0]), Apply(hi, ops[0]), d, ops[0].at, ops[1..], end);
    }
  }

  lemma RawWithinSound(lo: Bucket, hi: Bucket, d: real, t: real)
    requires RawWithin(lo, hi, d, t)
    ensures Sound(lo) && Sound(hi)
  {
  }

  lemma {:induction false} RunsKeepReadWithin(lo: Bucket, hi: Bucket, d: real, t: real, ops: seq<Op>, end: real)
    requires ReadWithin(lo, hi, d, t) && d >= 0.0 && AllPossible(ops) && InOrder(t, ops, end)
    requires forall i :: 0 <= i < |ops| ==> !ops[i].SetMax?
    ensures ReadWithin(ApplyAll(lo, ops), ApplyAll(hi, ops), d, end)
    decreases |ops|
  {
    hide Apply;
    if ops == [] {
      ReadWithinLater(lo, hi, d, t, end);
    } else {
      ApplyKeepsReadWithin(lo, hi, d, t, ops[0]);
      RunsKeepReadWithin(Apply(lo, ops[0]), Apply(hi, ops[0]), d, ops[0].at, ops[1..], end);
    }
  }
}
