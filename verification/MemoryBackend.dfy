/** A backend of many buckets: all-or-nothing acquires, unconditional consumption and scoped refunds. */
module MemoryBackends {
  import opened Types
  import opened TokenBucket
  import opened BucketTheorems

  type Buckets = map<BucketId, Bucket>

  datatype Outcome = AllGranted | Insufficient | ExceedsMaximum | InactiveMetric

  predicate AllSound(bs: Buckets) {
    forall id :: id in bs ==> Sound(bs[id])
  }

  predicate Affordable(bs: Buckets, usage: Usage, now: real)
    requires AllSound(bs)
  {
    forall id :: id in bs && id.metric in usage ==> usage[id.metric] <= Read(bs[id], now)
  }

  predicate WithinMaxima(bs: Buckets, usage: Usage) {
    forall id :: id in bs && id.metric in usage ==> usage[id.metric] <= bs[id].max
  }

  function Verdict(bs: Buckets, usage: Usage, now: real): Outcome
    requires AllSound(bs)
  {
    if !(usage.Keys <= Metrics(bs.Keys)) then InactiveMetric
    else if !WithinMaxima(bs, usage) then ExceedsMaximum
    else if !Affordable(bs, usage, now) then Insufficient
    else AllGranted
  }

  /** What each outcome means: a used metric has no bucket; else some bucket could never hold the usage; else some
    bucket does not hold it now; else all do. */
  ghost predicate Outcomes(bs: Buckets, usage: Usage, now: real, outcome: Outcome)
    requires AllSound(bs)
  {
    var inactive := exists m :: m in usage && forall id :: id in bs ==> id.metric != m;
    var excessive := exists id :: id in bs && id.metric in usage && usage[id.metric] > bs[id].max;
    var short := exists id :: id in bs && id.metric in usage && usage[id.metric] > Read(bs[id], now);
    && (outcome == InactiveMetric <==> inactive)
    && (outcome == ExceedsMaximum <==> !inactive && excessive)
    && (outcome == Insufficient <==> !inactive && !excessive && short)
    && (outcome == AllGranted <==> !inactive && !excessive && !short)
  }

  lemma VerdictIsRight(bs: Buckets, usage: Usage, now: real)
    requires AllSound(bs)
    ensures Outcomes(bs, usage, now, Verdict(bs, usage, now))
  {
    if usage.Keys <= Metrics(bs.Keys) {
      forall m | m in usage ensures exists id :: id in bs && id.metric == m {
        assert m in Metrics(bs.Keys);
      }
    } else {
      var m :| m in usage.Keys && m !in Metrics(bs.Keys);
      assert forall id :: id in bs ==> id.metric != m;
    }
    hide Read;
  }

  datatype BackendOp =
    | Acquires(usage: Usage, at: real)
    | Records(usage: Usage, at: real)
    | Returns(reserved: Usage, actual: Usage, scope: set<BucketId>, at: real)

  ghost predicate Acceptable(op: BackendOp) {
    match op
    case Acquires(usage, _) => NonNegative(usage)
    case Records(usage, _) => NonNegative(usage)
    case Returns(reserved, actual, _, _) => reserved.Keys == actual.Keys
  }

  /** What one backend call does to one bucket; `None` leaves it alone. */
  function OnBucket(bs: Buckets, op: BackendOp, id: BucketId): Option<Op>
    requires AllSound(bs)
    requires op.Returns? ==> op.reserved.Keys == op.actual.Keys
  {
    match op
    case Acquires(usage, t) =>
      if Verdict(bs, usage, t) != AllGranted then None
      else Some(if id.metric in usage then Take(usage[id.metric], t) else Floor(t))
    case Records(usage, t) =>
      if !(usage.Keys <= Metrics(bs.Keys)) then None
      else Some(if id.metric in usage then Consume(usage[id.metric], t) else Touch(t))
    case Returns(reserved, actual, scope, t) =>
      if !(scope <= bs.Keys) || id !in scope then None
      else Some(if id.metric in reserved then Refund(reserved[id.metric] - actual[id.metric], t) else Touch(t))
  }

  lemma OnBucketPossible(bs: Buckets, op: BackendOp, id: BucketId)
    requires AllSound(bs) && Acceptable(op)
    ensures OnBucket(bs, op, id).Some? ==> Possible(OnBucket(bs, op, id).value) && !OnBucket(bs, op, id).value.SetMax?
  {
  }

  ghost function After(bs: Buckets, op: BackendOp): (r: Buckets)
    requires AllSound(bs) && Acceptable(op)
    ensures r.Keys == bs.Keys && AllSound(r)
  {
    map id | id in bs :: AfterOn(bs, op, id)
  }

  ghost function AfterOn(bs: Buckets, op: BackendOp, id: BucketId): (b: Bucket)
    requires AllSound(bs) && Acceptable(op) && id in bs
    ensures Sound(b) && b.max == bs[id].max && b.per == bs[id].per
  {
    OnBucketPossible(bs, op, id);
    if OnBucket(bs, op, id).Some? then Apply(bs[id], OnBucket(bs, op, id).value) else bs[id]
  }

  // ---------------------------------------------------------------- the backend object

  class MemoryBackend {
    var buckets: Buckets

    ghost predicate Valid()
      reads this
    {
      AllSound(buckets)
    }

    constructor (buckets: Buckets)
      requires AllSound(buckets)
      ensures Valid() && this.buckets == buckets
    {
      this.buckets := buckets;
    }

    /** The checks in their order; nothing is written. */
    method Judge(usage: Usage, now: real) returns (outcome: Outcome)
      requires Valid()
      ensures outcome == Verdict(buckets, usage, now)
    {
      if !(usage.Keys <= set id | id in buckets :: id.metric) {
        return InactiveMetric;
      }
      var todo := buckets.Keys;
      while todo != {}
        invariant todo <= buckets.Keys
        invariant forall id :: id in buckets && id !in todo && id.metric in usage ==>
                  usage[id.metric] <= buckets[id].max
      {
        var id :| id in todo;
        if id.metric in usage && usage[id.metric] > buckets[id].max {
          return ExceedsMaximum;
        }
        todo := todo - {id};
      }
      todo := buckets.Keys;
      while todo != {}
        invariant todo <= buckets.Keys
        invariant forall id :: id in buckets && id !in todo && id.metric in usage ==>
                  usage[id.metric] <= Read(buckets[id], now)
      {
        var id :| id in todo;
        if id.metric in usage && usage[id.metric] > Read(buckets[id], now) {
          return Insufficient;
        }
        todo := todo - {id};
      }
      return AllGranted;
    }

    /** One attempt under the lock: every bucket or none is written. */
    method TryAcquire(usage: Usage, now: real) returns (outcome: Outcome)
      requires Valid() && NonNegative(usage)
      modifies this
      ensures Valid()
      ensures outcome == Verdict(old(buckets), usage, now) && Outcomes(old(buckets), usage, now, outcome)
      ensures buckets == After(old(buckets), Acquires(usage, now))
    {
      outcome := Judge(usage, now);
      VerdictIsRight(buckets, usage, now);
      hide Outcomes;
      if outcome != AllGranted {
        return;
      }
      hide WithinMaxima, Affordable;
      var todo := buckets.Keys;
      while todo != {}
        invariant todo <= buckets.Keys == old(buckets).Keys
        invariant forall id :: id in todo ==> buckets[id] == old(buckets)[id]
        invariant forall id :: id in buckets && id !in todo ==>
                  buckets[id] == AfterOn(old(buckets), Acquires(usage, now), id)
      {
        var id :| id in todo;
        var left := Read(buckets[id], now) - if id.metric in usage then usage[id.metric] else 0.0;
        buckets := buckets[id := Written(buckets[id], Max(0.0, left), now)];
        todo := todo - {id};
      }
    }

    /** Unconditional: the debt may reach minus the maximum. */
    method ConsumeCapacity(usage: Usage, now: real) returns (ok: bool)
      requires Valid() && NonNegative(usage)
      modifies this
      ensures Valid()
      ensures ok <==> usage.Keys <= Metrics(old(buckets).Keys)
      ensures buckets == After(old(buckets), Records(usage, now))
    {
      if !(usage.Keys <= set id | id in buckets :: id.metric) {
        return false;
      }
      var todo := buckets.Keys;
      while todo != {}
        invariant todo <= buckets.Keys == old(buckets).Keys
        invariant forall id :: id in todo ==> buckets[id] == old(buckets)[id]
        invariant forall id :: id in buckets && id !in todo ==>
                  buckets[id] == AfterOn(old(buckets), Records(usage, now), id)
      {
        var id :| id in todo;
        var level := Read(buckets[id], now);
        if id.metric in usage {
          level := Max(level - usage[id.metric], -buckets[id].max);
        }
        buckets := buckets[id := Written(buckets[id], level, now)];
        todo := todo - {id};
      }
      return true;
    }

    /** Only the scoped buckets are written, each clamped to plus and minus its maximum. */
    method RefundCapacityForBuckets(reserved: Usage, actual: Usage, scope: set<BucketId>, now: real) returns (ok: bool)
      requires Valid() && reserved.Keys == actual.Keys
      modifies this
      ensures Valid()
      ensures ok <==> scope <= old(buckets).Keys
      ensures buckets == After(old(buckets), Returns(reserved, actual, scope, now))
    {
      if !(scope <= buckets.Keys) {
        return false;
      }
      var todo := scope;
      while todo != {}
        invariant todo <= scope <= buckets.Keys == old(buckets).Keys
        invariant forall id :: id in buckets && (id in todo || id !in scope) ==> buckets[id] == old(buckets)[id]
        invariant forall id :: id in scope && id !in todo ==>
                  buckets[id] == AfterOn(old(buckets), Returns(reserved, actual, scope, now), id)
      {
        var id :| id in todo;
        var bucket := buckets[id];
        var level := Read(bucket, now);
        if id.metric in reserved {
          var amount := Max(reserved[id.metric] - actual[id.metric], -bucket.max);
          level := Max(-bucket.max, Min(level + amount, bucket.max));
        }
        buckets := buckets[id := Written(bucket, level, now)];
        todo := todo - {id};
      }
      return true;
    }
  }

  // ---------------------------------------------------------------- runs

  ghost predicate AllAcceptable(ops: seq<BackendOp>) {
    forall i :: 0 <= i < |ops| ==> Acceptable(ops[i])
  }

  /** The run of one bucket inside a run of the backend. */
  ghost function Projected(bs: Buckets, ops: seq<BackendOp>, id: BucketId): seq<Op>
    requires AllSound(bs) && AllAcceptable(ops)
    decreases |ops|
  {
    if ops == [] then []
    else
      var rest := Projected(After(bs, ops[0]), ops[1..], id);
      if OnBucket(bs, ops[0], id).Some? then [OnBucket(bs, ops[0], id).value] + rest else rest
  }

  /** What the backend granted of one metric over a run. */
  ghost function GrantedOf(bs: Buckets, ops: seq<BackendOp>, metric: Metric): real
    requires AllSound(bs) && AllAcceptable(ops)
    decreases |ops|
  {
    if ops == [] then 0.0
    else
      var op := ops[0];
      (if op.Acquires? && Verdict(bs, op.usage, op.at) == AllGranted && metric in op.usage then op.usage[metric]
       else 0.0)
      + GrantedOf(After(bs, op), ops[1..], metric)
  }

  lemma {:induction false} ProjectedIsARun(bs: Buckets, ops: seq<BackendOp>, id: BucketId)
    requires AllSound(bs) && AllAcceptable(ops) && id in bs
    ensures var run := Projected(bs, ops, id);
            && AllPossible(run) && Admissible(bs[id], run)
            && (forall i :: 0 <= i < |run| ==> !run[i].SetMax?)
            && Granted(run) == GrantedOf(bs, ops, id.metric)
    decreases |ops|
  {
    if ops != [] {
      var op := ops[0];
      ProjectedIsARun(After(bs, op), ops[1..], id);
      OnBucketPossible(bs, op, id);
      if OnBucket(bs, op, id).Some? {
        var rest := Projected(After(bs, op), ops[1..], id);
        var run := Projected(bs, ops, id);
        assert run == [OnBucket(bs, op, id).value] + rest && run[1..] == rest;
        assert After(bs, op)[id] == Apply(bs[id], run[0]);
      } else {
        assert After(bs, op)[id] == bs[id];
      }
    }
  }

  /** The admission bound at once for every metric and window: however acquires, usage records and scoped
    refunds are mixed, what a bucket's metric was granted is at most the bucket's maximum, its credits, and
    its refill over the clock's forward moves between its own writes. */
  lemma BackendAdmissionBound(bs: Buckets, ops: seq<BackendOp>)
    requires AllSound(bs) && AllAcceptable(ops)
    ensures forall id :: id in bs ==>
              GrantedOf(bs, ops, id.metric) <=
                bs[id].max + Credited(Projected(bs, ops, id))
                + RefillOf(ForwardMoves(LastWrite(bs[id]), Projected(bs, ops, id)), bs[id])
  {
    forall id | id in bs
      ensures GrantedOf(bs, ops, id.metric) <=
                bs[id].max + Credited(Projected(bs, ops, id))
                + RefillOf(ForwardMoves(LastWrite(bs[id]), Projected(bs, ops, id)), bs[id])
    {
      ProjectedIsARun(bs, ops, id);
      AdmissionBound(bs[id], Projected(bs, ops, id));
    }
  }

  /** An acquire that is not granted changes nothing; one that is takes its usage from every bucket of its metrics. */
  lemma AllOrNothing(bs: Buckets, usage: Usage, now: real)
    requires AllSound(bs) && NonNegative(usage)
    ensures var after := After(bs, Acquires(usage, now));
            if Verdict(bs, usage, now) == AllGranted
            then forall id :: id in bs ==>
                   Read(after[id], now) ==
                     if id.metric in usage then Read(bs[id], now) - usage[id.metric] else Max(0.0, Read(bs[id], now))
            else after == bs
  {
    var after := After(bs, Acquires(usage, now));
    if Verdict(bs, usage, now) == AllGranted {
      forall id | id in bs
        ensures Read(after[id], now) ==
                  if id.metric in usage then Read(bs[id], now) - usage[id.metric] else Max(0.0, Read(bs[id], now))
      {
        NoTimePasses(after[id], now);
      }
    } else {
      assert forall id :: id in bs ==> after[id] == bs[id];
    }
  }

  /** Recorded usage is taken from every bucket of its metrics, down to minus the maximum, and from no other; usage
    of a metric without a bucket is refused and changes nothing. */
  lemma RecordsConsume(bs: Buckets, usage: Usage, now: real)
    requires AllSound(bs) && NonNegative(usage)
    ensures var after := After(bs, Records(usage, now));
            if forall m :: m in usage ==> exists id :: id in bs && id.metric == m
            then forall id :: id in bs ==>
                   Read(after[id], now) ==
                     if id.metric !in usage then Read(bs[id], now)
                     else if Read(bs[id], now) - usage[id.metric] < -bs[id].max then -bs[id].max
                     else Read(bs[id], now) - usage[id.metric]
            else after == bs
  {
    var op := Records(usage, now);
    var after := After(bs, op);
    if forall m :: m in usage ==> exists id :: id in bs && id.metric == m {
      assert usage.Keys <= Metrics(bs.Keys);
      forall id | id in bs
        ensures Read(after[id], now) ==
                  if id.metric !in usage then Read(bs[id], now)
                  else if Read(bs[id], now) - usage[id.metric] < -bs[id].max then -bs[id].max
                  else Read(bs[id], now) - usage[id.metric]
      {
        OnBucketPossible(bs, op, id);
        LevelAfter(bs[id], OnBucket(bs, op, id).value);
      }
    } else {
      assert forall id :: id in bs ==> after[id] == bs[id];
    }
  }

  /** A refund gives every scoped bucket of its metrics reserved less actual, clamped to plus and minus the maximum,
    overuse charged up to one maximum; other buckets read as before. An unknown bucket in the scope is refused. */
  lemma ReturnsSettle(bs: Buckets, reserved: Usage, actual: Usage, scope: set<BucketId>, now: real)
    requires AllSound(bs) && reserved.Keys == actual.Keys
    ensures var after := After(bs, Returns(reserved, actual, scope, now));
            if forall id :: id in scope ==> id in bs
            then forall id :: id in bs ==>
                   Read(after[id], now) ==
                     if id !in scope || id.metric !in reserved then Read(bs[id], now)
                     else
                       Clamp(Read(bs[id], now) + Max(reserved[id.metric] - actual[id.metric], -bs[id].max), bs[id].max)
            else after == bs
  {
    var op := Returns(reserved, actual, scope, now);
    var after := After(bs, op);
    if forall id :: id in scope ==> id in bs {
      forall id | id in bs
        ensures Read(after[id], now) ==
                  if id !in scope || id.metric !in reserved then Read(bs[id], now)
                  else Clamp(Read(bs[id], now) + Max(reserved[id.metric] - actual[id.metric], -bs[id].max), bs[id].max)
      {
        OnBucketPossible(bs, op, id);
        if OnBucket(bs, op, id).Some? {
          LevelAfter(bs[id], OnBucket(bs, op, id).value);
        }
      }
    } else {
      assert forall id :: id in bs ==> after[id] == bs[id];
    }
  }

  function Clamp(level: real, max: real): real {
    if level > max then max else if level < -max then -max else level
  }
}
