/** The in-memory bucket object, proved against the bucket as a value in `TokenBucket`. */
module MemoryBuckets {
  import opened Types
  import opened TokenBucket

  class MemoryBucket {
    var capacity: Option<real>
    var lastChecked: Option<real>
    var maxCapacity: real
    const perSeconds: real
    var ratePerSec: real

    /** The stored rate is the rate of the maximum in force, and a write sets both halves of the state. */
    ghost predicate Valid()
      reads this
    {
      && maxCapacity > 0.0 && perSeconds > 0.0
      && ratePerSec == Rate(maxCapacity, perSeconds)
      && (capacity.Some? <==> lastChecked.Some?)
    }

    ghost function Contents(): (b: Bucket)
      requires Valid()
      reads this
      ensures Sound(b)
    {
      Bucket(if capacity.Some? then Some(Stored(capacity.value, lastChecked.value)) else None, maxCapacity, perSeconds)
    }

    constructor (limit: real, perSeconds: real)
      requires limit > 0.0 && perSeconds > 0.0
      ensures Valid() && Contents() == Bucket(None, limit, perSeconds)
    {
      this.perSeconds := perSeconds;
      capacity, lastChecked := None, None;
      maxCapacity, ratePerSec := limit, Rate(limit, perSeconds);
    }

    /** Seconds since the last write; a clock set back counts as no time. */
    ghost function Since(now: real): real
      requires lastChecked.Some?
      reads this
    {
      if now < lastChecked.value then 0.0 else now - lastChecked.value
    }

    /** A read changes nothing; it fails only for a negative time. */
    method GetCapacity(now: real) returns (r: Result<Calculated, Rejection>)
      requires Valid()
      ensures r.Ok? <==> now >= 0.0
      ensures r.Ok? ==> r.value.amount == Read(Contents(), now) && (r.value.freshStart <==> Contents().stored.None?)
      ensures r.Ok? && capacity.None? ==> r.value == Calculated(maxCapacity, true)
      ensures r.Ok? && capacity.Some? ==>
                var refilled := capacity.value + Since(now) * (maxCapacity / perSeconds);
                r.value == Calculated(if refilled < maxCapacity then refilled else maxCapacity, false)
    {
      r := CalculateCapacity(lastChecked, capacity, now, maxCapacity, ratePerSec);
    }

    method SetCapacity(value: real, now: real, allowNegative: bool)
      requires Valid()
      modifies `capacity, `lastChecked
      ensures Valid()
      ensures Contents() == Written(old(Contents()), if allowNegative then value else Max(0.0, value), now)
      ensures capacity == Some(if value < 0.0 && !allowNegative then 0.0 else value) && lastChecked == Some(now)
    {
      capacity := Some(if allowNegative then value else Max(0.0, value));
      lastChecked := Some(now);
    }

    /** Anchors the stored capacity at the old rate, then swaps the rate. A value that is not positive is refused. */
    method SetMaxCapacity(value: real, now: real) returns (accepted: bool)
      requires Valid()
      modifies `capacity, `lastChecked, `maxCapacity, `ratePerSec
      ensures Valid()
      ensures accepted <==> value > 0.0
      ensures Contents() == if accepted then Apply(old(Contents()), SetMax(value, now)) else old(Contents())
      ensures accepted ==> maxCapacity == value
      ensures accepted && old(capacity).None? ==> capacity.None?
      ensures accepted && old(capacity).Some? ==>
                && lastChecked == Some(now)
                && capacity == Some(old(capacity).value + old(Since(now)) * (old(maxCapacity) / perSeconds))
    {
      if value <= 0.0 {
        return false;
      }
      if lastChecked.Some? && capacity.Some? {
        var timePassed := now - lastChecked.value;
        if timePassed < 0.0 {
          timePassed := 0.0;
        }
        capacity := Some(capacity.value + timePassed * ratePerSec);
        lastChecked := Some(now);
      }
      maxCapacity := value;
      ratePerSec := Rate(value, perSeconds);
      return true;
    }
  }
}
