/** Identifiers and small datatypes shared by every part of the model.

  Reservation ids, model aliases, model families and metric names are opaque to the
  program: it only compares them, and now and then sorts them. They are modelled as
  natural numbers. Amounts, capacities and times are `real`.
*/
module Types {

  type Id = nat
  type Family = nat
  type Alias = nat
  type Metric = nat

  datatype BucketId = BucketId(metric: Metric, window: nat)

  type Usage = map<Metric, real>

  datatype Option<+T> = None | Some(value: T)

  datatype Result<+T, +E> = Ok(value: T) | Err(error: E)

  /** What an acquire captures and a refund later consults. */
  datatype Reservation = Reservation(
    family: Family,
    buckets: set<BucketId>,
    usage: Usage,
    unlimited: bool,
    blocking: bool)

  ghost predicate NonNegative(u: Usage) {
    forall m :: m in u ==> u[m] >= 0.0
  }

  function Metrics(buckets: set<BucketId>): set<Metric> {
    set b | b in buckets :: b.metric
  }

  /** `validate_acquire_usage` has accepted the reservation. */
  ghost predicate WellFormed(r: Reservation) {
    && r.usage.Keys == Metrics(r.buckets)
    && NonNegative(r.usage)
  }

  function Min(a: real, b: real): real {
    if a <= b then a else b
  }

  function Max(a: real, b: real): real {
    if a >= b then a else b
  }
}
