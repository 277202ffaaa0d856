/** Shaping a refund to the buckets that still exist after a reconfiguration. */
module RefundProjection {
  import opened Types
  import opened TokenBucket
  import opened MemoryBackends

  datatype Projection = Projection(reserved: Usage, actual: Usage, scope: Option<set<BucketId>>, dropped: bool)

  function Get(u: Usage, m: Metric): real {
    if m in u then u[m] else 0.0
  }

  function Restrict(u: Usage, metrics: set<Metric>): Usage {
    map m | m in metrics :: Get(u, m)
  }

  /** `_project_refund_scope`. `buckets` is `None` for a legacy reservation, `active` while no snapshot is known. */
  function Project(reserved: Usage, actual: Usage, buckets: Option<set<BucketId>>,
                   active: Option<set<BucketId>>): Projection {
    if active.None? then Projection(reserved, actual, buckets, false)
    else if buckets.None? then
      if reserved.Keys == Metrics(active.value) then Projection(reserved, actual, active, false)
      else Projection(Restrict(reserved, Metrics(active.value)), Restrict(actual, Metrics(active.value)), active, false)
    else
      var surviving := set id | id in buckets.value && id in active.value;
      if surviving == {} then Projection(map[], map[], Some({}), true)
      else if reserved.Keys == Metrics(surviving) then Projection(reserved, actual, Some(surviving), false)
      else Projection(Restrict(reserved, Metrics(surviving)), Restrict(actual, Metrics(surviving)), Some(surviving),
                      false)
  }

  datatype Complaint = UsageWithoutBuckets | UnknownBuckets | WrongKeys | NegativeUsage

  /** `validate_backend_refund_usage_for_bucket_ids`: each check in its order, over every entry. */
  method ValidateRefund(reserved: Usage, actual: Usage, scope: set<BucketId>,
                        backend: set<BucketId>)
    returns (complaint: Option<Complaint>)
    ensures complaint.None? <==> Accepts(reserved, actual, scope, backend)
    ensures complaint == Some(UsageWithoutBuckets) <==> scope == {} && (reserved != map[] || actual != map[])
    ensures complaint == Some(UnknownBuckets) <==> exists id :: id in scope && id !in backend
    ensures complaint == Some(NegativeUsage) ==>
              exists m :: (m in reserved && reserved[m] < 0.0) || (m in actual && actual[m] < 0.0)
    ensures complaint == Some(WrongKeys) ==> reserved.Keys != Metrics(scope) || actual.Keys != reserved.Keys
  {
    if scope == {} {
      return if reserved != map[] || actual != map[] then Some(UsageWithoutBuckets) else None;
    }
    if !(scope <= backend) {
      assert exists id :: id in scope && id !in backend;
      return Some(UnknownBuckets);
    }
    if reserved.Keys != Metrics(scope) {
      return Some(WrongKeys);
    }
    var negative := AnyNegative(reserved);
    if negative {
      return Some(NegativeUsage);
    }
    if actual.Keys != reserved.Keys {
      return Some(WrongKeys);
    }
    negative := AnyNegative(actual);
    return if negative then Some(NegativeUsage) else None;
  }

  method AnyNegative(u: Usage) returns (found: bool)
    ensures found <==> exists m :: m in u && u[m] < 0.0
  {
    var todo := u.Keys;
    while todo != {}
      invariant todo <= u.Keys
      invariant forall m :: m in u && m !in todo ==> u[m] >= 0.0
    {
      var m :| m in todo;
      if u[m] < 0.0 {
        return true;
      }
      todo := todo - {m};
    }
    return false;
  }

  ghost predicate Accepts(reserved: Usage, actual: Usage, scope: set<BucketId>, backend: set<BucketId>) {
    if scope == {} then reserved == map[] && actual == map[]
    else
      && (forall id :: id in scope ==> id in backend)
      && (forall m :: m in reserved <==> exists id :: id in scope && id.metric == m)
      && (forall m :: m in actual <==> m in reserved)
      && NonNegative(reserved) && NonNegative(actual)
  }

  /** The buckets a refund should reach. */
  function Survivors(buckets: Option<set<BucketId>>, active: set<BucketId>): set<BucketId> {
    if buckets.None? then active else buckets.value * active
  }

  /** Nothing is cut while the backend's bucket set is unknown, nor where every metric survives. */
  lemma NothingIsCut(reserved: Usage, actual: Usage, buckets: Option<set<BucketId>>, active: set<BucketId>)
    requires reserved.Keys == Metrics(Survivors(buckets, active)) && Survivors(buckets, active) != {}
    ensures Project(reserved, actual, buckets, None) == Projection(reserved, actual, buckets, false)
    ensures Project(reserved, actual, buckets, Some(active))
            == Projection(reserved, actual, Some(Survivors(buckets, active)), false)
  {
    if buckets.Some? {
      assert Survivors(buckets, active) == set id | id in buckets.value && id in active;
    }
  }

  /** Whatever the backend's bucket set has become, the projected refund passes its validator, reaches exactly the
    surviving buckets, keeps the values of the surviving metrics, and is dropped exactly when nothing survives. */
  lemma ProjectionIsAccepted(reserved: Usage, actual: Usage, buckets: Option<set<BucketId>>, active: set<BucketId>)
    requires NonNegative(reserved) && NonNegative(actual) && actual.Keys == reserved.Keys
    ensures var p := Project(reserved, actual, buckets, Some(active));
            && p.scope == Some(Survivors(buckets, active))
            && Accepts(p.reserved, p.actual, p.scope.value, active)
            && (forall m :: m in p.reserved <==> m in Metrics(Survivors(buckets, active)))
            && (forall m :: m in p.reserved ==>
                  m in p.actual && p.reserved[m] == Get(reserved, m) && p.actual[m] == Get(actual, m))
            && (p.dropped <==> buckets.Some? && Survivors(buckets, active) == {})
  {
    var p := Project(reserved, actual, buckets, Some(active));
    var survivors := Survivors(buckets, active);
    assert p.scope.value == survivors;
    assert p.reserved.Keys == Metrics(survivors) && p.actual.Keys == Metrics(survivors) by {
      assert survivors == {} ==> Metrics(survivors) == {};
    }
    if survivors == {} {
      assert p.reserved == map[] && p.actual == map[];
    } else {
      forall m ensures m in p.reserved <==> exists id :: id in survivors && id.metric == m {
        assert m in p.reserved <==> m in Metrics(survivors);
      }
    }
  }

  /** In the backend the projected refund credits each surviving bucket the difference for its metric, and touches no
    other. */
  lemma RefundReachesSurvivors(r: Reservation, actual: Usage, bs: Buckets, now: real, id: BucketId)
    requires WellFormed(r) && NonNegative(actual) && actual.Keys == r.usage.Keys && AllSound(bs) && id in bs
    ensures var p := Project(r.usage, actual, Some(r.buckets), Some(bs.Keys));
            && p.reserved.Keys == p.actual.Keys
            && OnBucket(bs, Returns(p.reserved, p.actual, p.scope.value, now), id) ==
                 if id in r.buckets then Some(Refund(r.usage[id.metric] - actual[id.metric], now)) else None
  {
    ProjectionIsAccepted(r.usage, actual, Some(r.buckets), bs.Keys);
    var p := Project(r.usage, actual, Some(r.buckets), Some(bs.Keys));
    assert p.reserved.Keys == p.actual.Keys by {
      assert p.reserved == map[] ==> p.actual == map[];
    }
    if id in r.buckets {
      assert id in Survivors(Some(r.buckets), bs.Keys);
      assert id.metric in Metrics(Survivors(Some(r.buckets), bs.Keys)) && id.metric in Metrics(r.buckets);
    }
  }
}
