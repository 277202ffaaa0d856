/** What `diagnose()` computes from a snapshot: who waits for what, reservation groups, reconciled buckets. */
module Diagnostics {
  import opened Types
  import opened Bookkeeping
  import opened TokenBucket
  import opened MemoryBackends
  import opened OverrideExpiry

  // ---------------------------------------------------------------- sorting

  ghost predicate TotalOrder<T(!new)>(le: (T, T) -> bool) {
    && (forall a, b :: le(a, b) || le(b, a))
    && (forall a, b, c :: le(a, b) && le(b, c) ==> le(a, c))
  }

  ghost predicate Sorted<T>(s: seq<T>, le: (T, T) -> bool) {
    forall i, j :: 0 <= i < j < |s| ==> le(s[i], s[j])
  }

  function Insert<T>(x: T, s: seq<T>, le: (T, T) -> bool): (r: seq<T>)
    ensures multiset(r) == multiset(s) + multiset{x}
  {
    if s == [] then [x]
    else if le(x, s[0]) then [x] + s
    else
      assert s == [s[0]] + s[1..];
      [s[0]] + Insert(x, s[1..], le)
  }

  function SortBy<T>(s: seq<T>, le: (T, T) -> bool): (r: seq<T>)
    ensures multiset(r) == multiset(s)
  {
    if s == [] then []
    else
      assert s == [s[0]] + s[1..];
      Insert(s[0], SortBy(s[1..], le), le)
  }

  lemma {:induction false} InsertSorts<T(!new)>(x: T, s: seq<T>, le: (T, T) -> bool)
    requires TotalOrder(le) && Sorted(s, le)
    ensures Sorted(Insert(x, s, le), le)
  {
    if s != [] && !le(x, s[0]) {
      InsertSorts(x, s[1..], le);
      var rest := Insert(x, s[1..], le);
      forall j | 0 <= j < |rest| ensures le(s[0], rest[j]) {
        assert rest[j] in multiset(rest);
        assert rest[j] == x || rest[j] in s[1..];
      }
    }
  }

  lemma {:induction false} SortSorts<T(!new)>(s: seq<T>, le: (T, T) -> bool)
    requires TotalOrder(le)
    ensures Sorted(SortBy(s, le), le)
  {
    if s != [] {
      SortSorts(s[1..], le);
      InsertSorts(s[0], SortBy(s[1..], le), le);
    }
  }

  ghost predicate DistinctBy<T, K>(s: seq<T>, key: T -> K) {
    forall i, j :: 0 <= i < j < |s| ==> key(s[i]) != key(s[j])
  }

  lemma {:induction false} OccursOnce<T, K>(s: seq<T>, key: T -> K, x: T)
    requires DistinctBy(s, key)
    ensures multiset(s)[x] <= 1
  {
    if s != [] {
      OccursOnce(s[1..], key, x);
      assert s == [s[0]] + s[1..];
      if s[0] == x {
        assert x !in s[1..];
      }
    }
  }

  lemma OccursTwice<T>(s: seq<T>, i: nat, j: nat)
    requires i < j < |s| && s[i] == s[j]
    ensures multiset(s)[s[i]] >= 2
  {
    assert s == s[..j] + [s[j]] + s[j + 1..];
    assert s[i] == s[..j][i];
  }

  /** Reordering keeps the elements, and keeps them distinct. */
  lemma Reordered<T, K>(s: seq<T>, r: seq<T>, key: T -> K)
    requires DistinctBy(s, key) && multiset(r) == multiset(s)
    ensures DistinctBy(r, key)
    ensures forall x :: x in r <==> x in s
  {
    assert forall x :: x in r <==> x in multiset(r);
    assert forall x :: x in s <==> x in multiset(s);
    forall i, j | 0 <= i < j < |r| ensures key(r[i]) != key(r[j]) {
      if key(r[i]) == key(r[j]) {
        assert r[i] in r && r[j] in r;
        var a :| 0 <= a < |s| && s[a] == r[i];
        var b :| 0 <= b < |s| && s[b] == r[j];
        assert a == b;
        OccursTwice(r, i, j);
        OccursOnce(s, key, r[i]);
      }
    }
  }

  // ---------------------------------------------------------------- waiting

  datatype Limit = Limit(max: real, rate: real)

  datatype WaitBucket = WaitBucket(
    id: BucketId, current: real, required: real, deficit: real, rate: Option<real>, expected: Option<real>)

  predicate IsBlocked(usage: Usage, capacities: map<BucketId, real>, id: BucketId) {
    id in capacities && id.metric in usage && usage[id.metric] > capacities[id]
  }

  function Describe(usage: Usage, capacities: map<BucketId, real>, limits: map<BucketId, Limit>,
                    id: BucketId): WaitBucket
    requires IsBlocked(usage, capacities, id)
  {
    var deficit := usage[id.metric] - capacities[id];
    var rate := if id in limits then Some(limits[id].rate) else None;
    WaitBucket(id, capacities[id], usage[id.metric], deficit, rate,
               if rate.None? || rate.value <= 0.0 then None else Some(deficit / rate.value))
  }

  /** What a blocked bucket's line says: what it holds and lacks, and, where its rate is known, the time in which that
    rate makes up what it lacks. */
  lemma WaitBucketIsRight(usage: Usage, capacities: map<BucketId, real>, limits: map<BucketId, Limit>, id: BucketId)
    requires IsBlocked(usage, capacities, id)
    ensures var w := Describe(usage, capacities, limits, id);
            && w.id == id && w.current == capacities[id] && w.required == usage[id.metric]
            && w.current + w.deficit == w.required && w.deficit > 0.0
            && (w.rate.Some? <==> id in limits) && (w.rate.Some? ==> w.rate == Some(limits[id].rate))
            && (w.expected.Some? <==> id in limits && limits[id].rate > 0.0)
            && (w.expected.Some? ==> w.expected.value * limits[id].rate == w.deficit)
  {
    if id in limits && limits[id].rate > 0.0 {
      var deficit, rate := usage[id.metric] - capacities[id], limits[id].rate;
      assert deficit / rate * rate == deficit;
    }
  }

  /** `_wait_bucket_sort_key`: known waits first, the longest of them at the head. */
  predicate WaitBefore(a: WaitBucket, b: WaitBucket) {
    if a.expected.Some? != b.expected.Some? then a.expected.Some?
    else if a.expected.Some? && a.expected.value != b.expected.value then a.expected.value > b.expected.value
    else if a.id.metric != b.id.metric then a.id.metric < b.id.metric
    else a.id.window <= b.id.window
  }

  /** Exactly the blocked buckets, each once, described, in order. */
  ghost predicate IsWaitList(usage: Usage, capacities: map<BucketId, real>, limits: map<BucketId, Limit>,
                             list: seq<WaitBucket>) {
    && Sorted(list, WaitBefore)
    && Describes(usage, capacities, limits, list)
    && (forall id :: IsBlocked(usage, capacities, id) ==> exists i :: 0 <= i < |list| && list[i].id == id)
  }

  ghost predicate Describes(usage: Usage, capacities: map<BucketId, real>, limits: map<BucketId, Limit>,
                            list: seq<WaitBucket>) {
    && (forall i :: 0 <= i < |list| ==>
          IsBlocked(usage, capacities, list[i].id) && list[i] == Describe(usage, capacities, limits, list[i].id))
    && (forall i, j :: 0 <= i < j < |list| ==> list[i].id != list[j].id)
  }

  method WaitBucketDiagnostics(usage: Usage, capacities: map<BucketId, real>, limits: map<BucketId, Limit>)
    returns (list: seq<WaitBucket>)
    ensures IsWaitList(usage, capacities, limits, list)
  {
    var blocked: seq<WaitBucket> := [];
    var todo := capacities.Keys;
    while todo != {}
      invariant todo <= capacities.Keys
      invariant Describes(usage, capacities, limits, blocked)
      invariant forall i :: 0 <= i < |blocked| ==> blocked[i].id !in todo
      invariant forall id :: IsBlocked(usage, capacities, id) && id !in todo ==>
                  exists i :: 0 <= i < |blocked| && blocked[i].id == id
    {
      var id :| id in todo;
      ghost var before := blocked;
      if id.metric in usage {
        var required, current := usage[id.metric], capacities[id];
        var deficit := Max(0.0, required - current);
        if deficit > 0.0 {
          var rate := if id in limits then Some(limits[id].rate) else None;
          var expected := if rate.None? || rate.value <= 0.0 then None else Some(deficit / rate.value);
          blocked := blocked + [WaitBucket(id, current, required, deficit, rate, expected)];
          assert blocked[|before|].id == id;
        }
      }
      assert forall i :: 0 <= i < |before| ==> blocked[i] == before[i];
      todo := todo - {id};
    }
    list := SortBy(blocked, WaitBefore);
    WaitOrder();
    SortSorts(blocked, WaitBefore);
    SortedWaitList(usage, capacities, limits, blocked, list);
  }

  lemma WaitOrder()
    ensures TotalOrder(WaitBefore)
  {
  }

  lemma SortedWaitList(usage: Usage, capacities: map<BucketId, real>, limits: map<BucketId, Limit>,
                       blocked: seq<WaitBucket>, list: seq<WaitBucket>)
    requires Describes(usage, capacities, limits, blocked) && multiset(list) == multiset(blocked)
    requires forall id :: IsBlocked(usage, capacities, id) ==> exists i :: 0 <= i < |blocked| && blocked[i].id == id
    ensures Describes(usage, capacities, limits, list)
    ensures forall id :: IsBlocked(usage, capacities, id) ==> exists i :: 0 <= i < |list| && list[i].id == id
  {
    var key := (w: WaitBucket) => w.id;
    assert forall i, j :: 0 <= i < j < |blocked| ==> key(blocked[i]) != key(blocked[j]);
    Reordered(blocked, list, key);
    forall i | 0 <= i < |list|
      ensures IsBlocked(usage, capacities, list[i].id) && list[i] == Describe(usage, capacities, limits, list[i].id)
    {
      assert list[i] in blocked;
    }
    forall i, j | 0 <= i < j < |list| ensures list[i].id != list[j].id {
      assert key(list[i]) != key(list[j]);
    }
    forall id | IsBlocked(usage, capacities, id) ensures exists i :: 0 <= i < |list| && list[i].id == id {
      var k :| 0 <= k < |blocked| && blocked[k].id == id;
      assert blocked[k] in list;
    }
  }

  /** The capacities and limits that the backend reports for its buckets at `now`. */
  ghost predicate Reported(bs: Buckets, now: real, capacities: map<BucketId, real>, limits: map<BucketId, Limit>)
    requires AllSound(bs)
  {
    && (forall id :: id in bs <==> id in capacities)
    && (forall id :: id in bs ==> id in limits)
    && (forall id :: id in bs && id in capacities && id in limits ==>
          capacities[id] == Read(bs[id], now) && limits[id] == Limit(bs[id].max, Rate(bs[id].max, bs[id].per)))
  }

  /** When one bucket alone is good for its requirement, idle from now on. */
  lemma BucketRecovers(b: Bucket, required: real, now: real, wait: real)
    requires Sound(b) && WrittenBy(b, now) && required <= b.max && required > Read(b, now) && wait >= 0.0
    ensures required <= Read(b, now + wait) <==> wait >= (required - Read(b, now)) / Rate(b.max, b.per)
  {
    ReadLater(b, now, now + wait);
    var rate, deficit := Rate(b.max, b.per), required - Read(b, now);
    hide Rate, Raw;
    assert Accrued(rate, now, now + wait) == wait * rate;
    assert deficit / rate * rate == deficit;
    assert wait * rate - deficit == (wait - deficit / rate) * rate;
  }

  lemma SatisfiedStays(b: Bucket, required: real, now: real, wait: real)
    requires Sound(b) && WrittenBy(b, now) && required <= b.max && required <= Read(b, now) && wait >= 0.0
    ensures required <= Read(b, now + wait)
  {
    ReadLater(b, now, now + wait);
    AccruedPositive(Rate(b.max, b.per), now, now + wait);
    hide Rate, Raw, Accrued;
  }

  /** When every requirement fits its maximum, the primary bottleneck's expected refill is exactly the least
    idle wait after which the whole acquire would be granted; and nothing is blocked exactly when it would be now. */
  lemma PrimaryIsLeastWait(bs: Buckets, usage: Usage, now: real, capacities: map<BucketId, real>,
                           limits: map<BucketId, Limit>, list: seq<WaitBucket>)
    requires AllSound(bs) && Reported(bs, now, capacities, limits) && WithinMaxima(bs, usage)
    requires forall id :: id in bs ==> WrittenBy(bs[id], now)
    requires IsWaitList(usage, capacities, limits, list)
    ensures list == [] <==> Affordable(bs, usage, now)
    ensures list != [] ==>
              list[0].expected.Some? &&
              forall at :: at >= now ==> (Affordable(bs, usage, at) <==> at >= now + list[0].expected.value)
  {
    if list == [] {
      forall id | id in bs && id.metric in usage ensures usage[id.metric] <= Read(bs[id], now) {
        assert !IsBlocked(usage, capacities, id);
      }
    } else {
      var first := list[0].id;
      assert IsBlocked(usage, capacities, first);
      assert list[0] == Describe(usage, capacities, limits, first);
      forall at | at >= now
        ensures Affordable(bs, usage, at) <==> at >= now + list[0].expected.value
      {
        var wait := at - now;
        BucketRecovers(bs[first], usage[first.metric], now, wait);
        if wait >= list[0].expected.value {
          forall id | id in bs && id.metric in usage ensures usage[id.metric] <= Read(bs[id], at) {
            RecoversWithFirst(bs, usage, now, capacities, limits, list, id, wait);
          }
        }
      }
    }
  }

  lemma RecoversWithFirst(bs: Buckets, usage: Usage, now: real, capacities: map<BucketId, real>,
                          limits: map<BucketId, Limit>, list: seq<WaitBucket>, id: BucketId, wait: real)
    requires AllSound(bs) && Reported(bs, now, capacities, limits) && WithinMaxima(bs, usage)
    requires forall id :: id in bs ==> WrittenBy(bs[id], now)
    requires IsWaitList(usage, capacities, limits, list) && list != [] && list[0].expected.Some?
    requires id in bs && id.metric in usage && wait >= list[0].expected.value && wait >= 0.0
    ensures usage[id.metric] <= Read(bs[id], now + wait)
  {
    if IsBlocked(usage, capacities, id) {
      var i :| 0 <= i < |list| && list[i].id == id;
      assert i > 0 ==> WaitBefore(list[0], list[i]);
      assert list[i].expected == Some((usage[id.metric] - Read(bs[id], now)) / Rate(bs[id].max, bs[id].per));
      assert list[0].expected.value >= list[i].expected.value;
      BucketRecovers(bs[id], usage[id.metric], now, wait);
    } else {
      SatisfiedStays(bs[id], usage[id.metric], now, wait);
    }
  }

  // ---------------------------------------------------------------- reservation rows

  datatype RowState = PendingAcquire | DeliveryCleanup | InFlight

  /** `family` is `None` when nothing is known of the reservation, and so are age and issue time. */
  datatype Row = Row(
    id: Id, family: Option<Family>, state: RowState, usage: Option<Usage>, age: Option<real>, issued: Option<real>)

  /** What the limiter copied under its locks: the bookkeeping, the usage of those waiting, the issue times that the
    reservations' snapshots carry, and the time of the copy. */
  datatype Snapshot = Snapshot(book: Book, waiting: map<Id, Usage>, issued: map<Id, real>, now: real)

  /** Reservations are in flight, pending or being delivered, or several of these. */
  function AllIds(b: Book): set<Id> {
    b.inFlight + b.pending + b.cleanup
  }

  function StateOf(b: Book, id: Id): RowState {
    if id in b.pending then PendingAcquire else if id in b.cleanup then DeliveryCleanup else InFlight
  }

  function IssuedAt(snap: Snapshot, id: Id): Option<real> {
    if id in snap.book.snapshots && id in snap.issued then Some(snap.issued[id]) else None
  }

  function RowOf(snap: Snapshot, id: Id): Row {
    var (b, issued) := (snap.book, IssuedAt(snap, id));
    Row(id,
        if id in b.snapshots then Some(b.snapshots[id].family) else if id in b.family then Some(b.family[id]) else None,
        StateOf(b, id),
        if id in b.snapshots then Some(b.snapshots[id].usage)
        else if id in snap.waiting then Some(snap.waiting[id]) else None,
        if issued.Some? then Some(Max(0.0, snap.now - issued.value)) else None,
        issued)
  }

  ghost predicate RowsOf(snap: Snapshot, ids: set<Id>, rows: seq<Row>) {
    && |rows| == |ids|
    && (forall i :: 0 <= i < |rows| ==> rows[i].id in ids && rows[i] == RowOf(snap, rows[i].id))
    && (forall i, j :: 0 <= i < j < |rows| ==> rows[i].id != rows[j].id)
    && (forall id :: id in ids ==> exists i :: 0 <= i < |rows| && rows[i].id == id)
  }

  lemma RowsGrow(snap: Snapshot, ids: set<Id>, rows: seq<Row>, id: Id)
    requires RowsOf(snap, ids, rows) && id !in ids
    ensures RowsOf(snap, ids + {id}, rows + [RowOf(snap, id)])
  {
    var grown := rows + [RowOf(snap, id)];
    assert forall i :: 0 <= i < |rows| ==> grown[i] == rows[i];
    forall other | other in ids + {id} ensures exists i :: 0 <= i < |grown| && grown[i].id == other {
      if other == id {
        assert grown[|rows|].id == id;
      } else {
        var i :| 0 <= i < |rows| && rows[i].id == other;
        assert grown[i].id == other;
      }
    }
  }

  method ReservationRow(snap: Snapshot, id: Id) returns (row: Row)
    ensures row == RowOf(snap, id)
    ensures var b := snap.book;
            && row.id == id
            && (row.state == PendingAcquire <==> id in b.pending)
            && (row.state == DeliveryCleanup <==> id in b.cleanup && id !in b.pending)
            && (id in b.snapshots ==>
                  row.family == Some(b.snapshots[id].family) && row.usage == Some(b.snapshots[id].usage))
            && (id !in b.snapshots ==>
                  && row.family == (if id in b.family then Some(b.family[id]) else None)
                  && row.usage == (if id in snap.waiting then Some(snap.waiting[id]) else None))
            && (row.issued.Some? <==> id in b.snapshots && id in snap.issued)
            && (row.issued.Some? ==>
                  row.issued.value == snap.issued[id]
                  && row.age == Some(if snap.now < snap.issued[id] then 0.0 else snap.now - snap.issued[id]))
            && (row.issued.None? ==> row.age.None?)
  {
    var b := snap.book;
    var state := if id in b.pending then PendingAcquire else if id in b.cleanup then DeliveryCleanup else InFlight;
    var family :=
      if id in b.snapshots then Some(b.snapshots[id].family) else if id in b.family then Some(b.family[id]) else None;
    var usage :=
      if id in b.snapshots then Some(b.snapshots[id].usage)
      else if id in snap.waiting then Some(snap.waiting[id]) else None;
    var issued := if id in b.snapshots && id in snap.issued then Some(snap.issued[id]) else None;
    var age := if issued.Some? then Some(Max(0.0, snap.now - issued.value)) else None;
    row := Row(id, family, state, usage, age, issued);
  }

  /** One row for every reservation in any of the three sets. */
  method ReservationRows(snap: Snapshot) returns (rows: seq<Row>)
    ensures RowsOf(snap, AllIds(snap.book), rows)
    ensures forall id :: id in snap.book.pending || id in snap.book.inFlight || id in snap.book.cleanup <==>
              exists i :: 0 <= i < |rows| && rows[i].id == id
  {
    rows := [];
    var all := AllIds(snap.book);
    var todo := all;
    ghost var done: set<Id> := {};
    while todo != {}
      invariant todo !! done && todo + done == all
      invariant RowsOf(snap, done, rows)
    {
      hide RowsOf;
      var id :| id in todo;
      var row := ReservationRow(snap, id);
      hide RowOf;
      RowsGrow(snap, done, rows, id);
      rows := rows + [row];
      done := done + {id};
      todo := todo - {id};
    }
    assert done == all;
  }

  /** In a consistent bookkeeping the states partition the rows as the sets do, and only a reservation that is
    neither pending nor in flight can be without a family. */
  lemma RowsMatchBook(cap: nat, snap: Snapshot, rows: seq<Row>)
    requires Consistent(cap, snap.book) && RowsOf(snap, AllIds(snap.book), rows)
    ensures var b := snap.book;
            forall i :: 0 <= i < |rows| ==>
              && (rows[i].state == PendingAcquire <==> rows[i].id in b.pending)
              && (rows[i].state == DeliveryCleanup <==> rows[i].id in b.cleanup && rows[i].id !in b.pending)
              && (rows[i].state == InFlight <==> rows[i].id in b.inFlight && rows[i].id !in b.cleanup)
              && (rows[i].id in b.inFlight ==>
                    && rows[i].usage == Some(b.snapshots[rows[i].id].usage)
                    && rows[i].family == Some(b.snapshots[rows[i].id].family))
              && (rows[i].family.None? ==> rows[i].id !in b.pending && rows[i].id !in b.inFlight)
    ensures snap.book.drained ==> |rows| == |snap.book.inFlight|
  {
    if snap.book.drained {
      assert AllIds(snap.book) == snap.book.inFlight;
    }
  }

  // ---------------------------------------------------------------- reservation groups

  /** A group collects the rows of one family, one metric (`None` for rows without usage) and one state, or all. */
  datatype GroupKey = GroupKey(family: Option<Family>, metric: Option<Metric>, state: Option<RowState>)

  function RowMetrics(r: Row): set<Option<Metric>> {
    if r.usage.None? || r.usage.value == map[] then {None} else set m | m in r.usage.value :: Some(m)
  }

  predicate InGroup(r: Row, k: GroupKey) {
    r.family == k.family && k.metric in RowMetrics(r) && (k.state.None? || k.state == Some(r.state))
  }

  function Members(rows: seq<Row>, k: GroupKey): seq<Row> {
    if rows == [] then []
    else Members(rows[..|rows| - 1], k) + if InGroup(rows[|rows| - 1], k) then [rows[|rows| - 1]] else []
  }

  type Groups = map<GroupKey, seq<Row>>

  function GroupOf(groups: Groups, k: GroupKey): seq<Row> {
    if k in groups then groups[k] else []
  }

  method AddToGroup(groups: Groups, k: GroupKey, r: Row) returns (later: Groups)
    ensures forall k' :: GroupOf(later, k') == if k' == k then GroupOf(groups, k) + [r] else GroupOf(groups, k')
    ensures (forall k' :: k' in groups ==> groups[k'] != []) ==> forall k' :: k' in later ==> later[k'] != []
  {
    later := groups[k := (if k in groups then groups[k] else []) + [r]];
  }

  /** Every row goes, once per metric, to its state's group and to the group of all. */
  method ReservationGroups(rows: seq<Row>) returns (groups: Groups)
    ensures forall k :: GroupOf(groups, k) == Members(rows, k)
    ensures forall k :: k in groups ==> groups[k] != []
  {
    groups := map[];
    for i := 0 to |rows|
      invariant forall k :: GroupOf(groups, k) == Members(rows[..i], k)
      invariant forall k :: k in groups ==> groups[k] != []
    {
      groups := AddRow(groups, rows[i]);
      assert rows[..i + 1][..i] == rows[..i];
    }
    assert rows[..|rows|] == rows;
  }

  method AddRow(groups: Groups, r: Row) returns (later: Groups)
    requires forall k :: k in groups ==> groups[k] != []
    ensures forall k :: GroupOf(later, k) == GroupOf(groups, k) + if InGroup(r, k) then [r] else []
    ensures forall k :: k in later ==> later[k] != []
  {
    later := groups;
    var todo := RowMetrics(r);
    while todo != {}
      invariant todo <= RowMetrics(r)
      invariant forall k :: GroupOf(later, k) ==
                  GroupOf(groups, k) + if InGroup(r, k) && k.metric !in todo then [r] else []
      invariant forall k :: k in later ==> later[k] != []
    {
      var metric :| metric in todo;
      ghost var before := later;
      var own, all := GroupKey(r.family, metric, Some(r.state)), GroupKey(r.family, metric, None);
      later := AddToGroup(later, own, r);
      later := AddToGroup(later, all, r);
      forall k ensures GroupOf(later, k) == GroupOf(before, k) + if k == own || k == all then [r] else [] {
      }
      assert forall k :: (k == own || k == all) <==> InGroup(r, k) && k.metric == metric;
      todo := todo - {metric};
    }
  }

  function UsageIn(r: Row, m: Metric): real {
    if r.usage.Some? && m in r.usage.value then r.usage.value[m] else 0.0
  }

  function TotalUsage(rows: seq<Row>, m: Metric): real {
    if rows == [] then 0.0 else TotalUsage(rows[..|rows| - 1], m) + UsageIn(rows[|rows| - 1], m)
  }

  lemma TotalOfOneMore(rows: seq<Row>, r: Row, m: Metric)
    ensures TotalUsage(rows + [r], m) == TotalUsage(rows, m) + UsageIn(r, m)
  {
    assert (rows + [r])[..|rows|] == rows;
  }

  /** A group's rows are those of its family, its metric and its state, each as often as it occurs. */
  lemma {:induction false} MembersAreRows(rows: seq<Row>, k: GroupKey, r: Row)
    ensures multiset(Members(rows, k))[r] ==
            if && r.family == k.family
               && (if k.metric.Some? then r.usage.Some? && k.metric.value in r.usage.value
                   else r.usage.None? || r.usage.value == map[])
               && (k.state.None? || k.state.value == r.state)
            then multiset(rows)[r] else 0
  {
    if rows != [] {
      MembersAreRows(rows[..|rows| - 1], k, r);
      assert rows == rows[..|rows| - 1] + [rows[|rows| - 1]];
    }
  }

  /** A metric's total is the sum of what the rows reserved of it. */
  lemma TotalIsSum(rows: seq<Row>, r: Row, m: Metric)
    ensures TotalUsage([], m) == 0.0
    ensures TotalUsage(rows + [r], m) ==
            TotalUsage(rows, m) + if r.usage.Some? && m in r.usage.value then r.usage.value[m] else 0.0
  {
    TotalOfOneMore(rows, r, m);
  }

  lemma MembersGrow(rows: seq<Row>, k: GroupKey)
    requires rows != []
    ensures var (before, r) := (Members(rows[..|rows| - 1], k), rows[|rows| - 1]);
            && |Members(rows, k)| == |before| + (if InGroup(r, k) then 1 else 0)
            && forall m :: TotalUsage(Members(rows, k), m)
                           == TotalUsage(before, m) + if InGroup(r, k) then UsageIn(r, m) else 0.0
  {
    var before, r := Members(rows[..|rows| - 1], k), rows[|rows| - 1];
    forall m: Metric ensures TotalUsage(before + [r], m) == TotalUsage(before, m) + UsageIn(r, m) {
      TotalOfOneMore(before, r, m);
    }
    assert before + [] == before;
  }

  /** Every "all" group counts and adds up what its per-state groups do. */
  lemma {:induction false} AllIsTheSumOfStates(rows: seq<Row>, family: Option<Family>, metric: Option<Metric>,
                                               m: Metric)
    ensures var all := Members(rows, GroupKey(family, metric, None));
            var pending := Members(rows, GroupKey(family, metric, Some(PendingAcquire)));
            var cleanup := Members(rows, GroupKey(family, metric, Some(DeliveryCleanup)));
            var inFlight := Members(rows, GroupKey(family, metric, Some(InFlight)));
            && |all| == |pending| + |cleanup| + |inFlight|
            && TotalUsage(all, m) == TotalUsage(pending, m) + TotalUsage(cleanup, m) + TotalUsage(inFlight, m)
  {
    if rows != [] {
      AllIsTheSumOfStates(rows[..|rows| - 1], family, metric, m);
      MembersGrow(rows, GroupKey(family, metric, None));
      MembersGrow(rows, GroupKey(family, metric, Some(PendingAcquire)));
      MembersGrow(rows, GroupKey(family, metric, Some(DeliveryCleanup)));
      MembersGrow(rows, GroupKey(family, metric, Some(InFlight)));
      // the last row is in the group of all exactly when it is in the group of its own state
      var r := rows[|rows| - 1];
      var counted := r.family == family && metric in RowMetrics(r);
      assert forall state :: InGroup(r, GroupKey(family, metric, Some(state))) <==> counted && r.state == state;
      hide Members, TotalUsage;
    }
  }

  // ---------------------------------------------------------------- describing the groups

  const SAMPLE_LIMIT := 100

  /** The earliest issued first, those of unknown issue last, then by id. */
  predicate RowBefore(a: Row, b: Row) {
    if a.issued != b.issued then a.issued.Some? && (b.issued.None? || a.issued.value < b.issued.value)
    else a.id <= b.id
  }

  datatype GroupDiagnostic = GroupDiagnostic(
    key: GroupKey, count: nat, usage: Option<real>, oldestAge: Option<real>, oldest: Id, ids: seq<Id>, truncated: bool)

  function Later(a: Option<real>, b: Option<real>): Option<real> {
    if a.None? then b else if b.None? then a else Some(Max(a.value, b.value))
  }

  function OldestAge(rows: seq<Row>): Option<real> {
    if rows == [] then None else Later(rows[0].age, OldestAge(rows[1..]))
  }

  function Ids(rows: seq<Row>): seq<Id> {
    seq(|rows|, i requires 0 <= i < |rows| => rows[i].id)
  }

  function DescribeGroup(k: GroupKey, rows: seq<Row>): GroupDiagnostic
    requires rows != []
  {
    var ordered := SortBy(rows, RowBefore);
    assert |multiset(ordered)| == |multiset(rows)|;
    GroupDiagnostic(
      k, |rows|, if k.metric.Some? then Some(TotalUsage(rows, k.metric.value)) else None, OldestAge(rows),
      ordered[0].id,
      Ids(if |ordered| <= SAMPLE_LIMIT then ordered else ordered[..SAMPLE_LIMIT]), |ordered| > SAMPLE_LIMIT)
  }

  /** The figures of a group: how many rows, what they reserved of its metric, and the ids of the first hundred in the
    order of issue, marked when there are more. */
  lemma GroupFigures(k: GroupKey, rows: seq<Row>)
    requires rows != []
    ensures var g := DescribeGroup(k, rows);
            && g.key == k && g.count == |rows|
            && g.usage == (if k.metric.Some? then Some(TotalUsage(rows, k.metric.value)) else None)
            && |g.ids| == (if |rows| < 100 then |rows| else 100)
            && (g.truncated <==> |rows| > 100)
    ensures exists ordered: seq<Row> ::
              && multiset(ordered) == multiset(rows) && Sorted(ordered, RowBefore)
              && var g := DescribeGroup(k, rows);
                 |g.ids| <= |ordered| && forall i :: 0 <= i < |g.ids| ==> g.ids[i] == ordered[i].id
  {
    var ordered := SortBy(rows, RowBefore);
    assert |multiset(ordered)| == |multiset(rows)|;
    RowOrder();
    SortSorts(rows, RowBefore);
    hide TotalOrder, Sorted, RowBefore, SortBy, OldestAge, TotalUsage;
    assert multiset(ordered) == multiset(rows) && Sorted(ordered, RowBefore);
  }

  function StateRank(state: Option<RowState>): nat {
    match state
    case None => 0
    case Some(PendingAcquire) => 1
    case Some(InFlight) => 2
    case Some(DeliveryCleanup) => 3
  }

  /** By family, metric and state; a missing metric sorts first, as the empty name does, and an unknown family last. */
  predicate GroupBefore(a: GroupDiagnostic, b: GroupDiagnostic) {
    if a.key.family != b.key.family then
      a.key.family.Some? && (b.key.family.None? || a.key.family.value < b.key.family.value)
    else if a.key.metric != b.key.metric then
      b.key.metric.Some? && (a.key.metric.None? || a.key.metric.value < b.key.metric.value)
    else StateRank(a.key.state) <= StateRank(b.key.state)
  }

  /** Known families ascend, within them the metrics, within these all rows, then pending, in flight, delivery. */
  lemma GroupOrderIs(a: GroupDiagnostic, b: GroupDiagnostic)
    requires GroupBefore(a, b)
    ensures a.key.family.Some? && b.key.family.Some? ==> a.key.family.value <= b.key.family.value
    ensures a.key.family == b.key.family && a.key.metric.Some? && b.key.metric.Some? ==>
              a.key.metric.value <= b.key.metric.value
    ensures a.key.family == b.key.family && a.key.metric == b.key.metric && a.key.state != b.key.state ==>
              || a.key.state == None
              || (a.key.state == Some(PendingAcquire) && b.key.state != None)
              || (a.key.state == Some(InFlight) && b.key.state == Some(DeliveryCleanup))
  {
  }

  lemma RowOrderIs(a: Row, b: Row)
    requires RowBefore(a, b)
    ensures b.issued.Some? ==> a.issued.Some? && a.issued.value <= b.issued.value
    ensures a.issued == b.issued ==> a.id <= b.id
  {
  }

  lemma KeyOrderIs(a: Diagnostic, b: Diagnostic)
    requires KeyBefore(a, b)
    ensures a.key.0 <= b.key.0
    ensures a.key.0 == b.key.0 ==> a.key.1.metric <= b.key.1.metric
    ensures a.key.0 == b.key.0 && a.key.1.metric == b.key.1.metric ==> a.key.1.window <= b.key.1.window
  {
  }

  const GROUP_KEY := (g: GroupDiagnostic) => g.key

  /** The description is that of a group that has rows. */
  predicate DescribedFrom(g: GroupDiagnostic, rows: seq<Row>) {
    Members(rows, g.key) != [] && g == DescribeGroup(g.key, Members(rows, g.key))
  }

  predicate Lists(list: seq<GroupDiagnostic>, k: GroupKey) {
    exists i :: 0 <= i < |list| && list[i].key == k
  }

  /** Exactly the groups that have rows, each once, described from its rows. */
  ghost predicate DescribesGroups(rows: seq<Row>, keys: set<GroupKey>, list: seq<GroupDiagnostic>) {
    && DistinctBy(list, GROUP_KEY)
    && (forall g :: g in list ==> g.key in keys && DescribedFrom(g, rows))
    && (forall k :: k in keys ==> Lists(list, k))
  }

  lemma DescribesOneMore(rows: seq<Row>, keys: set<GroupKey>, list: seq<GroupDiagnostic>, g: GroupDiagnostic)
    requires DescribesGroups(rows, keys, list) && g.key !in keys && DescribedFrom(g, rows)
    ensures DescribesGroups(rows, keys + {g.key}, list + [g])
  {
    hide DescribedFrom;
    var grown := list + [g];
    forall i, j | 0 <= i < j < |grown| ensures GROUP_KEY(grown[i]) != GROUP_KEY(grown[j]) {
      assert grown[i] in list;
    }
    forall k | k in keys + {g.key} ensures Lists(grown, k) {
      if k == g.key {
        assert grown[|list|].key == k;
      } else {
        assert Lists(list, k);
        var i :| 0 <= i < |list| && list[i].key == k;
        assert grown[i].key == k;
      }
    }
  }

  /** The groups as the report lists them: one description for each group with rows, in order. */
  method DescribeGroups(rows: seq<Row>) returns (list: seq<GroupDiagnostic>)
    ensures Sorted(list, GroupBefore)
    ensures DistinctBy(list, GROUP_KEY)
    ensures forall g :: g in list ==> DescribedFrom(g, rows)
    ensures forall k :: Members(rows, k) != [] ==> Lists(list, k)
  {
    var groups := ReservationGroups(rows);
    var found := DescribeEach(rows, groups);
    hide DescribedFrom, Sorted, TotalOrder, DescribeGroup, Members;
    forall k | Members(rows, k) != [] ensures k in groups {
      assert GroupOf(groups, k) == Members(rows, k);
    }
    list := SortBy(found, GroupBefore);
    GroupOrder();
    SortSorts(found, GroupBefore);
    Reordered(found, list, GROUP_KEY);
    SameMembers(found, list);
  }

  lemma SameMembers(found: seq<GroupDiagnostic>, list: seq<GroupDiagnostic>)
    requires multiset(found) == multiset(list)
    ensures forall g :: g in list <==> g in found
    ensures forall k :: Lists(found, k) ==> Lists(list, k)
  {
    forall g: GroupDiagnostic ensures g in list <==> g in found {
      assert g in list <==> g in multiset(list);
      assert g in found <==> g in multiset(found);
    }
    forall k | Lists(found, k) ensures Lists(list, k) {
      var i :| 0 <= i < |found| && found[i].key == k;
      assert found[i] in list;
    }
  }

  method DescribeEach(rows: seq<Row>, groups: Groups) returns (found: seq<GroupDiagnostic>)
    requires forall k :: GroupOf(groups, k) == Members(rows, k)
    requires forall k :: k in groups ==> groups[k] != []
    ensures DescribesGroups(rows, groups.Keys, found)
  {
    found := [];
    var todo := groups.Keys;
    ghost var done: set<GroupKey> := {};
    while todo != {}
      invariant todo !! done && todo + done == groups.Keys
      invariant DescribesGroups(rows, done, found)
    {
      var k :| k in todo;
      assert GroupOf(groups, k) == Members(rows, k);
      var g := DescribeGroup(k, groups[k]);
      assert DescribedFrom(g, rows);
      hide DescribesGroups, DescribedFrom, DescribeGroup, Members;
      DescribesOneMore(rows, done, found, g);
      found := found + [g];
      done := done + {k};
      todo := todo - {k};
    }
    assert done == groups.Keys;
  }

  lemma GroupOrder()
    ensures TotalOrder(GroupBefore)
  {
  }

  lemma RowOrder()
    ensures TotalOrder(RowBefore)
  {
  }

  lemma {:induction false} OldestAgeIsLargest(rows: seq<Row>)
    ensures forall i :: 0 <= i < |rows| && rows[i].age.Some? ==>
              OldestAge(rows).Some? && OldestAge(rows).value >= rows[i].age.value
    ensures OldestAge(rows).Some? ==> exists i :: 0 <= i < |rows| && rows[i].age == OldestAge(rows)
  {
    if rows != [] {
      OldestAgeIsLargest(rows[1..]);
      forall i | 0 <= i < |rows| && rows[i].age.Some?
        ensures OldestAge(rows).Some? && OldestAge(rows).value >= rows[i].age.value
      {
        if i > 0 {
          assert rows[i] == rows[1..][i - 1];
        }
      }
      if OldestAge(rows).Some? && rows[0].age != OldestAge(rows) {
        var i :| 0 <= i < |rows[1..]| && rows[1..][i].age == OldestAge(rows[1..]);
        assert rows[i + 1].age == OldestAge(rows);
      }
    }
  }

  /** The ages of the rows were all taken at `now` from their issue times. */
  predicate AgedAt(rows: seq<Row>, now: real) {
    forall i :: 0 <= i < |rows| ==>
      rows[i].age == if rows[i].issued.Some? then Some(Max(0.0, now - rows[i].issued.value)) else None
  }

  lemma FirstComesFirst(rows: seq<Row>, ordered: seq<Row>)
    requires ordered != [] && multiset(ordered) == multiset(rows) && Sorted(ordered, RowBefore)
    ensures ordered[0] in rows && forall other :: other in rows ==> RowBefore(ordered[0], other)
  {
    RowOrder();
    hide RowBefore;
    assert ordered[0] in multiset(ordered);
    forall other | other in rows ensures RowBefore(ordered[0], other) {
      assert other in multiset(ordered);
      var i :| 0 <= i < |ordered| && ordered[i] == other;
    }
  }

  lemma EarliestIsOldest(rows: seq<Row>, first: Row, now: real)
    requires AgedAt(rows, now) && first in rows && forall other :: other in rows ==> RowBefore(first, other)
    ensures first.age == OldestAge(rows)
  {
    OldestAgeIsLargest(rows);
    hide OldestAge;
    var f :| 0 <= f < |rows| && rows[f] == first;
    if OldestAge(rows).Some? {
      var i :| 0 <= i < |rows| && rows[i].age == OldestAge(rows);
      assert rows[i] in rows && RowBefore(first, rows[i]);
    }
  }

  /** The reservation reported as a group's oldest is one of its rows, none was issued earlier, and its age is the
    group's oldest age. */
  lemma OldestIsOldest(k: GroupKey, rows: seq<Row>, now: real)
    requires rows != [] && AgedAt(rows, now)
    ensures exists r :: r in rows && r.id == DescribeGroup(k, rows).oldest && r.age == DescribeGroup(k, rows).oldestAge
                        && forall other :: other in rows ==> RowBefore(r, other)
  {
    var ordered := SortBy(rows, RowBefore);
    RowOrder();
    SortSorts(rows, RowBefore);
    assert |multiset(ordered)| == |multiset(rows)|;
    hide TotalOrder, Sorted, RowBefore, SortBy, OldestAge, AgedAt;
    FirstComesFirst(rows, ordered);
    EarliestIsOldest(rows, ordered[0], now);
  }

  // ---------------------------------------------------------------- reconciling buckets

  type BucketKey = (Family, BucketId)

  datatype Source = NoOverride | FromLimiter | FromBackend | FromBoth

  datatype BucketStatus = Fine | FreshStart | PartialMissing | StateLoss | NotReturned

  datatype Diagnostic = Diagnostic(
    key: BucketKey, sqlite: bool, status: BucketStatus, current: Option<real>,
    configured: real, override: Option<real>, source: Source, effective: real)

  datatype Issue = NotInBackend(key: BucketKey) | NotInQuotas(key: BucketKey) | OverridesDiffer(key: BucketKey)

  function MakeBucket(key: BucketKey, sqlite: bool, status: BucketStatus, current: Option<real>, configured: real,
                      effective: real, source: Source): Diagnostic {
    Diagnostic(key, sqlite, status, current, configured,
               if source != NoOverride || !IsClose(configured, effective) then Some(effective) else None,
               source, effective)
  }

  /** A SQLite bucket that was read is the authority on whether an override is still in force. */
  function LocalOverride(b: Diagnostic, local: Option<real>): Option<real> {
    if b.sqlite && b.override.None?
       && (b.status in {Fine, FreshStart} || (b.status in {PartialMissing, StateLoss} && b.current.Some?))
    then None else local
  }

  function Reconciled(b: Diagnostic, configured: real, local: Option<real>): Diagnostic {
    var own := LocalOverride(b, local);
    var (effective, source) :=
      if b.override.Some? then (b.override.value, if own.Some? then FromBoth else FromBackend)
      else if own.Some? then (own.value, FromLimiter)
      else (configured, NoOverride);
    MakeBucket(b.key, b.sqlite, b.status, b.current, configured, effective, source)
  }

  /** Whose override counts: the backend's, else the limiter's, unless a SQLite bucket that was read shows none. */
  lemma ReconciledIsRight(b: Diagnostic, configured: real, local: Option<real>)
    ensures var r := Reconciled(b, configured, local);
            var wasRead := b.status == Fine || b.status == FreshStart
                           || ((b.status == PartialMissing || b.status == StateLoss) && b.current.Some?);
            var own := local.Some? && !(b.sqlite && b.override.None? && wasRead);
            && r.key == b.key && r.status == b.status && r.current == b.current && r.configured == configured
            && (r.source == FromBoth <==> b.override.Some? && own)
            && (r.source == FromBackend <==> b.override.Some? && !own)
            && (r.source == FromLimiter <==> b.override.None? && own)
            && r.effective == (if b.override.Some? then b.override.value else if own then local.value else configured)
    ensures Differ(b, local) <==> b.override.Some? && local.Some? && !IsClose(local.value, b.override.value)
  {
  }

  lemma UnreturnedIsRight(key: BucketKey, sqlite: bool, configured: real, local: Option<real>)
    ensures var r := Unreturned(key, sqlite, configured, local);
            && r.key == key && r.status == NotReturned && r.current.None? && r.configured == configured
            && r.effective == (if local.Some? then local.value else configured)
            && r.source == (if local.Some? then FromLimiter else NoOverride)
  {
  }

  predicate Differ(b: Diagnostic, local: Option<real>) {
    var own := LocalOverride(b, local);
    b.override.Some? && own.Some? && !IsClose(own.value, b.override.value)
  }

  function Unreturned(key: BucketKey, sqlite: bool, configured: real, local: Option<real>): Diagnostic {
    MakeBucket(key, sqlite, NotReturned, None, configured,
               if local.None? then configured else local.value, if local.None? then NoOverride else FromLimiter)
  }

  /** A later result for the same bucket replaces an earlier one. */
  function Latest(results: seq<Diagnostic>): (r: map<BucketKey, Diagnostic>)
    ensures forall k :: k in r ==> r[k].key == k && r[k] in results
    ensures forall i :: 0 <= i < |results| ==> results[i].key in r
  {
    if results == [] then map[]
    else
      var last := results[|results| - 1];
      Latest(results[..|results| - 1])[last.key := last]
  }

  lemma {:induction false} LatestWins(results: seq<Diagnostic>, i: nat)
    requires i < |results| && forall j :: i < j < |results| ==> results[j].key != results[i].key
    ensures results[i].key in Latest(results) && Latest(results)[results[i].key] == results[i]
  {
    if i < |results| - 1 {
      LatestWins(results[..|results| - 1], i);
    }
  }

  function LocalOf(overrides: map<BucketKey, real>, k: BucketKey): Option<real> {
    if k in overrides then Some(overrides[k]) else None
  }

  function Expected(sqlite: bool, quotas: map<BucketKey, real>, overrides: map<BucketKey, real>,
                    found: map<BucketKey, Diagnostic>, k: BucketKey): Diagnostic
    requires k in quotas || k in found
  {
    if k !in quotas then found[k]
    else if k !in found then Unreturned(k, sqlite, quotas[k], LocalOf(overrides, k))
    else Reconciled(found[k], quotas[k], LocalOf(overrides, k))
  }

  predicate KeyBefore(a: Diagnostic, b: Diagnostic) {
    if a.key.0 != b.key.0 then a.key.0 < b.key.0
    else if a.key.1.metric != b.key.1.metric then a.key.1.metric < b.key.1.metric
    else a.key.1.window <= b.key.1.window
  }

  const KEY := (d: Diagnostic) => d.key

  /** Exactly the buckets of `keys`, each once, with the value expected of it. */
  ghost predicate Covers(sqlite: bool, quotas: map<BucketKey, real>, overrides: map<BucketKey, real>,
                         found: map<BucketKey, Diagnostic>, keys: set<BucketKey>, buckets: seq<Diagnostic>) {
    && DistinctBy(buckets, KEY)
    && (forall d :: d in buckets ==> d.key in keys && (d.key in quotas || d.key in found)
                                     && d == Expected(sqlite, quotas, overrides, found, d.key))
    && (forall k :: k in keys && (k in quotas || k in found) ==>
        Expected(sqlite, quotas, overrides, found, k) in buckets)
  }

  ghost predicate IssuesOf(quotas: map<BucketKey, real>, overrides: map<BucketKey, real>,
                           found: map<BucketKey, Diagnostic>, keys: set<BucketKey>, issues: seq<Issue>) {
    && (forall k :: NotInBackend(k) in issues <==> k in keys && k in quotas && k !in found)
    && (forall k :: NotInQuotas(k) in issues <==> k in keys && k !in quotas && k in found)
    && (forall k :: OverridesDiffer(k) in issues <==>
          k in keys && k in quotas && k in found && Differ(found[k], LocalOf(overrides, k)))
  }

  lemma ExpectedKey(sqlite: bool, quotas: map<BucketKey, real>, overrides: map<BucketKey, real>,
                    found: map<BucketKey, Diagnostic>, k: BucketKey)
    requires k in quotas || k in found
    requires forall k :: k in found ==> found[k].key == k
    ensures Expected(sqlite, quotas, overrides, found, k).key == k
  {
  }

  lemma CoversOneMore(sqlite: bool, quotas: map<BucketKey, real>, overrides: map<BucketKey, real>,
                      found: map<BucketKey, Diagnostic>, keys: set<BucketKey>, buckets: seq<Diagnostic>, k: BucketKey)
    requires Covers(sqlite, quotas, overrides, found, keys, buckets) && k !in keys && (k in quotas || k in found)
    requires forall k :: k in found ==> found[k].key == k
    ensures Covers(sqlite, quotas, overrides, found, keys + {k},
                   buckets + [Expected(sqlite, quotas, overrides, found, k)])
  {
    hide Expected;
    var d := Expected(sqlite, quotas, overrides, found, k);
    ExpectedKey(sqlite, quotas, overrides, found, k);
    var grown := buckets + [d];
    forall i, j | 0 <= i < j < |grown| ensures KEY(grown[i]) != KEY(grown[j]) {
      assert grown[i] in buckets;
    }
  }

  function IssueFor(quotas: map<BucketKey, real>, overrides: map<BucketKey, real>, found: map<BucketKey, Diagnostic>,
                    k: BucketKey): seq<Issue>
    requires k in quotas || k in found
  {
    if k !in quotas then [NotInQuotas(k)]
    else if k !in found then [NotInBackend(k)]
    else if Differ(found[k], LocalOf(overrides, k)) then [OverridesDiffer(k)]
    else []
  }

  lemma IssuesOneMore(quotas: map<BucketKey, real>, overrides: map<BucketKey, real>, found: map<BucketKey, Diagnostic>,
                      keys: set<BucketKey>, issues: seq<Issue>, k: BucketKey)
    requires IssuesOf(quotas, overrides, found, keys, issues) && k !in keys && (k in quotas || k in found)
    ensures IssuesOf(quotas, overrides, found, keys + {k}, issues + IssueFor(quotas, overrides, found, k))
  {
    hide Differ, LocalOf;
    var more := IssueFor(quotas, overrides, found, k);
    assert forall issue :: issue in issues + more <==> issue in issues || issue in more;
  }

  /** One configured bucket: reconciled with what the backend returned for it, or reported as not returned. */
  method ReconcileQuota(sqlite: bool, quotas: map<BucketKey, real>, overrides: map<BucketKey, real>,
                        found: map<BucketKey, Diagnostic>, k: BucketKey)
    returns (bucket: Diagnostic, issues: seq<Issue>)
    requires k in quotas
    ensures bucket == Expected(sqlite, quotas, overrides, found, k)
    ensures issues == IssueFor(quotas, overrides, found, k)
  {
    hide Reconciled, Unreturned, Differ;
    var local := if k in overrides then Some(overrides[k]) else None;
    if k !in found {
      return Unreturned(k, sqlite, quotas[k], local), [NotInBackend(k)];
    }
    bucket := Reconciled(found[k], quotas[k], local);
    issues := if Differ(found[k], local) then [OverridesDiffer(k)] else [];
  }

  lemma NothingCovered(sqlite: bool, quotas: map<BucketKey, real>, overrides: map<BucketKey, real>,
                       found: map<BucketKey, Diagnostic>)
    ensures Covers(sqlite, quotas, overrides, found, {}, [])
    ensures IssuesOf(quotas, overrides, found, {}, [])
  {
  }

  /** The quotas' buckets, each looked up and taken out of what the backend returned. */
  method ReconcileQuotas(sqlite: bool, quotas: map<BucketKey, real>, overrides: map<BucketKey, real>,
                         found: map<BucketKey, Diagnostic>)
    returns (list: seq<Diagnostic>, issues: seq<Issue>, left: map<BucketKey, Diagnostic>)
    requires forall k :: k in found ==> found[k].key == k
    ensures left == found - quotas.Keys
    ensures Covers(sqlite, quotas, overrides, found, quotas.Keys, list)
    ensures IssuesOf(quotas, overrides, found, quotas.Keys, issues)
  {
    hide Covers, IssuesOf, Expected, IssueFor;
    left, list, issues := found, [], [];
    NothingCovered(sqlite, quotas, overrides, found);
    var todo := quotas.Keys;
    ghost var done: set<BucketKey> := {};
    while todo != {}
      invariant todo !! done && todo + done == quotas.Keys
      invariant forall k :: k in left <==> k in found && k !in done
      invariant forall k :: k in left ==> left[k] == found[k]
      invariant Covers(sqlite, quotas, overrides, found, done, list)
      invariant IssuesOf(quotas, overrides, found, done, issues)
    {
      var k :| k in todo;
      CoversOneMore(sqlite, quotas, overrides, found, done, list, k);
      IssuesOneMore(quotas, overrides, found, done, issues, k);
      var bucket, more := ReconcileQuota(sqlite, quotas, overrides, found, k);
      list := list + [bucket];
      issues := issues + more;
      left := left - {k};
      done := done + {k};
      todo := todo - {k};
    }
    assert done == quotas.Keys;
    assert left == found - quotas.Keys;
  }

  /** What the backend returned beyond the quotas. */
  method AppendLeftovers(sqlite: bool, quotas: map<BucketKey, real>, overrides: map<BucketKey, real>,
                         found: map<BucketKey, Diagnostic>, first: seq<Diagnostic>, firstIssues: seq<Issue>)
    returns (list: seq<Diagnostic>, issues: seq<Issue>)
    requires forall k :: k in found ==> found[k].key == k
    requires Covers(sqlite, quotas, overrides, found, quotas.Keys, first)
    requires IssuesOf(quotas, overrides, found, quotas.Keys, firstIssues)
    ensures Covers(sqlite, quotas, overrides, found, quotas.Keys + found.Keys, list)
    ensures IssuesOf(quotas, overrides, found, quotas.Keys + found.Keys, issues)
  {
    list, issues := first, firstIssues;
    var todo := (found - quotas.Keys).Keys;
    ghost var done := quotas.Keys;
    while todo != {}
      invariant todo !! done && todo + done == quotas.Keys + found.Keys && quotas.Keys <= done
      invariant Covers(sqlite, quotas, overrides, found, done, list)
      invariant IssuesOf(quotas, overrides, found, done, issues)
    {
      hide Covers, IssuesOf, Reconciled, Unreturned, Differ, LocalOf;
      var k :| k in todo;
      CoversOneMore(sqlite, quotas, overrides, found, done, list, k);
      IssuesOneMore(quotas, overrides, found, done, issues, k);
      list := list + [found[k]];
      issues := issues + [NotInQuotas(k)];
      done := done + {k};
      todo := todo - {k};
    }
    assert done == quotas.Keys + found.Keys;
  }

  /** Every bucket of the union of quotas and backend results comes out exactly once, in order, with the backend's
    override preferred to the limiter's, and the issues name exactly the buckets on one side only and the
    overrides that differ. */
  method ReconcileBuckets(sqlite: bool, quotas: map<BucketKey, real>, overrides: map<BucketKey, real>,
                          results: seq<Diagnostic>)
    returns (buckets: seq<Diagnostic>, inForce: seq<OverrideDiagnostic>, issues: seq<Issue>)
    ensures inForce == OverridesOf(buckets)
    ensures Sorted(buckets, KeyBefore)
    ensures Covers(sqlite, quotas, overrides, Latest(results), quotas.Keys + Latest(results).Keys, buckets)
    ensures IssuesOf(quotas, overrides, Latest(results), quotas.Keys + Latest(results).Keys, issues)
  {
    hide Expected, IssuesOf, Covers, TotalOrder, Sorted;
    var found := Latest(results);
    var list, left;
    list, issues, left := ReconcileQuotas(sqlite, quotas, overrides, found);
    list, issues := AppendLeftovers(sqlite, quotas, overrides, found, list, issues);
    buckets := SortBy(list, KeyBefore);
    KeyOrder();
    SortSorts(list, KeyBefore);
    CoversReordered(sqlite, quotas, overrides, found, quotas.Keys + found.Keys, list, buckets);
    inForce := ListOverrides(buckets);
  }

  datatype OverrideDiagnostic = OverrideDiagnostic(
    key: BucketKey, configured: real, capacity: real, effective: real, gap: real, source: Source)

  /** The buckets that show an override, in their order. */
  function OverridesOf(buckets: seq<Diagnostic>): seq<OverrideDiagnostic> {
    if buckets == [] then []
    else
      var last := buckets[|buckets| - 1];
      OverridesOf(buckets[..|buckets| - 1])
      + if last.override.None? then []
        else [OverrideDiagnostic(last.key, last.configured, last.override.value, last.effective,
                                 last.override.value - last.configured, last.source)]
  }

  /** Every bucket that shows an override is listed, with the gap to what is configured. */
  lemma {:induction false} ShownIsListed(buckets: seq<Diagnostic>, b: Diagnostic)
    requires b in buckets && b.override.Some?
    ensures OverrideDiagnostic(b.key, b.configured, b.override.value, b.effective, b.override.value - b.configured,
                               b.source) in OverridesOf(buckets)
  {
    var earlier, last := buckets[..|buckets| - 1], buckets[|buckets| - 1];
    assert buckets == earlier + [last];
    if b in earlier {
      ShownIsListed(earlier, b);
    }
  }

  /** And no other. */
  lemma {:induction false} ListedIsShown(buckets: seq<Diagnostic>, o: OverrideDiagnostic) returns (b: Diagnostic)
    requires o in OverridesOf(buckets)
    ensures b in buckets && b.override == Some(o.capacity) && o.key == b.key && o.configured == b.configured
    ensures o.effective == b.effective && o.source == b.source && o.gap == o.capacity - o.configured
  {
    var earlier, last := buckets[..|buckets| - 1], buckets[|buckets| - 1];
    assert buckets == earlier + [last];
    if o in OverridesOf(earlier) {
      b := ListedIsShown(earlier, o);
    } else {
      b := last;
    }
  }

  method ListOverrides(buckets: seq<Diagnostic>) returns (list: seq<OverrideDiagnostic>)
    ensures list == OverridesOf(buckets)
  {
    list := [];
    for i := 0 to |buckets|
      invariant list == OverridesOf(buckets[..i])
    {
      var b := buckets[i];
      assert buckets[..i + 1][..i] == buckets[..i];
      if b.override.Some? {
        list := list + [OverrideDiagnostic(
          b.key, b.configured, b.override.value, b.effective, b.override.value - b.configured, b.source)];
      }
    }
    assert buckets[..|buckets|] == buckets;
  }

  /** A reconciled bucket shows an override exactly when one is in force on either side; that is then its effective
    maximum, which is otherwise the configured one. */
  lemma OverrideShownIff(b: Diagnostic, configured: real, local: Option<real>)
    ensures var r := Reconciled(b, configured, local);
            && (r.override.Some? <==> b.override.Some? || LocalOverride(b, local).Some?)
            && (r.override.Some? ==> r.override == Some(r.effective))
            && (r.override.None? ==> r.effective == configured)
  {
    assert IsClose(configured, configured);
  }

  lemma CoversReordered(sqlite: bool, quotas: map<BucketKey, real>, overrides: map<BucketKey, real>,
                        found: map<BucketKey, Diagnostic>, keys: set<BucketKey>, list: seq<Diagnostic>,
                        buckets: seq<Diagnostic>)
    requires Covers(sqlite, quotas, overrides, found, keys, list) && multiset(buckets) == multiset(list)
    ensures Covers(sqlite, quotas, overrides, found, keys, buckets)
  {
    hide Expected, DistinctBy;
    Reordered(list, buckets, KEY);
  }

  lemma KeyOrder()
    ensures TotalOrder(KeyBefore)
  {
  }
}
