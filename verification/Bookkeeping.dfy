/** The limiter's reservation bookkeeping: one pure function for every critical section
  that `SyncRateLimiter` runs while it holds `_acquire_guard` or `_refund_state_lock`.
*/
module Bookkeeping {
  import opened Types

  /** Everything `_acquire_guard` protects, and the close flags. */
  datatype Book = Book(
    pending: set<Id>,
    cleanup: set<Id>,
    inFlight: set<Id>,
    family: map<Id, Family>,
    snapshots: map<Id, Reservation>,
    drained: bool,
    closing: bool,
    closed: bool,
    closeDrained: bool)

  const NewBook := Book({}, {}, {}, map[], map[], true, false, false, false)

  datatype Entry = Admitted | RefusedClosed | RefusedFull

  /** What holds of the bookkeeping in every reachable state. */
  ghost predicate Consistent(cap: nat, b: Book) {
    && (b.drained ==> Quiet(b))
    && (forall id :: id in b.pending ==> id !in b.inFlight)
    && (forall id :: id in b.family <==> id in b.pending || id in b.inFlight)
    && (forall id :: id in b.snapshots <==> id in b.inFlight)
    && |b.pending| + |b.inFlight| <= cap
  }

  /** No acquire is pending or being delivered. */
  ghost predicate Quiet(b: Book) {
    && (forall id :: id !in b.pending)
    && (forall id :: id !in b.cleanup)
  }

  /** No acquire can reach the backend any more, and none can start. */
  ghost predicate Sealed(b: Book) {
    (b.closing || b.closed) && Quiet(b)
  }

  function Refresh(b: Book): Book {
    b.(drained := b.pending == {} && b.cleanup == {})
  }

  predicate Full(cap: nat, b: Book, rid: Id) {
    rid !in b.pending && rid !in b.inFlight && |b.inFlight| + |b.pending| >= cap
  }

  /** The event is cleared before the cap is checked, so a refusal leaves it cleared. */
  function BeginPending(cap: nat, b: Book, rid: Id, r: Reservation): (Book, Entry) {
    if b.closed || b.closing then (b, RefusedClosed)
    else if Full(cap, b, rid) then (b.(drained := false), RefusedFull)
    else (b.(drained := false, pending := b.pending + {rid}, family := b.family[rid := r.family]), Admitted)
  }

  function FinalizePending(b: Book, rid: Id, r: Reservation): Book {
    Refresh(b.(
      pending := b.pending - {rid},
      inFlight := b.inFlight + {rid},
      family := b.family[rid := r.family],
      snapshots := b.snapshots[rid := r]))
  }

  function RollbackPending(b: Book, rid: Id): Book {
    Refresh(b.(
      pending := b.pending - {rid},
      family := b.family - {rid},
      snapshots := b.snapshots - {rid}))
  }

  function BeginCleanup(b: Book, rid: Id): Book {
    b.(cleanup := b.cleanup + {rid}, drained := false)
  }

  function EndCleanup(b: Book, rid: Id): Book {
    Refresh(b.(cleanup := b.cleanup - {rid}))
  }

  /** Forgetting never refreshes the event. */
  function Forget(b: Book, rid: Id): Book {
    b.(
      inFlight := b.inFlight - {rid},
      pending := b.pending - {rid},
      cleanup := b.cleanup - {rid},
      family := b.family - {rid},
      snapshots := b.snapshots - {rid})
  }

  /** The unlimited path records a reservation in flight without a pending phase. */
  function RememberInFlight(cap: nat, b: Book, rid: Id, r: Reservation): (Book, Entry) {
    if b.closed || b.closing then (b, RefusedClosed)
    else if Full(cap, b, rid) then (b, RefusedFull)
    else (b.(
           inFlight := b.inFlight + {rid},
           family := b.family[rid := r.family],
           snapshots := b.snapshots[rid := r]), Admitted)
  }

  /** The refund authority: the acquire-time snapshot when there is one, else the caller's copy. */
  function Authority(b: Book, rid: Id, claim: Reservation): Reservation {
    if rid in b.snapshots then b.snapshots[rid] else claim
  }

  function BeginClosing(b: Book): Book {
    Refresh(b.(closing := !b.closed))
  }

  function MarkClosed(b: Book): Book {
    b.(closed := true, closing := false)
  }

  function ClearBook(b: Book): Book {
    b.(pending := {}, cleanup := {}, inFlight := {}, family := map[], snapshots := map[])
  }

  /** The event may stay clear with nothing pending, as after a refusal for the cap; close recomputes it first. */
  lemma DrainedMayLag(b: Book, rid: Id, r: Reservation)
    ensures var (b', verdict) := BeginPending(0, NewBook, rid, r);
            verdict.RefusedFull? && Quiet(b') && !b'.drained
    ensures BeginClosing(b).drained <==> Quiet(b)
  {
  }

  // ---------------------------------------------------------------- refund bookkeeping

  datatype RefundState = PendingRefund | CommittedRefund | FailedRefund

  /** `_refunded_reservation_ids`: an ordered dict, oldest entry first. */
  type Lru = seq<(Id, RefundState)>

  function Without(lru: Lru, rid: Id): (r: Lru)
    ensures |r| <= |lru|
    ensures forall e :: e in r <==> e in lru && e.0 != rid
  {
    if lru == [] then []
    else if lru[0].0 == rid then Without(lru[1..], rid)
    else [lru[0]] + Without(lru[1..], rid)
  }

  ghost predicate Keyed(lru: Lru) {
    forall i, j :: 0 <= i < j < |lru| ==> lru[i].0 != lru[j].0
  }

  predicate Marked(lru: Lru, rid: Id, st: RefundState) {
    (rid, st) in lru
  }

  function Evict(cap: nat, lru: Lru): (r: Lru)
    ensures |r| <= cap
    ensures |lru| <= cap ==> r == lru
    ensures forall e :: e in r ==> e in lru
  {
    if |lru| <= cap then lru else lru[|lru| - cap..]
  }

  /** Assign, move to the end, then evict the oldest entries above the cap. */
  function Remember(cap: nat, lru: Lru, rid: Id, st: RefundState): (r: Lru)
    ensures |r| <= cap
    ensures forall e :: e in r ==> e in lru || e == (rid, st)
    ensures forall s :: (rid, s) in r ==> s == st
    ensures cap > 0 ==> (rid, st) in r
  {
    var grown := Without(lru, rid) + [(rid, st)];
    assert grown[|grown| - 1] == (rid, st);
    Evict(cap, grown)
  }

  ghost predicate IsSuffix(end: Lru, whole: Lru) {
    |end| <= |whole| && end == whole[|whole| - |end|..]
  }

  /** The other entries keep their order. */
  lemma {:induction false} WithoutInOrder(lru: Lru, rid: Id, i: nat, j: nat) returns (a: nat, b: nat)
    requires i < j < |lru| && lru[i].0 != rid && lru[j].0 != rid
    ensures a < b < |Without(lru, rid)| && Without(lru, rid)[a] == lru[i] && Without(lru, rid)[b] == lru[j]
  {
    if i > 0 {
      a, b := WithoutInOrder(lru[1..], rid, i - 1, j - 1);
      if lru[0].0 != rid {
        a, b := a + 1, b + 1;
      }
    } else {
      assert lru[j] in lru[1..];
      var k :| 0 <= k < |Without(lru[1..], rid)| && Without(lru[1..], rid)[k] == lru[j];
      a, b := 0, k + 1;
    }
  }

  lemma {:induction false} WithoutKeyed(lru: Lru, rid: Id)
    requires Keyed(lru)
    ensures Keyed(Without(lru, rid))
  {
    if lru != [] {
      WithoutKeyed(lru[1..], rid);
      assert forall k :: 0 <= k < |Without(lru[1..], rid)| ==> Without(lru[1..], rid)[k] in lru[1..];
    }
  }

  lemma {:induction false} WithoutLacks(lru: Lru, rid: Id)
    ensures forall i :: 0 <= i < |Without(lru, rid)| ==> Without(lru, rid)[i].0 != rid
  {
    forall i | 0 <= i < |Without(lru, rid)| ensures Without(lru, rid)[i].0 != rid {
      assert Without(lru, rid)[i] in Without(lru, rid);
    }
  }

  /** The dedup table holds an id at most once, never exceeds its cap, and ends with the newest id. */
  lemma RememberKeyed(cap: nat, lru: Lru, rid: Id, st: RefundState)
    requires Keyed(lru) && cap > 0
    ensures Keyed(Remember(cap, lru, rid, st)) && 0 < |Remember(cap, lru, rid, st)| <= cap
    ensures Remember(cap, lru, rid, st)[|Remember(cap, lru, rid, st)| - 1] == (rid, st)
  {
    WithoutKeyed(lru, rid);
    WithoutLacks(lru, rid);
  }

  /** The newest entries stay, as many as the cap allows, and this one is last. */
  lemma RememberIsNewest(cap: nat, lru: Lru, rid: Id, st: RefundState)
    ensures var kept := Without(lru, rid);
            && IsSuffix(Remember(cap, lru, rid, st), kept + [(rid, st)])
            && |Remember(cap, lru, rid, st)| == if |kept| < cap then |kept| + 1 else cap
  {
  }

  lemma {:induction false} WithoutShrinks(lru: Lru, rid: Id, st: RefundState)
    requires (rid, st) in lru
    ensures |Without(lru, rid)| < |lru|
  {
    if lru[0].0 != rid {
      WithoutShrinks(lru[1..], rid, st);
    }
  }

  /** An entry that is already there makes room for itself: no other is evicted. */
  lemma RememberReplaces(cap: nat, lru: Lru, rid: Id, was: RefundState, st: RefundState)
    requires (rid, was) in lru && |lru| <= cap
    ensures forall e: (Id, RefundState) :: e.0 != rid ==> (e in Remember(cap, lru, rid, st) <==> e in lru)
  {
    WithoutShrinks(lru, rid, was);
  }

  /** `_mark_refund_state_failed`: only a pending entry becomes a failed one. */
  function Failed(cap: nat, lru: Lru, rid: Id): Lru {
    if Marked(lru, rid, PendingRefund) then Remember(cap, lru, rid, FailedRefund) else lru
  }

  /** `_clear_refund_state_if_pending`. */
  function ClearIfPending(lru: Lru, rid: Id): Lru {
    if Marked(lru, rid, PendingRefund) then Without(lru, rid) else lru
  }

  /** The gate of `_refund_capacity`: not closed, not refunded before, no other refund of it in progress. */
  predicate GateOpen(b: Book, lru: Lru, inProgress: set<Id>, rid: Id, allowClosed: bool) {
    (allowClosed || !b.closed) && !Marked(lru, rid, CommittedRefund) && rid !in inProgress
  }

  // ---------------------------------------------------------------- per-reservation refund locks

  type Lock = nat

  function Count(counts: map<Id, nat>, rid: Id): nat {
    if rid in counts then counts[rid] else 0
  }

  /** The lock registered for a reservation; the next new one when there is none. */
  function LockFor(locks: map<Id, Lock>, made: Lock, rid: Id): Lock {
    if rid in locks then locks[rid] else made
  }

  /** The reference counts after one more call has registered on a reservation's lock. */
  function CountedIn(locks: map<Id, Lock>, counts: map<Id, nat>, rid: Id): map<Id, nat> {
    counts[rid := (if rid in locks then Count(counts, rid) else 0) + 1]
  }

  /** One reference is given up. The last one drops the entry, unless the entry is by now another lock's. */
  function CountedOut(locks: map<Id, Lock>, counts: map<Id, nat>, rid: Id, lock: Lock): (map<Id, Lock>, map<Id, nat>) {
    var count := Count(counts, rid);
    if count > 1 then (locks, counts[rid := count - 1])
    else if rid in locks && locks[rid] == lock then (locks - {rid}, counts - {rid})
    else (locks, counts)
  }

  // ---------------------------------------------------------------- effects on the bookkeeping

  /** Only the entries of `rid` differ, and the close flags not at all. */
  ghost predicate Touches(b: Book, b': Book, rid: Id) {
    && b'.closing == b.closing && b'.closed == b.closed && b'.closeDrained == b.closeDrained
    && (forall id :: id != rid ==> (id in b'.pending <==> id in b.pending))
    && (forall id :: id != rid ==> (id in b'.cleanup <==> id in b.cleanup))
    && (forall id :: id != rid ==> (id in b'.inFlight <==> id in b.inFlight))
    && (forall id :: id != rid ==> (id in b'.family <==> id in b.family))
    && (forall id :: id != rid && id in b.family ==> b'.family[id] == b.family[id])
    && (forall id :: id != rid ==> (id in b'.snapshots <==> id in b.snapshots))
    && (forall id :: id != rid && id in b.snapshots ==> b'.snapshots[id] == b.snapshots[id])
  }

  /** One section changes only `rid`, and cannot undo a seal. */
  ghost predicate Local(b: Book, b': Book, rid: Id) {
    Touches(b, b', rid) && (Sealed(b) ==> Sealed(b'))
  }

  lemma SameLocal(b: Book, rid: Id)
    ensures Local(b, b, rid)
  {
  }

  lemma BeginPendingKeeps(cap: nat, b: Book, rid: Id, r: Reservation)
    requires Consistent(cap, b) && rid !in b.pending && rid !in b.inFlight
    ensures Consistent(cap, BeginPending(cap, b, rid, r).0)
  {
  }

  /** A reservation that is not known yet is admitted exactly when the limiter is open and below its cap. */
  lemma BeginPendingIff(cap: nat, b: Book, rid: Id, r: Reservation)
    requires rid !in b.pending && rid !in b.inFlight
    ensures var (b', verdict) := BeginPending(cap, b, rid, r);
            && (verdict.Admitted? <==> !b.closed && !b.closing && |b.inFlight| + |b.pending| < cap)
            && (verdict.Admitted? <==> rid in b'.pending)
  {
  }

  lemma BeginPendingLocal(cap: nat, b: Book, rid: Id, r: Reservation)
    ensures Local(b, BeginPending(cap, b, rid, r).0, rid)
    ensures var (b', verdict) := BeginPending(cap, b, rid, r);
            && (verdict.Admitted? ==>
                  rid in b'.pending && b'.inFlight == b.inFlight && b'.snapshots == b.snapshots
                      && b'.cleanup == b.cleanup
                  && rid in b'.family && b'.family[rid] == r.family)
            && (!verdict.Admitted? ==> b' == b.(drained := b'.drained))
  {
  }

  lemma FinalizePendingKeeps(cap: nat, b: Book, rid: Id, r: Reservation)
    requires Consistent(cap, b) && (rid in b.pending || rid in b.inFlight)
    ensures Consistent(cap, FinalizePending(b, rid, r))
  {
    if rid in b.inFlight {
      assert b.pending - {rid} == b.pending && b.inFlight + {rid} == b.inFlight;
    }
  }

  lemma FinalizePendingLocal(b: Book, rid: Id, r: Reservation)
    ensures Local(b, FinalizePending(b, rid, r), rid)
    ensures rid !in FinalizePending(b, rid, r).pending && rid in FinalizePending(b, rid, r).inFlight
            && FinalizePending(b, rid, r).cleanup == b.cleanup
    ensures rid in FinalizePending(b, rid, r).family && FinalizePending(b, rid, r).family[rid] == r.family
            && rid in FinalizePending(b, rid, r).snapshots && FinalizePending(b, rid, r).snapshots[rid] == r
  {
  }

  lemma RollbackPendingKeeps(cap: nat, b: Book, rid: Id)
    requires Consistent(cap, b) && rid !in b.inFlight
    ensures Consistent(cap, RollbackPending(b, rid))
  {
  }

  lemma RollbackPendingLocal(b: Book, rid: Id)
    ensures Local(b, RollbackPending(b, rid), rid)
    ensures rid !in RollbackPending(b, rid).pending && RollbackPending(b, rid).inFlight == b.inFlight
            && rid !in RollbackPending(b, rid).family && rid !in RollbackPending(b, rid).snapshots
    ensures RollbackPending(b, rid).cleanup == b.cleanup
  {
  }

  lemma ForgetKeeps(cap: nat, b: Book, rid: Id)
    requires Consistent(cap, b)
    ensures Consistent(cap, Forget(b, rid))
  {
  }

  lemma ForgetLocal(b: Book, rid: Id)
    ensures Local(b, Forget(b, rid), rid)
    ensures rid !in Forget(b, rid).pending && rid !in Forget(b, rid).inFlight && rid !in Forget(b, rid).cleanup
            && rid !in Forget(b, rid).family && rid !in Forget(b, rid).snapshots
  {
  }

  lemma BeginCleanupKeeps(cap: nat, b: Book, rid: Id)
    requires Consistent(cap, b)
    ensures Consistent(cap, BeginCleanup(b, rid))
  {
  }

  lemma BeginCleanupLocal(b: Book, rid: Id)
    requires rid in b.pending
    ensures Local(b, BeginCleanup(b, rid), rid)
    ensures rid in BeginCleanup(b, rid).pending && rid in BeginCleanup(b, rid).cleanup
            && BeginCleanup(b, rid).inFlight == b.inFlight
    ensures BeginCleanup(b, rid).family == b.family && BeginCleanup(b, rid).snapshots == b.snapshots
  {
  }

  lemma EndCleanupKeeps(cap: nat, b: Book, rid: Id)
    requires Consistent(cap, b)
    ensures Consistent(cap, EndCleanup(b, rid))
  {
  }

  lemma EndCleanupLocal(b: Book, rid: Id)
    ensures Local(b, EndCleanup(b, rid), rid)
    ensures EndCleanup(b, rid).pending == b.pending && EndCleanup(b, rid).inFlight == b.inFlight
            && EndCleanup(b, rid).family == b.family && EndCleanup(b, rid).snapshots == b.snapshots
    ensures rid !in EndCleanup(b, rid).cleanup
  {
  }

  lemma RememberInFlightKeeps(cap: nat, b: Book, rid: Id, r: Reservation)
    requires Consistent(cap, b) && rid !in b.pending && rid !in b.inFlight
    ensures Consistent(cap, RememberInFlight(cap, b, rid, r).0)
  {
  }

  lemma RememberInFlightLocal(cap: nat, b: Book, rid: Id, r: Reservation)
    ensures Local(b, RememberInFlight(cap, b, rid, r).0, rid)
    ensures RememberInFlight(cap, b, rid, r).0.cleanup == b.cleanup
  {
  }
}
