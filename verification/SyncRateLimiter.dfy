/** The limiter object: the fields its locks protect, and the critical sections that update them.

  Each section is proved to do to the fields exactly what its function in `Bookkeeping` does to
  a `Book`; `Protocol` interleaves those functions.
*/
module SyncRateLimiter {
  import opened Types
  import opened Bookkeeping

  class Limiter {
    const maxInFlight: nat
    const refundCap: nat

    // protected by the acquire guard
    var pendingAcquires: set<Id>
    var deliveryCleanup: set<Id>
    var pendingDrained: bool
    var closing: bool
    var closed: bool
    var closeDrained: bool
    var inFlight: set<Id>
    var inFlightFamily: map<Id, Family>
    var snapshots: map<Id, Reservation>
    var familyModel: map<Family, Alias>
    var lastTouched: map<Family, real>

    // protected by the refund-state lock
    var refunded: Lru
    var inProgress: set<Id>
    var refundLocks: map<Id, Lock>
    var lockCounts: map<Id, nat>
    var locksMade: nat

    /** The bookkeeping as one value. */
    ghost function Contents(): Book
      reads this
    {
      Book(pendingAcquires, deliveryCleanup, inFlight, inFlightFamily, snapshots,
           pendingDrained, closing, closed, closeDrained)
    }

    /** The dedup table holds each id once, within its cap; every registered lock is counted. */
    ghost predicate Valid()
      reads this
    {
      && Keyed(refunded) && |refunded| <= refundCap
      && refundLocks.Keys == lockCounts.Keys
      && (forall rid :: rid in lockCounts ==> lockCounts[rid] > 0)
      && (forall rid :: rid in refundLocks ==> refundLocks[rid] < locksMade)
    }

    constructor (maxInFlight: nat, refundCap: nat)
      ensures Valid() && Contents() == NewBook
      ensures this.maxInFlight == maxInFlight && this.refundCap == refundCap
      ensures refunded == [] && inProgress == {} && refundLocks == map[]
      ensures familyModel == map[] && lastTouched == map[]
    {
      this.maxInFlight := maxInFlight;
      this.refundCap := refundCap;
      pendingAcquires, deliveryCleanup, inFlight := {}, {}, {};
      inFlightFamily, snapshots, familyModel, lastTouched := map[], map[], map[], map[];
      pendingDrained, closing, closed, closeDrained := true, false, false, false;
      refunded, inProgress, refundLocks, lockCounts, locksMade := [], {}, map[], map[], 0;
    }

    // -------------------------------------------------------------- acquire sections

    method RefreshPendingDrained()
      modifies `pendingDrained
      ensures Contents() == Refresh(old(Contents()))
      ensures pendingDrained <==> pendingAcquires == {} && deliveryCleanup == {}
    {
      if pendingAcquires != {} || deliveryCleanup != {} {
        pendingDrained := false;
      } else {
        pendingDrained := true;
      }
    }

    /** Refused when closed or closing, or when the in-flight cap is reached. */
    method BeginPendingAcquire(rid: Id, r: Reservation) returns (verdict: Entry)
      modifies `pendingDrained, `pendingAcquires, `inFlightFamily
      ensures (Contents(), verdict) == BeginPending(maxInFlight, old(Contents()), rid, r)
      ensures verdict == Admitted <==>
              !old(closed) && !old(closing)
              && (rid in old(pendingAcquires) || rid in old(inFlight)
                  || |old(inFlight)| + |old(pendingAcquires)| < maxInFlight)
      ensures verdict == RefusedClosed <==> old(closed) || old(closing)
      ensures pendingAcquires == if verdict.Admitted? then old(pendingAcquires) + {rid} else old(pendingAcquires)
      ensures inFlightFamily == if verdict.Admitted? then old(inFlightFamily)[rid := r.family] else old(inFlightFamily)
      ensures pendingDrained <==> old(pendingDrained) && verdict.RefusedClosed?
    {
      if closed || closing {
        return RefusedClosed;
      }
      pendingDrained := false;
      if rid !in pendingAcquires && rid !in inFlight && |inFlight| + |pendingAcquires| >= maxInFlight {
        return RefusedFull;
      }
      pendingAcquires := pendingAcquires + {rid};
      inFlightFamily := inFlightFamily[rid := r.family];
      return Admitted;
    }

    /** The family's last use, by the monotonic clock. */
    method TouchModelFamily(family: Family, now: real)
      modifies `lastTouched
      ensures lastTouched == old(lastTouched)[family := now]
    {
      lastTouched := lastTouched[family := now];
    }

    /** Also makes `model` the representative alias of the family, and touches it. */
    method FinalizePendingAcquire(rid: Id, r: Reservation, model: Alias, now: real)
      modifies `pendingDrained, `pendingAcquires, `inFlight, `inFlightFamily, `snapshots, `familyModel, `lastTouched
      ensures Contents() == FinalizePending(old(Contents()), rid, r)
      ensures pendingAcquires == old(pendingAcquires) - {rid} && inFlight == old(inFlight) + {rid}
      ensures inFlightFamily == old(inFlightFamily)[rid := r.family] && snapshots == old(snapshots)[rid := r]
      ensures pendingDrained <==> old(pendingAcquires) <= {rid} && deliveryCleanup == {}
      ensures familyModel == old(familyModel)[r.family := model]
      ensures lastTouched == old(lastTouched)[r.family := now]
    {
      pendingAcquires := pendingAcquires - {rid};
      familyModel := familyModel[r.family := model];
      inFlight := inFlight + {rid};
      inFlightFamily := inFlightFamily[rid := r.family];
      snapshots := snapshots[rid := r];
      TouchModelFamily(r.family, now);
      RefreshPendingDrained();
    }

    method RollbackPendingAcquire(rid: Id)
      modifies `pendingDrained, `pendingAcquires, `inFlightFamily, `snapshots
      ensures Contents() == RollbackPending(old(Contents()), rid)
      ensures pendingAcquires == old(pendingAcquires) - {rid}
      ensures inFlightFamily == old(inFlightFamily) - {rid} && snapshots == old(snapshots) - {rid}
      ensures pendingDrained <==> old(pendingAcquires) <= {rid} && deliveryCleanup == {}
    {
      pendingAcquires := pendingAcquires - {rid};
      inFlightFamily := inFlightFamily - {rid};
      snapshots := snapshots - {rid};
      RefreshPendingDrained();
    }

    method BeginAcquireDeliveryCleanup(rid: Id)
      modifies `pendingDrained, `deliveryCleanup
      ensures Contents() == BeginCleanup(old(Contents()), rid)
      ensures deliveryCleanup == old(deliveryCleanup) + {rid} && !pendingDrained
    {
      deliveryCleanup := deliveryCleanup + {rid};
      pendingDrained := false;
    }

    method EndAcquireDeliveryCleanup(rid: Id)
      modifies `pendingDrained, `deliveryCleanup
      ensures Contents() == EndCleanup(old(Contents()), rid)
      ensures deliveryCleanup == old(deliveryCleanup) - {rid}
      ensures pendingDrained <==> pendingAcquires == {} && old(deliveryCleanup) <= {rid}
    {
      deliveryCleanup := deliveryCleanup - {rid};
      RefreshPendingDrained();
    }

    method RememberInFlightReservation(rid: Id, r: Reservation) returns (verdict: Entry)
      modifies `inFlight, `inFlightFamily, `snapshots
      ensures (Contents(), verdict) == RememberInFlight(maxInFlight, old(Contents()), rid, r)
      ensures verdict == Admitted <==>
              !old(closed) && !old(closing)
              && (rid in old(pendingAcquires) || rid in old(inFlight)
                  || |old(inFlight)| + |old(pendingAcquires)| < maxInFlight)
      ensures verdict == RefusedClosed <==> old(closed) || old(closing)
      ensures inFlight == if verdict.Admitted? then old(inFlight) + {rid} else old(inFlight)
      ensures inFlightFamily == if verdict.Admitted? then old(inFlightFamily)[rid := r.family] else old(inFlightFamily)
      ensures snapshots == if verdict.Admitted? then old(snapshots)[rid := r] else old(snapshots)
    {
      if closed || closing {
        return RefusedClosed;
      }
      if rid !in inFlight && rid !in pendingAcquires && |inFlight| + |pendingAcquires| >= maxInFlight {
        return RefusedFull;
      }
      inFlight := inFlight + {rid};
      inFlightFamily := inFlightFamily[rid := r.family];
      snapshots := snapshots[rid := r];
      return Admitted;
    }

    method ForgetInFlightReservation(rid: Id)
      modifies `pendingAcquires, `deliveryCleanup, `inFlight, `inFlightFamily, `snapshots
      ensures Contents() == Forget(old(Contents()), rid)
      ensures inFlight == old(inFlight) - {rid} && pendingAcquires == old(pendingAcquires) - {rid}
      ensures deliveryCleanup == old(deliveryCleanup) - {rid}
      ensures inFlightFamily == old(inFlightFamily) - {rid} && snapshots == old(snapshots) - {rid}
    {
      inFlight := inFlight - {rid};
      pendingAcquires := pendingAcquires - {rid};
      deliveryCleanup := deliveryCleanup - {rid};
      inFlightFamily := inFlightFamily - {rid};
      snapshots := snapshots - {rid};
    }

    /** The refund authority: the acquire-time copy when there is one, whatever the caller claims. */
    method AuthoritativeReservationForRefund(rid: Id, claim: Reservation) returns (r: Reservation)
      ensures r == Authority(Contents(), rid, claim)
      ensures if rid in snapshots then r == snapshots[rid] else r == claim
    {
      if rid !in snapshots {
        return claim;
      }
      return snapshots[rid];
    }

    // -------------------------------------------------------------- refund sections

    /** Assign, move to the end, and pop from the front until the table fits. */
    method RememberRefundState(rid: Id, st: RefundState)
      requires Valid()
      modifies `refunded
      ensures refunded == Remember(refundCap, old(refunded), rid, st)
      ensures Valid()
    {
      ghost var grown := Without(refunded, rid) + [(rid, st)];
      WithoutKeyed(refunded, rid);
      WithoutLacks(refunded, rid);
      refunded := Without(refunded, rid) + [(rid, st)];
      while |refunded| > refundCap
        invariant |refunded| <= |grown| && refunded == grown[|grown| - |refunded|..]
        invariant |grown| <= refundCap ==> refunded == grown
        invariant |grown| > refundCap ==> |refunded| >= refundCap
      {
        refunded := refunded[1..];
      }
    }

    method CommitRefundState(rid: Id, family: Family, now: real)
      requires Valid()
      modifies `refunded, `pendingAcquires, `deliveryCleanup, `inFlight, `inFlightFamily, `snapshots, `lastTouched
      ensures refunded == Remember(refundCap, old(refunded), rid, CommittedRefund)
      ensures Contents() == Forget(old(Contents()), rid)
      ensures lastTouched == old(lastTouched)[family := now]
      ensures Valid()
    {
      hide Remember, Without, Forget;
      RememberRefundState(rid, CommittedRefund);
      ForgetInFlightReservation(rid);
      TouchModelFamily(family, now);
    }

    method MarkRefundStateFailed(rid: Id)
      requires Valid()
      modifies `refunded
      ensures refunded == Failed(refundCap, old(refunded), rid)
      ensures (rid, PendingRefund) !in old(refunded) ==> refunded == old(refunded)
      ensures (rid, PendingRefund) in old(refunded) ==> (rid, FailedRefund) in refunded
      ensures forall e: (Id, RefundState) :: e.0 != rid ==> (e in refunded <==> e in old(refunded))
      ensures Valid()
    {
      if Marked(refunded, rid, PendingRefund) {
        RememberReplaces(refundCap, refunded, rid, PendingRefund, FailedRefund);
        RememberRefundState(rid, FailedRefund);
      }
    }

    method ClearRefundStateIfPending(rid: Id, forgetInFlight: bool)
      requires Valid()
      modifies `refunded, `pendingAcquires, `deliveryCleanup, `inFlight, `inFlightFamily, `snapshots
      ensures refunded == ClearIfPending(old(refunded), rid)
      ensures Contents() == if forgetInFlight then Forget(old(Contents()), rid) else old(Contents())
      ensures (rid, PendingRefund) !in old(refunded) ==> refunded == old(refunded)
      ensures (rid, PendingRefund) in old(refunded) ==> forall st :: (rid, st) !in refunded
      ensures forall e: (Id, RefundState) :: e.0 != rid ==> (e in refunded <==> e in old(refunded))
      ensures inFlight == if forgetInFlight then old(inFlight) - {rid} else old(inFlight)
      ensures Valid()
    {
      if Marked(refunded, rid, PendingRefund) {
        WithoutKeyed(refunded, rid);
        refunded := Without(refunded, rid);
      }
      if forgetInFlight {
        ForgetInFlightReservation(rid);
      }
    }

    /** The gate refuses a closed limiter, a committed refund and one already in progress. The refund of an undelivered
      acquire is let into a closed limiter. */
    method MayEnterRefund(rid: Id, allowClosed: bool) returns (open: bool)
      ensures open <==> GateOpen(Contents(), refunded, inProgress, rid, allowClosed)
      ensures open <==> (allowClosed || !closed) && (rid, CommittedRefund) !in refunded && rid !in inProgress
    {
      if !allowClosed && closed {
        return false;
      }
      return !Marked(refunded, rid, CommittedRefund) && rid !in inProgress;
    }

    method EnterRefund(rid: Id, allowClosed: bool) returns (admitted: bool)
      requires Valid()
      modifies `refunded, `inProgress
      ensures admitted <==>
              (allowClosed || !closed) && (rid, CommittedRefund) !in old(refunded) && rid !in old(inProgress)
      ensures refunded == if admitted then Remember(refundCap, old(refunded), rid, PendingRefund) else old(refunded)
      ensures inProgress == if admitted then old(inProgress) + {rid} else old(inProgress)
      ensures Valid()
    {
      hide Remember, GateOpen;
      admitted := MayEnterRefund(rid, allowClosed);
      if admitted {
        RememberRefundState(rid, PendingRefund);
        inProgress := inProgress + {rid};
      }
    }

    // -------------------------------------------------------------- refund locks

    method RegisterRefundLock(rid: Id) returns (lock: Lock)
      requires Valid()
      modifies `refundLocks, `lockCounts, `locksMade
      ensures Valid()
      ensures lock == LockFor(old(refundLocks), old(locksMade), rid)
      ensures refundLocks == old(refundLocks)[rid := lock]
      ensures lockCounts == CountedIn(old(refundLocks), old(lockCounts), rid)
      ensures lock == if rid in old(refundLocks) then old(refundLocks[rid]) else old(locksMade)
      ensures rid in lockCounts && lockCounts[rid] == if rid in old(lockCounts) then old(lockCounts[rid]) + 1 else 1
      ensures lockCounts - {rid} == old(lockCounts) - {rid}
      ensures locksMade == old(locksMade) + if rid in old(refundLocks) then 0 else 1
    {
      if rid !in refundLocks {
        refundLocks := refundLocks[rid := locksMade];
        lockCounts := lockCounts[rid := 0];
        locksMade := locksMade + 1;
      }
      lock := refundLocks[rid];
      lockCounts := lockCounts[rid := lockCounts[rid] + 1];
      assert refundLocks == old(refundLocks)[rid := lock];
    }

    /** The last reference drops the entry, unless the entry is by now another lock's. */
    method ReleaseRefundLockReference(rid: Id, lock: Lock)
      requires Valid()
      modifies `refundLocks, `lockCounts
      ensures Valid()
      ensures (refundLocks, lockCounts) == CountedOut(old(refundLocks), old(lockCounts), rid, lock)
      ensures rid in old(lockCounts) && old(lockCounts[rid]) > 1 ==>
                refundLocks == old(refundLocks) && lockCounts == old(lockCounts)[rid := old(lockCounts[rid]) - 1]
      ensures rid in old(lockCounts) && old(lockCounts[rid]) == 1 && old(refundLocks[rid]) == lock ==>
                refundLocks == old(refundLocks) - {rid} && lockCounts == old(lockCounts) - {rid}
      ensures rid !in old(lockCounts) || (old(lockCounts[rid]) == 1 && old(refundLocks[rid]) != lock) ==>
                refundLocks == old(refundLocks) && lockCounts == old(lockCounts)
    {
      var references: int := if rid in lockCounts then lockCounts[rid] else 0;
      var count := references - 1;
      if count <= 0 {
        if rid in refundLocks && refundLocks[rid] == lock {
          refundLocks := refundLocks - {rid};
          lockCounts := lockCounts - {rid};
        }
        return;
      }
      lockCounts := lockCounts[rid := count];
    }

    // -------------------------------------------------------------- close sections

    /** Returns whether an earlier close has already finished. */
    method OpenClose() returns (finished: bool)
      modifies `closing, `pendingDrained
      ensures finished <==> old(closed && closeDrained)
      ensures Contents() == if finished then old(Contents()) else BeginClosing(old(Contents()))
      ensures !finished ==>
                (closing <==> !closed) && (pendingDrained <==> pendingAcquires == {} && deliveryCleanup == {})
    {
      if closed && closeDrained {
        return true;
      }
      closing := !closed;
      RefreshPendingDrained();
      return false;
    }

    /** What a failing close leaves behind. */
    method MarkLimiterClosed()
      modifies `closed, `closing
      ensures Contents() == MarkClosed(old(Contents()))
      ensures closed && !closing
    {
      closed := true;
      closing := false;
    }

    /** Under the lifecycle lock. An earlier close whose drain is complete has left nothing but the clearing. */
    method MarkClosedUnlessDrained() returns (alreadyClosed: bool)
      modifies `closed, `closing
      ensures alreadyClosed <==> old(closeDrained)
      ensures Contents() == if alreadyClosed then old(Contents()) else MarkClosed(old(Contents()))
      ensures !alreadyClosed ==> closed && !closing
      ensures alreadyClosed ==> closed == old(closed) && closing == old(closing)
    {
      if closeDrained {
        alreadyClosed := true;
      } else {
        alreadyClosed := false;
        MarkLimiterClosed();
      }
    }

    method ClearRefundTables()
      modifies `refunded, `inProgress, `refundLocks, `lockCounts
      ensures Valid()
      ensures refunded == [] && inProgress == {} && refundLocks == map[] && lockCounts == map[]
    {
      refunded, inProgress, refundLocks, lockCounts := [], {}, map[], map[];
    }

    method ClearReservations()
      modifies `pendingAcquires, `deliveryCleanup, `inFlight, `inFlightFamily, `snapshots
      ensures Contents() == ClearBook(old(Contents()))
      ensures pendingAcquires == {} && deliveryCleanup == {} && inFlight == {}
      ensures inFlightFamily == map[] && snapshots == map[]
    {
      pendingAcquires, deliveryCleanup, inFlight := {}, {}, {};
      inFlightFamily, snapshots := map[], map[];
    }

    /** The last section of a close that has drained. The flags and the event stay. */
    method ClearRetainedStateAfterClose()
      modifies `refunded, `inProgress, `refundLocks, `lockCounts
      modifies `pendingAcquires, `deliveryCleanup, `inFlight, `inFlightFamily, `snapshots, `familyModel, `lastTouched
      ensures Valid()
      ensures Contents() == ClearBook(old(Contents()))
      ensures pendingAcquires == {} && deliveryCleanup == {} && inFlight == {}
      ensures inFlightFamily == map[] && snapshots == map[]
      ensures refunded == [] && inProgress == {} && refundLocks == map[] && lockCounts == map[]
      ensures familyModel == map[] && lastTouched == map[]
    {
      familyModel := map[];
      ClearRefundTables();
      ClearReservations();
      lastTouched := map[];
    }
  }
}
