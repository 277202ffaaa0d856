/** The inductive invariant of the protocol, in five groups, each over the part of the state it is about. */
module ProtocolInvariant {
  import opened Types
  import opened Bookkeeping
  import opened Protocol

  // ---------------------------------------------------------------- program-counter classes

  predicate IsPendingPc(pc: AcquirePc) {
    pc.Registering? || pc.LookupWaiting? || pc.LookingUp? || pc.Acquiring? || pc.Replied? || pc.Delivering?
  }

  predicate IsCleanupPc(pc: AcquirePc) {
    pc.Delivering? || pc.Emitting? || pc.Refinalizing? || pc.Choosing?
  }

  predicate HasBackendPc(pc: AcquirePc) {
    pc.Acquiring? || pc.Replied? || pc.Delivering?
  }

  /** The acquire's debit has landed. */
  predicate IsDebitedPc(pc: AcquirePc) {
    match pc
    case Registering => false
    case LookupWaiting => false
    case LookingUp => false
    case Acquiring => false
    case Replied(reply) => !reply.RaisedUndebited?
    case UnlimitedEmitting => false
    case Ending(result) => !result.RolledBack?
    case Finished(result) => !result.RolledBack?
    case _ => true
  }

  /** The reservation may be in flight or the subject of a refund. */
  predicate MayBeRefunded(pc: AcquirePc) {
    match pc
    case AwaitingRefund => true
    case Ending(result) => result in {RefundedAway, Surfaced, Stranded}
    case Finished(result) => result in {Delivered, RefundedAway, Surfaced, Stranded}
    case _ => false
  }

  predicate IsClosedResult(pc: AcquirePc) {
    match pc
    case Ending(result) => result in {RolledBack, Recorded, RefundedAway, Lost}
    case Finished(result) => result in {RolledBack, Recorded, RefundedAway, Lost}
    case _ => false
  }

  /** The refund call is registered on its per-reservation lock object. */
  predicate HasLock(pc: RefundPc) {
    !pc.Entering? && !pc.RegisteringLock? && !pc.RefundDone?
  }

  predicate HoldsLock(pc: RefundPc) {
    HasLock(pc) && !pc.LockWaiting? && !pc.Dropping?
  }

  /** The refund has passed the gate and not yet left the guarded section. */
  predicate PastGate(pc: RefundPc) {
    HoldsLock(pc) && !pc.AtGate? && !pc.Unlocking?
  }

  /** The refund may still write to the backend. */
  predicate MayWrite(pc: RefundPc) {
    pc.Entering? || pc.RegisteringLock? || pc.LockWaiting? || pc.AtGate? || IsPreparing(pc) || pc.Calling?
  }

  /** The refund is past the gate and has not called the backend yet. */
  predicate IsPreparing(pc: RefundPc) {
    pc.Preparing? || pc.RefreshWaiting? || pc.Refreshing? || pc.Refreshed?
  }

  /** The call has entered the lifecycle lock. */
  predicate HasLifecycle(pc: SetMaxPc) {
    pc.SetMaxChecking? || MayWriteMaximum(pc)
  }

  /** The call has found the limiter open, under the lifecycle lock. */
  predicate MayWriteMaximum(pc: SetMaxPc) {
    pc.SetMaxLimiterWaiting? || pc.SetMaxWriting?
  }

  /** A credit has landed and the limiter has not yet recorded it. */
  predicate IsSettling(pc: RefundPc) {
    (pc.Answered? && pc.landed) || (pc.Handling? && pc.landed)
  }

  /** The backend reported success to this refund. */
  predicate IsSuccess(pc: RefundPc) {
    match pc
    case Answered(_, _, _, reply) => reply.ReplyOk?
    case Notifying(_, _) => true
    case Leaving(_, _, result) => result.Refunded?
    case Unlocking(_, _, result) => result.Refunded?
    case Dropping(_, _, result) => result.Refunded?
    case RefundDone(q, result) => result.Refunded? && !q.reserved.unlimited
    case _ => false
  }

  // ---------------------------------------------------------------- acquires

  ghost predicate AcquireOk(b: Book, refunds: map<RefundKey, RefundPc>, backends: set<Family>,
                            rid: Id, r: Reservation, pc: AcquirePc) {
    && (if r.unlimited then pc.UnlimitedEmitting? || pc.Finished? else !pc.UnlimitedEmitting? && WellFormed(r))
    && (IsPendingPc(pc) ==> rid in b.pending)
    && (HasBackendPc(pc) ==> r.family in backends)
    && (IsCleanupPc(pc) || pc == Ending(Delivered) ==> rid in b.cleanup)
    && (pc.Emitting? || pc.Refinalizing? || pc.Choosing? || pc == Ending(Delivered) ==> rid in b.inFlight)
    && (rid in b.cleanup ==> IsCleanupPc(pc) || pc.AwaitingRefund? || pc.Ending?)
    && (pc.AwaitingRefund? || pc == Ending(RefundedAway) || pc == Finished(RefundedAway) ==>
        Undelivered(rid) in refunds)
    && (pc == Ending(Surfaced) || pc == Ending(Stranded) ==> Undelivered(rid) in refunds)
    && (IsClosedResult(pc) ==> rid !in b.inFlight && rid !in b.pending)
    && (rid in b.pending ==> IsPendingPc(pc))
  }

  ghost predicate AcquireInv(b: Book, refunds: map<RefundKey, RefundPc>, backends: set<Family>,
                             issued: map<Id, Reservation>, acquires: map<Id, AcquirePc>) {
    && (forall rid :: rid in acquires <==> rid in issued)
    && (forall rid :: rid in acquires && rid in issued ==>
          AcquireOk(b, refunds, backends, rid, issued[rid], acquires[rid]))
  }

  /** In flight or pending: issued here, with the acquire-time family and snapshot, and a live backend. */
  ghost predicate RecordOk(b: Book, issued: map<Id, Reservation>, backends: set<Family>, rid: Id) {
    && (rid in b.family ==> rid in issued && b.family[rid] == issued[rid].family)
    && (rid in b.snapshots ==> rid in issued && b.snapshots[rid] == issued[rid])
    && (rid in b.cleanup ==> rid in issued)
    && (rid in b.inFlight ==> rid in issued && (issued[rid].unlimited || issued[rid].family in backends))
  }

  ghost predicate RecordInv(b: Book, issued: map<Id, Reservation>, backends: set<Family>) {
    forall rid :: RecordOk(b, issued, backends, rid)
  }

  ghost predicate OrderInv(order: seq<Id>, issued: map<Id, Reservation>) {
    && (forall rid :: rid in issued <==> rid in order)
    && (forall i, j :: 0 <= i < j < |order| ==> order[i] != order[j])
  }

  // ---------------------------------------------------------------- refunds

  predicate HandedOut(acquires: map<Id, AcquirePc>, rid: Id) {
    rid in acquires ==> acquires[rid].Finished? && acquires[rid].result in {Delivered, Surfaced}
  }

  ghost predicate UndeliveredOk(b: Book, acquires: map<Id, AcquirePc>, issued: map<Id, Reservation>, pc: RefundPc) {
    var q := pc.q;
    && q.rid in acquires && q.rid in issued
    && !issued[q.rid].unlimited
    && q.reserved == issued[q.rid]
    && q.actual == ZeroUsage(q.reserved.usage)
    && MayBeRefunded(acquires[q.rid])
    && (acquires[q.rid].Ending? || acquires[q.rid].Finished? ==>
          (pc.RefundDone? && (acquires[q.rid].result == RefundedAway <==> pc.result.Refunded?)))
    && (MayWrite(pc) ==> q.rid in b.cleanup)
  }

  ghost predicate RefundOk(b: Book, acquires: map<Id, AcquirePc>, issued: map<Id, Reservation>, k: RefundKey,
                           pc: RefundPc) {
    var q := pc.q;
    && (k.Public? ==> !q.allowClosed && HandedOut(acquires, q.rid))
    && (k.Undelivered? ==> q.rid == k.acquire && UndeliveredOk(b, acquires, issued, pc))
    && (!pc.Entering? && !pc.RefundDone? && q.rid in b.inFlight ==> q.rid in issued && q.reserved == issued[q.rid])
    && (!pc.Entering? && !pc.RefundDone? ==> ValidActual(q.reserved, q.actual) && !q.reserved.unlimited)
    && (pc.RefundDone? && pc.result.Refunded? ==> q.reserved.unlimited || ValidActual(q.reserved, q.actual))
    && (pc.Calling? ==> pc.scope <= q.reserved.buckets)
  }

  ghost predicate RefundInv(b: Book, acquires: map<Id, AcquirePc>, issued: map<Id, Reservation>,
                            refunds: map<RefundKey, RefundPc>) {
    forall k :: k in refunds ==> RefundOk(b, acquires, issued, k, refunds[k])
  }

  // ---------------------------------------------------------------- per-reservation locks

  ghost function References(refunds: map<RefundKey, RefundPc>, rid: Id): set<RefundKey> {
    set k | k in refunds && HasLock(refunds[k]) && refunds[k].q.rid == rid
  }

  /** A call that uses a lock object is its recorded holder. */
  ghost predicate HolderOk(held: map<Lock, Owner>, k: RefundKey, pc: RefundPc) {
    HoldsLock(pc) ==> pc.lock in held && held[pc.lock] == Refunder(k)
  }

  ghost predicate HolderInv(held: map<Lock, Owner>, refunds: map<RefundKey, RefundPc>) {
    forall k :: k in refunds ==> HolderOk(held, k, refunds[k])
  }

  ghost predicate Registered(locks: map<Id, Lock>, pc: RefundPc) {
    HasLock(pc) ==> pc.q.rid in locks && locks[pc.q.rid] == pc.lock
  }

  /** Until the tables are cleared, every user of a lock is counted and the lock stays registered. */
  ghost predicate LockInv(locks: map<Id, Lock>, refcounts: map<Id, nat>, refunds: map<RefundKey, RefundPc>) {
    && (forall rid :: rid in locks <==> rid in refcounts)
    && (forall k :: k in refunds ==> Registered(locks, refunds[k]))
    && (forall rid :: rid in refcounts ==> refcounts[rid] == |References(refunds, rid)|)
  }

  // ---------------------------------------------------------------- closing

  predicate IsPastDrain(pc: ClosePc) {
    !pc.Opening? && !pc.DrainWaiting? && !pc.CloseDone?
  }

  predicate IsUnderLifecycle(pc: ClosePc) {
    IsPastDrain(pc) && !pc.LifecycleWaiting? && !pc.Clearing?
  }

  predicate IsDrainingRefunds(pc: ClosePc) {
    pc.Snapshotting? || pc.Draining? || pc.Releasing?
  }

  function Taken(pc: ClosePc): seq<Lock> {
    if pc.Draining? || pc.Releasing? then pc.taken else []
  }

  ghost predicate NonePastGate(refunds: map<RefundKey, RefundPc>) {
    forall k :: k in refunds ==> !PastGate(refunds[k])
  }

  /** Whatever is past the gate uses a lock the closer has still to take. */
  ghost predicate DrainOk(refunds: map<RefundKey, RefundPc>, pc: ClosePc) {
    && (pc.Draining? ==> forall k :: k in refunds && PastGate(refunds[k]) ==> refunds[k].lock in pc.todo)
    && (pc.Releasing? && pc.drained ==> NonePastGate(refunds))
  }

  ghost predicate DrainInv(refunds: map<RefundKey, RefundPc>, closers: map<nat, ClosePc>) {
    forall t :: t in closers ==> DrainOk(refunds, closers[t])
  }

  ghost predicate TakenOk(held: map<Lock, Owner>, t: nat, pc: ClosePc) {
    && (forall i :: 0 <= i < |Taken(pc)| ==> Taken(pc)[i] in held && held[Taken(pc)[i]] == Closer(t))
    && (forall i, j :: 0 <= i < j < |Taken(pc)| ==> Taken(pc)[i] != Taken(pc)[j])
  }

  ghost predicate TakenInv(held: map<Lock, Owner>, closers: map<nat, ClosePc>) {
    forall t :: t in closers ==> TakenOk(held, t, closers[t])
  }

  ghost predicate CloserOk(b: Book, lifecycle: Option<Owner>, backendCloses: nat, t: nat, pc: ClosePc) {
    && (pc.DrainWaiting? ==> b.closing || b.closed)
    && (IsPastDrain(pc) ==> Sealed(b))
    && (IsUnderLifecycle(pc) ==> lifecycle == Some(Closer(t)))
    && (IsDrainingRefunds(pc) ==> b.closed && !b.closeDrained)
    && (pc.BackendClosing? ==> b.closeDrained && backendCloses == 0)
    && (pc.BackendClosed? || pc.Clearing? ==> b.closeDrained)
  }

  ghost predicate CloserInv(b: Book, lifecycle: Option<Owner>, backendCloses: nat, closers: map<nat, ClosePc>) {
    forall t :: t in closers ==> CloserOk(b, lifecycle, backendCloses, t, closers[t])
  }

  ghost predicate SetterInv(closeDrained: bool, lifecycle: Option<Owner>, setters: map<nat, SetMaxPc>) {
    && (forall t :: t in setters && HasLifecycle(setters[t]) ==> lifecycle == Some(Setter(t)))
    && (forall t :: t in setters && MayWriteMaximum(setters[t]) ==> !closeDrained)
  }

  /** Once the drain is complete, nothing is past the gate and nothing can pass it. */
  ghost predicate ClosedInv(b: Book, refunds: map<RefundKey, RefundPc>, backendCloses: nat, cleared: bool) {
    && (b.closeDrained ==> b.closed && Sealed(b) && NonePastGate(refunds))
    && (!b.closeDrained ==> backendCloses == 0)
    && backendCloses <= 1
    && (cleared ==> b.closeDrained)
  }

  // ---------------------------------------------------------------- ledger

  /** Every posting uses the acquire-time reservation; a credit, a part of its buckets and a valid actual usage. */
  ghost predicate PostingsOk(l: Ledger, issued: map<Id, Reservation>) {
    match l
    case Empty => true
    case Post(p, rest) =>
      && PostingsOk(rest, issued)
      && p.rid in issued && p.reserved == issued[p.rid] && !p.reserved.unlimited && WellFormed(p.reserved)
      && (p.Credit? ==> p.scope <= p.reserved.buckets && ValidActual(p.reserved, p.actual))
  }

  ghost predicate CreditedWith(l: Ledger, rid: Id, actual: Usage) {
    match l
    case Empty => false
    case Post(p, rest) => (p.Credit? && p.rid == rid && p.actual == actual) || CreditedWith(rest, rid, actual)
  }

  /** A refund that raises after its write landed is always found out. */
  predicate NeverWritesSilently(c: Config) {
    c.probes || !c.raisesAfterWrite
  }

  predicate CreditsSafely(c: Config) {
    c.markers || NeverWritesSilently(c)
  }

  ghost predicate IsDebited(issued: map<Id, Reservation>, acquires: map<Id, AcquirePc>, rid: Id) {
    rid in acquires && rid in issued && !issued[rid].unlimited && IsDebitedPc(acquires[rid])
  }

  ghost predicate DebitInv(l: Ledger, issued: map<Id, Reservation>, acquires: map<Id, AcquirePc>) {
    forall rid :: Debits(l, rid) == if IsDebited(issued, acquires, rid) then 1 else 0
  }

  /** Only an acquire that may be refunded has a credit, and, with a safe backend, at most one. */
  ghost predicate CreditInv(c: Config, l: Ledger, issued: map<Id, Reservation>, acquires: map<Id, AcquirePc>) {
    && (forall rid :: Credits(l, rid) > 0 ==>
          rid in acquires && MayBeRefunded(acquires[rid]) && IsDebited(issued, acquires, rid))
    && (CreditsSafely(c) ==> forall rid :: Credits(l, rid) <= 1)
  }

  ghost predicate IsSettled(refunds: map<RefundKey, RefundPc>, rid: Id) {
    forall k :: k in refunds && refunds[k].q.rid == rid ==> !IsSettling(refunds[k])
  }

  /** What is in flight, with no landed credit waiting to be recorded, has not been credited. */
  ghost predicate SettledInv(c: Config, l: Ledger, inFlight: set<Id>, refunds: map<RefundKey, RefundPc>) {
    NeverWritesSilently(c) ==>
      forall rid :: rid in inFlight && IsSettled(refunds, rid) ==> Credits(l, rid) == 0
  }

  /** What one refund call knows about the ledger. */
  ghost predicate ClaimOk(c: Config, l: Ledger, issued: map<Id, Reservation>, inFlight: set<Id>, pc: RefundPc) {
    var q := pc.q;
    && (pc.Calling? && !c.markers ==>
          q.rid in issued && q.reserved == issued[q.rid] && Debits(l, q.rid) > 0
          && (NeverWritesSilently(c) ==> Credits(l, q.rid) == 0))
    && (pc.Answered? && pc.landed && !c.raisesAfterWrite ==> pc.reply.ReplyOk?)
    && (pc.Answered? && pc.reply.ReplyOk? ==> pc.landed)
    && (pc.Handling? && pc.landed && !c.raisesAfterWrite ==> q.rid !in inFlight)
    && (IsSuccess(pc) ==> CreditedWith(l, q.rid, q.actual))
    && (IsSuccess(pc) && !pc.Answered? ==> q.rid !in inFlight)
  }

  ghost predicate ClaimInv(c: Config, l: Ledger, issued: map<Id, Reservation>, inFlight: set<Id>,
                           refunds: map<RefundKey, RefundPc>) {
    forall k :: k in refunds ==> ClaimOk(c, l, issued, inFlight, refunds[k])
  }

  /** The dedup table is bounded and never shows a running refund's id as committed. */
  ghost predicate DedupInv(c: Config, lru: Lru, refunds: map<RefundKey, RefundPc>) {
    && |lru| <= c.refundCap
    && (forall k :: k in refunds && (IsPreparing(refunds[k]) || refunds[k].Calling?) ==>
          !Marked(lru, refunds[k].q.rid, CommittedRefund))
  }

  ghost predicate Inv(c: Config, s: State) {
    && Consistent(c.maxInFlight, s.book)
    && AcquireInv(s.book, s.refunds, s.backends, s.issued, s.acquires)
    && RecordInv(s.book, s.issued, s.backends)
    && OrderInv(s.order, s.issued)
    && RefundInv(s.book, s.acquires, s.issued, s.refunds)
    && HolderInv(s.held, s.refunds)
    && (!s.cleared ==> LockInv(s.locks, s.refcounts, s.refunds))
    && DrainInv(s.refunds, s.closers)
    && TakenInv(s.held, s.closers)
    && CloserInv(s.book, s.lifecycle, s.backendCloses, s.closers)
    && SetterInv(s.book.closeDrained, s.lifecycle, s.setters)
    && ClosedInv(s.book, s.refunds, s.backendCloses, s.cleared)
    && PostingsOk(s.ledger, s.issued)
    && DebitInv(s.ledger, s.issued, s.acquires)
    && CreditInv(c, s.ledger, s.issued, s.acquires)
    && SettledInv(c, s.ledger, s.book.inFlight, s.refunds)
    && ClaimInv(c, s.ledger, s.issued, s.book.inFlight, s.refunds)
    && DedupInv(c, s.lru, s.refunds)
  }

  lemma InitiallyInv(c: Config)
    ensures Inv(c, Initial)
  {
  }

  /** Two refunds of one reservation are never past the gate together. */
  lemma OnePastGate(held: map<Lock, Owner>, locks: map<Id, Lock>, refcounts: map<Id, nat>,
                    refunds: map<RefundKey, RefundPc>, k1: RefundKey, k2: RefundKey)
    requires HolderInv(held, refunds) && LockInv(locks, refcounts, refunds)
    requires k1 in refunds && k2 in refunds && HoldsLock(refunds[k1]) && HoldsLock(refunds[k2])
    requires refunds[k1].q.rid == refunds[k2].q.rid
    ensures k1 == k2
  {
    assert Registered(locks, refunds[k1]) && Registered(locks, refunds[k2]);
    assert HolderOk(held, k1, refunds[k1]) && HolderOk(held, k2, refunds[k2]);
  }
}
