/** What one step of each kind of call may change, whatever state it starts from. */
module ProtocolEffects {
  import opened Types
  import opened Bookkeeping
  import opened Protocol
  import opened ProtocolInvariant
  import opened ProtocolFrames

  ghost predicate SameFlags(b: Book, b': Book) {
    b'.closing == b.closing && b'.closed == b.closed && b'.closeDrained == b.closeDrained
  }

  predicate NoneDelivering(b: Book) {
    b.pending == {} && b.cleanup == {}
  }

  lemma SectionsKeepFlags(b: Book, rid: Id)
    ensures forall cap, r :: SameFlags(b, BeginPending(cap, b, rid, r).0)
    ensures forall cap, r :: SameFlags(b, RememberInFlight(cap, b, rid, r).0)
    ensures forall r :: SameFlags(b, FinalizePending(b, rid, r))
    ensures SameFlags(b, RollbackPending(b, rid))
    ensures SameFlags(b, BeginCleanup(b, rid))
    ensures SameFlags(b, EndCleanup(b, rid))
    ensures SameFlags(b, Forget(b, rid)) && SameFlags(b, b)
  {
  }

  lemma SectionsSetEvent(b: Book, rid: Id)
    ensures forall cap, r :: RememberInFlight(cap, b, rid, r).0.drained == b.drained
    ensures forall cap, r :: b.closing || b.closed ==> BeginPending(cap, b, rid, r).0 == b
    ensures forall r :: FinalizePending(b, rid, r).drained == NoneDelivering(FinalizePending(b, rid, r))
    ensures RollbackPending(b, rid).drained == NoneDelivering(RollbackPending(b, rid))
    ensures EndCleanup(b, rid).drained == NoneDelivering(EndCleanup(b, rid))
    ensures Forget(b, rid).drained == b.drained
  {
  }

  // ---------------------------------------------------------------- acquires

  /** A limited acquire that has not ended. */
  predicate IsRunning(pc: AcquirePc) {
    !pc.Finished? && !pc.UnlimitedEmitting?
  }

  predicate Runs(acquires: map<Id, AcquirePc>, rid: Id) {
    rid in acquires && IsRunning(acquires[rid])
  }

  ghost predicate OpensRefund(s: State, t: State, rid: Id) {
    var k := Undelivered(rid);
    && k !in s.refunds && k in t.refunds && t.refunds == s.refunds[k := t.refunds[k]]
    && (t.refunds[k].Entering? || t.refunds[k].RegisteringLock?)
  }

  /** The event is cleared or left alone while the acquire runs, and recomputed when it ends. */
  ghost predicate AcquireSetsEvent(s: State, t: State, rid: Id) {
    || Runs(t.acquires, rid)
    || (Runs(s.acquires, rid) && t.book.drained == NoneDelivering(t.book))
    || (!Runs(s.acquires, rid) && (s.book.closing || s.book.closed ==> t.book.drained == s.book.drained))
  }

  ghost predicate AcquirePosts(s: State, t: State) {
    t.ledger == s.ledger || (t.ledger.Post? && t.ledger.last.Debit? && t.ledger.earlier == s.ledger)
  }

  /** The caller has the reservation, as a result or inside an error. */
  predicate IsHandedOver(pc: AcquirePc) {
    pc in {Finished(Delivered), Finished(Surfaced)}
  }

  /** How a limited reservation comes to be handed over: at the end of its clean-up, or when a failed recovery leaves
    its debit in place. */
  ghost predicate HandsOver(s: State, b: Book, rid: Id, pc: AcquirePc)
    requires rid in s.acquires
  {
    || (s.acquires[rid] == Ending(Delivered) && pc == Finished(Delivered) && b == EndCleanup(s.book, rid))
    || (s.acquires[rid] == Ending(Surfaced) && pc == Finished(Surfaced) && b == EndCleanup(s.book, rid))
    || (&& s.acquires[rid] == Replied(RaisedDebited) && pc == Finished(Surfaced)
        && rid in s.issued && b == FinalizePending(s.book, rid, s.issued[rid]))
  }

  ghost predicate AcquireDelivers(s: State, t: State, rid: Id) {
    rid in t.acquires && IsHandedOver(t.acquires[rid]) && rid in s.acquires && !IsHandedOver(s.acquires[rid]) ==>
      || s.acquires[rid].UnlimitedEmitting?
      || (HandsOver(s, t.book, rid, t.acquires[rid]) && t.issued == s.issued && t.ledger == s.ledger)
  }

  /** The acquire is in the limiter lock. */
  predicate AcquirerInside(acquires: map<Id, AcquirePc>, rid: Id) {
    rid in acquires && acquires[rid].LookingUp?
  }

  /** A lock is entered when it is free, left by the call inside, or left alone. */
  ghost predicate LockMoves(was: bool, now: bool, before: Option<Owner>, after: Option<Owner>, owner: Owner) {
    if now then (was && after == before) || (!was && before.None? && after == Some(owner))
    else after == if was then None else before
  }

  /** Rolled back, or about to be, with a debit that nobody was told of. */
  predicate IsLost(pc: AcquirePc) {
    pc in {Replied(RaisedUnrecorded), Ending(Lost), Finished(Lost)}
  }

  ghost predicate AcquireLoses(c: Config, s: State, t: State, rid: Id) {
    HandsDebitsOver(c) && rid in t.acquires && IsLost(t.acquires[rid]) ==> rid in s.acquires && IsLost(s.acquires[rid])
  }

  ghost predicate AcquireTouch(c: Config, s: State, t: State, rid: Id) {
    && LockMoves(AcquirerInside(s.acquires, rid), AcquirerInside(t.acquires, rid), s.limiter, t.limiter, Acquirer(rid))
    && AcquireLoses(c, s, t, rid)
    && t.held == s.held && t.lifecycle == s.lifecycle && t.closers == s.closers && t.setters == s.setters
    && SameFlags(s.book, t.book)
    && AgreeOff(s.acquires, t.acquires, rid)
    && (t.refunds == s.refunds || OpensRefund(s, t, rid))
    && AcquirePosts(s, t)
    && AcquireSetsEvent(s, t, rid)
    && AcquireDelivers(s, t, rid)
  }

  /** What the program counter alone tells of the limiter lock and of lost debits. */
  ghost predicate AcquireGoesOn(c: Config, s: State, s1: State, rid: Id, pc: AcquirePc)
    requires rid in s.acquires
  {
    && LockMoves(s.acquires[rid].LookingUp?, pc.LookingUp?, s.limiter, s1.limiter, Acquirer(rid))
    && (HandsDebitsOver(c) && IsLost(pc) ==> IsLost(s.acquires[rid]))
  }

  /** The program counter moves and the bookkeeping changes. */
  lemma BookingTouches(c: Config, s: State, rid: Id, s1: State, pc: AcquirePc)
    requires s1 == s.(book := s1.book, limiter := s1.limiter)
    requires rid in s.acquires && SameFlags(s.book, s1.book) && AcquireGoesOn(c, s, s1, rid, pc)
    requires IsRunning(pc)
             || s1.book.drained == if IsRunning(s.acquires[rid]) then NoneDelivering(s1.book) else s.book.drained
    requires IsHandedOver(pc) ==> HandsOver(s, s1.book, rid, pc)
    ensures AcquireTouch(c, s, SetAcquire(s1, rid, pc), rid)
  {
    hide SameFlags, IsRunning, NoneDelivering, IsHandedOver, HandsOver, IsLost, LockMoves;
  }

  /** The program counter moves, with at most a debit or a new backend. */
  lemma MovingTouches(c: Config, s: State, rid: Id, s1: State, pc: AcquirePc)
    requires rid in s.acquires && (IsRunning(pc) || !IsRunning(s.acquires[rid]))
    requires s1 == s.(backends := s1.backends, limiter := s1.limiter, ledger := s1.ledger) && AcquirePosts(s, s1)
    requires AcquireGoesOn(c, s, s1, rid, pc)
    requires IsHandedOver(pc) ==> s.acquires[rid].UnlimitedEmitting?
    ensures AcquireTouch(c, s, SetAcquire(s1, rid, pc), rid)
  {
    hide IsRunning, IsHandedOver, HandsOver, IsLost, LockMoves;
  }

  lemma JoiningTouches(c: Config, s: State, rid: Id, b: Book, r: Reservation, pc: AcquirePc)
    requires SameFlags(s.book, b) && rid !in s.acquires
    requires IsRunning(pc) || b.drained == s.book.drained
    requires pc in {Registering, UnlimitedEmitting}
    ensures AcquireTouch(c, s, s.(book := b, acquires := s.acquires[rid := pc], issued := s.issued[rid := r],
                               order := s.order + [rid]), rid)
  {
    hide SameFlags, HandsOver;
  }

  lemma RefusalTouches(c: Config, s: State, rid: Id, b: Book)
    requires SameFlags(s.book, b) && !Runs(s.acquires, rid)
    requires s.book.closing || s.book.closed ==> b.drained == s.book.drained
    ensures AcquireTouch(c, s, s.(book := b), rid)
  {
    hide SameFlags, Runs, IsHandedOver, HandsOver, IsLost;
  }

  lemma BeginningTouches(c: Config, s: State, rid: Id, r: Reservation)
    requires AcquireBegin_(c, s, rid, r).Some? && (rid in s.acquires ==> rid in s.issued)
    ensures AcquireTouch(c, s, AcquireBegin_(c, s, rid, r).value, rid)
  {
    hide AcquireTouch, SameFlags, BeginPending, Metrics;
    SectionsKeepFlags(s.book, rid);
    SectionsSetEvent(s.book, rid);
    var (b, verdict) := BeginPending(c.maxInFlight, s.book, rid, r);
    if verdict.Admitted? {
      JoiningTouches(c, s, rid, b, r, Registering);
    } else {
      RefusalTouches(c, s, rid, b);
    }
  }

  lemma UnlimitedTouches(c: Config, s: State, rid: Id, r: Reservation)
    requires UnlimitedBegin_(c, s, rid, r).Some? && (rid in s.acquires ==> rid in s.issued)
    ensures AcquireTouch(c, s, UnlimitedBegin_(c, s, rid, r).value, rid)
  {
    hide AcquireTouch, SameFlags, RememberInFlight;
    SectionsKeepFlags(s.book, rid);
    SectionsSetEvent(s.book, rid);
    var (b, verdict) := RememberInFlight(c.maxInFlight, s.book, rid, r);
    if verdict.Admitted? {
      JoiningTouches(c, s, rid, b, r, UnlimitedEmitting);
    } else {
      RefusalTouches(c, s, rid, s.book);
    }
  }

  lemma SettlingTouches(c: Config, s: State, rid: Id)
    requires AcquireSettles_(s, rid).Some?
    ensures AcquireTouch(c, s, AcquireSettles_(s, rid).value, rid)
  {
    hide AcquireTouch, SetAcquire, SameFlags, BeginCleanup, RollbackPending, FinalizePending, NoneDelivering;
    SectionsKeepFlags(s.book, rid);
    SectionsSetEvent(s.book, rid);
    var r := s.issued[rid];
    match s.acquires[rid].reply
    case Granted => BookingTouches(c, s, rid, s.(book := BeginCleanup(s.book, rid)), Delivering);
    case RaisedUndebited => BookingTouches(c, s, rid, s.(book := RollbackPending(s.book, rid)), Finished(RolledBack));
    case RaisedDebited =>
      if r.blocking {
        BookingTouches(c, s, rid, s.(book := FinalizePending(s.book, rid, r)), Finished(Surfaced));
      } else {
        BookingTouches(c, s, rid, s.(book := RollbackPending(s.book, rid)), Finished(Recorded));
      }
    case RaisedUnrecorded => BookingTouches(c, s, rid, s.(book := RollbackPending(s.book, rid)), Finished(Lost));
  }

  lemma EmittingTouches(c: Config, s: State, rid: Id, raises: bool)
    requires AcquireEmits_(s, rid, raises).Some?
    ensures AcquireTouch(c, s, AcquireEmits_(s, rid, raises).value, rid)
  {
    hide AcquireTouch, SetAcquire, SameFlags, Forget, NoneDelivering;
    SectionsKeepFlags(s.book, rid);
    if raises && !s.issued[rid].blocking {
      BookingTouches(c, s, rid, s.(book := Forget(s.book, rid)), Ending(Recorded));
    } else {
      MovingTouches(c, s, rid, s, if raises then Refinalizing else Ending(Delivered));
    }
  }

  lemma ReplyingTouches(c: Config, s: State, rid: Id, reply: AcquireReply)
    requires AcquireReplies_(c, s, rid, reply).Some?
    ensures AcquireTouch(c, s, AcquireReplies_(c, s, rid, reply).value, rid)
  {
    hide AcquireTouch, SetAcquire;
    if reply.RaisedUndebited? {
      MovingTouches(c, s, rid, s, Replied(reply));
    } else {
      MovingTouches(c, s, rid, s.(ledger := Post(Debit(rid, s.issued[rid]), s.ledger)), Replied(reply));
    }
  }

  lemma ChoosingTouches(c: Config, s: State, rid: Id)
    requires AcquireChooses_(s, rid).Some?
    ensures AcquireTouch(c, s, AcquireChooses_(s, rid).value, rid)
  {
    hide ZeroUsage;
  }

  lemma UnlimitedEmittingTouches(c: Config, s: State, rid: Id, raises: bool)
    requires UnlimitedEmits_(s, rid, raises).Some?
    ensures AcquireTouch(c, s, UnlimitedEmits_(s, rid, raises).value, rid)
  {
    hide AcquireTouch, SetAcquire, SameFlags, Forget, NoneDelivering;
    SectionsKeepFlags(s.book, rid);
    SectionsSetEvent(s.book, rid);
    if raises {
      BookingTouches(c, s, rid, s.(book := Forget(s.book, rid)), Finished(RolledBack));
    } else {
      MovingTouches(c, s, rid, s, Finished(Delivered));
    }
  }

  /** The steps that run one section of the bookkeeping. */
  lemma SectionTouches(c: Config, s: State, a: AcquireAction)
    requires a.AcquireInterrupted? || a.AcquireFinalizes? || a.AcquireRefinalizes? || a.AcquireEnds?
    requires AcquireStep(c, s, a).Some?
    ensures AcquireTouch(c, s, AcquireStep(c, s, a).value, a.rid)
  {
    hide AcquireTouch, SetAcquire, SameFlags, RollbackPending, FinalizePending, EndCleanup, NoneDelivering;
    var rid := a.rid;
    SectionsKeepFlags(s.book, rid);
    SectionsSetEvent(s.book, rid);
    match a
    case AcquireInterrupted(_) =>
      BookingTouches(c, s, rid, s.(book := RollbackPending(s.book, rid)), Finished(RolledBack));
    case AcquireFinalizes(_) =>
      BookingTouches(c, s, rid, s.(book := FinalizePending(s.book, rid, s.issued[rid])), Emitting);
    case AcquireRefinalizes(_) =>
      BookingTouches(c, s, rid, s.(book := FinalizePending(s.book, rid, s.issued[rid])), Choosing);
    case AcquireEnds(_) =>
      BookingTouches(c, s, rid, s.(book := EndCleanup(s.book, rid)), Finished(s.acquires[rid].result));
  }

  lemma SetupTouches(c: Config, s: State, rid: Id)
    ensures AcquireSetupDone_(s, rid).Some? ==> AcquireTouch(c, s, AcquireSetupDone_(s, rid).value, rid)
    ensures AcquireLooksUp_(s, rid).Some? ==> AcquireTouch(c, s, AcquireLooksUp_(s, rid).value, rid)
    ensures AcquireEntersLimiter_(s, rid).Some? ==> AcquireTouch(c, s, AcquireEntersLimiter_(s, rid).value, rid)
  {
    hide AcquireTouch, SetAcquire;
    if AcquireAt(s, rid, Registering) {
      MovingTouches(c, s, rid, s, LookupWaiting);
      MovingTouches(c, s, rid, s, Acquiring);
    } else if AcquireAt(s, rid, LookupWaiting) && s.limiter.None? {
      MovingTouches(c, s, rid, s.(limiter := Some(Acquirer(rid))), LookingUp);
    } else if AcquireAt(s, rid, LookingUp) && rid in s.issued {
      MovingTouches(c, s, rid, s.(backends := s.backends + {s.issued[rid].family}, limiter := None), Acquiring);
    }
  }

  lemma FailingTouches(c: Config, s: State, rid: Id)
    requires AcquireSetupFails_(s, rid).Some?
    ensures AcquireTouch(c, s, AcquireSetupFails_(s, rid).value, rid)
  {
    hide AcquireTouch, SetAcquire, SameFlags, RollbackPending, NoneDelivering;
    SectionsKeepFlags(s.book, rid);
    SectionsSetEvent(s.book, rid);
    var b := RollbackPending(s.book, rid);
    if AcquireAt(s, rid, Registering) {
      BookingTouches(c, s, rid, s.(book := b), Finished(RolledBack));
    } else {
      BookingTouches(c, s, rid, s.(book := b, limiter := None), Finished(RolledBack));
    }
  }

  lemma AcquireTouches(c: Config, s: State, a: AcquireAction)
    requires AcquireStep(c, s, a).Some? && (a.rid in s.acquires ==> a.rid in s.issued)
    ensures AcquireTouch(c, s, AcquireStep(c, s, a).value, a.rid)
  {
    hide AcquireTouch, AcquireBegin_, AcquireSetupFails_, AcquireLooksUp_, AcquireEntersLimiter_, AcquireSetupDone_,
      AcquireReplies_, AcquireSettles_, AcquireFinalizes_, AcquireEmits_, AcquireRefinalizes_, AcquireChooses_,
      AcquireCollects_, AcquireEnds_, UnlimitedBegin_, UnlimitedEmits_;
    var rid := a.rid;
    match a
    case AcquireBegin(_, r) => BeginningTouches(c, s, rid, r);
    case AcquireSetupFails(_) => FailingTouches(c, s, rid);
    case AcquireSetupDone(_) => SetupTouches(c, s, rid);
    case AcquireLooksUp(_) => SetupTouches(c, s, rid);
    case AcquireEntersLimiter(_) => SetupTouches(c, s, rid);
    case AcquireReplies(_, reply) => ReplyingTouches(c, s, rid, reply);
    case AcquireSettles(_) => SettlingTouches(c, s, rid);
    case AcquireEmits(_, raises) => EmittingTouches(c, s, rid, raises);
    case AcquireChooses(_) => ChoosingTouches(c, s, rid);
    case AcquireCollects(_, critical) => CollectingTouches(c, s, rid, critical);
    case UnlimitedBegin(_, r) => UnlimitedTouches(c, s, rid, r);
    case UnlimitedEmits(_, raises) => UnlimitedEmittingTouches(c, s, rid, raises);
    case _ => SectionTouches(c, s, a);
  }

  lemma CollectingTouches(c: Config, s: State, rid: Id, critical: bool)
    requires AcquireCollects_(s, rid, critical).Some?
    ensures AcquireTouch(c, s, AcquireCollects_(s, rid, critical).value, rid)
  {
    hide AcquireTouch, SetAcquire;
    MovingTouches(c, s, rid, s, Ending(
      if s.refunds[Undelivered(rid)].result.Refunded? then RefundedAway else if critical then Stranded else Surfaced));
  }

  lemma AcquiresIssued(c: Config, s: State, rid: Id)
    requires Inv(c, s)
    ensures rid in s.acquires <==> rid in s.issued
  {
  }

  // ---------------------------------------------------------------- refunds

  /** The two states agree on everything but the refund bookkeeping of one reservation. */
  ghost predicate RefundFields(s: State, t: State) {
    && t.acquires == s.acquires && t.issued == s.issued && t.closers == s.closers && t.setters == s.setters
    && t.lifecycle == s.lifecycle && SameFlags(s.book, t.book) && t.book.drained == s.book.drained
  }

  /** A credit is posted by a call's answer, and by it alone. */
  ghost predicate RefundPosts(s: State, t: State, k: RefundKey)
    requires k in t.refunds
  {
    t.ledger == s.ledger
    || (&& k in s.refunds && s.refunds[k].Calling? && t.refunds[k].Answered?
        && var Calling(q, _, scope) := s.refunds[k];
           t.ledger == Post(Credit(q.rid, scope, q.reserved, q.actual), s.ledger))
  }

  /** The lock is taken when it is free, released by its holder, or left alone. */
  ghost predicate RefundMovesLock(s: State, t: State, k: RefundKey)
    requires k in t.refunds
  {
    var was := if k in s.refunds && HoldsLock(s.refunds[k]) then Some(s.refunds[k].lock) else None;
    var pc := t.refunds[k];
    if HoldsLock(pc) then
      (was == Some(pc.lock) && t.held == s.held)
      || (was.None? && pc.lock !in s.held && t.held == s.held[pc.lock := Refunder(k)])
    else t.held == if was.Some? then s.held - {was.value} else s.held
  }

  /** The request keeps its reservation and its actual usage, and a call past its backend call stays there. */
  ghost predicate RefundGoesOn(s: State, t: State, k: RefundKey)
    requires k in t.refunds
  {
    if k !in s.refunds then t.refunds[k].Entering?
    else
      && t.refunds[k].q.rid == s.refunds[k].q.rid && t.refunds[k].q.actual == s.refunds[k].q.actual
      && (!MayWrite(s.refunds[k]) ==> !MayWrite(t.refunds[k]))
  }

  /** The refund is in the limiter lock. */
  predicate RefunderInside(refunds: map<RefundKey, RefundPc>, k: RefundKey) {
    k in refunds && refunds[k].Refreshing?
  }

  ghost predicate RefundTouch(s: State, t: State, k: RefundKey) {
    && RefundFields(s, t)
    && LockMoves(RefunderInside(s.refunds, k), RefunderInside(t.refunds, k), s.limiter, t.limiter, Refunder(k))
    && k in t.refunds && t.refunds == s.refunds[k := t.refunds[k]]
    && RefundPosts(s, t, k) && RefundMovesLock(s, t, k) && RefundGoesOn(s, t, k)
  }

  /** The program counter moves between two points that both hold the lock, or both do not. */
  lemma RefundMovingTouches(s: State, k: RefundKey, s1: State, pc: RefundPc)
    requires k in s.refunds && RefundFields(s, s1) && s1.refunds == s.refunds && s1.held == s.held
             && s1.ledger == s.ledger
    requires HoldsLock(pc) <==> HoldsLock(s.refunds[k])
    requires HoldsLock(pc) ==> pc.lock == s.refunds[k].lock
    requires pc.q.rid == s.refunds[k].q.rid && pc.q.actual == s.refunds[k].q.actual
    requires !MayWrite(s.refunds[k]) ==> !MayWrite(pc)
    requires LockMoves(s.refunds[k].Refreshing?, pc.Refreshing?, s.limiter, s1.limiter, Refunder(k))
    ensures RefundTouch(s, SetRefund(s1, k, pc), k)
  {
    hide SameFlags, HoldsLock, MayWrite, LockMoves;
  }

  lemma RefundStartsTouches(s: State, call: nat, rid: Id, claim: Reservation, actual: Usage)
    requires RefundStarts_(s, call, rid, claim, actual).Some?
    ensures RefundTouch(s, RefundStarts_(s, call, rid, claim, actual).value, Public(call))
  {
    hide Refundable;
  }

  lemma RefundLocksTouches(s: State, k: RefundKey)
    requires RefundLocks_(s, k).Some?
    ensures RefundTouch(s, RefundLocks_(s, k).value, k)
  {
  }

  lemma RefundUnlocksTouches(s: State, k: RefundKey)
    requires RefundUnlocks_(s, k).Some?
    ensures RefundTouch(s, RefundUnlocks_(s, k).value, k)
  {
  }

  lemma RefundRepliesTouches(c: Config, s: State, k: RefundKey, landed: bool, reply: RefundReply)
    requires RefundReplies_(c, s, k, landed, reply).Some?
    ensures RefundTouch(s, RefundReplies_(c, s, k, landed, reply).value, k)
  {
  }

  /** A table update that a refund's step makes before its program counter moves. */
  ghost predicate Updates(s: State, t: State) {
    && RefundFields(s, t) && t.refunds == s.refunds && t.held == s.held && t.ledger == s.ledger
    && t.limiter == s.limiter
  }

  lemma DroppingUpdates(s: State, rid: Id, lock: Lock)
    ensures Updates(s, DropReference(s, rid, lock))
  {
    hide CountedOut;
  }

  lemma CommittingUpdates(c: Config, s: State, rid: Id)
    ensures Updates(s, Commit(c, s, rid))
  {
    hide Remember;
  }

  lemma FailingUpdates(c: Config, s: State, rid: Id)
    ensures Updates(s, MarkFailed(c, s, rid))
  {
    hide Failed;
  }

  lemma NotingUpdates(s: State, b: Book, rid: Id, lru: Lru, inProgress: set<Id>)
    requires b == s.book || b == Forget(s.book, rid)
    ensures Updates(s, s.(book := b)) && Updates(s, s.(book := b, lru := lru)) && Updates(s, s.(lru := lru, book := b))
    ensures Updates(s, s) && Updates(s, s.(lru := lru)) && Updates(s, s.(lru := lru, inProgress := inProgress))
    ensures Updates(s, s.(inProgress := inProgress))
  {
  }

  lemma RefundEntersTouches(s: State, k: RefundKey, expired: bool)
    requires RefundEnters_(s, k, expired).Some?
    ensures RefundTouch(s, RefundEnters_(s, k, expired).value, k)
  {
    hide RefundTouch, SetRefund, Forget, Authority, RefundFields, ValidActual;
    var q := s.refunds[k].q;
    var q' := q.(reserved := Authority(s.book, q.rid, q.reserved));
    NotingUpdates(s, Forget(s.book, q.rid), q.rid, s.lru, s.inProgress);
    if s.book.closed {
      RefundMovingTouches(s, k, s, RefundDone(q, RefundRaised));
    } else if q'.reserved.unlimited {
      RefundMovingTouches(s, k, s.(book := Forget(s.book, q.rid)), RefundDone(q', Refunded));
    } else if expired {
      RefundMovingTouches(s, k, s.(book := Forget(s.book, q.rid)), RefundDone(q', RefundRaised));
    } else if !ValidActual(q'.reserved, q'.actual) {
      RefundMovingTouches(s, k, s, RefundDone(q', RefundRaised));
    } else {
      RefundMovingTouches(s, k, s, RegisteringLock(q'));
    }
  }

  lemma RefundRegistersTouches(s: State, k: RefundKey)
    requires RefundRegisters_(s, k).Some?
    ensures RefundTouch(s, RefundRegisters_(s, k).value, k)
  {
    hide RefundTouch, SetRefund, LockFor, CountedIn;
    var q := s.refunds[k].q;
    var lock := LockFor(s.locks, s.nextLock, q.rid);
    RefundMovingTouches(s, k, s.(locks := s.locks[q.rid := lock], refcounts := CountedIn(s.locks, s.refcounts, q.rid),
                                 nextLock := if q.rid in s.locks then s.nextLock else s.nextLock + 1),
                        LockWaiting(q, lock));
  }

  lemma RefundGatesTouches(c: Config, s: State, k: RefundKey)
    requires RefundGates_(c, s, k).Some?
    ensures RefundTouch(s, RefundGates_(c, s, k).value, k)
  {
    hide RefundTouch, SetRefund, GateOpen, Remember, RefundFields;
    var at := s.refunds[k];
    var lru, inProgress := Remember(c.refundCap, s.lru, at.q.rid, PendingRefund), s.inProgress + {at.q.rid};
    NotingUpdates(s, s.book, at.q.rid, lru, inProgress);
    if GateOpen(s.book, s.lru, s.inProgress, at.q.rid, at.q.allowClosed) {
      RefundMovingTouches(s, k, s.(lru := lru, inProgress := inProgress), Preparing(at.q, at.lock));
    } else {
      RefundMovingTouches(s, k, s, Unlocking(at.q, at.lock, RefundRaised));
    }
  }

  lemma RefundSettlesTouches(c: Config, s: State, k: RefundKey, changed: bool)
    requires RefundSettles_(c, s, k, changed).Some?
    ensures RefundTouch(s, RefundSettles_(c, s, k, changed).value, k)
  {
    hide RefundTouch, SetRefund, Commit, Forget, ClearIfPending, RefundFields, ProbeMayReport;
    var at := s.refunds[k];
    var rid := at.q.rid;
    var handling := Handling(at.q, at.lock, at.landed);
    CommittingUpdates(c, s, rid);
    NotingUpdates(s, s.book, rid, ClearIfPending(s.lru, rid), {});
    NotingUpdates(s, Forget(s.book, rid), rid, ClearIfPending(s.lru, rid), {});
    match at.reply
    case ReplyOk => RefundMovingTouches(s, k, Commit(c, s, rid), Notifying(at.q, at.lock));
    case ReplyDuplicate => RefundMovingTouches(s, k, Commit(c, s, rid), handling);
    case ReplyUnknown(forget) =>
      var b := if forget then Forget(s.book, rid) else s.book;
      RefundMovingTouches(s, k, s.(lru := ClearIfPending(s.lru, rid), book := b), handling);
    case ReplyError => RefundMovingTouches(s, k, if changed then Commit(c, s, rid) else s, handling);
    case ReplyCritical => RefundMovingTouches(s, k, s, handling);
  }

  lemma RefundHandlesTouches(c: Config, s: State, k: RefundKey, changed: bool)
    requires RefundHandles_(c, s, k, changed).Some?
    ensures RefundTouch(s, RefundHandles_(c, s, k, changed).value, k)
  {
    hide RefundTouch, SetRefund, Commit, MarkFailed, RefundFields, ProbeMayReport;
    var at := s.refunds[k];
    CommittingUpdates(c, s, at.q.rid);
    FailingUpdates(c, s, at.q.rid);
    RefundMovingTouches(s, k, if changed then Commit(c, s, at.q.rid) else MarkFailed(c, s, at.q.rid),
                        Leaving(at.q, at.lock, RefundRaised));
  }

  lemma RefundCallsTouches(c: Config, s: State, k: RefundKey, scope: set<BucketId>)
    requires RefundCalls_(c, s, k, scope).Some?
    ensures RefundTouch(s, RefundCalls_(c, s, k, scope).value, k)
  {
    hide RefundTouch, SetRefund, RefundFields;
    NotingUpdates(s, s.book, s.refunds[k].q.rid, s.lru, {});
    RefundMovingTouches(s, k, s, Calling(s.refunds[k].q, s.refunds[k].lock, scope));
  }

  lemma RefundFailsTouches(s: State, k: RefundKey)
    requires RefundPrepareFails_(s, k).Some?
    ensures RefundTouch(s, RefundPrepareFails_(s, k).value, k)
  {
    hide RefundTouch, SetRefund, ClearIfPending;
    var at := s.refunds[k];
    var lru := ClearIfPending(s.lru, at.q.rid);
    if at.Refreshing? {
      RefundMovingTouches(s, k, s.(lru := lru, limiter := None), Leaving(at.q, at.lock, RefundRaised));
    } else {
      RefundMovingTouches(s, k, s.(lru := lru), Leaving(at.q, at.lock, RefundRaised));
    }
  }

  lemma RefundLooksUpTouches(s: State, k: RefundKey)
    ensures RefundLooksUp_(s, k).Some? ==> RefundTouch(s, RefundLooksUp_(s, k).value, k)
    ensures RefundEntersLimiter_(s, k).Some? ==> RefundTouch(s, RefundEntersLimiter_(s, k).value, k)
  {
    hide RefundTouch, SetRefund;
    if k in s.refunds && s.refunds[k].Preparing? {
      RefundMovingTouches(s, k, s, RefreshWaiting(s.refunds[k].q, s.refunds[k].lock));
    } else if k in s.refunds && s.refunds[k].RefreshWaiting? && s.limiter.None? {
      RefundMovingTouches(s, k, s.(limiter := Some(Refunder(k))), Refreshing(s.refunds[k].q, s.refunds[k].lock));
    }
  }

  lemma RefundRefreshesTouches(s: State, k: RefundKey, installs: bool)
    requires RefundRefreshes_(s, k, installs).Some?
    ensures RefundTouch(s, RefundRefreshes_(s, k, installs).value, k)
  {
    hide RefundTouch, SetRefund;
    var at := s.refunds[k];
    var backends := s.backends + if installs then {at.q.reserved.family} else {};
    RefundMovingTouches(s, k, s.(backends := backends, limiter := None), Refreshed(at.q, at.lock));
  }

  lemma RefundLeavesTouches(s: State, k: RefundKey)
    ensures forall raises :: RefundNotifies_(s, k, raises).Some? ==>
            RefundTouch(s, RefundNotifies_(s, k, raises).value, k)
    ensures RefundLeaves_(s, k).Some? ==> RefundTouch(s, RefundLeaves_(s, k).value, k)
  {
    hide RefundTouch, SetRefund, RefundFields;
    if k in s.refunds {
      NotingUpdates(s, s.book, s.refunds[k].q.rid, s.lru, s.inProgress - {s.refunds[k].q.rid});
    }
    if k in s.refunds && s.refunds[k].Notifying? {
      RefundMovingTouches(s, k, s, Handling(s.refunds[k].q, s.refunds[k].lock, true));
      RefundMovingTouches(s, k, s, Leaving(s.refunds[k].q, s.refunds[k].lock, Refunded));
    } else if k in s.refunds && s.refunds[k].Leaving? {
      var Leaving(q, lock, result) := s.refunds[k];
      RefundMovingTouches(s, k, s.(inProgress := s.inProgress - {q.rid}), Unlocking(q, lock, result));
    }
  }

  lemma RefundDropsTouches(s: State, k: RefundKey)
    requires RefundDrops_(s, k).Some?
    ensures RefundTouch(s, RefundDrops_(s, k).value, k)
  {
    hide RefundTouch, SetRefund, DropReference, RefundFields;
    var at := s.refunds[k];
    DroppingUpdates(s, at.q.rid, at.lock);
    RefundMovingTouches(s, k, DropReference(s, at.q.rid, at.lock), RefundDone(at.q, at.result));
  }

  lemma RefundInterruptedTouches(s: State, k: RefundKey)
    requires RefundInterrupted_(s, k).Some?
    ensures RefundTouch(s, RefundInterrupted_(s, k).value, k)
  {
    hide RefundTouch, SetRefund, DropReference, RefundFields, ClearIfPending;
    var at := s.refunds[k];
    var lru := ClearIfPending(s.lru, at.q.rid);
    DroppingUpdates(s, at.q.rid, at.lock);
    NotingUpdates(s, s.book, at.q.rid, lru, {});
    if at.LockWaiting? {
      RefundMovingTouches(s, k, DropReference(s, at.q.rid, at.lock), RefundDone(at.q, RefundRaised));
    } else {
      RefundMovingTouches(s, k, s.(lru := lru), Leaving(at.q, at.lock, RefundRaised));
    }
  }

  function RefundOf(a: RefundAction): RefundKey {
    if a.RefundStarts? then Public(a.call) else a.key
  }

  lemma RefundTouches(c: Config, s: State, a: RefundAction)
    requires RefundStep(c, s, a).Some?
    ensures RefundTouch(s, RefundStep(c, s, a).value, RefundOf(a))
  {
    hide RefundTouch, SetRefund, ClearIfPending, RefundStarts_, RefundEnters_, RefundRegisters_, RefundLocks_,
      RefundInterrupted_, RefundGates_, RefundLooksUp_, RefundEntersLimiter_, RefundRefreshes_, RefundPrepareFails_,
      RefundCalls_, RefundReplies_, RefundSettles_, RefundHandles_, RefundNotifies_, RefundLeaves_, RefundUnlocks_,
      RefundDrops_;
    match a
    case RefundStarts(call, rid, claim, actual) => RefundStartsTouches(s, call, rid, claim, actual);
    case RefundEnters(k, expired) => RefundEntersTouches(s, k, expired);
    case RefundRegisters(k) => RefundRegistersTouches(s, k);
    case RefundLocks(k) => RefundLocksTouches(s, k);
    case RefundInterrupted(k) => RefundInterruptedTouches(s, k);
    case RefundGates(k) => RefundGatesTouches(c, s, k);
    case RefundLooksUp(k) => RefundLooksUpTouches(s, k);
    case RefundEntersLimiter(k) => RefundLooksUpTouches(s, k);
    case RefundRefreshes(k, installs) => RefundRefreshesTouches(s, k, installs);
    case RefundPrepareFails(k) => RefundFailsTouches(s, k);
    case RefundCalls(k, scope) => RefundCallsTouches(c, s, k, scope);
    case RefundReplies(k, landed, reply) => RefundRepliesTouches(c, s, k, landed, reply);
    case RefundSettles(k, changed) => RefundSettlesTouches(c, s, k, changed);
    case RefundHandles(k, changed) => RefundHandlesTouches(c, s, k, changed);
    case RefundNotifies(k, raises) => RefundLeavesTouches(s, k);
    case RefundLeaves(k) => RefundLeavesTouches(s, k);
    case RefundUnlocks(k) => RefundUnlocksTouches(s, k);
    case RefundDrops(k) => RefundDropsTouches(s, k);
  }

  // ---------------------------------------------------------------- close, set_max_capacity, eviction

  function TakenBy(closers: map<nat, ClosePc>, n: nat): seq<Lock> {
    if n in closers then Taken(closers[n]) else []
  }

  predicate IsInside(closers: map<nat, ClosePc>, n: nat) {
    n in closers && IsUnderLifecycle(closers[n])
  }

  /** What is still to be taken has not been taken. */
  ghost predicate TodoOk(pc: ClosePc) {
    pc.Draining? ==> forall i :: 0 <= i < |pc.taken| ==> pc.taken[i] !in pc.todo
  }

  /** A free lock is taken, the last one taken is released, or none is touched. */
  ghost predicate CloserMovesLocks(s: State, t: State, n: nat) {
    var was, now := TakenBy(s.closers, n), TakenBy(t.closers, n);
    || (now == was && t.held == s.held)
    || (|now| == |was| + 1 && now[..|was|] == was && now[|was|] !in s.held && t.held == s.held[now[|was|] := Closer(n)])
    || (|was| == |now| + 1 && now == was[..|now|] && t.held == s.held - {was[|now|]})
  }

  predicate IsShutting(b: Book) {
    b.closing || b.closed
  }

  /** Only the opening section sets the close going, and it recomputes the event. */
  ghost predicate CloserSetsEvent(s: State, t: State, n: nat) {
    && (IsShutting(s.book) ==> IsShutting(t.book)) && (s.book.closeDrained ==> t.book.closeDrained)
    && (|| t.book.drained == NoneDelivering(t.book)
        || (t.book.drained == s.book.drained
            && (IsShutting(t.book) ==>
                  IsShutting(s.book) || (n in s.closers && !s.closers[n].Opening? && !s.closers[n].CloseDone?))))
  }

  ghost predicate CloserTouch(s: State, t: State, n: nat) {
    && t.acquires == s.acquires && t.refunds == s.refunds && t.ledger == s.ledger && t.setters == s.setters
    && n in t.closers && t.closers == s.closers[n := t.closers[n]]
    && ((n in s.closers ==> TodoOk(s.closers[n])) ==> TodoOk(t.closers[n]))
    && CloserMovesLocks(s, t, n)
    && LockMoves(IsInside(s.closers, n), IsInside(t.closers, n), s.lifecycle, t.lifecycle, Closer(n))
    && t.limiter == s.limiter
    && CloserSetsEvent(s, t, n)
  }

  ghost predicate SetterInside(setters: map<nat, SetMaxPc>, n: nat) {
    n in setters && HasLifecycle(setters[n])
  }

  /** The call is in the limiter lock, inside the lifecycle lock. */
  predicate SetterWriting(setters: map<nat, SetMaxPc>, n: nat) {
    n in setters && setters[n].SetMaxWriting?
  }

  ghost predicate SetterTouch(s: State, t: State, n: nat) {
    && t.acquires == s.acquires && t.refunds == s.refunds && t.ledger == s.ledger && t.closers == s.closers
    && t.held == s.held && t.book == s.book
    && n in t.setters && t.setters == s.setters[n := t.setters[n]]
    && LockMoves(SetterInside(s.setters, n), SetterInside(t.setters, n), s.lifecycle, t.lifecycle, Setter(n))
    && LockMoves(SetterWriting(s.setters, n), SetterWriting(t.setters, n), s.limiter, t.limiter, Setter(n))
  }

  ghost predicate EvictTouch(s: State, t: State) {
    && t.acquires == s.acquires && t.refunds == s.refunds && t.ledger == s.ledger && t.closers == s.closers
    && t.held == s.held && t.book == s.book && t.setters == s.setters && t.lifecycle == s.lifecycle
    && t.limiter == s.limiter
  }

  predicate IsSetMax(a: LifecycleAction) {
    || a.SetMaxStarts? || a.SetMaxEntersLifecycle? || a.SetMaxChecks? || a.SetMaxEntersLimiter? || a.SetMaxEnds?
    || a.SetMaxInterrupted?
  }

  ghost predicate LifecycleTouch(s: State, t: State, a: LifecycleAction) {
    if a.EvictFamilies? then EvictTouch(s, t)
    else if IsSetMax(a) then SetterTouch(s, t, a.call)
    else CloserTouch(s, t, a.call)
  }

  lemma CloserMoveTouches(s: State, n: nat, s1: State, pc: ClosePc)
    requires s1 == s.(book := s1.book, lifecycle := s1.lifecycle, backendCloses := s1.backendCloses)
    requires TakenBy(s.closers, n) == Taken(pc) && TodoOk(pc)
    requires LockMoves(IsInside(s.closers, n), IsUnderLifecycle(pc), s.lifecycle, s1.lifecycle, Closer(n))
    requires CloserSetsEvent(s, s1, n)
    ensures CloserTouch(s, SetCloser(s1, n, pc), n)
  {
    hide TodoOk, IsUnderLifecycle, Taken, NoneDelivering;
  }

  lemma CloseEntersTouches(s: State, n: nat)
    ensures CloseStarts_(s, n).Some? ==> CloserTouch(s, CloseStarts_(s, n).value, n)
    ensures CloseOpens_(s, n).Some? ==> CloserTouch(s, CloseOpens_(s, n).value, n)
    ensures CloseSeesDrained_(s, n).Some? ==> CloserTouch(s, CloseSeesDrained_(s, n).value, n)
    ensures CloseTimesOut_(s, n).Some? ==> CloserTouch(s, CloseTimesOut_(s, n).value, n)
  {
    hide CloserTouch, SetCloser;
    if n !in s.closers {
      CloserMoveTouches(s, n, s, Opening);
    } else if s.closers[n].Opening? {
      CloserMoveTouches(s, n, s, CloseDone);
      CloserMoveTouches(s, n, s.(book := BeginClosing(s.book)), DrainWaiting);
    } else if s.closers[n].DrainWaiting? {
      CloserMoveTouches(s, n, s, LifecycleWaiting);
      CloserMoveTouches(s, n, s.(book := MarkClosed(s.book)), CloseDone);
    } else if s.closers[n].LifecycleWaiting? {
      CloserMoveTouches(s, n, s.(book := MarkClosed(s.book)), CloseDone);
    }
  }

  lemma CloseMarksTouches(s: State, n: nat)
    ensures CloseEntersLifecycle_(s, n).Some? ==> CloserTouch(s, CloseEntersLifecycle_(s, n).value, n)
    ensures CloseMarks_(s, n).Some? ==> CloserTouch(s, CloseMarks_(s, n).value, n)
    ensures CloseSnapshots_(s, n).Some? ==> CloserTouch(s, CloseSnapshots_(s, n).value, n)
  {
    hide CloserTouch, SetCloser;
    if n in s.closers && s.closers[n].LifecycleWaiting? && s.lifecycle.None? {
      CloserMoveTouches(s, n, s.(lifecycle := Some(Closer(n))), Marking);
    } else if n in s.closers && s.closers[n].Marking? {
      CloserMoveTouches(s, n, s.(lifecycle := None), Clearing);
      CloserMoveTouches(s, n, s.(book := MarkClosed(s.book)), Snapshotting);
    } else if n in s.closers && s.closers[n].Snapshotting? {
      CloserMoveTouches(s, n, s, Draining(s.locks.Values, []));
    }
  }

  lemma CloseTakesTouches(s: State, n: nat, lock: Lock)
    requires CloseTakes_(s, n, lock).Some?
    ensures CloserTouch(s, CloseTakes_(s, n, lock).value, n)
  {
    var t := CloseTakes_(s, n, lock).value;
    assert TakenBy(t.closers, n) == TakenBy(s.closers, n) + [lock];
  }

  lemma CloseReleasesTouches(s: State, n: nat)
    requires CloseReleases_(s, n).Some?
    ensures CloserTouch(s, CloseReleases_(s, n).value, n)
  {
  }

  lemma CloseDrainsTouches(s: State, n: nat)
    ensures CloseDrainFails_(s, n).Some? ==> CloserTouch(s, CloseDrainFails_(s, n).value, n)
    ensures CloseDrainEnds_(s, n).Some? ==> CloserTouch(s, CloseDrainEnds_(s, n).value, n)
    ensures CloseSealsDrain_(s, n).Some? ==> CloserTouch(s, CloseSealsDrain_(s, n).value, n)
  {
    hide CloserTouch, SetCloser;
    if n in s.closers && s.closers[n].Draining? {
      CloserMoveTouches(s, n, s, Releasing(s.closers[n].taken, false));
      CloserMoveTouches(s, n, s, Releasing(s.closers[n].taken, true));
    } else if n in s.closers && s.closers[n].Releasing? && s.closers[n].taken == [] {
      CloserMoveTouches(s, n, s.(book := s.book.(closeDrained := true)), BackendClosing);
      CloserMoveTouches(s, n, s.(book := MarkClosed(s.book), lifecycle := None), CloseDone);
    }
  }

  lemma CloseEndsTouches(s: State, n: nat)
    ensures CloseCallsBackend_(s, n).Some? ==> CloserTouch(s, CloseCallsBackend_(s, n).value, n)
    ensures forall raises :: CloseBackendReturns_(s, n, raises).Some? ==>
            CloserTouch(s, CloseBackendReturns_(s, n, raises).value, n)
  {
    hide CloserTouch, SetCloser;
    if n in s.closers && s.closers[n].BackendClosing? {
      CloserMoveTouches(s, n, s.(backendCloses := s.backendCloses + 1), BackendClosed);
    } else if n in s.closers && s.closers[n].BackendClosed? {
      CloserMoveTouches(s, n, s.(lifecycle := None), Clearing);
      CloserMoveTouches(s, n, s.(book := MarkClosed(s.book), lifecycle := None), CloseDone);
    }
  }

  lemma CloseClearsTouches(s: State, n: nat)
    requires CloseClears_(s, n).Some?
    ensures CloserTouch(s, CloseClears_(s, n).value, n)
  {
  }

  lemma SetterMoveTouches(s: State, n: nat, s1: State, pc: SetMaxPc)
    requires s1 == s.(lifecycle := s1.lifecycle, limiter := s1.limiter, backends := s1.backends)
    requires LockMoves(SetterInside(s.setters, n), HasLifecycle(pc), s.lifecycle, s1.lifecycle, Setter(n))
    requires LockMoves(SetterWriting(s.setters, n), pc.SetMaxWriting?, s.limiter, s1.limiter, Setter(n))
    ensures SetterTouch(s, SetSetter(s1, n, pc), n)
  {
    hide HasLifecycle, LockMoves;
  }

  lemma SetMaxEntersTouches(s: State, n: nat)
    ensures SetMaxStarts_(s, n).Some? ==> SetterTouch(s, SetMaxStarts_(s, n).value, n)
    ensures SetMaxEntersLifecycle_(s, n).Some? ==> SetterTouch(s, SetMaxEntersLifecycle_(s, n).value, n)
    ensures SetMaxEntersLimiter_(s, n).Some? ==> SetterTouch(s, SetMaxEntersLimiter_(s, n).value, n)
  {
    hide SetterTouch, SetSetter;
    if n !in s.setters {
      SetterMoveTouches(s, n, s, SetMaxWaiting);
    } else if s.setters[n].SetMaxWaiting? && s.lifecycle.None? {
      SetterMoveTouches(s, n, s.(lifecycle := Some(Setter(n))), SetMaxChecking);
    } else if s.setters[n].SetMaxLimiterWaiting? && s.limiter.None? {
      SetterMoveTouches(s, n, s.(limiter := Some(Setter(n))), SetMaxWriting);
    }
  }

  lemma SetMaxLeavesTouches(s: State, n: nat)
    ensures SetMaxChecks_(s, n).Some? ==> SetterTouch(s, SetMaxChecks_(s, n).value, n)
    ensures SetMaxInterrupted_(s, n).Some? ==> SetterTouch(s, SetMaxInterrupted_(s, n).value, n)
  {
    hide SetterTouch, SetSetter;
    if n in s.setters && s.setters[n].SetMaxWaiting? {
      SetterMoveTouches(s, n, s, SetMaxDone);
    } else if n in s.setters && s.setters[n].SetMaxChecking? {
      SetterMoveTouches(s, n, s.(lifecycle := None), SetMaxDone);
      SetterMoveTouches(s, n, s, SetMaxLimiterWaiting);
    } else if n in s.setters && s.setters[n].SetMaxLimiterWaiting? {
      SetterMoveTouches(s, n, s.(lifecycle := None), SetMaxDone);
    }
  }

  lemma SetMaxEndsTouches(s: State, n: nat, installed: set<Family>)
    requires SetMaxEnds_(s, n, installed).Some?
    ensures SetterTouch(s, SetMaxEnds_(s, n, installed).value, n)
  {
    hide SetterTouch, SetSetter;
    SetterMoveTouches(s, n, s.(backends := s.backends + installed, limiter := None, lifecycle := None), SetMaxDone);
  }

  lemma LifecycleTouches(c: Config, s: State, a: LifecycleAction)
    requires LifecycleStep(c, s, a).Some?
    ensures LifecycleTouch(s, LifecycleStep(c, s, a).value, a)
  {
    hide CloserTouch, SetterTouch, CloseStarts_, CloseOpens_, CloseSeesDrained_, CloseTimesOut_,
      CloseEntersLifecycle_, CloseMarks_, CloseSnapshots_, CloseTakes_, CloseDrainFails_, CloseDrainEnds_,
      CloseReleases_, CloseSealsDrain_, CloseCallsBackend_, CloseBackendReturns_, CloseClears_, SetMaxStarts_,
      SetMaxEntersLifecycle_, SetMaxChecks_, SetMaxEnds_, SetMaxEntersLimiter_, SetMaxInterrupted_;
    match a
    case CloseTakes(n, lock) => CloseTakesTouches(s, n, lock);
    case CloseReleases(n) => CloseReleasesTouches(s, n);
    case CloseClears(n) => CloseClearsTouches(s, n);
    case SetMaxEnds(n, installed) => SetMaxEndsTouches(s, n, installed);
    case EvictFamilies(families) =>
    case _ =>
      CloseEntersTouches(s, a.call);
      CloseMarksTouches(s, a.call);
      CloseDrainsTouches(s, a.call);
      CloseEndsTouches(s, a.call);
      SetMaxEntersTouches(s, a.call);
      SetMaxLeavesTouches(s, a.call);
  }
}
