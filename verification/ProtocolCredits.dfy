/** When a reservation is credited at most once: exactly for the backends that keep acquire
  markers, or whose landed refunds can always be told from failed ones. */
module ProtocolCredits {
  import opened Types
  import opened Bookkeeping
  import opened Protocol
  import opened ProtocolInvariant
  import opened ProtocolTheorems
  import opened ProtocolLedger

  ghost predicate Reaches(c: Config, s: State, t: State) {
    exists actions :: Run(c, s, actions) == Some(t)
  }

  lemma ReachesItself(c: Config, s: State)
    ensures Reaches(c, s, s)
  {
    assert Run(c, s, []) == Some(s);
  }

  lemma ReachesOn(c: Config, s: State, t: State, a: Action)
    requires Reaches(c, s, t) && Step(c, t, a).Some?
    ensures Reaches(c, s, Step(c, t, a).value)
  {
    hide Step;
    var actions :| Run(c, s, actions) == Some(t);
    assert (actions + [a])[..|actions|] == actions;
    assert Run(c, s, actions + [a]) == Some(Step(c, t, a).value);
  }

  lemma Moves(c: Config, t: State, a: Action)
    requires Reaches(c, Initial, t) && Step(c, t, a).Some?
    ensures Reaches(c, Initial, Step(c, t, a).value)
  {
    ReachesOn(c, Initial, t, a);
  }

  // ---------------------------------------------------------------- a backend that cannot tell

  const OneBucket := Reservation(0, {BucketId(0, 60)}, map[0 := 1.0], false, true)
  const NothingUsed: Usage := map[0 := 0.0]
  const FullRefund := Request(0, OneBucket, NothingUsed, false)

  /** Reservation 0 is the only one; its acquire stands at `pc`. */
  ghost predicate Acquires(s: State, pc: AcquirePc) {
    && 0 in s.acquires && s.acquires[0] == pc
    && 0 in s.issued && s.issued[0] == OneBucket && s.order == [0]
    && !s.book.closed
  }

  ghost predicate NoRefundYet(s: State) {
    && (forall k :: k !in s.refunds)
    && 0 !in s.locks && 0 !in s.refcounts && 0 !in s.inProgress && (forall l :: l !in s.held)
    && s.lru == [] && s.limiter.None?
  }

  lemma AcquireBegins(c: Config) returns (t: State)
    requires c.maxInFlight > 0
    ensures Reaches(c, Initial, t) && Acquires(t, Registering) && NoRefundYet(t) && t.ledger == Empty
  {
    hide Reaches, RefundStep, LifecycleStep;
    ReachesItself(c, Initial);
    assert Metrics(OneBucket.buckets) == {0};
    assert BeginPending(c.maxInFlight, NewBook, 0, OneBucket).1.Admitted?;
    Moves(c, Initial, OnAcquire(AcquireBegin(0, OneBucket)));
    t := Step(c, Initial, OnAcquire(AcquireBegin(0, OneBucket))).value;
  }

  /** The family is new, so its backend is installed under the limiter lock. */
  lemma AcquireIsSetUp(c: Config, s: State) returns (t: State)
    requires Reaches(c, Initial, s) && Acquires(s, Registering) && NoRefundYet(s)
    ensures Reaches(c, Initial, t) && Acquires(t, Acquiring) && NoRefundYet(t) && OneBucket.family in t.backends
    ensures t.ledger == s.ledger
  {
    hide Reaches, RefundStep, LifecycleStep;
    Moves(c, s, OnAcquire(AcquireLooksUp(0)));
    var s1 := Step(c, s, OnAcquire(AcquireLooksUp(0))).value;
    Moves(c, s1, OnAcquire(AcquireEntersLimiter(0)));
    var s2 := Step(c, s1, OnAcquire(AcquireEntersLimiter(0))).value;
    Moves(c, s2, OnAcquire(AcquireSetupDone(0)));
    t := Step(c, s2, OnAcquire(AcquireSetupDone(0))).value;
  }

  /** The debit lands, and the call returns or raises. */
  lemma AcquireIsDebited(c: Config, s: State, reply: AcquireReply) returns (t: State)
    requires Reaches(c, Initial, s) && Acquires(s, Acquiring) && NoRefundYet(s) && OneBucket.family in s.backends
    requires reply.Granted? || (reply.RaisedUnrecorded? && !HandsDebitsOver(c))
    ensures Reaches(c, Initial, t) && Acquires(t, Replied(reply)) && NoRefundYet(t) && OneBucket.family in t.backends
    ensures t.ledger == Post(Debit(0, OneBucket), s.ledger)
  {
    hide Reaches, RefundStep, LifecycleStep;
    Moves(c, s, OnAcquire(AcquireReplies(0, reply)));
    t := Step(c, s, OnAcquire(AcquireReplies(0, reply))).value;
  }

  lemma AcquireIsEmitted(c: Config, s: State) returns (t: State)
    requires Reaches(c, Initial, s) && Acquires(s, Replied(Granted)) && NoRefundYet(s) && OneBucket.family in s.backends
    ensures Reaches(c, Initial, t) && Acquires(t, Emitting) && NoRefundYet(t) && OneBucket.family in t.backends
    ensures 0 in t.book.inFlight && 0 in t.book.snapshots && t.book.snapshots[0] == OneBucket && t.ledger == s.ledger
  {
    hide Reaches, RefundStep, LifecycleStep;
    Moves(c, s, OnAcquire(AcquireSettles(0)));
    var s1 := Step(c, s, OnAcquire(AcquireSettles(0))).value;
    Moves(c, s1, OnAcquire(AcquireFinalizes(0)));
    t := Step(c, s1, OnAcquire(AcquireFinalizes(0))).value;
  }

  /** Reservation 0 is in flight, was handed to its caller, and no refund of it is running. */
  ghost predicate Awaiting(s: State, calls: nat) {
    && Acquires(s, Finished(Delivered)) && OneBucket.family in s.backends
    && 0 in s.book.inFlight && 0 in s.book.snapshots && s.book.snapshots[0] == OneBucket
    && 0 !in s.locks && 0 !in s.inProgress && (forall l :: l !in s.held)
    && !Marked(s.lru, 0, CommittedRefund)
    && (forall n: nat :: n >= calls ==> Public(n) !in s.refunds)
    && (forall k :: k in s.refunds ==> !IsSettling(s.refunds[k]))
  }

  lemma AcquireIsDelivered(c: Config, s: State) returns (t: State)
    requires Reaches(c, Initial, s) && Acquires(s, Emitting) && NoRefundYet(s) && OneBucket.family in s.backends
    requires 0 in s.book.inFlight && 0 in s.book.snapshots && s.book.snapshots[0] == OneBucket
    ensures Reaches(c, Initial, t) && Awaiting(t, 0) && t.ledger == s.ledger
  {
    hide Reaches, RefundStep, LifecycleStep;
    Moves(c, s, OnAcquire(AcquireEmits(0, false)));
    var s1 := Step(c, s, OnAcquire(AcquireEmits(0, false))).value;
    Moves(c, s1, OnAcquire(AcquireEnds(0)));
    t := Step(c, s1, OnAcquire(AcquireEnds(0))).value;
  }

  /** One refund of reservation 0 stands at `pc`; from its registration on it owns the reservation's lock entry. */
  ghost predicate Refunding(s: State, n: nat, pc: RefundPc) {
    && Acquires(s, Finished(Delivered)) && OneBucket.family in s.backends
    && 0 in s.book.inFlight && 0 in s.book.snapshots && s.book.snapshots[0] == OneBucket
    && pc.q == FullRefund && Public(n) in s.refunds && s.refunds[Public(n)] == pc
    && (if HasLock(pc)
        then 0 in s.locks && s.locks[0] == pc.lock && 0 in s.refcounts && s.refcounts[0] == 1
        else 0 !in s.locks)
    && (forall l :: l in s.held ==> HoldsLock(pc) && l == pc.lock)
    && (PastGate(pc) || 0 !in s.inProgress)
    && !Marked(s.lru, 0, CommittedRefund)
    && (forall m: nat :: m > n ==> Public(m) !in s.refunds)
    && (forall k :: k in s.refunds && k != Public(n) ==> !IsSettling(s.refunds[k]))
  }

  lemma RefundReachesEntry(c: Config, s: State, n: nat) returns (t: State)
    requires Reaches(c, Initial, s) && Awaiting(s, n)
    ensures Reaches(c, Initial, t) && Refunding(t, n, Entering(FullRefund)) && t.ledger == s.ledger
  {
    hide Reaches, AcquireStep, LifecycleStep;
    Moves(c, s, OnRefund(RefundStarts(n, 0, OneBucket, NothingUsed)));
    t := Step(c, s, OnRefund(RefundStarts(n, 0, OneBucket, NothingUsed))).value;
  }

  lemma RefundIsAccepted(c: Config, s: State, n: nat) returns (t: State)
    requires Reaches(c, Initial, s) && Refunding(s, n, Entering(FullRefund))
    ensures Reaches(c, Initial, t) && Refunding(t, n, RegisteringLock(FullRefund)) && t.ledger == s.ledger
  {
    hide Reaches, AcquireStep, LifecycleStep;
    Moves(c, s, OnRefund(RefundEnters(Public(n), false)));
    t := Step(c, s, OnRefund(RefundEnters(Public(n), false))).value;
  }

  lemma RefundIsCounted(c: Config, s: State, n: nat) returns (t: State)
    requires Reaches(c, Initial, s) && Refunding(s, n, RegisteringLock(FullRefund))
    ensures Reaches(c, Initial, t) && Refunding(t, n, LockWaiting(FullRefund, s.nextLock)) && t.ledger == s.ledger
  {
    hide Reaches, AcquireStep, LifecycleStep;
    Moves(c, s, OnRefund(RefundRegisters(Public(n))));
    t := Step(c, s, OnRefund(RefundRegisters(Public(n)))).value;
  }

  lemma LockIsTaken(s: State, n: nat, lock: Lock)
    requires Refunding(s, n, LockWaiting(FullRefund, lock))
    ensures RefundLocks_(s, Public(n)).Some?
    ensures Refunding(RefundLocks_(s, Public(n)).value, n, AtGate(FullRefund, lock))
    ensures RefundLocks_(s, Public(n)).value.ledger == s.ledger
  {
    hide Marked;
  }

  lemma RefundTakesLock(c: Config, s: State, n: nat, lock: Lock) returns (t: State)
    requires Reaches(c, Initial, s) && Refunding(s, n, LockWaiting(FullRefund, lock))
    ensures Reaches(c, Initial, t) && Refunding(t, n, AtGate(FullRefund, lock)) && t.ledger == s.ledger
  {
    hide Reaches, Refunding, RefundLocks_;
    LockIsTaken(s, n, lock);
    assert Step(c, s, OnRefund(RefundLocks(Public(n)))) == RefundLocks_(s, Public(n));
    Moves(c, s, OnRefund(RefundLocks(Public(n))));
    t := RefundLocks_(s, Public(n)).value;
  }

  /** The refund moves on inside the guarded section. */
  lemma RefundMovesOn(s: State, n: nat, pc: RefundPc, s1: State, pc1: RefundPc)
    requires Refunding(s, n, pc) && HoldsLock(pc) && HoldsLock(pc1) && pc1.lock == pc.lock && pc1.q == FullRefund
    requires s1 == s.(lru := s1.lru, inProgress := s1.inProgress, ledger := s1.ledger)
    requires PastGate(pc1) && !Marked(s1.lru, 0, CommittedRefund)
    ensures Refunding(SetRefund(s1, Public(n), pc1), n, pc1)
  {
    hide Marked;
  }

  lemma RefundingKnown(s: State, n: nat, pc: RefundPc)
    requires Refunding(s, n, pc)
    ensures Public(n) in s.refunds && s.refunds[Public(n)] == pc && pc.q == FullRefund
    ensures 0 in s.issued && s.issued[0] == OneBucket && !s.book.closed
    ensures !Marked(s.lru, 0, CommittedRefund) && (!PastGate(pc) ==> 0 !in s.inProgress)
  {
    hide Marked;
  }

  lemma RefundPassesGate(c: Config, s: State, n: nat, lock: Lock) returns (t: State)
    requires Reaches(c, Initial, s) && Refunding(s, n, AtGate(FullRefund, lock))
    ensures Reaches(c, Initial, t) && Refunding(t, n, Preparing(FullRefund, lock)) && t.ledger == s.ledger
  {
    hide Reaches, AcquireStep, LifecycleStep, Remember, Refunding;
    var k, at := Public(n), AtGate(FullRefund, lock);
    RefundingKnown(s, n, at);
    var s1 := s.(lru := Remember(c.refundCap, s.lru, 0, PendingRefund), inProgress := s.inProgress + {0});
    RefundMovesOn(s, n, at, s1, Preparing(FullRefund, lock));
    assert Step(c, s, OnRefund(RefundGates(k))) == RefundGates_(c, s, k);
    t := SetRefund(s1, k, Preparing(FullRefund, lock));
    assert RefundGates_(c, s, k) == Some(t);
    Moves(c, s, OnRefund(RefundGates(k)));
  }

  lemma RefundReachesBackend(c: Config, s: State, n: nat, lock: Lock) returns (t: State)
    requires Reaches(c, Initial, s) && Refunding(s, n, Preparing(FullRefund, lock))
    ensures Reaches(c, Initial, t) && Refunding(t, n, Calling(FullRefund, lock, OneBucket.buckets))
            && t.ledger == s.ledger
  {
    hide Reaches, AcquireStep, LifecycleStep;
    Moves(c, s, OnRefund(RefundCalls(Public(n), OneBucket.buckets)));
    t := Step(c, s, OnRefund(RefundCalls(Public(n), OneBucket.buckets))).value;
  }

  /** The backend writes the credit and then raises. */
  lemma RefundLandsAndRaises(c: Config, s: State, n: nat, lock: Lock) returns (t: State)
    requires c.raisesAfterWrite && (!c.markers || (Debits(s.ledger, 0) > 0 && Credits(s.ledger, 0) == 0))
    requires Reaches(c, Initial, s) && Refunding(s, n, Calling(FullRefund, lock, OneBucket.buckets))
    ensures Reaches(c, Initial, t) && Refunding(t, n, Answered(FullRefund, lock, true, ReplyError))
    ensures t.ledger == Post(Credit(0, OneBucket.buckets, OneBucket, NothingUsed), s.ledger)
  {
    hide Reaches, AcquireStep, LifecycleStep, Refunding;
    var k, at := Public(n), Calling(FullRefund, lock, OneBucket.buckets);
    RefundingKnown(s, n, at);
    var s1 := s.(ledger := Post(Credit(0, OneBucket.buckets, OneBucket, NothingUsed), s.ledger));
    RefundMovesOn(s, n, at, s1, Answered(FullRefund, lock, true, ReplyError));
    assert Step(c, s, OnRefund(RefundReplies(k, true, ReplyError))) == RefundReplies_(c, s, k, true, ReplyError);
    t := SetRefund(s1, k, Answered(FullRefund, lock, true, ReplyError));
    assert RefundReplies_(c, s, k, true, ReplyError) == Some(t);
    Moves(c, s, OnRefund(RefundReplies(k, true, ReplyError)));
  }

  /** Without a probe the limiter takes it for a failed refund, and leaves the reservation in flight. */
  lemma RefundLooksFailed(c: Config, s: State, n: nat, lock: Lock) returns (t: State)
    requires !c.probes
    requires Reaches(c, Initial, s) && Refunding(s, n, Answered(FullRefund, lock, true, ReplyError))
    ensures Reaches(c, Initial, t) && Refunding(t, n, Handling(FullRefund, lock, true)) && t.ledger == s.ledger
  {
    hide Reaches, AcquireStep, LifecycleStep, Remember, Forget;
    Moves(c, s, OnRefund(RefundSettles(Public(n), false)));
    t := Step(c, s, OnRefund(RefundSettles(Public(n), false))).value;
  }

  lemma MarkingFailedIsNotCommitting(c: Config, s: State)
    requires !Marked(s.lru, 0, CommittedRefund)
    ensures var t := MarkFailed(c, s, 0);
            t == s.(lru := t.lru) && !Marked(t.lru, 0, CommittedRefund)
  {
    hide Remember;
  }

  lemma RefundIsMarkedFailed(c: Config, s: State, n: nat, lock: Lock) returns (t: State)
    requires !c.probes
    requires Reaches(c, Initial, s) && Refunding(s, n, Handling(FullRefund, lock, true))
    ensures Reaches(c, Initial, t) && Refunding(t, n, Leaving(FullRefund, lock, RefundRaised)) && t.ledger == s.ledger
  {
    hide Reaches, AcquireStep, LifecycleStep, MarkFailed, Commit, RefundEnters_, RefundGates_, RefundReplies_,
      RefundSettles_;
    MarkingFailedIsNotCommitting(c, s);
    Moves(c, s, OnRefund(RefundHandles(Public(n), false)));
    t := Step(c, s, OnRefund(RefundHandles(Public(n), false))).value;
  }

  lemma RefundReturns(c: Config, s: State, n: nat, lock: Lock) returns (t: State)
    requires Reaches(c, Initial, s) && Refunding(s, n, Leaving(FullRefund, lock, RefundRaised))
    ensures Reaches(c, Initial, t) && Awaiting(t, n + 1) && t.ledger == s.ledger
  {
    hide Reaches, AcquireStep, LifecycleStep;
    var k := Public(n);
    Moves(c, s, OnRefund(RefundLeaves(k)));
    var s1 := Step(c, s, OnRefund(RefundLeaves(k))).value;
    Moves(c, s1, OnRefund(RefundUnlocks(k)));
    var s2 := Step(c, s1, OnRefund(RefundUnlocks(k))).value;
    Moves(c, s2, OnRefund(RefundDrops(k)));
    t := Step(c, s2, OnRefund(RefundDrops(k))).value;
  }

  /** One debit, and this many credits in full. */
  function Unseen(credits: nat): (l: Ledger)
    ensures Debits(l, 0) == 1 && Credits(l, 0) == credits
  {
    if credits == 0 then Post(Debit(0, OneBucket), Empty)
    else Post(Credit(0, OneBucket.buckets, OneBucket, NothingUsed), Unseen(credits - 1))
  }

  /** A backend that hides its landed writes lets one reservation be credited and still be in flight; without
    markers any number of times. */
  lemma {:induction false} UnseenCreditsRepeat(c: Config, credits: nat) returns (t: State)
    requires c.maxInFlight > 0 && !NeverWritesSilently(c) && (credits > 1 ==> !c.markers)
    ensures Reaches(c, Initial, t) && Awaiting(t, credits) && t.ledger == Unseen(credits)
  {
    hide Reaches, Awaiting, Refunding, Acquires;
    if credits == 0 {
      t := AcquireBegins(c);
      t := AcquireIsSetUp(c, t);
      t := AcquireIsDebited(c, t, Granted);
      t := AcquireIsEmitted(c, t);
      t := AcquireIsDelivered(c, t);
    } else {
      var n := credits - 1;
      var s := UnseenCreditsRepeat(c, n);
      t := RefundReachesEntry(c, s, n);
      t := RefundIsAccepted(c, t, n);
      var lock := t.nextLock;
      t := RefundIsCounted(c, t, n);
      t := RefundTakesLock(c, t, n, lock);
      t := RefundPassesGate(c, t, n, lock);
      t := RefundReachesBackend(c, t, n, lock);
      t := RefundLandsAndRaises(c, t, n, lock);
      t := RefundLooksFailed(c, t, n, lock);
      t := RefundIsMarkedFailed(c, t, n, lock);
      t := RefundReturns(c, t, n, lock);
    }
  }

  /** Each reservation is credited at most once in every run, exactly when the backend keeps markers,
    or probes, or never raises after its write has landed. */
  lemma CreditedAtMostOnce(c: Config)
    requires c.maxInFlight > 0
    ensures CreditsSafely(c) <==>
            forall actions, rid :: Run(c, Initial, actions).Some? ==>
                Credits(Run(c, Initial, actions).value.ledger, rid) <= 1
  {
    hide Awaiting;
    if CreditsSafely(c) {
      forall actions, rid | Run(c, Initial, actions).Some?
        ensures Credits(Run(c, Initial, actions).value.ledger, rid) <= 1
      {
        RunsKeepInvariant(c, actions);
        CreditsAreSingle(c, Run(c, Initial, actions).value, rid);
      }
    } else {
      var t := UnseenCreditsRepeat(c, 2);
      var actions :| Run(c, Initial, actions) == Some(t);
      assert Credits(Run(c, Initial, actions).value.ledger, 0) == 2;
    }
  }

  lemma CreditsAreSingle(c: Config, s: State, rid: Id)
    requires Inv(c, s) && CreditsSafely(c)
    ensures Credits(s.ledger, rid) <= 1
  {
    hide AcquireInv, Consistent, RecordInv, OrderInv, RefundInv, HolderInv, LockInv, DrainInv, TakenInv, CloserInv,
      SetterInv, ClosedInv, PostingsOk, DebitInv, SettledInv, ClaimInv, DedupInv;
  }

  /** Each bucket's debits less its credits are what the limiter's records account for. */
  ghost predicate Conserves(s: State) {
    forall b :: Total(s.ledger, b) == SumDue(s, s.order, b)
  }

  lemma UnseenCreditIsNotAccounted(s: State)
    requires Awaiting(s, 1) && s.ledger == Unseen(1)
    ensures Total(s.ledger, BucketId(0, 60)) != SumDue(s, s.order, BucketId(0, 60))
  {
    hide Marked;
    var b := BucketId(0, 60);
    assert Amount(Debit(0, OneBucket), b) == 1.0;
    assert Amount(Credit(0, OneBucket.buckets, OneBucket, NothingUsed), b) == -1.0;
    assert Unseen(1) == Post(Credit(0, OneBucket.buckets, OneBucket, NothingUsed),
                             Post(Debit(0, OneBucket), Empty)) by {
      assert Unseen(0) == Post(Debit(0, OneBucket), Empty);
    }
    assert s.order[1..] == [];
    assert Due(s, 0, b) == 1.0;
  }

  /** Conservation holds in every run exactly when a refund that raises after its write landed is always found out. */
  lemma ConservationIff(c: Config)
    requires c.maxInFlight > 0
    ensures NeverWritesSilently(c) <==>
            forall actions :: Run(c, Initial, actions).Some? ==> Conserves(Run(c, Initial, actions).value)
  {
    if NeverWritesSilently(c) {
      hide Total, SumDue;
      forall actions | Run(c, Initial, actions).Some? ensures Conserves(Run(c, Initial, actions).value) {
        var s := Run(c, Initial, actions).value;
        forall b ensures Total(s.ledger, b) == SumDue(s, s.order, b) {
          Conservation(c, actions, b);
        }
      }
    } else {
      var t := UnseenCreditsRepeat(c, 1);
      UnseenCreditIsNotAccounted(t);
      hide Total, SumDue;
      var actions :| Run(c, Initial, actions) == Some(t);
      assert !Conserves(Run(c, Initial, actions).value);
    }
  }
}
