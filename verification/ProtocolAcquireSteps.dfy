/** Every step of an acquire call keeps the invariant. */
module ProtocolAcquireSteps {
  import opened Types
  import opened Bookkeeping
  import opened Protocol
  import opened ProtocolInvariant
  import opened ProtocolFrames

  /** What one step of acquire `rid` may do before any refund of `rid` exists. */
  ghost predicate AcquireEffect(c: Config, s: State, s': State, rid: Id) {
    && rid in s.acquires && rid in s'.acquires && rid in s.issued
    && s' == s.(book := s'.book, backends := s'.backends, acquires := s'.acquires, ledger := s'.ledger)
    && AgreeOff(s.acquires, s'.acquires, rid)
    && s.backends <= s'.backends
    && Consistent(c.maxInFlight, s'.book)
    && Local(s.book, s'.book, rid)
    && AcquireOk(s'.book, s.refunds, s'.backends, rid, s.issued[rid], s'.acquires[rid])
    && RecordOk(s'.book, s.issued, s'.backends, rid)
    && (s'.ledger == s.ledger || s'.ledger == Post(Debit(rid, s.issued[rid]), s.ledger))
    && Debits(s'.ledger, rid) == (if IsDebited(s.issued, s'.acquires, rid) then 1 else 0)
  }

  lemma AcquireEffectKeeps(c: Config, s: State, s': State, rid: Id)
    requires Inv(c, s) && AcquireEffect(c, s, s', rid)
    requires !MayBeRefunded(s.acquires[rid])
    requires s'.ledger != s.ledger ==> !s.issued[rid].unlimited && WellFormed(s.issued[rid])
    ensures Inv(c, s')
  {
    hide Consistent, Local, AcquireInv, RecordInv, OrderInv, RefundInv, HolderInv, LockInv, DrainInv, TakenInv,
      CloserInv, SetterInv, ClosedInv, PostingsOk, DebitInv, CreditInv, SettledInv, ClaimInv, DedupInv;
    NotRefunded(s.book, s.acquires, s.issued, s.refunds, rid);
    AcquireFrame(s.book, s'.book, s.refunds, s.refunds, s.backends, s'.backends, s.issued, s.issued, s.acquires,
                 s'.acquires, rid);
    RecordFrame(s.book, s'.book, s.issued, s.issued, s.backends, s'.backends, rid);
    RefundFrame(s.book, s'.book, s.acquires, s'.acquires, s.issued, s.issued, s.refunds, rid);
    CloserFrame(s.book, s'.book, rid, s.lifecycle, s.backendCloses, s.closers);
    SetterFrame(s.book, s'.book, rid, s.lifecycle, s.setters);
    ClosedFrame(s.book, s'.book, rid, s.refunds, s.refunds, s.backendCloses, s.cleared);
    NotCredited(c, s, rid);
    DebitPosts(s.ledger, s'.ledger, s.issued, rid);
    DebitFrame(s.ledger, s'.ledger, s.issued, s.issued, s.acquires, s'.acquires, rid);
    CreditFrame(c, s.ledger, s'.ledger, s.issued, s.issued, s.acquires, s'.acquires, rid);
    SettledFrame(c, s.ledger, s'.ledger, s.book, s'.book, s.refunds, rid);
    ClaimFrame(c, s.ledger, s'.ledger, s.issued, s.issued, s.book, s'.book, s.refunds, rid);
  }

  lemma NotCredited(c: Config, s: State, rid: Id)
    requires CreditInv(c, s.ledger, s.issued, s.acquires)
    requires rid in s.acquires && !MayBeRefunded(s.acquires[rid])
    ensures Credits(s.ledger, rid) == 0
  {
  }

  /** Nothing but the set of installed backends depends on who is in the limiter lock. */
  lemma LimiterKeeps(c: Config, s: State, backends: set<Family>, limiter: Option<Owner>)
    requires Inv(c, s) && s.backends <= backends
    ensures Inv(c, s.(backends := backends, limiter := limiter))
  {
    hide Consistent, OrderInv, RefundInv, HolderInv, LockInv, DrainInv, TakenInv, CloserInv, SetterInv, ClosedInv,
      PostingsOk, DebitInv, CreditInv, SettledInv, ClaimInv, DedupInv;
    forall rid | rid in s.acquires && rid in s.issued
      ensures AcquireOk(s.book, s.refunds, backends, rid, s.issued[rid], s.acquires[rid])
    {
      assert AcquireOk(s.book, s.refunds, s.backends, rid, s.issued[rid], s.acquires[rid]);
    }
    forall rid ensures RecordOk(s.book, s.issued, backends, rid) {
      assert RecordOk(s.book, s.issued, s.backends, rid);
    }
  }

  predicate IsSetUp(pc: AcquirePc) {
    pc in {Registering, LookupWaiting, LookingUp}
  }

  /** The call ends before its backend call, rolled back. */
  lemma SetupEnds(c: Config, s: State, rid: Id)
    requires Inv(c, s) && rid in s.acquires && IsSetUp(s.acquires[rid])
    ensures Inv(c, SetAcquire(s.(book := RollbackPending(s.book, rid)), rid, Finished(RolledBack)))
  {
    hide Consistent, Local, Forget, RollbackPending, FinalizePending, BeginCleanup, AcquireInv, RecordInv, OrderInv,
      RefundInv, HolderInv, LockInv, DrainInv, TakenInv, CloserInv, SetterInv, ClosedInv, PostingsOk, DebitInv,
      CreditInv, SettledInv, ClaimInv, DedupInv;
    AcquireKnown(c, s, rid);
    RollbackPendingKeeps(c.maxInFlight, s.book, rid);
    RollbackPendingLocal(s.book, rid);
    AcquireEffectKeeps(c, s, SetAcquire(s.(book := RollbackPending(s.book, rid)), rid, Finished(RolledBack)), rid);
  }

  lemma AcquireSetupFailsKeeps(c: Config, s: State, rid: Id)
    requires Inv(c, s) && AcquireSetupFails_(s, rid).Some?
    ensures Inv(c, AcquireSetupFails_(s, rid).value)
  {
    hide Inv, RollbackPending, SetAcquire;
    if s.acquires[rid].LookingUp? {
      LimiterKeeps(c, s, s.backends, None);
      SetupEnds(c, s.(backends := s.backends, limiter := None), rid);
    } else {
      SetupEnds(c, s, rid);
    }
  }

  lemma AcquireInterruptedKeeps(c: Config, s: State, rid: Id)
    requires Inv(c, s) && AcquireInterrupted_(s, rid).Some?
    ensures Inv(c, AcquireInterrupted_(s, rid).value)
  {
    hide Inv, RollbackPending, SetAcquire;
    SetupEnds(c, s, rid);
  }

  /** The call goes on towards its backend call. */
  lemma SetupMoves(c: Config, s: State, rid: Id, pc: AcquirePc)
    requires Inv(c, s) && rid in s.acquires && IsSetUp(s.acquires[rid])
    requires pc in {LookupWaiting, LookingUp, Acquiring}
    requires pc.Acquiring? ==> rid in s.issued && s.issued[rid].family in s.backends
    ensures Inv(c, SetAcquire(s, rid, pc))
  {
    hide Consistent, Local, Forget, RollbackPending, FinalizePending, BeginCleanup, AcquireInv, RecordInv, OrderInv,
      RefundInv, HolderInv, LockInv, DrainInv, TakenInv, CloserInv, SetterInv, ClosedInv, PostingsOk, DebitInv,
      CreditInv, SettledInv, ClaimInv, DedupInv;
    AcquireKnown(c, s, rid);
    SameLocal(s.book, rid);
    AcquireEffectKeeps(c, s, SetAcquire(s, rid, pc), rid);
  }

  lemma AcquireLooksUpKeeps(c: Config, s: State, rid: Id)
    requires Inv(c, s) && AcquireLooksUp_(s, rid).Some?
    ensures Inv(c, AcquireLooksUp_(s, rid).value)
  {
    hide Inv, SetAcquire;
    SetupMoves(c, s, rid, LookupWaiting);
  }

  lemma AcquireEntersLimiterKeeps(c: Config, s: State, rid: Id)
    requires Inv(c, s) && AcquireEntersLimiter_(s, rid).Some?
    ensures Inv(c, AcquireEntersLimiter_(s, rid).value)
  {
    hide Inv, SetAcquire;
    LimiterKeeps(c, s, s.backends, Some(Acquirer(rid)));
    SetupMoves(c, s.(backends := s.backends, limiter := Some(Acquirer(rid))), rid, LookingUp);
  }

  /** What the invariant says of one acquire. */
  lemma AcquireKnown(c: Config, s: State, rid: Id)
    requires Inv(c, s) && rid in s.acquires
    ensures rid in s.issued
    ensures AcquireOk(s.book, s.refunds, s.backends, rid, s.issued[rid], s.acquires[rid])
    ensures RecordOk(s.book, s.issued, s.backends, rid)
    ensures Debits(s.ledger, rid) == if IsDebited(s.issued, s.acquires, rid) then 1 else 0
    ensures rid in s.book.pending ==> rid !in s.book.inFlight
  {
  }

  lemma AcquireSetupDoneKeeps(c: Config, s: State, rid: Id)
    requires Inv(c, s) && AcquireSetupDone_(s, rid).Some?
    ensures Inv(c, AcquireSetupDone_(s, rid).value)
  {
    hide Inv, SetAcquire;
    if s.acquires[rid].LookingUp? {
      var backends := s.backends + {s.issued[rid].family};
      LimiterKeeps(c, s, backends, None);
      SetupMoves(c, s.(backends := backends, limiter := None), rid, Acquiring);
    } else {
      SetupMoves(c, s, rid, Acquiring);
    }
  }

  lemma AcquireRepliesKeeps(c: Config, s: State, rid: Id, reply: AcquireReply)
    requires Inv(c, s) && AcquireReplies_(c, s, rid, reply).Some?
    ensures Inv(c, AcquireReplies_(c, s, rid, reply).value)
  {
    hide Consistent, Local, Forget, RollbackPending, FinalizePending, BeginCleanup, AcquireInv, RecordInv, OrderInv,
      RefundInv, HolderInv, LockInv, DrainInv, TakenInv, CloserInv, SetterInv, ClosedInv, PostingsOk, DebitInv,
      CreditInv, SettledInv, ClaimInv, DedupInv;
    AcquireKnown(c, s, rid);
    SameLocal(s.book, rid);
    AcquireEffectKeeps(c, s, AcquireReplies_(c, s, rid, reply).value, rid);
  }

  lemma GrantedSettles(c: Config, s: State, rid: Id)
    requires Inv(c, s) && rid in s.acquires && s.acquires[rid] == Replied(Granted)
    ensures Inv(c, SetAcquire(s.(book := BeginCleanup(s.book, rid)), rid, Delivering))
  {
    hide Consistent, Local, Forget, RollbackPending, FinalizePending, BeginCleanup, AcquireInv, RecordInv, OrderInv,
      RefundInv, HolderInv, LockInv, DrainInv, TakenInv, CloserInv, SetterInv, ClosedInv, PostingsOk, DebitInv,
      CreditInv, SettledInv, ClaimInv, DedupInv;
    AcquireKnown(c, s, rid);
    BeginCleanupKeeps(c.maxInFlight, s.book, rid);
    BeginCleanupLocal(s.book, rid);
    AcquireEffectKeeps(c, s, SetAcquire(s.(book := BeginCleanup(s.book, rid)), rid, Delivering), rid);
  }

  /** The backend's call raised: rolled back, whether or not a debit stays behind. */
  lemma RaisedRollsBack(c: Config, s: State, rid: Id, result: AcquireResult)
    requires Inv(c, s) && rid in s.acquires && s.acquires[rid].Replied?
    requires (s.acquires[rid].reply == RaisedUndebited && result == RolledBack)
             || (s.acquires[rid].reply == RaisedDebited && result == Recorded)
             || (s.acquires[rid].reply == RaisedUnrecorded && result == Lost)
    ensures Inv(c, SetAcquire(s.(book := RollbackPending(s.book, rid)), rid, Finished(result)))
  {
    hide Consistent, Local, Forget, RollbackPending, FinalizePending, BeginCleanup, AcquireInv, RecordInv, OrderInv,
      RefundInv, HolderInv, LockInv, DrainInv, TakenInv, CloserInv, SetterInv, ClosedInv, PostingsOk, DebitInv,
      CreditInv, SettledInv, ClaimInv, DedupInv;
    AcquireKnown(c, s, rid);
    RollbackPendingKeeps(c.maxInFlight, s.book, rid);
    RollbackPendingLocal(s.book, rid);
    AcquireEffectKeeps(c, s, SetAcquire(s.(book := RollbackPending(s.book, rid)), rid, Finished(result)), rid);
  }

  predicate MayFinalize(was: AcquirePc, pc: AcquirePc) {
    || (was == Replied(RaisedDebited) && pc == Finished(Surfaced))
    || (was == Delivering && pc == Emitting)
    || (was == Refinalizing && pc == Choosing)
  }

  lemma FinalizedOk(c: Config, s: State, rid: Id, pc: AcquirePc)
    requires Inv(c, s) && rid in s.acquires && rid in s.issued && MayFinalize(s.acquires[rid], pc)
    ensures var b := FinalizePending(s.book, rid, s.issued[rid]);
            && Consistent(c.maxInFlight, b) && Local(s.book, b, rid)
            && AcquireOk(b, s.refunds, s.backends, rid, s.issued[rid], pc) && RecordOk(b, s.issued, s.backends, rid)
    ensures IsDebited(s.issued, s.acquires, rid) && IsDebitedPc(pc) && !MayBeRefunded(s.acquires[rid])
    ensures Debits(s.ledger, rid) == 1
  {
    hide Consistent, Local, Forget, RollbackPending, FinalizePending, BeginCleanup, AcquireInv, RecordInv, OrderInv,
      RefundInv, HolderInv, LockInv, DrainInv, TakenInv, CloserInv, SetterInv, ClosedInv, PostingsOk, DebitInv,
      CreditInv, SettledInv, ClaimInv, DedupInv;
    AcquireKnown(c, s, rid);
    FinalizePendingKeeps(c.maxInFlight, s.book, rid, s.issued[rid]);
    FinalizePendingLocal(s.book, rid, s.issued[rid]);
  }

  /** The finalizing sections: recovery after a failed clean-up, delivery, and the undelivered path. */
  lemma FinalizingKeeps(c: Config, s: State, rid: Id, pc: AcquirePc)
    requires Inv(c, s) && rid in s.acquires && rid in s.issued && MayFinalize(s.acquires[rid], pc)
    ensures Inv(c, SetAcquire(s.(book := FinalizePending(s.book, rid, s.issued[rid])), rid, pc))
  {
    hide Inv, Consistent, Local, FinalizePending, AcquireOk, RecordOk, IsDebitedPc, MayBeRefunded, MayFinalize;
    FinalizedOk(c, s, rid, pc);
    AcquireEffectKeeps(c, s, SetAcquire(s.(book := FinalizePending(s.book, rid, s.issued[rid])), rid, pc), rid);
  }

  lemma AcquireSettlesKeeps(c: Config, s: State, rid: Id)
    requires Inv(c, s) && AcquireSettles_(s, rid).Some?
    ensures Inv(c, AcquireSettles_(s, rid).value)
  {
    hide Inv, BeginCleanup, RollbackPending, FinalizePending, SetAcquire;
    match s.acquires[rid].reply
    case Granted => GrantedSettles(c, s, rid);
    case RaisedUndebited => RaisedRollsBack(c, s, rid, RolledBack);
    case RaisedDebited =>
      if s.issued[rid].blocking {
        FinalizingKeeps(c, s, rid, Finished(Surfaced));
      } else {
        RaisedRollsBack(c, s, rid, Recorded);
      }
    case RaisedUnrecorded => RaisedRollsBack(c, s, rid, Lost);
  }

  lemma AcquireFinalizesKeeps(c: Config, s: State, rid: Id)
    requires Inv(c, s) && AcquireFinalizes_(s, rid).Some?
    ensures Inv(c, AcquireFinalizes_(s, rid).value)
  {
    hide Inv, FinalizePending, SetAcquire;
    FinalizingKeeps(c, s, rid, Emitting);
  }

  /** The lifecycle callback of a recorded or unlimited reservation raised: it is forgotten. */
  lemma UndeliveredForgets(c: Config, s: State, rid: Id, pc: AcquirePc)
    requires Inv(c, s) && rid in s.acquires
    requires (s.acquires[rid] == Emitting && pc == Ending(Recorded))
             || (s.acquires[rid] == UnlimitedEmitting && pc == Finished(RolledBack))
    ensures Inv(c, SetAcquire(s.(book := Forget(s.book, rid)), rid, pc))
  {
    hide Consistent, Local, Forget, RollbackPending, FinalizePending, BeginCleanup, AcquireInv, RecordInv, OrderInv,
      RefundInv, HolderInv, LockInv, DrainInv, TakenInv, CloserInv, SetterInv, ClosedInv, PostingsOk, DebitInv,
      CreditInv, SettledInv, ClaimInv, DedupInv;
    AcquireKnown(c, s, rid);
    ForgetKeeps(c.maxInFlight, s.book, rid);
    ForgetLocal(s.book, rid);
    AcquireEffectKeeps(c, s, SetAcquire(s.(book := Forget(s.book, rid)), rid, pc), rid);
  }

  /** Steps that only move the program counter. */
  lemma AcquireMoves(c: Config, s: State, rid: Id, pc: AcquirePc)
    requires Inv(c, s) && rid in s.acquires
    requires (s.acquires[rid] == Emitting && pc in {Ending(Delivered), Refinalizing})
             || (s.acquires[rid] == UnlimitedEmitting && pc == Finished(Delivered))
             || (s.acquires[rid] == Acquiring && pc == Replied(RaisedUndebited))
    ensures Inv(c, SetAcquire(s, rid, pc))
  {
    hide Consistent, Local, Forget, RollbackPending, FinalizePending, BeginCleanup, AcquireInv, RecordInv, OrderInv,
      RefundInv, HolderInv, LockInv, DrainInv, TakenInv, CloserInv, SetterInv, ClosedInv, PostingsOk, DebitInv,
      CreditInv, SettledInv, ClaimInv, DedupInv;
    AcquireKnown(c, s, rid);
    SameLocal(s.book, rid);
    AcquireEffectKeeps(c, s, SetAcquire(s, rid, pc), rid);
  }

  lemma AcquireEmitsKeeps(c: Config, s: State, rid: Id, raises: bool)
    requires Inv(c, s) && AcquireEmits_(s, rid, raises).Some?
    ensures Inv(c, AcquireEmits_(s, rid, raises).value)
  {
    hide Inv, Forget, SetAcquire;
    if !raises {
      AcquireMoves(c, s, rid, Ending(Delivered));
    } else if s.issued[rid].blocking {
      AcquireMoves(c, s, rid, Refinalizing);
    } else {
      UndeliveredForgets(c, s, rid, Ending(Recorded));
    }
  }

  lemma AcquireRefinalizesKeeps(c: Config, s: State, rid: Id)
    requires Inv(c, s) && AcquireRefinalizes_(s, rid).Some?
    ensures Inv(c, AcquireRefinalizes_(s, rid).value)
  {
    hide Inv, FinalizePending, SetAcquire;
    FinalizingKeeps(c, s, rid, Choosing);
  }

  lemma UnlimitedEmitsKeeps(c: Config, s: State, rid: Id, raises: bool)
    requires Inv(c, s) && UnlimitedEmits_(s, rid, raises).Some?
    ensures Inv(c, UnlimitedEmits_(s, rid, raises).value)
  {
    hide Inv, Forget, SetAcquire;
    if raises {
      UndeliveredForgets(c, s, rid, Finished(RolledBack));
    } else {
      AcquireMoves(c, s, rid, Finished(Delivered));
    }
  }

  // ---------------------------------------------------------------- starting

  /** A fresh id has no postings, so the ledger groups do not notice it. */
  lemma NewAcquireLedger(c: Config, s: State, s': State, rid: Id, r: Reservation, pc: AcquirePc)
    requires Inv(c, s) && !Known(s, rid)
    requires pc == (if r.unlimited then UnlimitedEmitting else Registering)
    requires s' == s.(book := s'.book, acquires := s.acquires[rid := pc],
                      issued := s.issued[rid := r], order := s.order + [rid])
    requires Local(s.book, s'.book, rid)
    ensures PostingsOk(s.ledger, s'.issued)
    ensures DebitInv(s.ledger, s'.issued, s'.acquires)
    ensures CreditInv(c, s.ledger, s'.issued, s'.acquires)
    ensures SettledInv(c, s.ledger, s'.book.inFlight, s.refunds)
    ensures ClaimInv(c, s.ledger, s'.issued, s'.book.inFlight, s.refunds)
  {
    hide Consistent, Local, AcquireInv, RecordInv, OrderInv, RefundInv, HolderInv, LockInv, DrainInv, TakenInv,
      CloserInv, SetterInv, ClosedInv, PostingsOk, DebitInv, CreditInv, SettledInv, ClaimInv, DedupInv;
    Unissued(c, s, rid);
    PostingsFrame(s.ledger, s.issued, s'.issued);
    DebitFrame(s.ledger, s.ledger, s.issued, s'.issued, s.acquires, s'.acquires, rid);
    CreditFrame(c, s.ledger, s.ledger, s.issued, s'.issued, s.acquires, s'.acquires, rid);
    SettledFrame(c, s.ledger, s.ledger, s.book, s'.book, s.refunds, rid);
    ClaimFrame(c, s.ledger, s.ledger, s.issued, s'.issued, s.book, s'.book, s.refunds, rid);
  }

  /** A fresh id joins with nothing known about it. */
  lemma NewAcquireKeeps(c: Config, s: State, s': State, rid: Id, r: Reservation, pc: AcquirePc)
    requires Inv(c, s) && !Known(s, rid)
    requires pc == (if r.unlimited then UnlimitedEmitting else Registering)
    requires s' == s.(book := s'.book, acquires := s.acquires[rid := pc],
                      issued := s.issued[rid := r], order := s.order + [rid])
    requires Consistent(c.maxInFlight, s'.book) && Local(s.book, s'.book, rid)
    requires AcquireOk(s'.book, s.refunds, s.backends, rid, r, pc)
    requires RecordOk(s'.book, s'.issued, s.backends, rid)
    ensures Inv(c, s')
  {
    hide Consistent, Local, AcquireInv, RecordInv, OrderInv, RefundInv, HolderInv, LockInv, DrainInv, TakenInv,
      CloserInv, SetterInv, ClosedInv, PostingsOk, DebitInv, CreditInv, SettledInv, ClaimInv, DedupInv;
    Unissued(c, s, rid);
    AcquireFrame(s.book, s'.book, s.refunds, s.refunds, s.backends, s.backends, s.issued, s'.issued, s.acquires,
                 s'.acquires, rid);
    RecordFrame(s.book, s'.book, s.issued, s'.issued, s.backends, s.backends, rid);
    OrderGrows(s.order, s.issued, rid, r);
    RefundFrame(s.book, s'.book, s.acquires, s'.acquires, s.issued, s'.issued, s.refunds, rid);
    CloserFrame(s.book, s'.book, rid, s.lifecycle, s.backendCloses, s.closers);
    SetterFrame(s.book, s'.book, rid, s.lifecycle, s.setters);
    ClosedFrame(s.book, s'.book, rid, s.refunds, s.refunds, s.backendCloses, s.cleared);
    NewAcquireLedger(c, s, s', rid, r, pc);
  }

  lemma Unissued(c: Config, s: State, rid: Id)
    requires Inv(c, s) && rid !in s.issued
    ensures rid !in s.acquires && rid !in s.book.pending && rid !in s.book.inFlight
    ensures rid !in s.book.family && rid !in s.book.snapshots && rid !in s.book.cleanup
    ensures Debits(s.ledger, rid) == 0 && Credits(s.ledger, rid) == 0
  {
    hide Local, OrderInv, RefundInv, HolderInv, LockInv, DrainInv, TakenInv, CloserInv, SetterInv, ClosedInv,
      DebitInv, CreditInv, SettledInv, ClaimInv, DedupInv;
    assert RecordOk(s.book, s.issued, s.backends, rid);
    CreditsAreIssued(s.ledger, s.issued, rid);
  }

  lemma OrderGrows(order: seq<Id>, issued: map<Id, Reservation>, rid: Id, r: Reservation)
    requires OrderInv(order, issued) && rid !in issued
    ensures OrderInv(order + [rid], issued[rid := r])
  {
  }

  /** A refused begin may leave the drained event cleared. */
  lemma RefusedKeeps(c: Config, s: State, b: Book, rid: Id)
    requires Inv(c, s) && rid !in s.issued
    requires Consistent(c.maxInFlight, b) && Local(s.book, b, rid)
    requires b == s.book.(drained := b.drained)
    ensures Inv(c, s.(book := b))
  {
    hide Consistent, Local, AcquireInv, RecordInv, OrderInv, RefundInv, HolderInv, LockInv, DrainInv, TakenInv,
      CloserInv, SetterInv, ClosedInv, PostingsOk, DebitInv, CreditInv, SettledInv, ClaimInv, DedupInv;
    Unissued(c, s, rid);
    SameReferences(s, b, rid);
    AcquireFrame(s.book, b, s.refunds, s.refunds, s.backends, s.backends, s.issued, s.issued, s.acquires, s.acquires,
                 rid);
    RecordFrame(s.book, b, s.issued, s.issued, s.backends, s.backends, rid);
    CloserFrame(s.book, b, rid, s.lifecycle, s.backendCloses, s.closers);
    ClosedFrame(s.book, b, rid, s.refunds, s.refunds, s.backendCloses, s.cleared);
  }

  lemma SameReferences(s: State, b: Book, rid: Id)
    requires RefundInv(s.book, s.acquires, s.issued, s.refunds) && b == s.book.(drained := b.drained)
    ensures RefundInv(b, s.acquires, s.issued, s.refunds)
  {
    forall k | k in s.refunds
      ensures RefundOk(b, s.acquires, s.issued, k, s.refunds[k])
    {
      assert RefundOk(s.book, s.acquires, s.issued, k, s.refunds[k]);
    }
  }

  lemma AcquireBeginKeeps(c: Config, s: State, rid: Id, r: Reservation)
    requires Inv(c, s) && AcquireBegin_(c, s, rid, r).Some?
    ensures Inv(c, AcquireBegin_(c, s, rid, r).value)
  {
    hide Consistent, Local, BeginPending, AcquireInv, RecordInv, OrderInv, RefundInv, HolderInv, LockInv, DrainInv,
      TakenInv, CloserInv, SetterInv, ClosedInv, PostingsOk, DebitInv, CreditInv, SettledInv, ClaimInv, DedupInv;
    Unissued(c, s, rid);
    BeginPendingKeeps(c.maxInFlight, s.book, rid, r);
    BeginPendingLocal(c.maxInFlight, s.book, rid, r);
    var (b, verdict) := BeginPending(c.maxInFlight, s.book, rid, r);
    if verdict.Admitted? {
      NewAcquireKeeps(c, s, AcquireBegin_(c, s, rid, r).value, rid, r, Registering);
    } else {
      RefusedKeeps(c, s, b, rid);
    }
  }

  lemma UnlimitedBeginKeeps(c: Config, s: State, rid: Id, r: Reservation)
    requires Inv(c, s) && UnlimitedBegin_(c, s, rid, r).Some?
    ensures Inv(c, UnlimitedBegin_(c, s, rid, r).value)
  {
    hide Consistent, Local, AcquireInv, RecordInv, OrderInv, RefundInv, HolderInv, LockInv, DrainInv, TakenInv,
      CloserInv, SetterInv, ClosedInv, PostingsOk, DebitInv, CreditInv, SettledInv, ClaimInv, DedupInv;
    Unissued(c, s, rid);
    RememberInFlightKeeps(c.maxInFlight, s.book, rid, r);
    RememberInFlightLocal(c.maxInFlight, s.book, rid, r);
    var (b, verdict) := RememberInFlight(c.maxInFlight, s.book, rid, r);
    if verdict.Admitted? {
      NewAcquireKeeps(c, s, UnlimitedBegin_(c, s, rid, r).value, rid, r, UnlimitedEmitting);
    }
  }

  // ---------------------------------------------------------------- the undelivered refund and the end

  /** The undelivered acquire opens a refund of its own reservation. */
  ghost predicate Opens(s: State, s': State, rid: Id) {
    && rid in s.acquires && s.acquires[rid] == Choosing && Undelivered(rid) !in s.refunds
    && Undelivered(rid) in s'.refunds
    && s' == s.(acquires := s.acquires[rid := AwaitingRefund],
                refunds := s.refunds[Undelivered(rid) := s'.refunds[Undelivered(rid)]])
    && (s'.refunds[Undelivered(rid)].Entering? || s'.refunds[Undelivered(rid)].RegisteringLock?)
    && RefundOk(s.book, s'.acquires, s.issued, Undelivered(rid), s'.refunds[Undelivered(rid)])
  }

  lemma OpeningCalls(c: Config, s: State, s': State, rid: Id)
    requires Inv(c, s) && Opens(s, s', rid)
    ensures AcquireInv(s.book, s'.refunds, s.backends, s.issued, s'.acquires)
    ensures RefundInv(s.book, s'.acquires, s.issued, s'.refunds)
    ensures DebitInv(s.ledger, s.issued, s'.acquires)
    ensures CreditInv(c, s.ledger, s.issued, s'.acquires)
  {
    hide Consistent, Local, AcquireInv, RecordInv, OrderInv, RefundInv, HolderInv, LockInv, DrainInv, TakenInv,
      CloserInv, SetterInv, ClosedInv, PostingsOk, DebitInv, CreditInv, SettledInv, ClaimInv, DedupInv;
    AcquireKnown(c, s, rid);
    SameLocal(s.book, rid);
    NotRefunded(s.book, s.acquires, s.issued, s.refunds, rid);
    NotCredited(c, s, rid);
    AcquireFrame(s.book, s.book, s.refunds, s'.refunds, s.backends, s.backends, s.issued, s.issued, s.acquires,
                 s'.acquires, rid);
    RefundFrame(s.book, s.book, s.acquires, s'.acquires, s.issued, s.issued, s.refunds, rid);
    RefundAdds(s.book, s'.acquires, s.issued, s.refunds, s'.refunds, Undelivered(rid));
    DebitFrame(s.ledger, s.ledger, s.issued, s.issued, s.acquires, s'.acquires, rid);
    CreditFrame(c, s.ledger, s.ledger, s.issued, s.issued, s.acquires, s'.acquires, rid);
  }

  /** A refund call that has just started holds no lock and claims nothing. */
  lemma NewRefundKeeps(c: Config, s: State, refunds: map<RefundKey, RefundPc>, k: RefundKey)
    requires Inv(c, s) && k !in s.refunds && OnlyRefund(s.refunds, refunds, k)
    requires refunds[k].Entering? || refunds[k].RegisteringLock?
    ensures HolderInv(s.held, refunds)
    ensures !s.cleared ==> LockInv(s.locks, s.refcounts, refunds)
    ensures DrainInv(refunds, s.closers)
    ensures ClosedInv(s.book, refunds, s.backendCloses, s.cleared)
    ensures SettledInv(c, s.ledger, s.book.inFlight, refunds)
    ensures ClaimInv(c, s.ledger, s.issued, s.book.inFlight, refunds)
    ensures DedupInv(c, s.lru, refunds)
  {
    hide Consistent, Local, AcquireInv, RecordInv, OrderInv, RefundInv, HolderInv, LockInv, DrainInv, TakenInv,
      CloserInv, SetterInv, ClosedInv, PostingsOk, DebitInv, CreditInv, SettledInv, ClaimInv, DedupInv;
    SameLocal(s.book, refunds[k].q.rid);
    HolderFrame(s.held, s.held, s.refunds, refunds, k);
    if !s.cleared {
      LockFrame(s.locks, s.refcounts, s.refunds, refunds, k);
    }
    DrainFrame(s.refunds, refunds, s.closers);
    ClosedFrame(s.book, s.book, refunds[k].q.rid, s.refunds, refunds, s.backendCloses, s.cleared);
    SettledMoves(c, s.ledger, s.ledger, s.book.inFlight, s.book.inFlight, s.refunds, refunds, k);
    ClaimMoves(c, s.ledger, s.ledger, s.issued, s.book.inFlight, s.book.inFlight, s.refunds, refunds, k);
    DedupFrame(c, s.lru, s.refunds, refunds, k);
  }

  lemma AcquireChoosesKeeps(c: Config, s: State, rid: Id)
    requires Inv(c, s) && AcquireChooses_(s, rid).Some?
    ensures Inv(c, AcquireChooses_(s, rid).value)
  {
    hide Consistent, Local, AcquireInv, RecordInv, OrderInv, RefundInv, HolderInv, LockInv, DrainInv, TakenInv,
      CloserInv, SetterInv, ClosedInv, PostingsOk, DebitInv, CreditInv, SettledInv, ClaimInv, DedupInv;
    AcquireKnown(c, s, rid);
    var s' := AcquireChooses_(s, rid).value;
    OpeningCalls(c, s, s', rid);
    NewRefundKeeps(c, s, s'.refunds, Undelivered(rid));
  }

  /** The acquire whose own refund has ended moves on. */
  lemma LateEffectKeeps(c: Config, s: State, s': State, rid: Id)
    requires Inv(c, s) && AcquireEffect(c, s, s', rid)
    requires MayBeRefunded(s.acquires[rid]) && MayBeRefunded(s'.acquires[rid]) && !s.acquires[rid].Finished?
    requires s'.ledger == s.ledger && s'.book.inFlight == s.book.inFlight
    requires Undelivered(rid) in s.refunds ==>
               RefundOk(s'.book, s'.acquires, s.issued, Undelivered(rid), s.refunds[Undelivered(rid)])
    ensures Inv(c, s')
  {
    hide Consistent, Local, AcquireInv, RecordInv, OrderInv, RefundInv, HolderInv, LockInv, DrainInv, TakenInv,
      CloserInv, SetterInv, ClosedInv, PostingsOk, DebitInv, CreditInv, SettledInv, ClaimInv, DedupInv;
    AcquireFrame(s.book, s'.book, s.refunds, s.refunds, s.backends, s'.backends, s.issued, s.issued, s.acquires,
                 s'.acquires, rid);
    RecordFrame(s.book, s'.book, s.issued, s.issued, s.backends, s'.backends, rid);
    RefundFrameOwn(s.book, s'.book, s.acquires, s'.acquires, s.issued, s.refunds, rid);
    CloserFrame(s.book, s'.book, rid, s.lifecycle, s.backendCloses, s.closers);
    SetterFrame(s.book, s'.book, rid, s.lifecycle, s.setters);
    ClosedFrame(s.book, s'.book, rid, s.refunds, s.refunds, s.backendCloses, s.cleared);
    DebitFrame(s.ledger, s.ledger, s.issued, s.issued, s.acquires, s'.acquires, rid);
    CreditsSafe(c, s, rid);
    CreditFrame(c, s.ledger, s.ledger, s.issued, s.issued, s.acquires, s'.acquires, rid);
  }

  lemma CreditsSafe(c: Config, s: State, rid: Id)
    requires CreditInv(c, s.ledger, s.issued, s.acquires)
    ensures CreditsSafely(c) ==> Credits(s.ledger, rid) <= 1
    ensures Credits(s.ledger, rid) > 0 ==> IsDebited(s.issued, s.acquires, rid)
  {
  }

  lemma OwnRefundKnown(c: Config, s: State, k: RefundKey)
    requires Inv(c, s) && k in s.refunds
    ensures RefundOk(s.book, s.acquires, s.issued, k, s.refunds[k])
    ensures HolderOk(s.held, k, s.refunds[k])
    ensures ClaimOk(c, s.ledger, s.issued, s.book.inFlight, s.refunds[k])
    ensures !s.cleared ==> Registered(s.locks, s.refunds[k])
  {
  }

  lemma AcquireCollectsKeeps(c: Config, s: State, rid: Id, critical: bool)
    requires Inv(c, s) && AcquireCollects_(s, rid, critical).Some?
    ensures Inv(c, AcquireCollects_(s, rid, critical).value)
  {
    hide Consistent, Local, AcquireInv, RecordInv, OrderInv, RefundInv, HolderInv, LockInv, DrainInv, TakenInv,
      CloserInv, SetterInv, ClosedInv, PostingsOk, DebitInv, CreditInv, SettledInv, ClaimInv, DedupInv;
    AcquireKnown(c, s, rid);
    OwnRefundKnown(c, s, Undelivered(rid));
    SameLocal(s.book, rid);
    LateEffectKeeps(c, s, AcquireCollects_(s, rid, critical).value, rid);
  }

  lemma AcquireEndsKeeps(c: Config, s: State, rid: Id)
    requires Inv(c, s) && AcquireEnds_(s, rid).Some?
    ensures Inv(c, AcquireEnds_(s, rid).value)
  {
    hide Consistent, Local, EndCleanup, AcquireInv, RecordInv, OrderInv, RefundInv, HolderInv, LockInv, DrainInv,
      TakenInv, CloserInv, SetterInv, ClosedInv, PostingsOk, DebitInv, CreditInv, SettledInv, ClaimInv, DedupInv;
    var s' := AcquireEnds_(s, rid).value;
    AcquireKnown(c, s, rid);
    EndCleanupKeeps(c.maxInFlight, s.book, rid);
    EndCleanupLocal(s.book, rid);
    if MayBeRefunded(s.acquires[rid]) {
      if Undelivered(rid) in s.refunds {
        OwnRefundKnown(c, s, Undelivered(rid));
      }
      LateEffectKeeps(c, s, s', rid);
    } else {
      AcquireEffectKeeps(c, s, s', rid);
    }
  }
}
