/** Every step of a refund call keeps the invariant. */
module ProtocolRefundSteps {
  import opened Types
  import opened Bookkeeping
  import opened Protocol
  import opened ProtocolInvariant
  import opened ProtocolFrames
  import opened ProtocolAcquireSteps

  /** What a step of refund `k` may do, but for the lock tables, the gate and the ledger. */
  ghost predicate RefundEffect(c: Config, s: State, s': State, k: RefundKey) {
    && k in s.refunds && OnlyRefund(s.refunds, s'.refunds, k)
    && s' == s.(refunds := s'.refunds, book := s'.book, lru := s'.lru, inProgress := s'.inProgress, held := s'.held,
                locks := s'.locks, refcounts := s'.refcounts, nextLock := s'.nextLock, ledger := s'.ledger)
    && s'.refunds[k].q.rid == s.refunds[k].q.rid
    && (s'.book == s.book || s'.book == Forget(s.book, s.refunds[k].q.rid))
    && RefundOk(s'.book, s.acquires, s.issued, k, s'.refunds[k])
    && ClaimOk(c, s'.ledger, s.issued, s'.book.inFlight, s'.refunds[k])
    && (forall l :: l in s.held && s.held[l] != Refunder(k) ==> l in s'.held && s'.held[l] == s.held[l])
    && HolderOk(s'.held, k, s'.refunds[k])
  }

  /** A credit that is not yet recorded stays visible as such. */
  ghost predicate StillSettling(c: Config, s: State, s': State, k: RefundKey)
    requires k in s.refunds && k in s'.refunds
  {
    NeverWritesSilently(c) && s'.refunds[k].q.rid in s'.book.inFlight && !IsSettling(s'.refunds[k]) ==>
      !IsSettling(s.refunds[k])
  }

  lemma RefundEffectKeeps(c: Config, s: State, s': State, k: RefundKey)
    requires Inv(c, s) && RefundEffect(c, s, s', k) && s'.ledger == s.ledger && StillSettling(c, s, s', k)
    requires !s.cleared ==> LockInv(s'.locks, s'.refcounts, s'.refunds)
    requires DrainInv(s'.refunds, s.closers)
    requires s.book.closeDrained ==> NonePastGate(s'.refunds)
    requires DedupInv(c, s'.lru, s'.refunds)
    ensures Inv(c, s')
  {
    hide Consistent, Local, Forget, NonePastGate, Sealed, AcquireInv, RecordInv, OrderInv, RefundInv, HolderInv,
      LockInv, DrainInv, TakenInv, CloserInv, SetterInv, ClosedInv, PostingsOk, DebitInv, CreditInv, SettledInv,
      ClaimInv, DedupInv;
    var rid := s.refunds[k].q.rid;
    BookMoves(c, s, s', k);
    RefundMoves(s.book, s'.book, s.acquires, s.issued, s.refunds, s'.refunds, k);
    HolderFrame(s.held, s'.held, s.refunds, s'.refunds, k);
    TakenFrame(s.held, s'.held, s.closers);
    CloserFrame(s.book, s'.book, rid, s.lifecycle, s.backendCloses, s.closers);
    SetterFrame(s.book, s'.book, rid, s.lifecycle, s.setters);
    ClosedMoves(s.book, s'.book, rid, s.refunds, s'.refunds, s.backendCloses, s.cleared);
    InFlightShrinks(s.book, s'.book, rid);
    SettledMoves(c, s.ledger, s.ledger, s.book.inFlight, s'.book.inFlight, s.refunds, s'.refunds, k);
    ClaimMoves(c, s.ledger, s.ledger, s.issued, s.book.inFlight, s'.book.inFlight, s.refunds, s'.refunds, k);
  }

  lemma InFlightShrinks(b: Book, b': Book, rid: Id)
    requires b' == b || b' == Forget(b, rid)
    ensures forall id :: id in b'.inFlight ==> id in b.inFlight
  {
  }

  lemma ClosedMoves(b: Book, b': Book, rid: Id, refunds: map<RefundKey, RefundPc>, refunds': map<RefundKey, RefundPc>,
                    backendCloses: nat, cleared: bool)
    requires ClosedInv(b, refunds, backendCloses, cleared) && Local(b, b', rid)
    requires b.closeDrained ==> NonePastGate(refunds')
    ensures ClosedInv(b', refunds', backendCloses, cleared)
  {
  }

  /** The acquires and the records survive what a refund does to the bookkeeping. */
  lemma BookMoves(c: Config, s: State, s': State, k: RefundKey)
    requires Inv(c, s) && RefundEffect(c, s, s', k)
    ensures Consistent(c.maxInFlight, s'.book) && Local(s.book, s'.book, s.refunds[k].q.rid)
    ensures AcquireInv(s'.book, s'.refunds, s.backends, s.issued, s.acquires)
    ensures RecordInv(s'.book, s.issued, s.backends)
  {
    hide Consistent, Local, Forget, AcquireInv, RecordInv, OrderInv, RefundInv, HolderInv, LockInv, DrainInv,
      TakenInv, CloserInv, SetterInv, ClosedInv, PostingsOk, DebitInv, CreditInv, SettledInv, ClaimInv, DedupInv;
    var rid := s.refunds[k].q.rid;
    OwnRefundKnown(c, s, k);
    if s'.book == s.book {
      SameLocal(s.book, rid);
    } else {
      ForgetKeeps(c.maxInFlight, s.book, rid);
      ForgetLocal(s.book, rid);
    }
    if rid in s.acquires {
      AcquireKnown(c, s, rid);
      AcquireFrame(s.book, s'.book, s.refunds, s'.refunds, s.backends, s.backends, s.issued, s.issued, s.acquires,
                   s.acquires, rid);
    } else {
      AcquiresOf(s, rid);
      AcquireFrame(s.book, s'.book, s.refunds, s'.refunds, s.backends, s.backends, s.issued, s.issued, s.acquires,
                   s.acquires, rid);
    }
    RecordOf(s, rid);
    RecordFrame(s.book, s'.book, s.issued, s.issued, s.backends, s.backends, rid);
  }

  lemma AcquiresOf(s: State, rid: Id)
    requires AcquireInv(s.book, s.refunds, s.backends, s.issued, s.acquires)
    ensures rid in s.acquires <==> rid in s.issued
  {
  }

  lemma RecordOf(s: State, rid: Id)
    requires RecordInv(s.book, s.issued, s.backends)
    ensures RecordOk(s.book, s.issued, s.backends, rid)
  {
  }

  // ---------------------------------------------------------------- moves that leave the locks alone

  /** The call stays registered, or unregistered, as it was, and does not newly pass the gate. */
  ghost predicate Plain(s: State, s': State, k: RefundKey)
    requires k in s.refunds && k in s'.refunds
  {
    && s'.locks == s.locks && s'.refcounts == s.refcounts && s'.nextLock == s.nextLock && s'.held == s.held
    && s'.ledger == s.ledger
    && (HasLock(s'.refunds[k]) <==> HasLock(s.refunds[k]))
    && (HasLock(s.refunds[k]) ==> s'.refunds[k].lock == s.refunds[k].lock)
    && (PastGate(s'.refunds[k]) ==> PastGate(s.refunds[k]))
  }

  lemma PlainKeeps(c: Config, s: State, s': State, k: RefundKey)
    requires Inv(c, s) && RefundEffect(c, s, s', k) && StillSettling(c, s, s', k) && Plain(s, s', k)
    requires DedupInv(c, s'.lru, s'.refunds)
    ensures Inv(c, s')
  {
    hide Consistent, Local, AcquireInv, RecordInv, OrderInv, RefundInv, HolderInv, LockInv, DrainInv, TakenInv,
      CloserInv, SetterInv, ClosedInv, PostingsOk, DebitInv, CreditInv, SettledInv, ClaimInv, DedupInv;
    if !s.cleared {
      LockFrame(s.locks, s.refcounts, s.refunds, s'.refunds, k);
    }
    DrainFrame(s.refunds, s'.refunds, s.closers);
    NoneNew(s, s', k);
    RefundEffectKeeps(c, s, s', k);
  }

  lemma NoneNew(s: State, s': State, k: RefundKey)
    requires ClosedInv(s.book, s.refunds, s.backendCloses, s.cleared)
    requires k in s.refunds && OnlyRefund(s.refunds, s'.refunds, k)
    requires PastGate(s'.refunds[k]) ==> PastGate(s.refunds[k])
    ensures s.book.closeDrained ==> NonePastGate(s'.refunds)
  {
  }

  /** A refund inside the guarded section is the only one of its reservation there. */
  lemma Alone(c: Config, s: State, k: RefundKey)
    requires Inv(c, s) && k in s.refunds && HoldsLock(s.refunds[k])
    ensures !s.cleared ==>
              forall j :: j in s.refunds && j != k && HoldsLock(s.refunds[j]) ==>
                s.refunds[j].q.rid != s.refunds[k].q.rid
    ensures s.cleared ==> NonePastGate(s.refunds)
  {
    hide Consistent, Local, AcquireInv, RecordInv, OrderInv, RefundInv, HolderInv, LockInv, DrainInv, TakenInv,
      CloserInv, SetterInv, PostingsOk, DebitInv, CreditInv, SettledInv, ClaimInv, DedupInv;
    if !s.cleared {
      forall j | j in s.refunds && j != k && HoldsLock(s.refunds[j])
        ensures s.refunds[j].q.rid != s.refunds[k].q.rid
      {
        if s.refunds[j].q.rid == s.refunds[k].q.rid {
          OnePastGate(s.held, s.locks, s.refcounts, s.refunds, j, k);
        }
      }
    }
  }

  lemma DedupStays(c: Config, lru: Lru, lru': Lru,
                   refunds: map<RefundKey, RefundPc>, refunds': map<RefundKey, RefundPc>, k: RefundKey)
    requires DedupInv(c, lru, refunds) && OnlyRefund(refunds, refunds', k) && k in refunds
    requires refunds'[k].q.rid == refunds[k].q.rid
    requires |lru'| <= c.refundCap
    requires forall id :: Marked(lru', id, CommittedRefund) ==> Marked(lru, id, CommittedRefund)
    requires IsPreparing(refunds'[k]) || refunds'[k].Calling? ==> IsPreparing(refunds[k]) || refunds[k].Calling?
    ensures DedupInv(c, lru', refunds')
  {
  }

  lemma DedupRemembers(c: Config, s: State, s': State, k: RefundKey, st: RefundState)
    requires Inv(c, s) && k in s.refunds && HoldsLock(s.refunds[k]) && OnlyRefund(s.refunds, s'.refunds, k)
    requires s'.lru == Remember(c.refundCap, s.lru, s.refunds[k].q.rid, st)
    requires st.CommittedRefund? ==> !IsPreparing(s'.refunds[k]) && !s'.refunds[k].Calling?
    requires s'.refunds[k].q.rid == s.refunds[k].q.rid
    ensures DedupInv(c, s'.lru, s'.refunds)
  {
    hide Remember, Consistent, Local, AcquireInv, RecordInv, OrderInv, RefundInv, HolderInv, LockInv, DrainInv,
      TakenInv, CloserInv, SetterInv, ClosedInv, PostingsOk, DebitInv, CreditInv, SettledInv, ClaimInv;
    Alone(c, s, k);
    assert forall j :: j in s.refunds && j != k && (IsPreparing(s.refunds[j]) || s.refunds[j].Calling?) ==>
        s.refunds[j].q.rid != s.refunds[k].q.rid;
  }

  lemma AuthorityIsIssued(c: Config, s: State, rid: Id, claim: Reservation)
    requires Inv(c, s)
    ensures rid in s.book.inFlight ==> rid in s.issued && Authority(s.book, rid, claim) == s.issued[rid]
    ensures rid in s.issued && claim == s.issued[rid] ==> Authority(s.book, rid, claim) == claim
  {
    hide Local, AcquireInv, OrderInv, RefundInv, HolderInv, LockInv, DrainInv, TakenInv, CloserInv, SetterInv,
      ClosedInv, PostingsOk, DebitInv, CreditInv, SettledInv, ClaimInv, DedupInv;
    assert RecordOk(s.book, s.issued, s.backends, rid);
  }

  /** The call ends at the entrance, forgetting the reservation or not. */
  lemma EntranceEnds(c: Config, s: State, k: RefundKey, b: Book, q: Request, result: RefundResult)
    requires Inv(c, s) && k in s.refunds && s.refunds[k].Entering?
    requires b == s.book || b == Forget(s.book, q.rid)
    requires q == s.refunds[k].q || q == s.refunds[k].q.(reserved := Authority(s.book, q.rid, s.refunds[k].q.reserved))
    requires result.Refunded? ==> q.reserved.unlimited
    ensures Inv(c, SetRefund(s.(book := b), k, RefundDone(q, result)))
  {
    hide Consistent, Local, Forget, Authority, AcquireInv, RecordInv, OrderInv, RefundInv, HolderInv, LockInv,
      DrainInv, TakenInv, CloserInv, SetterInv, ClosedInv, PostingsOk, DebitInv, CreditInv, SettledInv, ClaimInv,
      DedupInv;
    var s' := SetRefund(s.(book := b), k, RefundDone(q, result));
    OwnRefundKnown(c, s, k);
    AuthorityIsIssued(c, s, q.rid, s.refunds[k].q.reserved);
    DedupFrame(c, s.lru, s.refunds, s'.refunds, k);
    PlainKeeps(c, s, s', k);
  }

  lemma EntrancePasses(c: Config, s: State, k: RefundKey, q: Request)
    requires Inv(c, s) && k in s.refunds && s.refunds[k].Entering?
    requires q == s.refunds[k].q.(reserved := Authority(s.book, s.refunds[k].q.rid, s.refunds[k].q.reserved))
    requires ValidActual(q.reserved, q.actual) && !q.reserved.unlimited
    ensures Inv(c, SetRefund(s, k, RegisteringLock(q)))
  {
    hide Consistent, Local, Forget, Authority, AcquireInv, RecordInv, OrderInv, RefundInv, HolderInv, LockInv,
      DrainInv, TakenInv, CloserInv, SetterInv, ClosedInv, PostingsOk, DebitInv, CreditInv, SettledInv, ClaimInv,
      DedupInv;
    var s' := SetRefund(s, k, RegisteringLock(q));
    OwnRefundKnown(c, s, k);
    AuthorityIsIssued(c, s, q.rid, s.refunds[k].q.reserved);
    DedupFrame(c, s.lru, s.refunds, s'.refunds, k);
    PlainKeeps(c, s, s', k);
  }

  lemma RefundEntersKeeps(c: Config, s: State, k: RefundKey, expired: bool)
    requires Inv(c, s) && RefundEnters_(s, k, expired).Some?
    ensures Inv(c, RefundEnters_(s, k, expired).value)
  {
    hide Inv, Forget, Authority, SetRefund;
    var q := s.refunds[k].q;
    var q' := q.(reserved := Authority(s.book, q.rid, q.reserved));
    if s.book.closed {
      EntranceEnds(c, s, k, s.book, q, RefundRaised);
    } else if q'.reserved.unlimited {
      EntranceEnds(c, s, k, Forget(s.book, q.rid), q', Refunded);
    } else if expired {
      EntranceEnds(c, s, k, Forget(s.book, q.rid), q', RefundRaised);
    } else if !ValidActual(q'.reserved, q'.actual) {
      EntranceEnds(c, s, k, s.book, q', RefundRaised);
    } else {
      EntrancePasses(c, s, k, q');
    }
  }

  /** The refund gives up before its backend call. */
  lemma PreparingEnds(c: Config, s: State, k: RefundKey)
    requires Inv(c, s) && k in s.refunds && IsPreparing(s.refunds[k])
    ensures var at := s.refunds[k];
            Inv(c, SetRefund(s.(lru := ClearIfPending(s.lru, at.q.rid)), k, Leaving(at.q, at.lock, RefundRaised)))
  {
    hide Consistent, Local, Forget, Remember, Without, AcquireInv, RecordInv, OrderInv, RefundInv, HolderInv,
      LockInv, DrainInv, TakenInv, CloserInv, SetterInv, ClosedInv, PostingsOk, DebitInv, CreditInv, SettledInv,
      ClaimInv, DedupInv;
    var at := s.refunds[k];
    var s' := SetRefund(s.(lru := ClearIfPending(s.lru, at.q.rid)), k, Leaving(at.q, at.lock, RefundRaised));
    OwnRefundKnown(c, s, k);
    DedupSize(c, s);
    DedupStays(c, s.lru, s'.lru, s.refunds, s'.refunds, k);
    PlainKeeps(c, s, s', k);
  }

  lemma RefundPrepareFailsKeeps(c: Config, s: State, k: RefundKey)
    requires Inv(c, s) && RefundPrepareFails_(s, k).Some?
    ensures Inv(c, RefundPrepareFails_(s, k).value)
  {
    hide Inv, SetRefund, ClearIfPending;
    if s.refunds[k].Refreshing? {
      LimiterKeeps(c, s, s.backends, None);
      PreparingEnds(c, s.(backends := s.backends, limiter := None), k);
    } else {
      PreparingEnds(c, s, k);
    }
  }

  /** The lookup of the backend goes on. */
  lemma PreparingMoves(c: Config, s: State, k: RefundKey, pc: RefundPc)
    requires Inv(c, s) && k in s.refunds && IsPreparing(s.refunds[k]) && IsPreparing(pc)
    requires pc.q == s.refunds[k].q && pc.lock == s.refunds[k].lock
    ensures Inv(c, SetRefund(s, k, pc))
  {
    hide Consistent, Local, Forget, Remember, Without, AcquireInv, RecordInv, OrderInv, RefundInv, HolderInv,
      LockInv, DrainInv, TakenInv, CloserInv, SetterInv, ClosedInv, PostingsOk, DebitInv, CreditInv, SettledInv,
      ClaimInv, DedupInv;
    var s' := SetRefund(s, k, pc);
    OwnRefundKnown(c, s, k);
    DedupFrame(c, s.lru, s.refunds, s'.refunds, k);
    PlainKeeps(c, s, s', k);
  }

  lemma RefundLooksUpKeeps(c: Config, s: State, k: RefundKey)
    requires Inv(c, s) && RefundLooksUp_(s, k).Some?
    ensures Inv(c, RefundLooksUp_(s, k).value)
  {
    hide Inv, SetRefund;
    PreparingMoves(c, s, k, RefreshWaiting(s.refunds[k].q, s.refunds[k].lock));
  }

  lemma RefundEntersLimiterKeeps(c: Config, s: State, k: RefundKey)
    requires Inv(c, s) && RefundEntersLimiter_(s, k).Some?
    ensures Inv(c, RefundEntersLimiter_(s, k).value)
  {
    hide Inv, SetRefund;
    LimiterKeeps(c, s, s.backends, Some(Refunder(k)));
    PreparingMoves(c, s.(backends := s.backends, limiter := Some(Refunder(k))), k,
                   Refreshing(s.refunds[k].q, s.refunds[k].lock));
  }

  lemma RefundRefreshesKeeps(c: Config, s: State, k: RefundKey, installs: bool)
    requires Inv(c, s) && RefundRefreshes_(s, k, installs).Some?
    ensures Inv(c, RefundRefreshes_(s, k, installs).value)
  {
    hide Inv, SetRefund;
    var backends := s.backends + if installs then {s.refunds[k].q.reserved.family} else {};
    LimiterKeeps(c, s, backends, None);
    PreparingMoves(c, s.(backends := backends, limiter := None), k, Refreshed(s.refunds[k].q, s.refunds[k].lock));
  }

  lemma DedupSize(c: Config, s: State)
    requires DedupInv(c, s.lru, s.refunds)
    ensures |s.lru| <= c.refundCap
  {
  }

  lemma RefundCallsKeeps(c: Config, s: State, k: RefundKey, scope: set<BucketId>)
    requires Inv(c, s) && RefundCalls_(c, s, k, scope).Some?
    ensures Inv(c, RefundCalls_(c, s, k, scope).value)
  {
    hide Consistent, Local, Forget, Remember, Without, AcquireInv, RecordInv, OrderInv, RefundInv, HolderInv,
      LockInv, DrainInv, TakenInv, CloserInv, SetterInv, ClosedInv, PostingsOk, DebitInv, CreditInv, SettledInv,
      ClaimInv, DedupInv;
    var s' := RefundCalls_(c, s, k, scope).value;
    OwnRefundKnown(c, s, k);
    InFlightIsUncredited(c, s, k);
    DedupFrame(c, s.lru, s.refunds, s'.refunds, k);
    PlainKeeps(c, s, s', k);
  }

  /** What is in flight has been debited, and the refund about to call the backend finds it uncredited. */
  lemma InFlightIsUncredited(c: Config, s: State, k: RefundKey)
    requires Inv(c, s) && k in s.refunds && IsPreparing(s.refunds[k])
    ensures s.refunds[k].q.rid in s.book.inFlight ==>
              Debits(s.ledger, s.refunds[k].q.rid) > 0
              && (NeverWritesSilently(c) ==> Credits(s.ledger, s.refunds[k].q.rid) == 0)
  {
    hide Consistent, Local, AcquireInv, RecordInv, OrderInv, RefundInv, HolderInv, LockInv, DrainInv, TakenInv,
      CloserInv, SetterInv, ClosedInv, PostingsOk, DebitInv, CreditInv, ClaimInv, DedupInv;
    var rid := s.refunds[k].q.rid;
    OwnRefundKnown(c, s, k);
    if rid in s.book.inFlight {
      AcquiresOf(s, rid);
      AcquireKnown(c, s, rid);
      assert IsDebitedPc(s.acquires[rid]);
      if !s.cleared {
        Alone(c, s, k);
        assert IsSettled(s.refunds, rid);
      } else {
        Alone(c, s, k);
      }
    }
  }

  /** The refund is committed and its reservation forgotten. */
  lemma CommitMoves(c: Config, s: State, k: RefundKey, pc: RefundPc)
    requires Inv(c, s) && k in s.refunds && PastGate(s.refunds[k]) && !IsPreparing(s.refunds[k])
    requires !s.refunds[k].Calling?
    requires pc.Notifying? || pc.Handling? || pc.Leaving?
    requires pc.q == s.refunds[k].q && pc.lock == s.refunds[k].lock
    requires IsSuccess(pc) ==> IsSuccess(s.refunds[k])
    ensures Inv(c, SetRefund(Commit(c, s, s.refunds[k].q.rid), k, pc))
  {
    hide Consistent, Local, Forget, Remember, Without, AcquireInv, RecordInv, OrderInv, RefundInv, HolderInv,
      LockInv, DrainInv, TakenInv, CloserInv, SetterInv, ClosedInv, PostingsOk, DebitInv, CreditInv, SettledInv,
      ClaimInv, DedupInv;
    var s' := SetRefund(Commit(c, s, s.refunds[k].q.rid), k, pc);
    OwnRefundKnown(c, s, k);
    ForgetLocal(s.book, s.refunds[k].q.rid);
    DedupRemembers(c, s, s', k, CommittedRefund);
    PlainKeeps(c, s, s', k);
  }

  /** A failed refund whose write is not known to have landed: nothing is committed. */
  lemma FailureMoves(c: Config, s: State, k: RefundKey, b: Book, lru: Lru, pc: RefundPc)
    requires Inv(c, s) && k in s.refunds && PastGate(s.refunds[k]) && !IsPreparing(s.refunds[k])
    requires !s.refunds[k].Calling?
    requires b == s.book || b == Forget(s.book, s.refunds[k].q.rid)
    requires lru == s.lru || lru == ClearIfPending(s.lru, s.refunds[k].q.rid)
             || lru == Remember(c.refundCap, s.lru, s.refunds[k].q.rid, FailedRefund)
    requires (pc.Handling? && s.refunds[k].Answered? && pc.landed == s.refunds[k].landed
              && !s.refunds[k].reply.ReplyOk?)
             || (pc.Leaving? && s.refunds[k].Handling?
                 && (NeverWritesSilently(c) && s.refunds[k].landed ==> s.refunds[k].q.rid !in b.inFlight))
    requires pc.q == s.refunds[k].q && pc.lock == s.refunds[k].lock && !IsSuccess(pc)
    ensures Inv(c, SetRefund(s.(book := b, lru := lru), k, pc))
  {
    hide Consistent, Local, Forget, Remember, Without, AcquireInv, RecordInv, OrderInv, RefundInv, HolderInv,
      LockInv, DrainInv, TakenInv, CloserInv, SetterInv, ClosedInv, PostingsOk, DebitInv, CreditInv, SettledInv,
      ClaimInv, DedupInv;
    var s' := SetRefund(s.(book := b, lru := lru), k, pc);
    OwnRefundKnown(c, s, k);
    ForgetLocal(s.book, s.refunds[k].q.rid);
    DedupSize(c, s);
    if lru == s.lru || lru == ClearIfPending(s.lru, s.refunds[k].q.rid) {
      DedupStays(c, s.lru, lru, s.refunds, s'.refunds, k);
    } else {
      DedupRemembers(c, s, s', k, FailedRefund);
    }
    PlainKeeps(c, s, s', k);
  }

  lemma RefundSettlesKeeps(c: Config, s: State, k: RefundKey, changed: bool)
    requires Inv(c, s) && RefundSettles_(c, s, k, changed).Some?
    ensures Inv(c, RefundSettles_(c, s, k, changed).value)
  {
    hide Inv, Forget, Remember, Without, SetRefund, Commit, ClearIfPending;
    var at := s.refunds[k];
    match at.reply
    case ReplyOk => CommitMoves(c, s, k, Notifying(at.q, at.lock));
    case ReplyDuplicate => CommitMoves(c, s, k, Handling(at.q, at.lock, at.landed));
    case ReplyUnknown(forget) =>
      FailureMoves(c, s, k, if forget then Forget(s.book, at.q.rid) else s.book,
                   ClearIfPending(s.lru, at.q.rid), Handling(at.q, at.lock, at.landed));
    case ReplyError =>
      if changed {
        CommitMoves(c, s, k, Handling(at.q, at.lock, at.landed));
      } else {
        FailureMoves(c, s, k, s.book, s.lru, Handling(at.q, at.lock, at.landed));
      }
    case ReplyCritical => FailureMoves(c, s, k, s.book, s.lru, Handling(at.q, at.lock, at.landed));
  }

  lemma RefundHandlesKeeps(c: Config, s: State, k: RefundKey, changed: bool)
    requires Inv(c, s) && RefundHandles_(c, s, k, changed).Some?
    ensures Inv(c, RefundHandles_(c, s, k, changed).value)
  {
    hide Consistent, Local, Forget, Remember, Without, AcquireInv, RecordInv, OrderInv, RefundInv, HolderInv,
      LockInv, DrainInv, TakenInv, CloserInv, SetterInv, ClosedInv, PostingsOk, DebitInv, CreditInv, SettledInv,
      ClaimInv, DedupInv;
    hide SetRefund, Commit;
    var at := s.refunds[k];
    if changed {
      CommitMoves(c, s, k, Leaving(at.q, at.lock, RefundRaised));
    } else {
      OwnRefundKnown(c, s, k);
      FailureMoves(c, s, k, s.book, MarkFailed(c, s, at.q.rid).lru, Leaving(at.q, at.lock, RefundRaised));
    }
  }

  lemma RefundNotifiesKeeps(c: Config, s: State, k: RefundKey, raises: bool)
    requires Inv(c, s) && RefundNotifies_(s, k, raises).Some?
    ensures Inv(c, RefundNotifies_(s, k, raises).value)
  {
    hide Consistent, Local, Forget, Remember, Without, AcquireInv, RecordInv, OrderInv, RefundInv, HolderInv,
      LockInv, DrainInv, TakenInv, CloserInv, SetterInv, ClosedInv, PostingsOk, DebitInv, CreditInv, SettledInv,
      ClaimInv, DedupInv;
    var s' := RefundNotifies_(s, k, raises).value;
    OwnRefundKnown(c, s, k);
    DedupFrame(c, s.lru, s.refunds, s'.refunds, k);
    PlainKeeps(c, s, s', k);
  }

  lemma RefundLeavesKeeps(c: Config, s: State, k: RefundKey)
    requires Inv(c, s) && RefundLeaves_(s, k).Some?
    ensures Inv(c, RefundLeaves_(s, k).value)
  {
    hide Consistent, Local, Forget, Remember, Without, AcquireInv, RecordInv, OrderInv, RefundInv, HolderInv,
      LockInv, DrainInv, TakenInv, CloserInv, SetterInv, ClosedInv, PostingsOk, DebitInv, CreditInv, SettledInv,
      ClaimInv, DedupInv;
    var s' := RefundLeaves_(s, k).value;
    OwnRefundKnown(c, s, k);
    DedupFrame(c, s.lru, s.refunds, s'.refunds, k);
    PlainKeeps(c, s, s', k);
  }

  // ---------------------------------------------------------------- registering, taking and leaving the lock

  lemma RegisterCounts(locks: map<Id, Lock>, refcounts: map<Id, nat>, nextLock: Lock,
                       refunds: map<RefundKey, RefundPc>, refunds': map<RefundKey, RefundPc>, k: RefundKey)
    requires LockInv(locks, refcounts, refunds) && OnlyRefund(refunds, refunds', k)
    requires k in refunds && !HasLock(refunds[k]) && HasLock(refunds'[k])
    requires refunds'[k].lock == LockFor(locks, nextLock, refunds'[k].q.rid)
    ensures var rid := refunds'[k].q.rid;
            LockInv(locks[rid := LockFor(locks, nextLock, rid)], CountedIn(locks, refcounts, rid), refunds')
  {
    var rid := refunds'[k].q.rid;
    ReferencesGrow(refunds, refunds', k, rid);
    if rid !in locks {
      assert References(refunds, rid) == {} by {
        assert forall j :: j in refunds ==> Registered(locks, refunds[j]);
      }
    }
    forall id | id in refcounts && id != rid
      ensures refcounts[id] == |References(refunds', id)|
    {
      ReferencesUnchanged(refunds, refunds', k, id);
    }
    forall j | j in refunds' && j != k
      ensures Registered(locks[rid := LockFor(locks, nextLock, rid)], refunds'[j])
    {
      assert Registered(locks, refunds[j]);
    }
  }

  /** The call registers: the lock and count tables grow as `RegisterCounts` says. */
  lemma RegistrationKeeps(c: Config, s: State, s': State, k: RefundKey)
    requires Inv(c, s) && k in s.refunds && s.refunds[k].RegisteringLock?
    requires k in s'.refunds && s'.refunds[k].LockWaiting?
    requires s' == s.(locks := s'.locks, refcounts := s'.refcounts, nextLock := s'.nextLock,
                      refunds := s.refunds[k := LockWaiting(s.refunds[k].q, s'.refunds[k].lock)])
    requires (!s.cleared ==> LockInv(s'.locks, s'.refcounts, s'.refunds))
    ensures Inv(c, s')
  {
    hide Consistent, Local, Forget, Remember, Without, AcquireInv, RecordInv, OrderInv, RefundInv, HolderInv,
      LockInv, DrainInv, TakenInv, CloserInv, SetterInv, ClosedInv, PostingsOk, DebitInv, CreditInv, SettledInv,
      ClaimInv, DedupInv;
    OwnRefundKnown(c, s, k);
    DrainFrame(s.refunds, s'.refunds, s.closers);
    NoneNew(s, s', k);
    DedupFrame(c, s.lru, s.refunds, s'.refunds, k);
    RefundEffectKeeps(c, s, s', k);
  }

  lemma RefundRegistersKeeps(c: Config, s: State, k: RefundKey)
    requires Inv(c, s) && RefundRegisters_(s, k).Some?
    ensures Inv(c, RefundRegisters_(s, k).value)
  {
    hide Count, Consistent, Local, Forget, Remember, Without, AcquireInv, RecordInv, OrderInv, RefundInv, HolderInv,
      LockInv, DrainInv, TakenInv, CloserInv, SetterInv, ClosedInv, PostingsOk, DebitInv, CreditInv, SettledInv,
      ClaimInv, DedupInv;
    var s' := RefundRegisters_(s, k).value;
    var rid := s.refunds[k].q.rid;
    if !s.cleared {
      RegisterCounts(s.locks, s.refcounts, s.nextLock, s.refunds, s'.refunds, k);
      CountsMatch(s, rid);
    }
    RegistrationKeeps(c, s, s', k);
  }

  lemma CountsMatch(s: State, rid: Id)
    requires LockInv(s.locks, s.refcounts, s.refunds)
    ensures rid !in s.locks ==> Count(s.refcounts, rid) == 0
  {
  }

  /** The call takes its lock or lets go of it, and stays registered on it. */
  lemma HoldingKeeps(c: Config, s: State, k: RefundKey, held: map<Lock, Owner>, pc: RefundPc)
    requires Inv(c, s) && k in s.refunds && HasLock(s.refunds[k]) && pc.q == s.refunds[k].q
    requires (s.refunds[k].LockWaiting? && pc.AtGate?)
             || (s.refunds[k].Unlocking? && pc.Dropping? && pc.result == s.refunds[k].result)
    requires pc.lock == s.refunds[k].lock && HolderOk(held, k, pc)
    requires forall l :: l in s.held && s.held[l] != Refunder(k) ==> l in held && held[l] == s.held[l]
    ensures Inv(c, SetRefund(s.(held := held), k, pc))
  {
    hide Consistent, Local, Forget, Remember, Without, AcquireInv, RecordInv, OrderInv, RefundInv, HolderInv,
      LockInv, DrainInv, TakenInv, CloserInv, SetterInv, ClosedInv, PostingsOk, DebitInv, CreditInv, SettledInv,
      ClaimInv, DedupInv;
    hide HolderOk;
    var s' := SetRefund(s.(held := held), k, pc);
    OwnRefundKnown(c, s, k);
    if !s.cleared {
      LockFrame(s.locks, s.refcounts, s.refunds, s'.refunds, k);
    }
    DrainFrame(s.refunds, s'.refunds, s.closers);
    NoneNew(s, s', k);
    DedupFrame(c, s.lru, s.refunds, s'.refunds, k);
    RefundEffectKeeps(c, s, s', k);
  }

  lemma RefundLocksKeeps(c: Config, s: State, k: RefundKey)
    requires Inv(c, s) && RefundLocks_(s, k).Some?
    ensures Inv(c, RefundLocks_(s, k).value)
  {
    hide Inv, SetRefund;
    var LockWaiting(q, lock) := s.refunds[k];
    HoldingKeeps(c, s, k, s.held[lock := Refunder(k)], AtGate(q, lock));
  }

  lemma RefundUnlocksKeeps(c: Config, s: State, k: RefundKey)
    requires Inv(c, s) && RefundUnlocks_(s, k).Some?
    ensures Inv(c, RefundUnlocks_(s, k).value)
  {
    hide Inv, SetRefund;
    var Unlocking(q, lock, result) := s.refunds[k];
    OwnRefundKnown(c, s, k);
    HoldingKeeps(c, s, k, s.held - {lock}, Dropping(q, lock, result));
  }

  /** The last user takes the lock out of the table; until then the count goes down by one. */
  lemma DropCounts(s: State, refunds': map<RefundKey, RefundPc>, k: RefundKey)
    requires LockInv(s.locks, s.refcounts, s.refunds) && OnlyRefund(s.refunds, refunds', k)
    requires k in s.refunds && HasLock(s.refunds[k]) && !HasLock(refunds'[k])
    ensures var s1 := DropReference(s, s.refunds[k].q.rid, s.refunds[k].lock);
            LockInv(s1.locks, s1.refcounts, refunds')
  {
    var rid := s.refunds[k].q.rid;
    assert Registered(s.locks, s.refunds[k]);
    ReferencesShrink(s.refunds, refunds', k, rid);
    var n := |References(s.refunds, rid)|;
    assert s.refcounts[rid] == n;
    forall id | id in s.refcounts && id != rid
      ensures s.refcounts[id] == |References(refunds', id)|
    {
      ReferencesUnchanged(s.refunds, refunds', k, id);
    }
    if n == 1 {
      forall j | j in refunds'
        ensures Registered(s.locks - {rid}, refunds'[j])
      {
        assert j != k ==> Registered(s.locks, s.refunds[j]);
        assert j !in References(refunds', rid);
      }
      LastDrops(s.locks, s.refcounts, refunds', rid);
    } else {
      forall j | j in refunds'
        ensures Registered(s.locks, refunds'[j])
      {
        assert j != k ==> Registered(s.locks, s.refunds[j]);
      }
      OneOfManyDrops(s.locks, s.refcounts, refunds', rid, n);
    }
  }

  lemma LastDrops(locks: map<Id, Lock>, refcounts: map<Id, nat>, refunds: map<RefundKey, RefundPc>, rid: Id)
    requires forall id :: id in locks <==> id in refcounts
    requires forall k :: k in refunds ==> Registered(locks - {rid}, refunds[k])
    requires forall id :: id in refcounts && id != rid ==> refcounts[id] == |References(refunds, id)|
    ensures LockInv(locks - {rid}, refcounts - {rid}, refunds)
  {
  }

  lemma OneOfManyDrops(locks: map<Id, Lock>, refcounts: map<Id, nat>, refunds: map<RefundKey, RefundPc>, rid: Id,
                       n: nat)
    requires forall id :: id in locks <==> id in refcounts
    requires rid in refcounts && n > 0 && |References(refunds, rid)| == n - 1
    requires forall k :: k in refunds ==> Registered(locks, refunds[k])
    requires forall id :: id in refcounts && id != rid ==> refcounts[id] == |References(refunds, id)|
    ensures LockInv(locks, refcounts[rid := n - 1], refunds)
  {
  }

  /** Only the tables change. */
  lemma DropTable(s: State, rid: Id, lock: Lock)
    ensures var s1 := DropReference(s, rid, lock); s1 == s.(locks := s1.locks, refcounts := s1.refcounts)
  {
  }

  /** The call gives up its registration and ends. */
  lemma DropKeeps(c: Config, s: State, k: RefundKey, result: RefundResult)
    requires Inv(c, s) && k in s.refunds
    requires (s.refunds[k].LockWaiting? && result.RefundRaised?)
             || (s.refunds[k].Dropping? && result == s.refunds[k].result)
    ensures Inv(c, SetRefund(DropReference(s, s.refunds[k].q.rid, s.refunds[k].lock), k,
                             RefundDone(s.refunds[k].q, result)))
  {
    hide DropReference, Consistent, Local, Forget, Remember, Without, AcquireInv, RecordInv, OrderInv, RefundInv,
      HolderInv, LockInv, DrainInv, TakenInv, CloserInv, SetterInv, ClosedInv, PostingsOk, DebitInv, CreditInv,
      SettledInv, ClaimInv, DedupInv;
    DropTable(s, s.refunds[k].q.rid, s.refunds[k].lock);
    var s' := SetRefund(DropReference(s, s.refunds[k].q.rid, s.refunds[k].lock), k, RefundDone(s.refunds[k].q, result));
    OwnRefundKnown(c, s, k);
    if !s.cleared {
      DropCounts(s, s'.refunds, k);
    }
    DrainFrame(s.refunds, s'.refunds, s.closers);
    NoneNew(s, s', k);
    DedupFrame(c, s.lru, s.refunds, s'.refunds, k);
    RefundEffectKeeps(c, s, s', k);
  }

  lemma RefundInterruptedKeeps(c: Config, s: State, k: RefundKey)
    requires Inv(c, s) && RefundInterrupted_(s, k).Some?
    ensures Inv(c, RefundInterrupted_(s, k).value)
  {
    hide Inv, DropReference, SetRefund, ClearIfPending;
    if s.refunds[k].LockWaiting? {
      DropKeeps(c, s, k, RefundRaised);
    } else {
      PreparingEnds(c, s, k);
    }
  }

  lemma RefundDropsKeeps(c: Config, s: State, k: RefundKey)
    requires Inv(c, s) && RefundDrops_(s, k).Some?
    ensures Inv(c, RefundDrops_(s, k).value)
  {
    hide Inv, DropReference, SetRefund;
    DropKeeps(c, s, k, s.refunds[k].result);
  }

  // ---------------------------------------------------------------- the gate

  /** Whoever passes the gate does so before any drain of the refund locks has begun. */
  lemma GateIsOpen(c: Config, s: State, k: RefundKey)
    requires Inv(c, s) && k in s.refunds && s.refunds[k].AtGate?
    requires s.refunds[k].q.allowClosed || !s.book.closed
    ensures !s.book.closeDrained
    ensures forall t :: t in s.closers ==> !IsDrainingRefunds(s.closers[t])
  {
    hide Consistent, Local, NonePastGate, AcquireInv, RecordInv, OrderInv, RefundInv, HolderInv, LockInv, DrainInv,
      TakenInv, SetterInv, PostingsOk, DebitInv, CreditInv, SettledInv, ClaimInv, DedupInv;
    OwnRefundKnown(c, s, k);
    forall t | t in s.closers
      ensures !IsDrainingRefunds(s.closers[t])
    {
      assert CloserOk(s.book, s.lifecycle, s.backendCloses, t, s.closers[t]);
    }
  }

  lemma DrainNotBegun(refunds: map<RefundKey, RefundPc>, closers: map<nat, ClosePc>)
    requires forall t :: t in closers ==> !IsDrainingRefunds(closers[t])
    ensures DrainInv(refunds, closers)
  {
  }

  lemma GateRefuses(c: Config, s: State, k: RefundKey)
    requires Inv(c, s) && k in s.refunds && s.refunds[k].AtGate?
    ensures Inv(c, SetRefund(s, k, Unlocking(s.refunds[k].q, s.refunds[k].lock, RefundRaised)))
  {
    hide Consistent, Local, Forget, Remember, Without, AcquireInv, RecordInv, OrderInv, RefundInv, HolderInv,
      LockInv, DrainInv, TakenInv, CloserInv, SetterInv, ClosedInv, PostingsOk, DebitInv, CreditInv, SettledInv,
      ClaimInv, DedupInv;
    var s' := SetRefund(s, k, Unlocking(s.refunds[k].q, s.refunds[k].lock, RefundRaised));
    OwnRefundKnown(c, s, k);
    DedupFrame(c, s.lru, s.refunds, s'.refunds, k);
    PlainKeeps(c, s, s', k);
  }

  lemma GateAdmits(c: Config, s: State, k: RefundKey, inProgress: set<Id>)
    requires Inv(c, s) && k in s.refunds && s.refunds[k].AtGate?
    requires s.refunds[k].q.allowClosed || !s.book.closed
    ensures Inv(c, SetRefund(s.(lru := Remember(c.refundCap, s.lru, s.refunds[k].q.rid, PendingRefund),
                                inProgress := inProgress),
                             k, Preparing(s.refunds[k].q, s.refunds[k].lock)))
  {
    hide Consistent, Local, Forget, Remember, Without, AcquireInv, RecordInv, OrderInv, RefundInv, HolderInv,
      LockInv, DrainInv, TakenInv, CloserInv, SetterInv, ClosedInv, PostingsOk, DebitInv, CreditInv, SettledInv,
      ClaimInv, DedupInv;
    var s' := SetRefund(s.(lru := Remember(c.refundCap, s.lru, s.refunds[k].q.rid, PendingRefund),
                           inProgress := inProgress),
                        k, Preparing(s.refunds[k].q, s.refunds[k].lock));
    OwnRefundKnown(c, s, k);
    if !s.cleared {
      LockFrame(s.locks, s.refcounts, s.refunds, s'.refunds, k);
    }
    GateIsOpen(c, s, k);
    DrainNotBegun(s'.refunds, s.closers);
    DedupRemembers(c, s, s', k, PendingRefund);
    RefundEffectKeeps(c, s, s', k);
  }

  lemma RefundGatesKeeps(c: Config, s: State, k: RefundKey)
    requires Inv(c, s) && RefundGates_(c, s, k).Some?
    ensures Inv(c, RefundGates_(c, s, k).value)
  {
    hide Inv, SetRefund, Remember;
    if GateOpen(s.book, s.lru, s.inProgress, s.refunds[k].q.rid, s.refunds[k].q.allowClosed) {
      GateAdmits(c, s, k, s.inProgress + {s.refunds[k].q.rid});
    } else {
      GateRefuses(c, s, k);
    }
  }

  // ---------------------------------------------------------------- the backend's answer

  /** The facts that let a credit land: the right reservation, debited, and not credited yet. */
  ghost predicate MayLand(c: Config, s: State, k: RefundKey)
    requires k in s.refunds
  {
    var q := s.refunds[k].q;
    && q.rid in s.issued && q.reserved == s.issued[q.rid]
    && Debits(s.ledger, q.rid) > 0
    && (CreditsSafely(c) ==> Credits(s.ledger, q.rid) == 0)
  }

  lemma LandingPosts(c: Config, s: State, k: RefundKey, l: Ledger)
    requires Inv(c, s) && k in s.refunds && s.refunds[k].Calling? && MayLand(c, s, k)
    requires var at := s.refunds[k]; l == Post(Credit(at.q.rid, at.scope, at.q.reserved, at.q.actual), s.ledger)
    ensures PostingsOk(l, s.issued)
    ensures DebitInv(l, s.issued, s.acquires)
    ensures CreditInv(c, l, s.issued, s.acquires)
  {
    hide Consistent, Local, AcquireInv, RecordInv, OrderInv, RefundInv, HolderInv, LockInv, DrainInv, TakenInv,
      CloserInv, SetterInv, ClosedInv, DebitInv, CreditInv, SettledInv, ClaimInv, DedupInv;
    var rid := s.refunds[k].q.rid;
    OwnRefundKnown(c, s, k);
    AcquiresOf(s, rid);
    AcquireKnown(c, s, rid);
    DebitFrame(s.ledger, l, s.issued, s.issued, s.acquires, s.acquires, rid);
    CreditFrame(c, s.ledger, l, s.issued, s.issued, s.acquires, s.acquires, rid);
  }

  lemma LandingClaims(c: Config, s: State, refunds': map<RefundKey, RefundPc>, k: RefundKey, reply: RefundReply)
    requires Inv(c, s) && k in s.refunds && s.refunds[k].Calling? && MayLand(c, s, k)
    requires reply.ReplyOk? || c.raisesAfterWrite
    requires refunds' == s.refunds[k := Answered(s.refunds[k].q, s.refunds[k].lock, true, reply)]
    ensures var at := s.refunds[k];
            var l := Post(Credit(at.q.rid, at.scope, at.q.reserved, at.q.actual), s.ledger);
            && SettledInv(c, l, s.book.inFlight, refunds')
            && ClaimInv(c, l, s.issued, s.book.inFlight, refunds')
  {
    hide Consistent, Local, AcquireInv, RecordInv, OrderInv, RefundInv, HolderInv, LockInv, DrainInv, TakenInv,
      CloserInv, SetterInv, ClosedInv, PostingsOk, DebitInv, CreditInv, SettledInv, ClaimInv, DedupInv;
    var at := s.refunds[k];
    var l := Post(Credit(at.q.rid, at.scope, at.q.reserved, at.q.actual), s.ledger);
    OwnRefundKnown(c, s, k);
    Alone(c, s, k);
    SettledMoves(c, s.ledger, l, s.book.inFlight, s.book.inFlight, s.refunds, refunds', k);
    ClaimMoves(c, s.ledger, l, s.issued, s.book.inFlight, s.book.inFlight, s.refunds, refunds', k);
  }

  lemma LandingKeeps(c: Config, s: State, k: RefundKey, reply: RefundReply)
    requires Inv(c, s) && k in s.refunds && s.refunds[k].Calling? && MayLand(c, s, k)
    requires reply.ReplyOk? || c.raisesAfterWrite
    ensures var at := s.refunds[k];
            Inv(c, SetRefund(s.(ledger := Post(Credit(at.q.rid, at.scope, at.q.reserved, at.q.actual), s.ledger)),
                             k, Answered(at.q, at.lock, true, reply)))
  {
    hide Consistent, Local, Forget, Remember, Without, AcquireInv, RecordInv, OrderInv, RefundInv, HolderInv,
      LockInv, DrainInv, TakenInv, CloserInv, SetterInv, ClosedInv, PostingsOk, DebitInv, CreditInv, SettledInv,
      ClaimInv, DedupInv;
    var at := s.refunds[k];
    var l := Post(Credit(at.q.rid, at.scope, at.q.reserved, at.q.actual), s.ledger);
    var s' := SetRefund(s.(ledger := l), k, Answered(at.q, at.lock, true, reply));
    OwnRefundKnown(c, s, k);
    NotCleared(c, s, k);
    LandingPosts(c, s, k, l);
    LandingClaims(c, s, s'.refunds, k, reply);
    hide MayLand;
    BookMoves(c, s, s', k);
    RefundMoves(s.book, s.book, s.acquires, s.issued, s.refunds, s'.refunds, k);
    HolderFrame(s.held, s.held, s.refunds, s'.refunds, k);
    LockFrame(s.locks, s.refcounts, s.refunds, s'.refunds, k);
    DrainFrame(s.refunds, s'.refunds, s.closers);
    NoneNew(s, s', k);
    ClosedMoves(s.book, s.book, at.q.rid, s.refunds, s'.refunds, s.backendCloses, s.cleared);
    DedupFrame(c, s.lru, s.refunds, s'.refunds, k);
  }

  lemma NotCleared(c: Config, s: State, k: RefundKey)
    requires Inv(c, s) && k in s.refunds && PastGate(s.refunds[k])
    ensures !s.cleared && !s.book.closeDrained
  {
    hide Consistent, Local, AcquireInv, RecordInv, OrderInv, RefundInv, HolderInv, LockInv, DrainInv, TakenInv,
      CloserInv, SetterInv, PostingsOk, DebitInv, CreditInv, SettledInv, ClaimInv, DedupInv;
  }

  lemma RefusalKeeps(c: Config, s: State, k: RefundKey, reply: RefundReply)
    requires Inv(c, s) && k in s.refunds && s.refunds[k].Calling? && !reply.ReplyOk?
    ensures Inv(c, SetRefund(s, k, Answered(s.refunds[k].q, s.refunds[k].lock, false, reply)))
  {
    hide Consistent, Local, Forget, Remember, Without, AcquireInv, RecordInv, OrderInv, RefundInv, HolderInv,
      LockInv, DrainInv, TakenInv, CloserInv, SetterInv, ClosedInv, PostingsOk, DebitInv, CreditInv, SettledInv,
      ClaimInv, DedupInv;
    var s' := SetRefund(s, k, Answered(s.refunds[k].q, s.refunds[k].lock, false, reply));
    OwnRefundKnown(c, s, k);
    DedupFrame(c, s.lru, s.refunds, s'.refunds, k);
    PlainKeeps(c, s, s', k);
  }

  lemma RefundRepliesKeeps(c: Config, s: State, k: RefundKey, landed: bool, reply: RefundReply)
    requires Inv(c, s) && RefundReplies_(c, s, k, landed, reply).Some?
    ensures Inv(c, RefundReplies_(c, s, k, landed, reply).value)
  {
    hide Consistent, Local, Forget, Remember, Without, AcquireInv, RecordInv, OrderInv, RefundInv, HolderInv,
      LockInv, DrainInv, TakenInv, CloserInv, SetterInv, ClosedInv, PostingsOk, DebitInv, CreditInv, SettledInv,
      ClaimInv, DedupInv;
    hide SetRefund;
    OwnRefundKnown(c, s, k);
    if landed {
      LandingKeeps(c, s, k, reply);
    } else {
      RefusalKeeps(c, s, k, reply);
    }
  }

  /** A new public refund. */
  lemma RefundStartsKeeps(c: Config, s: State, call: nat, rid: Id, claim: Reservation, actual: Usage)
    requires Inv(c, s) && RefundStarts_(s, call, rid, claim, actual).Some?
    ensures Inv(c, RefundStarts_(s, call, rid, claim, actual).value)
  {
    hide Consistent, Local, AcquireInv, RecordInv, OrderInv, RefundInv, HolderInv, LockInv, DrainInv, TakenInv,
      CloserInv, SetterInv, ClosedInv, PostingsOk, DebitInv, CreditInv, SettledInv, ClaimInv, DedupInv;
    var s' := RefundStarts_(s, call, rid, claim, actual).value;
    var k := Public(call);
    SameLocal(s.book, rid);
    AcquiresOf(s, rid);
    if rid in s.acquires {
      AcquireKnown(c, s, rid);
    }
    AcquireFrame(s.book, s.book, s.refunds, s'.refunds, s.backends, s.backends, s.issued, s.issued, s.acquires,
                 s.acquires, rid);
    RefundAdds(s.book, s.acquires, s.issued, s.refunds, s'.refunds, k);
    NewRefundKeeps(c, s, s'.refunds, k);
  }
}
