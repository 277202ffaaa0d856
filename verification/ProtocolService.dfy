/** What the limiter serves: from every reachable state an acquire below the cap, a refund of what is in flight and a
  close can go through, with exactly the effect they are for. The other modules say that nothing goes wrong; this one
  that things go right.
*/
module ProtocolService {
  import opened Types
  import opened Bookkeeping
  import opened Protocol
  import opened ProtocolInvariant
  import opened ProtocolEffects
  import opened ProtocolTheorems
  import opened ProtocolOutcomes
  import opened ProtocolCredits

  // ---------------------------------------------------------------- single decisions

  /** In every reachable state a fresh, valid acquire becomes pending exactly when the limiter is open and below its
    cap. */
  lemma AdmitsIffBelowCap(c: Config, actions: seq<Action>, rid: Id, r: Reservation)
    requires Run(c, Initial, actions).Some?
    requires var s := Run(c, Initial, actions).value; !Known(s, rid) && WellFormed(r) && !r.unlimited
    ensures var s := Run(c, Initial, actions).value;
            && AcquireBegin_(c, s, rid, r).Some?
            && var t := AcquireBegin_(c, s, rid, r).value;
               && (rid in t.book.pending <==>
                     !s.book.closed && !s.book.closing && |s.book.inFlight| + |s.book.pending| < c.maxInFlight)
               && (rid in t.book.pending ==> rid in t.acquires && t.acquires[rid] == Registering)
  {
    hide Run;
    RunsKeepInvariant(c, actions);
    BeginsIffBelowCap(c, Run(c, Initial, actions).value, rid, r);
  }

  lemma BeginsIffBelowCap(c: Config, s: State, rid: Id, r: Reservation)
    requires Inv(c, s) && !Known(s, rid) && WellFormed(r) && !r.unlimited
    ensures AcquireBegin_(c, s, rid, r).Some?
    ensures var t := AcquireBegin_(c, s, rid, r).value;
            && (rid in t.book.pending <==>
                  !s.book.closed && !s.book.closing && |s.book.inFlight| + |s.book.pending| < c.maxInFlight)
            && (rid in t.book.pending ==>
                  rid in t.acquires && t.acquires[rid] == Registering && rid in t.issued && t.issued[rid] == r
                  && t.ledger == s.ledger && t.refunds == s.refunds && t.limiter == s.limiter)
  {
    NotRecorded(c, s, rid);
    BeginPendingIff(c.maxInFlight, s.book, rid, r);
    hide Inv, BeginPending, Metrics;
    assert r.usage.Keys == Metrics(r.buckets);
  }

  lemma NotRecorded(c: Config, s: State, rid: Id)
    requires Inv(c, s) && rid !in s.issued
    ensures rid !in s.book.pending && rid !in s.book.inFlight
  {
    hide AcquireInv, OrderInv, RefundInv, HolderInv, LockInv, DrainInv, TakenInv, CloserInv, SetterInv, ClosedInv,
      PostingsOk, DebitInv, CreditInv, SettledInv, ClaimInv, DedupInv;
    assert RecordOk(s.book, s.issued, s.backends, rid);
  }

  lemma RefundPcs()
    ensures forall s: State, k, pc :: SetRefund(s, k, pc).refunds == s.refunds[k := pc]
    ensures forall s: State, k, pc :: SetRefund(s, k, pc).book == s.book
    ensures forall s: State, k, pc :: SetRefund(s, k, pc).lru == s.lru && SetRefund(s, k, pc).inProgress == s.inProgress
  {
  }

  lemma GateOpenIff(b: Book, lru: Lru, inProgress: set<Id>, rid: Id, allowClosed: bool)
    ensures GateOpen(b, lru, inProgress, rid, allowClosed) <==>
            (allowClosed || !b.closed) && (rid, CommittedRefund) !in lru && rid !in inProgress
  {
  }

  /** Whoever reaches the gate passes it exactly when the limiter is open, or the refund is that of an undelivered
    acquire, and the reservation is neither refunded nor being refunded. */
  lemma GateAdmitsIff(c: Config, s: State, k: RefundKey, q: Request, lock: Lock)
    requires k in s.refunds && s.refunds[k] == AtGate(q, lock)
    ensures RefundGates_(c, s, k).Some?
    ensures k in RefundGates_(c, s, k).value.refunds
    ensures RefundGates_(c, s, k).value.refunds[k].Preparing? <==>
            (q.allowClosed || !s.book.closed) && (q.rid, CommittedRefund) !in s.lru && q.rid !in s.inProgress
    ensures var t := RefundGates_(c, s, k).value;
            t.refunds[k].Preparing? ==>
              && t.inProgress == s.inProgress + {q.rid}
              && (c.refundCap > 0 ==> (q.rid, PendingRefund) in t.lru) && (q.rid, FailedRefund) !in t.lru
  {
    hide Remember, GateOpen, SetRefund;
    RefundPcs();
    GateOpenIff(s.book, s.lru, s.inProgress, q.rid, q.allowClosed);
  }

  predicate FitsUsage(r: Reservation, actual: Usage) {
    actual.Keys == r.usage.Keys && forall m :: m in actual ==> actual[m] >= 0.0
  }

  /** The reservation a refund settles: as it was issued, while the limiter has it, whatever the caller claims. */
  function Settled(s: State, q: Request): Reservation {
    if q.rid in s.book.snapshots then s.book.snapshots[q.rid] else q.reserved
  }

  /** What the entrance makes of a refund: refused when the limiter is closed; an unlimited or expired reservation is
    forgotten; a usage that does not fit the issued reservation is refused; all else goes on to the lock. */
  lemma EntranceDecides(s: State, k: RefundKey, q: Request, expired: bool)
    requires k in s.refunds && s.refunds[k] == Entering(q)
    ensures RefundEnters_(s, k, expired).Some? && k in RefundEnters_(s, k, expired).value.refunds
    ensures var pc := RefundEnters_(s, k, expired).value.refunds[k];
            var r := Settled(s, q);
            && (pc.RegisteringLock? <==> !s.book.closed && !r.unlimited && !expired && FitsUsage(r, q.actual))
            && (pc.RegisteringLock? ==> pc.q == q.(reserved := r))
            && (!pc.RegisteringLock? ==> pc.RefundDone? && (pc.result.Refunded? <==> !s.book.closed && r.unlimited))
  {
    assert Authority(s.book, q.rid, q.reserved) == Settled(s, q);
    assert ValidActual(Settled(s, q), q.actual) == FitsUsage(Settled(s, q), q.actual);
    hide Authority, ValidActual, FitsUsage, Settled, Forget, SetRefund;
    var r := Settled(s, q);
    var q' := q.(reserved := r);
    var forgotten := s.(book := Forget(s.book, q.rid));
    if s.book.closed {
      RefundStandsAt(s, k, RefundDone(q, RefundRaised));
    } else if r.unlimited {
      RefundStandsAt(forgotten, k, RefundDone(q', Refunded));
    } else if expired {
      RefundStandsAt(forgotten, k, RefundDone(q', RefundRaised));
    } else if FitsUsage(r, q.actual) {
      RefundStandsAt(s, k, RegisteringLock(q'));
    } else {
      RefundStandsAt(s, k, RefundDone(q', RefundRaised));
    }
  }

  lemma RefundStandsAt(s: State, k: RefundKey, pc: RefundPc)
    ensures k in SetRefund(s, k, pc).refunds && SetRefund(s, k, pc).refunds[k] == pc
    ensures SetRefund(s, k, pc).book == s.book
  {
  }

  lemma EntranceForgets(s: State, k: RefundKey, q: Request, expired: bool)
    requires k in s.refunds && s.refunds[k] == Entering(q)
    ensures RefundEnters_(s, k, expired).Some?
    ensures RefundEnters_(s, k, expired).value.book.inFlight ==
            if !s.book.closed && (Settled(s, q).unlimited || expired) then s.book.inFlight - {q.rid}
            else s.book.inFlight
  {
    hide SetRefund;
    RefundPcs();
    assert Authority(s.book, q.rid, q.reserved) == Settled(s, q);
    assert Forget(s.book, q.rid).inFlight == s.book.inFlight - {q.rid};
    hide Authority, ValidActual, Settled, Forget;
  }

  /** The closed flag decides how an undelivered acquire is refunded. */
  lemma UndeliveredGetsRefund(s: State, rid: Id)
    requires AcquireAt(s, rid, Choosing) && rid in s.issued && Undelivered(rid) !in s.refunds
    ensures AcquireChooses_(s, rid).Some?
    ensures var t := AcquireChooses_(s, rid).value;
            && Undelivered(rid) in t.refunds && t.acquires[rid] == AwaitingRefund
            && var pc := t.refunds[Undelivered(rid)];
               && (if s.book.closed then pc.RegisteringLock? && pc.q.allowClosed else pc.Entering? && !pc.q.allowClosed)
               && pc.q.rid == rid && pc.q.reserved == s.issued[rid]
               && pc.q.actual.Keys == s.issued[rid].usage.Keys && forall m :: m in pc.q.actual ==> pc.q.actual[m] == 0.0
  {
  }

  lemma AcquireStandsAt(s: State, rid: Id, pc: AcquirePc)
    ensures rid in SetAcquire(s, rid, pc).acquires && SetAcquire(s, rid, pc).acquires[rid] == pc
    ensures SetAcquire(s, rid, pc).book == s.book
  {
  }

  /** What becomes of an acquire once the backend's call is over. A debit that is known of is delivered, or handed over
    inside an error when the call was a blocking one, with the reservation in flight; else the reservation is rolled
    back. */
  lemma ReplyDecides(s: State, rid: Id, reply: AcquireReply)
    requires rid in s.issued && AcquireAt(s, rid, Replied(reply)) && rid !in s.book.inFlight
    ensures AcquireSettles_(s, rid).Some? && rid in AcquireSettles_(s, rid).value.acquires
    ensures var t := AcquireSettles_(s, rid).value;
            var kept := reply == RaisedDebited && s.issued[rid].blocking;
            && (t.acquires[rid] == Delivering <==> reply == Granted)
            && (t.acquires[rid] == Finished(Surfaced) <==> kept)
            && (rid in t.book.inFlight <==> kept)
            && (rid in t.book.pending <==> reply == Granted && rid in s.book.pending)
            && (t.acquires[rid] == Finished(RolledBack) <==> reply == RaisedUndebited)
  {
    var r := s.issued[rid];
    assert rid in FinalizePending(s.book, rid, r).inFlight && rid !in FinalizePending(s.book, rid, r).pending;
    assert RollbackPending(s.book, rid).inFlight == s.book.inFlight && rid !in RollbackPending(s.book, rid).pending;
    assert BeginCleanup(s.book, rid).inFlight == s.book.inFlight && BeginCleanup(s.book, rid).pending == s.book.pending;
    hide SetAcquire, FinalizePending, RollbackPending, BeginCleanup;
    var back := s.(book := RollbackPending(s.book, rid));
    match reply
    case Granted => AcquireStandsAt(s.(book := BeginCleanup(s.book, rid)), rid, Delivering);
    case RaisedUndebited => AcquireStandsAt(back, rid, Finished(RolledBack));
    case RaisedUnrecorded => AcquireStandsAt(back, rid, Finished(Lost));
    case RaisedDebited =>
      AcquireStandsAt(s.(book := FinalizePending(s.book, rid, r)), rid, Finished(Surfaced));
      AcquireStandsAt(back, rid, Finished(Recorded));
  }

  /** A lifecycle callback that raises makes a blocking acquire give its reservation back; recorded usage stays, and
    only its reservation is forgotten. */
  lemma CallbackDecides(s: State, rid: Id, raises: bool)
    requires rid in s.issued && AcquireAt(s, rid, Emitting)
    ensures AcquireEmits_(s, rid, raises).Some? && rid in AcquireEmits_(s, rid, raises).value.acquires
    ensures var t := AcquireEmits_(s, rid, raises).value;
            && (t.acquires[rid] == Ending(Delivered) <==> !raises)
            && (t.acquires[rid] == Refinalizing <==> raises && s.issued[rid].blocking)
            && (t.acquires[rid] == Ending(Recorded) <==> raises && !s.issued[rid].blocking)
            && t.book.inFlight == if raises && !s.issued[rid].blocking then s.book.inFlight - {rid} else s.book.inFlight
  {
    assert Forget(s.book, rid).inFlight == s.book.inFlight - {rid};
    hide SetAcquire, Forget;
    if !raises {
      AcquireStandsAt(s, rid, Ending(Delivered));
    } else if s.issued[rid].blocking {
      AcquireStandsAt(s, rid, Refinalizing);
    } else {
      AcquireStandsAt(s.(book := Forget(s.book, rid)), rid, Ending(Recorded));
    }
  }

  /** A refund that fails, or is interrupted, before its backend call has left no trace: the reservation is as it was,
    its pending entry is gone, the other entries stand, and the limiter lock is left. */
  ghost predicate LeavesNoTrace(s: State, t: State, k: RefundKey)
    requires k in s.refunds
  {
    var rid := s.refunds[k].q.rid;
    && k in t.refunds && t.refunds[k].Leaving? && t.refunds[k].result.RefundRaised? && t.refunds[k].q == s.refunds[k].q
    && t.book == s.book && (rid, PendingRefund) !in t.lru
    && (forall e: (Id, RefundState) :: e.0 != rid ==> (e in t.lru <==> e in s.lru))
    && t.limiter == if s.refunds[k].Refreshing? then None else s.limiter
  }

  lemma FailsEarly(s: State, w: State, k: RefundKey)
    requires k in s.refunds && !s.refunds[k].Entering? && !s.refunds[k].RegisteringLock?
             && !s.refunds[k].RefundDone? && w.book == s.book && w.refunds == s.refunds
    requires w.lru == ClearIfPending(s.lru, s.refunds[k].q.rid)
    requires w.limiter == if s.refunds[k].Refreshing? then None else s.limiter
    ensures LeavesNoTrace(s, SetRefund(w, k, Leaving(s.refunds[k].q, s.refunds[k].lock, RefundRaised)), k)
  {
  }

  lemma FailedPreparationLeavesNoTrace(s: State, k: RefundKey)
    requires k in s.refunds && (s.refunds[k].Preparing? || s.refunds[k].Refreshing? || s.refunds[k].Refreshed?)
    ensures RefundPrepareFails_(s, k).Some? && LeavesNoTrace(s, RefundPrepareFails_(s, k).value, k)
  {
    hide LeavesNoTrace, SetRefund, ClearIfPending;
    var lru := ClearIfPending(s.lru, s.refunds[k].q.rid);
    if s.refunds[k].Refreshing? {
      FailsEarly(s, s.(lru := lru, limiter := None), k);
    } else {
      FailsEarly(s, s.(lru := lru), k);
    }
  }

  lemma InterruptionLeavesNoTrace(s: State, k: RefundKey)
    requires k in s.refunds && s.refunds[k].RefreshWaiting?
    ensures RefundInterrupted_(s, k).Some? && LeavesNoTrace(s, RefundInterrupted_(s, k).value, k)
  {
    hide LeavesNoTrace, SetRefund, ClearIfPending;
    FailsEarly(s, s.(lru := ClearIfPending(s.lru, s.refunds[k].q.rid)), k);
  }

  lemma CommittingAnswer(c: Config, s: State, k: RefundKey, q: Request, lock: Lock, landed: bool, reply: RefundReply,
                     changed: bool)
    requires k in s.refunds && s.refunds[k] == Answered(q, lock, landed, reply) && ProbeMayReport(c, landed, changed)
    requires reply == ReplyOk || reply == ReplyDuplicate || (reply == ReplyError && changed)
    ensures RefundSettles_(c, s, k, changed).Some?
    ensures RefundSettles_(c, s, k, changed).value.book == Forget(s.book, q.rid)
  {
    CommitForgets(c, s, q.rid);
    hide SetRefund, Forget, Commit, ClearIfPending, ProbeMayReport;
    var pc := if reply == ReplyOk then Notifying(q, lock) else Handling(q, lock, landed);
    RefundStandsAt(Commit(c, s, q.rid), k, pc);
    assert RefundSettles_(c, s, k, changed) == Some(SetRefund(Commit(c, s, q.rid), k, pc));
  }

  lemma UnknownAnswer(c: Config, s: State, k: RefundKey, q: Request, lock: Lock, landed: bool, forget: bool,
                      changed: bool)
    requires k in s.refunds && s.refunds[k] == Answered(q, lock, landed, ReplyUnknown(forget))
    requires ProbeMayReport(c, landed, changed)
    ensures RefundSettles_(c, s, k, changed).Some?
    ensures RefundSettles_(c, s, k, changed).value.book == if forget then Forget(s.book, q.rid) else s.book
  {
    hide SetRefund, Forget, Commit, ClearIfPending, ProbeMayReport;
    var b := if forget then Forget(s.book, q.rid) else s.book;
    RefundStandsAt(s.(lru := ClearIfPending(s.lru, q.rid), book := b), k, Handling(q, lock, landed));
  }

  lemma FailingAnswer(c: Config, s: State, k: RefundKey, q: Request, lock: Lock, landed: bool, reply: RefundReply,
                     changed: bool)
    requires k in s.refunds && s.refunds[k] == Answered(q, lock, landed, reply) && ProbeMayReport(c, landed, changed)
    requires reply == ReplyCritical || (reply == ReplyError && !changed)
    ensures RefundSettles_(c, s, k, changed).Some? && RefundSettles_(c, s, k, changed).value.book == s.book
  {
    hide SetRefund, Commit, ProbeMayReport;
    RefundStandsAt(s, k, Handling(q, lock, landed));
  }

  /** When the backend's answer closes the reservation: on success, on a duplicate, on an unknown reservation that is
    to be forgotten, and on an error after which the bucket state has changed. */
  lemma AnswerCloses(c: Config, s: State, k: RefundKey, q: Request, lock: Lock, landed: bool, reply: RefundReply,
                     changed: bool)
    requires k in s.refunds && s.refunds[k] == Answered(q, lock, landed, reply) && ProbeMayReport(c, landed, changed)
    ensures RefundSettles_(c, s, k, changed).Some?
    ensures var closes := reply == ReplyOk || reply == ReplyDuplicate || reply == ReplyUnknown(true)
                          || (reply == ReplyError && changed);
            RefundSettles_(c, s, k, changed).value.book == if closes then Forget(s.book, q.rid) else s.book
  {
    hide RefundSettles_, ProbeMayReport, Forget;
    match reply
    case ReplyUnknown(forget) => UnknownAnswer(c, s, k, q, lock, landed, forget, changed);
    case _ =>
      if reply == ReplyCritical || (reply == ReplyError && !changed) {
        FailingAnswer(c, s, k, q, lock, landed, reply, changed);
      } else {
        CommittingAnswer(c, s, k, q, lock, landed, reply, changed);
      }
  }

  /** Only success is notified; all else goes to the outer handler, which still knows whether the write landed. */
  lemma AnswerMoves(c: Config, s: State, k: RefundKey, q: Request, lock: Lock, landed: bool, reply: RefundReply,
                     changed: bool)
    requires k in s.refunds && s.refunds[k] == Answered(q, lock, landed, reply) && ProbeMayReport(c, landed, changed)
    ensures RefundSettles_(c, s, k, changed).Some? && k in RefundSettles_(c, s, k, changed).value.refunds
    ensures RefundSettles_(c, s, k, changed).value.refunds[k] ==
            if reply == ReplyOk then Notifying(q, lock) else Handling(q, lock, landed)
  {
    hide SetRefund, Forget, Commit, ClearIfPending, ProbeMayReport;
    var handling := Handling(q, lock, landed);
    match reply
    case ReplyOk => RefundStandsAt(Commit(c, s, q.rid), k, Notifying(q, lock));
    case ReplyDuplicate => RefundStandsAt(Commit(c, s, q.rid), k, handling);
    case ReplyUnknown(forget) =>
      var b := if forget then Forget(s.book, q.rid) else s.book;
      RefundStandsAt(s.(lru := ClearIfPending(s.lru, q.rid), book := b), k, handling);
    case ReplyError => RefundStandsAt(if changed then Commit(c, s, q.rid) else s, k, handling);
    case ReplyCritical => RefundStandsAt(s, k, handling);
  }

  lemma CommitForgets(c: Config, s: State, rid: Id)
    ensures Commit(c, s, rid).book == Forget(s.book, rid)
  {
    hide Forget, Remember;
  }

  /** A refund reaches the backend exactly when its family has one and the reservation is in flight, or the backend
    keeps markers and can tell itself; for any part of the reserved buckets. */
  lemma CallsIff(c: Config, s: State, k: RefundKey, scope: set<BucketId>)
    requires k in s.refunds && (s.refunds[k].Preparing? || s.refunds[k].Refreshed?)
    ensures var q := s.refunds[k].q;
            RefundCalls_(c, s, k, scope).Some? <==>
            && q.reserved.family in s.backends && (q.rid in s.book.inFlight || c.markers)
            && forall id :: id in scope ==> id in q.reserved.buckets
  {
    hide SetRefund;
  }

  /** What the backend may do with a refund: a success has landed, a failure has landed only if it may raise after its
    write, and with markers only the marked reservation lands, once. */
  lemma RepliesIff(c: Config, s: State, k: RefundKey, landed: bool, reply: RefundReply)
    requires k in s.refunds && s.refunds[k].Calling?
    ensures var q := s.refunds[k].q;
            RefundReplies_(c, s, k, landed, reply).Some? <==>
            && (reply == ReplyOk ==> landed) && (landed ==> reply == ReplyOk || c.raisesAfterWrite)
            && (landed && c.markers ==>
                  Debits(s.ledger, q.rid) > 0 && Credits(s.ledger, q.rid) == 0
                  && q.rid in s.issued && s.issued[q.rid] == q.reserved)
  {
    hide SetRefund, Debits, Credits;
  }

  /** The outer handler records the refund exactly when the bucket state has changed. */
  lemma HandlerDecides(c: Config, s: State, k: RefundKey, q: Request, lock: Lock, landed: bool, changed: bool)
    requires k in s.refunds && s.refunds[k] == Handling(q, lock, landed) && ProbeMayReport(c, landed, changed)
    ensures RefundHandles_(c, s, k, changed).Some? && k in RefundHandles_(c, s, k, changed).value.refunds
    ensures RefundHandles_(c, s, k, changed).value.refunds[k] == Leaving(q, lock, RefundRaised)
    ensures RefundHandles_(c, s, k, changed).value.book == if changed then Forget(s.book, q.rid) else s.book
  {
    CommitForgets(c, s, q.rid);
    hide SetRefund, Commit, Forget, Failed, ProbeMayReport;
    RefundStandsAt(if changed then Commit(c, s, q.rid) else MarkFailed(c, s, q.rid), k, Leaving(q, lock, RefundRaised));
  }

  /** How an undelivered acquire ends: given back, handed over inside the error, or, if that was critical, to nobody. */
  lemma CollectingDecides(s: State, rid: Id, critical: bool)
    requires AcquireAt(s, rid, AwaitingRefund)
    requires Undelivered(rid) in s.refunds && s.refunds[Undelivered(rid)].RefundDone?
    ensures AcquireCollects_(s, rid, critical).Some? && rid in AcquireCollects_(s, rid, critical).value.acquires
    ensures var pc := AcquireCollects_(s, rid, critical).value.acquires[rid];
            var refunded := s.refunds[Undelivered(rid)].result == Refunded;
            && (pc == Ending(RefundedAway) <==> refunded)
            && (pc == Ending(Surfaced) <==> !refunded && !critical)
            && (pc == Ending(Stranded) <==> !refunded && critical)
  {
  }

  /** An unlimited acquire is in flight at once, under the same cap, and forgotten if its callback raises. */
  lemma UnlimitedIsServed(c: Config, s: State, rid: Id, r: Reservation)
    requires !Known(s, rid) && r.unlimited && r.usage == map[] && r.buckets == {}
    requires rid !in s.book.pending && rid !in s.book.inFlight
    ensures UnlimitedBegin_(c, s, rid, r).Some?
    ensures rid in UnlimitedBegin_(c, s, rid, r).value.book.inFlight <==>
            !s.book.closed && !s.book.closing && |s.book.inFlight| + |s.book.pending| < c.maxInFlight
  {
    hide Known;
  }

  lemma UnlimitedCallbackDecides(s: State, rid: Id, raises: bool)
    requires AcquireAt(s, rid, UnlimitedEmitting)
    ensures UnlimitedEmits_(s, rid, raises).Some? && rid in UnlimitedEmits_(s, rid, raises).value.acquires
    ensures var t := UnlimitedEmits_(s, rid, raises).value;
            && t.acquires[rid] == Finished(if raises then RolledBack else Delivered)
            && t.book == if raises then Forget(s.book, rid) else s.book
  {
    hide Forget, SetAcquire;
    AcquireStandsAt(s.(book := Forget(s.book, rid)), rid, Finished(RolledBack));
    AcquireStandsAt(s, rid, Finished(Delivered));
  }

  /** Families are evicted exactly when none of them has a live reservation. */
  lemma EvictsIff(s: State, families: set<Family>)
    ensures EvictFamilies_(s, families).Some? <==>
            forall rid :: rid in s.book.family ==> s.book.family[rid] !in families
    ensures EvictFamilies_(s, families).Some? ==>
              EvictFamilies_(s, families).value.backends == s.backends - families
  {
    if forall rid :: rid in s.book.family ==> s.book.family[rid] !in families {
      assert families * s.book.family.Values == {};
    } else {
      var rid :| rid in s.book.family && s.book.family[rid] in families;
      assert s.book.family[rid] in families * s.book.family.Values;
    }
  }

  // ---------------------------------------------------------------- going on

  /** One more step of a run from `s`, which keeps the invariant. */
  lemma Go(c: Config, s: State, t: State, a: Action)
    requires Reaches(c, s, t) && Inv(c, t) && Step(c, t, a).Some?
    ensures Reaches(c, s, Step(c, t, a).value) && Inv(c, Step(c, t, a).value)
  {
    hide Inv, Step, Reaches;
    ReachesOn(c, s, t, a);
    StepKeeps(c, t, a);
  }

  // ---------------------------------------------------------------- an acquire goes through

  /** Acquire `rid` stands at `pc` and is alone responsible for what has changed since `s`. */
  ghost predicate AcquiringAt(c: Config, s: State, t: State, rid: Id, r: Reservation, pc: AcquirePc, l: Ledger) {
    && Reaches(c, s, t) && Inv(c, t)
    && rid in t.acquires && t.acquires[rid] == pc && rid in t.issued && t.issued[rid] == r
    && t.refunds == s.refunds && t.ledger == l
  }

  lemma IsAdmitted(c: Config, s: State, rid: Id, r: Reservation) returns (t: State)
    requires Inv(c, s) && !Known(s, rid) && WellFormed(r) && !r.unlimited && s.limiter.None?
    requires !s.book.closed && !s.book.closing && |s.book.inFlight| + |s.book.pending| < c.maxInFlight
    ensures AcquiringAt(c, s, t, rid, r, Registering, s.ledger) && t.limiter.None?
  {
    hide Inv, Reaches, AcquireBegin_;
    BeginsIffBelowCap(c, s, rid, r);
    ReachesItself(c, s);
    assert Step(c, s, OnAcquire(AcquireBegin(rid, r))) == AcquireBegin_(c, s, rid, r);
    Go(c, s, s, OnAcquire(AcquireBegin(rid, r)));
    t := AcquireBegin_(c, s, rid, r).value;
  }

  lemma IsSetUp(c: Config, s: State, w: State, rid: Id, r: Reservation) returns (t: State)
    requires AcquiringAt(c, s, w, rid, r, Registering, s.ledger) && w.limiter.None?
    ensures AcquiringAt(c, s, t, rid, r, Acquiring, s.ledger) && t.limiter.None?
  {
    hide Inv, Reaches, RefundStep, LifecycleStep;
    Go(c, s, w, OnAcquire(AcquireLooksUp(rid)));
    t := Step(c, w, OnAcquire(AcquireLooksUp(rid))).value;
    Go(c, s, t, OnAcquire(AcquireEntersLimiter(rid)));
    t := Step(c, t, OnAcquire(AcquireEntersLimiter(rid))).value;
    Go(c, s, t, OnAcquire(AcquireSetupDone(rid)));
    t := Step(c, t, OnAcquire(AcquireSetupDone(rid))).value;
  }

  lemma IsGranted(c: Config, s: State, w: State, rid: Id, r: Reservation) returns (t: State)
    requires AcquiringAt(c, s, w, rid, r, Acquiring, s.ledger)
    ensures AcquiringAt(c, s, t, rid, r, Delivering, Post(Debit(rid, r), s.ledger))
  {
    hide Inv, Reaches, RefundStep, LifecycleStep, BeginCleanup, RollbackPending, FinalizePending;
    Go(c, s, w, OnAcquire(AcquireReplies(rid, Granted)));
    t := Step(c, w, OnAcquire(AcquireReplies(rid, Granted))).value;
    Go(c, s, t, OnAcquire(AcquireSettles(rid)));
    t := Step(c, t, OnAcquire(AcquireSettles(rid))).value;
  }

  lemma IsDelivered(c: Config, s: State, w: State, rid: Id, r: Reservation) returns (t: State)
    requires AcquiringAt(c, s, w, rid, r, Delivering, Post(Debit(rid, r), s.ledger))
    ensures AcquiringAt(c, s, t, rid, r, Ending(Delivered), Post(Debit(rid, r), s.ledger))
  {
    hide Inv, Reaches, RefundStep, LifecycleStep, FinalizePending, Forget;
    Go(c, s, w, OnAcquire(AcquireFinalizes(rid)));
    t := Step(c, w, OnAcquire(AcquireFinalizes(rid))).value;
    Go(c, s, t, OnAcquire(AcquireEmits(rid, false)));
    t := Step(c, t, OnAcquire(AcquireEmits(rid, false))).value;
  }

  lemma IsEnded(c: Config, s: State, w: State, rid: Id, r: Reservation) returns (t: State)
    requires AcquiringAt(c, s, w, rid, r, Ending(Delivered), Post(Debit(rid, r), s.ledger))
    ensures AcquiringAt(c, s, t, rid, r, Finished(Delivered), Post(Debit(rid, r), s.ledger))
    ensures rid in t.book.inFlight && rid in t.book.snapshots && t.book.snapshots[rid] == r && rid !in t.book.cleanup
  {
    hide Inv, Reaches, RefundStep, LifecycleStep, AcquireOk;
    RecordsKnown(c, w, rid);
    EndingIsInFlight(c, w, rid);
    Go(c, s, w, OnAcquire(AcquireEnds(rid)));
    t := Step(c, w, OnAcquire(AcquireEnds(rid))).value;
  }

  lemma EndingIsInFlight(c: Config, s: State, rid: Id)
    requires Inv(c, s) && rid in s.acquires && s.acquires[rid] == Ending(Delivered)
    ensures rid in s.book.inFlight
  {
    hide Inv;
    RecordsKnown(c, s, rid);
  }

  /** From every reachable open state below the cap, with nobody in the limiter lock, a fresh acquire can go through:
    it ends delivered and in flight as asked for, and all it has posted is its one debit. */
  lemma AcquireGoesThrough(c: Config, actions: seq<Action>, rid: Id, r: Reservation) returns (t: State)
    requires Run(c, Initial, actions).Some?
    requires var s := Run(c, Initial, actions).value;
             && !Known(s, rid) && WellFormed(r) && !r.unlimited && s.limiter.None?
             && !s.book.closed && !s.book.closing && |s.book.inFlight| + |s.book.pending| < c.maxInFlight
    ensures var s := Run(c, Initial, actions).value;
            && Reaches(c, s, t) && rid in t.acquires && t.acquires[rid] == Finished(Delivered)
            && rid in t.book.inFlight && rid in t.book.snapshots && t.book.snapshots[rid] == r
            && t.ledger == Post(Debit(rid, r), s.ledger) && t.refunds == s.refunds
  {
    hide Run, Inv, Reaches;
    RunsKeepInvariant(c, actions);
    var s := Run(c, Initial, actions).value;
    t := IsAdmitted(c, s, rid, r);
    t := IsSetUp(c, s, t, rid, r);
    t := IsGranted(c, s, t, rid, r);
    t := IsDelivered(c, s, t, rid, r);
    t := IsEnded(c, s, t, rid, r);
  }

  // ---------------------------------------------------------------- a refund goes through

  /** Refund `n` stands at `pc`; bookkeeping and backends are as they were. */
  ghost predicate RefundingAt(c: Config, s: State, t: State, n: nat, pc: RefundPc, l: Ledger) {
    && Reaches(c, s, t) && Inv(c, t)
    && Public(n) in t.refunds && t.refunds[Public(n)] == pc
    && t.book == s.book && t.issued == s.issued && t.backends == s.backends && t.ledger == l
  }

  /** The reservation is open for a refund: the limiter is open, it is in flight, not marked as refunded nor being
    refunded, and its lock is free. */
  ghost predicate MayBeGivenBack(s: State, rid: Id) {
    && !s.book.closed && rid in s.book.inFlight && rid in s.book.snapshots && rid in s.issued
    && s.book.snapshots[rid] == s.issued[rid] && !s.issued[rid].unlimited
    && (rid, CommittedRefund) !in s.lru && rid !in s.inProgress
    && LockFor(s.locks, s.nextLock, rid) !in s.held
  }

  lemma IsEntered(c: Config, s: State, n: nat, rid: Id, claim: Reservation, actual: Usage) returns (t: State)
    requires Inv(c, s) && MayBeGivenBack(s, rid) && Refundable(s, rid) && Public(n) !in s.refunds
    requires FitsUsage(s.issued[rid], actual)
    ensures RefundingAt(c, s, t, n, RegisteringLock(Request(rid, s.issued[rid], actual, false)), s.ledger)
    ensures MayBeGivenBack(t, rid)
  {
    hide Inv, Reaches, AcquireStep, LifecycleStep, LockFor, Refundable, Forget;
    var k := Public(n);
    ReachesItself(c, s);
    Go(c, s, s, OnRefund(RefundStarts(n, rid, claim, actual)));
    t := Step(c, s, OnRefund(RefundStarts(n, rid, claim, actual))).value;
    Go(c, s, t, OnRefund(RefundEnters(k, false)));
    t := Step(c, t, OnRefund(RefundEnters(k, false))).value;
  }

  lemma IsLocked(c: Config, s: State, w: State, n: nat, q: Request) returns (t: State, lock: Lock)
    requires RefundingAt(c, s, w, n, RegisteringLock(q), s.ledger) && MayBeGivenBack(w, q.rid)
    ensures RefundingAt(c, s, t, n, AtGate(q, lock), s.ledger)
    ensures !t.book.closed && (q.rid, CommittedRefund) !in t.lru && q.rid !in t.inProgress
  {
    hide Inv, Reaches, AcquireStep, LifecycleStep, CountedIn;
    var k := Public(n);
    lock := LockFor(w.locks, w.nextLock, q.rid);
    Go(c, s, w, OnRefund(RefundRegisters(k)));
    t := Step(c, w, OnRefund(RefundRegisters(k))).value;
    hide LockFor;
    Go(c, s, t, OnRefund(RefundLocks(k)));
    t := Step(c, t, OnRefund(RefundLocks(k))).value;
  }

  lemma IsPastGate(c: Config, s: State, w: State, n: nat, q: Request, lock: Lock) returns (t: State)
    requires RefundingAt(c, s, w, n, AtGate(q, lock), s.ledger)
    requires !w.book.closed && (q.rid, CommittedRefund) !in w.lru && q.rid !in w.inProgress
    ensures RefundingAt(c, s, t, n, Preparing(q, lock), s.ledger)
  {
    hide Inv, Reaches, Remember;
    var k := Public(n);
    GateOpenIff(w.book, w.lru, w.inProgress, q.rid, q.allowClosed);
    hide GateOpen;
    assert Step(c, w, OnRefund(RefundGates(k))) == RefundGates_(c, w, k);
    hide Step;
    Go(c, s, w, OnRefund(RefundGates(k)));
    t := RefundGates_(c, w, k).value;
  }

  lemma InFlightHasBackend(c: Config, s: State, rid: Id)
    requires Inv(c, s) && rid in s.book.inFlight && rid in s.issued && !s.issued[rid].unlimited
    ensures s.issued[rid].family in s.backends && Debits(s.ledger, rid) > 0
  {
    hide OrderInv, RefundInv, HolderInv, LockInv, DrainInv, TakenInv, CloserInv, SetterInv, ClosedInv, PostingsOk,
      CreditInv, SettledInv, ClaimInv, DedupInv;
    assert RecordOk(s.book, s.issued, s.backends, rid);
    assert AcquireOk(s.book, s.refunds, s.backends, rid, s.issued[rid], s.acquires[rid]);
    assert IsDebitedPc(s.acquires[rid]);
  }

  lemma IsCalling(c: Config, s: State, w: State, n: nat, q: Request, lock: Lock, scope: set<BucketId>)
    returns (t: State)
    requires RefundingAt(c, s, w, n, Preparing(q, lock), s.ledger)
    requires q.rid in s.book.inFlight && q.rid in s.issued && q.reserved == s.issued[q.rid] && !q.reserved.unlimited
    requires scope <= q.reserved.buckets
    ensures RefundingAt(c, s, t, n, Calling(q, lock, scope), s.ledger) && Debits(s.ledger, q.rid) > 0
  {
    var k := Public(n);
    hide Inv, Reaches, Debits;
    InFlightHasBackend(c, w, q.rid);
    assert Step(c, w, OnRefund(RefundCalls(k, scope))) == RefundCalls_(c, w, k, scope);
    hide Step;
    Go(c, s, w, OnRefund(RefundCalls(k, scope)));
    t := RefundCalls_(c, w, k, scope).value;
  }

  /** The backend takes the credit: at once, or, with markers, when it has not had one. */
  lemma IsCredited(c: Config, s: State, w: State, n: nat, q: Request, lock: Lock, scope: set<BucketId>)
    returns (t: State)
    requires RefundingAt(c, s, w, n, Calling(q, lock, scope), s.ledger)
    requires q.rid in s.issued && q.reserved == s.issued[q.rid] && Debits(s.ledger, q.rid) > 0
    requires c.markers ==> Credits(s.ledger, q.rid) == 0
    ensures RefundingAt(c, s, t, n, Answered(q, lock, true, ReplyOk),
                        Post(Credit(q.rid, scope, q.reserved, q.actual), s.ledger))
  {
    hide Inv, Reaches, Debits, Credits;
    var k := Public(n);
    assert Step(c, w, OnRefund(RefundReplies(k, true, ReplyOk))) == RefundReplies_(c, w, k, true, ReplyOk);
    hide Step;
    Go(c, s, w, OnRefund(RefundReplies(k, true, ReplyOk)));
    t := RefundReplies_(c, w, k, true, ReplyOk).value;
  }

  /** The refund is recorded and its call returns. */
  ghost predicate ReturnedAt(c: Config, s: State, t: State, n: nat, pc: RefundPc, rid: Id, l: Ledger) {
    && Reaches(c, s, t) && Inv(c, t)
    && Public(n) in t.refunds && t.refunds[Public(n)] == pc
    && t.book == Forget(s.book, rid) && t.ledger == l
  }

  lemma IsCommitted(c: Config, s: State, w: State, n: nat, q: Request, lock: Lock, l: Ledger) returns (t: State)
    requires RefundingAt(c, s, w, n, Answered(q, lock, true, ReplyOk), l)
    ensures ReturnedAt(c, s, t, n, Leaving(q, lock, Refunded), q.rid, l)
  {
    hide Inv, Reaches, AcquireStep, LifecycleStep, Remember, Forget;
    var k := Public(n);
    Go(c, s, w, OnRefund(RefundSettles(k, c.probes)));
    t := Step(c, w, OnRefund(RefundSettles(k, c.probes))).value;
    Go(c, s, t, OnRefund(RefundNotifies(k, false)));
    t := Step(c, t, OnRefund(RefundNotifies(k, false))).value;
  }

  lemma IsReturned(c: Config, s: State, w: State, n: nat, q: Request, lock: Lock, l: Ledger) returns (t: State)
    requires ReturnedAt(c, s, w, n, Leaving(q, lock, Refunded), q.rid, l)
    ensures ReturnedAt(c, s, t, n, RefundDone(q, Refunded), q.rid, l)
  {
    hide Inv, Reaches, AcquireStep, LifecycleStep, CountedOut, Forget;
    var k := Public(n);
    Go(c, s, w, OnRefund(RefundLeaves(k)));
    t := Step(c, w, OnRefund(RefundLeaves(k))).value;
    Go(c, s, t, OnRefund(RefundUnlocks(k)));
    t := Step(c, t, OnRefund(RefundUnlocks(k))).value;
    Go(c, s, t, OnRefund(RefundDrops(k)));
    t := Step(c, t, OnRefund(RefundDrops(k))).value;
  }

  /** From every reachable state in which a handed-over reservation is open for it, a refund of any fitting usage can go
    through, whatever copy of the reservation the caller shows: it returns, all it has posted is one credit against
    the issued reservation, and of the bookkeeping only that reservation is gone. */
  lemma RefundGoesThrough(c: Config, actions: seq<Action>, n: nat, rid: Id, claim: Reservation, actual: Usage,
                          scope: set<BucketId>) returns (t: State)
    requires Run(c, Initial, actions).Some?
    requires var s := Run(c, Initial, actions).value;
             && MayBeGivenBack(s, rid) && Refundable(s, rid) && Public(n) !in s.refunds
             && FitsUsage(s.issued[rid], actual) && scope <= s.issued[rid].buckets
             && (c.markers ==> Credits(s.ledger, rid) == 0)
    ensures var s := Run(c, Initial, actions).value;
            && Reaches(c, s, t) && Public(n) in t.refunds
            && t.refunds[Public(n)] == RefundDone(Request(rid, s.issued[rid], actual, false), Refunded)
            && t.ledger == Post(Credit(rid, scope, s.issued[rid], actual), s.ledger)
            && rid !in t.book.inFlight
            && (forall other :: other != rid ==> (other in t.book.inFlight <==> other in s.book.inFlight))
  {
    RunsKeepInvariant(c, actions);
    hide Run, Inv, Reaches, FitsUsage, Refundable, RefundingAt, ReturnedAt;
    var s := Run(c, Initial, actions).value;
    var q := Request(rid, s.issued[rid], actual, false);
    var l := Post(Credit(rid, scope, s.issued[rid], actual), s.ledger);
    t := IsEntered(c, s, n, rid, claim, actual);
    var lock;
    t, lock := IsLocked(c, s, t, n, q);
    t := IsPastGate(c, s, t, n, q, lock);
    t := IsCalling(c, s, t, n, q, lock, scope);
    t := IsCredited(c, s, t, n, q, lock, scope);
    t := IsCommitted(c, s, t, n, q, lock, l);
    t := IsReturned(c, s, t, n, q, lock, l);
    OneIsForgotten(c, s, t, n, RefundDone(q, Refunded), rid, l);
  }

  lemma OneIsForgotten(c: Config, s: State, t: State, n: nat, pc: RefundPc, rid: Id, l: Ledger)
    requires ReturnedAt(c, s, t, n, pc, rid, l)
    ensures Reaches(c, s, t) && Public(n) in t.refunds && t.refunds[Public(n)] == pc && t.ledger == l
    ensures rid !in t.book.inFlight
    ensures forall other :: other != rid ==> (other in t.book.inFlight <==> other in s.book.inFlight)
  {
    hide Inv, Reaches;
  }

  // ---------------------------------------------------------------- a maximum is set

  /** A maximum change is refused on a limiter that is closed or closing, at its start and again inside the lifecycle
    lock. */
  lemma SetMaxDecides(s: State, n: nat)
    ensures SetMaxStarts_(s, n).Some? <==> n !in s.setters && !s.book.closed && !s.book.closing
    ensures SetterAt(s, n, SetMaxChecking) ==>
              && SetMaxChecks_(s, n).Some? && n in SetMaxChecks_(s, n).value.setters
              && SetMaxChecks_(s, n).value.setters[n] ==
                 (if s.book.closed || s.book.closing then SetMaxDone else SetMaxLimiterWaiting)
              && SetMaxChecks_(s, n).value.lifecycle ==
                 (if s.book.closed || s.book.closing then None else s.lifecycle)
  {
  }

  /** From every reachable open state with the lifecycle and the limiter lock free, a maximum can be written. */
  lemma SetMaxGoesThrough(c: Config, actions: seq<Action>, n: nat) returns (t: State)
    requires Run(c, Initial, actions).Some?
    requires var s := Run(c, Initial, actions).value;
             n !in s.setters && !s.book.closed && !s.book.closing && s.lifecycle.None? && s.limiter.None?
    ensures var s := Run(c, Initial, actions).value;
            Reaches(c, s, t) && n in t.setters && t.setters[n] == SetMaxWriting && t.book == s.book
  {
    hide Run, Inv, Reaches;
    RunsKeepInvariant(c, actions);
    t := SetMaxIsServed(c, Run(c, Initial, actions).value, n);
  }

  lemma SetMaxIsServed(c: Config, s: State, n: nat) returns (t: State)
    requires Inv(c, s) && n !in s.setters && !s.book.closed && !s.book.closing && s.lifecycle.None? && s.limiter.None?
    ensures Reaches(c, s, t) && n in t.setters && t.setters[n] == SetMaxWriting && t.book == s.book
  {
    hide Inv, Reaches, AcquireStep, RefundStep;
    ReachesItself(c, s);
    Go(c, s, s, OnLifecycle(SetMaxStarts(n)));
    t := Step(c, s, OnLifecycle(SetMaxStarts(n))).value;
    Go(c, s, t, OnLifecycle(SetMaxEntersLifecycle(n)));
    t := Step(c, t, OnLifecycle(SetMaxEntersLifecycle(n))).value;
    t := SetMaxIsLetIn(c, s, t, n);
  }

  lemma SetMaxIsLetIn(c: Config, s: State, w: State, n: nat) returns (t: State)
    requires Reaches(c, s, w) && Inv(c, w) && n in w.setters && w.setters[n] == SetMaxChecking && w.limiter.None?
    requires !w.book.closed && !w.book.closing && w.book == s.book
    ensures Reaches(c, s, t) && n in t.setters && t.setters[n] == SetMaxWriting && t.book == s.book
  {
    hide Inv, Reaches, AcquireStep, RefundStep;
    t := w;
    Go(c, s, t, OnLifecycle(SetMaxChecks(n)));
    t := Step(c, t, OnLifecycle(SetMaxChecks(n))).value;
    Go(c, s, t, OnLifecycle(SetMaxEntersLimiter(n)));
    t := Step(c, t, OnLifecycle(SetMaxEntersLimiter(n))).value;
  }

  // ---------------------------------------------------------------- a close goes through

  /** Close `n` stands at `pc`, closing; the tables of the refund locks are as they were. */
  ghost predicate ClosingAt(c: Config, s: State, t: State, n: nat, pc: ClosePc) {
    && Reaches(c, s, t) && Inv(c, t)
    && n in t.closers && t.closers[n] == pc
    && t.locks == s.locks && t.backendCloses == s.backendCloses && t.book.closeDrained == s.book.closeDrained
    && t.book.closed && t.lifecycle == Some(Closer(n))
    && t.closers == s.closers[n := pc] && t.cleared == s.cleared
  }

  lemma IsMarked(c: Config, s: State, n: nat) returns (t: State)
    requires Inv(c, s) && n !in s.closers && NoneDelivering(s.book) && s.lifecycle.None? && !s.book.closeDrained
    ensures ClosingAt(c, s, t, n, Draining(s.locks.Values, [])) && t.held == s.held
  {
    hide Inv, Reaches, AcquireStep, RefundStep;
    ReachesItself(c, s);
    Go(c, s, s, OnLifecycle(CloseStarts(n)));
    t := Step(c, s, OnLifecycle(CloseStarts(n))).value;
    Go(c, s, t, OnLifecycle(CloseOpens(n)));
    t := Step(c, t, OnLifecycle(CloseOpens(n))).value;
    Go(c, s, t, OnLifecycle(CloseSeesDrained(n)));
    t := Step(c, t, OnLifecycle(CloseSeesDrained(n))).value;
    t := IsInside(c, s, t, n);
  }

  lemma IsInside(c: Config, s: State, w: State, n: nat) returns (t: State)
    requires Reaches(c, s, w) && Inv(c, w) && n in w.closers && w.closers[n] == LifecycleWaiting && w.lifecycle.None?
    requires w.locks == s.locks && w.backendCloses == s.backendCloses && !w.book.closeDrained && !s.book.closeDrained
    requires w.held == s.held && w.closers == s.closers[n := LifecycleWaiting] && w.cleared == s.cleared
    ensures ClosingAt(c, s, t, n, Draining(s.locks.Values, [])) && t.held == s.held
  {
    hide Inv, Reaches, AcquireStep, RefundStep;
    Go(c, s, w, OnLifecycle(CloseEntersLifecycle(n)));
    t := Step(c, w, OnLifecycle(CloseEntersLifecycle(n))).value;
    Go(c, s, t, OnLifecycle(CloseMarks(n)));
    t := Step(c, t, OnLifecycle(CloseMarks(n))).value;
    t := IsLookingAtLocks(c, s, t, n);
  }

  lemma IsLookingAtLocks(c: Config, s: State, w: State, n: nat) returns (t: State)
    requires ClosingAt(c, s, w, n, Snapshotting) && w.held == s.held
    ensures ClosingAt(c, s, t, n, Draining(s.locks.Values, [])) && t.held == s.held
  {
    hide Inv, Reaches, AcquireStep, RefundStep;
    assert Step(c, w, OnLifecycle(CloseSnapshots(n))) == CloseSnapshots_(w, n);
    hide Step;
    Go(c, s, w, OnLifecycle(CloseSnapshots(n)));
    t := CloseSnapshots_(w, n).value;
  }

  /** Of what a close looks at, only the lock and its own place change. */
  lemma TakingMoves(s: State, n: nat, lock: Lock, todo: set<Lock>, taken: seq<Lock>)
    requires CloserAt(s, n, Draining(todo, taken)) && lock in todo && lock !in s.held
    ensures CloseTakes_(s, n, lock).Some?
    ensures var t := CloseTakes_(s, n, lock).value;
            && t.closers == s.closers[n := Draining(todo - {lock}, taken + [lock])]
            && t.held == s.held[lock := Closer(n)]
            && t.book == s.book && t.locks == s.locks && t.lifecycle == s.lifecycle
            && t.backendCloses == s.backendCloses && t.cleared == s.cleared
  {
  }

  lemma TakingIsAStep(c: Config, s: State, n: nat, lock: Lock)
    ensures Step(c, s, OnLifecycle(CloseTakes(n, lock))) == CloseTakes_(s, n, lock)
  {
    hide CloseTakes_;
  }

  lemma TakesOne(c: Config, s: State, w: State, n: nat, lock: Lock, todo: set<Lock>, taken: seq<Lock>)
    returns (t: State)
    requires ClosingAt(c, s, w, n, Draining(todo, taken)) && lock in todo && lock !in w.held
    ensures ClosingAt(c, s, t, n, Draining(todo - {lock}, taken + [lock])) && t.held == w.held[lock := Closer(n)]
  {
    hide Inv, Reaches, Step, CloseTakes_;
    TakingMoves(w, n, lock, todo, taken);
    TakingIsAStep(c, w, n, lock);
    Go(c, s, w, OnLifecycle(CloseTakes(n, lock)));
    t := CloseTakes_(w, n, lock).value;
  }

  /** Every refund lock is taken in turn. */
  lemma {:induction false} TakesAll(c: Config, s: State, w: State, n: nat, todo: set<Lock>, taken: seq<Lock>)
    returns (t: State, all: seq<Lock>)
    requires ClosingAt(c, s, w, n, Draining(todo, taken)) && forall lock :: lock in todo ==> lock !in w.held
    ensures ClosingAt(c, s, t, n, Draining({}, all))
    decreases |todo|
  {
    if todo == {} {
      t, all := w, taken;
    } else {
      hide ClosingAt;
      var lock :| lock in todo;
      var next := TakesOne(c, s, w, n, lock, todo, taken);
      t, all := TakesAll(c, s, next, n, todo - {lock}, taken + [lock]);
    }
  }

  lemma {:induction false} ReleasesAll(c: Config, s: State, w: State, n: nat, taken: seq<Lock>) returns (t: State)
    requires ClosingAt(c, s, w, n, Releasing(taken, true))
    ensures ClosingAt(c, s, t, n, Releasing([], true))
    decreases |taken|
  {
    hide Inv, Reaches, AcquireStep, RefundStep;
    if taken == [] {
      t := w;
    } else {
      Go(c, s, w, OnLifecycle(CloseReleases(n)));
      var next := Step(c, w, OnLifecycle(CloseReleases(n))).value;
      t := ReleasesAll(c, s, next, n, taken[..|taken| - 1]);
    }
  }

  lemma IsDrained(c: Config, s: State, w: State, n: nat, taken: seq<Lock>) returns (t: State)
    requires ClosingAt(c, s, w, n, Draining({}, taken))
    ensures ClosingAt(c, s, t, n, Releasing([], true))
  {
    hide Inv, Reaches, AcquireStep, RefundStep;
    Go(c, s, w, OnLifecycle(CloseDrainEnds(n)));
    var next := Step(c, w, OnLifecycle(CloseDrainEnds(n))).value;
    t := ReleasesAll(c, s, next, n, taken);
  }

  /** Everything is closed, and nothing is kept. */
  ghost predicate IsClosedFor(s: State, t: State, n: nat) {
    && n in t.closers && t.closers[n] == CloseDone && t.book.closed && t.book.closeDrained && t.cleared
    && t.backendCloses == s.backendCloses + 1
    && t.book.inFlight == {} && t.book.pending == {} && t.book.cleanup == {} && t.book.snapshots == map[]
    && t.lru == [] && t.inProgress == {} && t.locks == map[] && t.refcounts == map[] && t.backends == {}
    && t.lifecycle == None
  }

  lemma IsBackendClosed(c: Config, s: State, w: State, n: nat) returns (t: State)
    requires ClosingAt(c, s, w, n, Releasing([], true))
    ensures Reaches(c, s, t) && Inv(c, t) && n in t.closers && t.closers[n] == BackendClosed
    ensures t.book.closed && t.book.closeDrained && t.backendCloses == s.backendCloses + 1
    ensures t.closers == s.closers[n := BackendClosed] && t.cleared == s.cleared
  {
    hide Inv, Reaches, AcquireStep, RefundStep;
    Go(c, s, w, OnLifecycle(CloseSealsDrain(n)));
    t := Step(c, w, OnLifecycle(CloseSealsDrain(n))).value;
    Go(c, s, t, OnLifecycle(CloseCallsBackend(n)));
    t := Step(c, t, OnLifecycle(CloseCallsBackend(n))).value;
  }

  lemma IsClosedDown(c: Config, s: State, w: State, n: nat) returns (t: State)
    requires Reaches(c, s, w) && Inv(c, w) && n in w.closers && w.closers[n] == BackendClosed
    requires w.book.closed && w.book.closeDrained && w.backendCloses == s.backendCloses + 1
    ensures Reaches(c, s, t) && IsClosedFor(s, t, n)
  {
    hide Inv, Reaches, AcquireStep, RefundStep;
    Go(c, s, w, OnLifecycle(CloseBackendReturns(n, false)));
    t := Step(c, w, OnLifecycle(CloseBackendReturns(n, false))).value;
    Go(c, s, t, OnLifecycle(CloseClears(n)));
    t := Step(c, t, OnLifecycle(CloseClears(n))).value;
  }

  /** From every reachable state without an acquire under way, with the refund locks and the lifecycle lock free and no
    close completed, a close can go through, also after one that failed: the backend is closed once, and nothing is
    kept. */
  lemma CloseGoesThrough(c: Config, actions: seq<Action>, n: nat) returns (t: State)
    requires Run(c, Initial, actions).Some?
    requires var s := Run(c, Initial, actions).value;
             && n !in s.closers && NoneDelivering(s.book) && s.lifecycle.None? && !s.book.closeDrained
             && forall rid :: rid in s.locks ==> s.locks[rid] !in s.held
    ensures var s := Run(c, Initial, actions).value; Reaches(c, s, t) && IsClosedFor(s, t, n)
  {
    RunsKeepInvariant(c, actions);
    hide Run, Inv, Reaches;
    var s := Run(c, Initial, actions).value;
    t := IsMarked(c, s, n);
    var taken;
    t, taken := TakesAll(c, s, t, n, s.locks.Values, []);
    t := IsDrained(c, s, t, n, taken);
    t := IsBackendClosed(c, s, t, n);
    t := IsClosedDown(c, s, t, n);
  }
}
