/** Which refund calls the credits came from, and how every call that has ended stands with the backend. */
module ProtocolOutcomes {
  import opened Types
  import opened Bookkeeping
  import opened Protocol
  import opened ProtocolInvariant
  import opened ProtocolFrames
  import opened ProtocolEffects
  import opened ProtocolTheorems
  import opened ProtocolLedger

  // ---------------------------------------------------------------- credits come from calls

  predicate Posted(l: Ledger, p: Posting) {
    l.Post? && (l.last == p || Posted(l.earlier, p))
  }

  /** Between the two states refund `k` was at its backend call, with this credit to post, and was answered. */
  ghost predicate Answers(s: State, t: State, k: RefundKey, p: Posting) {
    && k in s.refunds && s.refunds[k].Calling? && k in t.refunds && t.refunds[k].Answered?
    && p == Credit(s.refunds[k].q.rid, s.refunds[k].scope, s.refunds[k].q.reserved, s.refunds[k].q.actual)
  }

  lemma PostsOnlyAnswers(c: Config, s: State, a: Action, p: Posting)
    requires Inv(c, s) && Step(c, s, a).Some?
    requires p.Credit? && Posted(Step(c, s, a).value.ledger, p) && !Posted(s.ledger, p)
    ensures exists k :: Answers(s, Step(c, s, a).value, k, p)
  {
    hide AcquireStep, RefundStep, LifecycleStep, Inv;
    match a
    case OnAcquire(x) =>
      AcquiresIssued(c, s, x.rid);
      AcquireTouches(c, s, x);
    case OnRefund(x) =>
      RefundTouches(c, s, x);
      assert Answers(s, RefundStep(c, s, x).value, RefundOf(x), p);
    case OnLifecycle(x) => LifecycleTouches(c, s, x);
  }

  /** The step after the first `i` actions of a run. */
  ghost predicate AnsweredAt(c: Config, actions: seq<Action>, i: nat, k: RefundKey, p: Posting) {
    && i < |actions| && Run(c, Initial, actions[..i]).Some? && Run(c, Initial, actions[..i + 1]).Some?
    && Answers(Run(c, Initial, actions[..i]).value, Run(c, Initial, actions[..i + 1]).value, k, p)
  }

  /** Every credit in the ledger was posted when a refund call was answered, and carries the scope, the reservation
    and the actual usage that call had. */
  lemma {:induction false} CreditsWereCalledFor(c: Config, actions: seq<Action>, p: Posting)
    requires Run(c, Initial, actions).Some?
    requires p.Credit? && Posted(Run(c, Initial, actions).value.ledger, p)
    ensures exists i: nat, k :: AnsweredAt(c, actions, i, k, p)
    decreases |actions|
  {
    hide Inv, Step, Answers;
    var n := |actions| - 1;
    var earlier := actions[..n];
    var s := Run(c, Initial, earlier).value;
    if Posted(s.ledger, p) {
      CreditsWereCalledFor(c, earlier, p);
      var i: nat, k :| AnsweredAt(c, earlier, i, k, p);
      assert earlier[..i] == actions[..i] && earlier[..i + 1] == actions[..i + 1];
      assert AnsweredAt(c, actions, i, k, p);
    } else {
      RunsKeepInvariant(c, earlier);
      PostsOnlyAnswers(c, s, actions[n], p);
      var k :| Answers(s, Step(c, s, actions[n]).value, k, p);
      assert actions[..n + 1] == actions;
      assert AnsweredAt(c, actions, n, k, p);
    }
  }

  /** The refunds of `rid` that have been answered by the backend, or have ended. */
  ghost function Callers(refunds: map<RefundKey, RefundPc>, rid: Id): set<RefundKey> {
    set k | k in refunds && refunds[k].q.rid == rid && !MayWrite(refunds[k])
  }

  ghost predicate CalledWith(refunds: map<RefundKey, RefundPc>, rid: Id, actual: Usage) {
    exists k :: k in Callers(refunds, rid) && refunds[k].q.actual == actual
  }

  /** Different credits of one reservation come from different calls. */
  ghost predicate CallsInv(l: Ledger, refunds: map<RefundKey, RefundPc>) {
    && (forall rid :: Credits(l, rid) <= |Callers(refunds, rid)|)
    && (forall rid, actual :: CreditedWith(l, rid, actual) ==> CalledWith(refunds, rid, actual))
  }

  lemma SubsetCount<T>(a: set<T>, b: set<T>)
    requires a <= b
    ensures |a| <= |b|
  {
    assert b == a + (b - a);
  }

  lemma CallersStay(l: Ledger, l': Ledger, refunds: map<RefundKey, RefundPc>, refunds': map<RefundKey, RefundPc>)
    requires CallsInv(l, refunds)
    requires l' == l || (l'.Post? && l'.earlier == l && l'.last.Debit?)
    requires forall k :: k in refunds && !MayWrite(refunds[k]) ==>
               k in refunds' && !MayWrite(refunds'[k]) && refunds'[k].q.rid == refunds[k].q.rid
               && refunds'[k].q.actual == refunds[k].q.actual
    ensures CallsInv(l', refunds')
  {
    forall rid ensures Credits(l', rid) <= |Callers(refunds', rid)| {
      assert Callers(refunds, rid) <= Callers(refunds', rid);
      SubsetCount(Callers(refunds, rid), Callers(refunds', rid));
    }
    forall rid, actual | CreditedWith(l', rid, actual) ensures CalledWith(refunds', rid, actual) {
      assert CalledWith(refunds, rid, actual);
      var k :| k in Callers(refunds, rid) && refunds[k].q.actual == actual;
      assert k in Callers(refunds', rid);
    }
  }

  lemma CallersGrow(l: Ledger, refunds: map<RefundKey, RefundPc>, k: RefundKey, pc: RefundPc, scope: set<BucketId>)
    requires CallsInv(l, refunds) && k in refunds && MayWrite(refunds[k]) && !MayWrite(pc)
    requires pc.q.rid == refunds[k].q.rid && pc.q.actual == refunds[k].q.actual
    ensures CallsInv(Post(Credit(pc.q.rid, scope, refunds[k].q.reserved, pc.q.actual), l), refunds[k := pc])
  {
    var refunds' := refunds[k := pc];
    var l' := Post(Credit(pc.q.rid, scope, refunds[k].q.reserved, pc.q.actual), l);
    forall rid ensures Credits(l', rid) <= |Callers(refunds', rid)| {
      if rid == pc.q.rid {
        assert Callers(refunds', rid) == Callers(refunds, rid) + {k};
      } else {
        assert Callers(refunds', rid) == Callers(refunds, rid);
      }
    }
    forall rid, actual | CreditedWith(l', rid, actual) ensures CalledWith(refunds', rid, actual) {
      if rid == pc.q.rid && actual == pc.q.actual {
        assert k in Callers(refunds', rid);
      } else {
        assert CalledWith(refunds, rid, actual);
        var j :| j in Callers(refunds, rid) && refunds[j].q.actual == actual;
        assert j in Callers(refunds', rid) && refunds'[j].q.actual == actual;
      }
    }
  }

  lemma CallsKeep(c: Config, s: State, a: Action)
    requires Inv(c, s) && CallsInv(s.ledger, s.refunds) && Step(c, s, a).Some?
    ensures var t := Step(c, s, a).value; CallsInv(t.ledger, t.refunds)
  {
    hide AcquireStep, RefundStep, LifecycleStep, Inv, CallsInv;
    var t := Step(c, s, a).value;
    match a
    case OnAcquire(x) =>
      AcquiresIssued(c, s, x.rid);
      AcquireTouches(c, s, x);
      CallersStay(s.ledger, t.ledger, s.refunds, t.refunds);
    case OnRefund(x) =>
      RefundTouches(c, s, x);
      var k := RefundOf(x);
      if t.ledger == s.ledger {
        CallersStay(s.ledger, t.ledger, s.refunds, t.refunds);
      } else {
        CallersGrow(s.ledger, s.refunds, k, t.refunds[k], s.refunds[k].scope);
      }
    case OnLifecycle(x) => LifecycleTouches(c, s, x);
  }

  lemma {:induction false} RunsKeepCalls(c: Config, actions: seq<Action>)
    requires Run(c, Initial, actions).Some?
    ensures var t := Run(c, Initial, actions).value; CallsInv(t.ledger, t.refunds)
    decreases |actions|
  {
    hide Inv, Step, CallsInv;
    if actions == [] {
      NothingIsCalled();
    } else {
      var earlier := actions[..|actions| - 1];
      RunsKeepCalls(c, earlier);
      RunsKeepInvariant(c, earlier);
      CallsKeep(c, Run(c, Initial, earlier).value, actions[|actions| - 1]);
    }
  }

  lemma NothingIsCalled()
    ensures CallsInv(Empty, map[])
  {
  }

  /** While a reservation is not handed out, only its own refund can credit it: at most once, and in full. */
  lemma OnlyItsOwnRefund(c: Config, s: State, rid: Id)
    requires Inv(c, s) && CallsInv(s.ledger, s.refunds) && rid in s.issued && !HandedOut(s.acquires, rid)
    ensures Credits(s.ledger, rid) <= 1
    ensures forall actual :: CreditedWith(s.ledger, rid, actual) ==> actual == ZeroUsage(s.issued[rid].usage)
  {
    hide AcquireInv, Consistent, RecordInv, OrderInv, HolderInv, LockInv, DrainInv, TakenInv, CloserInv, SetterInv,
      ClosedInv, PostingsOk, DebitInv, CreditInv, SettledInv, ClaimInv, DedupInv;
    var own := Undelivered(rid);
    forall k | k in Callers(s.refunds, rid)
      ensures k == own && s.refunds[k].q.actual == ZeroUsage(s.issued[rid].usage)
    {
      assert RefundOk(s.book, s.acquires, s.issued, k, s.refunds[k]);
    }
    SubsetCount(Callers(s.refunds, rid), {own});
    forall actual | CreditedWith(s.ledger, rid, actual) ensures actual == ZeroUsage(s.issued[rid].usage) {
      assert CalledWith(s.refunds, rid, actual);
    }
  }

  // ---------------------------------------------------------------- outcomes

  /** Credited at most once, and only to give everything back. */
  ghost predicate AtMostGivenBack(s: State, rid: Id)
    requires rid in s.issued
  {
    && Credits(s.ledger, rid) <= 1
    && (Credits(s.ledger, rid) == 1 ==> CreditActual(s.ledger, rid) == ZeroUsage(s.issued[rid].usage))
  }

  ghost predicate InFlightAsIssued(s: State, rid: Id)
    requires rid in s.issued
  {
    rid in s.book.inFlight && rid in s.book.snapshots && s.book.snapshots[rid] == s.issued[rid]
  }

  /** How a limited acquire stands with the backend at the moment it ends. */
  ghost predicate EndsAs(c: Config, s: State, rid: Id, result: AcquireResult)
    requires rid in s.issued
  {
    match result
    case RolledBack => rid !in s.book.inFlight && Debits(s.ledger, rid) == 0 && Credits(s.ledger, rid) == 0
    case Recorded => rid !in s.book.inFlight && Debits(s.ledger, rid) == 1 && Credits(s.ledger, rid) == 0
    case Lost => rid !in s.book.inFlight && Debits(s.ledger, rid) == 1 && Credits(s.ledger, rid) == 0
    case RefundedAway =>
      rid !in s.book.inFlight && Debits(s.ledger, rid) == 1 && Credits(s.ledger, rid) == 1 && AtMostGivenBack(s, rid)
    case Delivered => InFlightAsIssued(s, rid) && Debits(s.ledger, rid) == 1 && Credits(s.ledger, rid) == 0
    // handed over inside the error, or to nobody
    case _ =>
      && Debits(s.ledger, rid) == 1 && AtMostGivenBack(s, rid)
      && (rid in s.book.inFlight ==>
            InFlightAsIssued(s, rid) && (NeverWritesSilently(c) ==> Credits(s.ledger, rid) == 0))
  }

  /** How it stands ever after; what was handed over may by now be refunded, anything else is out of the caller's
    reach. */
  ghost predicate StaysAs(c: Config, s: State, rid: Id, result: AcquireResult)
    requires rid in s.issued
  {
    if result in {Delivered, Surfaced} then Debits(s.ledger, rid) == 1 else EndsAs(c, s, rid, result)
  }

  lemma CreditedOnce(l: Ledger, rid: Id, actual: Usage)
    requires forall u :: CreditedWith(l, rid, u) ==> u == actual
    ensures Credits(l, rid) > 0 ==> CreditActual(l, rid) == actual && CreditedWith(l, rid, actual)
  {
    if Credits(l, rid) > 0 {
      LastCreditCounts(l, rid);
    }
  }

  lemma {:induction false} LastCreditCounts(l: Ledger, rid: Id)
    requires Credits(l, rid) > 0
    ensures CreditedWith(l, rid, CreditActual(l, rid))
  {
    if !(l.last.Credit? && l.last.rid == rid) {
      LastCreditCounts(l.earlier, rid);
    }
  }

  lemma {:induction false} CreditedCounts(l: Ledger, rid: Id, actual: Usage)
    requires CreditedWith(l, rid, actual)
    ensures Credits(l, rid) > 0
  {
    if !(l.last.Credit? && l.last.rid == rid) {
      CreditedCounts(l.earlier, rid, actual);
    }
  }

  lemma UndeliveredIsGivenBack(c: Config, s: State, rid: Id)
    requires Inv(c, s) && CallsInv(s.ledger, s.refunds) && rid in s.issued && !HandedOut(s.acquires, rid)
    ensures AtMostGivenBack(s, rid)
  {
    hide Inv, CallsInv, HandedOut;
    OnlyItsOwnRefund(c, s, rid);
    CreditedOnce(s.ledger, rid, ZeroUsage(s.issued[rid].usage));
  }

  /** What the invariant says of one reservation's records and ledger. */
  lemma RecordsKnown(c: Config, s: State, rid: Id)
    requires Inv(c, s) && rid in s.acquires
    ensures rid in s.issued && AcquireOk(s.book, s.refunds, s.backends, rid, s.issued[rid], s.acquires[rid])
    ensures rid in s.book.inFlight ==> InFlightAsIssued(s, rid)
    ensures Debits(s.ledger, rid) == if IsDebited(s.issued, s.acquires, rid) then 1 else 0
    ensures Credits(s.ledger, rid) > 0 ==> MayBeRefunded(s.acquires[rid])
  {
    hide OrderInv, RefundInv, HolderInv, LockInv, DrainInv, TakenInv, CloserInv, SetterInv, ClosedInv, PostingsOk,
      SettledInv, ClaimInv, DedupInv;
    assert RecordOk(s.book, s.issued, s.backends, rid);
  }

  /** A reservation given back in full by its own refund. */
  lemma GivenBackKnown(c: Config, s: State, rid: Id)
    requires Inv(c, s) && rid in s.acquires && s.acquires[rid] in {Ending(RefundedAway), Finished(RefundedAway)}
    ensures Credits(s.ledger, rid) > 0
  {
    hide Consistent, RecordInv, OrderInv, HolderInv, LockInv, DrainInv, TakenInv, CloserInv, SetterInv, ClosedInv,
      PostingsOk, DebitInv, CreditInv, SettledInv, DedupInv;
    assert AcquireOk(s.book, s.refunds, s.backends, rid, s.issued[rid], s.acquires[rid]);
    var k := Undelivered(rid);
    assert RefundOk(s.book, s.acquires, s.issued, k, s.refunds[k]);
    assert ClaimOk(c, s.ledger, s.issued, s.book.inFlight, s.refunds[k]);
    CreditedCounts(s.ledger, rid, s.refunds[k].q.actual);
  }

  /** While the acquire's own refund is over and nobody else has the reservation, nothing is being settled. */
  lemma OwnRefundIsSettled(c: Config, s: State, rid: Id)
    requires Inv(c, s) && rid in s.acquires && !HandedOut(s.acquires, rid)
    requires s.acquires[rid].Ending? || s.acquires[rid].Finished?
    ensures NeverWritesSilently(c) && rid in s.book.inFlight ==> Credits(s.ledger, rid) == 0
  {
    hide AcquireInv, Consistent, RecordInv, OrderInv, HolderInv, LockInv, DrainInv, TakenInv, CloserInv, SetterInv,
      ClosedInv, PostingsOk, DebitInv, CreditInv, ClaimInv, DedupInv;
    forall k | k in s.refunds && s.refunds[k].q.rid == rid ensures !IsSettling(s.refunds[k]) {
      assert RefundOk(s.book, s.acquires, s.issued, k, s.refunds[k]);
    }
    assert IsSettled(s.refunds, rid);
  }

  ghost predicate Limited(s: State, rid: Id) {
    rid in s.acquires && rid in s.issued && !s.issued[rid].unlimited
  }

  /** Nobody was handed the reservation of an acquire that is ending, or that ended without handing it over. */
  lemma EndedAlone(c: Config, s: State, rid: Id, result: AcquireResult)
    requires Inv(c, s) && CallsInv(s.ledger, s.refunds) && Limited(s, rid)
    requires s.acquires[rid] == Ending(result)
             || (s.acquires[rid] == Finished(result) && result !in {Delivered, Surfaced})
    ensures EndsAs(c, s, rid, result)
  {
    hide Inv, CallsInv, AtMostGivenBack, InFlightAsIssued, NeverWritesSilently;
    RecordsKnown(c, s, rid);
    UndeliveredIsGivenBack(c, s, rid);
    OwnRefundIsSettled(c, s, rid);
    if result.RefundedAway? {
      GivenBackKnown(c, s, rid);
      assert AtMostGivenBack(s, rid);
    }
    GivenBackCount(s, rid);
  }

  lemma GivenBackCount(s: State, rid: Id)
    requires rid in s.issued
    ensures AtMostGivenBack(s, rid) ==> Credits(s.ledger, rid) <= 1
  {
  }

  /** Every acquire call that has ended was rolled back undebited, recorded without refund, given back in full,
    debited and handed over as a result or inside an error, stranded, or lost; and stays so. */
  lemma AcquireOutcomes(c: Config, actions: seq<Action>, rid: Id)
    requires Run(c, Initial, actions).Some?
    ensures var s := Run(c, Initial, actions).value;
            Limited(s, rid) && s.acquires[rid].Finished? ==> StaysAs(c, s, rid, s.acquires[rid].result)
  {
    hide Inv, CallsInv, EndsAs;
    RunsKeepInvariant(c, actions);
    RunsKeepCalls(c, actions);
    var s := Run(c, Initial, actions).value;
    if Limited(s, rid) && s.acquires[rid].Finished? {
      if s.acquires[rid].result in {Delivered, Surfaced} {
        RecordsKnown(c, s, rid);
      } else {
        EndedAlone(c, s, rid, s.acquires[rid].result);
      }
    }
  }

  /** A step that ends a limited acquire leaves it as its result says. What is delivered is in flight, as issued and
    uncredited. What is surfaced or stranded is that too, or, when its own refund or its expiry has closed it, credited
    at most once and then in full. */
  lemma AcquireEndsWell(c: Config, actions: seq<Action>, a: AcquireAction)
    requires Run(c, Initial, actions).Some? && AcquireStep(c, Run(c, Initial, actions).value, a).Some?
    requires var s := Run(c, Initial, actions).value; Limited(s, a.rid) && !s.acquires[a.rid].Finished?
    ensures var t := AcquireStep(c, Run(c, Initial, actions).value, a).value;
            Limited(t, a.rid) && t.acquires[a.rid].Finished? ==> EndsAs(c, t, a.rid, t.acquires[a.rid].result)
  {
    hide Inv, CallsInv, EndsAs, AcquireStep, HandsOver;
    RunsKeepInvariant(c, actions);
    RunsKeepCalls(c, actions);
    var s := Run(c, Initial, actions).value;
    assert Step(c, s, OnAcquire(a)) == AcquireStep(c, s, a);
    var t := AcquireStep(c, s, a).value;
    StepKeeps(c, s, OnAcquire(a));
    CallsKeep(c, s, OnAcquire(a));
    RecordsKnown(c, s, a.rid);
    AcquireTouches(c, s, a);
    if Limited(t, a.rid) && t.acquires[a.rid].Finished? {
      if t.acquires[a.rid].result in {Delivered, Surfaced} {
        DeliveringEndsWell(c, s, t, a.rid);
      } else {
        EndedAlone(c, t, a.rid, t.acquires[a.rid].result);
      }
    }
  }

  /** The two ways to hand a limited reservation over. */
  lemma DeliveringEndsWell(c: Config, s: State, t: State, rid: Id)
    requires Inv(c, s) && CallsInv(s.ledger, s.refunds) && Limited(s, rid)
    requires rid in t.acquires && HandsOver(s, t.book, rid, t.acquires[rid]) && t.issued == s.issued
             && t.ledger == s.ledger
    ensures EndsAs(c, t, rid, t.acquires[rid].result)
  {
    hide Inv, CallsInv, NeverWritesSilently;
    RecordsKnown(c, s, rid);
    if s.acquires[rid].Ending? {
      EndedAlone(c, s, rid, s.acquires[rid].result);
    }
  }

  /** A refund that returned normally credited its reservation once, for the actual usage it was
    given against the acquire-time reservation, and left it out of flight. */
  lemma RefundsThatReturn(c: Config, actions: seq<Action>, k: RefundKey)
    requires CreditsSafely(c) && Run(c, Initial, actions).Some?
    ensures var s := Run(c, Initial, actions).value;
            k in s.refunds && s.refunds[k].RefundDone? && IsSuccess(s.refunds[k]) ==>
              var q := s.refunds[k].q;
              && q.rid !in s.book.inFlight && q.rid in s.issued
              && Credits(s.ledger, q.rid) == 1
              && CreditActual(s.ledger, q.rid) == q.actual
              && ValidActual(s.issued[q.rid], q.actual)
  {
    hide AcquireInv, Consistent, RecordInv, OrderInv, HolderInv, LockInv, DrainInv, TakenInv, CloserInv, SetterInv,
      ClosedInv, DebitInv, SettledInv, DedupInv;
    RunsKeepInvariant(c, actions);
    var s := Run(c, Initial, actions).value;
    if k in s.refunds && s.refunds[k].RefundDone? && IsSuccess(s.refunds[k]) {
      assert ClaimOk(c, s.ledger, s.issued, s.book.inFlight, s.refunds[k]);
      CreditIsTheOne(s.ledger, s.refunds[k].q.rid, s.refunds[k].q.actual);
      CreditUsesIssued(s.ledger, s.issued, s.refunds[k].q.rid, s.refunds[k].q.actual);
    }
  }

  lemma {:induction false} CreditUsesIssued(l: Ledger, issued: map<Id, Reservation>, rid: Id, actual: Usage)
    requires PostingsOk(l, issued) && CreditedWith(l, rid, actual)
    ensures rid in issued && ValidActual(issued[rid], actual)
  {
    if !(l.last.Credit? && l.last.rid == rid && l.last.actual == actual) {
      CreditUsesIssued(l.earlier, issued, rid, actual);
    }
  }
}
