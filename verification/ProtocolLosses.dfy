/** When a debit is lost: a blocking acquire raises with its debit in place, nobody is told, and the limiter rolls the
  reservation back. */
module ProtocolLosses {
  import opened Types
  import opened Bookkeeping
  import opened Protocol
  import opened ProtocolInvariant
  import opened ProtocolFrames
  import opened ProtocolEffects
  import opened ProtocolTheorems
  import opened ProtocolLedger
  import opened ProtocolOutcomes
  import opened ProtocolCredits

  ghost predicate NoneLost(s: State) {
    forall rid :: rid in s.acquires ==> !IsLost(s.acquires[rid])
  }

  lemma NoneLostKeeps(c: Config, s: State, a: Action)
    requires HandsDebitsOver(c) && Inv(c, s) && NoneLost(s) && Step(c, s, a).Some?
    ensures NoneLost(Step(c, s, a).value)
  {
    hide AcquireStep, RefundStep, LifecycleStep, Inv, IsLost;
    match a
    case OnAcquire(x) =>
      AcquiresIssued(c, s, x.rid);
      AcquireTouches(c, s, x);
    case OnRefund(x) => RefundTouches(c, s, x);
    case OnLifecycle(x) => LifecycleTouches(c, s, x);
  }

  lemma {:induction false} RunsLoseNothing(c: Config, actions: seq<Action>)
    requires HandsDebitsOver(c) && Run(c, Initial, actions).Some?
    ensures NoneLost(Run(c, Initial, actions).value)
    decreases |actions|
  {
    hide Inv, Step;
    if actions != [] {
      hide NoneLost;
      var earlier := actions[..|actions| - 1];
      RunsLoseNothing(c, earlier);
      RunsKeepInvariant(c, earlier);
      NoneLostKeeps(c, Run(c, Initial, earlier).value, actions[|actions| - 1]);
    }
  }

  /** The backend grants a blocking acquire; a callback and then the clean-up refund raise, the latter critically. */
  lemma DebitIsLost(c: Config) returns (t: State)
    requires c.maxInFlight > 0 && !HandsDebitsOver(c)
    ensures Reaches(c, Initial, t) && Acquires(t, Finished(Lost)) && t.ledger == Post(Debit(0, OneBucket), Empty)
  {
    var s := AcquireBegins(c);
    s := AcquireIsSetUp(c, s);
    s := AcquireIsDebited(c, s, RaisedUnrecorded);
    t := UnrecordedIsRolledBack(c, s);
  }

  lemma UnrecordedIsRolledBack(c: Config, s: State) returns (t: State)
    requires Reaches(c, Initial, s) && Acquires(s, Replied(RaisedUnrecorded))
    ensures Reaches(c, Initial, t) && Acquires(t, Finished(Lost)) && t.ledger == s.ledger
  {
    hide Reaches, RefundStep, LifecycleStep;
    Moves(c, s, OnAcquire(AcquireSettles(0)));
    t := Step(c, s, OnAcquire(AcquireSettles(0))).value;
  }

  ghost predicate HasLost(s: State) {
    exists rid :: rid in s.acquires && s.acquires[rid] == Finished(Lost)
  }

  /** No acquire loses its debit in any run, exactly when the backend records its failed clean-up refunds and these
    never fail critically. */
  lemma NoneLostIff(c: Config)
    requires c.maxInFlight > 0
    ensures c.recordsCleanup && !c.criticalCleanup <==>
            forall actions :: Run(c, Initial, actions).Some? ==> !HasLost(Run(c, Initial, actions).value)
  {
    hide Run;
    if HandsDebitsOver(c) {
      forall actions | Run(c, Initial, actions).Some? ensures !HasLost(Run(c, Initial, actions).value) {
        RunsLoseNothing(c, actions);
      }
    } else {
      var t := DebitIsLost(c);
      var actions :| Run(c, Initial, actions) == Some(t);
      assert HasLost(Run(c, Initial, actions).value);
    }
  }

  /** What is lost stays charged in full on every bucket it reserved, whatever runs afterwards: no refund of it can
    start, and none has. */
  lemma LostStaysCharged(c: Config, actions: seq<Action>, rid: Id, b: BucketId)
    requires Run(c, Initial, actions).Some?
    ensures var s := Run(c, Initial, actions).value;
            Limited(s, rid) && s.acquires[rid] == Finished(Lost) ==>
              && TotalOf(s.ledger, rid, b) == Reserved(s.issued[rid], b)
              && !Refundable(s, rid) && (forall k :: k in s.refunds ==> s.refunds[k].q.rid != rid)
  {
    hide Run, Inv, AcquireStep;
    RunsKeepInvariant(c, actions);
    var s := Run(c, Initial, actions).value;
    if Limited(s, rid) && s.acquires[rid] == Finished(Lost) {
      RecordsKnown(c, s, rid);
      LedgerKnown(c, s, rid);
      TotalOfShape(s.ledger, s.issued, rid, b);
      UncreditedReturnsNothing(s.ledger, rid, b);
    }
  }

  lemma LedgerKnown(c: Config, s: State, rid: Id)
    requires Inv(c, s)
    ensures PostingsOk(s.ledger, s.issued)
    ensures rid in s.acquires && !MayBeRefunded(s.acquires[rid]) ==>
              forall k :: k in s.refunds ==> s.refunds[k].q.rid != rid
  {
    hide AcquireInv, Consistent, RecordInv, OrderInv, RefundInv, HolderInv, LockInv, DrainInv, TakenInv, CloserInv,
      SetterInv, ClosedInv, PostingsOk, DebitInv, CreditInv, SettledInv, ClaimInv, DedupInv;
    if rid in s.acquires && !MayBeRefunded(s.acquires[rid]) {
      NotRefunded(s.book, s.acquires, s.issued, s.refunds, rid);
    }
  }
}
