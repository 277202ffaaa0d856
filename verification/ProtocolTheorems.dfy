/** What the protocol guarantees over every run. */
module ProtocolTheorems {
  import opened Types
  import opened Bookkeeping
  import opened Protocol
  import opened ProtocolInvariant
  import opened ProtocolAcquireSteps
  import opened ProtocolRefundSteps
  import opened ProtocolCloseSteps

  lemma AcquireStepKeeps(c: Config, s: State, a: AcquireAction)
    requires Inv(c, s) && AcquireStep(c, s, a).Some?
    ensures Inv(c, AcquireStep(c, s, a).value)
  {
    hide Inv, AcquireBegin_, AcquireSetupFails_, AcquireSetupDone_, AcquireLooksUp_, AcquireEntersLimiter_,
      AcquireInterrupted_, AcquireReplies_, AcquireSettles_, AcquireFinalizes_, AcquireEmits_, AcquireRefinalizes_,
      AcquireChooses_, AcquireCollects_, AcquireEnds_, UnlimitedBegin_, UnlimitedEmits_;
    match a
    case AcquireBegin(rid, r) => AcquireBeginKeeps(c, s, rid, r);
    case AcquireSetupFails(rid) => AcquireSetupFailsKeeps(c, s, rid);
    case AcquireLooksUp(rid) => AcquireLooksUpKeeps(c, s, rid);
    case AcquireEntersLimiter(rid) => AcquireEntersLimiterKeeps(c, s, rid);
    case AcquireInterrupted(rid) => AcquireInterruptedKeeps(c, s, rid);
    case AcquireSetupDone(rid) => AcquireSetupDoneKeeps(c, s, rid);
    case AcquireReplies(rid, reply) => AcquireRepliesKeeps(c, s, rid, reply);
    case AcquireSettles(rid) => AcquireSettlesKeeps(c, s, rid);
    case AcquireFinalizes(rid) => AcquireFinalizesKeeps(c, s, rid);
    case AcquireEmits(rid, raises) => AcquireEmitsKeeps(c, s, rid, raises);
    case AcquireRefinalizes(rid) => AcquireRefinalizesKeeps(c, s, rid);
    case AcquireChooses(rid) => AcquireChoosesKeeps(c, s, rid);
    case AcquireCollects(rid, critical) => AcquireCollectsKeeps(c, s, rid, critical);
    case AcquireEnds(rid) => AcquireEndsKeeps(c, s, rid);
    case UnlimitedBegin(rid, r) => UnlimitedBeginKeeps(c, s, rid, r);
    case UnlimitedEmits(rid, raises) => UnlimitedEmitsKeeps(c, s, rid, raises);
  }

  lemma RefundStepKeeps(c: Config, s: State, a: RefundAction)
    requires Inv(c, s) && RefundStep(c, s, a).Some?
    ensures Inv(c, RefundStep(c, s, a).value)
  {
    hide Inv, RefundStarts_, RefundEnters_, RefundRegisters_, RefundLocks_, RefundInterrupted_, RefundGates_,
      RefundPrepareFails_, RefundLooksUp_, RefundEntersLimiter_, RefundRefreshes_, RefundCalls_, RefundReplies_,
      RefundSettles_, RefundHandles_, RefundNotifies_, RefundLeaves_, RefundUnlocks_, RefundDrops_;
    match a
    case RefundStarts(call, rid, claim, actual) => RefundStartsKeeps(c, s, call, rid, claim, actual);
    case RefundEnters(k, expired) => RefundEntersKeeps(c, s, k, expired);
    case RefundRegisters(k) => RefundRegistersKeeps(c, s, k);
    case RefundLocks(k) => RefundLocksKeeps(c, s, k);
    case RefundInterrupted(k) => RefundInterruptedKeeps(c, s, k);
    case RefundGates(k) => RefundGatesKeeps(c, s, k);
    case RefundLooksUp(k) => RefundLooksUpKeeps(c, s, k);
    case RefundEntersLimiter(k) => RefundEntersLimiterKeeps(c, s, k);
    case RefundRefreshes(k, installs) => RefundRefreshesKeeps(c, s, k, installs);
    case RefundPrepareFails(k) => RefundPrepareFailsKeeps(c, s, k);
    case RefundCalls(k, scope) => RefundCallsKeeps(c, s, k, scope);
    case RefundReplies(k, landed, reply) => RefundRepliesKeeps(c, s, k, landed, reply);
    case RefundSettles(k, changed) => RefundSettlesKeeps(c, s, k, changed);
    case RefundHandles(k, changed) => RefundHandlesKeeps(c, s, k, changed);
    case RefundNotifies(k, raises) => RefundNotifiesKeeps(c, s, k, raises);
    case RefundLeaves(k) => RefundLeavesKeeps(c, s, k);
    case RefundUnlocks(k) => RefundUnlocksKeeps(c, s, k);
    case RefundDrops(k) => RefundDropsKeeps(c, s, k);
  }

  lemma LifecycleStepKeeps(c: Config, s: State, a: LifecycleAction)
    requires Inv(c, s) && LifecycleStep(c, s, a).Some?
    ensures Inv(c, LifecycleStep(c, s, a).value)
  {
    hide Inv, CloseStarts_, CloseOpens_, CloseSeesDrained_, CloseTimesOut_, CloseEntersLifecycle_, CloseMarks_,
      CloseSnapshots_, CloseTakes_, CloseDrainFails_, CloseDrainEnds_, CloseReleases_, CloseSealsDrain_,
      CloseCallsBackend_, CloseBackendReturns_, CloseClears_, SetMaxStarts_, SetMaxEntersLifecycle_, SetMaxChecks_,
      SetMaxEnds_, SetMaxEntersLimiter_, SetMaxInterrupted_, EvictFamilies_;
    match a
    case CloseStarts(t) => CloseStartsKeeps(c, s, t);
    case CloseOpens(t) => CloseOpensKeeps(c, s, t);
    case CloseSeesDrained(t) => CloseSeesDrainedKeeps(c, s, t);
    case CloseTimesOut(t) => CloseTimesOutKeeps(c, s, t);
    case CloseEntersLifecycle(t) => CloseEntersLifecycleKeeps(c, s, t);
    case CloseMarks(t) => CloseMarksKeeps(c, s, t);
    case CloseSnapshots(t) => CloseSnapshotsKeeps(c, s, t);
    case CloseTakes(t, lock) => CloseTakesKeeps(c, s, t, lock);
    case CloseDrainFails(t) => CloseDrainFailsKeeps(c, s, t);
    case CloseDrainEnds(t) => CloseDrainEndsKeeps(c, s, t);
    case CloseReleases(t) => CloseReleasesKeeps(c, s, t);
    case CloseSealsDrain(t) => CloseSealsDrainKeeps(c, s, t);
    case CloseCallsBackend(t) => CloseCallsBackendKeeps(c, s, t);
    case CloseBackendReturns(t, raises) => CloseBackendReturnsKeeps(c, s, t, raises);
    case CloseClears(t) => CloseClearsKeeps(c, s, t);
    case SetMaxStarts(t) => SetMaxStartsKeeps(c, s, t);
    case SetMaxEntersLifecycle(t) => SetMaxEntersLifecycleKeeps(c, s, t);
    case SetMaxChecks(t) => SetMaxChecksKeeps(c, s, t);
    case SetMaxEntersLimiter(t) => SetMaxEntersLimiterKeeps(c, s, t);
    case SetMaxEnds(t, installed) => SetMaxEndsKeeps(c, s, t, installed);
    case SetMaxInterrupted(t) => SetMaxInterruptedKeeps(c, s, t);
    case EvictFamilies(fs) => EvictFamiliesKeeps(c, s, fs);
  }

  lemma StepKeeps(c: Config, s: State, a: Action)
    requires Inv(c, s) && Step(c, s, a).Some?
    ensures Inv(c, Step(c, s, a).value)
  {
    hide Inv, AcquireStep, RefundStep, LifecycleStep;
    match a
    case OnAcquire(x) => AcquireStepKeeps(c, s, x);
    case OnRefund(x) => RefundStepKeeps(c, s, x);
    case OnLifecycle(x) => LifecycleStepKeeps(c, s, x);
  }

  /** The invariant holds after every run, whatever the interleaving. */
  lemma {:induction false} RunsKeepInvariant(c: Config, actions: seq<Action>)
    requires Run(c, Initial, actions).Some?
    ensures Inv(c, Run(c, Initial, actions).value)
    decreases |actions|
  {
    hide Inv, Step;
    InitiallyInv(c);
    if actions != [] {
      var earlier := actions[..|actions| - 1];
      RunsKeepInvariant(c, earlier);
      StepKeeps(c, Run(c, Initial, earlier).value, actions[|actions| - 1]);
    }
  }

  // ---------------------------------------------------------------- closing the backend

  predicate SetsUpOrAcquires(pc: AcquirePc) {
    pc.Registering? || pc.LookupWaiting? || pc.LookingUp? || pc.Acquiring?
  }

  /** A backend acquire, refund, configuration or max-capacity write is running or about to be issued. */
  ghost predicate BackendWork(s: State) {
    || (exists rid :: rid in s.acquires && SetsUpOrAcquires(s.acquires[rid]))
    || (exists k :: k in s.refunds && (IsPreparing(s.refunds[k]) || s.refunds[k].Calling?))
    || (exists t :: t in s.setters && MayWriteMaximum(s.setters[t]))
  }

  ghost predicate BackendClosingOrClosed(s: State) {
    s.backendCloses > 0 || exists t :: t in s.closers && s.closers[t].BackendClosing?
  }

  lemma DrainedIsIdle(c: Config, s: State)
    requires Inv(c, s) && s.book.closeDrained
    ensures !BackendWork(s)
  {
    hide Consistent, RecordInv, OrderInv, RefundInv, HolderInv, LockInv, DrainInv, TakenInv, CloserInv, PostingsOk,
      DebitInv, CreditInv, SettledInv, ClaimInv, DedupInv;
    forall rid | rid in s.acquires
      ensures !SetsUpOrAcquires(s.acquires[rid])
    {
      assert AcquireOk(s.book, s.refunds, s.backends, rid, s.issued[rid], s.acquires[rid]);
    }
  }

  /** The backend is closed at most once, and from the moment that is decided no backend work runs. */
  lemma BackendClosedOnceAndIdle(c: Config, actions: seq<Action>)
    requires Run(c, Initial, actions).Some?
    ensures var s := Run(c, Initial, actions).value;
            s.backendCloses <= 1 && (BackendClosingOrClosed(s) ==> !BackendWork(s))
  {
    hide AcquireInv, Consistent, RecordInv, OrderInv, RefundInv, HolderInv, LockInv, DrainInv, TakenInv, SetterInv,
      PostingsOk, DebitInv, CreditInv, SettledInv, ClaimInv, DedupInv, BackendWork;
    RunsKeepInvariant(c, actions);
    var s := Run(c, Initial, actions).value;
    if BackendClosingOrClosed(s) {
      ClosingIsDrained(c, s);
      DrainedIsIdle(c, s);
    }
  }

  lemma ClosingIsDrained(c: Config, s: State)
    requires Inv(c, s) && BackendClosingOrClosed(s)
    ensures s.book.closeDrained
  {
    hide AcquireInv, Consistent, RecordInv, OrderInv, RefundInv, HolderInv, LockInv, DrainInv, TakenInv, SetterInv,
      PostingsOk, DebitInv, CreditInv, SettledInv, ClaimInv, DedupInv;
    if s.backendCloses == 0 {
      var t :| t in s.closers && s.closers[t].BackendClosing?;
      assert CloserOk(s.book, s.lifecycle, s.backendCloses, t, s.closers[t]);
    }
  }

  // ---------------------------------------------------------------- bookkeeping and locks

  /** In every reachable state the bookkeeping agrees with itself and with the acquires: what is
    pending or in flight keeps its acquire-time family, snapshot and, until the final clear, its backend. */
  lemma BookkeepingAgrees(c: Config, actions: seq<Action>, rid: Id)
    requires Run(c, Initial, actions).Some?
    ensures var s := Run(c, Initial, actions).value;
            && Consistent(c.maxInFlight, s.book)
            && (rid in s.book.pending || rid in s.book.inFlight ==>
                  rid in s.issued && rid in s.book.family && s.book.family[rid] == s.issued[rid].family)
            && (rid in s.book.inFlight ==>
                  && rid in s.book.snapshots && s.book.snapshots[rid] == s.issued[rid]
                  && (s.issued[rid].unlimited || s.issued[rid].family in s.backends))
  {
    hide AcquireInv, OrderInv, RefundInv, HolderInv, LockInv, DrainInv, TakenInv, CloserInv, SetterInv, ClosedInv,
      PostingsOk, DebitInv, CreditInv, SettledInv, ClaimInv, DedupInv;
    RunsKeepInvariant(c, actions);
    var s := Run(c, Initial, actions).value;
    assert RecordOk(s.book, s.issued, s.backends, rid);
  }

  /** No interleaving, not even one with a close that clears the lock table, lets two refunds of one
    reservation past the gate together; and one that may still write is not shown as committed. */
  lemma OneRefundAtATime(c: Config, actions: seq<Action>, k1: RefundKey, k2: RefundKey)
    requires Run(c, Initial, actions).Some?
    ensures var s := Run(c, Initial, actions).value;
            k1 in s.refunds && k2 in s.refunds && PastGate(s.refunds[k1]) && PastGate(s.refunds[k2])
            && s.refunds[k1].q.rid == s.refunds[k2].q.rid ==>
              && k1 == k2
              && (s.refunds[k1].Calling? ==> !Marked(s.lru, s.refunds[k1].q.rid, CommittedRefund))
  {
    hide AcquireInv, Consistent, RecordInv, OrderInv, RefundInv, HolderInv, LockInv, DrainInv, TakenInv, CloserInv,
      SetterInv, PostingsOk, DebitInv, CreditInv, SettledInv, ClaimInv;
    RunsKeepInvariant(c, actions);
    var s := Run(c, Initial, actions).value;
    if k1 in s.refunds && k2 in s.refunds && PastGate(s.refunds[k1]) && PastGate(s.refunds[k2])
       && s.refunds[k1].q.rid == s.refunds[k2].q.rid {
      assert !s.cleared;
      OnePastGate(s.held, s.locks, s.refcounts, s.refunds, k1, k2);
    }
  }
}
