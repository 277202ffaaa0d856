/** How a close ends: what each of its sections decides, what every kind of failure leaves, and that a close whose
  backend fails is the last one: what the limiter then keeps, it keeps for good.
*/
module ProtocolClosing {
  import opened Types
  import opened Bookkeeping
  import opened Protocol
  import opened ProtocolInvariant
  import opened ProtocolEffects
  import opened ProtocolTheorems
  import opened ProtocolCredits
  import opened ProtocolService

  // ---------------------------------------------------------------- single decisions

  lemma CloserStandsAt(s: State, n: nat, pc: ClosePc)
    ensures n in SetCloser(s, n, pc).closers && SetCloser(s, n, pc).closers[n] == pc
    ensures SetCloser(s, n, pc).book == s.book && SetCloser(s, n, pc).lifecycle == s.lifecycle
    ensures SetCloser(s, n, pc).cleared == s.cleared && SetCloser(s, n, pc).backendCloses == s.backendCloses
  {
  }

  /** A close returns at once exactly when an earlier one has drained and closed; else new work is blocked, and the
    event recomputed. */
  lemma OpeningDecides(s: State, n: nat)
    requires CloserAt(s, n, Opening)
    ensures CloseOpens_(s, n).Some? && n in CloseOpens_(s, n).value.closers
    ensures var t := CloseOpens_(s, n).value;
            if s.book.closed && s.book.closeDrained then t.closers[n] == CloseDone && t.book == s.book
            else
              && t.closers[n] == DrainWaiting
              && t.book.closing == !s.book.closed && t.book.closed == s.book.closed
              && (t.book.drained <==> s.book.pending == {} && s.book.cleanup == {})
  {
    hide SetCloser;
    CloserStandsAt(s, n, CloseDone);
    CloserStandsAt(s.(book := BeginClosing(s.book)), n, DrainWaiting);
  }

  /** Under the lifecycle lock: only the clearing is left after an earlier drain; else the limiter is closed now. */
  lemma MarkingDecides(s: State, n: nat)
    requires CloserAt(s, n, Marking)
    ensures CloseMarks_(s, n).Some? && n in CloseMarks_(s, n).value.closers
    ensures var t := CloseMarks_(s, n).value;
            if s.book.closeDrained then t.closers[n] == Clearing && t.lifecycle == None && t.book == s.book
            else
              && t.closers[n] == Snapshotting && t.lifecycle == s.lifecycle
              && t.book == s.book.(closed := true, closing := false)
  {
    hide SetCloser;
    CloserStandsAt(s.(lifecycle := None), n, Clearing);
    CloserStandsAt(s.(book := MarkClosed(s.book)), n, Snapshotting);
  }

  /** The close raises: the limiter is closed for good, it is not cleared, and the lifecycle lock is left. */
  ghost predicate FailedClose(s: State, t: State, n: nat) {
    && n in t.closers && t.closers[n] == CloseDone
    && t.book == s.book.(closed := true, closing := false)
    && t.cleared == s.cleared && t.backendCloses == s.backendCloses
    && t.lifecycle == if ProtocolEffects.IsInside(s.closers, n) then None else s.lifecycle
  }

  lemma AbandonFails(s: State, w: State, n: nat)
    requires n in s.closers
    requires w == if ProtocolEffects.IsInside(s.closers, n) then s.(lifecycle := None) else s
    ensures FailedClose(s, Abandon(w, n), n)
  {
    hide SetCloser;
    CloserStandsAt(w.(book := MarkClosed(w.book)), n, CloseDone);
  }

  /** A timeout of the wait for acquires, an interrupted wait for the lifecycle lock, a timeout of the wait for refunds
    and an error of the backend all leave the same. */
  lemma FailuresAreTerminal(s: State, n: nat)
    requires n in s.closers
    ensures s.closers[n] == DrainWaiting || s.closers[n] == LifecycleWaiting ==>
              CloseTimesOut_(s, n).Some? && FailedClose(s, CloseTimesOut_(s, n).value, n)
    ensures s.closers[n] == Releasing([], false) ==>
              CloseSealsDrain_(s, n).Some? && FailedClose(s, CloseSealsDrain_(s, n).value, n)
    ensures s.closers[n] == BackendClosed ==>
              CloseBackendReturns_(s, n, true).Some? && FailedClose(s, CloseBackendReturns_(s, n, true).value, n)
  {
    hide FailedClose, SetCloser;
    if s.closers[n].DrainWaiting? || s.closers[n].LifecycleWaiting? {
      AbandonFails(s, s, n);
      hide Abandon;
    } else if s.closers[n].Releasing? || s.closers[n].BackendClosed? {
      AbandonFails(s, s.(lifecycle := None), n);
      hide Abandon;
    }
  }

  /** What goes on instead: a drain that ended is final and leads to the backend, and a backend that is closed to the
    clearing. */
  lemma SuccessesGoOn(s: State, n: nat)
    requires n in s.closers
    ensures s.closers[n] == Releasing([], true) ==>
              && CloseSealsDrain_(s, n).Some? && CloserAt(CloseSealsDrain_(s, n).value, n, BackendClosing)
              && CloseSealsDrain_(s, n).value.book == s.book.(closeDrained := true)
    ensures s.closers[n] == BackendClosed ==>
              && CloseBackendReturns_(s, n, false).Some?
              && CloserAt(CloseBackendReturns_(s, n, false).value, n, Clearing)
              && CloseBackendReturns_(s, n, false).value.book == s.book
              && CloseBackendReturns_(s, n, false).value.lifecycle == None
  {
    hide SetCloser;
    CloserStandsAt(s.(book := s.book.(closeDrained := true)), n, BackendClosing);
    CloserStandsAt(s.(lifecycle := None), n, Clearing);
  }

  // ---------------------------------------------------------------- after a failed backend close

  /** Closed after a completed drain, and no close call is past its opening section. */
  ghost predicate Retains(s: State) {
    && s.book.closed && s.book.closeDrained
    && forall n :: n in s.closers ==> IsIdle(s.closers[n])
  }

  predicate IsIdle(pc: ClosePc) {
    pc.Opening? || pc.CloseDone?
  }

  predicate IsCloseAction(a: LifecycleAction) {
    !IsSetMax(a) && !a.EvictFamilies?
  }

  /** A close call can only start, and find at its opening that there is nothing to do. */
  lemma ClosesRetain(c: Config, s: State, a: LifecycleAction)
    requires Retains(s) && LifecycleStep(c, s, a).Some? && IsCloseAction(a)
    ensures var t := LifecycleStep(c, s, a).value;
            && t.book == s.book && a.call in t.closers && IsIdle(t.closers[a.call])
            && t.closers == s.closers[a.call := t.closers[a.call]]
  {
    hide SetCloser;
    assert a.CloseStarts? || a.CloseOpens?;
    CloserStandsAt(s, a.call, Opening);
    CloserStandsAt(s, a.call, CloseDone);
    CloserMoves(s, a.call);
  }

  lemma CloserMoves(s: State, n: nat)
    ensures forall pc :: SetCloser(s, n, pc).closers == s.closers[n := pc]
  {
  }

  lemma StepRetains(c: Config, s: State, a: Action)
    requires Inv(c, s) && Retains(s) && Step(c, s, a).Some?
    ensures Retains(Step(c, s, a).value)
  {
    hide AcquireStep, RefundStep, LifecycleStep, Inv;
    match a
    case OnAcquire(x) =>
      AcquiresIssued(c, s, x.rid);
      AcquireTouches(c, s, x);
    case OnRefund(x) => RefundTouches(c, s, x);
    case OnLifecycle(x) =>
      LifecycleTouches(c, s, x);
      if IsCloseAction(x) {
        ClosesRetain(c, s, x);
      }
  }

  lemma {:induction false} RunRetains(c: Config, s: State, actions: seq<Action>)
    requires Inv(c, s) && Retains(s) && Run(c, s, actions).Some?
    ensures Inv(c, Run(c, s, actions).value) && Retains(Run(c, s, actions).value)
    decreases |actions|
  {
    hide Inv, Step, Retains;
    if actions != [] {
      var earlier, last := actions[..|actions| - 1], actions[|actions| - 1];
      RunRetains(c, s, earlier);
      StepKeeps(c, Run(c, s, earlier).value, last);
      StepRetains(c, Run(c, s, earlier).value, last);
    }
  }

  /** A close that fails at the backend is the last one. From every reachable state in which a close could go through
    (and no other is past its opening), the backend can fail instead; and then, whatever runs afterwards, no close call
    gets past its opening any more, so that nothing is ever cleared or closed again. */
  lemma FailedBackendCloseIsFinal(c: Config, actions: seq<Action>, n: nat) returns (t: State)
    requires Run(c, Initial, actions).Some?
    requires var s := Run(c, Initial, actions).value;
             && n !in s.closers && NoneDelivering(s.book) && s.lifecycle.None? && !s.book.closeDrained
             && (forall rid :: rid in s.locks ==> s.locks[rid] !in s.held)
             && (forall m :: m in s.closers ==> IsIdle(s.closers[m]))
    ensures var s := Run(c, Initial, actions).value;
            Reaches(c, s, t) && CloserAt(t, n, CloseDone) && t.cleared == s.cleared
    ensures forall later :: Run(c, t, later).Some? ==>
              forall m :: m in Run(c, t, later).value.closers ==> IsIdle(Run(c, t, later).value.closers[m])
  {
    RunsKeepInvariant(c, actions);
    var s := Run(c, Initial, actions).value;
    t := FailsAtBackend(c, s, n);
    forall later | Run(c, t, later).Some?
      ensures forall m :: m in Run(c, t, later).value.closers ==> IsIdle(Run(c, t, later).value.closers[m])
    {
      hide Inv, Step;
      RunRetains(c, t, later);
    }
  }

  lemma FailsAtBackend(c: Config, s: State, n: nat) returns (t: State)
    requires Inv(c, s) && n !in s.closers && NoneDelivering(s.book) && s.lifecycle.None? && !s.book.closeDrained
    requires forall rid :: rid in s.locks ==> s.locks[rid] !in s.held
    requires forall m :: m in s.closers ==> IsIdle(s.closers[m])
    ensures Reaches(c, s, t) && Inv(c, t) && Retains(t) && CloserAt(t, n, CloseDone) && t.cleared == s.cleared
  {
    hide Run, Inv, Reaches;
    t := IsMarked(c, s, n);
    var taken;
    t, taken := TakesAll(c, s, t, n, s.locks.Values, []);
    t := IsDrained(c, s, t, n, taken);
    t := IsBackendClosed(c, s, t, n);
    t := IsFailed(c, s, t, n);
  }

  lemma IsFailed(c: Config, s: State, w: State, n: nat) returns (t: State)
    requires Reaches(c, s, w) && Inv(c, w) && CloserAt(w, n, BackendClosed) && w.cleared == s.cleared
    requires w.book.closeDrained && w.closers == s.closers[n := BackendClosed]
    requires forall m :: m in s.closers ==> IsIdle(s.closers[m])
    ensures Reaches(c, s, t) && Inv(c, t) && Retains(t) && CloserAt(t, n, CloseDone) && t.cleared == s.cleared
  {
    hide Inv, Reaches, Step, CloseBackendReturns_;
    BackendFailsAlone(w, n);
    ReturningIsAStep(c, w, n);
    Go(c, s, w, OnLifecycle(CloseBackendReturns(n, true)));
    t := CloseBackendReturns_(w, n, true).value;
  }

  lemma ReturningIsAStep(c: Config, s: State, n: nat)
    ensures Step(c, s, OnLifecycle(CloseBackendReturns(n, true))) == CloseBackendReturns_(s, n, true)
  {
    hide CloseBackendReturns_;
  }

  lemma BackendFailsAlone(s: State, n: nat)
    requires CloserAt(s, n, BackendClosed)
    ensures CloseBackendReturns_(s, n, true).Some?
    ensures var t := CloseBackendReturns_(s, n, true).value;
            && t.closers == s.closers[n := CloseDone] && t.cleared == s.cleared
            && t.book == s.book.(closed := true, closing := false)
  {
    FailuresAreTerminal(s, n);
    CloserMoves(s.(book := MarkClosed(s.book), lifecycle := None), n);
    hide SetCloser;
  }
}
