/** No deadlock: with interruptions and timeouts left aside, every call that has not ended can move, or waits for
  calls that wait, over at most five hops, for one that can.

  The locks are the per-reservation refund locks, the lifecycle lock and the limiter lock. The acquire guard, the
  refund-state lock and the validation lock are taken for sections that wait for nothing, which are single steps. */
module ProtocolProgress {
  import opened Types
  import opened Bookkeeping
  import opened Protocol
  import opened ProtocolInvariant
  import opened ProtocolFrames
  import opened ProtocolEffects
  import opened ProtocolTheorems

  // ---------------------------------------------------------------- who holds what

  /** A held lock is held by a call that will release it. */
  ghost predicate HeldOk(refunds: map<RefundKey, RefundPc>, closers: map<nat, ClosePc>, lock: Lock, owner: Owner) {
    match owner
    case Refunder(k) => k in refunds && HoldsLock(refunds[k]) && refunds[k].lock == lock
    case Closer(n) => n in closers && lock in Taken(closers[n])
    case _ => false
  }

  ghost predicate HeldInv(held: map<Lock, Owner>, refunds: map<RefundKey, RefundPc>, closers: map<nat, ClosePc>) {
    forall lock :: lock in held ==> HeldOk(refunds, closers, lock, held[lock])
  }

  ghost predicate TodoInv(closers: map<nat, ClosePc>) {
    forall n :: n in closers ==> TodoOk(closers[n])
  }

  /** Whoever has entered the lifecycle lock is still inside. */
  ghost predicate InsideInv(lifecycle: Option<Owner>, closers: map<nat, ClosePc>, setters: map<nat, SetMaxPc>) {
    match lifecycle
    case None => true
    case Some(Closer(n)) => IsInside(closers, n)
    case Some(Setter(n)) => SetterInside(setters, n)
    case Some(_) => false
  }

  /** The call is in the limiter lock. */
  ghost predicate InLimiter(s: State, owner: Owner) {
    match owner
    case Acquirer(rid) => AcquirerInside(s.acquires, rid)
    case Refunder(k) => RefunderInside(s.refunds, k)
    case Setter(n) => SetterWriting(s.setters, n)
    case Closer(_) => false
  }

  /** Exactly the recorded owner is in the limiter lock. */
  ghost predicate LimiterInv(s: State) {
    forall owner :: InLimiter(s, owner) <==> s.limiter == Some(owner)
  }

  /** Once a close has begun, the drained event is clear only while an acquire runs that will set it. */
  ghost predicate EventInv(b: Book, acquires: map<Id, AcquirePc>) {
    IsShutting(b) && !b.drained ==> exists rid :: Runs(acquires, rid)
  }

  ghost predicate WaitInv(s: State) {
    && HeldInv(s.held, s.refunds, s.closers) && TodoInv(s.closers)
    && InsideInv(s.lifecycle, s.closers, s.setters) && EventInv(s.book, s.acquires)
    && LimiterInv(s)
  }

  lemma DeliveringRuns(c: Config, s: State)
    requires Inv(c, s) && !NoneDelivering(s.book)
    ensures exists rid :: Runs(s.acquires, rid)
  {
    hide OrderInv, RefundInv, HolderInv, LockInv, DrainInv, TakenInv, CloserInv, SetterInv, ClosedInv, PostingsOk,
      DebitInv, CreditInv, SettledInv, ClaimInv, DedupInv;
    var rid :| rid in s.book.pending || rid in s.book.cleanup;
    assert RecordOk(s.book, s.issued, s.backends, rid);
    assert AcquireOk(s.book, s.refunds, s.backends, rid, s.issued[rid], s.acquires[rid]);
    assert Runs(s.acquires, rid);
  }

  /** One call enters, leaves or stays; no other is concerned. */
  lemma LimiterMoved(s: State, t: State, owner: Owner)
    requires LimiterInv(s) && LockMoves(InLimiter(s, owner), InLimiter(t, owner), s.limiter, t.limiter, owner)
    requires forall other :: other != owner ==> (InLimiter(t, other) <==> InLimiter(s, other))
    ensures LimiterInv(t)
  {
    hide InLimiter;
  }

  lemma AcquireKeepsLimiter(c: Config, s: State, t: State, rid: Id)
    requires LimiterInv(s) && AcquireTouch(c, s, t, rid)
    ensures LimiterInv(t)
  {
    hide LockMoves, LimiterInv, AcquireSetsEvent, AcquirePosts, AcquireDelivers, AcquireLoses, SameFlags;
    LimiterMoved(s, t, Acquirer(rid));
  }

  lemma RefundKeepsLimiter(s: State, t: State, k: RefundKey)
    requires LimiterInv(s) && RefundTouch(s, t, k)
    ensures LimiterInv(t)
  {
    hide LockMoves, LimiterInv, RefundPosts, RefundMovesLock, RefundGoesOn, SameFlags;
    LimiterMoved(s, t, Refunder(k));
  }

  lemma AcquireKeepsWaits(c: Config, s: State, t: State, rid: Id)
    requires WaitInv(s) && Inv(c, t) && AcquireTouch(c, s, t, rid)
    ensures WaitInv(t)
  {
    AcquireKeepsLimiter(c, s, t, rid);
    hide Inv, TodoInv, InsideInv, NoneDelivering, LimiterInv, AcquireDelivers, AcquireLoses, LockMoves;
    assert HeldInv(t.held, t.refunds, t.closers) by {
      hide AcquireSetsEvent, AcquirePosts, AgreeOff;
    }
    assert EventInv(t.book, t.acquires) by {
      if IsShutting(t.book) && !t.book.drained && !Runs(t.acquires, rid) {
        if Runs(s.acquires, rid) {
          DeliveringRuns(c, t);
        } else {
          var other :| Runs(s.acquires, other);
          assert Runs(t.acquires, other);
        }
      }
    }
  }

  lemma RefundKeepsWaits(s: State, t: State, k: RefundKey)
    requires WaitInv(s) && RefundTouch(s, t, k)
    ensures WaitInv(t)
  {
    RefundKeepsLimiter(s, t, k);
    hide TodoInv, InsideInv, RefundPosts, RefundGoesOn, LimiterInv, LockMoves;
    assert HeldInv(t.held, t.refunds, t.closers) by {
      hide HoldsLock, Taken;
      forall lock | lock in t.held ensures HeldOk(t.refunds, t.closers, lock, t.held[lock]) {
        assert lock in s.held ==> HeldOk(s.refunds, s.closers, lock, s.held[lock]);
      }
    }
  }

  lemma CloserKeepsHeld(s: State, t: State, n: nat)
    requires HeldInv(s.held, s.refunds, s.closers) && CloserTouch(s, t, n)
    ensures HeldInv(t.held, t.refunds, t.closers)
  {
    hide CloserSetsEvent, LockMoves, TodoOk, HoldsLock, Taken;
    var was, now := TakenBy(s.closers, n), TakenBy(t.closers, n);
    forall lock | lock in t.held ensures HeldOk(t.refunds, t.closers, lock, t.held[lock]) {
      assert lock in s.held ==> HeldOk(s.refunds, s.closers, lock, s.held[lock]);
      if t.held[lock] == Closer(n) && lock in s.held && s.held[lock] == Closer(n) {
        var i :| 0 <= i < |was| && was[i] == lock;
        assert i < |now| ==> now[i] == lock;
      }
    }
  }

  lemma CloserKeepsEvent(c: Config, s: State, t: State, n: nat)
    requires EventInv(s.book, s.acquires) && Inv(c, s) && Inv(c, t) && CloserTouch(s, t, n)
    ensures EventInv(t.book, t.acquires)
  {
    hide Inv, CloserMovesLocks, LockMoves, TodoOk;
    if n in s.closers && !s.closers[n].Opening? && !s.closers[n].CloseDone? {
      CloserIsShutting(c, s, n);
    }
    if !NoneDelivering(t.book) {
      DeliveringRuns(c, t);
    }
  }

  lemma CloserKeepsInside(s: State, t: State, n: nat)
    requires TodoInv(s.closers) && InsideInv(s.lifecycle, s.closers, s.setters) && CloserTouch(s, t, n)
    ensures TodoInv(t.closers) && InsideInv(t.lifecycle, t.closers, t.setters)
  {
    hide CloserMovesLocks, CloserSetsEvent, TodoOk, IsUnderLifecycle;
  }

  lemma CloserKeepsWaits(c: Config, s: State, t: State, n: nat)
    requires WaitInv(s) && Inv(c, s) && Inv(c, t) && CloserTouch(s, t, n)
    ensures WaitInv(t)
  {
    hide HeldInv, TodoInv, InsideInv, EventInv, LimiterInv, Inv, CloserTouch;
    CloserKeepsHeld(s, t, n);
    CloserKeepsEvent(c, s, t, n);
    CloserKeepsInside(s, t, n);
    CloserKeepsLimiter(s, t, n);
  }

  lemma CloserKeepsLimiter(s: State, t: State, n: nat)
    requires LimiterInv(s) && CloserTouch(s, t, n)
    ensures LimiterInv(t)
  {
    hide LockMoves, CloserMovesLocks, CloserSetsEvent, TodoOk, IsUnderLifecycle;
    assert forall owner :: InLimiter(t, owner) <==> InLimiter(s, owner);
  }

  lemma CloserIsShutting(c: Config, s: State, n: nat)
    requires Inv(c, s) && n in s.closers && !s.closers[n].Opening? && !s.closers[n].CloseDone?
    ensures IsShutting(s.book)
  {
    hide AcquireInv, Consistent, RecordInv, OrderInv, RefundInv, HolderInv, LockInv, DrainInv, TakenInv, SetterInv,
      ClosedInv, PostingsOk, DebitInv, CreditInv, SettledInv, ClaimInv, DedupInv;
    assert CloserOk(s.book, s.lifecycle, s.backendCloses, n, s.closers[n]);
  }

  lemma SetterKeepsLimiter(s: State, t: State, n: nat)
    requires LimiterInv(s) && SetterTouch(s, t, n)
    ensures LimiterInv(t)
  {
    hide LockMoves, LimiterInv, SetterInside;
    LimiterMoved(s, t, Setter(n));
  }

  lemma SetterKeepsWaits(s: State, t: State, n: nat)
    requires WaitInv(s) && SetterTouch(s, t, n)
    ensures WaitInv(t)
  {
    SetterKeepsLimiter(s, t, n);
    hide HeldInv, TodoInv, EventInv, LimiterInv, SetterWriting;
  }

  lemma WaitsKeep(c: Config, s: State, a: Action)
    requires Inv(c, s) && WaitInv(s) && Step(c, s, a).Some?
    ensures WaitInv(Step(c, s, a).value)
  {
    hide Inv, WaitInv, AcquireStep, RefundStep, LifecycleStep, AcquireTouch, RefundTouch, CloserTouch, SetterTouch;
    var t := Step(c, s, a).value;
    StepKeeps(c, s, a);
    match a
    case OnAcquire(x) =>
      AcquiresIssued(c, s, x.rid);
      AcquireTouches(c, s, x);
      AcquireKeepsWaits(c, s, t, x.rid);
    case OnRefund(x) =>
      RefundTouches(c, s, x);
      RefundKeepsWaits(s, t, RefundOf(x));
    case OnLifecycle(x) =>
      LifecycleTouches(c, s, x);
      if x.EvictFamilies? {
        EvictKeepsWaits(s, t);
      } else if CloserTouch(s, t, x.call) {
        CloserKeepsWaits(c, s, t, x.call);
      } else {
        SetterKeepsWaits(s, t, x.call);
      }
  }

  lemma EvictKeepsWaits(s: State, t: State)
    requires WaitInv(s) && EvictTouch(s, t)
    ensures WaitInv(t)
  {
    assert forall owner :: InLimiter(t, owner) <==> InLimiter(s, owner);
  }

  lemma {:induction false} RunsKeepWaits(c: Config, actions: seq<Action>)
    requires Run(c, Initial, actions).Some?
    ensures WaitInv(Run(c, Initial, actions).value)
    decreases |actions|
  {
    hide Inv, Step;
    if actions != [] {
      hide WaitInv;
      var earlier := actions[..|actions| - 1];
      RunsKeepWaits(c, earlier);
      RunsKeepInvariant(c, earlier);
      WaitsKeep(c, Run(c, Initial, earlier).value, actions[|actions| - 1]);
    }
  }

  /** The limiter lock, under which backends are looked up, installed and rebuilt, is never held twice. */
  lemma OneInLimiter(c: Config, actions: seq<Action>, one: Owner, other: Owner)
    requires Run(c, Initial, actions).Some?
    ensures var s := Run(c, Initial, actions).value; InLimiter(s, one) && InLimiter(s, other) ==> one == other
  {
    hide Run;
    RunsKeepWaits(c, actions);
  }

  // ---------------------------------------------------------------- calls and what they wait for

  datatype Call = AcquireCall(rid: Id) | RefundCall(key: RefundKey) | CloseCall(closer: nat) | SetMaxCall(setter: nat)

  predicate Unfinished(s: State, call: Call) {
    match call
    case AcquireCall(rid) => rid in s.acquires && !s.acquires[rid].Finished?
    case RefundCall(k) => k in s.refunds && !s.refunds[k].RefundDone?
    case CloseCall(n) => n in s.closers && !s.closers[n].CloseDone?
    case SetMaxCall(n) => n in s.setters && !s.setters[n].SetMaxDone?
  }

  function OwnerCall(owner: Owner): Call {
    match owner
    case Acquirer(rid) => AcquireCall(rid)
    case Refunder(k) => RefundCall(k)
    case Closer(n) => CloseCall(n)
    case Setter(n) => SetMaxCall(n)
  }

  /** The call whose step an action is. */
  function CallOf(a: Action): Option<Call> {
    match a
    case OnAcquire(x) => Some(AcquireCall(x.rid))
    case OnRefund(x) => Some(RefundCall(RefundOf(x)))
    case OnLifecycle(x) =>
      if x.EvictFamilies? then None
      else if IsSetMax(x) then Some(SetMaxCall(x.call))
      else Some(CloseCall(x.call))
  }

  /** An interruption or a timeout, which progress must not depend on. */
  predicate GivesUp(a: Action) {
    match a
    case OnAcquire(x) => x.AcquireInterrupted?
    case OnRefund(x) => x.RefundInterrupted?
    case OnLifecycle(x) => x.CloseTimesOut? || x.CloseDrainFails? || x.SetMaxInterrupted?
  }

  ghost predicate CanMove(c: Config, s: State, call: Call) {
    exists a :: CallOf(a) == Some(call) && !GivesUp(a) && Step(c, s, a).Some?
  }

  /** The call is waiting for the limiter lock. */
  predicate WantsLimiter(s: State, call: Call) {
    match call
    case AcquireCall(rid) => rid in s.acquires && s.acquires[rid].LookupWaiting?
    case RefundCall(k) => k in s.refunds && s.refunds[k].RefreshWaiting?
    case SetMaxCall(n) => n in s.setters && s.setters[n].SetMaxLimiterWaiting?
    case CloseCall(_) => false
  }

  /** The call is waiting for the lifecycle lock. */
  predicate WantsLifecycle(s: State, call: Call) {
    match call
    case CloseCall(n) => n in s.closers && s.closers[n].LifecycleWaiting?
    case SetMaxCall(n) => n in s.setters && s.setters[n].SetMaxWaiting?
    case _ => false
  }

  /** The call is waiting for this refund lock. A close that drains the refund locks needs each of them. */
  predicate WantsLock(s: State, call: Call, lock: Lock) {
    match call
    case RefundCall(k) => k in s.refunds && s.refunds[k].LockWaiting? && s.refunds[k].lock == lock
    case CloseCall(n) => n in s.closers && s.closers[n].Draining? && lock in s.closers[n].todo
    case _ => false
  }

  /** The call is waiting for the drained event. */
  predicate WantsDrained(s: State, call: Call) {
    call.CloseCall? && call.closer in s.closers && s.closers[call.closer].DrainWaiting? && !s.book.drained
  }

  /** The call is waiting for its own refund. */
  predicate WantsRefund(s: State, call: Call) {
    && call.AcquireCall? && call.rid in s.acquires && s.acquires[call.rid].AwaitingRefund?
    && Unfinished(s, RefundCall(Undelivered(call.rid)))
  }

  /** `call` needs something that `other` has or will do. */
  ghost predicate WaitsFor(s: State, call: Call, other: Call) {
    || (WantsLimiter(s, call) && s.limiter.Some? && other == OwnerCall(s.limiter.value))
    || (WantsLifecycle(s, call) && s.lifecycle.Some? && other == OwnerCall(s.lifecycle.value))
    || (exists lock :: WantsLock(s, call, lock) && lock in s.held && other == OwnerCall(s.held[lock]))
    || (WantsDrained(s, call) && other.AcquireCall? && Runs(s.acquires, other.rid))
    || (WantsRefund(s, call) && other == RefundCall(Undelivered(call.rid)))
  }

  /** How many hops a wait can take at most. */
  function Hops(s: State, call: Call): nat {
    match call
    case AcquireCall(rid) =>
      if rid !in s.acquires then 0
      else if s.acquires[rid].AwaitingRefund? then 4 else if s.acquires[rid].LookupWaiting? then 1 else 0
    case RefundCall(k) =>
      if k !in s.refunds then 0
      else if s.refunds[k].LockWaiting? then 3 else if s.refunds[k].RefreshWaiting? then 1 else 0
    case CloseCall(n) =>
      if n !in s.closers then 0
      else if s.closers[n].DrainWaiting? then 5 else if s.closers[n].LifecycleWaiting? then 3
      else if s.closers[n].Draining? then 2 else 0
    case SetMaxCall(n) =>
      if n !in s.setters then 0
      else if s.setters[n].SetMaxWaiting? then 3 else if s.setters[n].SetMaxLimiterWaiting? then 1 else 0
  }

  // ---------------------------------------------------------------- every wait descends

  lemma LimiterOwnerMoves(s: State)
    requires LimiterInv(s) && s.limiter.Some?
    ensures var owner := OwnerCall(s.limiter.value); Unfinished(s, owner) && Hops(s, owner) == 0
  {
    assert InLimiter(s, s.limiter.value);
  }

  lemma LockHolderIsClose(s: State, lock: Lock)
    requires HeldInv(s.held, s.refunds, s.closers) && lock in s.held
    ensures var holder := OwnerCall(s.held[lock]); Unfinished(s, holder) && Hops(s, holder) <= 2
  {
    assert HeldOk(s.refunds, s.closers, lock, s.held[lock]);
  }

  lemma InsideIsClose(s: State)
    requires InsideInv(s.lifecycle, s.closers, s.setters) && s.lifecycle.Some?
    ensures var owner := OwnerCall(s.lifecycle.value); Unfinished(s, owner) && Hops(s, owner) <= 2
  {
  }

  lemma OneInside(c: Config, s: State, n: nat, m: nat)
    requires Inv(c, s) && IsInside(s.closers, n) && IsInside(s.closers, m)
    ensures m == n
  {
    hide AcquireInv, Consistent, RecordInv, OrderInv, RefundInv, HolderInv, LockInv, DrainInv, TakenInv, SetterInv,
      ClosedInv, PostingsOk, DebitInv, CreditInv, SettledInv, ClaimInv, DedupInv;
    assert CloserOk(s.book, s.lifecycle, s.backendCloses, n, s.closers[n]);
    assert CloserOk(s.book, s.lifecycle, s.backendCloses, m, s.closers[m]);
  }

  lemma DrainTakesAlone(c: Config, s: State, n: nat, lock: Lock)
    requires Inv(c, s) && TodoInv(s.closers) && HeldInv(s.held, s.refunds, s.closers)
    requires n in s.closers && s.closers[n].Draining? && lock in s.closers[n].todo && lock in s.held
    ensures !s.held[lock].Closer?
  {
    hide Inv, HoldsLock;
    assert TodoOk(s.closers[n]) && HeldOk(s.refunds, s.closers, lock, s.held[lock]);
    if s.held[lock].Closer? {
      OneInside(c, s, n, s.held[lock].call);
    }
  }

  /** Nobody but a refund holds a lock that a draining close has yet to take. */
  lemma DrainWaitsForRefunds(c: Config, s: State, n: nat, lock: Lock)
    requires Inv(c, s) && WaitInv(s) && n in s.closers && s.closers[n].Draining? && lock in s.closers[n].todo
             && lock in s.held
    ensures var holder := OwnerCall(s.held[lock]); Unfinished(s, holder) && Hops(s, holder) <= 1
  {
    hide Inv, TodoInv, InsideInv, EventInv, LimiterInv;
    DrainTakesAlone(c, s, n, lock);
    assert HeldOk(s.refunds, s.closers, lock, s.held[lock]);
  }

  lemma WaitsDescend(c: Config, s: State, call: Call, other: Call)
    requires Inv(c, s) && WaitInv(s) && WaitsFor(s, call, other)
    ensures Unfinished(s, other) && Hops(s, other) < Hops(s, call)
  {
    hide Inv, HeldInv, TodoInv, InsideInv, EventInv, LimiterInv, IsUnderLifecycle;
    if WantsLimiter(s, call) && s.limiter.Some? && other == OwnerCall(s.limiter.value) {
      LimiterOwnerMoves(s);
    } else if WantsLifecycle(s, call) && s.lifecycle.Some? && other == OwnerCall(s.lifecycle.value) {
      InsideIsClose(s);
    } else if lock :| WantsLock(s, call, lock) && lock in s.held && other == OwnerCall(s.held[lock]) {
      LockHolderIsClose(s, lock);
      if call.CloseCall? {
        DrainWaitsForRefunds(c, s, call.closer, lock);
      }
    }
  }

  // ---------------------------------------------------------------- nothing is stuck

  lemma Can(c: Config, s: State, a: Action)
    requires CallOf(a).Some? && !GivesUp(a) && Step(c, s, a).Some?
    ensures CanMove(c, s, CallOf(a).value)
  {
  }

  lemma SetupNotStuck(c: Config, s: State, rid: Id)
    requires Unfinished(s, AcquireCall(rid)) && rid in s.issued
    requires s.acquires[rid] in {Registering, LookupWaiting, LookingUp}
    ensures CanMove(c, s, AcquireCall(rid)) || (WantsLimiter(s, AcquireCall(rid)) && s.limiter.Some?)
  {
    hide CanMove, SetAcquire, RefundStep, LifecycleStep;
    match s.acquires[rid]
    case Registering => Can(c, s, OnAcquire(AcquireLooksUp(rid)));
    case LookupWaiting =>
      if s.limiter.None? {
        Can(c, s, OnAcquire(AcquireEntersLimiter(rid)));
      }
    case LookingUp => Can(c, s, OnAcquire(AcquireSetupDone(rid)));
    case _ =>
  }

  lemma AcquireNotStuck(c: Config, s: State, rid: Id)
    requires Inv(c, s) && Unfinished(s, AcquireCall(rid))
    ensures var call := AcquireCall(rid);
            CanMove(c, s, call) || (WantsLimiter(s, call) && s.limiter.Some?) || WantsRefund(s, call)
  {
    hide AcquireOk, RefundInv, RecordInv, Inv, CanMove, RollbackPending, FinalizePending, BeginCleanup, EndCleanup,
      Forget, ZeroUsage, SetAcquire, RefundStep, LifecycleStep;
    OwnRefund(c, s, rid);
    match s.acquires[rid]
    case Acquiring => Can(c, s, OnAcquire(AcquireReplies(rid, Granted)));
    case Replied(_) => Can(c, s, OnAcquire(AcquireSettles(rid)));
    case Delivering => Can(c, s, OnAcquire(AcquireFinalizes(rid)));
    case Emitting => Can(c, s, OnAcquire(AcquireEmits(rid, false)));
    case Refinalizing => Can(c, s, OnAcquire(AcquireRefinalizes(rid)));
    case Choosing => Can(c, s, OnAcquire(AcquireChooses(rid)));
    case AwaitingRefund =>
      if s.refunds[Undelivered(rid)].RefundDone? {
        Can(c, s, OnAcquire(AcquireCollects(rid, false)));
      }
    case Ending(_) => Can(c, s, OnAcquire(AcquireEnds(rid)));
    case UnlimitedEmitting => Can(c, s, OnAcquire(UnlimitedEmits(rid, false)));
    case _ => SetupNotStuck(c, s, rid);
  }

  /** An acquire opens one refund of its own, and waits only for that. */
  lemma OwnRefund(c: Config, s: State, rid: Id)
    requires Inv(c, s) && rid in s.acquires
    ensures rid in s.issued
    ensures s.acquires[rid].Choosing? ==> Undelivered(rid) !in s.refunds
    ensures s.acquires[rid].AwaitingRefund? ==> Undelivered(rid) in s.refunds
  {
    hide Consistent, RecordInv, OrderInv, HolderInv, LockInv, DrainInv, TakenInv, CloserInv, SetterInv, ClosedInv,
      PostingsOk, DebitInv, CreditInv, SettledInv, ClaimInv, DedupInv;
    assert AcquireOk(s.book, s.refunds, s.backends, rid, s.issued[rid], s.acquires[rid]);
    var k := Undelivered(rid);
    assert k in s.refunds ==> RefundOk(s.book, s.acquires, s.issued, k, s.refunds[k]);
  }

  /** The refund waits for its reservation's lock or for the limiter lock, and that is taken. */
  predicate RefundBlocked(s: State, k: RefundKey) {
    || (exists lock :: WantsLock(s, RefundCall(k), lock) && lock in s.held)
    || (WantsLimiter(s, RefundCall(k)) && s.limiter.Some?)
  }

  lemma PreparingNotStuck(c: Config, s: State, k: RefundKey)
    requires Unfinished(s, RefundCall(k)) && IsPreparing(s.refunds[k])
    ensures CanMove(c, s, RefundCall(k)) || RefundBlocked(s, k)
  {
    hide CanMove, ClearIfPending, SetRefund, AcquireStep, LifecycleStep;
    match s.refunds[k]
    case Preparing(_, _) => Can(c, s, OnRefund(RefundPrepareFails(k)));
    case RefreshWaiting(_, _) =>
      if s.limiter.None? {
        Can(c, s, OnRefund(RefundEntersLimiter(k)));
      }
    case Refreshing(_, _) => Can(c, s, OnRefund(RefundRefreshes(k, false)));
    case Refreshed(_, _) => Can(c, s, OnRefund(RefundPrepareFails(k)));
    case _ =>
  }

  lemma RefundNotStuck(c: Config, s: State, k: RefundKey)
    requires Unfinished(s, RefundCall(k))
    ensures CanMove(c, s, RefundCall(k)) || RefundBlocked(s, k)
  {
    hide CanMove, Forget, Authority, ValidActual, LockFor, CountedIn, CountedOut, GateOpen, Remember,
      ClearIfPending, Failed, SetRefund, Commit, MarkFailed, DropReference, AcquireStep, LifecycleStep,
      RefundPrepareFails_, RefundEntersLimiter_, RefundRefreshes_;
    match s.refunds[k]
    case Entering(_) => Can(c, s, OnRefund(RefundEnters(k, false)));
    case RegisteringLock(_) => Can(c, s, OnRefund(RefundRegisters(k)));
    case LockWaiting(_, lock) =>
      if lock in s.held {
        assert WantsLock(s, RefundCall(k), lock);
      } else {
        Can(c, s, OnRefund(RefundLocks(k)));
      }
    case AtGate(_, _) => Can(c, s, OnRefund(RefundGates(k)));
    case Calling(_, _, _) => Can(c, s, OnRefund(RefundReplies(k, false, ReplyError)));
    case Answered(_, _, _, _) => Can(c, s, OnRefund(RefundSettles(k, c.probes)));
    case Handling(_, _, _) => Can(c, s, OnRefund(RefundHandles(k, c.probes)));
    case Notifying(_, _) => Can(c, s, OnRefund(RefundNotifies(k, false)));
    case Leaving(_, _, _) => Can(c, s, OnRefund(RefundLeaves(k)));
    case Unlocking(_, _, _) => Can(c, s, OnRefund(RefundUnlocks(k)));
    case Dropping(_, _, _) => Can(c, s, OnRefund(RefundDrops(k)));
    case _ => PreparingNotStuck(c, s, k);
  }

  lemma CloserNotStuck(c: Config, s: State, n: nat)
    requires Unfinished(s, CloseCall(n))
    ensures var call := CloseCall(n);
            || CanMove(c, s, call)
            || (WantsLifecycle(s, call) && s.lifecycle.Some?)
            || (exists lock :: WantsLock(s, call, lock) && lock in s.held)
            || WantsDrained(s, call)
  {
    hide CanMove, SetCloser, Abandon, BeginClosing, MarkClosed, ClearBook, AcquireStep, RefundStep;
    match s.closers[n]
    case Opening => Can(c, s, OnLifecycle(CloseOpens(n)));
    case DrainWaiting =>
      if s.book.drained {
        Can(c, s, OnLifecycle(CloseSeesDrained(n)));
      }
    case LifecycleWaiting =>
      if s.lifecycle.None? {
        Can(c, s, OnLifecycle(CloseEntersLifecycle(n)));
      }
    case Marking => Can(c, s, OnLifecycle(CloseMarks(n)));
    case Snapshotting => Can(c, s, OnLifecycle(CloseSnapshots(n)));
    case Draining(todo, _) =>
      if todo == {} {
        Can(c, s, OnLifecycle(CloseDrainEnds(n)));
      } else {
        var lock :| lock in todo;
        if lock in s.held {
          assert WantsLock(s, CloseCall(n), lock);
        } else {
          Can(c, s, OnLifecycle(CloseTakes(n, lock)));
        }
      }
    case Releasing(taken, _) =>
      if taken == [] {
        Can(c, s, OnLifecycle(CloseSealsDrain(n)));
      } else {
        Can(c, s, OnLifecycle(CloseReleases(n)));
      }
    case BackendClosing => Can(c, s, OnLifecycle(CloseCallsBackend(n)));
    case BackendClosed => Can(c, s, OnLifecycle(CloseBackendReturns(n, false)));
    case Clearing => Can(c, s, OnLifecycle(CloseClears(n)));
  }

  lemma SetterNotStuck(c: Config, s: State, n: nat)
    requires Unfinished(s, SetMaxCall(n))
    ensures var call := SetMaxCall(n);
            || CanMove(c, s, call)
            || (WantsLifecycle(s, call) && s.lifecycle.Some?)
            || (WantsLimiter(s, call) && s.limiter.Some?)
  {
    hide CanMove, SetSetter, AcquireStep, RefundStep;
    match s.setters[n]
    case SetMaxWaiting =>
      if s.lifecycle.None? {
        Can(c, s, OnLifecycle(SetMaxEntersLifecycle(n)));
      }
    case SetMaxChecking => Can(c, s, OnLifecycle(SetMaxChecks(n)));
    case SetMaxLimiterWaiting =>
      if s.limiter.None? {
        Can(c, s, OnLifecycle(SetMaxEntersLimiter(n)));
      }
    case SetMaxWriting => Can(c, s, OnLifecycle(SetMaxEnds(n, {})));
  }

  /** Whoever wants the drained event waits for an acquire that runs. */
  lemma DrainHasAcquire(c: Config, s: State, call: Call)
    requires Inv(c, s) && EventInv(s.book, s.acquires) && WantsDrained(s, call)
    ensures exists other :: WaitsFor(s, call, other)
  {
    hide Inv;
    CloserIsShutting(c, s, call.closer);
    var rid :| Runs(s.acquires, rid);
    assert WaitsFor(s, call, AcquireCall(rid));
  }

  lemma OwnersAreWaitedFor(s: State, call: Call)
    ensures WantsLimiter(s, call) && s.limiter.Some? ==> exists other :: WaitsFor(s, call, other)
    ensures WantsLifecycle(s, call) && s.lifecycle.Some? ==> exists other :: WaitsFor(s, call, other)
    ensures (exists lock :: WantsLock(s, call, lock) && lock in s.held) ==> exists other :: WaitsFor(s, call, other)
    ensures WantsRefund(s, call) ==> exists other :: WaitsFor(s, call, other)
  {
    hide WantsLimiter, WantsLifecycle, WantsDrained, WantsLock;
    if WantsLimiter(s, call) && s.limiter.Some? {
      assert WaitsFor(s, call, OwnerCall(s.limiter.value));
    }
    if WantsLifecycle(s, call) && s.lifecycle.Some? {
      assert WaitsFor(s, call, OwnerCall(s.lifecycle.value));
    }
    if lock :| WantsLock(s, call, lock) && lock in s.held {
      assert WaitsFor(s, call, OwnerCall(s.held[lock]));
    }
    if WantsRefund(s, call) {
      assert WaitsFor(s, call, RefundCall(Undelivered(call.rid)));
    }
  }

  lemma NotStuck(c: Config, s: State, call: Call)
    requires Inv(c, s) && WaitInv(s) && Unfinished(s, call)
    ensures CanMove(c, s, call) || exists other :: WaitsFor(s, call, other)
  {
    hide Inv, CanMove, HeldInv, TodoInv, InsideInv, LimiterInv, WaitsFor, WantsLimiter, WantsLifecycle, WantsLock,
      WantsDrained, WantsRefund;
    OwnersAreWaitedFor(s, call);
    match call
    case AcquireCall(rid) => AcquireNotStuck(c, s, rid);
    case RefundCall(k) => RefundNotStuck(c, s, k);
    case CloseCall(n) =>
      CloserNotStuck(c, s, n);
      if WantsDrained(s, call) {
        DrainHasAcquire(c, s, call);
      }
    case SetMaxCall(n) => SetterNotStuck(c, s, n);
  }

  // ---------------------------------------------------------------- progress

  /** The call can move or waits; and whatever it waits for is unfinished and can move or waits, and so on, at most
    `hops` times. */
  ghost predicate EveryWaitEnds(c: Config, s: State, call: Call, hops: nat)
    decreases hops
  {
    && (CanMove(c, s, call) || exists other :: WaitsFor(s, call, other))
    && (forall other :: WaitsFor(s, call, other) ==>
          Unfinished(s, other) && hops > 0 && EveryWaitEnds(c, s, other, hops - 1))
  }

  lemma {:induction false} WaitsEnd(c: Config, s: State, call: Call, hops: nat)
    requires Inv(c, s) && WaitInv(s) && Unfinished(s, call) && Hops(s, call) <= hops
    ensures EveryWaitEnds(c, s, call, hops)
    decreases hops
  {
    hide Inv, WaitInv, CanMove, WaitsFor, Unfinished, Hops;
    NotStuck(c, s, call);
    forall other | WaitsFor(s, call, other)
      ensures Unfinished(s, other) && hops > 0 && EveryWaitEnds(c, s, other, hops - 1)
    {
      WaitsDescend(c, s, call, other);
      WaitsEnd(c, s, other, hops - 1);
    }
  }

  /** In every reachable state, every call that has not ended can move, or waits for another; and no chain of waits is
    longer than five, so it ends in a call that can move. */
  lemma EveryCallProgresses(c: Config, actions: seq<Action>, call: Call)
    requires Run(c, Initial, actions).Some? && Unfinished(Run(c, Initial, actions).value, call)
    ensures EveryWaitEnds(c, Run(c, Initial, actions).value, call, 5)
  {
    hide Inv, WaitInv, Run, Unfinished, EveryWaitEnds;
    RunsKeepInvariant(c, actions);
    RunsKeepWaits(c, actions);
    WaitsEnd(c, Run(c, Initial, actions).value, call, 5);
  }

  lemma {:induction false} SomeoneMoves(c: Config, s: State, call: Call, hops: nat)
    requires EveryWaitEnds(c, s, call, hops) && Unfinished(s, call)
    ensures exists mover :: Unfinished(s, mover) && CanMove(c, s, mover)
    decreases hops
  {
    hide CanMove, WaitsFor, Unfinished;
    if !CanMove(c, s, call) {
      var other :| WaitsFor(s, call, other);
      SomeoneMoves(c, s, other, hops - 1);
    }
  }

  /** A reachable state in which no unfinished call can move has no unfinished call. */
  lemma NoDeadlock(c: Config, actions: seq<Action>)
    requires Run(c, Initial, actions).Some?
    ensures var s := Run(c, Initial, actions).value;
            (exists call :: Unfinished(s, call)) ==> exists call :: Unfinished(s, call) && CanMove(c, s, call)
  {
    hide Run, CanMove, Unfinished, EveryWaitEnds;
    var s := Run(c, Initial, actions).value;
    if call :| Unfinished(s, call) {
      EveryCallProgresses(c, actions, call);
      SomeoneMoves(c, s, call, 5);
    }
  }
}
