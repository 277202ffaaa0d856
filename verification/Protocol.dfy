/** The acquire, refund, set-max and close protocol of `SyncRateLimiter`, as a state
  machine whose steps are the sections the program runs under one lock, the atomic
  backend calls, and the waits in between. Any number of calls run at once.

  Acquire calls are named by their fresh reservation id; every other call by a caller
  chosen number that is not in use. A step is an `Action`; `Step` is the state after it,
  or `None` when the action is not possible there.
*/
module Protocol {
  import opened Types
  import opened Bookkeeping

  /** How the backend behaves around failures. Constant over a run.

    `probes`: refund failures can be told apart by reading bucket state back
    (`_refund_backend_state_signature`), as long as a landed refund changes some bucket it
    reads; `raisesAfterWrite`: a refund may raise although its write landed; `markers`: the
    backend keeps acquire markers and checks them; `recordsCleanup`: when a blocking acquire
    raises and the backend's own clean-up refund fails, it records that for the limiter, as
    the built-in backends do and a custom one cannot; `criticalCleanup`: that clean-up may
    fail critically, which is never recorded. */
  datatype Config = Config(
    maxInFlight: nat,
    refundCap: nat,
    markers: bool,
    probes: bool,
    raisesAfterWrite: bool,
    recordsCleanup: bool,
    criticalCleanup: bool)

  /** Every blocking acquire that raises with its debit in place hands that over to the limiter. */
  predicate HandsDebitsOver(c: Config) {
    c.recordsCleanup && !c.criticalCleanup
  }

  // ---------------------------------------------------------------- backend ledger

  /** One backend write. */
  datatype Posting =
    | Debit(rid: Id, reserved: Reservation)
    | Credit(rid: Id, scope: set<BucketId>, reserved: Reservation, actual: Usage)

  datatype Ledger = Empty | Post(last: Posting, earlier: Ledger)

  function Debits(l: Ledger, rid: Id): nat {
    match l
    case Empty => 0
    case Post(p, rest) => Debits(rest, rid) + if p.Debit? && p.rid == rid then 1 else 0
  }

  function Credits(l: Ledger, rid: Id): nat {
    match l
    case Empty => 0
    case Post(p, rest) => Credits(rest, rid) + if p.Credit? && p.rid == rid then 1 else 0
  }

  // ---------------------------------------------------------------- program counters

  /** How the backend's acquire call ended. A call that raised undebited has never debited, or has given everything
    back itself. A blocking call that raised with the debit still in place has recorded that for the limiter
    (`_AcquireRecovery`), or it is unrecorded. */
  datatype AcquireReply = Granted | RaisedUndebited | RaisedDebited | RaisedUnrecorded

  /** `Surfaced`: the reservation is handed over inside the error. `Stranded`: a critical error of its refund is
    raised as it is, and the reservation handed to nobody. `Lost`: rolled back although it was debited. */
  datatype AcquireResult = Delivered | RolledBack | Recorded | RefundedAway | Surfaced | Stranded | Lost

  datatype AcquirePc =
    | Registering
    | LookupWaiting
    | LookingUp
    | Acquiring
    | Replied(reply: AcquireReply)
    | Delivering
    | Emitting
    | Refinalizing
    | Choosing
    | AwaitingRefund
    | Ending(result: AcquireResult)
    | UnlimitedEmitting
    | Finished(result: AcquireResult)

  datatype RefundKey = Public(call: nat) | Undelivered(acquire: Id)

  datatype Request = Request(rid: Id, reserved: Reservation, actual: Usage, allowClosed: bool)

  datatype RefundReply = ReplyOk | ReplyDuplicate | ReplyUnknown(forget: bool) | ReplyError | ReplyCritical

  datatype RefundResult = Refunded | RefundRaised

  datatype RefundPc =
    | Entering(q: Request)
    | RegisteringLock(q: Request)
    | LockWaiting(q: Request, lock: Lock)
    | AtGate(q: Request, lock: Lock)
    | Preparing(q: Request, lock: Lock)
    | RefreshWaiting(q: Request, lock: Lock)
    | Refreshing(q: Request, lock: Lock)
    | Refreshed(q: Request, lock: Lock)
    | Calling(q: Request, lock: Lock, scope: set<BucketId>)
    | Answered(q: Request, lock: Lock, landed: bool, reply: RefundReply)
    | Handling(q: Request, lock: Lock, landed: bool)
    | Notifying(q: Request, lock: Lock)
    | Leaving(q: Request, lock: Lock, result: RefundResult)
    | Unlocking(q: Request, lock: Lock, result: RefundResult)
    | Dropping(q: Request, lock: Lock, result: RefundResult)
    | RefundDone(q: Request, result: RefundResult)

  datatype ClosePc =
    | Opening
    | DrainWaiting
    | LifecycleWaiting
    | Marking
    | Snapshotting
    | Draining(todo: set<Lock>, taken: seq<Lock>)
    | Releasing(taken: seq<Lock>, drained: bool)
    | BackendClosing
    | BackendClosed
    | Clearing
    | CloseDone

  datatype SetMaxPc = SetMaxWaiting | SetMaxChecking | SetMaxLimiterWaiting | SetMaxWriting | SetMaxDone

  /** Who holds a lock. */
  datatype Owner = Acquirer(rid: Id) | Refunder(key: RefundKey) | Closer(call: nat) | Setter(call: nat)

  datatype State = State(
    book: Book,
    lru: Lru,
    inProgress: set<Id>,
    locks: map<Id, Lock>,
    refcounts: map<Id, nat>,
    nextLock: Lock,
    held: map<Lock, Owner>,
    lifecycle: Option<Owner>,
    limiter: Option<Owner>,
    backends: set<Family>,
    acquires: map<Id, AcquirePc>,
    refunds: map<RefundKey, RefundPc>,
    closers: map<nat, ClosePc>,
    setters: map<nat, SetMaxPc>,
    cleared: bool,
    // ghosts: what was asked for, what the backend did, how often it was closed
    issued: map<Id, Reservation>,
    order: seq<Id>,
    ledger: Ledger,
    backendCloses: nat)

  const Initial := State(NewBook, [], {}, map[], map[], 0, map[], None, None, {},
                         map[], map[], map[], map[], false, map[], [], Empty, 0)

  // ---------------------------------------------------------------- actions

  datatype AcquireAction =
    | AcquireBegin(rid: Id, r: Reservation)
    | AcquireSetupFails(rid: Id)
    | AcquireLooksUp(rid: Id)
    | AcquireEntersLimiter(rid: Id)
    | AcquireInterrupted(rid: Id)
    | AcquireSetupDone(rid: Id)
    | AcquireReplies(rid: Id, reply: AcquireReply)
    | AcquireSettles(rid: Id)
    | AcquireFinalizes(rid: Id)
    | AcquireEmits(rid: Id, raises: bool)
    | AcquireRefinalizes(rid: Id)
    | AcquireChooses(rid: Id)
    | AcquireCollects(rid: Id, critical: bool)
    | AcquireEnds(rid: Id)
    | UnlimitedBegin(rid: Id, r: Reservation)
    | UnlimitedEmits(rid: Id, raises: bool)

  datatype RefundAction =
    | RefundStarts(call: nat, rid: Id, claim: Reservation, actual: Usage)
    | RefundEnters(key: RefundKey, expired: bool)
    | RefundRegisters(key: RefundKey)
    | RefundLocks(key: RefundKey)
    | RefundInterrupted(key: RefundKey)
    | RefundGates(key: RefundKey)
    | RefundLooksUp(key: RefundKey)
    | RefundEntersLimiter(key: RefundKey)
    | RefundRefreshes(key: RefundKey, installs: bool)
    | RefundPrepareFails(key: RefundKey)
    | RefundCalls(key: RefundKey, scope: set<BucketId>)
    | RefundReplies(key: RefundKey, landed: bool, answer: RefundReply)
    | RefundSettles(key: RefundKey, changed: bool)
    | RefundHandles(key: RefundKey, changed: bool)
    | RefundNotifies(key: RefundKey, raises: bool)
    | RefundLeaves(key: RefundKey)
    | RefundUnlocks(key: RefundKey)
    | RefundDrops(key: RefundKey)

  datatype LifecycleAction =
    | CloseStarts(call: nat)
    | CloseOpens(call: nat)
    | CloseSeesDrained(call: nat)
    | CloseTimesOut(call: nat)
    | CloseEntersLifecycle(call: nat)
    | CloseMarks(call: nat)
    | CloseSnapshots(call: nat)
    | CloseTakes(call: nat, lock: Lock)
    | CloseDrainFails(call: nat)
    | CloseDrainEnds(call: nat)
    | CloseReleases(call: nat)
    | CloseSealsDrain(call: nat)
    | CloseCallsBackend(call: nat)
    | CloseBackendReturns(call: nat, raises: bool)
    | CloseClears(call: nat)
    | SetMaxStarts(call: nat)
    | SetMaxEntersLifecycle(call: nat)
    | SetMaxChecks(call: nat)
    | SetMaxEntersLimiter(call: nat)
    | SetMaxEnds(call: nat, installed: set<Family>)
    | SetMaxInterrupted(call: nat)
    | EvictFamilies(families: set<Family>)

  datatype Action =
    | OnAcquire(acquire: AcquireAction)
    | OnRefund(refund: RefundAction)
    | OnLifecycle(lifecycle: LifecycleAction)

  /** A step of an acquire call. */
  function AcquireStep(c: Config, s: State, a: AcquireAction): Option<State> {
    match a
    case AcquireBegin(rid, r) => AcquireBegin_(c, s, rid, r)
    case AcquireSetupFails(rid) => AcquireSetupFails_(s, rid)
    case AcquireLooksUp(rid) => AcquireLooksUp_(s, rid)
    case AcquireEntersLimiter(rid) => AcquireEntersLimiter_(s, rid)
    case AcquireInterrupted(rid) => AcquireInterrupted_(s, rid)
    case AcquireSetupDone(rid) => AcquireSetupDone_(s, rid)
    case AcquireReplies(rid, reply) => AcquireReplies_(c, s, rid, reply)
    case AcquireSettles(rid) => AcquireSettles_(s, rid)
    case AcquireFinalizes(rid) => AcquireFinalizes_(s, rid)
    case AcquireEmits(rid, raises) => AcquireEmits_(s, rid, raises)
    case AcquireRefinalizes(rid) => AcquireRefinalizes_(s, rid)
    case AcquireChooses(rid) => AcquireChooses_(s, rid)
    case AcquireCollects(rid, critical) => AcquireCollects_(s, rid, critical)
    case AcquireEnds(rid) => AcquireEnds_(s, rid)
    case UnlimitedBegin(rid, r) => UnlimitedBegin_(c, s, rid, r)
    case UnlimitedEmits(rid, raises) => UnlimitedEmits_(s, rid, raises)
  }

  /** A step of a refund call. */
  function RefundStep(c: Config, s: State, a: RefundAction): Option<State> {
    match a
    case RefundStarts(call, rid, claim, actual) => RefundStarts_(s, call, rid, claim, actual)
    case RefundEnters(k, expired) => RefundEnters_(s, k, expired)
    case RefundRegisters(k) => RefundRegisters_(s, k)
    case RefundLocks(k) => RefundLocks_(s, k)
    case RefundInterrupted(k) => RefundInterrupted_(s, k)
    case RefundGates(k) => RefundGates_(c, s, k)
    case RefundLooksUp(k) => RefundLooksUp_(s, k)
    case RefundEntersLimiter(k) => RefundEntersLimiter_(s, k)
    case RefundRefreshes(k, installs) => RefundRefreshes_(s, k, installs)
    case RefundPrepareFails(k) => RefundPrepareFails_(s, k)
    case RefundCalls(k, scope) => RefundCalls_(c, s, k, scope)
    case RefundReplies(k, landed, reply) => RefundReplies_(c, s, k, landed, reply)
    case RefundSettles(k, changed) => RefundSettles_(c, s, k, changed)
    case RefundHandles(k, changed) => RefundHandles_(c, s, k, changed)
    case RefundNotifies(k, raises) => RefundNotifies_(s, k, raises)
    case RefundLeaves(k) => RefundLeaves_(s, k)
    case RefundUnlocks(k) => RefundUnlocks_(s, k)
    case RefundDrops(k) => RefundDrops_(s, k)
  }

  /** A step of close, of `set_max_capacity`, or of eviction. */
  function LifecycleStep(c: Config, s: State, a: LifecycleAction): Option<State> {
    match a
    case CloseStarts(t) => CloseStarts_(s, t)
    case CloseOpens(t) => CloseOpens_(s, t)
    case CloseSeesDrained(t) => CloseSeesDrained_(s, t)
    case CloseTimesOut(t) => CloseTimesOut_(s, t)
    case CloseEntersLifecycle(t) => CloseEntersLifecycle_(s, t)
    case CloseMarks(t) => CloseMarks_(s, t)
    case CloseSnapshots(t) => CloseSnapshots_(s, t)
    case CloseTakes(t, lock) => CloseTakes_(s, t, lock)
    case CloseDrainFails(t) => CloseDrainFails_(s, t)
    case CloseDrainEnds(t) => CloseDrainEnds_(s, t)
    case CloseReleases(t) => CloseReleases_(s, t)
    case CloseSealsDrain(t) => CloseSealsDrain_(s, t)
    case CloseCallsBackend(t) => CloseCallsBackend_(s, t)
    case CloseBackendReturns(t, raises) => CloseBackendReturns_(s, t, raises)
    case CloseClears(t) => CloseClears_(s, t)
    case SetMaxStarts(t) => SetMaxStarts_(s, t)
    case SetMaxEntersLifecycle(t) => SetMaxEntersLifecycle_(s, t)
    case SetMaxChecks(t) => SetMaxChecks_(s, t)
    case SetMaxEntersLimiter(t) => SetMaxEntersLimiter_(s, t)
    case SetMaxEnds(t, installed) => SetMaxEnds_(s, t, installed)
    case SetMaxInterrupted(t) => SetMaxInterrupted_(s, t)
    case EvictFamilies(fs) => EvictFamilies_(s, fs)
  }

  function Step(c: Config, s: State, a: Action): Option<State> {
    match a
    case OnAcquire(x) => AcquireStep(c, s, x)
    case OnRefund(x) => RefundStep(c, s, x)
    case OnLifecycle(x) => LifecycleStep(c, s, x)
  }

  /** The state after a whole run, or `None` when some action was not possible. */
  function Run(c: Config, s: State, actions: seq<Action>): Option<State>
    decreases |actions|
  {
    if actions == [] then Some(s)
    else match Run(c, s, actions[..|actions| - 1])
      case None => None
      case Some(t) => Step(c, t, actions[|actions| - 1])
  }

  // ---------------------------------------------------------------- acquire steps

  predicate AcquireAt(s: State, rid: Id, pc: AcquirePc) {
    rid in s.acquires && s.acquires[rid] == pc
  }

  function SetAcquire(s: State, rid: Id, pc: AcquirePc): State {
    s.(acquires := s.acquires[rid := pc])
  }

  /** Ids are fresh: never issued before, nor guessed by an earlier refund. */
  predicate Known(s: State, rid: Id) {
    rid in s.issued || exists k :: k in s.refunds && s.refunds[k].q.rid == rid
  }

  /** `_begin_pending_acquire`; a refusal ends the call with nothing recorded. */
  function AcquireBegin_(c: Config, s: State, rid: Id, r: Reservation): Option<State> {
    if Known(s, rid) || r.unlimited || r.usage.Keys != Metrics(r.buckets)
       || (exists m :: m in r.usage && r.usage[m] < 0.0) then None
    else
      var (b, verdict) := BeginPending(c.maxInFlight, s.book, rid, r);
      if verdict.Admitted? then
        Some(s.(book := b, acquires := s.acquires[rid := Registering],
                issued := s.issued[rid := r], order := s.order + [rid]))
      else Some(s.(book := b))
  }

  /** Registration or `_get_backend` raises: `_rollback_pending_acquire`. */
  function AcquireSetupFails_(s: State, rid: Id): Option<State> {
    if AcquireAt(s, rid, Registering) then
      Some(SetAcquire(s.(book := RollbackPending(s.book, rid)), rid, Finished(RolledBack)))
    else if AcquireAt(s, rid, LookingUp) then
      Some(SetAcquire(s.(book := RollbackPending(s.book, rid), limiter := None), rid, Finished(RolledBack)))
    else None
  }

  /** The fast path of `_get_backend` does not apply: the limiter lock is needed. */
  function AcquireLooksUp_(s: State, rid: Id): Option<State> {
    if !AcquireAt(s, rid, Registering) then None else Some(SetAcquire(s, rid, LookupWaiting))
  }

  function AcquireEntersLimiter_(s: State, rid: Id): Option<State> {
    if !AcquireAt(s, rid, LookupWaiting) || s.limiter.Some? then None
    else Some(SetAcquire(s.(limiter := Some(Acquirer(rid))), rid, LookingUp))
  }

  /** Waiting for the limiter lock is interrupted. */
  function AcquireInterrupted_(s: State, rid: Id): Option<State> {
    if !AcquireAt(s, rid, LookupWaiting) then None
    else Some(SetAcquire(s.(book := RollbackPending(s.book, rid)), rid, Finished(RolledBack)))
  }

  /** `_get_backend` has found the family's backend, or installed one under the limiter lock. */
  function AcquireSetupDone_(s: State, rid: Id): Option<State> {
    if rid !in s.issued then None
    else if AcquireAt(s, rid, Registering) && s.issued[rid].family in s.backends then
      Some(SetAcquire(s, rid, Acquiring))
    else if AcquireAt(s, rid, LookingUp) then
      Some(SetAcquire(s.(backends := s.backends + {s.issued[rid].family}, limiter := None), rid, Acquiring))
    else None
  }

  /** The backend's atomic acquire or consume, and how it ended. */
  function AcquireReplies_(c: Config, s: State, rid: Id, reply: AcquireReply): Option<State> {
    if !AcquireAt(s, rid, Acquiring) || rid !in s.issued
       || (s.issued[rid].blocking && reply.RaisedDebited? && !c.recordsCleanup)
       || (reply.RaisedUnrecorded? && (HandsDebitsOver(c) || !s.issued[rid].blocking)) then None
    else if reply.RaisedUndebited? then Some(SetAcquire(s, rid, Replied(reply)))
    else Some(SetAcquire(s.(ledger := Post(Debit(rid, s.issued[rid]), s.ledger)), rid, Replied(reply)))
  }

  function AcquireSettles_(s: State, rid: Id): Option<State> {
    if rid !in s.acquires || rid !in s.issued || !s.acquires[rid].Replied? then None
    else match s.acquires[rid].reply
      case Granted =>
        Some(SetAcquire(s.(book := BeginCleanup(s.book, rid)), rid, Delivering))
      case RaisedUndebited =>
        Some(SetAcquire(s.(book := RollbackPending(s.book, rid)), rid, Finished(RolledBack)))
      case RaisedDebited =>
        if s.issued[rid].blocking then
          Some(SetAcquire(s.(book := FinalizePending(s.book, rid, s.issued[rid])), rid, Finished(Surfaced)))
        else
          Some(SetAcquire(s.(book := RollbackPending(s.book, rid)), rid, Finished(Recorded)))
      case RaisedUnrecorded =>
        Some(SetAcquire(s.(book := RollbackPending(s.book, rid)), rid, Finished(Lost)))
  }

  function AcquireFinalizes_(s: State, rid: Id): Option<State> {
    if !AcquireAt(s, rid, Delivering) || rid !in s.issued then None
    else Some(SetAcquire(s.(book := FinalizePending(s.book, rid, s.issued[rid])), rid, Emitting))
  }

  /** The lifecycle callback; when it raises, a blocking acquire is refunded, a recorded one forgotten. */
  function AcquireEmits_(s: State, rid: Id, raises: bool): Option<State> {
    if !AcquireAt(s, rid, Emitting) || rid !in s.issued then None
    else if !raises then Some(SetAcquire(s, rid, Ending(Delivered)))
    else if s.issued[rid].blocking then Some(SetAcquire(s, rid, Refinalizing))
    else Some(SetAcquire(s.(book := Forget(s.book, rid)), rid, Ending(Recorded)))
  }

  function AcquireRefinalizes_(s: State, rid: Id): Option<State> {
    if !AcquireAt(s, rid, Refinalizing) || rid !in s.issued then None
    else Some(SetAcquire(s.(book := FinalizePending(s.book, rid, s.issued[rid])), rid, Choosing))
  }

  function ZeroUsage(u: Usage): Usage {
    map m | m in u :: 0.0
  }

  /** `_finalize_and_refund_undelivered_acquire`: the closed flag picks the refund entry point. */
  function AcquireChooses_(s: State, rid: Id): Option<State> {
    if !AcquireAt(s, rid, Choosing) || rid !in s.issued || Undelivered(rid) in s.refunds then None
    else
      var q := Request(rid, s.issued[rid], ZeroUsage(s.issued[rid].usage), s.book.closed);
      Some(SetAcquire(s.(refunds := s.refunds[Undelivered(rid) :=
        if s.book.closed then RegisteringLock(q) else Entering(q)]), rid, AwaitingRefund))
  }

  /** The refund of an undelivered reservation is over; `critical`: its error, if any, is re-raised as it is. */
  function AcquireCollects_(s: State, rid: Id, critical: bool): Option<State> {
    if !AcquireAt(s, rid, AwaitingRefund) || Undelivered(rid) !in s.refunds
       || !s.refunds[Undelivered(rid)].RefundDone? then None
    else Some(SetAcquire(s, rid, Ending(
      if s.refunds[Undelivered(rid)].result.Refunded? then RefundedAway else if critical then Stranded else Surfaced)))
  }

  function AcquireEnds_(s: State, rid: Id): Option<State> {
    if rid !in s.acquires || !s.acquires[rid].Ending? then None
    else Some(SetAcquire(s.(book := EndCleanup(s.book, rid)), rid, Finished(s.acquires[rid].result)))
  }

  function UnlimitedBegin_(c: Config, s: State, rid: Id, r: Reservation): Option<State> {
    if Known(s, rid) || !r.unlimited || r.usage != map[] || r.buckets != {} then None
    else
      var (b, verdict) := RememberInFlight(c.maxInFlight, s.book, rid, r);
      if verdict.Admitted? then
        Some(s.(book := b, acquires := s.acquires[rid := UnlimitedEmitting],
                issued := s.issued[rid := r], order := s.order + [rid]))
      else Some(s)
  }

  function UnlimitedEmits_(s: State, rid: Id, raises: bool): Option<State> {
    if !AcquireAt(s, rid, UnlimitedEmitting) then None
    else if raises then Some(SetAcquire(s.(book := Forget(s.book, rid)), rid, Finished(RolledBack)))
    else Some(SetAcquire(s, rid, Finished(Delivered)))
  }

  // ---------------------------------------------------------------- refund steps

  function SetRefund(s: State, k: RefundKey, pc: RefundPc): State {
    s.(refunds := s.refunds[k := pc])
  }

  /** A caller can refund a reservation it was handed, or an id this limiter never issued. */
  predicate Refundable(s: State, rid: Id) {
    rid in s.issued ==>
      rid in s.acquires && s.acquires[rid].Finished? && s.acquires[rid].result in {Delivered, Surfaced}
  }

  /** `refund_capacity` up to its first look at the reservation. */
  function RefundStarts_(s: State, call: nat, rid: Id, claim: Reservation, actual: Usage): Option<State> {
    if Public(call) in s.refunds || !Refundable(s, rid) then None
    else
      Some(SetRefund(s, Public(call), Entering(Request(rid, claim, actual, false))))
  }

  function ValidActual(reserved: Reservation, actual: Usage): bool {
    actual.Keys == reserved.usage.Keys && forall m :: m in actual ==> actual[m] >= 0.0
  }

  function RefundEnters_(s: State, k: RefundKey, expired: bool): Option<State> {
    if k !in s.refunds || !s.refunds[k].Entering? then None
    else
      var q := s.refunds[k].q;
      var q' := q.(reserved := Authority(s.book, q.rid, q.reserved));
      if s.book.closed then Some(SetRefund(s, k, RefundDone(q, RefundRaised)))
      else if q'.reserved.unlimited then
        Some(SetRefund(s.(book := Forget(s.book, q.rid)), k, RefundDone(q', Refunded)))
      else if expired then
        Some(SetRefund(s.(book := Forget(s.book, q.rid)), k, RefundDone(q', RefundRaised)))
      else if !ValidActual(q'.reserved, q'.actual) then Some(SetRefund(s, k, RefundDone(q', RefundRaised)))
      else Some(SetRefund(s, k, RegisteringLock(q')))
  }

  /** The first half of `_acquire_reservation_refund_lock`. */
  function RefundRegisters_(s: State, k: RefundKey): Option<State> {
    if k !in s.refunds || !s.refunds[k].RegisteringLock? then None
    else
      var q := s.refunds[k].q;
      var lock := LockFor(s.locks, s.nextLock, q.rid);
      Some(SetRefund(s.(locks := s.locks[q.rid := lock],
                        refcounts := CountedIn(s.locks, s.refcounts, q.rid),
                        nextLock := if q.rid in s.locks then s.nextLock else s.nextLock + 1),
                     k, LockWaiting(q, lock)))
  }

  function RefundLocks_(s: State, k: RefundKey): Option<State> {
    if k !in s.refunds || !s.refunds[k].LockWaiting? || s.refunds[k].lock in s.held then None
    else
      var at := s.refunds[k];
      Some(SetRefund(s.(held := s.held[at.lock := Refunder(k)]), k, AtGate(at.q, at.lock)))
  }

  /** `_release_reservation_refund_lock_reference`. */
  function DropReference(s: State, rid: Id, lock: Lock): State {
    var (locks, counts) := CountedOut(s.locks, s.refcounts, rid, lock);
    s.(locks := locks, refcounts := counts)
  }

  /** Waiting for the reservation's lock, or for the limiter lock, is interrupted. */
  function RefundInterrupted_(s: State, k: RefundKey): Option<State> {
    if k !in s.refunds then None
    else
      var at := s.refunds[k];
      if at.LockWaiting? then
        Some(SetRefund(DropReference(s, at.q.rid, at.lock), k, RefundDone(at.q, RefundRaised)))
      else if at.RefreshWaiting? then
        Some(SetRefund(s.(lru := ClearIfPending(s.lru, at.q.rid)), k, Leaving(at.q, at.lock, RefundRaised)))
      else None
  }

  /** The closed, duplicate and in-progress gate. */
  function RefundGates_(c: Config, s: State, k: RefundKey): Option<State> {
    if k !in s.refunds || !s.refunds[k].AtGate? then None
    else
      var at := s.refunds[k];
      if !GateOpen(s.book, s.lru, s.inProgress, at.q.rid, at.q.allowClosed)
      then Some(SetRefund(s, k, Unlocking(at.q, at.lock, RefundRaised)))
      else Some(SetRefund(s.(lru := Remember(c.refundCap, s.lru, at.q.rid, PendingRefund),
                             inProgress := s.inProgress + {at.q.rid}),
                          k, Preparing(at.q, at.lock)))
  }

  /** `_refresh_backend_for_reservation` needs the limiter lock. */
  function RefundLooksUp_(s: State, k: RefundKey): Option<State> {
    if k !in s.refunds || !s.refunds[k].Preparing? then None
    else Some(SetRefund(s, k, RefreshWaiting(s.refunds[k].q, s.refunds[k].lock)))
  }

  function RefundEntersLimiter_(s: State, k: RefundKey): Option<State> {
    if k !in s.refunds || !s.refunds[k].RefreshWaiting? || s.limiter.Some? then None
    else Some(SetRefund(s.(limiter := Some(Refunder(k))), k, Refreshing(s.refunds[k].q, s.refunds[k].lock)))
  }

  /** The lookup has found or installed a backend, or its error has become a warning. */
  function RefundRefreshes_(s: State, k: RefundKey, installs: bool): Option<State> {
    if k !in s.refunds || !s.refunds[k].Refreshing? then None
    else
      var at := s.refunds[k];
      var added := if installs then {at.q.reserved.family} else {};
      Some(SetRefund(s.(backends := s.backends + added, limiter := None), k, Refreshed(at.q, at.lock)))
  }

  /** Any failure before the backend call: `_clear_refund_state_if_pending`. */
  function RefundPrepareFails_(s: State, k: RefundKey): Option<State> {
    if k !in s.refunds then None
    else
      var at := s.refunds[k];
      if at.Preparing? || at.Refreshed? then
        Some(SetRefund(s.(lru := ClearIfPending(s.lru, at.q.rid)), k, Leaving(at.q, at.lock, RefundRaised)))
      else if at.Refreshing? then
        Some(SetRefund(s.(lru := ClearIfPending(s.lru, at.q.rid), limiter := None), k,
                       Leaving(at.q, at.lock, RefundRaised)))
      else None
  }

  /** The in-flight check passes and the backend call starts. `scope` is what the projection kept. */
  function RefundCalls_(c: Config, s: State, k: RefundKey, scope: set<BucketId>): Option<State> {
    if k !in s.refunds || !(s.refunds[k].Preparing? || s.refunds[k].Refreshed?) then None
    else
      var at := s.refunds[k];
      if at.q.reserved.family !in s.backends
         || (at.q.rid !in s.book.inFlight && !c.markers)
         || !(scope <= at.q.reserved.buckets) then None
      else Some(SetRefund(s, k, Calling(at.q, at.lock, scope)))
  }

  /** The backend's atomic refund. With markers it lands only on a live marker with the marked value. */
  function RefundReplies_(c: Config, s: State, k: RefundKey, landed: bool, reply: RefundReply): Option<State> {
    if k !in s.refunds || !s.refunds[k].Calling? then None
    else
      var at := s.refunds[k];
      if (reply.ReplyOk? && !landed)
         || (landed && !reply.ReplyOk? && !c.raisesAfterWrite)
         || (landed && c.markers &&
             !(Debits(s.ledger, at.q.rid) > 0 && Credits(s.ledger, at.q.rid) == 0
               && at.q.rid in s.issued && s.issued[at.q.rid] == at.q.reserved)) then None
      else
        var s' := if landed
                  then s.(ledger := Post(Credit(at.q.rid, at.scope, at.q.reserved, at.q.actual), s.ledger))
                  else s;
        Some(SetRefund(s', k, Answered(at.q, at.lock, landed, reply)))
  }

  /** `_commit_refund_state`. */
  function Commit(c: Config, s: State, rid: Id): State {
    s.(lru := Remember(c.refundCap, s.lru, rid, CommittedRefund), book := Forget(s.book, rid))
  }

  function MarkFailed(c: Config, s: State, rid: Id): State {
    s.(lru := Failed(c.refundCap, s.lru, rid))
  }

  /** A probing backend never misses a landed write, though unrelated traffic may look like one. (A refund that is
    in no bucket's scope, or meets only full buckets at one clock reading, changes nothing that could be read.) */
  predicate ProbeMayReport(c: Config, landed: bool, changed: bool) {
    if c.probes then landed ==> changed else !changed
  }

  /** The inner exception handlers, or the success path up to the commit. */
  function RefundSettles_(c: Config, s: State, k: RefundKey, changed: bool): Option<State> {
    if k !in s.refunds || !s.refunds[k].Answered? || !ProbeMayReport(c, s.refunds[k].landed, changed) then None
    else
      var at := s.refunds[k];
      var rid := at.q.rid;
      match at.reply
      case ReplyOk => Some(SetRefund(Commit(c, s, rid), k, Notifying(at.q, at.lock)))
      case ReplyDuplicate => Some(SetRefund(Commit(c, s, rid), k, Handling(at.q, at.lock, at.landed)))
      case ReplyUnknown(forget) =>
        Some(SetRefund(s.(lru := ClearIfPending(s.lru, rid),
                          book := if forget then Forget(s.book, rid) else s.book),
                       k, Handling(at.q, at.lock, at.landed)))
      case ReplyError =>
        Some(SetRefund(if changed then Commit(c, s, rid) else s, k, Handling(at.q, at.lock, at.landed)))
      case ReplyCritical => Some(SetRefund(s, k, Handling(at.q, at.lock, at.landed)))
  }

  /** The outer handler: commit when the probe says the write landed, else mark the refund failed. */
  function RefundHandles_(c: Config, s: State, k: RefundKey, changed: bool): Option<State> {
    if k !in s.refunds || !s.refunds[k].Handling? || !ProbeMayReport(c, s.refunds[k].landed, changed) then None
    else
      var at := s.refunds[k];
      Some(SetRefund(if changed then Commit(c, s, at.q.rid) else MarkFailed(c, s, at.q.rid),
                     k, Leaving(at.q, at.lock, RefundRaised)))
  }

  function RefundNotifies_(s: State, k: RefundKey, raises: bool): Option<State> {
    if k !in s.refunds || !s.refunds[k].Notifying? then None
    else
      var at := s.refunds[k];
      Some(SetRefund(s, k, if raises then Handling(at.q, at.lock, true) else Leaving(at.q, at.lock, Refunded)))
  }

  function RefundLeaves_(s: State, k: RefundKey): Option<State> {
    if k !in s.refunds || !s.refunds[k].Leaving? then None
    else
      var at := s.refunds[k];
      Some(SetRefund(s.(inProgress := s.inProgress - {at.q.rid}), k, Unlocking(at.q, at.lock, at.result)))
  }

  function RefundUnlocks_(s: State, k: RefundKey): Option<State> {
    if k !in s.refunds || !s.refunds[k].Unlocking? then None
    else
      var at := s.refunds[k];
      Some(SetRefund(s.(held := s.held - {at.lock}), k, Dropping(at.q, at.lock, at.result)))
  }

  function RefundDrops_(s: State, k: RefundKey): Option<State> {
    if k !in s.refunds || !s.refunds[k].Dropping? then None
    else
      var at := s.refunds[k];
      Some(SetRefund(DropReference(s, at.q.rid, at.lock), k, RefundDone(at.q, at.result)))
  }

  // ---------------------------------------------------------------- close steps

  predicate CloserAt(s: State, t: nat, pc: ClosePc) {
    t in s.closers && s.closers[t] == pc
  }

  function SetCloser(s: State, t: nat, pc: ClosePc): State {
    s.(closers := s.closers[t := pc])
  }

  /** `close()` raises: the flags are made terminal. */
  function Abandon(s: State, t: nat): State {
    SetCloser(s.(book := MarkClosed(s.book)), t, CloseDone)
  }

  function CloseStarts_(s: State, t: nat): Option<State> {
    if t in s.closers then None else Some(SetCloser(s, t, Opening))
  }

  function CloseOpens_(s: State, t: nat): Option<State> {
    if !CloserAt(s, t, Opening) then None
    else if s.book.closed && s.book.closeDrained then Some(SetCloser(s, t, CloseDone))
    else Some(SetCloser(s.(book := BeginClosing(s.book)), t, DrainWaiting))
  }

  function CloseSeesDrained_(s: State, t: nat): Option<State> {
    if !CloserAt(s, t, DrainWaiting) || !s.book.drained then None
    else Some(SetCloser(s, t, LifecycleWaiting))
  }

  /** `_terminalize_close_after_drain_timeout`, or an interrupted wait for the lifecycle lock. */
  function CloseTimesOut_(s: State, t: nat): Option<State> {
    if !CloserAt(s, t, DrainWaiting) && !CloserAt(s, t, LifecycleWaiting) then None else Some(Abandon(s, t))
  }

  function CloseEntersLifecycle_(s: State, t: nat): Option<State> {
    if !CloserAt(s, t, LifecycleWaiting) || s.lifecycle.Some? then None
    else Some(SetCloser(s.(lifecycle := Some(Closer(t))), t, Marking))
  }

  function CloseMarks_(s: State, t: nat): Option<State> {
    if !CloserAt(s, t, Marking) then None
    else if s.book.closeDrained then Some(SetCloser(s.(lifecycle := None), t, Clearing))
    else Some(SetCloser(s.(book := MarkClosed(s.book)), t, Snapshotting))
  }

  /** `_wait_for_refund_lock_drain` copies the registered locks. */
  function CloseSnapshots_(s: State, t: nat): Option<State> {
    if !CloserAt(s, t, Snapshotting) then None
    else Some(SetCloser(s, t, Draining(s.locks.Values, [])))
  }

  function CloseTakes_(s: State, t: nat, lock: Lock): Option<State> {
    if t !in s.closers || !s.closers[t].Draining? || lock !in s.closers[t].todo || lock in s.held then None
    else
      var at := s.closers[t];
      Some(SetCloser(s.(held := s.held[lock := Closer(t)]), t,
                     Draining(at.todo - {lock}, at.taken + [lock])))
  }

  /** The drain times out: the locks already taken are released and the close fails. */
  function CloseDrainFails_(s: State, t: nat): Option<State> {
    if t !in s.closers || !s.closers[t].Draining? then None
    else Some(SetCloser(s, t, Releasing(s.closers[t].taken, false)))
  }

  function CloseDrainEnds_(s: State, t: nat): Option<State> {
    if t !in s.closers || !s.closers[t].Draining? || s.closers[t].todo != {} then None
    else Some(SetCloser(s, t, Releasing(s.closers[t].taken, true)))
  }

  function CloseReleases_(s: State, t: nat): Option<State> {
    if t !in s.closers || !s.closers[t].Releasing? || s.closers[t].taken == [] then None
    else
      var at := s.closers[t];
      var last := |at.taken| - 1;
      Some(SetCloser(s.(held := s.held - {at.taken[last]}), t, Releasing(at.taken[..last], at.drained)))
  }

  function CloseSealsDrain_(s: State, t: nat): Option<State> {
    if t !in s.closers || !s.closers[t].Releasing? || s.closers[t].taken != [] then None
    else if s.closers[t].drained then
      Some(SetCloser(s.(book := s.book.(closeDrained := true)), t, BackendClosing))
    else Some(Abandon(s.(lifecycle := None), t))
  }

  function CloseCallsBackend_(s: State, t: nat): Option<State> {
    if !CloserAt(s, t, BackendClosing) then None
    else Some(SetCloser(s.(backendCloses := s.backendCloses + 1), t, BackendClosed))
  }

  function CloseBackendReturns_(s: State, t: nat, raises: bool): Option<State> {
    if !CloserAt(s, t, BackendClosed) then None
    else if raises then Some(Abandon(s.(lifecycle := None), t))
    else Some(SetCloser(s.(lifecycle := None), t, Clearing))
  }

  function CloseClears_(s: State, t: nat): Option<State> {
    if !CloserAt(s, t, Clearing) then None
    else Some(SetCloser(s.(book := ClearBook(s.book), lru := [], inProgress := {}, locks := map[],
                           refcounts := map[], backends := {}, cleared := true), t, CloseDone))
  }

  // ---------------------------------------------------------------- set_max_capacity, eviction

  predicate SetterAt(s: State, t: nat, pc: SetMaxPc) {
    t in s.setters && s.setters[t] == pc
  }

  function SetSetter(s: State, t: nat, pc: SetMaxPc): State {
    s.(setters := s.setters[t := pc])
  }

  function SetMaxStarts_(s: State, t: nat): Option<State> {
    if t in s.setters || s.book.closed || s.book.closing then None
    else Some(SetSetter(s, t, SetMaxWaiting))
  }

  function SetMaxEntersLifecycle_(s: State, t: nat): Option<State> {
    if !SetterAt(s, t, SetMaxWaiting) || s.lifecycle.Some? then None
    else Some(SetSetter(s.(lifecycle := Some(Setter(t))), t, SetMaxChecking))
  }

  /** The closed check is repeated under the lifecycle lock. */
  function SetMaxChecks_(s: State, t: nat): Option<State> {
    if !SetterAt(s, t, SetMaxChecking) then None
    else if s.book.closed || s.book.closing then Some(SetSetter(s.(lifecycle := None), t, SetMaxDone))
    else Some(SetSetter(s, t, SetMaxLimiterWaiting))
  }

  function SetMaxEntersLimiter_(s: State, t: nat): Option<State> {
    if !SetterAt(s, t, SetMaxLimiterWaiting) || s.limiter.Some? then None
    else Some(SetSetter(s.(limiter := Some(Setter(t))), t, SetMaxWriting))
  }

  /** The write is over, well or not; the lookup before it may have installed a backend. */
  function SetMaxEnds_(s: State, t: nat, installed: set<Family>): Option<State> {
    if !SetterAt(s, t, SetMaxWriting) then None
    else
      Some(SetSetter(s.(backends := s.backends + installed, limiter := None, lifecycle := None), t, SetMaxDone))
  }

  /** Waiting for either lock is interrupted. */
  function SetMaxInterrupted_(s: State, t: nat): Option<State> {
    if SetterAt(s, t, SetMaxWaiting) then Some(SetSetter(s, t, SetMaxDone))
    else if SetterAt(s, t, SetMaxLimiterWaiting) then Some(SetSetter(s.(lifecycle := None), t, SetMaxDone))
    else None
  }

  /** `clear_unused_model_families`, one atomic step: families with live reservations are skipped. */
  function EvictFamilies_(s: State, families: set<Family>): Option<State> {
    if families * s.book.family.Values != {} then None
    else Some(s.(backends := s.backends - families))
  }
}
