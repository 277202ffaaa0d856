/** Rebuilding a family's backend against acquires that are under way.

  An acquire captures its buckets from the configuration it was called with, and debits the backend that
  `_get_backend` hands it. The machine interleaves any number of acquires and other callers (refunds and
  capacity changes) of one family at the points where a task or thread can be switched.
*/
module PendingExclusion {
  import opened Types

  type Limits = map<BucketId, real>

  /** `inPlace`: preparing a reconfigured backend changes the old object; otherwise it makes a new one.
    `interruptible`: restoring the overrides, the last step of a rebuild, may fail or be cancelled.
    `atomicLook`: the fast path reads backend and snapshot in one step, as without an await in between. */
  datatype Setting = Setting(inPlace: bool, interruptible: bool, atomicLook: bool)

  datatype Caller = Acquirer(id: Id) | Other(call: nat)

  type Object = nat

  datatype Pc =
    | Looking
    | HasRead(seen: Option<Object>)
    | Waiting
    | Locked
    | Building
    | Rebuilding(was: Limits, target: Object)
    | Prepared(was: Limits, target: Object)
    | Calling(target: Object)
    | Finished

  datatype Call = Call(cfg: Limits, pc: Pc)

  /** One debit: the buckets its reservation had captured, and those of the backend it landed in. */
  datatype Debit = Debit(captured: set<BucketId>, actual: set<BucketId>)

  datatype State = State(
    quotas: Option<Limits>,
    backend: Option<Object>,
    objects: seq<set<BucketId>>,
    lock: Option<Caller>,
    calls: map<Caller, Call>,
    debits: seq<Debit>)

  const Initial := State(None, None, [], None, map[], [])

  datatype Action =
    | Begin(k: Caller, cfg: Limits)
    | Look(k: Caller)
    | LookAgain(k: Caller)
    | Lock(k: Caller)
    | Decide(k: Caller, limitsFail: bool)
    | Build(k: Caller, fails: bool)
    | Prepare(k: Caller, fails: bool)
    | Install(k: Caller, fails: bool)
    | Land(k: Caller)
    | GiveUp(k: Caller)
    | Evict

  predicate At(s: State, k: Caller, pc: Pc) {
    k in s.calls && s.calls[k].pc == pc
  }

  function Goto(s: State, k: Caller, pc: Pc): State {
    if k in s.calls then s.(calls := s.calls[k := Call(s.calls[k].cfg, pc)]) else s
  }

  /** Leaves the limiter lock. */
  function Release(s: State, k: Caller, pc: Pc): State {
    Goto(s.(lock := None), k, pc)
  }

  /** The acquires recorded as pending: begun, and not yet finalized or rolled back. */
  predicate IsPending(s: State, k: Caller) {
    k.Acquirer? && k in s.calls && !s.calls[k].pc.Finished?
  }

  /** The fast path: the snapshot is the caller's configuration. */
  function Fast(s: State, k: Caller, seen: Option<Object>): Pc
    requires k in s.calls
  {
    if seen.Some? && s.quotas == Some(s.calls[k].cfg) then Calling(seen.value) else Waiting
  }

  function LookStep(c: Setting, s: State, k: Caller): Option<State> {
    if !At(s, k, Looking) then None
    else Some(Goto(s, k, if c.atomicLook then Fast(s, k, s.backend) else HasRead(s.backend)))
  }

  function LookAgainStep(s: State, k: Caller): Option<State> {
    if k !in s.calls || !s.calls[k].pc.HasRead? then None
    else Some(Goto(s, k, Fast(s, k, s.calls[k].pc.seen)))
  }

  function LockStep(s: State, k: Caller): Option<State> {
    if !At(s, k, Waiting) || s.lock.Some? then None else Some(Goto(s.(lock := Some(k)), k, Locked))
  }

  /** Under the lock. A change of the bucket set is refused while another acquire is pending; otherwise the
    snapshot is invalidated in the same step, so that whoever comes later has to wait for the lock. */
  function DecideStep(s: State, k: Caller, limitsFail: bool): Option<State> {
    if !At(s, k, Locked) then None
    else
      var cfg := s.calls[k].cfg;
      if s.backend.None? then Some(Goto(s, k, Building))
      else if s.quotas.None? then Some(Release(s, k, Finished))
      else if s.quotas.value == cfg then Some(Release(s, k, Calling(s.backend.value)))
      else if s.quotas.value.Keys == cfg.Keys then
        if limitsFail then Some(Release(s, k, Finished))
        else Some(Release(s.(quotas := Some(cfg)), k, Calling(s.backend.value)))
      else if exists other :: other in s.calls && other != k && IsPending(s, other) then Some(Release(s, k, Finished))
      else Some(Goto(s.(quotas := None), k, Rebuilding(s.quotas.value, s.backend.value)))
  }

  function BuildStep(s: State, k: Caller, fails: bool): Option<State> {
    if !At(s, k, Building) then None
    else if fails then Some(Release(s, k, Finished))
    else
      var cfg := s.calls[k].cfg;
      Some(Release(s.(objects := s.objects + [cfg.Keys], backend := Some(|s.objects|), quotas := Some(cfg)),
                   k, Calling(|s.objects|)))
  }

  function PrepareStep(c: Setting, s: State, k: Caller, fails: bool): Option<State> {
    if k !in s.calls || !s.calls[k].pc.Rebuilding? then None
    else
      var at := s.calls[k].pc;
      if fails then Some(Release(s.(quotas := Some(at.was)), k, Finished))
      else if c.inPlace then
        if at.target < |s.objects|
        then Some(Goto(s.(objects := s.objects[at.target := s.calls[k].cfg.Keys]), k, Prepared(at.was, at.target)))
        else None
      else Some(Goto(s.(objects := s.objects + [s.calls[k].cfg.Keys]), k, Prepared(at.was, |s.objects|)))
  }

  /** Restoring the overrides, then installing; a failure puts the old snapshot back. */
  function InstallStep(c: Setting, s: State, k: Caller, fails: bool): Option<State> {
    if k !in s.calls || !s.calls[k].pc.Prepared? || (fails && !c.interruptible) then None
    else
      var at := s.calls[k].pc;
      if fails then Some(Release(s.(quotas := Some(at.was)), k, Finished))
      else Some(Release(s.(backend := Some(at.target), quotas := Some(s.calls[k].cfg)), k, Calling(at.target)))
  }

  /** The backend's atomic debit. */
  function LandStep(s: State, k: Caller): Option<State> {
    if k !in s.calls || !k.Acquirer? || !s.calls[k].pc.Calling? || s.calls[k].pc.target >= |s.objects| then None
    else
      var debit := Debit(s.calls[k].cfg.Keys, s.objects[s.calls[k].pc.target]);
      Some(Goto(s.(debits := s.debits + [debit]), k, Finished))
  }

  /** A call that ends without a debit: a refund, or an acquire that fails or is cancelled outside the lock. */
  function GiveUpStep(s: State, k: Caller): Option<State> {
    if k !in s.calls || s.lock == Some(k) || s.calls[k].pc.Finished? then None else Some(Goto(s, k, Finished))
  }

  function EvictStep(s: State): Option<State> {
    if exists k :: k in s.calls && IsPending(s, k) then None else Some(s.(backend := None, quotas := None))
  }

  function Step(c: Setting, s: State, a: Action): Option<State> {
    match a
    case Begin(k, cfg) => if k in s.calls then None else Some(s.(calls := s.calls[k := Call(cfg, Looking)]))
    case Look(k) => LookStep(c, s, k)
    case LookAgain(k) => LookAgainStep(s, k)
    case Lock(k) => LockStep(s, k)
    case Decide(k, limitsFail) => DecideStep(s, k, limitsFail)
    case Build(k, fails) => BuildStep(s, k, fails)
    case Prepare(k, fails) => PrepareStep(c, s, k, fails)
    case Install(k, fails) => InstallStep(c, s, k, fails)
    case Land(k) => LandStep(s, k)
    case GiveUp(k) => GiveUpStep(s, k)
    case Evict => EvictStep(s)
  }

  function Run(c: Setting, actions: seq<Action>): Option<State>
    decreases |actions|
  {
    if actions == [] then Some(Initial)
    else match Run(c, actions[..|actions| - 1])
      case None => None
      case Some(s) => Step(c, s, actions[|actions| - 1])
  }

  // ---------------------------------------------------------------- the invariant

  predicate UnderLock(pc: Pc) {
    pc.Locked? || pc.Building? || pc.Rebuilding? || pc.Prepared?
  }

  predicate Changing(pc: Pc) {
    pc.Rebuilding? || pc.Prepared?
  }

  /** The settings under which rebuilds never move a pending acquire's buckets. */
  predicate Safe(c: Setting) {
    !(c.inPlace && c.interruptible) && (c.atomicLook || c.inPlace)
  }

  ghost predicate CallOk(c: Setting, s: State, k: Caller, call: Call) {
    && (UnderLock(call.pc) <==> s.lock == Some(k))
    && (call.pc.Building? ==> s.backend.None?)
    && (Changing(call.pc) ==> s.quotas.None?)
    && (Changing(call.pc) && c.inPlace ==> s.backend.Some? ==> s.backend == Some(call.pc.target))
    && (call.pc.Rebuilding? ==> call.pc.target < |s.objects| && s.objects[call.pc.target] == call.pc.was.Keys
                                && (s.backend.Some? ==> s.backend == Some(call.pc.target)))
    && (call.pc.Prepared? ==> call.pc.target < |s.objects| && s.objects[call.pc.target] == call.cfg.Keys)
    && (call.pc.Prepared? && !c.inPlace ==>
          s.backend.Some? ==> s.backend.value < |s.objects| && s.objects[s.backend.value] == call.pc.was.Keys)
    && (call.pc.Calling? && k.Acquirer? ==>
          call.pc.target < |s.objects| && s.objects[call.pc.target] == call.cfg.Keys
          && s.backend == Some(call.pc.target))
    && (call.pc.HasRead? && k.Acquirer? && call.pc.seen.Some? ==> !c.atomicLook && call.pc.seen == s.backend)
  }

  ghost predicate Inv(c: Setting, s: State) {
    && (forall k :: k in s.calls ==> CallOk(c, s, k, s.calls[k]))
    && (s.lock.Some? ==> s.lock.value in s.calls)
    && (s.backend.Some? ==> s.backend.value < |s.objects|)
    && (s.backend.Some? && s.quotas.Some? ==> s.objects[s.backend.value] == s.quotas.value.Keys)
    // nobody is past the fast path while a rebuild changes the bucket set
    && (forall k, other ::
          k in s.calls && other in s.calls && Changing(s.calls[k].pc) && other != k && other.Acquirer? ==>
          !s.calls[other].pc.Calling?)
    && (forall i :: 0 <= i < |s.debits| ==> s.debits[i].captured == s.debits[i].actual)
  }

  lemma BeginKeeps(c: Setting, s: State, k: Caller, cfg: Limits)
    requires Inv(c, s) && Safe(c) && k !in s.calls
    ensures Inv(c, s.(calls := s.calls[k := Call(cfg, Looking)]))
  {
  }

  lemma LookKeeps(c: Setting, s: State, k: Caller)
    requires Inv(c, s) && Safe(c) && LookStep(c, s, k).Some?
    ensures Inv(c, LookStep(c, s, k).value)
  {
    assert CallOk(c, s, k, s.calls[k]);
  }

  lemma LookAgainKeeps(c: Setting, s: State, k: Caller)
    requires Inv(c, s) && Safe(c) && LookAgainStep(s, k).Some?
    ensures Inv(c, LookAgainStep(s, k).value)
  {
    assert CallOk(c, s, k, s.calls[k]);
  }

  lemma LockKeeps(c: Setting, s: State, k: Caller)
    requires Inv(c, s) && Safe(c) && LockStep(s, k).Some?
    ensures Inv(c, LockStep(s, k).value)
  {
    assert CallOk(c, s, k, s.calls[k]);
  }

  lemma LeavingKeeps(c: Setting, s: State, k: Caller, pc: Pc, q: Option<Limits>)
    requires Inv(c, s) && At(s, k, Locked)
    requires q == s.quotas || (q.Some? && s.quotas.Some? && q.value.Keys == s.quotas.value.Keys)
    requires pc.Finished? ||
             (pc.Calling? && s.backend == Some(pc.target) && s.quotas.Some?
              && s.quotas.value.Keys == s.calls[k].cfg.Keys)
    ensures Inv(c, Release(s.(quotas := q), k, pc))
  {
    assert CallOk(c, s, k, s.calls[k]);
    var s' := Release(s.(quotas := q), k, pc);
    forall other | other in s'.calls ensures CallOk(c, s', other, s'.calls[other]) {
      assert CallOk(c, s, other, s.calls[other]);
    }
  }

  /** Invalidating the snapshot: no other acquire is pending, so none is past the fast path. */
  lemma InvalidatingKeeps(c: Setting, s: State, k: Caller)
    requires Inv(c, s) && At(s, k, Locked) && s.backend.Some? && s.quotas.Some?
    requires forall other :: other in s.calls && other != k ==> !IsPending(s, other)
    ensures Inv(c, Goto(s.(quotas := None), k, Rebuilding(s.quotas.value, s.backend.value)))
  {
    assert CallOk(c, s, k, s.calls[k]);
    var s' := Goto(s.(quotas := None), k, Rebuilding(s.quotas.value, s.backend.value));
    forall other | other in s'.calls ensures CallOk(c, s', other, s'.calls[other]) {
      assert CallOk(c, s, other, s.calls[other]);
    }
    forall x, other | x in s'.calls && other in s'.calls && Changing(s'.calls[x].pc) && other != x && other.Acquirer?
      ensures !s'.calls[other].pc.Calling?
    {
      assert CallOk(c, s, x, s.calls[x]);
      assert x == k && !IsPending(s, other);
    }
  }

  lemma StartingKeeps(c: Setting, s: State, k: Caller)
    requires Inv(c, s) && At(s, k, Locked) && s.backend.None?
    ensures Inv(c, Goto(s, k, Building))
  {
    assert CallOk(c, s, k, s.calls[k]);
  }

  lemma DecideKeeps(c: Setting, s: State, k: Caller, limitsFail: bool)
    requires Inv(c, s) && DecideStep(s, k, limitsFail).Some?
    ensures Inv(c, DecideStep(s, k, limitsFail).value)
  {
    hide CallOk, Release, Goto, IsPending;
    var cfg := s.calls[k].cfg;
    assert s.(quotas := s.quotas) == s;
    if s.backend.None? {
      StartingKeeps(c, s, k);
    } else if s.quotas.None? {
      LeavingKeeps(c, s, k, Finished, s.quotas);
    } else if s.quotas.value.Keys == cfg.Keys {
      LeavingKeeps(c, s, k, Calling(s.backend.value), Some(cfg));
      LeavingKeeps(c, s, k, Finished, s.quotas);
      LeavingKeeps(c, s, k, Calling(s.backend.value), s.quotas);
    } else if exists other :: other in s.calls && other != k && IsPending(s, other) {
      LeavingKeeps(c, s, k, Finished, s.quotas);
    } else {
      InvalidatingKeeps(c, s, k);
    }
  }

  lemma BuildKeeps(c: Setting, s: State, k: Caller, fails: bool)
    requires Inv(c, s) && Safe(c) && BuildStep(s, k, fails).Some?
    ensures Inv(c, BuildStep(s, k, fails).value)
  {
    assert CallOk(c, s, k, s.calls[k]);
  }

  lemma PrepareKeeps(c: Setting, s: State, k: Caller, fails: bool)
    requires Inv(c, s) && Safe(c) && PrepareStep(c, s, k, fails).Some?
    ensures Inv(c, PrepareStep(c, s, k, fails).value)
  {
    assert CallOk(c, s, k, s.calls[k]);
  }

  lemma InstallKeeps(c: Setting, s: State, k: Caller, fails: bool)
    requires Inv(c, s) && Safe(c) && InstallStep(c, s, k, fails).Some?
    ensures Inv(c, InstallStep(c, s, k, fails).value)
  {
    assert CallOk(c, s, k, s.calls[k]);
  }

  lemma LandKeeps(c: Setting, s: State, k: Caller)
    requires Inv(c, s) && Safe(c) && LandStep(s, k).Some?
    ensures Inv(c, LandStep(s, k).value)
  {
    assert CallOk(c, s, k, s.calls[k]);
  }

  lemma GiveUpKeeps(c: Setting, s: State, k: Caller)
    requires Inv(c, s) && Safe(c) && GiveUpStep(s, k).Some?
    ensures Inv(c, GiveUpStep(s, k).value)
  {
    assert CallOk(c, s, k, s.calls[k]);
  }

  lemma EvictKeeps(c: Setting, s: State)
    requires Inv(c, s) && Safe(c) && EvictStep(s).Some?
    ensures Inv(c, EvictStep(s).value)
  {
    var s' := EvictStep(s).value;
    forall k | k in s'.calls ensures CallOk(c, s', k, s'.calls[k]) {
      assert CallOk(c, s, k, s.calls[k]) && !IsPending(s, k);
    }
  }

  lemma StepKeeps(c: Setting, s: State, a: Action)
    requires Inv(c, s) && Safe(c) && Step(c, s, a).Some?
    ensures Inv(c, Step(c, s, a).value)
  {
    hide Inv, LookStep, LookAgainStep, LockStep, DecideStep, BuildStep, PrepareStep, InstallStep, LandStep,
      GiveUpStep, EvictStep;
    match a
    case Begin(k, cfg) => BeginKeeps(c, s, k, cfg);
    case Look(k) => LookKeeps(c, s, k);
    case LookAgain(k) => LookAgainKeeps(c, s, k);
    case Lock(k) => LockKeeps(c, s, k);
    case Decide(k, limitsFail) => DecideKeeps(c, s, k, limitsFail);
    case Build(k, fails) => BuildKeeps(c, s, k, fails);
    case Prepare(k, fails) => PrepareKeeps(c, s, k, fails);
    case Install(k, fails) => InstallKeeps(c, s, k, fails);
    case Land(k) => LandKeeps(c, s, k);
    case GiveUp(k) => GiveUpKeeps(c, s, k);
    case Evict => EvictKeeps(c, s);
  }

  lemma {:induction false} RunsKeepInvariant(c: Setting, actions: seq<Action>)
    requires Safe(c) && Run(c, actions).Some?
    ensures Inv(c, Run(c, actions).value)
    decreases |actions|
  {
    if actions != [] {
      hide Inv, Step;
      RunsKeepInvariant(c, actions[..|actions| - 1]);
      StepKeeps(c, Run(c, actions[..|actions| - 1]).value, actions[|actions| - 1]);
    }
  }

  ghost predicate AllLandWhereCaptured(s: State) {
    forall i :: 0 <= i < |s.debits| ==> s.debits[i].captured == s.debits[i].actual
  }

  // ---------------------------------------------------------------- the settings that are not safe

  ghost predicate Reaches(c: Setting, s: State) {
    exists actions :: Run(c, actions) == Some(s)
  }

  lemma Goes(c: Setting, s: State, a: Action)
    requires Reaches(c, s) && Step(c, s, a).Some?
    ensures Reaches(c, Step(c, s, a).value)
  {
    var actions :| Run(c, actions) == Some(s);
    assert (actions + [a])[..|actions|] == actions;
    assert Run(c, actions + [a]) == Some(Step(c, s, a).value);
  }

  const First := BucketId(0, 60)
  const Second := BucketId(1, 60)
  const Before: Limits := map[First := 1.0]
  const After: Limits := map[Second := 1.0]

  /** A finished acquire has installed a backend for `Before`; the calls after it are still to come. */
  ghost predicate Settled(s: State) {
    && s.quotas == Some(Before) && s.backend == Some(0) && s.objects == [{First}] && s.lock == None && s.debits == []
    && forall k :: k in s.calls ==> k == Acquirer(0) && s.calls[k].pc.Finished?
  }

  lemma ReachesWaiting(c: Setting, s: State, k: Caller, cfg: Limits) returns (t: State)
    requires Reaches(c, s) && k !in s.calls && s.quotas != Some(cfg)
    ensures Reaches(c, t) && t == s.(calls := s.calls[k := Call(cfg, Waiting)])
  {
    hide Reaches;
    Goes(c, s, Begin(k, cfg));
    t := Step(c, s, Begin(k, cfg)).value;
    Goes(c, t, Look(k));
    t := Step(c, t, Look(k)).value;
    if !c.atomicLook {
      Goes(c, t, LookAgain(k));
      t := Step(c, t, LookAgain(k)).value;
    }
    assert t.calls == s.calls[k := Call(cfg, Waiting)];
  }

  lemma ReachesBuilt(c: Setting, s: State, k: Caller) returns (t: State)
    requires Reaches(c, s) && At(s, k, Waiting) && s.calls[k].cfg == Before && s.lock == None
    requires s.backend == None && s.objects == []
    ensures Reaches(c, t) && t == s.(quotas := Some(Before), backend := Some(0), objects := [{First}], calls := t.calls)
    ensures t.calls == s.calls[k := Call(Before, Calling(0))]
  {
    hide Reaches;
    Goes(c, s, Lock(k));
    t := Step(c, s, Lock(k)).value;
    Goes(c, t, Decide(k, false));
    t := Step(c, t, Decide(k, false)).value;
    Goes(c, t, Build(k, false));
    t := Step(c, t, Build(k, false)).value;
    assert Before.Keys == {First};
  }

  lemma ReachesSettled(c: Setting) returns (t: State)
    ensures Reaches(c, t) && Settled(t)
  {
    var k := Acquirer(0);
    assert Run(c, []) == Some(Initial);
    t := ReachesWaiting(c, Initial, k, Before);
    t := ReachesBuilt(c, t, k);
    hide Reaches;
    Goes(c, t, GiveUp(k));
    t := Step(c, t, GiveUp(k)).value;
  }

  /** A refund starts to rebuild the backend for `After`. */
  lemma ReachesRebuilding(c: Setting, s: State) returns (t: State)
    requires Reaches(c, s) && Settled(s)
    ensures Reaches(c, t)
    ensures t == s.(quotas := None, lock := Some(Other(0)), calls := t.calls)
    ensures t.calls == s.calls[Other(0) := Call(After, Rebuilding(Before, 0))]
  {
    hide Reaches;
    var k := Other(0);
    assert First in Before && First !in After;
    t := ReachesWaiting(c, s, k, After);
    Goes(c, t, Lock(k));
    t := Step(c, t, Lock(k)).value;
    assert Before.Keys != After.Keys;
    Goes(c, t, Decide(k, false));
    t := Step(c, t, Decide(k, false)).value;
  }

  /** Prepared in place, then interrupted: the snapshot is `Before` again, the backend's buckets are not. */
  lemma InterruptedRebuildMisplaces(c: Setting) returns (t: State)
    requires c.inPlace && c.interruptible
    ensures Reaches(c, t) && !AllLandWhereCaptured(t)
  {
    t := ReachesSettled(c);
    t := ReachesRebuilding(c, t);
    hide Reaches;
    var k := Other(0);
    assert After.Keys == {Second} && Before.Keys == {First};
    Goes(c, t, Prepare(k, false));
    t := Step(c, t, Prepare(k, false)).value;
    Goes(c, t, Install(k, true));
    t := Step(c, t, Install(k, true)).value;
    assert t.quotas == Some(Before) && t.objects == [{Second}];
    t := LandsNext(c, t);
  }

  /** A second acquire, of `Before`, takes the fast path and lands in whatever backend 0 has become. */
  lemma LandsNext(c: Setting, s: State) returns (t: State)
    requires Reaches(c, s) && s.quotas == Some(Before) && s.backend == Some(0) && s.objects == [{Second}]
    requires Acquirer(1) !in s.calls
    ensures Reaches(c, t) && !AllLandWhereCaptured(t)
  {
    hide Reaches;
    var k := Acquirer(1);
    Goes(c, s, Begin(k, Before));
    t := Step(c, s, Begin(k, Before)).value;
    Goes(c, t, Look(k));
    t := Step(c, t, Look(k)).value;
    if !c.atomicLook {
      Goes(c, t, LookAgain(k));
      t := Step(c, t, LookAgain(k)).value;
    }
    Goes(c, t, Land(k));
    t := Step(c, t, Land(k)).value;
    assert First in Before && First !in {Second};
    assert t.debits[|s.debits|] == Debit(Before.Keys, {Second});
  }

  /** Between the two reads of the fast path a new backend object is installed: the acquire keeps the old one. */
  lemma SplitLookMisplaces(c: Setting) returns (t: State)
    requires !c.inPlace && !c.atomicLook
    ensures Reaches(c, t) && !AllLandWhereCaptured(t)
  {
    t := ReachesSettled(c);
    t := ReachesRebuilding(c, t);
    hide Reaches;
    var k, r := Acquirer(1), Other(0);
    Goes(c, t, Begin(k, After));
    t := Step(c, t, Begin(k, After)).value;
    Goes(c, t, Look(k));
    t := Step(c, t, Look(k)).value;
    Goes(c, t, Prepare(r, false));
    t := Step(c, t, Prepare(r, false)).value;
    Goes(c, t, Install(r, false));
    t := Step(c, t, Install(r, false)).value;
    t := LandsLate(c, t);
  }

  lemma LandsLate(c: Setting, s: State) returns (t: State)
    requires Reaches(c, s) && s.quotas == Some(After) && |s.objects| > 0 && s.objects[0] == {First}
    requires Acquirer(1) in s.calls && s.calls[Acquirer(1)] == Call(After, HasRead(Some(0)))
    ensures Reaches(c, t) && !AllLandWhereCaptured(t)
  {
    hide Reaches;
    var k := Acquirer(1);
    Goes(c, s, LookAgain(k));
    t := Step(c, s, LookAgain(k)).value;
    Goes(c, t, Land(k));
    t := Step(c, t, Land(k)).value;
    assert Second in After && Second !in {First};
    assert t.debits[|s.debits|] == Debit(After.Keys, {First});
  }

  /** Every acquire's debit lands in exactly the buckets its reservation captured, in every run, exactly when
    rebuilds that change the backend in place cannot fail once they have, and rebuilds that make a new backend
    meet a fast path that looks once. */
  lemma DebitsLandWhereCapturedIff(c: Setting)
    ensures Safe(c) <==> forall actions :: Run(c, actions).Some? ==> AllLandWhereCaptured(Run(c, actions).value)
  {
    if Safe(c) {
      forall actions | Run(c, actions).Some? ensures AllLandWhereCaptured(Run(c, actions).value) {
        RunsKeepInvariant(c, actions);
      }
    } else {
      var t;
      if c.inPlace {
        t := InterruptedRebuildMisplaces(c);
      } else {
        t := SplitLookMisplaces(c);
      }
      var actions :| Run(c, actions) == Some(t);
      assert !AllLandWhereCaptured(Run(c, actions).value);
    }
  }

  /** From the fast path to its debit an acquire holds the installed backend, whose buckets are exactly the ones it
    captured, and nobody is changing the bucket set. */
  lemma PendingAcquiresKeepTheirBuckets(c: Setting, actions: seq<Action>, k: Caller)
    requires Safe(c) && Run(c, actions).Some?
    ensures var s := Run(c, actions).value;
            k.Acquirer? && k in s.calls && s.calls[k].pc.Calling? ==>
              && s.backend == Some(s.calls[k].pc.target) && s.calls[k].pc.target < |s.objects|
              && s.objects[s.calls[k].pc.target] == s.calls[k].cfg.Keys
              && (forall other :: other in s.calls && other != k ==> !Changing(s.calls[other].pc))
  {
    RunsKeepInvariant(c, actions);
    var s := Run(c, actions).value;
    if k in s.calls {
      assert CallOk(c, s, k, s.calls[k]);
    }
  }

  // ---------------------------------------------------------------- acquires are served

  /** Nobody is in the lock and every call has ended; the snapshot, if there is one, is the installed backend's. */
  ghost predicate Idle(s: State) {
    && s.lock == None && (forall k :: k in s.calls ==> s.calls[k].pc.Finished?)
    && (s.backend.Some? ==>
          s.backend.value < |s.objects| && s.quotas.Some? && s.objects[s.backend.value] == s.quotas.value.Keys)
  }

  ghost predicate Follows(c: Setting, s: State, t: State) {
    exists actions :: Continues(c, s, actions) == Some(t)
  }

  function Continues(c: Setting, s: State, actions: seq<Action>): Option<State>
    decreases |actions|
  {
    if actions == [] then Some(s)
    else match Continues(c, s, actions[..|actions| - 1])
      case None => None
      case Some(t) => Step(c, t, actions[|actions| - 1])
  }

  lemma FollowsItself(c: Setting, s: State)
    ensures Follows(c, s, s)
  {
    assert Continues(c, s, []) == Some(s);
  }

  lemma FollowsOn(c: Setting, s: State, t: State, a: Action)
    requires Follows(c, s, t) && Step(c, t, a).Some?
    ensures Follows(c, s, Step(c, t, a).value)
  {
    var actions :| Continues(c, s, actions) == Some(t);
    assert (actions + [a])[..|actions|] == actions;
    assert Continues(c, s, actions + [a]) == Some(Step(c, t, a).value);
  }

  /** A change of the bucket set is refused exactly while another acquire is under way; refunds and other callers do
    not stand in its way. */
  lemma RebuildRefusedIff(s: State, k: Caller)
    requires At(s, k, Locked) && s.backend.Some? && s.quotas.Some? && s.quotas.value.Keys != s.calls[k].cfg.Keys
    ensures DecideStep(s, k, false).Some?
    ensures var t := DecideStep(s, k, false).value;
            if exists other :: other in s.calls && other != k && other.Acquirer? && !s.calls[other].pc.Finished?
            then t.quotas == s.quotas && t.lock == None && t.calls[k].pc == Finished
            else t.quotas == None && t.lock == s.lock && t.calls[k].pc == Rebuilding(s.quotas.value, s.backend.value)
  {
  }

  /** A backend without a snapshot is being rebuilt by whoever holds the lock. */
  ghost predicate SnapshotKept(s: State) {
    s.backend.Some? && s.quotas.None? ==>
      s.lock.Some? && s.lock.value in s.calls && Changing(s.calls[s.lock.value].pc)
  }

  lemma StepKeepsSnapshot(c: Setting, s: State, a: Action)
    requires Inv(c, s) && SnapshotKept(s) && Step(c, s, a).Some?
    ensures SnapshotKept(Step(c, s, a).value)
  {
    assert forall k :: k in s.calls ==> CallOk(c, s, k, s.calls[k]);
  }

  lemma {:induction false} RunsKeepSnapshot(c: Setting, actions: seq<Action>)
    requires Safe(c) && Run(c, actions).Some?
    ensures SnapshotKept(Run(c, actions).value)
    decreases |actions|
  {
    if actions != [] {
      var n := |actions| - 1;
      RunsKeepSnapshot(c, actions[..n]);
      RunsKeepInvariant(c, actions[..n]);
      StepKeepsSnapshot(c, Run(c, actions[..n]).value, actions[n]);
    }
  }

  /** Whatever has failed or was cancelled before, once every call has ended the family is ready for the next one. */
  lemma EveryRestIsIdle(c: Setting, actions: seq<Action>)
    requires Safe(c) && Run(c, actions).Some?
    requires var s := Run(c, actions).value; forall k :: k in s.calls ==> s.calls[k].pc.Finished?
    ensures Idle(Run(c, actions).value)
  {
    RunsKeepInvariant(c, actions);
    RunsKeepSnapshot(c, actions);
    var s := Run(c, actions).value;
    assert forall k :: k in s.calls ==> CallOk(c, s, k, s.calls[k]);
  }

  /** What a failure leaves: the snapshot from before, and the backend that was installed. */
  lemma FailureLeavesSnapshot(c: Setting, s: State, k: Caller)
    requires k in s.calls
    ensures s.calls[k].pc.Building? ==>
              BuildStep(s, k, true) == Some(s.(lock := None, calls := s.calls[k := Call(s.calls[k].cfg, Finished)]))
    ensures s.calls[k].pc.Rebuilding? ==>
              PrepareStep(c, s, k, true) ==
              Some(s.(lock := None, quotas := Some(s.calls[k].pc.was),
                      calls := s.calls[k := Call(s.calls[k].cfg, Finished)]))
    ensures s.calls[k].pc.Prepared? && c.interruptible ==>
              InstallStep(c, s, k, true) ==
              Some(s.(lock := None, quotas := Some(s.calls[k].pc.was),
                      calls := s.calls[k := Call(s.calls[k].cfg, Finished)]))
  {
  }

  /** The call has been handed a backend with its own buckets. */
  ghost predicate Handed(s: State, k: Caller, cfg: Limits, t: State) {
    && k in t.calls && t.calls == s.calls[k := t.calls[k]] && t.calls[k].cfg == cfg && t.calls[k].pc.Calling?
    && t.lock == None && t.debits == s.debits
    && t.calls[k].pc.target < |t.objects| && t.objects[t.calls[k].pc.target] == cfg.Keys
    && t.quotas == Some(cfg) && t.backend == Some(t.calls[k].pc.target)
  }

  /** The state and the call's position after its look. */
  lemma Looks(c: Setting, s: State, k: Caller, cfg: Limits) returns (t: State)
    requires Idle(s) && k !in s.calls
    ensures Follows(c, s, t)
    ensures var pc := if s.backend.Some? && s.quotas == Some(cfg) then Calling(s.backend.value) else Waiting;
            t == s.(calls := s.calls[k := Call(cfg, pc)])
  {
    hide Follows;
    FollowsItself(c, s);
    FollowsOn(c, s, s, Begin(k, cfg));
    t := Step(c, s, Begin(k, cfg)).value;
    FollowsOn(c, s, t, Look(k));
    t := Step(c, t, Look(k)).value;
    if !c.atomicLook {
      FollowsOn(c, s, t, LookAgain(k));
      t := Step(c, t, LookAgain(k)).value;
    }
    assert t.calls == s.calls[k := t.calls[k]];
  }

  lemma Decides(c: Setting, s: State, w: State, k: Caller) returns (t: State)
    requires Follows(c, s, w) && At(w, k, Waiting) && w.lock == None
    ensures var locked := w.(lock := Some(k), calls := w.calls[k := Call(w.calls[k].cfg, Locked)]);
            Follows(c, s, t) && DecideStep(locked, k, false) == Some(t)
  {
    hide Follows, DecideStep;
    FollowsOn(c, s, w, Lock(k));
    t := Step(c, w, Lock(k)).value;
    DecideIsPossible(t, k);
    FollowsOn(c, s, t, Decide(k, false));
    t := Step(c, t, Decide(k, false)).value;
  }

  lemma DecideIsPossible(s: State, k: Caller)
    requires At(s, k, Locked)
    ensures DecideStep(s, k, false).Some?
  {
  }

  /** A first backend is built, changed limits are taken over, a changed bucket set is rebuilt. */
  lemma IsHanded(c: Setting, s: State, k: Caller, cfg: Limits) returns (t: State)
    requires Idle(s) && k !in s.calls
    ensures Follows(c, s, t) && Handed(s, k, cfg, t)
  {
    hide Follows;
    var w := Looks(c, s, k, cfg);
    if s.backend.Some? && s.quotas == Some(cfg) {
      return w;
    }
    t := Decides(c, s, w, k);
    if s.backend.None? {
      FollowsOn(c, s, t, Build(k, false));
      t := Step(c, t, Build(k, false)).value;
    } else if s.quotas.value.Keys != cfg.Keys {
      assert forall other :: other in w.calls && other != k ==> w.calls[other].pc.Finished?;
      t := IsRebuilt(c, s, t, k, cfg);
    }
    assert t.calls == s.calls[k := t.calls[k]];
  }

  lemma IsRebuilt(c: Setting, s: State, w: State, k: Caller, cfg: Limits) returns (t: State)
    requires Follows(c, s, w) && k in w.calls && w.calls[k].cfg == cfg && w.calls[k].pc.Rebuilding?
    requires w.calls[k].pc.target < |w.objects|
    ensures Follows(c, s, t) && k in t.calls && t.calls == w.calls[k := t.calls[k]] && t.debits == w.debits
    ensures t.calls[k].cfg == cfg && t.calls[k].pc.Calling? && t.lock == None
    ensures t.calls[k].pc.target < |t.objects| && t.objects[t.calls[k].pc.target] == cfg.Keys
    ensures t.quotas == Some(cfg) && t.backend == Some(t.calls[k].pc.target)
  {
    hide Follows;
    FollowsOn(c, s, w, Prepare(k, false));
    t := Step(c, w, Prepare(k, false)).value;
    FollowsOn(c, s, t, Install(k, false));
    t := Step(c, t, Install(k, false)).value;
  }

  /** From every idle state an acquire of any configuration can go through, whatever was installed before: its debit
    lands in its own buckets, and its configuration is the one installed. */
  lemma AcquireIsServed(c: Setting, s: State, k: Caller, cfg: Limits) returns (t: State)
    requires Idle(s) && k !in s.calls && k.Acquirer?
    ensures Follows(c, s, t) && Idle(t)
    ensures t.debits == s.debits + [Debit(cfg.Keys, cfg.Keys)] && t.quotas == Some(cfg) && t.backend.Some?
  {
    hide Follows;
    var w := IsHanded(c, s, k, cfg);
    FollowsOn(c, s, w, Land(k));
    t := Step(c, w, Land(k)).value;
  }
}
