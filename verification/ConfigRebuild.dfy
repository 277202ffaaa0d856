/** Configuration changes and runtime overrides of one model family.

  `View` is what the limiter and its backend know of the family: the configured limits, the overrides set at
  run time, and the maximum each bucket really has. A change of the bucket set rebuilds the backend from a
  configuration with the surviving overrides baked in, and restores them afterwards; a change of limits only
  is applied bucket by bucket.
*/
module ConfigRebuild {
  import opened Types
  import opened OverrideExpiry

  type Limits = map<BucketId, real>

  datatype View = View(quotas: Limits, overrides: Limits, live: Limits)

  // ---------------------------------------------------------------- the steps

  predicate Kept(was: Limits, cfg: Limits, id: BucketId) {
    id in was && id in cfg && was[id] == cfg[id]
  }

  /** `_cfg_with_preserved_runtime_max_capacity`. */
  function Baked(cfg: Limits, was: Limits, overrides: Limits): Limits {
    map id | id in cfg :: if id in overrides && Kept(was, cfg, id) then overrides[id] else cfg[id]
  }

  /** The overrides that `_restore_runtime_max_capacity` restores and remembers. */
  function Surviving(overrides: Limits, was: Limits, cfg: Limits): Limits {
    map id | id in overrides && Kept(was, cfg, id) :: overrides[id]
  }

  function Overlaid(live: Limits, overrides: Limits): Limits {
    live + overrides
  }

  /** The new backend honours the configuration it was built from; then the overrides are restored. */
  function Rebuilt(v: View, cfg: Limits): View {
    var surviving := Surviving(v.overrides, v.quotas, cfg);
    View(cfg, surviving, Overlaid(Baked(cfg, v.quotas, v.overrides), surviving))
  }

  function Changed(was: Limits, cfg: Limits): set<BucketId> {
    set id | id in cfg && !(id in was && was[id] == cfg[id])
  }

  /** `live` with the configured limits of `ids` applied. */
  function Applied(live: Limits, cfg: Limits, ids: set<BucketId>): Limits {
    live + map id | id in ids && id in cfg :: cfg[id]
  }

  function Updated(v: View, cfg: Limits): View {
    var changed := Changed(v.quotas, cfg);
    View(cfg, v.overrides - changed, Applied(v.live, cfg, changed))
  }

  /** How a change of the bucket set can fail: before the new backend is prepared, because another acquire is
    pending or the build or the preparation raises, or after that, while the overrides are being restored. */
  datatype Failure = Succeeds | FailsEarly | FailsRestoring

  /** The snapshot is put back. A backend that was reconfigured in place has its new buckets by then, with the
    overrides baked in, so that it no longer matters how many were restored. */
  function Abandoned(v: View, cfg: Limits, inPlace: bool): View {
    if inPlace then v.(live := Baked(cfg, v.quotas, v.overrides)) else v
  }

  /** `_sync_backend_quotas`. */
  function Configure(v: View, cfg: Limits, failure: Failure, inPlace: bool): View {
    if cfg == v.quotas then v
    else if cfg.Keys != v.quotas.Keys then
      match failure
      case Succeeds => Rebuilt(v, cfg)
      case FailsEarly => v
      case FailsRestoring => Abandoned(v, cfg, inPlace)
    else Updated(v, cfg)
  }

  /** `_set_max_capacity_transactional`. The backend may raise although the value landed; a backend with a reader
    is then asked what it holds. An unknown bucket is refused. */
  function Override(v: View, id: BucketId, value: real, raises: bool, landed: bool, reader: bool): View {
    if id !in v.quotas || id !in v.live then v
    else
      var live := if landed then v.live[id := value] else v.live;
      if !raises || (reader && IsClose(live[id], value)) then v.(live := live, overrides := v.overrides[id := value])
      else v.(live := live)
  }

  // ---------------------------------------------------------------- the invariant

  function Effective(v: View, id: BucketId): real
    requires id in v.quotas
  {
    if id in v.overrides then v.overrides[id] else v.quotas[id]
  }

  /** Every bucket's live maximum is its override, or else its configured limit. */
  ghost predicate Agrees(v: View) {
    && (forall id :: id in v.live <==> id in v.quotas)
    && (forall id :: id in v.overrides ==> id in v.quotas)
    && (forall id :: id in v.quotas && id in v.live ==> v.live[id] == Effective(v, id))
  }

  /** The limits baked into the rebuild agree, bucket by bucket, with the overrides restored later: restoring
    changes no live value, so no waiter ever sees a stale limit in between. */
  lemma RestoringChangesNothing(v: View, cfg: Limits)
    ensures Rebuilt(v, cfg).live == Baked(cfg, v.quotas, v.overrides)
    ensures forall id :: id in Surviving(v.overrides, v.quotas, cfg) ==>
              id in cfg && Baked(cfg, v.quotas, v.overrides)[id] == v.overrides[id]
  {
    assert Overlaid(Baked(cfg, v.quotas, v.overrides), Surviving(v.overrides, v.quotas, cfg))
           == Baked(cfg, v.quotas, v.overrides);
  }

  lemma ConfigureAgrees(v: View, cfg: Limits, failure: Failure, inPlace: bool)
    requires Agrees(v) && !(failure.FailsRestoring? && inPlace)
    ensures Agrees(Configure(v, cfg, failure, inPlace))
  {
    if cfg != v.quotas && cfg.Keys != v.quotas.Keys && failure.Succeeds? {
      RestoringChangesNothing(v, cfg);
    }
  }

  lemma KeysDiffer(a: Limits, b: Limits) returns (id: BucketId)
    requires a.Keys != b.Keys
    ensures id in a <==> id !in b
  {
    if a.Keys <= b.Keys {
      assert b.Keys - a.Keys != {} by {
        assert a.Keys + (b.Keys - a.Keys) == b.Keys;
      }
      id :| id in b.Keys - a.Keys;
    } else {
      id :| id in a.Keys && id !in b.Keys;
    }
  }

  /** After a restore that failed the view still agrees exactly when the backend was not changed in place. */
  lemma AbandonedAgreesIff(v: View, cfg: Limits, inPlace: bool)
    requires Agrees(v) && cfg.Keys != v.quotas.Keys
    ensures Agrees(Configure(v, cfg, FailsRestoring, inPlace)) <==> !inPlace
  {
    if inPlace {
      var id := KeysDiffer(cfg, v.quotas);
      assert id in Abandoned(v, cfg, inPlace).live <==> id in cfg;
    }
  }

  /** The configuration that failed heals the view when it is tried again; the old one looks unchanged and does not. */
  lemma AbandonedHealsByRetryOnly(v: View, cfg: Limits)
    requires Agrees(v) && cfg.Keys != v.quotas.Keys
    ensures var broken := Configure(v, cfg, FailsRestoring, true);
            && Configure(broken, cfg, Succeeds, true) == Configure(v, cfg, Succeeds, true)
            && Configure(broken, v.quotas, Succeeds, true) == broken && !Agrees(broken)
  {
    AbandonedAgreesIff(v, cfg, true);
  }

  /** A write that landed is acknowledged or found out, and one that did not is not taken for one that did, unless
    that makes no difference. */
  predicate RecordedAsItIs(v: View, id: BucketId, value: real, raises: bool, landed: bool, reader: bool)
    requires id in v.quotas
  {
    if landed then !raises || reader || value == Effective(v, id)
    else !reader || !IsClose(Effective(v, id), value) || value == Effective(v, id)
  }

  /** An override is recorded exactly as it took effect, if and only if a write that landed is either acknowledged
    or found out, and a write that did not land is not taken for one that did. */
  lemma OverrideAgreesIff(v: View, id: BucketId, value: real, raises: bool, landed: bool, reader: bool)
    requires Agrees(v) && id in v.quotas && (!raises ==> landed)
    ensures Agrees(Override(v, id, value, raises, landed, reader)) <==>
            RecordedAsItIs(v, id, value, raises, landed, reader)
  {
    var v' := Override(v, id, value, raises, landed, reader);
    assert landed ==> IsClose(value, value);
    assert forall other :: other in v.quotas && other != id ==> Effective(v', other) == Effective(v, other);
    assert id in v'.live;
  }

  // ---------------------------------------------------------------- a limits-only change that fails midway

  /** The loop raised after `done` had been applied: nothing else is recorded. */
  function Interrupted(v: View, cfg: Limits, done: set<BucketId>): View {
    v.(live := Applied(v.live, cfg, done))
  }

  /** The view stays in agreement exactly when every applied limit is what the bucket had anyway. */
  lemma InterruptedAgreesIff(v: View, cfg: Limits, done: set<BucketId>)
    requires Agrees(v) && done <= Changed(v.quotas, cfg) && cfg.Keys == v.quotas.Keys
    ensures Agrees(Interrupted(v, cfg, done)) <==> forall id :: id in done ==> cfg[id] == v.live[id]
  {
    var v' := Interrupted(v, cfg, done);
    forall id | id in v.quotas ensures Effective(v', id) == Effective(v, id) {
    }
    if Agrees(v') {
      forall id | id in done ensures cfg[id] == v.live[id] {
        assert id in v'.live && v'.live[id] == cfg[id];
      }
    }
  }

  /** The same configuration again heals the view completely: it ends where an undisturbed change would have. */
  lemma RetryHeals(v: View, cfg: Limits, done: set<BucketId>, inPlace: bool)
    requires Agrees(v) && cfg != v.quotas && cfg.Keys == v.quotas.Keys && done <= Changed(v.quotas, cfg)
    ensures Configure(Interrupted(v, cfg, done), cfg, Succeeds, inPlace) == Configure(v, cfg, Succeeds, inPlace)
  {
    var changed := Changed(v.quotas, cfg);
    assert Applied(Applied(v.live, cfg, done), cfg, changed) == Applied(v.live, cfg, changed);
  }

  /** Going back to the old configuration never does: it looks unchanged, and whatever was applied stays. */
  lemma GoingBackDoesNotHeal(v: View, cfg: Limits, done: set<BucketId>, id: BucketId, inPlace: bool)
    requires Agrees(v) && cfg.Keys == v.quotas.Keys && done <= Changed(v.quotas, cfg)
    requires id in done && cfg[id] != v.live[id]
    ensures Configure(Interrupted(v, cfg, done), v.quotas, Succeeds, inPlace) == Interrupted(v, cfg, done)
    ensures !Agrees(Configure(Interrupted(v, cfg, done), v.quotas, Succeeds, inPlace))
  {
    InterruptedAgreesIff(v, cfg, done);
  }

  // ---------------------------------------------------------------- runs

  /** `Interrupts`: a limits-only change that raises after `done` has been applied. An override that does not raise
    has landed. */
  datatype Event =
    | Configures(cfg: Limits, failure: Failure)
    | Interrupts(cfg: Limits, done: set<BucketId>)
    | Overrides(id: BucketId, value: real, raises: bool, landed: bool, reader: bool)
    | Evicts

  predicate Applicable(v: View, cfg: Limits, done: set<BucketId>) {
    cfg.Keys == v.quotas.Keys && done <= Changed(v.quotas, cfg)
  }

  /** The family is unknown until its first configuration builds a backend, and again after eviction. */
  function Apply(v: Option<View>, e: Event, inPlace: bool): Option<View> {
    match e
    case Configures(cfg, failure) =>
      if v.Some? then Some(Configure(v.value, cfg, failure, inPlace))
      else if failure.FailsEarly? then None
      else Some(View(cfg, map[], cfg))
    case Interrupts(cfg, done) =>
      if v.Some? && Applicable(v.value, cfg, done) then Some(Interrupted(v.value, cfg, done)) else v
    case Overrides(id, value, raises, landed, reader) =>
      if v.Some? then Some(Override(v.value, id, value, raises, landed || !raises, reader)) else None
    case Evicts => None
  }

  function Run(events: seq<Event>, inPlace: bool): Option<View>
    decreases |events|
  {
    if events == [] then None
    else Apply(Run(events[..|events| - 1], inPlace), events[|events| - 1], inPlace)
  }

  ghost predicate InAgreement(v: Option<View>) {
    v.Some? ==> Agrees(v.value)
  }

  /** The event leaves limiter and backend in agreement: no rebuild in place fails while restoring, every limit
    applied by a change that then fails was in force anyway, and an override is recorded as it took effect. */
  ghost predicate Harmless(v: Option<View>, e: Event, inPlace: bool) {
    v.Some? ==>
      match e
      case Configures(cfg, failure) => cfg.Keys == v.value.quotas.Keys || !failure.FailsRestoring? || !inPlace
      case Interrupts(cfg, done) =>
        Applicable(v.value, cfg, done) ==> forall id :: id in done && id in v.value.live ==> cfg[id] == v.value.live[id]
      case Overrides(id, value, raises, landed, reader) =>
        id in v.value.quotas ==> RecordedAsItIs(v.value, id, value, raises, landed || !raises, reader)
      case Evicts => true
  }

  lemma ApplyAgreesIff(v: Option<View>, e: Event, inPlace: bool)
    requires InAgreement(v)
    ensures InAgreement(Apply(v, e, inPlace)) <==> Harmless(v, e, inPlace)
  {
    if v.Some? {
      match e
      case Configures(cfg, failure) =>
        if cfg.Keys != v.value.quotas.Keys && failure.FailsRestoring? {
          AbandonedAgreesIff(v.value, cfg, inPlace);
        } else {
          ConfigureAgrees(v.value, cfg, failure, false);
        }
      case Interrupts(cfg, done) =>
        if Applicable(v.value, cfg, done) {
          InterruptedAgreesIff(v.value, cfg, done);
        }
      case Overrides(id, value, raises, landed, reader) =>
        if id in v.value.quotas {
          OverrideAgreesIff(v.value, id, value, raises, landed || !raises, reader);
        }
      case Evicts =>
    }
  }

  /** What is known after the first `n` events. */
  function After(events: seq<Event>, n: nat, inPlace: bool): Option<View>
    requires n <= |events|
  {
    Run(events[..n], inPlace)
  }

  lemma AfterOneMore(events: seq<Event>, n: nat, inPlace: bool)
    requires n < |events|
    ensures After(events, n + 1, inPlace) == Apply(After(events, n, inPlace), events[n], inPlace)
  {
    assert events[..n + 1][..n] == events[..n];
  }

  ghost predicate AllHarmless(events: seq<Event>, n: nat, inPlace: bool)
    requires n <= |events|
  {
    forall i :: 0 <= i < n ==> Harmless(After(events, i, inPlace), events[i], inPlace)
  }

  lemma {:induction false} HarmlessRunsAgree(events: seq<Event>, n: nat, inPlace: bool)
    requires n <= |events| && AllHarmless(events, n, inPlace)
    ensures InAgreement(After(events, n, inPlace))
  {
    if n == 0 {
      assert events[..0] == [];
    } else {
      hide InAgreement, After, Harmless;
      HarmlessRunsAgree(events, n - 1, inPlace);
      AfterOneMore(events, n - 1, inPlace);
      ApplyAgreesIff(After(events, n - 1, inPlace), events[n - 1], inPlace);
    }
  }

  /** Over every run, whatever fails in it, limiter and backend agree throughout exactly as long as every event is
    harmless. */
  lemma RunsAgreeIff(events: seq<Event>, inPlace: bool)
    ensures (forall n :: 0 <= n <= |events| ==> InAgreement(After(events, n, inPlace))) <==>
            AllHarmless(events, |events|, inPlace)
  {
    hide InAgreement, After, Harmless;
    if AllHarmless(events, |events|, inPlace) {
      forall n | 0 <= n <= |events| ensures InAgreement(After(events, n, inPlace)) {
        HarmlessRunsAgree(events, n, inPlace);
      }
    } else {
      var n :| 0 <= n < |events| && !Harmless(After(events, n, inPlace), events[n], inPlace);
      AfterOneMore(events, n, inPlace);
      if InAgreement(After(events, n, inPlace)) {
        ApplyAgreesIff(After(events, n, inPlace), events[n], inPlace);
        assert !InAgreement(After(events, n + 1, inPlace));
      }
    }
  }

  // ---------------------------------------------------------------- the history of a bucket

  /** One bucket as its history tells it: the limit last configured for it, and the override recorded since that
    limit last changed or the bucket was last added. */
  datatype Fate = Dropped | Configured(limit: real, override: Option<real>)

  function FateAfterConfig(fate: Fate, cfg: Limits, id: BucketId): Fate {
    if id !in cfg then Dropped
    else if fate.Configured? && fate.limit == cfg[id] then fate
    else Configured(cfg[id], None)
  }

  /** A configuration that changes the bucket set, or is the first, and fails is as if it had not been seen. */
  predicate Seen(v: Option<View>, cfg: Limits, failure: Failure) {
    if v.None? then !failure.FailsEarly? else failure.Succeeds? || cfg.Keys == v.value.quotas.Keys
  }

  /** The override is acknowledged, or the backend shows the value when asked. */
  predicate Recorded(v: Option<View>, e: Event) {
    && e.Overrides? && v.Some? && e.id in v.value.live
    && (!e.raises || (e.reader && (e.landed || IsClose(v.value.live[e.id], e.value))))
  }

  function NextFate(v: Option<View>, e: Event, id: BucketId, fate: Fate): Fate {
    match e
    case Configures(cfg, failure) => if Seen(v, cfg, failure) then FateAfterConfig(fate, cfg, id) else fate
    case Interrupts(_, _) => fate
    case Overrides(other, value, _, _, _) =>
      if other == id && fate.Configured? && Recorded(v, e) then fate.(override := Some(value)) else fate
    case Evicts => Dropped
  }

  function FateOf(events: seq<Event>, n: nat, inPlace: bool, id: BucketId): Fate
    requires n <= |events|
  {
    if n == 0 then Dropped
    else NextFate(After(events, n - 1, inPlace), events[n - 1], id, FateOf(events, n - 1, inPlace, id))
  }

  ghost predicate Matches(v: Option<View>, id: BucketId, fate: Fate) {
    if v.None? then fate.Dropped? else ViewMatches(v.value, id, fate)
  }

  ghost predicate ViewMatches(v: View, id: BucketId, fate: Fate) {
    && (id in v.quotas <==> fate.Configured?)
    && (id in v.live <==> fate.Configured?)
    && (id in v.quotas ==> v.quotas[id] == fate.limit)
    && (id in v.overrides <==> fate.Configured? && fate.override.Some?)
    && (id in v.overrides ==> fate.override == Some(v.overrides[id]))
    && (id in v.live ==> v.live[id] == if fate.override.Some? then fate.override.value else fate.limit)
  }

  lemma ConfigureMatches(v: View, cfg: Limits, id: BucketId, fate: Fate, inPlace: bool)
    requires ViewMatches(v, id, fate) && Agrees(v)
    ensures ViewMatches(Configure(v, cfg, Succeeds, inPlace), id, FateAfterConfig(fate, cfg, id))
  {
    if cfg != v.quotas && cfg.Keys != v.quotas.Keys {
      RestoringChangesNothing(v, cfg);
    } else if cfg != v.quotas {
      assert id in cfg <==> id in v.quotas;
    }
  }

  lemma InterruptionMatches(v: View, cfg: Limits, done: set<BucketId>, id: BucketId, fate: Fate)
    requires ViewMatches(v, id, fate) && Agrees(v) && Applicable(v, cfg, done)
    requires forall other :: other in done && other in v.live ==> cfg[other] == v.live[other]
    ensures ViewMatches(Interrupted(v, cfg, done), id, fate)
  {
  }

  lemma OverrideMatches(v: View, e: Event, id: BucketId, fate: Fate)
    requires ViewMatches(v, id, fate) && Agrees(v) && e.Overrides? && Harmless(Some(v), e, false)
    ensures var fate' := if e.id == id && fate.Configured? && Recorded(Some(v), e) then fate.(override := Some(e.value))
                         else fate;
            ViewMatches(Override(v, e.id, e.value, e.raises, e.landed || !e.raises, e.reader), id, fate')
  {
    assert IsClose(e.value, e.value);
  }

  /** In every state reached by harmless events each bucket's live maximum is the last override recorded since its
    configured limit last changed or it was last added, and otherwise its configured limit. Configurations that failed
    leave no trace, eviction leaves nothing. */
  lemma {:induction false} LiveMaximumFollowsHistory(events: seq<Event>, n: nat, inPlace: bool, id: BucketId)
    requires n <= |events| && AllHarmless(events, n, inPlace)
    ensures Matches(After(events, n, inPlace), id, FateOf(events, n, inPlace, id))
  {
    if n == 0 {
      assert events[..0] == [];
    } else {
      hide After, AllHarmless, Agrees;
      assert AllHarmless(events, n - 1, inPlace) && Harmless(After(events, n - 1, inPlace), events[n - 1], inPlace) by {
        HarmlessBefore(events, n, inPlace);
      }
      LiveMaximumFollowsHistory(events, n - 1, inPlace, id);
      AfterOneMore(events, n - 1, inPlace);
      HarmlessRunsAgree(events, n - 1, inPlace);
      ApplyMatches(After(events, n - 1, inPlace), events[n - 1], inPlace, id, FateOf(events, n - 1, inPlace, id));
    }
  }

  lemma HarmlessBefore(events: seq<Event>, n: nat, inPlace: bool)
    requires 0 < n <= |events| && AllHarmless(events, n, inPlace)
    ensures AllHarmless(events, n - 1, inPlace) && Harmless(After(events, n - 1, inPlace), events[n - 1], inPlace)
  {
  }

  lemma ApplyMatches(v: Option<View>, e: Event, inPlace: bool, id: BucketId, fate: Fate)
    requires InAgreement(v) && Matches(v, id, fate) && Harmless(v, e, inPlace)
    ensures Matches(Apply(v, e, inPlace), id, NextFate(v, e, id, fate))
  {
    if v.Some? {
      hide ViewMatches, Agrees, IsClose;
      match e
      case Configures(cfg, failure) =>
        if Seen(v, cfg, failure) {
          ConfigureMatches(v.value, cfg, id, fate, inPlace);
        }
      case Interrupts(cfg, done) =>
        if Applicable(v.value, cfg, done) {
          InterruptionMatches(v.value, cfg, done, id, fate);
        }
      case Overrides(_, _, _, _, _) => OverrideMatches(v.value, e, id, fate);
      case Evicts =>
    }
  }

  // ---------------------------------------------------------------- rebuilds in place

  const ONE_BUCKET: Limits := map[BucketId(0, 60) := 1.0]
  const OTHER_BUCKET: Limits := map[BucketId(1, 60) := 1.0]

  lemma RestoringInPlaceCanFail() returns (events: seq<Event>)
    ensures Undisturbed(events) && !InAgreement(Run(events, true))
  {
    var first, second := Configures(ONE_BUCKET, Succeeds), Configures(OTHER_BUCKET, FailsRestoring);
    events := [first, second];
    assert events[..1] == [first] && [first][..0] == [];
    assert Run([first], true) == Apply(None, first, true) == Some(View(ONE_BUCKET, map[], ONE_BUCKET));
    assert Run(events, true) == Apply(Run([first], true), second, true);
    assert BucketId(0, 60) in ONE_BUCKET && BucketId(0, 60) !in OTHER_BUCKET;
    AbandonedAgreesIff(View(ONE_BUCKET, map[], ONE_BUCKET), OTHER_BUCKET, true);
  }

  /** Only rebuilds fail. */
  predicate Undisturbed(events: seq<Event>) {
    forall i :: 0 <= i < |events| ==> !events[i].Interrupts? && (events[i].Overrides? ==> !events[i].raises)
  }

  /** Where only rebuilds fail, limiter and backend agree after every run exactly when rebuilds do not change the
    backend in place. */
  lemma RebuildsAgreeIff(inPlace: bool)
    ensures (forall events :: Undisturbed(events) ==> InAgreement(Run(events, inPlace))) <==> !inPlace
  {
    if inPlace {
      hide InAgreement, Run;
      var events := RestoringInPlaceCanFail();
    } else {
      forall events | Undisturbed(events) ensures InAgreement(Run(events, inPlace)) {
        hide InAgreement, Run;
        assert events[..|events|] == events;
        HarmlessRunsAgree(events, |events|, inPlace);
      }
    }
  }

  // ---------------------------------------------------------------- the limiter's tables

  datatype SyncOutcome = Unchanged | RebuildFailed | RestoreFailed | RebuildDone | LimitsDone | LimitsFailed

  function FailureOf(outcome: SyncOutcome): Failure {
    match outcome
    case RebuildFailed => FailsEarly
    case RestoreFailed => FailsRestoring
    case _ => Succeeds
  }

  /** `early`: another acquire is pending, or the build or the preparation raises; `failing`: the buckets for which
    the backend's maximum cannot be set. */
  function OutcomeOf(v: View, cfg: Limits, early: bool, failing: set<BucketId>): SyncOutcome {
    if cfg == v.quotas then Unchanged
    else if cfg.Keys != v.quotas.Keys then
      if early then RebuildFailed
      else if Surviving(v.overrides, v.quotas, cfg).Keys !! failing then RebuildDone
      else RestoreFailed
    else if Changed(v.quotas, cfg) !! failing then LimitsDone
    else LimitsFailed
  }

  /** Which way out it is: the same limits; another bucket set, refused or not built, not restored, or done; other
    limits for the same buckets, one of them refused by the backend, or all applied. */
  lemma OutcomeIsRight(v: View, cfg: Limits, early: bool, failing: set<BucketId>)
    ensures var outcome := OutcomeOf(v, cfg, early, failing);
            var rebuilds := exists id :: (id in cfg) != (id in v.quotas);
            var unrestored := exists id :: id in failing && id in v.overrides && id in cfg && id in v.quotas
                                            && v.quotas[id] == cfg[id];
            var unapplied := exists id :: id in failing && id in cfg && (id in v.quotas ==> v.quotas[id] != cfg[id]);
            && (outcome == Unchanged <==> cfg == v.quotas)
            && (outcome == RebuildFailed <==> rebuilds && early)
            && (outcome == RestoreFailed <==> rebuilds && !early && unrestored)
            && (outcome == RebuildDone <==> rebuilds && !early && !unrestored)
            && (outcome == LimitsFailed <==> cfg != v.quotas && !rebuilds && unapplied)
            && (outcome == LimitsDone <==> cfg != v.quotas && !rebuilds && !unapplied)
  {
    if cfg.Keys != v.quotas.Keys {
      var id := KeysDiffer(cfg, v.quotas);
      assert (id in cfg) != (id in v.quotas);
    } else {
      assert forall id :: id in cfg <==> id in v.quotas;
    }
  }

  class FamilyTables {
    var quotas: Option<Limits>
    var overrides: Limits
    var live: Limits

    ghost function Contents(): View
      requires quotas.Some?
      reads this
    {
      View(quotas.value, overrides, live)
    }

    constructor (cfg: Limits)
      ensures quotas.Some? && Contents() == View(cfg, map[], cfg)
    {
      quotas, overrides, live := Some(cfg), map[], cfg;
    }

    method BakeOverrides(cfg: Limits, was: Limits) returns (baked: Limits)
      ensures baked == Baked(cfg, was, overrides)
      ensures baked.Keys == cfg.Keys
      ensures forall id :: id in cfg ==>
                baked[id] == if id in overrides && id in was && was[id] == cfg[id] then overrides[id] else cfg[id]
    {
      baked := map[];
      var todo := cfg.Keys;
      while todo != {}
        invariant todo <= cfg.Keys
        invariant forall id :: id in baked <==> id in cfg && id !in todo
        invariant forall id :: id in baked ==> baked[id] == Baked(cfg, was, overrides)[id]
      {
        var id :| id in todo;
        if id !in overrides || !(id in was && was[id] == cfg[id]) {
          baked := baked[id := cfg[id]];
        } else {
          baked := baked[id := overrides[id]];
        }
        todo := todo - {id};
      }
      assert baked == Baked(cfg, was, overrides);
    }

    /** Restores on a prepared backend; the call for a bucket in `failing` raises. */
    method RestoreOverrides(prepared: Limits, was: Limits, cfg: Limits, failing: set<BucketId>)
      returns (maxima: Limits, restored: Limits, ok: bool)
      ensures restored.Keys <= Surviving(overrides, was, cfg).Keys
      ensures forall id :: id in restored ==> restored[id] == overrides[id]
      ensures maxima == Overlaid(prepared, restored)
      ensures forall id :: id in maxima <==> id in prepared || id in restored
      ensures forall id :: id in maxima ==> maxima[id] == if id in restored then overrides[id] else prepared[id]
      ensures ok ==> restored == Surviving(overrides, was, cfg)
      ensures ok ==> forall id :: id in restored <==> id in overrides && id in was && id in cfg && was[id] == cfg[id]
      ensures ok <==> Surviving(overrides, was, cfg).Keys !! failing
    {
      maxima, restored := prepared, map[];
      var todo := overrides.Keys;
      while todo != {}
        invariant todo <= overrides.Keys
        invariant forall id :: id in restored <==> id in overrides && id !in todo && Kept(was, cfg, id)
        invariant forall id :: id in restored ==> restored[id] == overrides[id] && id !in failing
        invariant forall id :: id in maxima <==> id in prepared || id in restored
        invariant forall id :: id in maxima ==> maxima[id] == if id in restored then restored[id] else prepared[id]
      {
        var id :| id in todo;
        if id in cfg && id in was && was[id] == cfg[id] {
          if id in failing {
            assert id in Surviving(overrides, was, cfg).Keys;
            assert maxima == Overlaid(prepared, restored);
            return maxima, restored, false;
          }
          maxima := maxima[id := overrides[id]];
          restored := restored[id := overrides[id]];
        }
        todo := todo - {id};
      }
      assert restored == Surviving(overrides, was, cfg);
      assert maxima == Overlaid(prepared, restored);
      return maxima, restored, true;
    }

    /** Applies the changed limits one by one, in any order; the call for a bucket in `failing` raises. */
    method ApplyLimits(cfg: Limits, was: Limits, failing: set<BucketId>) returns (done: set<BucketId>, ok: bool)
      modifies `live
      ensures live == Applied(old(live), cfg, done)
      ensures done <= Changed(was, cfg)
      ensures ok ==> done == Changed(was, cfg)
      ensures !ok ==> done !! failing && done != Changed(was, cfg)
      ensures ok <==> Changed(was, cfg) !! failing
    {
      done := {};
      var todo := set id | id in cfg && !(id in was && was[id] == cfg[id]);
      while todo != {}
        invariant todo !! done && todo + done == Changed(was, cfg) && done !! failing
        invariant forall id :: id in live <==> id in old(live) || id in done
        invariant forall id :: id in live ==> live[id] == if id in done then cfg[id] else old(live)[id]
      {
        var id :| id in todo;
        if id in failing {
          assert live == Applied(old(live), cfg, done);
          return done, false;
        }
        live := live[id := cfg[id]];
        done := done + {id};
        todo := todo - {id};
      }
      assert live == Applied(old(live), cfg, done);
      return done, true;
    }

    /** `_set_max_capacity_transactional`. A raising backend is asked what it holds, if it can tell. */
    method SetMaxCapacity(id: BucketId, value: real, raises: bool, landed: bool, reader: bool) returns (recorded: bool)
      requires quotas.Some? && (!raises ==> landed)
      modifies `live, `overrides
      ensures Contents() == Override(old(Contents()), id, value, raises, landed, reader)
      ensures recorded <==>
              && id in quotas.value && id in old(live)
              && (!raises || (reader && (landed || IsClose(old(live)[id], value))))
      ensures overrides == if recorded then old(overrides)[id := value] else old(overrides)
      ensures live == if landed && id in quotas.value && id in old(live) then old(live)[id := value] else old(live)
    {
      if id !in quotas.value || id !in live {
        return false;
      }
      assert IsClose(value, value);
      if landed {
        live := live[id := value];
      }
      if raises && !(reader && IsClose(live[id], value)) {
        return false;
      }
      overrides := overrides[id := value];
      return true;
    }

    /** `_sync_backend_quotas`, under the limiter lock. While the backend is being rebuilt there is no snapshot;
      every way out leaves one again. `refused`: another acquire is pending. */
    method SyncBackendQuotas(cfg: Limits, refused: bool, buildFails: bool, failing: set<BucketId>, inPlace: bool)
      returns (outcome: SyncOutcome, applied: set<BucketId>)
      requires quotas.Some?
      modifies this
      ensures quotas.Some?
      ensures outcome == OutcomeOf(old(Contents()), cfg, refused || buildFails, failing)
      ensures outcome != LimitsFailed ==>
                Contents() == Configure(old(Contents()), cfg, FailureOf(outcome), inPlace)
      ensures outcome == LimitsFailed ==>
                applied <= Changed(old(Contents()).quotas, cfg)
                    && Contents() == Interrupted(old(Contents()), cfg, applied)
    {
      var before := quotas.value;
      if cfg == before {
        return Unchanged, {};
      }
      if cfg.Keys != before.Keys {
        outcome := Rebuild(cfg, before, refused, buildFails, failing, inPlace);
        return outcome, {};
      }
      var ok;
      applied, ok := ApplyLimits(cfg, before, failing);
      if !ok {
        return LimitsFailed, applied;
      }
      overrides := overrides - applied;
      quotas := Some(cfg);
      return LimitsDone, applied;
    }

    /** The branch for a changed bucket set: bake, invalidate, build and prepare, restore, install. */
    method Rebuild(cfg: Limits, before: Limits, refused: bool, buildFails: bool, failing: set<BucketId>, inPlace: bool)
      returns (outcome: SyncOutcome)
      requires quotas == Some(before) && cfg.Keys != before.Keys
      modifies this
      ensures quotas.Some?
      ensures outcome == OutcomeOf(old(Contents()), cfg, refused || buildFails, failing)
      ensures Contents() == Configure(old(Contents()), cfg, FailureOf(outcome), inPlace)
    {
      ghost var v := Contents();
      var prepared := BakeOverrides(cfg, before);
      if refused {
        return RebuildFailed;
      }
      quotas := None;
      if buildFails {
        quotas := Some(before);
        return RebuildFailed;
      }
      if inPlace {
        live := prepared;
      }
      var maxima, restored, ok := RestoreOverrides(prepared, before, cfg, failing);
      BakedAlready(v, cfg, restored);
      if !ok {
        quotas := Some(before);
        return RestoreFailed;
      }
      live, overrides, quotas := maxima, restored, Some(cfg);
      return RebuildDone;
    }
  }

  /** Restoring any of the surviving overrides finds them baked in. */
  lemma BakedAlready(v: View, cfg: Limits, restored: Limits)
    requires restored.Keys <= Surviving(v.overrides, v.quotas, cfg).Keys
    requires forall id :: id in restored ==> restored[id] == v.overrides[id]
    ensures Overlaid(Baked(cfg, v.quotas, v.overrides), restored) == Baked(cfg, v.quotas, v.overrides)
  {
    forall id | id in restored ensures id in cfg && Baked(cfg, v.quotas, v.overrides)[id] == restored[id] {
      assert id in Surviving(v.overrides, v.quotas, cfg);
    }
  }
}
