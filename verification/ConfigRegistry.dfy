/** The registry that keeps aliases of one model family on one configuration signature.

  The program never looks at the other aliases of a family: it keeps, per family, how many
  aliases were counted under each signature. `CheckDecides` is the judgement on all aliases
  that this constant-time check amounts to.
*/
module ConfigRegistry {
  import opened Types

  type Signature = nat

  datatype Caps = Caps(maxAliases: nat, maxFamilies: nat)

  datatype Registry = Registry(
    aliasFamily: map<Alias, Family>,
    aliasSignature: map<Alias, Signature>,
    signatureCounts: map<Family, map<Signature, nat>>,
    aliasCounts: map<Family, nat>,
    familySignature: map<Family, Signature>,
    representative: map<Family, Alias>)

  const NewRegistry := Registry(map[], map[], map[], map[], map[], map[])

  datatype Verdict =
    Accepted | Cached | Inconsistent | RepresentativeFails | FamilyCapReached | AliasCapReached | FamilyChanged

  /** What `config_getter` answers for the representative alias; `None` when it raises. */
  type RepresentativeConfig = Option<(Family, Signature)>

  // ---------------------------------------------------------------- the constant-time check

  function CountsOf(g: Registry, f: Family): map<Signature, nat> {
    if f in g.signatureCounts then g.signatureCounts[f] else map[]
  }

  /** The family's counts without this alias's own last signature. */
  function OthersCounted(g: Registry, model: Alias, f: Family): map<Signature, nat> {
    var counts := CountsOf(g, f);
    if model !in g.aliasSignature then counts
    else
      var previous := g.aliasSignature[model];
      if previous !in counts then counts
      else if counts[previous] <= 1 then counts - {previous}
      else counts[previous := counts[previous] - 1]
  }

  predicate Conflicts(counts: map<Signature, nat>, sig: Signature) {
    exists other :: other in counts && counts[other] > 0 && other != sig
  }

  predicate HasOtherRepresentative(g: Registry, model: Alias, f: Family) {
    f in g.representative && g.representative[f] != model
  }

  /** `_validated_model_family` for the representative: its own routing must not have changed. */
  predicate RepresentativeRaises(g: Registry, f: Family, answer: RepresentativeConfig) {
    match answer
    case None => true
    case Some((family, _)) =>
      f in g.representative && g.representative[f] in g.aliasFamily && g.aliasFamily[g.representative[f]] != family
  }

  function Increment(counts: map<Signature, nat>, sig: Signature): map<Signature, nat> {
    counts[sig := (if sig in counts then counts[sig] else 0) + 1]
  }

  /** The family's new counts: the alias is added to `counts` unless they already hold it. */
  function Recounted(g: Registry, model: Alias, f: Family, sig: Signature, counts: map<Signature, nat>,
                     reset: bool): map<Signature, nat> {
    var alreadyCounted := model in g.aliasSignature && (reset || g.aliasSignature[model] !in CountsOf(g, f));
    if model !in g.aliasFamily || !alreadyCounted then Increment(counts, sig) else counts
  }

  /** The registry after `model` has been recorded with `sig` in `f`. */
  function Record(g: Registry, model: Alias, f: Family, sig: Signature, recounted: map<Signature, nat>): Registry {
    var held := if f in g.aliasCounts then g.aliasCounts[f] else 0;
    Registry(
      g.aliasFamily[model := f],
      g.aliasSignature[model := sig],
      g.signatureCounts[f := recounted],
      if model !in g.aliasFamily then g.aliasCounts[f := held + 1] else g.aliasCounts,
      g.familySignature[f := sig],
      g.representative)
  }

  function FinishCheck(caps: Caps, g: Registry, model: Alias, f: Family, sig: Signature, counts: map<Signature, nat>,
                       reset: bool, register: bool): (Registry, Verdict) {
    if f !in g.familySignature && |g.familySignature| >= caps.maxFamilies then (g, FamilyCapReached)
    else if model !in g.aliasFamily && |g.aliasFamily| >= caps.maxAliases then (g, AliasCapReached)
    else if !register then (g, Accepted)
    else (Record(g, model, f, sig, Recounted(g, model, f, sig, counts, reset)), Accepted)
  }

  /** `_validate_shared_model_family_config`, under the validation lock. */
  function Check(caps: Caps, g: Registry, model: Alias, f: Family, sig: Signature, answer: RepresentativeConfig,
                 register: bool): (Registry, Verdict) {
    if model in g.aliasSignature && g.aliasSignature[model] == sig then (g, Cached)
    else
      var others := OthersCounted(g, model, f);
      if !Conflicts(others, sig) then FinishCheck(caps, g, model, f, sig, others, false, register)
      else if !HasOtherRepresentative(g, model, f) then (g, Inconsistent)
      else if RepresentativeRaises(g, f, answer) then (g, RepresentativeFails)
      else if answer.value != (f, sig) then (g, Inconsistent)
      else
        var held := if f in g.aliasCounts then g.aliasCounts[f] else 0;
        FinishCheck(caps, g, model, f, sig, map[sig := held], true, register)
  }

  // ---------------------------------------------------------------- what it amounts to

  function Aliases(g: Registry, f: Family): set<Alias> {
    set a | a in g.aliasFamily && g.aliasFamily[a] == f
  }

  /** The tables list the same aliases and the same families, within the caps. */
  ghost predicate TablesAgree(caps: Caps, g: Registry) {
    && (forall a :: a in g.aliasFamily <==> a in g.aliasSignature)
    && (forall f :: f in g.familySignature <==> f in g.signatureCounts)
    && (forall f :: f in g.familySignature <==> f in g.aliasCounts)
    && (forall a :: a in g.aliasFamily ==> g.aliasFamily[a] in g.familySignature)
    && |g.aliasFamily| <= caps.maxAliases
    && |g.familySignature| <= caps.maxFamilies
  }

  /** The registry in every reachable state: one signature per family, counted once per alias. */
  ghost predicate Valid(caps: Caps, g: Registry) {
    TablesAgree(caps, g) && forall f :: f in g.familySignature ==> FamilyValid(g, f)
  }

  ghost predicate FamilyValid(g: Registry, f: Family)
    requires f in g.familySignature && f in g.signatureCounts && f in g.aliasCounts
  {
    && g.signatureCounts[f] == map[g.familySignature[f] := |Aliases(g, f)|]
    && g.aliasCounts[f] == |Aliases(g, f)|
    && (exists a :: a in Aliases(g, f) && a in g.aliasSignature && g.aliasSignature[a] == g.familySignature[f])
  }

  /** The alias is new, or already routed to this family. */
  predicate Routed(g: Registry, model: Alias, f: Family) {
    model in g.aliasFamily ==> g.aliasFamily[model] == f
  }

  /** No other alias holds the family to a different signature. */
  ghost predicate Unopposed(g: Registry, model: Alias, f: Family, sig: Signature) {
    f in g.familySignature && g.familySignature[f] != sig ==>
      forall a :: a in g.aliasFamily && g.aliasFamily[a] == f ==> a == model
  }

  /** The judgement, on all aliases of the family: what each verdict means, in terms of the tables alone. `agreed`:
    no other alias holds the family to a different signature, or the representative, another alias, has moved to
    the new one with this alias. */
  ghost predicate Judged(caps: Caps, g: Registry, model: Alias, f: Family, sig: Signature,
                         answer: RepresentativeConfig, verdict: Verdict) {
    var cached := model in g.aliasSignature && g.aliasSignature[model] == sig;
    var opposed := f in g.familySignature && g.familySignature[f] != sig
                   && exists a :: a in g.aliasFamily && g.aliasFamily[a] == f && a != model;
    var represented := f in g.representative && g.representative[f] != model;
    var astray := represented && (answer.None?
                  || (g.representative[f] in g.aliasFamily && g.aliasFamily[g.representative[f]] != answer.value.0));
    var agreed := !opposed || (represented && !astray && answer == Some((f, sig)));
    var familyFits := f in g.familySignature || |g.familySignature| < caps.maxFamilies;
    var aliasFits := model in g.aliasFamily || |g.aliasFamily| < caps.maxAliases;
    && (verdict == Cached <==> cached)
    && (verdict == RepresentativeFails <==> !cached && opposed && astray)
    && (verdict == Inconsistent <==> !cached && !agreed && !astray)
    && (verdict == FamilyCapReached <==> !cached && agreed && !familyFits)
    && (verdict == AliasCapReached <==> !cached && agreed && familyFits && !aliasFits)
    && (verdict == Accepted <==> !cached && agreed && familyFits && aliasFits)
  }

  /** The alias is one of those counted under the family's signature. */
  predicate CountedUnder(g: Registry, model: Alias, f: Family) {
    && model in g.aliasFamily && g.aliasFamily[model] == f
    && model in g.aliasSignature && f in g.familySignature && g.aliasSignature[model] == g.familySignature[f]
  }

  /** How many siblings the check sees under the family's signature. */
  ghost function Siblings(g: Registry, model: Alias, f: Family): int {
    |Aliases(g, f)| - if CountedUnder(g, model, f) then 1 else 0
  }

  lemma OneSignature(caps: Caps, g: Registry, f: Family) returns (first: Alias)
    requires Valid(caps, g) && f in g.familySignature
    ensures CountsOf(g, f) == map[g.familySignature[f] := |Aliases(g, f)|] && |Aliases(g, f)| > 0
    ensures f in g.aliasCounts && g.aliasCounts[f] == |Aliases(g, f)|
    ensures first in Aliases(g, f) && CountedUnder(g, first, f)
  {
    assert FamilyValid(g, f);
    first :| first in Aliases(g, f) && first in g.aliasSignature && g.aliasSignature[first] == g.familySignature[f];
    SubsetIsSmaller({first}, Aliases(g, f));
  }

  lemma OthersShape(caps: Caps, g: Registry, model: Alias, f: Family)
    requires Valid(caps, g) && Routed(g, model, f)
    ensures f !in g.familySignature ==> OthersCounted(g, model, f) == map[]
    ensures f in g.familySignature ==>
              OthersCounted(g, model, f) ==
                if Siblings(g, model, f) > 0 then map[g.familySignature[f] := Siblings(g, model, f)] else map[]
  {
    if f in g.familySignature {
      var first := OneSignature(caps, g, f);
      assert model in g.aliasSignature ==> model in g.aliasFamily;
      hide Valid, Aliases;
      var counts := CountsOf(g, f);
      var s := g.familySignature[f];
      if CountedUnder(g, model, f) {
        assert counts - {s} == map[];
        assert counts[s] > 1 ==> counts[s := counts[s] - 1] == map[s := counts[s] - 1];
      } else {
        assert OthersCounted(g, model, f) == counts;
      }
    }
  }

  lemma SiblingsAreOthers(caps: Caps, g: Registry, model: Alias, f: Family)
    requires Valid(caps, g) && f in g.familySignature
    ensures Siblings(g, model, f) > 0 <==> exists a :: a in Aliases(g, f) && a != model
  {
    var first := OneSignature(caps, g, f);
    if Aliases(g, f) <= {model} {
      assert Aliases(g, f) == {model} && first == model;
    } else {
      var other :| other in Aliases(g, f) && other != model;
      if model in Aliases(g, f) {
        SubsetIsSmaller({model, other}, Aliases(g, f));
      }
    }
  }

  lemma OthersAreOpposition(caps: Caps, g: Registry, model: Alias, f: Family, sig: Signature)
    requires Valid(caps, g) && Routed(g, model, f)
    ensures Conflicts(OthersCounted(g, model, f), sig) <==> !Unopposed(g, model, f, sig)
  {
    hide Valid, OthersCounted, Siblings;
    OthersShape(caps, g, model, f);
    if f in g.familySignature {
      SiblingsAreOthers(caps, g, model, f);
      if Siblings(g, model, f) > 0 {
        var a :| a in Aliases(g, f) && a != model;
        assert a in g.aliasFamily && g.aliasFamily[a] == f;
        assert g.familySignature[f] in OthersCounted(g, model, f);
      } else {
        forall a | a in g.aliasFamily && g.aliasFamily[a] == f ensures a == model {
          assert a in Aliases(g, f);
        }
      }
    }
  }

  lemma {:induction false} SubsetIsSmaller(small: set<Alias>, big: set<Alias>)
    requires small <= big
    ensures |small| <= |big|
    ensures |small| == |big| ==> small == big
  {
    if small != {} {
      var a :| a in small;
      SubsetIsSmaller(small - {a}, big - {a});
    } else {
      assert |big| == 0 ==> big == {};
    }
  }

  /** The constant-time check decides as the judgement on all aliases does, registering or not. */
  lemma CheckDecides(caps: Caps, g: Registry, model: Alias, f: Family, sig: Signature,
                     answer: RepresentativeConfig, register: bool)
    requires Valid(caps, g) && Routed(g, model, f)
    ensures Judged(caps, g, model, f, sig, answer, Check(caps, g, model, f, sig, answer, register).1)
  {
    hide Valid, OthersCounted, Conflicts, Recounted, Record;
    if !(model in g.aliasSignature && g.aliasSignature[model] == sig) {
      OthersAreOpposition(caps, g, model, f, sig);
    }
  }

  lemma JudgedIfValid(caps: Caps, g: Registry, model: Alias, f: Family, sig: Signature,
                      answer: RepresentativeConfig, register: bool)
    ensures Valid(caps, g) && Routed(g, model, f) ==>
              Judged(caps, g, model, f, sig, answer, Check(caps, g, model, f, sig, answer, register).1)
  {
    hide Valid, Routed, Check, Judged;
    if Valid(caps, g) && Routed(g, model, f) {
      CheckDecides(caps, g, model, f, sig, answer, register);
    }
  }

  /** An accepted registration routes the alias and moves alias and family to the signature; the rest of these tables
    stays. Any other check changes nothing. */
  lemma CheckRecords(caps: Caps, g: Registry, model: Alias, f: Family, sig: Signature, answer: RepresentativeConfig,
                     register: bool)
    ensures var (g', verdict) := Check(caps, g, model, f, sig, answer, register);
            if register && verdict == Accepted then
              && g'.aliasFamily == g.aliasFamily[model := f] && g'.aliasSignature == g.aliasSignature[model := sig]
              && g'.familySignature == g.familySignature[f := sig] && g'.representative == g.representative
            else g' == g
  {
    hide OthersCounted, Conflicts, Recounted;
  }

  // ---------------------------------------------------------------- registering

  lemma Incremented(sig: Signature, n: nat)
    ensures Increment(map[sig := n], sig) == map[sig := n + 1]
    ensures Increment(map[], sig) == map[sig := 1]
  {
  }

  lemma Updated<V>(m: map<nat, V>, k: nat, v: V)
    ensures |m[k := v]| == |m| + if k in m then 0 else 1
  {
    assert |m[k := v]| == |m[k := v].Keys| && |m| == |m.Keys|;
    assert m[k := v].Keys == m.Keys + {k};
    assert k in m ==> m.Keys + {k} == m.Keys;
  }

  lemma RecordedAliases(g: Registry, model: Alias, f: Family, sig: Signature, recounted: map<Signature, nat>)
    requires Routed(g, model, f)
    ensures var g' := Record(g, model, f, sig, recounted);
            && Aliases(g', f) == Aliases(g, f) + {model}
            && (forall f' :: f' != f ==> Aliases(g', f') == Aliases(g, f'))
            && |g'.aliasFamily| == |g.aliasFamily| + if model in g.aliasFamily then 0 else 1
  {
    var g' := Record(g, model, f, sig, recounted);
    forall f' | f' != f ensures Aliases(g', f') == Aliases(g, f') {
      forall a ensures a in Aliases(g', f') <==> a in Aliases(g, f') {
      }
    }
    Updated(g.aliasFamily, model, f);
  }

  ghost function NewSize(g: Registry, model: Alias, f: Family): nat {
    |Aliases(g, f)| + if model in g.aliasFamily then 0 else 1
  }

  /** The recorded counts hold every alias of the family, the new one included, under the new signature. */
  lemma RecordedCounts(caps: Caps, g: Registry, model: Alias, f: Family, sig: Signature)
    requires Valid(caps, g) && Routed(g, model, f)
    requires model in g.aliasSignature ==> g.aliasSignature[model] != sig
    requires !Conflicts(OthersCounted(g, model, f), sig)
    ensures Recounted(g, model, f, sig, OthersCounted(g, model, f), false) == map[sig := NewSize(g, model, f)]
  {
    OthersShape(caps, g, model, f);
    var others := OthersCounted(g, model, f);
    assert model in g.aliasSignature <==> model in g.aliasFamily;
    if f in g.familySignature {
      hide Valid, OthersCounted, Aliases, Increment;
      var first := OneSignature(caps, g, f);
      if Siblings(g, model, f) > 0 {
        assert g.familySignature[f] in others && g.familySignature[f] == sig;
        assert !CountedUnder(g, model, f);
        Incremented(sig, |Aliases(g, f)|);
      } else {
        assert CountedUnder(g, model, f) && |Aliases(g, f)| == 1;
        Incremented(sig, 0);
      }
    } else {
      assert Aliases(g, f) == {} && CountsOf(g, f) == map[];
      Incremented(sig, 0);
      hide Valid, OthersCounted, Aliases, Increment;
      assert model !in g.aliasFamily;
    }
  }

  lemma ResetCounts(caps: Caps, g: Registry, model: Alias, f: Family, sig: Signature)
    requires Valid(caps, g) && f in g.aliasCounts
    ensures Recounted(g, model, f, sig, map[sig := g.aliasCounts[f]], true) == map[sig := NewSize(g, model, f)]
  {
    assert model in g.aliasSignature <==> model in g.aliasFamily;
    assert FamilyValid(g, f);
    Incremented(sig, g.aliasCounts[f]);
    hide Valid, Increment, Aliases, CountsOf;
  }

  lemma RecordedTables(caps: Caps, g: Registry, model: Alias, f: Family, sig: Signature, recounted: map<Signature, nat>)
    requires TablesAgree(caps, g)
    requires model !in g.aliasFamily ==> |g.aliasFamily| < caps.maxAliases
    requires if f in g.familySignature then f in g.aliasCounts
             else model !in g.aliasFamily && |g.familySignature| < caps.maxFamilies
    ensures TablesAgree(caps, Record(g, model, f, sig, recounted))
  {
    Updated(g.aliasFamily, model, f);
    Updated(g.familySignature, f, sig);
  }

  lemma RecordIsValid(caps: Caps, g: Registry, model: Alias, f: Family, sig: Signature, recounted: map<Signature, nat>)
    requires Valid(caps, g) && Routed(g, model, f)
    requires f in g.familySignature || |g.familySignature| < caps.maxFamilies
    requires model in g.aliasFamily || |g.aliasFamily| < caps.maxAliases
    requires recounted == map[sig := NewSize(g, model, f)]
    ensures Valid(caps, Record(g, model, f, sig, recounted))
  {
    hide FamilyValid, Aliases, NewSize, Increment;
    var g' := Record(g, model, f, sig, recounted);
    RecordedTables(caps, g, model, f, sig, recounted);
    hide TablesAgree;
    forall f' | f' in g'.familySignature
      ensures f' in g'.signatureCounts && f' in g'.aliasCounts && FamilyValid(g', f')
    {
      if f' == f {
        RecordedFamily(caps, g, model, f, sig, recounted);
      } else {
        OtherFamily(caps, g, model, f, sig, recounted, f');
      }
    }
  }

  lemma RecordedSize(caps: Caps, g: Registry, model: Alias, f: Family, sig: Signature, recounted: map<Signature, nat>)
    requires TablesAgree(caps, g) && Routed(g, model, f)
    ensures var g' := Record(g, model, f, sig, recounted);
            model in Aliases(g', f) && |Aliases(g', f)| == NewSize(g, model, f)
  {
    RecordedAliases(g, model, f, sig, recounted);
    if model in g.aliasFamily {
      assert Aliases(g, f) + {model} == Aliases(g, f);
    }
  }

  lemma RecordedFamily(caps: Caps, g: Registry, model: Alias, f: Family, sig: Signature, recounted: map<Signature, nat>)
    requires Valid(caps, g) && Routed(g, model, f)
    requires recounted == map[sig := NewSize(g, model, f)]
    ensures f in Record(g, model, f, sig, recounted).aliasCounts
    ensures FamilyValid(Record(g, model, f, sig, recounted), f)
  {
    RecordedSize(caps, g, model, f, sig, recounted);
    if f in g.familySignature {
      assert FamilyValid(g, f);
    } else {
      assert Aliases(g, f) == {};
    }
    hide Aliases;
  }

  lemma OtherFamily(caps: Caps, g: Registry, model: Alias, f: Family, sig: Signature, recounted: map<Signature, nat>,
                    f': Family)
    requires Valid(caps, g) && Routed(g, model, f) && f' != f && f' in g.familySignature
    ensures f' in Record(g, model, f, sig, recounted).aliasCounts
    ensures FamilyValid(Record(g, model, f, sig, recounted), f')
  {
    var g' := Record(g, model, f, sig, recounted);
    RecordedAliases(g, model, f, sig, recounted);
    var first := OneSignature(caps, g, f');
    assert FamilyValid(g, f');
    assert first != model && first in Aliases(g', f') && g'.aliasSignature[first] == g'.familySignature[f'];
  }

  /** A check never invalidates the registry, whatever it decides, as long as the alias keeps its family. */
  lemma CheckKeeps(caps: Caps, g: Registry, model: Alias, f: Family, sig: Signature, answer: RepresentativeConfig,
                   register: bool)
    requires Valid(caps, g) && Routed(g, model, f)
    ensures Valid(caps, Check(caps, g, model, f, sig, answer, register).0)
  {
    hide Valid, Conflicts, OthersCounted, Record, Recounted, NewSize;
    var (g', verdict) := Check(caps, g, model, f, sig, answer, register);
    if verdict == Accepted && register {
      var others := OthersCounted(g, model, f);
      if Conflicts(others, sig) {
        ConflictsAreRegistered(caps, g, model, f, sig);
        ResetCounts(caps, g, model, f, sig);
        RecordIsValid(caps, g, model, f, sig, map[sig := NewSize(g, model, f)]);
      } else {
        RecordedCounts(caps, g, model, f, sig);
        RecordIsValid(caps, g, model, f, sig, map[sig := NewSize(g, model, f)]);
      }
    }
  }

  lemma ConflictsAreRegistered(caps: Caps, g: Registry, model: Alias, f: Family, sig: Signature)
    requires Valid(caps, g) && Routed(g, model, f) && Conflicts(OthersCounted(g, model, f), sig)
    ensures f in g.aliasCounts
  {
    OthersShape(caps, g, model, f);
  }

  /** The alias's family is looked at before the validation lock is taken, and not again under it. A
    registration that lost that race keeps the registry valid exactly when the alias has not been
    routed to another family meanwhile. */
  lemma RegisteringKeepsValidIff(caps: Caps, g: Registry, model: Alias, f: Family, sig: Signature,
                                 answer: RepresentativeConfig)
    requires Valid(caps, g) && Check(caps, g, model, f, sig, answer, true).1 == Accepted
    ensures Valid(caps, Check(caps, g, model, f, sig, answer, true).0) <==> Routed(g, model, f)
  {
    if Routed(g, model, f) {
      CheckKeeps(caps, g, model, f, sig, answer, true);
    } else {
      var h := g.aliasFamily[model];
      var g' := Check(caps, g, model, f, sig, answer, true).0;
      hide Check, Conflicts, OthersCounted, Recounted;
      assert g'.aliasFamily == g.aliasFamily[model := f] && g'.aliasCounts == g.aliasCounts
             && h in g'.familySignature by {
        MovedRecord(caps, g, model, f, sig, answer);
      }
      assert model in Aliases(g, h) && Aliases(g', h) == Aliases(g, h) - {model};
      assert FamilyValid(g, h);
      assert !(h in g'.signatureCounts && h in g'.aliasCounts && FamilyValid(g', h));
    }
  }

  lemma MovedRecord(caps: Caps, g: Registry, model: Alias, f: Family, sig: Signature, answer: RepresentativeConfig)
    requires model in g.aliasFamily && g.aliasFamily[model] in g.familySignature
    requires Check(caps, g, model, f, sig, answer, true).1 == Accepted
    ensures var g' := Check(caps, g, model, f, sig, answer, true).0;
            && g'.aliasFamily == g.aliasFamily[model := f] && g'.aliasCounts == g.aliasCounts
            && g.aliasFamily[model] in g'.familySignature
  {
    hide Conflicts, OthersCounted, Recounted, RepresentativeRaises;
  }

  // ---------------------------------------------------------------- eviction and runs

  /** `clear_unused_model_families`, for the families it found expired. */
  function Evict(g: Registry, expired: set<Family>): Registry {
    var kept := map a | a in g.aliasFamily && g.aliasFamily[a] !in expired :: g.aliasFamily[a];
    Registry(
      kept,
      map a | a in g.aliasSignature && (a in g.aliasFamily ==> g.aliasFamily[a] !in expired) :: g.aliasSignature[a],
      g.signatureCounts - expired,
      g.aliasCounts - expired,
      g.familySignature - expired,
      g.representative - expired)
  }

  /** Every alias of an expired family goes, with all that is kept of the family, and nothing else. */
  lemma EvictIsExact(g: Registry, expired: set<Family>)
    requires forall a :: a in g.aliasSignature ==> a in g.aliasFamily
    ensures var g' := Evict(g, expired);
            && (forall a :: a in g'.aliasFamily <==> a in g.aliasFamily && g.aliasFamily[a] !in expired)
            && (forall a :: a in g'.aliasSignature <==> a in g.aliasSignature && g.aliasFamily[a] !in expired)
            && (forall a :: a in g'.aliasFamily ==> g'.aliasFamily[a] == g.aliasFamily[a])
            && (forall a :: a in g'.aliasSignature ==> g'.aliasSignature[a] == g.aliasSignature[a])
            && (forall f :: f in g'.familySignature <==> f in g.familySignature && f !in expired)
            && (forall f :: f in g'.signatureCounts <==> f in g.signatureCounts && f !in expired)
            && (forall f :: f in g'.aliasCounts <==> f in g.aliasCounts && f !in expired)
            && (forall f :: f in g'.representative <==> f in g.representative && f !in expired)
            && (forall f :: f in g'.familySignature ==> g'.familySignature[f] == g.familySignature[f])
            && (forall f :: f in g'.representative ==> g'.representative[f] == g.representative[f])
  {
  }

  lemma Shrinks<V>(m: map<nat, V>, big: map<nat, V>)
    requires m.Keys <= big.Keys
    ensures |m| <= |big|
  {
    SubsetIsSmaller(m.Keys, big.Keys);
    assert |m| == |m.Keys| && |big| == |big.Keys|;
  }

  lemma EvictTables(caps: Caps, g: Registry, expired: set<Family>)
    requires TablesAgree(caps, g)
    ensures TablesAgree(caps, Evict(g, expired))
  {
    var g' := Evict(g, expired);
    assert g'.aliasFamily.Keys <= g.aliasFamily.Keys;
    Shrinks(g'.aliasFamily, g.aliasFamily);
    Shrinks(g'.familySignature, g.familySignature);
  }

  lemma EvictKeeps(caps: Caps, g: Registry, expired: set<Family>)
    requires Valid(caps, g)
    ensures Valid(caps, Evict(g, expired))
  {
    var g' := Evict(g, expired);
    EvictTables(caps, g, expired);
    forall f | f in g'.familySignature ensures f in g'.signatureCounts && f in g'.aliasCounts && FamilyValid(g', f) {
      EvictedFamily(caps, g, expired, f);
    }
  }

  lemma EvictedAliases(g: Registry, expired: set<Family>, f: Family)
    requires f !in expired
    ensures Aliases(Evict(g, expired), f) == Aliases(g, f)
  {
  }

  lemma EvictedFamily(caps: Caps, g: Registry, expired: set<Family>, f: Family)
    requires Valid(caps, g) && f in Evict(g, expired).familySignature
    ensures f in Evict(g, expired).signatureCounts && f in Evict(g, expired).aliasCounts
            && FamilyValid(Evict(g, expired), f)
  {
    var g' := Evict(g, expired);
    assert FamilyValid(g, f);
    EvictedAliases(g, expired, f);
    var a :| a in Aliases(g, f) && a in g.aliasSignature && g.aliasSignature[a] == g.familySignature[f];
    assert a in g'.aliasSignature;
    hide Aliases, TablesAgree;
  }

  /** A call first looks whether its alias is still routed to its family, and registers later, under the lock and
    without looking again. Calls are interleaved at will. */
  datatype Event =
    | Looks(call: nat, model: Alias, family: Family)
    | Checks(call: nat, signature: Signature, answer: RepresentativeConfig, register: bool)
    | Delivers(model: Alias, family: Family)
    | Evicts(expired: set<Family>)

  /** The registry, and what the calls between look and check have seen. */
  datatype Calls = Calls(registry: Registry, looked: map<nat, (Alias, Family)>)

  const NoCalls := Calls(NewRegistry, map[])

  function Apply(caps: Caps, s: Calls, e: Event): Calls {
    match e
    case Looks(call, model, f) =>
      if Routed(s.registry, model, f) then s.(looked := s.looked[call := (model, f)])
      else s.(looked := s.looked - {call})
    case Checks(call, sig, answer, register) =>
      if call !in s.looked then s
      else
        var (model, f) := s.looked[call];
        Calls(Check(caps, s.registry, model, f, sig, answer, register).0, s.looked - {call})
    case Delivers(model, f) => s.(registry := s.registry.(representative := s.registry.representative[f := model]))
    case Evicts(expired) => s.(registry := Evict(s.registry, expired))
  }

  function ApplyAll(caps: Caps, s: Calls, events: seq<Event>): Calls
    decreases |events|
  {
    if events == [] then s else Apply(caps, ApplyAll(caps, s, events[..|events| - 1]), events[|events| - 1])
  }

  /** The alias has been routed elsewhere since the call looked, and the check records it all the same. */
  predicate LosesRace(caps: Caps, s: Calls, e: Event) {
    && e.Checks? && e.register && e.call in s.looked
    && var (model, f) := s.looked[e.call];
       !Routed(s.registry, model, f) && Check(caps, s.registry, model, f, e.signature, e.answer, true).1 == Accepted
  }

  lemma UnrecordedChangesNothing(caps: Caps, g: Registry, model: Alias, f: Family, sig: Signature,
                                 answer: RepresentativeConfig, register: bool)
    requires !register || Check(caps, g, model, f, sig, answer, register).1 != Accepted
    ensures Check(caps, g, model, f, sig, answer, register).0 == g
  {
    hide Conflicts, OthersCounted, Recounted, RepresentativeRaises, Record;
  }

  lemma ApplyKeepsIff(caps: Caps, s: Calls, e: Event)
    requires Valid(caps, s.registry)
    ensures Valid(caps, Apply(caps, s, e).registry) <==> !LosesRace(caps, s, e)
  {
    hide Valid, Evict, Check, Routed;
    var g := s.registry;
    match e
    case Looks(call, model, f) =>
    case Checks(call, sig, answer, register) =>
      if call in s.looked {
        var (model, f) := s.looked[call];
        if Routed(g, model, f) {
          CheckKeeps(caps, g, model, f, sig, answer, register);
        } else if register && Check(caps, g, model, f, sig, answer, true).1 == Accepted {
          RegisteringKeepsValidIff(caps, g, model, f, sig, answer);
        } else {
          UnrecordedChangesNothing(caps, g, model, f, sig, answer, register);
        }
      }
    case Delivers(model, f) => DeliverKeeps(caps, g, model, f);
    case Evicts(expired) => EvictKeeps(caps, g, expired);
  }

  lemma DeliverKeeps(caps: Caps, g: Registry, model: Alias, f: Family)
    requires Valid(caps, g)
    ensures Valid(caps, g.(representative := g.representative[f := model]))
  {
    var g' := g.(representative := g.representative[f := model]);
    assert TablesAgree(caps, g');
    hide TablesAgree;
    forall f' | f' in g'.familySignature ensures FamilyValid(g', f') {
      assert FamilyValid(g, f') && Aliases(g', f') == Aliases(g, f');
    }
  }

  /** The registry after the first `n` events. */
  function After(caps: Caps, events: seq<Event>, n: nat): Calls
    requires n <= |events|
  {
    ApplyAll(caps, NoCalls, events[..n])
  }

  lemma AfterOneMore(caps: Caps, events: seq<Event>, n: nat)
    requires n < |events|
    ensures After(caps, events, n + 1) == Apply(caps, After(caps, events, n), events[n])
  {
    assert events[..n + 1][..n] == events[..n];
  }

  lemma {:induction false} ValidUntilARaceIsLost(caps: Caps, events: seq<Event>, n: nat)
    requires n <= |events|
    requires forall i :: 0 <= i < n ==> !LosesRace(caps, After(caps, events, i), events[i])
    ensures Valid(caps, After(caps, events, n).registry)
  {
    if n == 0 {
      assert events[..0] == [];
    } else {
      hide Valid, LosesRace, Apply, After;
      ValidUntilARaceIsLost(caps, events, n - 1);
      AfterOneMore(caps, events, n - 1);
      ApplyKeepsIff(caps, After(caps, events, n - 1), events[n - 1]);
    }
  }

  /** Over every run of interleaved calls, each family has one signature, counted once per alias, and no cap is
    exceeded, exactly as long as no registration loses the race for its alias. */
  lemma RegistryStaysValidIff(caps: Caps, events: seq<Event>)
    ensures (forall n :: 0 <= n <= |events| ==> Valid(caps, After(caps, events, n).registry)) <==>
            (forall n :: 0 <= n < |events| ==> !LosesRace(caps, After(caps, events, n), events[n]))
  {
    hide Valid, LosesRace, Apply, After;
    if forall n :: 0 <= n < |events| ==> !LosesRace(caps, After(caps, events, n), events[n]) {
      forall n | 0 <= n <= |events| ensures Valid(caps, After(caps, events, n).registry) {
        ValidUntilARaceIsLost(caps, events, n);
      }
    } else {
      var n :| 0 <= n < |events| && LosesRace(caps, After(caps, events, n), events[n]);
      AfterOneMore(caps, events, n);
      if Valid(caps, After(caps, events, n).registry) {
        ApplyKeepsIff(caps, After(caps, events, n), events[n]);
        assert !Valid(caps, After(caps, events, n + 1).registry);
      }
    }
  }

  /** Two calls look at the same new alias for different families, and both register it. */
  lemma RaceCanBeLost(caps: Caps)
    requires caps.maxAliases >= 1 && caps.maxFamilies >= 2
    ensures var events := [Looks(0, 0, 0), Looks(1, 0, 1), Checks(0, 5, None, true), Checks(1, 6, None, true)];
            LosesRace(caps, After(caps, events, 3), events[3])
  {
    var events := [Looks(0, 0, 0), Looks(1, 0, 1), Checks(0, 5, None, true), Checks(1, 6, None, true)];
    assert events[..0] == [];
    AfterOneMore(caps, events, 0);
    AfterOneMore(caps, events, 1);
    AfterOneMore(caps, events, 2);
    hide After;
    assert After(caps, events, 2) == Calls(NewRegistry, map[0 := (0, 0), 1 := (0, 1)]);
    var g := After(caps, events, 3).registry;
    FirstRegistration(caps, 0, 0, 5);
    assert g.aliasFamily == map[0 := 0] && g.aliasSignature == map[0 := 5] && g.familySignature == map[0 := 5]
           && g.signatureCounts.Keys == {0};
    MovingRegistration(caps, g, 6);
  }

  lemma FirstRegistration(caps: Caps, model: Alias, f: Family, sig: Signature)
    requires caps.maxAliases >= 1 && caps.maxFamilies >= 1
    ensures var (g, verdict) := Check(caps, NewRegistry, model, f, sig, None, true);
            && verdict == Accepted && g.aliasFamily == map[model := f] && g.aliasSignature == map[model := sig]
            && g.familySignature == map[f := sig] && g.signatureCounts.Keys == {f}
  {
    assert OthersCounted(NewRegistry, model, f) == map[];
  }

  lemma MovingRegistration(caps: Caps, g: Registry, sig: Signature)
    requires caps.maxAliases >= 1 && caps.maxFamilies >= 2 && sig == 6
    requires g.aliasFamily == map[0 := 0] && g.aliasSignature == map[0 := 5] && g.familySignature == map[0 := 5]
    requires g.signatureCounts.Keys == {0}
    ensures !Routed(g, 0, 1) && Check(caps, g, 0, 1, sig, None, true).1 == Accepted
  {
    assert OthersCounted(g, 0, 1) == map[];
    assert |g.familySignature| == |g.familySignature.Keys| == |{0}|;
    assert |g.aliasFamily| == |g.aliasFamily.Keys| == |{0}|;
  }

  lemma CheckRoutes(caps: Caps, g: Registry, model: Alias, f: Family, sig: Signature, answer: RepresentativeConfig,
                    register: bool)
    ensures var (g', verdict) := Check(caps, g, model, f, sig, answer, register);
            g'.aliasFamily == if register && verdict == Accepted then g.aliasFamily[model := f] else g.aliasFamily
  {
    hide Conflicts, OthersCounted, Recounted, RepresentativeRaises;
  }

  lemma ApplyKeepsRouting(caps: Caps, s: Calls, e: Event, a: Alias)
    requires a in s.registry.aliasFamily && !LosesRace(caps, s, e)
    requires e.Evicts? ==> s.registry.aliasFamily[a] !in e.expired
    ensures var g := Apply(caps, s, e).registry;
            a in g.aliasFamily && g.aliasFamily[a] == s.registry.aliasFamily[a]
  {
    hide Check;
    if e.Checks? && e.call in s.looked {
      var (model, f) := s.looked[e.call];
      CheckRoutes(caps, s.registry, model, f, e.signature, e.answer, e.register);
    }
  }

  /** Over every run of interleaved calls an alias keeps its family for as long as the family is not evicted and no
    registration loses a race. */
  lemma {:induction false} AliasesKeepTheirFamily(caps: Caps, events: seq<Event>, m: nat, n: nat, a: Alias)
    requires m <= n <= |events| && a in After(caps, events, m).registry.aliasFamily
    requires forall i :: m <= i < n ==> !LosesRace(caps, After(caps, events, i), events[i])
    requires forall i :: m <= i < n && events[i].Evicts? ==>
             After(caps, events, m).registry.aliasFamily[a] !in events[i].expired
    ensures a in After(caps, events, n).registry.aliasFamily
    ensures After(caps, events, n).registry.aliasFamily[a] == After(caps, events, m).registry.aliasFamily[a]
    decreases n
  {
    hide LosesRace, Apply, After;
    if m < n {
      AliasesKeepTheirFamily(caps, events, m, n - 1, a);
      AfterOneMore(caps, events, n - 1);
      ApplyKeepsRouting(caps, After(caps, events, n - 1), events[n - 1], a);
    }
  }

  // ---------------------------------------------------------------- the tables

  /** The families for which the limiter keeps a backend, a quota snapshot and runtime overrides. */
  datatype Retained = Retained(backends: set<Family>, quotas: set<Family>, overrides: set<Family>)

  function Release(r: Retained, families: set<Family>): Retained {
    Retained(r.backends - families, r.quotas - families, r.overrides - families)
  }

  class Tables {
    const caps: Caps
    var aliasFamily: map<Alias, Family>
    var aliasSignature: map<Alias, Signature>
    var signatureCounts: map<Family, map<Signature, nat>>
    var aliasCounts: map<Family, nat>
    var familySignature: map<Family, Signature>
    var representative: map<Family, Alias>
    var lastTouched: map<Family, real>
    var retained: Retained

    ghost function Contents(): Registry
      reads this
    {
      Registry(aliasFamily, aliasSignature, signatureCounts, aliasCounts, familySignature, representative)
    }

    constructor (caps: Caps)
      ensures Contents() == NewRegistry && this.caps == caps
    {
      this.caps := caps;
      aliasFamily, aliasSignature, signatureCounts := map[], map[], map[];
      aliasCounts, familySignature, representative := map[], map[], map[];
      lastTouched := map[];
      retained := Retained({}, {}, {});
    }

    /** The family's counts, less one for the alias's own last signature. */
    method CountOthers(model: Alias, f: Family) returns (counts: map<Signature, nat>)
      ensures counts == OthersCounted(Contents(), model, f)
    {
      counts := if f in signatureCounts then signatureCounts[f] else map[];
      if model in aliasSignature {
        var previous := aliasSignature[model];
        var count := if previous in counts then counts[previous] else 0;
        if count <= 1 {
          assert previous !in counts ==> counts - {previous} == counts;
          counts := counts - {previous};
        } else {
          counts := counts[previous := count - 1];
        }
      }
    }

    method Recount(model: Alias, f: Family, sig: Signature, counts: map<Signature, nat>, reset: bool)
      returns (next: map<Signature, nat>)
      ensures next == Recounted(Contents(), model, f, sig, counts, reset)
    {
      var isNewAlias := model !in aliasFamily;
      var current := if f in signatureCounts then signatureCounts[f] else map[];
      var alreadyCounted := model in aliasSignature && (reset || aliasSignature[model] !in current);
      next := counts;
      if isNewAlias || !alreadyCounted {
        next := next[sig := (if sig in next then next[sig] else 0) + 1];
      }
    }

    method Register(model: Alias, f: Family, sig: Signature, counts: map<Signature, nat>, reset: bool)
      modifies `aliasFamily, `aliasSignature, `signatureCounts, `aliasCounts, `familySignature
      ensures Contents() == Record(old(Contents()), model, f, sig,
                                   Recounted(old(Contents()), model, f, sig, counts, reset))
    {
      hide Recounted;
      var next := Recount(model, f, sig, counts, reset);
      if model !in aliasFamily {
        aliasCounts := aliasCounts[f := (if f in aliasCounts then aliasCounts[f] else 0) + 1];
      }
      aliasFamily := aliasFamily[model := f];
      aliasSignature := aliasSignature[model := sig];
      signatureCounts := signatureCounts[f := next];
      familySignature := familySignature[f := sig];
    }

    /** First without the validation lock, for the steady state, then under it. */
    method ValidateSharedModelFamilyConfig(model: Alias, f: Family, sig: Signature, answer: RepresentativeConfig,
                                           register: bool, now: real) returns (verdict: Verdict)
      modifies this
      ensures retained == old(retained)
      ensures (Contents(), verdict) == Check(caps, old(Contents()), model, f, sig, answer, register)
      ensures Valid(caps, old(Contents())) && Routed(old(Contents()), model, f) ==>
                Judged(caps, old(Contents()), model, f, sig, answer, verdict)
      ensures if verdict == Accepted && register
              then aliasFamily == old(aliasFamily)[model := f] && aliasSignature == old(aliasSignature)[model := sig]
                   && familySignature == old(familySignature)[f := sig] && representative == old(representative)
              else Contents() == old(Contents())
      ensures lastTouched == if verdict == Cached || (verdict == Accepted && register)
                             then old(lastTouched)[f := now] else old(lastTouched)
    {
      JudgedIfValid(caps, Contents(), model, f, sig, answer, register);
      CheckRecords(caps, Contents(), model, f, sig, answer, register);
      if model in aliasSignature && aliasSignature[model] == sig {
        lastTouched := lastTouched[f := now];
        hide Valid, Judged, Routed;
        return Cached;
      }
      hide Valid, Judged, Routed, Check;
      verdict := ValidateUnderLock(model, f, sig, answer, register, now);
    }

    method ValidateUnderLock(model: Alias, f: Family, sig: Signature, answer: RepresentativeConfig,
                             register: bool, now: real) returns (verdict: Verdict)
      modifies this
      ensures retained == old(retained)
      ensures (Contents(), verdict) == Check(caps, old(Contents()), model, f, sig, answer, register)
      ensures lastTouched == if verdict == Cached || (verdict == Accepted && register)
                             then old(lastTouched)[f := now] else old(lastTouched)
    {
      if model in aliasSignature && aliasSignature[model] == sig {
        lastTouched := lastTouched[f := now];
        return Cached;
      }
      var next := CountOthers(model, f);
      var conflicting := set other | other in next && next[other] > 0 && other != sig;
      assert conflicting == {} <==> !Conflicts(next, sig) by {
        if Conflicts(next, sig) {
          var other :| other in next && next[other] > 0 && other != sig;
          assert other in conflicting;
        }
      }
      hide Conflicts, OthersCounted;
      var reset := false;
      if conflicting != {} {
        if f in representative && representative[f] != model {
          if answer.None? {
            return RepresentativeFails;
          }
          var (family, signature) := answer.value;
          if representative[f] in aliasFamily && aliasFamily[representative[f]] != family {
            return RepresentativeFails;
          }
          if family == f && signature == sig {
            next := map[sig := if f in aliasCounts then aliasCounts[f] else 0];
            conflicting := {};
            reset := true;
          }
        }
        if conflicting != {} {
          return Inconsistent;
        }
      }
      if f !in familySignature && |familySignature| >= caps.maxFamilies {
        return FamilyCapReached;
      }
      if model !in aliasFamily && |aliasFamily| >= caps.maxAliases {
        return AliasCapReached;
      }
      if !register {
        return Accepted;
      }
      Register(model, f, sig, next, reset);
      lastTouched := lastTouched[f := now];
      return Accepted;
    }

    /** Drops every idle family without live reservations, with all its aliases, and nothing else. */
    method ClearUnusedModelFamilies(busy: set<Family>, cutoff: real) returns (cleared: nat)
      modifies this
      ensures var expired := set f | f in old(lastTouched) && f !in busy && old(lastTouched)[f] <= cutoff;
              && cleared == |expired|
              && Contents() == Evict(old(Contents()), expired)
              && lastTouched == old(lastTouched) - expired
              && retained == Release(old(retained), expired)
              && expired !! busy
              && retained.backends == old(retained).backends - expired
              && retained.quotas == old(retained).quotas - expired
              && retained.overrides == old(retained).overrides - expired
    {
      hide Evict;
      var expired := set f | f in lastTouched && f !in busy && lastTouched[f] <= cutoff;
      cleared := |expired|;
      ClearFamilies(expired);
      lastTouched := lastTouched - expired;
      retained := Release(retained, expired);
    }

    method ClearFamilies(expired: set<Family>)
      modifies `aliasFamily, `aliasSignature, `signatureCounts, `aliasCounts, `familySignature, `representative
      ensures Contents() == Evict(old(Contents()), expired)
    {
      var todo := expired;
      ghost var done: set<Family> := {};
      EvictNothing(Contents());
      hide Evict;
      while todo != {}
        invariant todo !! done && todo + done == expired
        invariant Contents() == Evict(old(Contents()), done)
      {
        var f :| f in todo;
        ClearFamily(f);
        EvictTwice(old(Contents()), done, f);
        done := done + {f};
        todo := todo - {f};
      }
      assert done == expired;
    }

    method ClearFamily(f: Family)
      modifies `aliasFamily, `aliasSignature, `signatureCounts, `aliasCounts, `familySignature, `representative
      ensures Contents() == Evict(old(Contents()), {f})
    {
      representative := representative - {f};
      familySignature := familySignature - {f};
      ghost var after := Evict(Contents(), {f});
      DropAliases(f);
      signatureCounts := signatureCounts - {f};
      aliasCounts := aliasCounts - {f};
      assert aliasFamily == after.aliasFamily;
      assert aliasSignature == after.aliasSignature;
    }

    method DropAliases(f: Family)
      modifies `aliasFamily, `aliasSignature
      ensures forall a :: a in aliasFamily <==> a in old(aliasFamily) && old(aliasFamily)[a] != f
      ensures forall a :: a in aliasFamily ==> aliasFamily[a] == old(aliasFamily)[a]
      ensures forall a :: a in aliasSignature <==>
                a in old(aliasSignature) && (a in old(aliasFamily) ==> old(aliasFamily)[a] != f)
      ensures forall a :: a in aliasSignature ==> aliasSignature[a] == old(aliasSignature)[a]
    {
      var todo := aliasFamily.Keys;
      while todo != {}
        invariant todo <= old(aliasFamily).Keys
        invariant forall a :: a in aliasFamily <==> a in old(aliasFamily) && (a in todo || old(aliasFamily)[a] != f)
        invariant forall a :: a in aliasFamily ==> aliasFamily[a] == old(aliasFamily)[a]
        invariant forall a :: a in aliasSignature <==>
                    a in old(aliasSignature) && (a in old(aliasFamily) ==> a in todo || old(aliasFamily)[a] != f)
        invariant forall a :: a in aliasSignature ==> aliasSignature[a] == old(aliasSignature)[a]
      {
        var a :| a in todo;
        if aliasFamily[a] == f {
          aliasFamily := aliasFamily - {a};
          aliasSignature := aliasSignature - {a};
        }
        todo := todo - {a};
      }
    }
  }

  lemma EvictNothing(g: Registry)
    ensures Evict(g, {}) == g
  {
    var g' := Evict(g, {});
    assert g'.aliasFamily == g.aliasFamily && g'.aliasSignature == g.aliasSignature;
    assert g'.signatureCounts == g.signatureCounts && g'.aliasCounts == g.aliasCounts;
    assert g'.familySignature == g.familySignature && g'.representative == g.representative;
  }

  lemma EvictTwice(g: Registry, done: set<Family>, f: Family)
    ensures Evict(Evict(g, done), {f}) == Evict(g, done + {f})
  {
    var once, twice := Evict(g, done), Evict(Evict(g, done), {f});
    var both := Evict(g, done + {f});
    assert twice.aliasFamily == both.aliasFamily;
    assert twice.aliasSignature == both.aliasSignature;
    assert twice.signatureCounts == both.signatureCounts && twice.aliasCounts == both.aliasCounts;
    assert twice.familySignature == both.familySignature && twice.representative == both.representative;
  }
}
