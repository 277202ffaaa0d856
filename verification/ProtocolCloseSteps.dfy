/** Every step of close, of `set_max_capacity` and of eviction keeps the invariant. */
module ProtocolCloseSteps {
  import opened Types
  import opened Bookkeeping
  import opened Protocol
  import opened ProtocolInvariant
  import opened ProtocolFrames
  import opened ProtocolAcquireSteps

  /** Close steps change the flags of the bookkeeping, never its entries. */
  ghost predicate SameEntries(b: Book, b': Book) {
    b' == b.(drained := b'.drained, closing := b'.closing, closed := b'.closed, closeDrained := b'.closeDrained)
  }

  lemma SameEntriesKeep(s: State, b: Book)
    requires SameEntries(s.book, b)
    requires AcquireInv(s.book, s.refunds, s.backends, s.issued, s.acquires) && RecordInv(s.book, s.issued, s.backends)
    ensures AcquireInv(b, s.refunds, s.backends, s.issued, s.acquires) && RecordInv(b, s.issued, s.backends)
  {
    forall rid | rid in s.acquires && rid in s.issued
      ensures AcquireOk(b, s.refunds, s.backends, rid, s.issued[rid], s.acquires[rid])
    {
      assert AcquireOk(s.book, s.refunds, s.backends, rid, s.issued[rid], s.acquires[rid]);
    }
    forall rid
      ensures RecordOk(b, s.issued, s.backends, rid)
    {
      assert RecordOk(s.book, s.issued, s.backends, rid);
    }
  }

  lemma SameEntriesRefunds(s: State, b: Book)
    requires SameEntries(s.book, b) && RefundInv(s.book, s.acquires, s.issued, s.refunds)
    ensures RefundInv(b, s.acquires, s.issued, s.refunds)
  {
    forall k | k in s.refunds
      ensures RefundOk(b, s.acquires, s.issued, k, s.refunds[k])
    {
      assert RefundOk(s.book, s.acquires, s.issued, k, s.refunds[k]);
    }
  }

  /** Flags only move towards closed. */
  ghost predicate Closes(b: Book, b': Book) {
    && SameEntries(b, b')
    && (b.closing || b.closed ==> b'.closing || b'.closed)
    && (b.closed ==> b'.closed)
    && (b.closeDrained ==> b'.closeDrained)
  }

  /** Nobody but closer `t` is inside the lifecycle lock. */
  ghost predicate MayTake(lifecycle: Option<Owner>, t: nat) {
    lifecycle.None? || lifecycle == Some(Closer(t))
  }

  lemma ClosersMove(b: Book, b': Book, lifecycle: Option<Owner>, lifecycle': Option<Owner>, n: nat, n': nat,
                    closers: map<nat, ClosePc>, closers': map<nat, ClosePc>, t: nat)
    requires CloserInv(b, lifecycle, n, closers) && AgreeOff(closers, closers', t) && Closes(b, b')
    requires (lifecycle' == lifecycle && n' == n && b'.closeDrained == b.closeDrained) || MayTake(lifecycle, t)
    requires t in closers' ==> CloserOk(b', lifecycle', n', t, closers'[t])
    ensures CloserInv(b', lifecycle', n', closers')
  {
    forall u | u in closers' && u != t
      ensures CloserOk(b', lifecycle', n', u, closers'[u])
    {
      assert CloserOk(b, lifecycle, n, u, closers[u]);
    }
  }

  lemma SettersMove(b: Book, b': Book, lifecycle: Option<Owner>, lifecycle': Option<Owner>,
                    setters: map<nat, SetMaxPc>, t: nat)
    requires SetterInv(b.closeDrained, lifecycle, setters)
    requires (lifecycle' == lifecycle && b'.closeDrained == b.closeDrained) || MayTake(lifecycle, t)
    ensures SetterInv(b'.closeDrained, lifecycle', setters)
  {
  }

  lemma DrainMoves(refunds: map<RefundKey, RefundPc>, closers: map<nat, ClosePc>, closers': map<nat, ClosePc>, t: nat)
    requires DrainInv(refunds, closers) && AgreeOff(closers, closers', t)
    requires t in closers' ==> DrainOk(refunds, closers'[t])
    ensures DrainInv(refunds, closers')
  {
  }

  lemma TakenMoves(held: map<Lock, Owner>, held': map<Lock, Owner>,
                   closers: map<nat, ClosePc>, closers': map<nat, ClosePc>, t: nat)
    requires TakenInv(held, closers) && AgreeOff(closers, closers', t)
    requires forall l :: l in held && held[l] != Closer(t) ==> l in held' && held'[l] == held[l]
    requires t in closers' ==> TakenOk(held', t, closers'[t])
    ensures TakenInv(held', closers')
  {
    forall u | u in closers' && u != t
      ensures TakenOk(held', u, closers'[u])
    {
      assert TakenOk(held, u, closers[u]);
    }
  }

  lemma HoldersStay(held: map<Lock, Owner>, held': map<Lock, Owner>, refunds: map<RefundKey, RefundPc>)
    requires HolderInv(held, refunds)
    requires forall l :: l in held && held[l].Refunder? ==> l in held' && held'[l] == held[l]
    ensures HolderInv(held', refunds)
  {
    forall k | k in refunds
      ensures HolderOk(held', k, refunds[k])
    {
      assert HolderOk(held, k, refunds[k]);
    }
  }

  /** What a step of closer `t` may do. */
  ghost predicate CloseEffect(c: Config, s: State, s': State, t: nat) {
    && t in s'.closers && AgreeOff(s.closers, s'.closers, t)
    && s' == s.(closers := s'.closers, book := s'.book, lifecycle := s'.lifecycle, held := s'.held,
                backendCloses := s'.backendCloses)
    && Closes(s.book, s'.book)
    && (s'.book.drained ==> s.book.drained || Quiet(s.book))
    && ((s'.lifecycle == s.lifecycle && s'.backendCloses == s.backendCloses
         && s'.book.closeDrained == s.book.closeDrained)
        || MayTake(s.lifecycle, t))
    && CloserOk(s'.book, s'.lifecycle, s'.backendCloses, t, s'.closers[t])
    && DrainOk(s.refunds, s'.closers[t])
    && (forall l :: l in s.held && s.held[l] != Closer(t) ==> l in s'.held && s'.held[l] == s.held[l])
    && TakenOk(s'.held, t, s'.closers[t])
    && ClosedInv(s'.book, s.refunds, s'.backendCloses, s.cleared)
  }

  lemma SameEntriesConsistent(cap: nat, b: Book, b': Book)
    requires Consistent(cap, b) && SameEntries(b, b') && (b'.drained ==> b.drained || Quiet(b))
    ensures Consistent(cap, b')
  {
  }

  lemma CloseEffectKeeps(c: Config, s: State, s': State, t: nat)
    requires Inv(c, s) && CloseEffect(c, s, s', t)
    ensures Inv(c, s')
  {
    hide Consistent, Local, AcquireInv, RecordInv, OrderInv, RefundInv, HolderInv, LockInv, DrainInv, TakenInv,
      CloserInv, SetterInv, ClosedInv, PostingsOk, DebitInv, CreditInv, SettledInv, ClaimInv, DedupInv;
    SameEntriesConsistent(c.maxInFlight, s.book, s'.book);
    SameEntriesKeep(s, s'.book);
    SameEntriesRefunds(s, s'.book);
    HoldersStay(s.held, s'.held, s.refunds);
    DrainMoves(s.refunds, s.closers, s'.closers, t);
    TakenMoves(s.held, s'.held, s.closers, s'.closers, t);
    ClosersMove(s.book, s'.book, s.lifecycle, s'.lifecycle, s.backendCloses, s'.backendCloses, s.closers, s'.closers,
                t);
    SettersMove(s.book, s'.book, s.lifecycle, s'.lifecycle, s.setters, t);
  }

  /** What the invariant says of one closer. */
  lemma CloserKnown(c: Config, s: State, t: nat)
    requires Inv(c, s) && t in s.closers
    ensures CloserOk(s.book, s.lifecycle, s.backendCloses, t, s.closers[t])
    ensures DrainOk(s.refunds, s.closers[t])
    ensures TakenOk(s.held, t, s.closers[t])
    ensures ClosedInv(s.book, s.refunds, s.backendCloses, s.cleared)
  {
  }

  lemma CloseStartsKeeps(c: Config, s: State, t: nat)
    requires Inv(c, s) && CloseStarts_(s, t).Some?
    ensures Inv(c, CloseStarts_(s, t).value)
  {
    hide Consistent, Local, AcquireInv, RecordInv, OrderInv, RefundInv, HolderInv, LockInv, DrainInv, TakenInv,
      CloserInv, SetterInv, PostingsOk, DebitInv, CreditInv, SettledInv, ClaimInv, DedupInv;
    CloseEffectKeeps(c, s, CloseStarts_(s, t).value, t);
  }

  lemma CloseReturns(c: Config, s: State, t: nat)
    requires Inv(c, s) && t in s.closers && s.closers[t].Opening?
    ensures Inv(c, SetCloser(s, t, CloseDone))
  {
    hide Consistent, Local, AcquireInv, RecordInv, OrderInv, RefundInv, HolderInv, LockInv, DrainInv, TakenInv,
      CloserInv, SetterInv, PostingsOk, DebitInv, CreditInv, SettledInv, ClaimInv, DedupInv;
    CloserKnown(c, s, t);
    CloseEffectKeeps(c, s, SetCloser(s, t, CloseDone), t);
  }

  lemma CloseBegins(c: Config, s: State, t: nat)
    requires Inv(c, s) && t in s.closers && s.closers[t].Opening? && !(s.book.closed && s.book.closeDrained)
    ensures Inv(c, SetCloser(s.(book := BeginClosing(s.book)), t, DrainWaiting))
  {
    hide Consistent, Local, AcquireInv, RecordInv, OrderInv, RefundInv, HolderInv, LockInv, DrainInv, TakenInv,
      CloserInv, SetterInv, PostingsOk, DebitInv, CreditInv, SettledInv, ClaimInv, DedupInv;
    CloserKnown(c, s, t);
    CloseEffectKeeps(c, s, SetCloser(s.(book := BeginClosing(s.book)), t, DrainWaiting), t);
  }

  lemma CloseOpensKeeps(c: Config, s: State, t: nat)
    requires Inv(c, s) && CloseOpens_(s, t).Some?
    ensures Inv(c, CloseOpens_(s, t).value)
  {
    hide Inv, SetCloser, BeginClosing;
    if s.book.closed && s.book.closeDrained {
      CloseReturns(c, s, t);
    } else {
      CloseBegins(c, s, t);
    }
  }

  lemma CloseSeesDrainedKeeps(c: Config, s: State, t: nat)
    requires Inv(c, s) && CloseSeesDrained_(s, t).Some?
    ensures Inv(c, CloseSeesDrained_(s, t).value)
  {
    hide Local, AcquireInv, RecordInv, OrderInv, RefundInv, HolderInv, LockInv, DrainInv, TakenInv, CloserInv,
      SetterInv, PostingsOk, DebitInv, CreditInv, SettledInv, ClaimInv, DedupInv;
    CloserKnown(c, s, t);
    CloseEffectKeeps(c, s, CloseSeesDrained_(s, t).value, t);
  }

  lemma CloseTimesOutKeeps(c: Config, s: State, t: nat)
    requires Inv(c, s) && CloseTimesOut_(s, t).Some?
    ensures Inv(c, CloseTimesOut_(s, t).value)
  {
    hide Consistent, Local, AcquireInv, RecordInv, OrderInv, RefundInv, HolderInv, LockInv, DrainInv, TakenInv,
      CloserInv, SetterInv, PostingsOk, DebitInv, CreditInv, SettledInv, ClaimInv, DedupInv;
    CloserKnown(c, s, t);
    CloseEffectKeeps(c, s, CloseTimesOut_(s, t).value, t);
  }

  lemma CloseEntersLifecycleKeeps(c: Config, s: State, t: nat)
    requires Inv(c, s) && CloseEntersLifecycle_(s, t).Some?
    ensures Inv(c, CloseEntersLifecycle_(s, t).value)
  {
    hide Consistent, Local, AcquireInv, RecordInv, OrderInv, RefundInv, HolderInv, LockInv, DrainInv, TakenInv,
      CloserInv, SetterInv, PostingsOk, DebitInv, CreditInv, SettledInv, ClaimInv, DedupInv;
    CloserKnown(c, s, t);
    CloseEffectKeeps(c, s, CloseEntersLifecycle_(s, t).value, t);
  }

  lemma CloseFindsDrained(c: Config, s: State, t: nat)
    requires Inv(c, s) && t in s.closers && s.closers[t].Marking? && s.book.closeDrained
    ensures Inv(c, SetCloser(s.(lifecycle := None), t, Clearing))
  {
    hide Consistent, Local, AcquireInv, RecordInv, OrderInv, RefundInv, HolderInv, LockInv, DrainInv, TakenInv,
      CloserInv, SetterInv, PostingsOk, DebitInv, CreditInv, SettledInv, ClaimInv, DedupInv;
    CloserKnown(c, s, t);
    CloseEffectKeeps(c, s, SetCloser(s.(lifecycle := None), t, Clearing), t);
  }

  lemma CloseMarking(c: Config, s: State, t: nat)
    requires Inv(c, s) && t in s.closers && s.closers[t].Marking? && !s.book.closeDrained
    ensures Inv(c, SetCloser(s.(book := MarkClosed(s.book)), t, Snapshotting))
  {
    hide Consistent, Local, AcquireInv, RecordInv, OrderInv, RefundInv, HolderInv, LockInv, DrainInv, TakenInv,
      CloserInv, SetterInv, PostingsOk, DebitInv, CreditInv, SettledInv, ClaimInv, DedupInv;
    CloserKnown(c, s, t);
    CloseEffectKeeps(c, s, SetCloser(s.(book := MarkClosed(s.book)), t, Snapshotting), t);
  }

  lemma CloseMarksKeeps(c: Config, s: State, t: nat)
    requires Inv(c, s) && CloseMarks_(s, t).Some?
    ensures Inv(c, CloseMarks_(s, t).value)
  {
    hide Inv, SetCloser, MarkClosed;
    if s.book.closeDrained {
      CloseFindsDrained(c, s, t);
    } else {
      CloseMarking(c, s, t);
    }
  }

  lemma CloseSnapshotsKeeps(c: Config, s: State, t: nat)
    requires Inv(c, s) && CloseSnapshots_(s, t).Some?
    ensures Inv(c, CloseSnapshots_(s, t).value)
  {
    hide Consistent, Local, AcquireInv, RecordInv, OrderInv, RefundInv, HolderInv, DrainInv, TakenInv, CloserInv,
      SetterInv, PostingsOk, DebitInv, CreditInv, SettledInv, ClaimInv, DedupInv;
    CloserKnown(c, s, t);
    CloseEffectKeeps(c, s, CloseSnapshots_(s, t).value, t);
  }

  lemma CloseTakesKeeps(c: Config, s: State, t: nat, lock: Lock)
    requires Inv(c, s) && CloseTakes_(s, t, lock).Some?
    ensures Inv(c, CloseTakes_(s, t, lock).value)
  {
    hide Consistent, Local, AcquireInv, RecordInv, OrderInv, RefundInv, LockInv, DrainInv, TakenInv, CloserInv,
      SetterInv, PostingsOk, DebitInv, CreditInv, SettledInv, ClaimInv, DedupInv;
    CloserKnown(c, s, t);
    var s' := CloseTakes_(s, t, lock).value;
    assert Taken(s'.closers[t]) == Taken(s.closers[t]) + [lock];
    CloseEffectKeeps(c, s, s', t);
  }

  lemma CloseDrainFailsKeeps(c: Config, s: State, t: nat)
    requires Inv(c, s) && CloseDrainFails_(s, t).Some?
    ensures Inv(c, CloseDrainFails_(s, t).value)
  {
    hide Consistent, Local, AcquireInv, RecordInv, OrderInv, RefundInv, HolderInv, LockInv, DrainInv, TakenInv,
      CloserInv, SetterInv, PostingsOk, DebitInv, CreditInv, SettledInv, ClaimInv, DedupInv;
    CloserKnown(c, s, t);
    var s' := CloseDrainFails_(s, t).value;
    assert Taken(s'.closers[t]) == Taken(s.closers[t]);
    CloseEffectKeeps(c, s, s', t);
  }

  lemma CloseDrainEndsKeeps(c: Config, s: State, t: nat)
    requires Inv(c, s) && CloseDrainEnds_(s, t).Some?
    ensures Inv(c, CloseDrainEnds_(s, t).value)
  {
    hide Consistent, Local, AcquireInv, RecordInv, OrderInv, RefundInv, HolderInv, LockInv, DrainInv, TakenInv,
      CloserInv, SetterInv, PostingsOk, DebitInv, CreditInv, SettledInv, ClaimInv, DedupInv;
    CloserKnown(c, s, t);
    var s' := CloseDrainEnds_(s, t).value;
    assert Taken(s'.closers[t]) == Taken(s.closers[t]);
    CloseEffectKeeps(c, s, s', t);
  }

  lemma CloseReleasesKeeps(c: Config, s: State, t: nat)
    requires Inv(c, s) && CloseReleases_(s, t).Some?
    ensures Inv(c, CloseReleases_(s, t).value)
  {
    hide Consistent, Local, AcquireInv, RecordInv, OrderInv, RefundInv, HolderInv, LockInv, DrainInv, TakenInv,
      CloserInv, SetterInv, PostingsOk, DebitInv, CreditInv, SettledInv, ClaimInv, DedupInv;
    CloserKnown(c, s, t);
    var s' := CloseReleases_(s, t).value;
    assert Taken(s'.closers[t]) == Taken(s.closers[t])[..|Taken(s.closers[t])| - 1];
    CloseEffectKeeps(c, s, s', t);
  }

  lemma CloseDrained(c: Config, s: State, t: nat)
    requires Inv(c, s) && t in s.closers && s.closers[t] == Releasing([], true)
    ensures Inv(c, SetCloser(s.(book := s.book.(closeDrained := true)), t, BackendClosing))
  {
    hide Consistent, Local, AcquireInv, RecordInv, OrderInv, RefundInv, HolderInv, LockInv, DrainInv, TakenInv,
      CloserInv, SetterInv, PostingsOk, DebitInv, CreditInv, SettledInv, ClaimInv, DedupInv;
    CloserKnown(c, s, t);
    CloseEffectKeeps(c, s, SetCloser(s.(book := s.book.(closeDrained := true)), t, BackendClosing), t);
  }

  lemma CloseGivesUp(c: Config, s: State, t: nat)
    requires Inv(c, s) && t in s.closers && s.closers[t] == Releasing([], false)
    ensures Inv(c, Abandon(s.(lifecycle := None), t))
  {
    hide Consistent, Local, AcquireInv, RecordInv, OrderInv, RefundInv, HolderInv, LockInv, DrainInv, TakenInv,
      CloserInv, SetterInv, PostingsOk, DebitInv, CreditInv, SettledInv, ClaimInv, DedupInv;
    CloserKnown(c, s, t);
    CloseEffectKeeps(c, s, Abandon(s.(lifecycle := None), t), t);
  }

  lemma CloseSealsDrainKeeps(c: Config, s: State, t: nat)
    requires Inv(c, s) && CloseSealsDrain_(s, t).Some?
    ensures Inv(c, CloseSealsDrain_(s, t).value)
  {
    hide Inv, SetCloser, Abandon;
    if s.closers[t].drained {
      CloseDrained(c, s, t);
    } else {
      CloseGivesUp(c, s, t);
    }
  }

  lemma CloseCallsBackendKeeps(c: Config, s: State, t: nat)
    requires Inv(c, s) && CloseCallsBackend_(s, t).Some?
    ensures Inv(c, CloseCallsBackend_(s, t).value)
  {
    hide Consistent, Local, AcquireInv, RecordInv, OrderInv, RefundInv, HolderInv, LockInv, DrainInv, TakenInv,
      CloserInv, SetterInv, PostingsOk, DebitInv, CreditInv, SettledInv, ClaimInv, DedupInv;
    CloserKnown(c, s, t);
    CloseEffectKeeps(c, s, CloseCallsBackend_(s, t).value, t);
  }

  lemma CloseBackendReturnsKeeps(c: Config, s: State, t: nat, raises: bool)
    requires Inv(c, s) && CloseBackendReturns_(s, t, raises).Some?
    ensures Inv(c, CloseBackendReturns_(s, t, raises).value)
  {
    hide Consistent, Local, AcquireInv, RecordInv, OrderInv, RefundInv, HolderInv, LockInv, DrainInv, TakenInv,
      CloserInv, SetterInv, PostingsOk, DebitInv, CreditInv, SettledInv, ClaimInv, DedupInv;
    CloserKnown(c, s, t);
    CloseEffectKeeps(c, s, CloseBackendReturns_(s, t, raises).value, t);
  }

  // ---------------------------------------------------------------- clearing

  lemma ClearingBook(c: Config, s: State)
    requires AcquireInv(s.book, s.refunds, s.backends, s.issued, s.acquires) && Quiet(s.book)
    ensures AcquireInv(ClearBook(s.book), s.refunds, {}, s.issued, s.acquires)
  {
    forall rid | rid in s.acquires && rid in s.issued
      ensures AcquireOk(ClearBook(s.book), s.refunds, {}, rid, s.issued[rid], s.acquires[rid])
    {
      assert AcquireOk(s.book, s.refunds, s.backends, rid, s.issued[rid], s.acquires[rid]);
    }
  }

  lemma ClearingRefunds(s: State)
    requires RefundInv(s.book, s.acquires, s.issued, s.refunds) && Quiet(s.book)
    ensures RefundInv(ClearBook(s.book), s.acquires, s.issued, s.refunds)
  {
    forall k | k in s.refunds
      ensures RefundOk(ClearBook(s.book), s.acquires, s.issued, k, s.refunds[k])
    {
      assert RefundOk(s.book, s.acquires, s.issued, k, s.refunds[k]);
    }
  }

  lemma ClearingClaims(c: Config, s: State)
    requires ClaimInv(c, s.ledger, s.issued, s.book.inFlight, s.refunds)
    ensures ClaimInv(c, s.ledger, s.issued, {}, s.refunds)
  {
    forall k | k in s.refunds
      ensures ClaimOk(c, s.ledger, s.issued, {}, s.refunds[k])
    {
      assert ClaimOk(c, s.ledger, s.issued, s.book.inFlight, s.refunds[k]);
    }
  }

  lemma ClearingClosers(s: State, t: nat)
    requires CloserInv(s.book, s.lifecycle, s.backendCloses, s.closers) && t in s.closers && s.closers[t].Clearing?
    ensures CloserInv(ClearBook(s.book), s.lifecycle, s.backendCloses, s.closers[t := CloseDone])
  {
    forall u | u in s.closers && u != t
      ensures CloserOk(ClearBook(s.book), s.lifecycle, s.backendCloses, u, s.closers[u])
    {
      assert CloserOk(s.book, s.lifecycle, s.backendCloses, u, s.closers[u]);
    }
  }

  lemma ClearingKeepsClosed(b: Book, refunds: map<RefundKey, RefundPc>, backendCloses: nat, cleared: bool)
    requires ClosedInv(b, refunds, backendCloses, cleared) && b.closeDrained
    ensures ClosedInv(ClearBook(b), refunds, backendCloses, true)
  {
  }

  lemma CloseClearsKeeps(c: Config, s: State, t: nat)
    requires Inv(c, s) && CloseClears_(s, t).Some?
    ensures Inv(c, CloseClears_(s, t).value)
  {
    hide Local, AcquireInv, OrderInv, RefundInv, HolderInv, LockInv, DrainInv, TakenInv, CloserInv, SetterInv,
      ClosedInv, PostingsOk, DebitInv, CreditInv, ClaimInv;
    var s' := CloseClears_(s, t).value;
    CloserKnown(c, s, t);
    ClearingBook(c, s);
    ClearingRefunds(s);
    ClearingClaims(c, s);
    ClearingClosers(s, t);
    ClearingKeepsClosed(s.book, s.refunds, s.backendCloses, s.cleared);
    DrainMoves(s.refunds, s.closers, s'.closers, t);
    assert Taken(CloseDone) == [];
    TakenMoves(s.held, s.held, s.closers, s'.closers, t);
  }

  // ---------------------------------------------------------------- set_max_capacity

  lemma SettersStep(b: Book, lifecycle: Option<Owner>, lifecycle': Option<Owner>,
                    setters: map<nat, SetMaxPc>, setters': map<nat, SetMaxPc>, t: nat)
    requires SetterInv(b.closeDrained, lifecycle, setters) && AgreeOff(setters, setters', t) && t in setters'
    requires lifecycle' == lifecycle || lifecycle.None? || lifecycle == Some(Setter(t))
    requires HasLifecycle(setters'[t]) ==> lifecycle' == Some(Setter(t))
    requires MayWriteMaximum(setters'[t]) ==> !b.closeDrained
    ensures SetterInv(b.closeDrained, lifecycle', setters')
  {
  }

  lemma ClosersOutside(b: Book, lifecycle: Option<Owner>, lifecycle': Option<Owner>, n: nat, closers: map<nat, ClosePc>)
    requires CloserInv(b, lifecycle, n, closers)
    requires lifecycle' == lifecycle || lifecycle.None? || lifecycle.value.Setter?
    ensures CloserInv(b, lifecycle', n, closers)
  {
    forall t | t in closers
      ensures CloserOk(b, lifecycle', n, t, closers[t])
    {
      assert CloserOk(b, lifecycle, n, t, closers[t]);
    }
  }

  lemma SetterEffectKeeps(c: Config, s: State, s': State, t: nat)
    requires Inv(c, s)
    requires t in s'.setters && AgreeOff(s.setters, s'.setters, t)
    requires s' == s.(setters := s'.setters, lifecycle := s'.lifecycle)
    requires s'.lifecycle == s.lifecycle || s.lifecycle.None? || s.lifecycle == Some(Setter(t))
    requires HasLifecycle(s'.setters[t]) ==> s'.lifecycle == Some(Setter(t))
    requires MayWriteMaximum(s'.setters[t]) ==> !s.book.closeDrained
    ensures Inv(c, s')
  {
    hide Consistent, Local, AcquireInv, RecordInv, OrderInv, RefundInv, HolderInv, LockInv, DrainInv, TakenInv,
      CloserInv, SetterInv, ClosedInv, PostingsOk, DebitInv, CreditInv, SettledInv, ClaimInv, DedupInv;
    SettersStep(s.book, s.lifecycle, s'.lifecycle, s.setters, s'.setters, t);
    ClosersOutside(s.book, s.lifecycle, s'.lifecycle, s.backendCloses, s.closers);
  }

  lemma SetterKnown(c: Config, s: State, t: nat)
    requires Inv(c, s)
    ensures t in s.setters && HasLifecycle(s.setters[t]) ==> s.lifecycle == Some(Setter(t))
    ensures t in s.setters && MayWriteMaximum(s.setters[t]) ==> !s.book.closeDrained
    ensures s.book.closeDrained ==> s.book.closed
  {
  }

  lemma SetMaxStartsKeeps(c: Config, s: State, t: nat)
    requires Inv(c, s) && SetMaxStarts_(s, t).Some?
    ensures Inv(c, SetMaxStarts_(s, t).value)
  {
    hide Consistent, Local, AcquireInv, RecordInv, OrderInv, RefundInv, HolderInv, LockInv, DrainInv, TakenInv,
      CloserInv, SetterInv, ClosedInv, PostingsOk, DebitInv, CreditInv, SettledInv, ClaimInv, DedupInv;
    SetterKnown(c, s, t);
    SetterEffectKeeps(c, s, SetMaxStarts_(s, t).value, t);
  }

  lemma SetMaxEntersLifecycleKeeps(c: Config, s: State, t: nat)
    requires Inv(c, s) && SetMaxEntersLifecycle_(s, t).Some?
    ensures Inv(c, SetMaxEntersLifecycle_(s, t).value)
  {
    hide Consistent, Local, AcquireInv, RecordInv, OrderInv, RefundInv, HolderInv, LockInv, DrainInv, TakenInv,
      CloserInv, SetterInv, ClosedInv, PostingsOk, DebitInv, CreditInv, SettledInv, ClaimInv, DedupInv;
    SetterKnown(c, s, t);
    SetterEffectKeeps(c, s, SetMaxEntersLifecycle_(s, t).value, t);
  }

  /** The lifecycle lock is given up, after the write or instead of it. */
  lemma SetMaxLeaves(c: Config, s: State, t: nat)
    requires Inv(c, s) && t in s.setters && HasLifecycle(s.setters[t])
    ensures Inv(c, SetSetter(s.(lifecycle := None), t, SetMaxDone))
  {
    hide Consistent, Local, AcquireInv, RecordInv, OrderInv, RefundInv, HolderInv, LockInv, DrainInv, TakenInv,
      CloserInv, SetterInv, ClosedInv, PostingsOk, DebitInv, CreditInv, SettledInv, ClaimInv, DedupInv;
    SetterKnown(c, s, t);
    SetterEffectKeeps(c, s, SetSetter(s.(lifecycle := None), t, SetMaxDone), t);
  }

  /** The limiter was found open, or found so before. */
  lemma SetMaxAdmitted(c: Config, s: State, t: nat, pc: SetMaxPc)
    requires Inv(c, s) && t in s.setters && MayWriteMaximum(pc)
    requires (s.setters[t].SetMaxChecking? && !s.book.closed) || MayWriteMaximum(s.setters[t])
    ensures Inv(c, SetSetter(s, t, pc))
  {
    hide Consistent, Local, AcquireInv, RecordInv, OrderInv, RefundInv, HolderInv, LockInv, DrainInv, TakenInv,
      CloserInv, SetterInv, ClosedInv, PostingsOk, DebitInv, CreditInv, SettledInv, ClaimInv, DedupInv;
    SetterKnown(c, s, t);
    SetterEffectKeeps(c, s, SetSetter(s, t, pc), t);
  }

  lemma SetMaxChecksKeeps(c: Config, s: State, t: nat)
    requires Inv(c, s) && SetMaxChecks_(s, t).Some?
    ensures Inv(c, SetMaxChecks_(s, t).value)
  {
    hide Inv, SetSetter;
    if s.book.closed || s.book.closing {
      SetMaxLeaves(c, s, t);
    } else {
      SetMaxAdmitted(c, s, t, SetMaxLimiterWaiting);
    }
  }

  lemma SetMaxEntersLimiterKeeps(c: Config, s: State, t: nat)
    requires Inv(c, s) && SetMaxEntersLimiter_(s, t).Some?
    ensures Inv(c, SetMaxEntersLimiter_(s, t).value)
  {
    hide Inv, SetSetter;
    LimiterKeeps(c, s, s.backends, Some(Setter(t)));
    SetMaxAdmitted(c, s.(backends := s.backends, limiter := Some(Setter(t))), t, SetMaxWriting);
  }

  lemma SetMaxEndsKeeps(c: Config, s: State, t: nat, installed: set<Family>)
    requires Inv(c, s) && SetMaxEnds_(s, t, installed).Some?
    ensures Inv(c, SetMaxEnds_(s, t, installed).value)
  {
    hide Inv, SetSetter;
    LimiterKeeps(c, s, s.backends + installed, None);
    SetMaxLeaves(c, s.(backends := s.backends + installed, limiter := None), t);
  }

  lemma SetMaxGivesUp(c: Config, s: State, t: nat)
    requires Inv(c, s) && t in s.setters && s.setters[t].SetMaxWaiting?
    ensures Inv(c, SetSetter(s, t, SetMaxDone))
  {
    hide Consistent, Local, AcquireInv, RecordInv, OrderInv, RefundInv, HolderInv, LockInv, DrainInv, TakenInv,
      CloserInv, SetterInv, ClosedInv, PostingsOk, DebitInv, CreditInv, SettledInv, ClaimInv, DedupInv;
    SetterKnown(c, s, t);
    SetterEffectKeeps(c, s, SetSetter(s, t, SetMaxDone), t);
  }

  lemma SetMaxInterruptedKeeps(c: Config, s: State, t: nat)
    requires Inv(c, s) && SetMaxInterrupted_(s, t).Some?
    ensures Inv(c, SetMaxInterrupted_(s, t).value)
  {
    hide Inv, SetSetter;
    if s.setters[t].SetMaxWaiting? {
      SetMaxGivesUp(c, s, t);
    } else {
      SetMaxLeaves(c, s, t);
    }
  }

  // ---------------------------------------------------------------- eviction

  /** No family of a live reservation is evicted, so a refund still finds its backend. */
  lemma EvictionSpares(c: Config, s: State, families: set<Family>)
    requires Consistent(c.maxInFlight, s.book) && RecordInv(s.book, s.issued, s.backends)
    requires families * s.book.family.Values == {}
    requires AcquireInv(s.book, s.refunds, s.backends, s.issued, s.acquires)
    ensures AcquireInv(s.book, s.refunds, s.backends - families, s.issued, s.acquires)
    ensures RecordInv(s.book, s.issued, s.backends - families)
  {
    forall f | f in s.book.family.Values
      ensures f !in families
    {
      assert f in families ==> f in families * s.book.family.Values;
    }
    forall rid
      ensures RecordOk(s.book, s.issued, s.backends - families, rid)
    {
      assert RecordOk(s.book, s.issued, s.backends, rid);
      if rid in s.book.family {
        assert s.book.family[rid] in s.book.family.Values;
      }
    }
    forall rid | rid in s.acquires && rid in s.issued
      ensures AcquireOk(s.book, s.refunds, s.backends - families, rid, s.issued[rid], s.acquires[rid])
    {
      assert AcquireOk(s.book, s.refunds, s.backends, rid, s.issued[rid], s.acquires[rid]);
      assert RecordOk(s.book, s.issued, s.backends, rid);
      if rid in s.book.family {
        assert s.book.family[rid] in s.book.family.Values;
      }
    }
  }

  lemma EvictFamiliesKeeps(c: Config, s: State, families: set<Family>)
    requires Inv(c, s) && EvictFamilies_(s, families).Some?
    ensures Inv(c, EvictFamilies_(s, families).value)
  {
    hide Consistent, Local, AcquireInv, RecordInv, OrderInv, RefundInv, HolderInv, LockInv, DrainInv, TakenInv,
      CloserInv, SetterInv, ClosedInv, PostingsOk, DebitInv, CreditInv, SettledInv, ClaimInv, DedupInv;
    EvictionSpares(c, s, families);
  }
}
