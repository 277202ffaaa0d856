/** How each group of the invariant survives a step that changes one reservation, one refund call or one closer. */
module ProtocolFrames {
  import opened Types
  import opened Bookkeeping
  import opened Protocol
  import opened ProtocolInvariant

  /** `after` agrees with `before` everywhere but at `rid`. */
  ghost predicate AgreeOff<V>(before: map<Id, V>, after: map<Id, V>, rid: Id) {
    forall id :: id != rid ==>
      (id in after <==> id in before) && (id in after && id in before ==> after[id] == before[id])
  }

  ghost predicate Grows<V>(before: map<Id, V>, after: map<Id, V>) {
    forall id :: id in before ==> id in after && after[id] == before[id]
  }

  ghost predicate OnlyRefund(before: map<RefundKey, RefundPc>, after: map<RefundKey, RefundPc>, k: RefundKey) {
    && k in after
    && (forall k' :: k' != k ==>
          (k' in after <==> k' in before) && (k' in after && k' in before ==> after[k'] == before[k']))
  }

  // ---------------------------------------------------------------- acquires and records

  lemma AcquireFrame(b: Book, b': Book, refunds: map<RefundKey, RefundPc>, refunds': map<RefundKey, RefundPc>,
                     backends: set<Family>, backends': set<Family>,
                     issued: map<Id, Reservation>, issued': map<Id, Reservation>,
                     acquires: map<Id, AcquirePc>, acquires': map<Id, AcquirePc>, rid: Id)
    requires AcquireInv(b, refunds, backends, issued, acquires)
    requires Local(b, b', rid) && AgreeOff(issued, issued', rid) && AgreeOff(acquires, acquires', rid)
    requires forall k :: k in refunds ==> k in refunds'
    requires backends <= backends'
    requires rid in acquires' <==> rid in issued'
    requires rid in acquires' && rid in issued' ==>
               AcquireOk(b', refunds', backends', rid, issued'[rid], acquires'[rid])
    ensures AcquireInv(b', refunds', backends', issued', acquires')
  {
    forall id | id in acquires' && id in issued' && id != rid
      ensures AcquireOk(b', refunds', backends', id, issued'[id], acquires'[id])
    {
      assert AcquireOk(b, refunds, backends, id, issued[id], acquires[id]);
    }
  }

  lemma RecordFrame(b: Book, b': Book, issued: map<Id, Reservation>, issued': map<Id, Reservation>,
                    backends: set<Family>, backends': set<Family>, rid: Id)
    requires RecordInv(b, issued, backends)
    requires Local(b, b', rid) && Grows(issued, issued') && backends <= backends'
    requires RecordOk(b', issued', backends', rid)
    ensures RecordInv(b', issued', backends')
  {
    forall id | id != rid
      ensures RecordOk(b', issued', backends', id)
    {
      assert RecordOk(b, issued, backends, id);
    }
  }

  // ---------------------------------------------------------------- refunds

  /** No refund is about `rid`, so none notices the change. */
  lemma RefundFrame(b: Book, b': Book, acquires: map<Id, AcquirePc>, acquires': map<Id, AcquirePc>,
                    issued: map<Id, Reservation>, issued': map<Id, Reservation>,
                    refunds: map<RefundKey, RefundPc>, rid: Id)
    requires RefundInv(b, acquires, issued, refunds)
    requires Local(b, b', rid) && AgreeOff(issued, issued', rid) && AgreeOff(acquires, acquires', rid)
    requires forall k :: k in refunds ==> refunds[k].q.rid != rid
    ensures RefundInv(b', acquires', issued', refunds)
  {
    forall k | k in refunds
      ensures RefundOk(b', acquires', issued', k, refunds[k])
    {
      assert RefundOk(b, acquires, issued, k, refunds[k]);
    }
  }

  /** Only an acquire that may be refunded is the subject of a refund. */
  lemma NotRefunded(b: Book, acquires: map<Id, AcquirePc>, issued: map<Id, Reservation>,
                    refunds: map<RefundKey, RefundPc>, rid: Id)
    requires RefundInv(b, acquires, issued, refunds)
    requires rid in acquires && !MayBeRefunded(acquires[rid])
    ensures forall k :: k in refunds ==> refunds[k].q.rid != rid
  {
    forall k | k in refunds
      ensures refunds[k].q.rid != rid
    {
      assert RefundOk(b, acquires, issued, k, refunds[k]);
    }
  }

  /** A refund call moves and its reservation is forgotten or left alone. */
  lemma RefundMoves(b: Book, b': Book, acquires: map<Id, AcquirePc>, issued: map<Id, Reservation>,
                    refunds: map<RefundKey, RefundPc>, refunds': map<RefundKey, RefundPc>, k: RefundKey)
    requires RefundInv(b, acquires, issued, refunds) && k in refunds
    requires OnlyRefund(refunds, refunds', k)
    requires b' == b || b' == Forget(b, refunds[k].q.rid)
    requires RefundOk(b', acquires, issued, k, refunds'[k])
    ensures RefundInv(b', acquires, issued, refunds')
  {
    var rid := refunds[k].q.rid;
    assert RefundOk(b, acquires, issued, k, refunds[k]);
    forall j | j in refunds' && j != k
      ensures RefundOk(b', acquires, issued, j, refunds'[j])
    {
      assert RefundOk(b, acquires, issued, j, refunds[j]);
      if j.Undelivered? && refunds[j].q.rid == rid {
        assert k.Public? && HandedOut(acquires, rid);
      }
    }
  }

  lemma RefundAdds(b: Book, acquires: map<Id, AcquirePc>, issued: map<Id, Reservation>,
                   refunds: map<RefundKey, RefundPc>, refunds': map<RefundKey, RefundPc>, k: RefundKey)
    requires RefundInv(b, acquires, issued, refunds)
    requires k !in refunds && OnlyRefund(refunds, refunds', k)
    requires RefundOk(b, acquires, issued, k, refunds'[k])
    ensures RefundInv(b, acquires, issued, refunds')
  {
    forall j | j in refunds' && j != k
      ensures RefundOk(b, acquires, issued, j, refunds'[j])
    {
      assert RefundOk(b, acquires, issued, j, refunds[j]);
    }
  }

  /** While acquire `rid` runs, the only refund about it is its own. */
  lemma RefundFrameOwn(b: Book, b': Book, acquires: map<Id, AcquirePc>, acquires': map<Id, AcquirePc>,
                       issued: map<Id, Reservation>, refunds: map<RefundKey, RefundPc>, rid: Id)
    requires RefundInv(b, acquires, issued, refunds)
    requires Local(b, b', rid) && AgreeOff(acquires, acquires', rid)
    requires rid in acquires && !acquires[rid].Finished?
    requires Undelivered(rid) in refunds ==>
               RefundOk(b', acquires', issued, Undelivered(rid), refunds[Undelivered(rid)])
    ensures RefundInv(b', acquires', issued, refunds)
  {
    forall k | k in refunds && k != Undelivered(rid)
      ensures RefundOk(b', acquires', issued, k, refunds[k])
    {
      assert RefundOk(b, acquires, issued, k, refunds[k]);
      assert refunds[k].q.rid != rid;
    }
  }

  // ---------------------------------------------------------------- locks

  lemma ReferencesUnchanged(refunds: map<RefundKey, RefundPc>, refunds': map<RefundKey, RefundPc>, k: RefundKey,
                            rid: Id)
    requires OnlyRefund(refunds, refunds', k)
    requires (k in References(refunds, rid)) <==> (k in References(refunds', rid))
    ensures References(refunds', rid) == References(refunds, rid)
  {
  }

  lemma ReferencesGrow(refunds: map<RefundKey, RefundPc>, refunds': map<RefundKey, RefundPc>, k: RefundKey, rid: Id)
    requires OnlyRefund(refunds, refunds', k)
    requires k !in References(refunds, rid) && k in References(refunds', rid)
    ensures |References(refunds', rid)| == |References(refunds, rid)| + 1
  {
    assert References(refunds', rid) == References(refunds, rid) + {k};
  }

  lemma ReferencesShrink(refunds: map<RefundKey, RefundPc>, refunds': map<RefundKey, RefundPc>, k: RefundKey, rid: Id)
    requires OnlyRefund(refunds, refunds', k)
    requires k in References(refunds, rid) && k !in References(refunds', rid)
    ensures |References(refunds', rid)| == |References(refunds, rid)| - 1
  {
    assert References(refunds', rid) == References(refunds, rid) - {k};
  }

  /** The call keeps its registration, if it has one. */
  lemma LockFrame(locks: map<Id, Lock>, refcounts: map<Id, nat>,
                  refunds: map<RefundKey, RefundPc>, refunds': map<RefundKey, RefundPc>, k: RefundKey)
    requires LockInv(locks, refcounts, refunds) && OnlyRefund(refunds, refunds', k)
    requires k in refunds ==> (HasLock(refunds'[k]) <==> HasLock(refunds[k]))
    requires k in refunds && HasLock(refunds[k]) ==>
               refunds'[k].q.rid == refunds[k].q.rid && refunds'[k].lock == refunds[k].lock
    requires k !in refunds ==> !HasLock(refunds'[k])
    ensures LockInv(locks, refcounts, refunds')
  {
    forall j | j in refunds'
      ensures Registered(locks, refunds'[j])
    {
      assert j in refunds ==> Registered(locks, refunds[j]);
    }
    forall rid | rid in refcounts
      ensures refcounts[rid] == |References(refunds', rid)|
    {
      ReferencesUnchanged(refunds, refunds', k, rid);
    }
  }

  lemma HolderFrame(held: map<Lock, Owner>, held': map<Lock, Owner>,
                    refunds: map<RefundKey, RefundPc>, refunds': map<RefundKey, RefundPc>, k: RefundKey)
    requires HolderInv(held, refunds) && OnlyRefund(refunds, refunds', k)
    requires forall l :: l in held && held[l] != Refunder(k) ==> l in held' && held'[l] == held[l]
    requires HolderOk(held', k, refunds'[k])
    ensures HolderInv(held', refunds')
  {
    forall j | j in refunds' && j != k
      ensures HolderOk(held', j, refunds'[j])
    {
      assert HolderOk(held, j, refunds[j]);
    }
  }

  // ---------------------------------------------------------------- closing

  lemma DrainFrame(refunds: map<RefundKey, RefundPc>, refunds': map<RefundKey, RefundPc>, closers: map<nat, ClosePc>)
    requires DrainInv(refunds, closers)
    requires forall k :: k in refunds' && PastGate(refunds'[k]) ==>
               k in refunds && PastGate(refunds[k]) && refunds'[k].lock == refunds[k].lock
    ensures DrainInv(refunds', closers)
  {
    forall t | t in closers
      ensures DrainOk(refunds', closers[t])
    {
      assert DrainOk(refunds, closers[t]);
    }
  }

  lemma TakenFrame(held: map<Lock, Owner>, held': map<Lock, Owner>, closers: map<nat, ClosePc>)
    requires TakenInv(held, closers)
    requires forall l :: l in held && held[l].Closer? ==> l in held' && held'[l] == held[l]
    ensures TakenInv(held', closers)
  {
    forall t | t in closers
      ensures TakenOk(held', t, closers[t])
    {
      assert TakenOk(held, t, closers[t]);
    }
  }

  lemma CloserFrame(b: Book, b': Book, rid: Id, lifecycle: Option<Owner>, backendCloses: nat,
                    closers: map<nat, ClosePc>)
    requires CloserInv(b, lifecycle, backendCloses, closers)
    requires Local(b, b', rid)
    ensures CloserInv(b', lifecycle, backendCloses, closers)
  {
    forall t | t in closers
      ensures CloserOk(b', lifecycle, backendCloses, t, closers[t])
    {
      assert CloserOk(b, lifecycle, backendCloses, t, closers[t]);
    }
  }

  lemma SetterFrame(b: Book, b': Book, rid: Id, lifecycle: Option<Owner>, setters: map<nat, SetMaxPc>)
    requires SetterInv(b.closeDrained, lifecycle, setters) && Local(b, b', rid)
    ensures SetterInv(b'.closeDrained, lifecycle, setters)
  {
  }

  lemma ClosedFrame(b: Book, b': Book, rid: Id, refunds: map<RefundKey, RefundPc>, refunds': map<RefundKey, RefundPc>,
                    backendCloses: nat, cleared: bool)
    requires ClosedInv(b, refunds, backendCloses, cleared)
    requires Local(b, b', rid)
    requires forall k :: k in refunds' && PastGate(refunds'[k]) ==> k in refunds && PastGate(refunds[k])
    ensures ClosedInv(b', refunds', backendCloses, cleared)
  {
  }

  // ---------------------------------------------------------------- ledger

  lemma {:induction false} PostingsFrame(l: Ledger, issued: map<Id, Reservation>, issued': map<Id, Reservation>)
    requires PostingsOk(l, issued) && Grows(issued, issued')
    ensures PostingsOk(l, issued')
  {
    if l.Post? {
      PostingsFrame(l.earlier, issued, issued');
    }
  }

  lemma {:induction false} DebitPosts(l: Ledger, l': Ledger, issued: map<Id, Reservation>, rid: Id)
    requires PostingsOk(l, issued) && rid in issued
    requires l' == l || (l' == Post(Debit(rid, issued[rid]), l) && !issued[rid].unlimited && WellFormed(issued[rid]))
    ensures PostingsOk(l', issued)
  {
  }

  /** Credits are posted against issued reservations only. */
  lemma {:induction false} CreditsAreIssued(l: Ledger, issued: map<Id, Reservation>, rid: Id)
    requires PostingsOk(l, issued) && rid !in issued
    ensures Credits(l, rid) == 0 && Debits(l, rid) == 0
  {
    if l.Post? {
      CreditsAreIssued(l.earlier, issued, rid);
    }
  }

  lemma DebitFrame(l: Ledger, l': Ledger, issued: map<Id, Reservation>, issued': map<Id, Reservation>,
                   acquires: map<Id, AcquirePc>, acquires': map<Id, AcquirePc>, rid: Id)
    requires DebitInv(l, issued, acquires)
    requires AgreeOff(issued, issued', rid) && AgreeOff(acquires, acquires', rid)
    requires l' == l || (l'.Post? && l'.earlier == l && (l'.last.Debit? ==> l'.last.rid == rid))
    requires Debits(l', rid) == if IsDebited(issued', acquires', rid) then 1 else 0
    ensures DebitInv(l', issued', acquires')
  {
    forall id | id != rid
      ensures Debits(l', id) == if IsDebited(issued', acquires', id) then 1 else 0
    {
      assert Debits(l, id) == if IsDebited(issued, acquires, id) then 1 else 0;
    }
  }

  lemma CreditFrame(c: Config, l: Ledger, l': Ledger, issued: map<Id, Reservation>, issued': map<Id, Reservation>,
                    acquires: map<Id, AcquirePc>, acquires': map<Id, AcquirePc>, rid: Id)
    requires CreditInv(c, l, issued, acquires)
    requires AgreeOff(issued, issued', rid) && AgreeOff(acquires, acquires', rid)
    requires forall id :: id != rid ==> Credits(l', id) == Credits(l, id)
    requires Credits(l', rid) > 0 ==>
               rid in acquires' && MayBeRefunded(acquires'[rid]) && IsDebited(issued', acquires', rid)
    requires CreditsSafely(c) ==> Credits(l', rid) <= 1
    ensures CreditInv(c, l', issued', acquires')
  {
    forall id | id != rid && Credits(l', id) > 0
      ensures id in acquires' && MayBeRefunded(acquires'[id]) && IsDebited(issued', acquires', id)
    {
      assert IsDebited(issued, acquires, id);
    }
  }

  lemma SettledFrame(c: Config, l: Ledger, l': Ledger, b: Book, b': Book, refunds: map<RefundKey, RefundPc>, rid: Id)
    requires SettledInv(c, l, b.inFlight, refunds) && Local(b, b', rid)
    requires forall id :: id != rid ==> Credits(l', id) == Credits(l, id)
    requires rid in b'.inFlight ==> Credits(l', rid) == 0
    ensures SettledInv(c, l', b'.inFlight, refunds)
  {
  }

  /** A refund of `rid` moves; the settledness of every other reservation is untouched. */
  lemma SettledMoves(c: Config, l: Ledger, l': Ledger, inFlight: set<Id>, inFlight': set<Id>,
                     refunds: map<RefundKey, RefundPc>, refunds': map<RefundKey, RefundPc>, k: RefundKey)
    requires SettledInv(c, l, inFlight, refunds) && OnlyRefund(refunds, refunds', k)
    requires k in refunds ==> refunds[k].q.rid == refunds'[k].q.rid
    requires forall id :: id in inFlight' ==> id in inFlight
    requires forall id :: id != refunds'[k].q.rid ==> Credits(l', id) == Credits(l, id)
    requires NeverWritesSilently(c) && refunds'[k].q.rid in inFlight' && !IsSettling(refunds'[k]) ==>
               Credits(l', refunds'[k].q.rid) == Credits(l, refunds'[k].q.rid)
               && (k in refunds ==> !IsSettling(refunds[k]))
    ensures SettledInv(c, l', inFlight', refunds')
  {
    var rid := refunds'[k].q.rid;
    if NeverWritesSilently(c) {
      forall id | id in inFlight' && IsSettled(refunds', id)
        ensures Credits(l', id) == 0
      {
        assert !IsSettling(refunds'[k]) || id != rid;
        assert IsSettled(refunds, id) by {
          forall j | j in refunds && refunds[j].q.rid == id
            ensures !IsSettling(refunds[j])
          {
            if j != k {
              assert refunds'[j] == refunds[j];
            }
          }
        }
      }
    }
  }

  lemma ClaimFrame(c: Config, l: Ledger, l': Ledger, issued: map<Id, Reservation>, issued': map<Id, Reservation>,
                   b: Book, b': Book, refunds: map<RefundKey, RefundPc>, rid: Id)
    requires ClaimInv(c, l, issued, b.inFlight, refunds)
    requires Grows(issued, issued') && Local(b, b', rid)
    requires l' == l || (l'.Post? && l'.earlier == l && l'.last.Debit?)
    requires forall k :: k in refunds ==> refunds[k].q.rid != rid
    ensures ClaimInv(c, l', issued', b'.inFlight, refunds)
  {
    forall k | k in refunds
      ensures ClaimOk(c, l', issued', b'.inFlight, refunds[k])
    {
      assert ClaimOk(c, l, issued, b.inFlight, refunds[k]);
    }
  }

  /** A refund call moves, possibly posting a credit for its own reservation. */
  lemma ClaimMoves(c: Config, l: Ledger, l': Ledger, issued: map<Id, Reservation>,
                   inFlight: set<Id>, inFlight': set<Id>,
                   refunds: map<RefundKey, RefundPc>, refunds': map<RefundKey, RefundPc>, k: RefundKey)
    requires ClaimInv(c, l, issued, inFlight, refunds) && OnlyRefund(refunds, refunds', k)
    requires l' == l || (l'.Post? && l'.earlier == l && l'.last.Credit? && l'.last.rid == refunds'[k].q.rid)
    requires l' != l ==>
               forall j :: j in refunds' && refunds'[j].q.rid == refunds'[k].q.rid && refunds'[j].Calling? ==> j == k
    requires forall id :: id in inFlight' ==> id in inFlight
    requires ClaimOk(c, l', issued, inFlight', refunds'[k])
    ensures ClaimInv(c, l', issued, inFlight', refunds')
  {
    forall j | j in refunds' && j != k
      ensures ClaimOk(c, l', issued, inFlight', refunds'[j])
    {
      assert ClaimOk(c, l, issued, inFlight, refunds[j]);
    }
  }

  lemma DedupFrame(c: Config, lru: Lru, refunds: map<RefundKey, RefundPc>, refunds': map<RefundKey, RefundPc>,
                   k: RefundKey)
    requires DedupInv(c, lru, refunds) && OnlyRefund(refunds, refunds', k)
    requires IsPreparing(refunds'[k]) || refunds'[k].Calling? ==>
               k in refunds && (IsPreparing(refunds[k]) || refunds[k].Calling?) && refunds[k].q.rid == refunds'[k].q.rid
    ensures DedupInv(c, lru, refunds')
  {
  }
}
