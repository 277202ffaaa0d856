/** What every run does to the backend's ledger: credits land at most once, and debits less
  credits are exactly what the limiter's bookkeeping accounts for. */
module ProtocolLedger {
  import opened Types
  import opened Bookkeeping
  import opened Protocol
  import opened ProtocolInvariant
  import opened ProtocolTheorems

  function Used(u: Usage, b: BucketId): real {
    if b.metric in u then u[b.metric] else 0.0
  }

  /** What a reservation takes from one bucket. */
  function Reserved(r: Reservation, b: BucketId): real {
    if b in r.buckets then Used(r.usage, b) else 0.0
  }

  /** The effect of one posting on one bucket: positive for a debit. */
  function Amount(p: Posting, b: BucketId): real {
    match p
    case Debit(_, reserved) => Reserved(reserved, b)
    case Credit(_, scope, reserved, actual) => if b in scope then Used(actual, b) - Used(reserved.usage, b) else 0.0
  }

  /** Debits minus credits of one bucket. */
  function Total(l: Ledger, b: BucketId): real {
    match l
    case Empty => 0.0
    case Post(p, rest) => Total(rest, b) + Amount(p, b)
  }

  /** The part of `Total` that belongs to one reservation. */
  function TotalOf(l: Ledger, rid: Id, b: BucketId): real {
    match l
    case Empty => 0.0
    case Post(p, rest) => TotalOf(rest, rid, b) + if p.rid == rid then Amount(p, b) else 0.0
  }

  function SumTotals(l: Ledger, ids: seq<Id>, b: BucketId): real {
    if ids == [] then 0.0 else TotalOf(l, ids[0], b) + SumTotals(l, ids[1..], b)
  }

  lemma {:induction false} PostingCountsOnce(p: Posting, l: Ledger, ids: seq<Id>, b: BucketId)
    requires forall i, j :: 0 <= i < j < |ids| ==> ids[i] != ids[j]
    ensures SumTotals(Post(p, l), ids, b) == SumTotals(l, ids, b) + if p.rid in ids then Amount(p, b) else 0.0
  {
    if ids != [] {
      PostingCountsOnce(p, l, ids[1..], b);
      assert ids == [ids[0]] + ids[1..];
    }
  }

  lemma {:induction false} EmptySums(ids: seq<Id>, b: BucketId)
    ensures SumTotals(Empty, ids, b) == 0.0
  {
    if ids != [] {
      EmptySums(ids[1..], b);
    }
  }

  /** Every posting belongs to exactly one issued reservation. */
  lemma {:induction false} TotalIsSum(l: Ledger, issued: map<Id, Reservation>, order: seq<Id>, b: BucketId)
    requires PostingsOk(l, issued) && OrderInv(order, issued)
    ensures Total(l, b) == SumTotals(l, order, b)
  {
    match l
    case Empty => EmptySums(order, b);
    case Post(p, rest) =>
      TotalIsSum(rest, issued, order, b);
      PostingCountsOnce(p, rest, order, b);
  }

  /** What one credited reservation got back from one bucket. */
  function Returned(l: Ledger, rid: Id, b: BucketId): real {
    match l
    case Empty => 0.0
    case Post(p, rest) => Returned(rest, rid, b) - if p.Credit? && p.rid == rid then Amount(p, b) else 0.0
  }

  lemma {:induction false} TotalOfShape(l: Ledger, issued: map<Id, Reservation>, rid: Id, b: BucketId)
    requires PostingsOk(l, issued) && rid in issued && Debits(l, rid) <= 1
    ensures TotalOf(l, rid, b) ==
            (if Debits(l, rid) == 1 then Reserved(issued[rid], b) else 0.0) - Returned(l, rid, b)
  {
    if l.Post? {
      TotalOfShape(l.earlier, issued, rid, b);
    }
  }

  lemma {:induction false} UncreditedReturnsNothing(l: Ledger, rid: Id, b: BucketId)
    requires Credits(l, rid) == 0
    ensures Returned(l, rid, b) == 0.0
  {
    if l.Post? {
      UncreditedReturnsNothing(l.earlier, rid, b);
    }
  }

  /** The buckets the one credit of a reservation covered, and the usage it settled for. */
  function CreditScope(l: Ledger, rid: Id): set<BucketId> {
    match l
    case Empty => {}
    case Post(p, rest) => if p.Credit? && p.rid == rid then p.scope else CreditScope(rest, rid)
  }

  function CreditActual(l: Ledger, rid: Id): Usage {
    match l
    case Empty => map[]
    case Post(p, rest) => if p.Credit? && p.rid == rid then p.actual else CreditActual(rest, rid)
  }

  lemma {:induction false} OneCreditReturns(l: Ledger, issued: map<Id, Reservation>, rid: Id, b: BucketId)
    requires PostingsOk(l, issued) && rid in issued && Credits(l, rid) == 1
    ensures CreditScope(l, rid) <= issued[rid].buckets
    ensures Returned(l, rid, b) ==
            if b in CreditScope(l, rid) then Used(issued[rid].usage, b) - Used(CreditActual(l, rid), b) else 0.0
  {
    if l.last.Credit? && l.last.rid == rid {
      UncreditedReturnsNothing(l.earlier, rid, b);
    } else {
      OneCreditReturns(l.earlier, issued, rid, b);
    }
  }

  lemma {:induction false} CreditIsTheOne(l: Ledger, rid: Id, actual: Usage)
    requires CreditedWith(l, rid, actual) && Credits(l, rid) <= 1
    ensures CreditActual(l, rid) == actual && Credits(l, rid) == 1
  {
    if l.last.Credit? && l.last.rid == rid {
      if CreditedWith(l.earlier, rid, actual) {
        CreditIsTheOne(l.earlier, rid, actual);
      }
    } else {
      CreditIsTheOne(l.earlier, rid, actual);
    }
  }

  // ---------------------------------------------------------------- conservation

  /** A closed reservation is charged its actual usage on the credited buckets, else all it reserved. */
  function ClosedCharge(l: Ledger, r: Reservation, rid: Id, b: BucketId): real {
    if Credits(l, rid) > 0 && b in CreditScope(l, rid) then Used(CreditActual(l, rid), b) else Reserved(r, b)
  }

  /** What the limiter's own records say a reservation costs a bucket: all it reserved while it is in flight or
    being acquired, unless a refund of it has landed and is about to be recorded; its charge once it is closed, which
    for one that was recorded or lost is all of it. */
  ghost function Due(s: State, rid: Id, b: BucketId): real {
    if !IsDebited(s.issued, s.acquires, rid) then 0.0
    else if (rid in s.book.inFlight || BeingAcquired(s.acquires[rid])) && IsSettled(s.refunds, rid) then
      Reserved(s.issued[rid], b)
    else ClosedCharge(s.ledger, s.issued[rid], rid, b)
  }

  predicate BeingAcquired(pc: AcquirePc) {
    !pc.Finished? && !MayBeRefunded(pc)
  }

  ghost function SumDue(s: State, ids: seq<Id>, b: BucketId): real {
    if ids == [] then 0.0 else Due(s, ids[0], b) + SumDue(s, ids[1..], b)
  }

  lemma DueIsTotal(c: Config, s: State, rid: Id, b: BucketId)
    requires Inv(c, s) && NeverWritesSilently(c) && rid in s.issued
    ensures Due(s, rid, b) == TotalOf(s.ledger, rid, b)
  {
    hide Consistent, RecordInv, OrderInv, RefundInv, HolderInv, LockInv, DrainInv, TakenInv, CloserInv, SetterInv,
      ClosedInv, ClaimInv, DedupInv, PostingsOk;
    TotalOfShape(s.ledger, s.issued, rid, b);
    if Credits(s.ledger, rid) == 0 {
      UncreditedReturnsNothing(s.ledger, rid, b);
    } else {
      OneCreditReturns(s.ledger, s.issued, rid, b);
    }
  }

  lemma {:induction false} DuesAreTotals(c: Config, s: State, ids: seq<Id>, b: BucketId)
    requires Inv(c, s) && NeverWritesSilently(c)
    requires forall i :: 0 <= i < |ids| ==> ids[i] in s.issued
    ensures SumDue(s, ids, b) == SumTotals(s.ledger, ids, b)
  {
    hide Inv, IsSettled;
    if ids != [] {
      DueIsTotal(c, s, ids[0], b);
      DuesAreTotals(c, s, ids[1..], b);
    }
  }

  /** Conservation over whole runs, in every reachable state. For each bucket the backend's debits less its credits
    are the reserved usage of what is in flight or being delivered, plus the charge of everything closed. */
  lemma Conservation(c: Config, actions: seq<Action>, b: BucketId)
    requires NeverWritesSilently(c) && Run(c, Initial, actions).Some?
    ensures var s := Run(c, Initial, actions).value;
            Total(s.ledger, b) == SumDue(s, s.order, b)
  {
    hide AcquireInv, Consistent, RecordInv, RefundInv, HolderInv, LockInv, DrainInv, TakenInv, CloserInv, SetterInv,
      ClosedInv, PostingsOk, DebitInv, CreditInv, SettledInv, ClaimInv, DedupInv;
    RunsKeepInvariant(c, actions);
    var s := Run(c, Initial, actions).value;
    TotalIsSum(s.ledger, s.issued, s.order, b);
    DuesAreTotals(c, s, s.order, b);
  }
}
