/** The `reserve()` scope: acquire on entry, and on exit close the reservation with the usage that fits how the
  block ended. The limiter is a port: one reservation, and how each of its refund calls turns out.
*/
module ReserveScope {
  import opened Types

  /** What the backend does with a refund that gets there: the credit lands and is recorded, nothing lands, it lands
    and is recorded although the call fails, or it lands and the limiter takes the call for a failed one. */
  datatype Fault = Works | FailsBefore(critical: bool) | FailsAfter(critical: bool) | LandsUnseen(critical: bool)

  /** What one refund call meets. */
  datatype Circumstance = Circumstance(closed: bool, expired: bool, fault: Fault)

  datatype RefundError = LimiterClosed | Expired | InvalidUsage | AlreadyClosed | Interrupted(critical: bool)

  predicate Critical(e: RefundError) {
    e.Interrupted? && e.critical
  }

  /** The limiter as the scope sees it: what the next refund call meets, and what every one after it does. An exit
    makes one or two. `markers`: the backend keeps acquire markers, and credits an acquire at most once. */
  datatype Port = Port(
    reserved: Usage, unlimited: bool, markers: bool, next: Circumstance, after: Circumstance,
    inFlight: bool, credits: seq<Usage>)

  predicate Valid(reserved: Usage, actual: Usage) {
    actual.Keys == reserved.Keys && forall m :: m in actual ==> actual[m] >= 0.0
  }

  /** The reservation can still be credited: by the marker, or because it is in flight. */
  predicate CanLand(p: Port) {
    if p.markers then p.credits == [] else p.inFlight
  }

  /** `refund_capacity`, in the order of its checks. An unlimited reservation is forgotten without more; an expired
    one is forgotten too, credited nothing, before its usage is looked at. */
  function Refund(p: Port, actual: Usage): (Port, Option<RefundError>) {
    var (met, later) := (p.next, p.(next := p.after));
    if met.closed then (later, Some(LimiterClosed))
    else if p.unlimited then (later.(inFlight := false), None)
    else if met.expired then (later.(inFlight := false), Some(Expired))
    else if !Valid(p.reserved, actual) then (later, Some(InvalidUsage))
    else if !CanLand(p) then (later.(inFlight := false), Some(AlreadyClosed))
    else
      var landed := later.(credits := p.credits + [actual]);
      match met.fault
      case Works => (landed.(inFlight := false), None)
      case FailsBefore(critical) => (later, Some(Interrupted(critical)))
      case FailsAfter(critical) => (landed.(inFlight := false), Some(Interrupted(critical)))
      case LandsUnseen(critical) => (landed, Some(Interrupted(critical)))
  }

  /** How one refund call ends, what it credits and whether the reservation stays in flight. */
  lemma RefundDecides(p: Port, actual: Usage)
    ensures var (later, error) := Refund(p, actual);
            var c := p.next;
            var fits := (forall m :: m in actual <==> m in p.reserved)
                        && (forall m :: m in actual ==> actual[m] >= 0.0);
            var open := if p.markers then p.credits == [] else p.inFlight;
            var settles := !c.closed && !p.unlimited && !c.expired && fits;
            && (error == Some(LimiterClosed) <==> c.closed)
            && (error == Some(Expired) <==> !c.closed && !p.unlimited && c.expired)
            && (error == Some(InvalidUsage) <==> !c.closed && !p.unlimited && !c.expired && !fits)
            && (error == Some(AlreadyClosed) <==> settles && !open)
            && (error == None <==> (!c.closed && p.unlimited) || (settles && open && c.fault.Works?))
            && later.credits == p.credits + (if settles && open && !c.fault.FailsBefore? then [actual] else [])
            && (later.inFlight <==>
                  p.inFlight && (c.closed || (!p.unlimited && !c.expired
                                              && (!fits || (open && (c.fault.FailsBefore? || c.fault.LandsUnseen?))))))
  {
    assert Valid(p.reserved, actual) <==>
           (forall m :: m in actual <==> m in p.reserved) && (forall m :: m in actual ==> actual[m] >= 0.0);
  }

  /** How the `with` statement ends: the block's own exception goes on, nothing is raised, the warning about a
    forgotten usage is given, or the exit raises an error of its own. */
  datatype Ending = BodyException | Silent | ForgotUsage | Raises(error: RefundError)

  class LimiterPort {
    var port: Port

    constructor (p: Port)
      ensures port == p
    {
      port := p;
    }

    method RefundCapacity(actual: Usage) returns (error: Option<RefundError>)
      modifies this
      ensures (port, error) == Refund(old(port), actual)
    {
      var (later, outcome) := Refund(port, actual);
      port := later;
      error := outcome;
    }
  }

  class Scope {
    const limiter: LimiterPort
    const usageOnError: Option<Usage>
    var actualUsage: Option<Usage>
    var entered: bool
    var holds: bool

    constructor (limiter: LimiterPort, usageOnError: Option<Usage>)
      ensures this.limiter == limiter && this.usageOnError == usageOnError
      ensures actualUsage == None && !entered && !holds
    {
      this.limiter, this.usageOnError := limiter, usageOnError;
      actualUsage, entered, holds := None, false, false;
    }

    /** Single use: a second entry is refused, also while the first is active, and acquires nothing. */
    method Enter(acquires: bool) returns (ok: bool)
      modifies `entered, `holds
      ensures ok <==> !old(entered) && acquires
      ensures entered
      ensures holds <==> old(holds) || ok
    {
      if entered {
        return false;
      }
      entered := true;
      if acquires {
        holds := true;
      }
      return acquires;
    }

    method SetActualUsage(actual: Usage)
      modifies `actualUsage
      ensures actualUsage == Some(actual)
    {
      actualUsage := Some(actual);
    }

    /** Whether the refund committed; a critical failure is handed on in `critical`. */
    method TryRefundSwallowingNoncritical(usage: Usage) returns (committed: bool, critical: Option<RefundError>)
      modifies limiter
      ensures limiter.port == Refund(old(limiter.port), usage).0
      ensures var error := Refund(old(limiter.port), usage).1;
              && (committed <==> error == None)
              && critical == if error.Some? && Critical(error.value) then error else None
    {
      var error := limiter.RefundCapacity(usage);
      if error.Some? && Critical(error.value) {
        return false, error;
      }
      return error.None?, None;
    }

    method RefundWithoutMasking(usage: Usage, conservative: Option<Usage>) returns (critical: Option<RefundError>)
      modifies limiter
      ensures (limiter.port, critical) == WithoutMasking(old(limiter.port), usage, conservative)
    {
      var committed;
      committed, critical := TryRefundSwallowingNoncritical(usage);
      if committed || critical.Some? {
        return;
      }
      if conservative.Some? {
        committed, critical := TryRefundSwallowingNoncritical(conservative.value);
      }
    }

    method RefundActualOrConservativeClose(actual: Usage, reserved: Usage) returns (error: Option<RefundError>)
      modifies limiter
      ensures (limiter.port, error) == ActualOrClose(old(limiter.port), actual, reserved)
    {
      error := limiter.RefundCapacity(actual);
      if error.None? || Critical(error.value) {
        return;
      }
      var committed, critical := TryRefundSwallowingNoncritical(reserved);
      if critical.Some? {
        error := critical;
      }
    }

    method Exit(raised: bool) returns (ending: Ending)
      requires holds
      modifies limiter
      ensures (limiter.port, ending) == Exited(old(limiter.port), actualUsage, usageOnError, raised)
    {
      var reserved := limiter.port.reserved;
      if raised {
        var critical;
        if usageOnError.Some? {
          critical := RefundWithoutMasking(usageOnError.value, Some(reserved));
        } else {
          critical := RefundWithoutMasking(reserved, None);
        }
        return if critical.Some? then Raises(critical.value) else BodyException;
      }
      if actualUsage.Some? {
        var error := RefundActualOrConservativeClose(actualUsage.value, reserved);
        return if error.Some? then Raises(error.value) else Silent;
      }
      var error := limiter.RefundCapacity(reserved);
      return if error.Some? then Raises(error.value) else ForgotUsage;
    }
  }

  // ---------------------------------------------------------------- what the exit does, as functions

  function CriticalOnly(error: Option<RefundError>): Option<RefundError> {
    if error.Some? && Critical(error.value) then error else None
  }

  function WithoutMasking(p: Port, usage: Usage, conservative: Option<Usage>): (Port, Option<RefundError>) {
    var (p', error) := Refund(p, usage);
    if error.None? || Critical(error.value) || conservative.None? then (p', CriticalOnly(error))
    else
      var (p'', second) := Refund(p', conservative.value);
      (p'', CriticalOnly(second))
  }

  function ActualOrClose(p: Port, actual: Usage, reserved: Usage): (Port, Option<RefundError>) {
    var (p', error) := Refund(p, actual);
    if error.None? || Critical(error.value) then (p', error)
    else
      var (p'', second) := Refund(p', reserved);
      (p'', if CriticalOnly(second).Some? then second else error)
  }

  function Exited(p: Port, actual: Option<Usage>, onError: Option<Usage>, raised: bool): (Port, Ending) {
    if raised then
      var (p', critical) := if onError.Some? then WithoutMasking(p, onError.value, Some(p.reserved))
                            else WithoutMasking(p, p.reserved, None);
      (p', if critical.Some? then Raises(critical.value) else BodyException)
    else if actual.Some? then
      var (p', error) := ActualOrClose(p, actual.value, p.reserved);
      (p', if error.Some? then Raises(error.value) else Silent)
    else
      var (p', error) := Refund(p, p.reserved);
      (p', if error.Some? then Raises(error.value) else ForgotUsage)
  }

  // ---------------------------------------------------------------- what the scope guarantees

  /** The reservation is in flight and uncredited, and a refund of its own reserved usage is valid. */
  ghost predicate Fresh(p: Port) {
    p.inFlight && p.credits == [] && NonNegative(p.reserved)
  }

  /** The usage the scope means to settle for. */
  function Wanted(p: Port, actual: Option<Usage>, onError: Option<Usage>, raised: bool): Usage {
    var given := if raised then onError else actual;
    if given.Some? then given.value else p.reserved
  }

  /** A usage was given, so that the reserved usage is tried after it fails. */
  predicate HasFallback(actual: Option<Usage>, onError: Option<Usage>, raised: bool) {
    if raised then onError.Some? else actual.Some?
  }

  /** The limiter is open and the reservation has not expired. */
  predicate Timely(met: Circumstance) {
    !met.closed && !met.expired
  }

  predicate Lands(fault: Fault) {
    !fault.FailsBefore?
  }

  /** The refund calls an exit makes: one for the wanted usage and, after a failure that is not critical, one for
    the reserved usage if another was given. */
  function Attempts(p: Port, wanted: Usage, fallback: bool): Port {
    var (p', error) := Refund(p, wanted);
    if error.None? || Critical(error.value) || !fallback then p' else Refund(p', p.reserved).0
  }

  lemma ExitedByAttempts(p: Port, actual: Option<Usage>, onError: Option<Usage>, raised: bool)
    ensures Exited(p, actual, onError, raised).0 ==
            Attempts(p, Wanted(p, actual, onError, raised), HasFallback(actual, onError, raised))
  {
    hide Refund, Critical;
  }

  /** The backend always works: no call fails before its credit lands, and none lands unseen. */
  predicate Working(p: Port) {
    && (p.next.fault.Works? || p.next.fault.FailsAfter?)
    && (p.after.fault.Works? || p.after.fault.FailsAfter?)
  }

  /** A fallback can still land after a first attempt that did not: not without markers once the reservation was
    found expired, for that forgets it, even if the clock is then set back. */
  predicate StillOpen(p: Port) {
    p.next.closed || !p.next.expired || p.markers
  }

  /** Against a working backend the reservation is credited at most once: with the given usage exactly when that is
    valid and the first attempt timely; else with everything reserved, which gives nothing back, exactly when the
    fallback is timely and the first attempt did not find it expired. */
  lemma CreditedOnceIff(p: Port, actual: Option<Usage>, onError: Option<Usage>, raised: bool)
    requires Fresh(p) && !p.unlimited && Working(p)
    ensures var (p', _) := Exited(p, actual, onError, raised);
            var wanted := Wanted(p, actual, onError, raised);
            p'.credits ==
              if Timely(p.next) && Valid(p.reserved, wanted) then [wanted]
              else if HasFallback(actual, onError, raised) && Timely(p.after) && StillOpen(p) then [p.reserved]
              else []
  {
    assert Valid(p.reserved, p.reserved);
    ExitedByAttempts(p, actual, onError, raised);
    hide Valid, Exited;
  }

  /** Against a working backend an exit closes the reservation exactly when the limiter is open at the first attempt,
    unless that ends at invalid usage, or at the fallback. */
  lemma ClosedIff(p: Port, actual: Option<Usage>, onError: Option<Usage>, raised: bool)
    requires Fresh(p) && Working(p)
    ensures var (p', _) := Exited(p, actual, onError, raised);
            !p'.inFlight <==>
              || (&& !p.next.closed
                  && (p.unlimited || p.next.expired || Valid(p.reserved, Wanted(p, actual, onError, raised))))
              || (HasFallback(actual, onError, raised) && !p.after.closed)
  {
    assert Valid(p.reserved, p.reserved);
    ExitedByAttempts(p, actual, onError, raised);
    hide Valid, Exited;
  }

  /** The block outlives the reservation's lifetime: however well the backend works, it ends closed and uncredited. */
  lemma ExpiredIsClosedUncredited(p: Port, actual: Option<Usage>, onError: Option<Usage>, raised: bool)
    requires Fresh(p) && !p.unlimited && Working(p) && !p.next.closed && p.next.expired && p.after.expired
    ensures var (p', ending) := Exited(p, actual, onError, raised);
            p'.credits == [] && !p'.inFlight && ending == if raised then BodyException else Raises(Expired)
  {
    assert Valid(p.reserved, p.reserved);
    hide Valid;
  }

  /** The first attempt lands unseen and is then taken for failed, and the fallback lands too. */
  predicate UnseenThenFallback(p: Port, actual: Option<Usage>, onError: Option<Usage>, raised: bool) {
    && !p.unlimited && !p.markers
    && Timely(p.next) && p.next.fault == LandsUnseen(false)
    && HasFallback(actual, onError, raised) && Valid(p.reserved, Wanted(p, actual, onError, raised))
    && Timely(p.after) && Lands(p.after.fault)
  }

  predicate FirstUnseen(p: Port, wanted: Usage) {
    Timely(p.next) && p.next.fault.LandsUnseen? && Valid(p.reserved, wanted)
  }

  lemma SeenLandsOnce(p: Port, wanted: Usage, fallback: bool)
    requires Fresh(p) && !FirstUnseen(p, wanted)
    ensures |Attempts(p, wanted, fallback).credits| <= 1
  {
    assert Valid(p.reserved, p.reserved);
    hide Valid;
  }

  lemma UnseenLandsAgain(p: Port, wanted: Usage, fallback: bool)
    requires Fresh(p) && !p.unlimited && FirstUnseen(p, wanted)
    ensures var again :=
              !p.markers && p.next.fault == LandsUnseen(false) && fallback && Timely(p.after) && Lands(p.after.fault);
            Attempts(p, wanted, fallback).credits == if again then [wanted, p.reserved] else [wanted]
  {
    assert Valid(p.reserved, p.reserved);
    hide Valid;
  }

  /** Whatever fails, the reservation is credited at most once exactly unless a landing that went unseen is followed
    by a fallback that lands as well; then it is credited twice. */
  lemma CreditedTwiceIff(p: Port, actual: Option<Usage>, onError: Option<Usage>, raised: bool)
    requires Fresh(p)
    ensures var (p', _) := Exited(p, actual, onError, raised);
            && |p'.credits| <= 2
            && (|p'.credits| <= 1 <==> !UnseenThenFallback(p, actual, onError, raised))
            && (UnseenThenFallback(p, actual, onError, raised) ==>
                  p'.credits == [Wanted(p, actual, onError, raised), p.reserved])
  {
    hide Valid, Exited, Attempts;
    ExitedByAttempts(p, actual, onError, raised);
    var wanted, fallback := Wanted(p, actual, onError, raised), HasFallback(actual, onError, raised);
    if !FirstUnseen(p, wanted) {
      SeenLandsOnce(p, wanted, fallback);
    } else if !p.unlimited {
      UnseenLandsAgain(p, wanted, fallback);
    } else {
      UnlimitedIsUncredited(p, wanted, fallback);
    }
  }

  lemma UnlimitedIsUncredited(p: Port, wanted: Usage, fallback: bool)
    requires p.unlimited
    ensures Attempts(p, wanted, fallback).credits == p.credits
  {
  }

  /** The scope of one token, settled for nothing, against a backend that hides a landing: two credits. */
  lemma UnseenLandingCreditsTwice()
    ensures var p := Port(map[0 := 1.0], false, false, Circumstance(false, false, LandsUnseen(false)),
                          Circumstance(false, false, Works), true, []);
            Fresh(p) && Exited(p, Some(map[0 := 0.0]), None, false).0.credits == [map[0 := 0.0], map[0 := 1.0]]
  {
    var reserved: Usage := map[0 := 1.0];
    assert Valid(reserved, reserved) && Valid(reserved, map[0 := 0.0]);
    hide Valid;
  }

  /** A first attempt that lands unseen is the last word, or the fallback after it closes nothing. */
  predicate StaysUnseen(p: Port, fallback: bool) {
    || p.next.fault == LandsUnseen(true)
    || !fallback
    || p.after.closed
    || (!p.after.expired && !p.markers && (p.after.fault.LandsUnseen? || p.after.fault.FailsBefore?))
  }

  /** A fallback that lands unseen, after a first attempt that left the reservation in flight and uncredited. */
  predicate EndsUnseen(p: Port, wanted: Usage, fallback: bool) {
    && fallback && Timely(p.after) && p.after.fault.LandsUnseen?
    && (p.next.closed || (!p.next.expired && (!Valid(p.reserved, wanted) || p.next.fault == FailsBefore(false))))
  }

  lemma AfterFirstUnseen(p: Port, wanted: Usage, fallback: bool)
    requires Fresh(p) && !p.unlimited && FirstUnseen(p, wanted)
    ensures Attempts(p, wanted, fallback).credits != []
    ensures Attempts(p, wanted, fallback).inFlight <==> StaysUnseen(p, fallback)
  {
    assert Valid(p.reserved, p.reserved);
    hide Valid;
  }

  lemma AfterFirstSeen(p: Port, wanted: Usage, fallback: bool)
    requires Fresh(p) && !p.unlimited && !FirstUnseen(p, wanted)
    ensures Attempts(p, wanted, fallback).inFlight && Attempts(p, wanted, fallback).credits != [] <==>
            EndsUnseen(p, wanted, fallback)
  {
    assert Valid(p.reserved, p.reserved);
    hide Valid;
  }

  /** After an exit the reservation is still in flight although credited exactly when its last landing is unseen. */
  lemma LeftInFlightThoughCreditedIff(p: Port, actual: Option<Usage>, onError: Option<Usage>, raised: bool)
    requires Fresh(p) && !p.unlimited
    ensures var (p', _) := Exited(p, actual, onError, raised);
            var (wanted, fallback) := (Wanted(p, actual, onError, raised), HasFallback(actual, onError, raised));
            p'.inFlight && p'.credits != [] <==>
              if FirstUnseen(p, wanted) then StaysUnseen(p, fallback) else EndsUnseen(p, wanted, fallback)
  {
    hide Exited, Attempts, StaysUnseen, EndsUnseen;
    ExitedByAttempts(p, actual, onError, raised);
    var wanted, fallback := Wanted(p, actual, onError, raised), HasFallback(actual, onError, raised);
    if FirstUnseen(p, wanted) {
      AfterFirstUnseen(p, wanted, fallback);
    } else {
      AfterFirstSeen(p, wanted, fallback);
    }
  }

  /** A critical failure of the backend call that gets that far. */
  predicate MeetsCritical(fault: Fault) {
    !fault.Works? && fault.critical
  }

  /** The block's exception is replaced by a critical error of a refund and by nothing else: exactly when the first
    attempt, or the fallback after one that failed harmlessly, gets to the backend and meets one there. */
  lemma BodyExceptionIsKept(p: Port, actual: Option<Usage>, onError: Option<Usage>)
    requires Fresh(p) && !p.unlimited
    ensures var (_, ending) := Exited(p, actual, onError, true);
            var wanted := Wanted(p, actual, onError, true);
            && (ending == BodyException || (ending.Raises? && Critical(ending.error)))
            && (ending.Raises? <==>
                  if Timely(p.next) && Valid(p.reserved, wanted) then
                    || MeetsCritical(p.next.fault)
                    || (&& onError.Some? && Timely(p.after) && MeetsCritical(p.after.fault)
                        && (p.next.fault.FailsBefore? || (p.next.fault.LandsUnseen? && !p.markers)))
                  else onError.Some? && Timely(p.after) && StillOpen(p) && MeetsCritical(p.after.fault))
  {
    assert Valid(p.reserved, p.reserved);
    hide Valid;
  }

  /** Without an exception the exit is silent only if the given usage was settled, and warns only if none was given.
    An error of the first refund, invalid usage above all, reaches the caller unless a critical one replaces it. */
  lemma NormalExitReports(p: Port, actual: Option<Usage>, onError: Option<Usage>)
    requires Fresh(p) && !p.unlimited
    ensures var (p', ending) := Exited(p, actual, onError, false);
            var settled := Timely(p.next) && p.next.fault.Works?
                && Valid(p.reserved, Wanted(p, actual, onError, false));
            && (ending == Silent <==> actual.Some? && settled)
            && (ending == ForgotUsage <==> actual.None? && settled)
            && (ending == Silent ==> p'.credits == [actual.value] && !p'.inFlight)
            && (p.next.closed ==> ending.Raises? && (ending.error == LimiterClosed || Critical(ending.error)))
            && (!p.next.closed && p.next.expired ==>
                  ending.Raises? && (ending.error == Expired || Critical(ending.error)))
            && (Timely(p.next) && !Valid(p.reserved, Wanted(p, actual, onError, false)) ==>
                  ending.Raises? && (ending.error == InvalidUsage || Critical(ending.error)))
            && (Timely(p.next) && Valid(p.reserved, Wanted(p, actual, onError, false)) && !p.next.fault.Works? ==>
                  ending.Raises? && ending.error.Interrupted?)
  {
    assert Valid(p.reserved, p.reserved);
    hide Valid;
  }

  /** The scope of an unlimited reservation forgets it, credits nothing and raises nothing of its own, unless the
    limiter is closed; a normal exit then says so. */
  lemma UnlimitedExit(p: Port, actual: Option<Usage>, onError: Option<Usage>, raised: bool)
    requires p.unlimited && p.inFlight
    ensures var (p', ending) := Exited(p, actual, onError, raised);
            && p'.credits == p.credits
            && (!p'.inFlight <==> !p.next.closed || (HasFallback(actual, onError, raised) && !p.after.closed))
            && ending == if raised then BodyException
                         else if p.next.closed then Raises(LimiterClosed)
                         else if actual.Some? then Silent else ForgotUsage
  {
  }
}
