/** Redis learns that a runtime override has expired only when it next reads a bucket. It then integrates the
  refill across the expiry. This is proved to read what a bucket reads whose maximum was set back at the very
  instant of expiry, over whole runs.
*/
module OverrideExpiry {
  import opened Types
  import opened TokenBucket
  import opened MemoryBuckets

  /** The durable record of the last override: what was configured then, the override, and when it ends. */
  datatype History = History(configured: real, maximum: real, expiresAt: real)

  function Magnitude(a: real): real {
    if a < 0.0 then -a else a
  }

  /** Equal up to one part in 10^12 of the larger magnitude. */
  predicate IsClose(a: real, b: real) {
    Magnitude(a - b) <= 0.000000000001 * Max(Magnitude(a), Magnitude(b))
  }

  /** `accrue_with_expiry`: uncapped. */
  function AccrueWithExpiry(history: Option<History>, override: Option<real>, configured: real, per: real,
                            last: real, now: real, stored: real, rate: real): real
    requires per > 0.0
  {
    if history.None? || override.Some? || !IsClose(history.value.configured, configured)
       || now < history.value.expiresAt
    then stored + Accrued(rate, last, now)
    else
      var h := history.value;
      stored + Accrued(Rate(h.maximum, per), last, h.expiresAt) + Accrued(rate, Max(last, h.expiresAt), now)
  }

  /** `calculate_with_expiry`. */
  function CalculateWithExpiry(history: Option<History>, override: Option<real>, configured: real, per: real,
                               last: Option<real>, outdated: Option<real>, now: real): Result<Calculated, Rejection>
    requires per > 0.0
  {
    var maximum := if override.Some? then override.value else configured;
    var checked := CalculateCapacity(last, outdated, now, maximum, Rate(maximum, per));
    if checked.Err? || last.None? || outdated.None? then checked
    else Ok(Calculated(
           Min(maximum, AccrueWithExpiry(history, override, configured, per, last.value, now, outdated.value,
                                         Rate(maximum, per))),
           false))
  }

  /** In numbers: positive limits are close when the smaller falls short of the larger by at most its 10^12th part. */
  lemma CloseInNumbers(a: real, b: real)
    requires 0.0 < a && 0.0 < b
    ensures IsClose(a, b) <==>
            if a <= b then 1000000000000.0 * (b - a) <= b else 1000000000000.0 * (a - b) <= a
  {
  }

  /** No expiry lies between write and read: there was no override, or it is still live, or not yet due, or it was set
    under another configured limit. */
  predicate NothingExpired(history: Option<History>, override: Option<real>, configured: real, now: real) {
    || history.None? || override.Some? || now < history.value.expiresAt
    || (0.0 < history.value.configured && 0.0 < configured
        && 1000000000000.0 * Magnitude(configured - history.value.configured)
           > Max(configured, history.value.configured))
  }

  /** Then a read shows what was written, refilled at the rate of the maximum in force and capped by it; a bucket with
    no complete state is full. */
  lemma OrdinaryRead(history: Option<History>, override: Option<real>, configured: real, per: real,
                     last: Option<real>, outdated: Option<real>, now: real)
    requires per > 0.0 && now >= 0.0 && NothingExpired(history, override, configured, now)
    ensures var maximum := if override.Some? then override.value else configured;
            maximum > 0.0 ==>
              CalculateWithExpiry(history, override, configured, per, last, outdated, now) ==
                if last.None? || outdated.None? then Ok(Calculated(maximum, true))
                else
                  var idle := if now < last.value then 0.0 else now - last.value;
                  var refilled := outdated.value + idle * (maximum / per);
                  Ok(Calculated(if refilled < maximum then refilled else maximum, false))
  {
    if history.Some? && 0.0 < history.value.configured && 0.0 < configured {
      CloseInNumbers(history.value.configured, configured);
    }
  }

  /** A bucket object of the maximum in force reads the same. */
  method ReadOrdinarily(history: Option<History>, override: Option<real>, configured: real, per: real,
                        written: Option<Stored>, now: real) returns (read: Calculated)
    requires per > 0.0 && now >= 0.0 && NothingExpired(history, override, configured, now)
    requires if override.Some? then override.value > 0.0 else configured > 0.0
    ensures CalculateWithExpiry(history, override, configured, per,
                                if written.Some? then Some(written.value.last) else None,
                                if written.Some? then Some(written.value.capacity) else None, now) == Ok(read)
  {
    var bucket := new MemoryBucket(if override.Some? then override.value else configured, per);
    if written.Some? {
      bucket.SetCapacity(written.value.capacity, written.value.last, true);
    }
    var result := bucket.GetCapacity(now);
    read := result.value;
    OrdinaryRead(history, override, configured, per, if written.Some? then Some(written.value.last) else None,
                 if written.Some? then Some(written.value.capacity) else None, now);
  }

  /** A read is refused for a negative time, or when the maximum in force is not positive. */
  lemma RefusedRead(history: Option<History>, override: Option<real>, configured: real, per: real,
                    last: Option<real>, outdated: Option<real>, now: real)
    requires per > 0.0
    ensures CalculateWithExpiry(history, override, configured, per, last, outdated, now).Err? <==>
            now < 0.0 || (if override.Some? then override.value else configured) <= 0.0
  {
  }

  // ---------------------------------------------------------------- one override, seen lazily and eagerly

  /** An override `maximum` that ends at `expiresAt`; `configured` before and after it was set. */
  ghost predicate Proper(h: History, configured: real, per: real) {
    h.maximum > 0.0 && configured > 0.0 && per > 0.0 && h.expiresAt >= 0.0 && IsClose(h.configured, configured)
  }

  /** The override as Redis shows it at `now`: the key is gone once it has expired. */
  function Live(h: History, now: real): Option<real> {
    if now < h.expiresAt then Some(h.maximum) else None
  }

  function MaximumAt(h: History, configured: real, now: real): real {
    if now < h.expiresAt then h.maximum else configured
  }

  /** What a read at `now` of the stored pair computes. */
  function LazyLevel(h: History, configured: real, per: real, s: Stored, now: real): real
    requires per > 0.0
  {
    Min(MaximumAt(h, configured, now),
        AccrueWithExpiry(Some(h), Live(h, now), configured, per, s.last, now, s.capacity,
                         Rate(MaximumAt(h, configured, now), per)))
  }

  /** The lazy level is what `calculate_with_expiry` returns for every time that it accepts. */
  lemma LazyLevelIsCalculated(h: History, configured: real, per: real, s: Stored, now: real)
    requires Proper(h, configured, per) && now >= 0.0
    ensures CalculateWithExpiry(Some(h), Live(h, now), configured, per, Some(s.last), Some(s.capacity), now) ==
            Ok(Calculated(LazyLevel(h, configured, per, s, now), false))
  {
  }

  function Under(s: Stored, max: real, per: real): Bucket {
    Bucket(Some(s), max, per)
  }

  /** The eager reading of one stored pair: the maximum is set back at the instant of expiry, before or after
    the write, whichever came first, if the read comes later at all. */
  function EagerLevel(h: History, configured: real, per: real, s: Stored, now: real): real
    requires h.maximum > 0.0 && configured > 0.0 && per > 0.0
  {
    if now < h.expiresAt then Read(Under(s, h.maximum, per), now)
    else if s.last <= h.expiresAt then Read(Apply(Under(s, h.maximum, per), SetMax(configured, h.expiresAt)), now)
    else Read(Written(Apply(Bucket(None, h.maximum, per), SetMax(configured, h.expiresAt)), s.capacity, s.last), now)
  }

  /** For every order of last write, expiry and read, the lazy level is the eager one. */
  lemma LazyIsEager(h: History, configured: real, per: real, s: Stored, now: real)
    requires Proper(h, configured, per)
    ensures LazyLevel(h, configured, per, s, now) == EagerLevel(h, configured, per, s, now)
  {
  }

  /** The same with real bucket objects, in the order in which things happened. */
  method ReadEagerly(h: History, configured: real, per: real, s: Stored, now: real) returns (amount: real)
    requires h.maximum > 0.0 && configured > 0.0 && per > 0.0 && h.expiresAt >= 0.0 && IsClose(h.configured, configured)
    requires now >= 0.0
    ensures CalculateWithExpiry(Some(h), Live(h, now), configured, per, Some(s.last), Some(s.capacity), now) ==
            Ok(Calculated(amount, false))
  {
    var bucket := new MemoryBucket(h.maximum, per);
    if now < h.expiresAt || s.last <= h.expiresAt {
      bucket.SetCapacity(s.capacity, s.last, true);
    }
    if h.expiresAt <= now {
      var accepted := bucket.SetMaxCapacity(configured, h.expiresAt);
      if h.expiresAt < s.last {
        bucket.SetCapacity(s.capacity, s.last, true);
      }
    }
    var result := bucket.GetCapacity(now);
    amount := result.value.amount;
    LazyLevelIsCalculated(h, configured, per, s, now);
    LazyIsEager(h, configured, per, s, now);
  }

  // ---------------------------------------------------------------- whole runs

  /** The new level after an operation that found `level` under `max`; every such operation writes. */
  function Rewritten(level: real, max: real, per: real, op: Op): (s: Stored)
    requires max > 0.0 && per > 0.0 && Possible(op) && !op.SetMax?
    ensures s.last == op.at
  {
    Apply(Under(Stored(level, op.at), max, per), op).stored.value
  }

  function LazyRun(h: History, configured: real, per: real, s: Stored, ops: seq<Op>): Stored
    requires h.maximum > 0.0 && configured > 0.0 && per > 0.0 && AllPossible(ops)
    requires forall i :: 0 <= i < |ops| ==> !ops[i].SetMax?
    decreases |ops|
  {
    if ops == [] then s
    else
      var t := ops[0].at;
      LazyRun(h, configured, per,
              Rewritten(LazyLevel(h, configured, per, s, t), MaximumAt(h, configured, t), per, ops[0]), ops[1..])
  }

  /** The same operations on a bucket whose maximum is set back between those before the expiry and those after. */
  function EagerRun(h: History, configured: real, b: Bucket, ops: seq<Op>, now: real): (b': Bucket)
    requires Sound(b) && configured > 0.0 && AllPossible(ops)
    ensures Sound(b')
    decreases |ops|
  {
    if ops == [] then if now < h.expiresAt then b else Apply(b, SetMax(configured, h.expiresAt))
    else if ops[0].at < h.expiresAt then EagerRun(h, configured, Apply(b, ops[0]), ops[1..], now)
    else ApplyAll(Apply(b, SetMax(configured, h.expiresAt)), ops)
  }

  lemma RewritingForgetsHow(b: Bucket, op: Op)
    requires Sound(b) && Possible(op) && !op.SetMax?
    ensures Apply(b, op).stored == Some(Rewritten(Read(b, op.at), b.max, b.per, op))
  {
    NoTimePasses(Under(Stored(Read(b, op.at), op.at), b.max, b.per), op.at);
    hide Raw;
  }

  lemma {:induction false} AfterExpiryRunsAgree(h: History, configured: real, per: real, s: Stored, b: Bucket,
                                                ops: seq<Op>, now: real)
    requires Proper(h, configured, per) && AllPossible(ops) && InOrder(h.expiresAt, ops, now)
    requires forall i :: 0 <= i < |ops| ==> !ops[i].SetMax?
    requires Sound(b) && b.max == configured && b.per == per
    requires forall t :: h.expiresAt <= t ==> LazyLevel(h, configured, per, s, t) == Read(b, t)
    ensures LazyLevel(h, configured, per, LazyRun(h, configured, per, s, ops), now) == Read(ApplyAll(b, ops), now)
    decreases |ops|
  {
    if ops != [] {
      var t := ops[0].at;
      var s' := Rewritten(LazyLevel(h, configured, per, s, t), configured, per, ops[0]);
      RewritingForgetsHow(b, ops[0]);
      var b' := Apply(b, ops[0]);
      forall t' | h.expiresAt <= t' ensures LazyLevel(h, configured, per, s', t') == Read(b', t') {
        LazyIsEager(h, configured, per, s', t');
      }
      LaterStart(h.expiresAt, t, ops[1..], now);
      AfterExpiryRunsAgree(h, configured, per, s', b', ops[1..], now);
    }
  }

  lemma LaterStart(early: real, late: real, ops: seq<Op>, now: real)
    requires early <= late && InOrder(late, ops, now)
    ensures InOrder(early, ops, now)
  {
  }

  /** Over any run of operations in order, before and after the expiry, lazy reading and resetting at the
    instant of expiry are indistinguishable. */
  lemma {:induction false} LazyRunsAreEager(h: History, configured: real, per: real, s: Stored, ops: seq<Op>, now: real)
    requires Proper(h, configured, per) && AllPossible(ops) && InOrder(s.last, ops, now) && s.last < h.expiresAt
    requires forall i :: 0 <= i < |ops| ==> !ops[i].SetMax?
    ensures LazyLevel(h, configured, per, LazyRun(h, configured, per, s, ops), now) ==
            Read(EagerRun(h, configured, Under(s, h.maximum, per), ops, now), now)
    decreases |ops|
  {
    var b := Under(s, h.maximum, per);
    if ops == [] {
      LazyIsEager(h, configured, per, s, now);
    } else if ops[0].at < h.expiresAt {
      LazyIsEager(h, configured, per, s, ops[0].at);
      RewritingForgetsHow(b, ops[0]);
      var s' := Rewritten(LazyLevel(h, configured, per, s, ops[0].at), h.maximum, per, ops[0]);
      LazyRunsAreEager(h, configured, per, s', ops[1..], now);
    } else {
      var reset := Apply(b, SetMax(configured, h.expiresAt));
      forall t | h.expiresAt <= t ensures LazyLevel(h, configured, per, s, t) == Read(reset, t) {
        LazyIsEager(h, configured, per, s, t);
      }
      AfterExpiryRunsAgree(h, configured, per, s, reset, ops, now);
    }
  }

  // ---------------------------------------------------------------- writing the override

  /** A Redis key as the scripts see it. `PTTL` is the remaining milliseconds, or -1 without expiry. */
  datatype Key = Absent | Present(value: nat, pttl: int)

  function Pttl(k: Key): int {
    if k.Absent? then -2 else k.pttl
  }

  datatype Mode = Write | RefreshOverride

  datatype Reply = Refused | Done | Failed

  function MaxInt(a: int, b: int): int {
    if a >= b then a else b
  }

  /** At least the minimum, and no shorter than any deadline the script looked at. */
  function HistoryTtl(minimumSeconds: nat, history: Key, capacity: Key, lastChecked: Key): int {
    MaxInt(MaxInt(MaxInt(minimumSeconds * 1000, Pttl(history)), Pttl(capacity)), Pttl(lastChecked))
  }

  class OverrideKeys {
    var live: Key
    var history: Key
    var capacity: Key
    var lastChecked: Key

    /** `WRITE_OVERRIDE`. The history is written first, so that no override is ever live without one; when the
      second write fails, the history is put back. `matches`: the live override is the one to be refreshed. */
    method WriteOverride(mode: Mode, matches: bool, payload: nat, record: nat, minimumSeconds: nat,
                         overrideSeconds: nat,
                         saveFails: bool, writeFails: bool, restoreFails: bool) returns (reply: Reply)
      modifies `live, `history
      ensures reply == Refused <==> mode == RefreshOverride && (old(live).Absent? || !matches)
      ensures reply == Refused || saveFails ==> live == old(live) && history == old(history)
      ensures reply == Done <==> reply != Refused && !saveFails && !writeFails
      ensures reply == Done ==>
                && history == Present(record, HistoryTtl(minimumSeconds, old(history), capacity, lastChecked))
                && live == Present(if mode == Write then payload else old(live).value, overrideSeconds * 1000)
      ensures reply == Failed ==> live == old(live)
      // rolled back: restored with its deadline, unless it was about to expire within the millisecond
      ensures reply == Failed && !saveFails && !restoreFails ==>
                history == if old(history).Present? && (old(history).pttl > 0 || old(history).pttl == -1)
                           then old(history) else Absent
      // nothing rolled back: the new record stays, with its new deadline
      ensures reply == Failed && !saveFails && restoreFails ==>
                history == Present(record, HistoryTtl(minimumSeconds, old(history), capacity, lastChecked))
    {
      var previous := history;
      var ttl := Pttl(history);
      if mode == RefreshOverride {
        if live.Absent? || !matches {
          return Refused;
        }
      }
      var historyTtl := MaxInt(MaxInt(MaxInt(minimumSeconds * 1000, ttl), Pttl(capacity)), Pttl(lastChecked));
      if saveFails {
        return Failed;
      }
      history := Present(record, historyTtl);
      if !writeFails {
        live := Present(if mode == RefreshOverride then live.value else payload, overrideSeconds * 1000);
        return Done;
      }
      if restoreFails {
        return Failed;
      }
      if previous.Present? && ttl > 0 {
        history := Present(previous.value, ttl);
      } else if previous.Present? && ttl == -1 {
        history := Present(previous.value, -1);
      } else {
        history := Absent;
      }
      return Failed;
    }

    /** `RETAIN_EXPIRY`: extends the history to the longest of its own, the bucket's and the asked-for deadline. */
    method RetainExpiry(minimumSeconds: nat) returns (found: bool)
      modifies `history
      ensures found <==> old(history).Present? && old(history).pttl != -2
      ensures history == if found
                         then
                           Present(old(history).value, HistoryTtl(minimumSeconds, old(history), capacity, lastChecked))
                         else old(history)
    {
      var ttl := Pttl(history);
      if ttl == -2 {
        return false;
      }
      history := Present(history.value,
                         MaxInt(MaxInt(MaxInt(minimumSeconds * 1000, ttl), Pttl(capacity)), Pttl(lastChecked)));
      return true;
    }
  }

  /** The history outlives every finite deadline of the accounting it explains, and its own. */
  lemma HistoryOutlives(minimumSeconds: nat, history: Key, capacity: Key, lastChecked: Key, overrideSeconds: nat)
    requires overrideSeconds <= minimumSeconds
    ensures var ttl := HistoryTtl(minimumSeconds, history, capacity, lastChecked);
            && ttl >= overrideSeconds * 1000
            && (forall k :: k in {history, capacity, lastChecked} && k.Present? && k.pttl >= 0 ==> ttl >= k.pttl)
            && (ttl <= minimumSeconds * 1000
                || exists k :: k in {history, capacity, lastChecked} && k.Present? && ttl == k.pttl)
  {
    var ttl := HistoryTtl(minimumSeconds, history, capacity, lastChecked);
    if ttl > minimumSeconds * 1000 {
      var k :| k in {history, capacity, lastChecked} && Pttl(k) == ttl;
      assert k.Present? && ttl == k.pttl;
    }
  }
}
