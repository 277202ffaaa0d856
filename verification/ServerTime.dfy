/** Detecting forward jumps of the Redis server clock from consecutive TIME readings.

  A reading carries the local clocks from just before the command and from when its reply is
  processed. Replies may be processed in any order and after any delay.
*/
module ServerTime {
  import opened Types

  const MAX_FORWARD_JUMP := 10.0

  datatype Reading = Reading(server: real, monotonicBefore: real, wallBefore: real, monotonicAfter: real,
                             wallAfter: real)

  /** The reading others are compared with, and its local clocks from before the command. */
  datatype Anchor = Anchor(server: real, monotonic: real, wall: real)

  datatype Outcome = Baseline | Stale | Normal | Resumed | Jumped

  function AnchorOf(r: Reading): Anchor {
    Anchor(r.server, r.monotonicBefore, r.wallBefore)
  }

  function Judge(a: Anchor, r: Reading): Outcome {
    var serverElapsed := r.server - a.server;
    if r.server < a.server then Stale
    else if serverElapsed - (r.monotonicAfter - a.monotonic) <= MAX_FORWARD_JUMP then Normal
    else if serverElapsed - (r.wallAfter - a.wall) <= MAX_FORWARD_JUMP then Resumed
    else Jumped
  }

  /** The first reading only sets the baseline; a stale one never moves the anchor. */
  function Process(a: Option<Anchor>, r: Reading): (Option<Anchor>, Outcome) {
    if a.None? then (Some(AnchorOf(r)), Baseline)
    else
      var outcome := Judge(a.value, r);
      (if outcome.Stale? then a else Some(AnchorOf(r)), outcome)
  }

  // ---------------------------------------------------------------- the state object

  class ClientClockState {
    var lastServerTime: real
    var lastMonotonic: real
    var lastWall: real
    var wallSkewWarned: bool

    ghost function Contents(): Anchor
      reads this
    {
      Anchor(lastServerTime, lastMonotonic, lastWall)
    }

    constructor (serverTime: real, monotonic: real, wall: real)
      ensures Contents() == Anchor(serverTime, monotonic, wall) && !wallSkewWarned
    {
      lastServerTime, lastMonotonic, lastWall, wallSkewWarned := serverTime, monotonic, wall, false;
    }

    /** Warns once, and never refuses. */
    method MaybeWarnWallSkew(serverTime: real, wallNow: real) returns (warns: bool)
      modifies `wallSkewWarned
      ensures warns <==>
              !old(wallSkewWarned)
              && (serverTime - wallNow > 10.0 || wallNow - serverTime > 10.0)
      ensures wallSkewWarned == (old(wallSkewWarned) || warns)
    {
      if wallSkewWarned {
        return false;
      }
      var skew := serverTime - wallNow;
      if (if skew < 0.0 then -skew else skew) <= MAX_FORWARD_JUMP {
        return false;
      }
      wallSkewWarned := true;
      return true;
    }

    method CheckForwardJump(r: Reading) returns (outcome: Outcome)
      modifies this
      ensures (Some(Contents()), outcome) == Process(Some(old(Contents())), r)
      ensures outcome == Stale <==> r.server < old(lastServerTime)
      ensures outcome == Stale ==>
                && lastServerTime == old(lastServerTime) && lastMonotonic == old(lastMonotonic)
                && lastWall == old(lastWall)
      ensures outcome != Stale ==>
                lastServerTime == r.server && lastMonotonic == r.monotonicBefore && lastWall == r.wallBefore
      ensures var ahead := r.server - old(lastServerTime);
              var (monotonic, wall) := (r.monotonicAfter - old(lastMonotonic), r.wallAfter - old(lastWall));
              && (outcome == Normal <==> ahead >= 0.0 && ahead - monotonic <= 10.0)
              && (outcome == Resumed <==> ahead >= 0.0 && ahead - monotonic > 10.0 && ahead - wall <= 10.0)
              && (outcome == Jumped <==> ahead >= 0.0 && ahead - monotonic > 10.0 && ahead - wall > 10.0)
      ensures old(wallSkewWarned) ==> wallSkewWarned
    {
      var warns := MaybeWarnWallSkew(r.server, r.wallAfter);
      if r.server < lastServerTime {
        return Stale;
      }
      var serverElapsed := r.server - lastServerTime;
      var monotonicElapsed := r.monotonicAfter - lastMonotonic;
      var wallElapsed := r.wallAfter - lastWall;
      // the anchor advances before the outcome is decided, so that a jump is reported once
      lastServerTime := r.server;
      lastMonotonic := r.monotonicBefore;
      lastWall := r.wallBefore;
      if serverElapsed - monotonicElapsed <= MAX_FORWARD_JUMP {
        return Normal;
      }
      if serverElapsed - wallElapsed <= MAX_FORWARD_JUMP {
        return Resumed;
      }
      return Jumped;
    }
  }

  type Client = nat

  class ClockRegistry {
    var states: map<Client, ClientClockState>

    ghost predicate Valid()
      reads this
    {
      forall c, d :: c in states && d in states && c != d ==> states[c] != states[d]
    }

    ghost function AnchorFor(client: Client): Option<Anchor>
      reads this, states.Values
    {
      if client in states then Some(states[client].Contents()) else None
    }

    constructor ()
      ensures Valid() && states == map[]
    {
      states := map[];
    }

    /** One reading of one client; the anchors of the others stay where they are. */
    method Check(client: Client, r: Reading) returns (outcome: Outcome)
      requires Valid()
      modifies this, states.Values
      ensures Valid()
      ensures (AnchorFor(client), outcome) == Process(old(AnchorFor(client)), r)
      ensures outcome == Baseline <==> client !in old(states)
      ensures outcome == Baseline ==>
                AnchorFor(client) == Some(Anchor(r.server, r.monotonicBefore, r.wallBefore))
      ensures forall other :: other != client ==> AnchorFor(other) == old(AnchorFor(other))
    {
      if client !in states {
        var created := new ClientClockState(r.server, r.monotonicBefore, r.wallBefore);
        var warns := created.MaybeWarnWallSkew(r.server, r.wallAfter);
        states := states[client := created];
        return Baseline;
      }
      var state := states[client];
      outcome := state.CheckForwardJump(r);
    }
  }

  // ---------------------------------------------------------------- runs

  /** The anchor after processing the readings in this order, and how many of them were reported as jumps. */
  function Run(readings: seq<Reading>): (Option<Anchor>, nat)
    decreases |readings|
  {
    if readings == [] then (None, 0)
    else
      var n := |readings| - 1;
      var (anchor, jumps) := Run(readings[..n]);
      var (anchor', outcome) := Process(anchor, readings[n]);
      (anchor', jumps + if outcome.Jumped? then 1 else 0)
  }

  /** The anchor never goes back in server time, and never behind any reading processed so far. */
  lemma {:induction false} AnchorIsNewest(readings: seq<Reading>)
    ensures readings != [] ==> Run(readings).0.Some?
    ensures forall i :: 0 <= i < |readings| ==> Run(readings).0.value.server >= readings[i].server
    ensures readings != [] ==> exists i :: 0 <= i < |readings| && Run(readings).0.value == AnchorOf(readings[i])
    decreases |readings|
  {
    if readings != [] {
      var n := |readings| - 1;
      AnchorIsNewest(readings[..n]);
      var (anchor, outcome) := Process(Run(readings[..n]).0, readings[n]);
      assert Run(readings).0 == anchor;
      if n > 0 && outcome.Stale? {
        var i :| 0 <= i < n && Run(readings[..n]).0.value == AnchorOf(readings[..n][i]);
        assert anchor.value == AnchorOf(readings[i]);
      } else {
        assert anchor.value == AnchorOf(readings[n]);
      }
    }
  }

  // ---------------------------------------------------------------- true clocks

  /** A reading and the instant at which the server sampled it, on the scale of the monotonic clock; `offset` is
    how far the server is ahead of that scale, and `epoch` where the wall clock's scale begins on it. */
  datatype Sample = Sample(reading: Reading, instant: real)

  function Readings(samples: seq<Sample>): (r: seq<Reading>)
    ensures |r| == |samples|
    ensures forall i :: 0 <= i < |samples| ==> r[i] == samples[i].reading
  {
    seq(|samples|, i requires 0 <= i < |samples| => samples[i].reading)
  }

  ghost predicate Growing(offset: real -> real) {
    forall s, t :: s <= t ==> offset(s) <= offset(t)
  }

  ghost predicate Sampled(s: Sample, offset: real -> real) {
    s.reading.server == s.instant + offset(s.instant)
  }

  predicate TrueMonotonic(s: Sample) {
    s.reading.monotonicBefore <= s.instant <= s.reading.monotonicAfter
  }

  predicate TrueWall(s: Sample, epoch: real) {
    s.reading.wallBefore <= s.instant + epoch <= s.reading.wallAfter
  }

  /** All local clocks of one kind run true; which of the two is the same for the whole run. */
  predicate TrueClock(samples: seq<Sample>, epoch: real) {
    || (forall i :: 0 <= i < |samples| ==> TrueMonotonic(samples[i]))
    || (forall i :: 0 <= i < |samples| ==> TrueWall(samples[i], epoch))
  }

  ghost predicate AllSampled(samples: seq<Sample>, offset: real -> real) {
    forall i :: 0 <= i < |samples| ==> Sampled(samples[i], offset)
  }

  /** The sample that the anchor stands for: the first one whose reading it is. */
  ghost function Anchored(samples: seq<Sample>): (i: nat)
    requires samples != []
    ensures i < |samples|
    decreases |samples|
  {
    var n := |samples| - 1;
    if n == 0 then 0
    else if Process(Run(Readings(samples[..n])).0, samples[n].reading).1.Stale? then Anchored(samples[..n])
    else n
  }

  lemma ReadingsPrefix(samples: seq<Sample>, n: nat)
    requires n <= |samples|
    ensures Readings(samples)[..n] == Readings(samples[..n])
  {
  }

  lemma {:induction false} AnchoredIsAnchor(samples: seq<Sample>)
    requires samples != []
    ensures Run(Readings(samples)).0 == Some(AnchorOf(samples[Anchored(samples)].reading))
    decreases |samples|
  {
    var n := |samples| - 1;
    ReadingsPrefix(samples, n);
    if n > 0 {
      AnchoredIsAnchor(samples[..n]);
    }
  }

  /** With a growing offset the server clock is strictly increasing, so a later server time is a later instant. */
  lemma ServerOrderIsTrueOrder(p: Sample, r: Sample, offset: real -> real)
    requires Growing(offset) && Sampled(p, offset) && Sampled(r, offset) && r.reading.server >= p.reading.server
    ensures p.instant <= r.instant && offset(p.instant) <= offset(r.instant)
  {
    assert r.instant <= p.instant ==> offset(r.instant) <= offset(p.instant);
  }

  /** A reported jump means that the offset has grown by more than the threshold since the anchor. */
  lemma JumpIsGrowth(p: Sample, r: Sample, offset: real -> real, epoch: real)
    requires Sampled(p, offset) && Sampled(r, offset)
    requires (TrueMonotonic(p) && TrueMonotonic(r)) || (TrueWall(p, epoch) && TrueWall(r, epoch))
    requires Judge(AnchorOf(p.reading), r.reading).Jumped?
    ensures offset(r.instant) - offset(p.instant) > MAX_FORWARD_JUMP
  {
  }

  /** One more jump adds one more threshold to the growth it takes. */
  lemma OneMoreJump(earlier: real, growth: real, jumps: nat)
    requires earlier >= MAX_FORWARD_JUMP * jumps as real && growth > MAX_FORWARD_JUMP
    ensures earlier + growth > MAX_FORWARD_JUMP * (jumps + 1) as real
  {
    assert MAX_FORWARD_JUMP * (jumps + 1) as real == MAX_FORWARD_JUMP * jumps as real + MAX_FORWARD_JUMP;
  }

  /** False alarms are bounded: as long as one local clock runs true and the server's offset only grows, the
    reported jumps, ten seconds each, add up to less than the growth of the offset between two of the samples. */
  lemma {:induction false} JumpsAreGrowth(samples: seq<Sample>, offset: real -> real, epoch: real)
    requires samples != [] && Growing(offset) && AllSampled(samples, offset) && TrueClock(samples, epoch)
    ensures var (first, last) := (samples[0].instant, samples[Anchored(samples)].instant);
            var jumps := Run(Readings(samples)).1;
            && first <= last
            && offset(last) - offset(first) >= MAX_FORWARD_JUMP * jumps as real
            && (jumps > 0 ==> offset(last) - offset(first) > MAX_FORWARD_JUMP * jumps as real)
    decreases |samples|
  {
    hide Growing;
    var n := |samples| - 1;
    ReadingsPrefix(samples, n);
    if n == 0 {
      assert Readings(samples)[..0] == [];
    } else {
      var earlier := samples[..n];
      JumpsAreGrowth(earlier, offset, epoch);
      AnchoredIsAnchor(earlier);
      var p, r := earlier[Anchored(earlier)], samples[n];
      var outcome := Judge(AnchorOf(p.reading), r.reading);
      if !outcome.Stale? {
        ServerOrderIsTrueOrder(p, r, offset);
      }
      if outcome.Jumped? {
        JumpIsGrowth(p, r, offset, epoch);
        OneMoreJump(offset(p.instant) - offset(samples[0].instant), offset(r.instant) - offset(p.instant),
                    Run(Readings(earlier)).1);
      }
    }
  }

  /** Without growth nothing is ever reported. */
  lemma SteadyServerIsNeverReported(samples: seq<Sample>, offset: real -> real, steady: real, epoch: real)
    requires samples != [] && (forall t :: offset(t) == steady) && AllSampled(samples, offset)
             && TrueClock(samples, epoch)
    ensures Run(Readings(samples)).1 == 0
  {
    JumpsAreGrowth(samples, offset, epoch);
  }

  // ---------------------------------------------------------------- one report per jump

  /** How many of the jumps lie after `from` and not after `to`. */
  function JumpsBetween(jumps: seq<real>, from: real, to: real): nat {
    if jumps == [] then 0
    else (if from < jumps[0] <= to then 1 else 0) + JumpsBetween(jumps[1..], from, to)
  }

  lemma {:induction false} JumpsAddUp(jumps: seq<real>, a: real, b: real, c: real)
    requires a <= b <= c
    ensures JumpsBetween(jumps, a, c) == JumpsBetween(jumps, a, b) + JumpsBetween(jumps, b, c)
    ensures JumpsBetween(jumps, a, c) <= |jumps|
  {
    if jumps != [] {
      JumpsAddUp(jumps[1..], a, b, c);
    }
  }

  /** The offset changes only at the jumps. */
  ghost predicate ChangesOnlyAt(jumps: seq<real>, offset: real -> real) {
    forall s, t :: s <= t && JumpsBetween(jumps, s, t) == 0 ==> offset(s) == offset(t)
  }

  lemma GrowthNeedsAJump(jumps: seq<real>, offset: real -> real, s: real, t: real)
    requires ChangesOnlyAt(jumps, offset) && s <= t && offset(s) != offset(t)
    ensures JumpsBetween(jumps, s, t) >= 1
  {
  }

  /** Each jump is reported at most once, whatever the order of the replies. */
  lemma {:induction false} OneReportPerJump(samples: seq<Sample>, offset: real -> real, jumps: seq<real>, epoch: real)
    requires samples != [] && Growing(offset) && AllSampled(samples, offset) && TrueClock(samples, epoch)
    requires ChangesOnlyAt(jumps, offset)
    ensures var (first, last) := (samples[0].instant, samples[Anchored(samples)].instant);
            first <= last && Run(Readings(samples)).1 <= JumpsBetween(jumps, first, last) <= |jumps|
    decreases |samples|
  {
    hide ChangesOnlyAt, Growing, JumpsBetween;
    var n := |samples| - 1;
    ReadingsPrefix(samples, n);
    JumpsAddUp(jumps, samples[0].instant, samples[0].instant, samples[0].instant);
    if n == 0 {
      assert Readings(samples)[..0] == [];
    } else {
      var earlier := samples[..n];
      OneReportPerJump(earlier, offset, jumps, epoch);
      AnchoredIsAnchor(earlier);
      var p, r := earlier[Anchored(earlier)], samples[n];
      var outcome := Judge(AnchorOf(p.reading), r.reading);
      if !outcome.Stale? {
        ServerOrderIsTrueOrder(p, r, offset);
        JumpsAddUp(jumps, samples[0].instant, p.instant, r.instant);
      }
      if outcome.Jumped? {
        JumpIsGrowth(p, r, offset, epoch);
        GrowthNeedsAJump(jumps, offset, p.instant, r.instant);
      }
    }
  }

  // ---------------------------------------------------------------- detection

  /** The parts of the two round trips that the local clocks cannot see. */
  function Slack(p: Sample, r: Sample): real {
    (r.reading.monotonicAfter - r.instant) + (p.instant - p.reading.monotonicBefore)
  }

  function WallSlack(p: Sample, r: Sample, epoch: real): real {
    (r.reading.wallAfter - (r.instant + epoch)) + (p.instant + epoch - p.reading.wallBefore)
  }

  /** Exactly when a reading is reported, seen from the true clocks. */
  lemma ReportedIff(p: Sample, r: Sample, offset: real -> real, epoch: real)
    requires Sampled(p, offset) && Sampled(r, offset)
    ensures Judge(AnchorOf(p.reading), r.reading).Jumped? <==>
            && r.reading.server >= p.reading.server
            && offset(r.instant) - offset(p.instant) > MAX_FORWARD_JUMP + Slack(p, r)
            && offset(r.instant) - offset(p.instant) > MAX_FORWARD_JUMP + WallSlack(p, r, epoch)
  {
    var growth := offset(r.instant) - offset(p.instant);
    assert r.reading.server - p.reading.server == r.instant - p.instant + growth;
  }

  predicate RoundTripWithin(s: Sample, d: real, epoch: real) {
    && TrueMonotonic(s) && s.reading.monotonicAfter - s.reading.monotonicBefore <= d
    && TrueWall(s, epoch) && s.reading.wallAfter - s.reading.wallBefore <= d
  }

  /** The two local clocks need not share an origin: an ordinary pair of readings, far apart in value, runs true. */
  lemma OriginsMayDiffer()
    ensures RoundTripWithin(Sample(Reading(1700000000.0, 1000.0, 1700000000.0, 1000.5, 1700000000.5), 1000.25), 0.5,
                            1699999000.0)
  {
  }

  /** When both local clocks run true, a jump of more than the threshold and the two round trips is reported on
    the first reading processed that was sampled after it, whatever was processed before and in whatever order. */
  lemma FirstReadingAfterAJumpIsReported(before: seq<Sample>, r: Sample, offset: real -> real, d: real, epoch: real)
    requires before != [] && AllSampled(before, offset) && Sampled(r, offset) && RoundTripWithin(r, d, epoch)
    requires forall i :: 0 <= i < |before| ==>
               && RoundTripWithin(before[i], d, epoch) && before[i].instant <= r.instant
               && offset(r.instant) - offset(before[i].instant) > MAX_FORWARD_JUMP + 2.0 * d
    ensures Process(Run(Readings(before)).0, r.reading).1 == Jumped
  {
    AnchoredIsAnchor(before);
    var p := before[Anchored(before)];
    assert RoundTripWithin(p, d, epoch) && Sampled(p, offset);
    ReportedIff(p, r, offset, epoch);
  }
}
