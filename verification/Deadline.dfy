// The cooperative deadline of the stage, execute and monitor phase: guest
// command timeouts cut to the remaining budget, a capped wait, and checkpoints.
module Deadline {
  import opened Basics

  function Min(a: real, b: real): real { if a <= b then a else b }

  /** Truncation toward zero. */
  function Truncate(r: real): int {
    if r >= 0.0 then r.Floor else -((-r).Floor)
  }

  /** The timeout given to one guest command; without a deadline it is the configured one. */
  function EffectiveTimeout(configured: int, remaining: Option<real>): int {
    match remaining
    case None => configured
    case Some(r) =>
      var budget := Truncate(r);
      var cut := if configured < budget then configured else budget;
      if cut < 1 then 1 else cut
  }

  /** A command fits the budget exactly when a second is left, and never exceeds what was configured unless that is below a second. */
  lemma TimeoutFitsIff(configured: int, remaining: real)
    ensures var t := EffectiveTimeout(configured, Some(remaining));
      && (t as real <= remaining <==> remaining >= 1.0)
      && 1 <= t && (t <= configured || t == 1)
  {
    if remaining >= 0.0 {
      assert remaining.Floor as real <= remaining < (remaining.Floor + 1) as real;
    } else {
      assert (-remaining).Floor >= 0;
    }
  }

  /**
    Without a deadline a command gets what is configured; with one, the largest whole number of seconds that exceeds
    neither what is configured nor what is left, and one second where there is no such number above zero.
   */
  lemma TimeoutIs(configured: int, remaining: Option<real>)
    ensures var t := EffectiveTimeout(configured, remaining);
      if remaining.None? then t == configured
      else if configured >= 1 && remaining.value >= 1.0 then
        && t <= configured && t as real <= remaining.value
        && (t == configured || remaining.value < (t + 1) as real)
      else t == 1
  {
    if remaining.Some? {
      var r := remaining.value;
      if r >= 0.0 {
        assert r.Floor as real <= r < (r.Floor + 1) as real;
      } else {
        assert (-r).Floor >= 0;
      }
    }
  }

  /** How the phase ends, and when. */
  datatype End = Completed(at: real) | Aborted(at: real)

  /**
    The times one phase meets: the last passed checkpoint, the unaccounted time before each of the six clock
    readings, and how long the two commands take.
   */
  datatype Times = Times(start: real, gap: nat -> real, stage: real, execute: real)

  function Left(deadline: Option<real>, now: real): Option<real> {
    if deadline.None? then None else Some(deadline.value - now)
  }

  predicate Spent(deadline: Option<real>, now: real) { deadline.Some? && deadline.value - now <= 0.0 }

  /** A command started at `from` after a gap, and the checkpoint that follows it. */
  function AfterCommand(deadline: Option<real>, from: real, gapBefore: real, took: real, gapAfter: real): End {
    var now := from + gapBefore + took + gapAfter;
    if Spent(deadline, now) then Aborted(now) else Completed(now)
  }

  /** The clock reading after the wait: not at all for a non-positive length, cut to the budget otherwise. */
  function WaitEnd(deadline: Option<real>, begin: real, seconds: real, gapAfter: real): real {
    begin + (if seconds <= 0.0 then 0.0 else if deadline.None? then seconds else Min(seconds, deadline.value - begin)) + gapAfter
  }

  /** The wait is skipped for a non-positive length, refused when the budget is spent, and cut to the budget otherwise. */
  function AfterWait(deadline: Option<real>, from: real, seconds: real, gapBefore: real, gapAfter: real): End {
    var begin := from + gapBefore;
    if seconds > 0.0 && Spent(deadline, begin) then Aborted(begin)
    else
      var now := WaitEnd(deadline, begin, seconds, gapAfter);
      if Spent(deadline, now) then Aborted(now) else Completed(now)
  }

  function Phase(deadline: Option<real>, monitor: real, t: Times): End {
    var staged := AfterCommand(deadline, t.start, t.gap(0), t.stage, t.gap(1));
    if staged.Aborted? then staged
    else
      var executed := AfterCommand(deadline, staged.at, t.gap(2), t.execute, t.gap(3));
      if executed.Aborted? then executed else AfterWait(deadline, executed.at, monitor, t.gap(4), t.gap(5))
  }

  /** When both commands are over and the wait is about to begin. */
  function WaitBegin(t: Times): real {
    t.start + t.gap(0) + t.stage + t.gap(1) + t.gap(2) + t.execute + t.gap(3) + t.gap(4)
  }

  /** Neither checkpoint after a command finds the deadline spent, nor does the wait when it begins. */
  predicate ReachesWait(deadline: real, t: Times) {
    && t.start + t.gap(0) + t.stage + t.gap(1) < deadline
    && t.start + t.gap(0) + t.stage + t.gap(1) + t.gap(2) + t.execute + t.gap(3) < deadline
    && WaitBegin(t) < deadline
  }

  /** A phase that reaches the wait unspent waits the full monitor length if that fits the budget, and else to the deadline. */
  lemma WaitLasts(deadline: real, monitor: real, t: Times)
    requires ReachesWait(deadline, t) && 0.0 <= monitor
    ensures Phase(Some(deadline), monitor, t).at ==
      (if WaitBegin(t) + monitor <= deadline then WaitBegin(t) + monitor else deadline) + t.gap(5)
  {
  }

  /** The guest keeps its timeouts: each command returns within the timeout computed when it started. */
  ghost predicate KeepsTimeouts(deadline: Option<real>, configured: int, t: Times) {
    && 0.0 <= t.stage <= EffectiveTimeout(configured, Left(deadline, t.start + t.gap(0))) as real
    && var staged := AfterCommand(deadline, t.start, t.gap(0), t.stage, t.gap(1));
      0.0 <= t.execute <= EffectiveTimeout(configured, Left(deadline, staged.at + t.gap(2))) as real
  }

  lemma CommandBound(deadline: real, configured: int, from: real, gapBefore: real, took: real, gapAfter: real, delta: real)
    requires from < deadline && 0.0 <= gapBefore <= delta && 0.0 <= gapAfter <= delta
    requires 0.0 <= took <= EffectiveTimeout(configured, Some(deadline - (from + gapBefore))) as real
    ensures var e := AfterCommand(Some(deadline), from, gapBefore, took, gapAfter);
      if e.Completed? then e.at < deadline else deadline <= e.at < deadline + 1.0 + 2.0 * delta
  {
    TimeoutFitsIff(configured, deadline - (from + gapBefore));
    if deadline - (from + gapBefore) < 1.0 {
      assert EffectiveTimeout(configured, Some(deadline - (from + gapBefore))) == 1 by {
        var r := deadline - (from + gapBefore);
        if r >= 0.0 { assert r.Floor == 0; } else { assert (-r).Floor >= 0; }
      }
    }
  }

  /**
    With a deadline, the phase completes before it or aborts less than a second after it, plus twice the longest
    gap between a clock reading and what follows; with no gaps, less than a second.
   */
  lemma PhaseBound(deadline: real, configured: int, monitor: real, t: Times, delta: real)
    requires t.start < deadline && forall k :: 0 <= k < 6 ==> 0.0 <= t.gap(k) <= delta
    requires KeepsTimeouts(Some(deadline), configured, t)
    ensures var e := Phase(Some(deadline), monitor, t);
      if e.Completed? then e.at < deadline else deadline <= e.at < deadline + 1.0 + 2.0 * delta
  {
    CommandBound(deadline, configured, t.start, t.gap(0), t.stage, t.gap(1), delta);
    var staged := AfterCommand(Some(deadline), t.start, t.gap(0), t.stage, t.gap(1));
    if staged.Completed? {
      CommandBound(deadline, configured, staged.at, t.gap(2), t.execute, t.gap(3), delta);
    }
  }

  /** The bound is tight: an abort can come as close to a full second late as one likes. */
  lemma BoundIsTight(deadline: real, configured: int, monitor: real, slack: real) returns (t: Times)
    requires 0.0 < slack <= 1.0
    ensures t.start < deadline && (forall k :: 0 <= k < 6 ==> t.gap(k) == 0.0)
    ensures KeepsTimeouts(Some(deadline), configured, t)
    ensures Phase(Some(deadline), monitor, t) == Aborted(deadline + 1.0 - slack)
  {
    t := Times(deadline - slack, _ => 0.0, 1.0, 0.0);
    TimeoutFitsIff(configured, slack);
    TimeoutFitsIff(configured, slack - 1.0);
  }

  /** Without a deadline nothing aborts, and the phase lasts exactly as long as its parts. */
  lemma UnboundedNeverAborts(monitor: real, t: Times)
    ensures Phase(None, monitor, t) == Completed(
      t.start + t.gap(0) + t.stage + t.gap(1) + t.gap(2) + t.execute + t.gap(3)
      + t.gap(4) + (if monitor > 0.0 then monitor else 0.0) + t.gap(5))
  {
  }
}
