/** One escalation record under the periodic timeout check: how far each check
    moves it, and by when an unacknowledged record must have timed out. */
module EscalationRecord {
  import opened Options
  import opened EscalationPolicy

  datatype Status = Pending | Escalated | Acknowledged | Resolved | TimedOut

  /** Entries of a record's history. */
  datatype Trail =
    | Started(level: Level)
    | LevelUp(fromLevel: int, toLevel: Level)
    | MaxLevelReached(level: Level)
    | Acked(who: string, level: Level)
    | Closed

  datatype Record = Record(alert: string, policy: string, level: Level, status: Status, nextAt: Option<real>,
                           trail: seq<Trail>)

  predicate Active(r: Record) { r.status.Pending? || r.status.Escalated? }

  predicate Due(r: Record, now: real) { Active(r) && r.nextAt.Some? && now >= r.nextAt.value }

  /** A record opens at the level listed first, which need not be the lowest. */
  function Opened(alert: string, policy: Policy, now: real): Record
    requires policy.levels != []
  {
    var first := policy.levels[0];
    Record(alert, policy.id, first.level, Pending, Some(now + Seconds(first.timeoutMinutes)), [Started(first.level)])
  }

  /** Whether a due record has a level to move to. */
  predicate CanRaise(levels: seq<LevelConfig>, r: Record) {
    var next := NextLevel(levels, r.level);
    next.Some? && LevelConfigFor(levels, next.value).Some?
  }

  function Raise(levels: seq<LevelConfig>, r: Record, now: real): Record {
    match NextLevel(levels, r.level)
    case None => r.(status := TimedOut, nextAt := None, trail := r.trail + [MaxLevelReached(r.level)])
    case Some(next) =>
      match LevelConfigFor(levels, next)
      case None => r
      case Some(lc) =>
        r.(level := next, status := Escalated, nextAt := Some(now + Seconds(lc.timeoutMinutes)),
           trail := r.trail + [LevelUp(next - 1, next)])
  }

  /** What one timeout check does to one record. */
  function Poll(levels: seq<LevelConfig>, r: Record, now: real): Record {
    if Due(r, now) then Raise(levels, r, now) else r
  }

  function Polls(levels: seq<LevelConfig>, r: Record, times: seq<real>): Record {
    if times == [] then r else Poll(levels, Polls(levels, r, times[..|times| - 1]), times[|times| - 1])
  }

  /** How many of the checks found the record due. */
  function DueCount(levels: seq<LevelConfig>, r: Record, times: seq<real>): nat {
    if times == [] then 0
    else
      var init := times[..|times| - 1];
      DueCount(levels, r, init) + (if Due(Polls(levels, r, init), times[|times| - 1]) then 1 else 0)
  }

  /** `r` stands `k` steps up the chain of levels at or above `from`. */
  ghost predicate AtRank(levels: seq<LevelConfig>, from: Level, r: Record, k: nat) {
    var n := CountFrom(levels, from);
    && k <= n && r.level >= from && Count(levels, r.level) == 1
    && (k < n ==> && r.status == (if k == 0 then Pending else Escalated)
                  && r.nextAt.Some?
                  && CountFrom(levels, r.level) == n - k)
    && (k == n ==> r.status == TimedOut && r.nextAt == None)
  }

  lemma RankStep(levels: seq<LevelConfig>, from: Level, r: Record, k: nat, now: real)
    requires DistinctFrom(levels, from) && AtRank(levels, from, r, k) && Due(r, now)
    ensures k < CountFrom(levels, from) && AtRank(levels, from, Poll(levels, r, now), k + 1)
    ensures Poll(levels, r, now).status == TimedOut || IsNext(levels, r.level, Poll(levels, r, now).level)
  {
    NextLevelFinds(levels, r.level);
    match NextLevel(levels, r.level)
    case None =>
      ChainEnd(levels, r.level);
    case Some(next) =>
      ChainStep(levels, r.level, next);
      SumAtSingle(levels, next);
      HasCountFrom(levels, next);
  }

  lemma {:induction false} HasCountFrom(levels: seq<LevelConfig>, level: int)
    requires Count(levels, level) > 0
    ensures CountFrom(levels, level) > 0
  {
    if levels[0].level != level {
      HasCountFrom(levels[1..], level);
    }
  }

  lemma OpensAtRankZero(alert: string, policy: Policy, start: real)
    requires policy.levels != [] && DistinctFrom(policy.levels, policy.levels[0].level)
    ensures AtRank(policy.levels, policy.levels[0].level, Opened(alert, policy, start), 0)
  {
    HasCountFrom(policy.levels, policy.levels[0].level);
  }

  /** The rank of an unacknowledged record is the number of due checks so far,
      so it is timed out after exactly as many due checks as the policy has
      levels at or above the opening one, and never needs another. */
  lemma {:induction false} RankIsDueCount(alert: string, policy: Policy, start: real, times: seq<real>)
    requires policy.levels != [] && DistinctFrom(policy.levels, policy.levels[0].level)
    ensures var r := Opened(alert, policy, start);
            AtRank(policy.levels, policy.levels[0].level, Polls(policy.levels, r, times),
                   DueCount(policy.levels, r, times))
  {
    var r := Opened(alert, policy, start);
    if times == [] {
      OpensAtRankZero(alert, policy, start);
    } else {
      var init, now := times[..|times| - 1], times[|times| - 1];
      RankIsDueCount(alert, policy, start, init);
      if Due(Polls(policy.levels, r, init), now) {
        RankStep(policy.levels, policy.levels[0].level, Polls(policy.levels, r, init),
                 DueCount(policy.levels, r, init), now);
      }
    }
  }

  // ----- bounded liveness -----

  /** Checks from `start` on, each at most `period` after the one before. */
  ghost predicate Periodic(times: seq<real>, start: real, period: real) {
    && (times != [] ==> start <= times[0] <= start + period)
    && forall i :: 0 < i < |times| ==> times[i - 1] <= times[i] <= times[i - 1] + period
  }

  function Last(times: seq<real>, start: real): real {
    if times == [] then start else times[|times| - 1]
  }

  function Timeout(levels: seq<LevelConfig>, level: Level): real {
    var lc := LevelConfigFor(levels, level);
    if lc.Some? then Seconds(lc.value.timeoutMinutes) else 0.0
  }

  function Periods(n: nat, period: real): real { n as real * period }

  /** The latest deadline of a record at rank `k`: the timeouts of the levels
      passed and of the current one, and one period for each due check. */
  function Deadline(levels: seq<LevelConfig>, from: Level, r: Record, k: nat, start: real, period: real): real {
    start + SumFrom(levels, from) - SumFrom(levels, r.level) + Timeout(levels, r.level) + Periods(k, period)
  }

  ghost predicate OnTime(levels: seq<LevelConfig>, from: Level, r: Record, k: nat, start: real, period: real,
                         last: real) {
    Active(r) && r.nextAt.Some? ==> last <= r.nextAt.value <= Deadline(levels, from, r, k, start, period)
  }

  lemma {:induction false} MorePeriods(k: nat, n: nat, period: real)
    requires k <= n && period >= 0.0
    ensures Periods(k, period) <= Periods(n, period)
    ensures Periods(k + 1, period) == Periods(k, period) + period
  {
    assert (n - k) as real * period >= 0.0;
  }

  lemma TimeoutNonnegative(levels: seq<LevelConfig>, from: Level, level: Level)
    requires NonnegativeFrom(levels, from) && level >= from
    ensures Timeout(levels, level) >= 0.0
  {
    SumAtSingle(levels, level);
  }

  lemma OnTimeStep(levels: seq<LevelConfig>, from: Level, r: Record, k: nat, start: real, period: real,
                   last: real, now: real)
    requires DistinctFrom(levels, from) && NonnegativeFrom(levels, from) && AtRank(levels, from, r, k)
    requires OnTime(levels, from, r, k, start, period, last) && last <= now <= last + period && period >= 0.0
    ensures OnTime(levels, from, Poll(levels, r, now), if Due(r, now) then k + 1 else k, start, period, now)
    ensures Due(r, now) ==> now <= Deadline(levels, from, r, k, start, period) + period
  {
    hide Periods;
    if Due(r, now) {
      NextLevelFinds(levels, r.level);
      var next := NextLevel(levels, r.level);
      if next.Some? {
        ChainStep(levels, r.level, next.value);
        SumAtSingle(levels, next.value);
        TimeoutNonnegative(levels, from, next.value);
        MorePeriods(k, k, period);
      }
    }
  }

  /** At the last rank the deadline is the whole sum of timeouts. */
  lemma DeadlineBound(levels: seq<LevelConfig>, from: Level, r: Record, k: nat, start: real, period: real)
    requires DistinctFrom(levels, from) && NonnegativeFrom(levels, from) && period >= 0.0
    requires AtRank(levels, from, r, k) && k < CountFrom(levels, from)
    ensures Deadline(levels, from, r, k, start, period)
            <= start + SumFrom(levels, from) + Periods(CountFrom(levels, from) - 1, period)
  {
    hide Periods;
    NextLevelFinds(levels, r.level);
    match NextLevel(levels, r.level) {
      case None =>
        ChainEnd(levels, r.level);
      case Some(next) =>
        ChainStep(levels, r.level, next);
        SumNonnegative(levels, next);
    }
    MorePeriods(k, CountFrom(levels, from) - 1, period);
  }

  lemma {:induction false} StaysOnTime(alert: string, policy: Policy, start: real, period: real, times: seq<real>)
    requires policy.levels != [] && DistinctFrom(policy.levels, policy.levels[0].level)
    requires NonnegativeFrom(policy.levels, policy.levels[0].level) && Periodic(times, start, period) && period >= 0.0
    ensures var r := Opened(alert, policy, start);
            OnTime(policy.levels, policy.levels[0].level, Polls(policy.levels, r, times),
                   DueCount(policy.levels, r, times), start, period, Last(times, start))
  {
    var from := policy.levels[0].level;
    var r := Opened(alert, policy, start);
    if times == [] {
      SumAtSingle(policy.levels, from);
      TimeoutNonnegative(policy.levels, from, from);
    } else {
      var init, now := times[..|times| - 1], times[|times| - 1];
      StaysOnTime(alert, policy, start, period, init);
      RankIsDueCount(alert, policy, start, init);
      OnTimeStep(policy.levels, from, Polls(policy.levels, r, init), DueCount(policy.levels, r, init),
                 start, period, Last(init, start), now);
    }
  }

  /** If a record is timed out after some checks, one of them did it, and no
      later than the sum of all timeouts and one period per level. */
  lemma {:induction false} TimedOutWhen(alert: string, policy: Policy, start: real, period: real, times: seq<real>)
      returns (i: nat)
    requires policy.levels != [] && DistinctFrom(policy.levels, policy.levels[0].level)
    requires NonnegativeFrom(policy.levels, policy.levels[0].level) && Periodic(times, start, period) && period >= 0.0
    requires Polls(policy.levels, Opened(alert, policy, start), times).status == TimedOut
    ensures i < |times| && Polls(policy.levels, Opened(alert, policy, start), times[..i + 1]).status == TimedOut
    ensures var levels, from := policy.levels, policy.levels[0].level;
            times[i] <= start + SumFrom(levels, from) + Periods(CountFrom(levels, from), period)
  {
    hide Periods;
    var levels, from := policy.levels, policy.levels[0].level;
    var r := Opened(alert, policy, start);
    var init, now := times[..|times| - 1], times[|times| - 1];
    if Polls(levels, r, init).status == TimedOut {
      i := TimedOutWhen(alert, policy, start, period, init);
      assert times[..i + 1] == init[..i + 1];
    } else {
      i := |times| - 1;
      assert times[..i + 1] == times;
      var k := DueCount(levels, r, init);
      RankIsDueCount(alert, policy, start, init);
      StaysOnTime(alert, policy, start, period, init);
      OnTimeStep(levels, from, Polls(levels, r, init), k, start, period, Last(init, start), now);
      DeadlineBound(levels, from, Polls(levels, r, init), k, start, period);
      MorePeriods(CountFrom(levels, from) - 1, CountFrom(levels, from), period);
    }
  }

  /** Bounded liveness. A record nobody acknowledges, checked at least every
      `period` seconds, has timed out by the time of its opening plus the
      timeouts of its n levels plus n periods, provided the checks go on past
      all but the last of those periods. */
  lemma {:induction false} TimesOutInTime(alert: string, policy: Policy, start: real, period: real, times: seq<real>)
      returns (i: nat)
    requires policy.levels != [] && DistinctFrom(policy.levels, policy.levels[0].level)
    requires NonnegativeFrom(policy.levels, policy.levels[0].level) && Periodic(times, start, period) && period >= 0.0
    requires var levels, from := policy.levels, policy.levels[0].level;
             Last(times, start) > start + SumFrom(levels, from) + Periods(CountFrom(levels, from) - 1, period)
    ensures i < |times| && Polls(policy.levels, Opened(alert, policy, start), times[..i + 1]).status == TimedOut
    ensures var levels, from := policy.levels, policy.levels[0].level;
            times[i] <= start + SumFrom(levels, from) + Periods(CountFrom(levels, from), period)
  {
    hide Periods, Opened, Polls, DueCount;
    var levels, from := policy.levels, policy.levels[0].level;
    var r := Opened(alert, policy, start);
    var k := DueCount(levels, r, times);
    RankIsDueCount(alert, policy, start, times);
    StaysOnTime(alert, policy, start, period, times);
    if k < CountFrom(levels, from) {
      DeadlineBound(levels, from, Polls(levels, r, times), k, start, period);
    }
    i := TimedOutWhen(alert, policy, start, period, times);
  }

  // ----- and never early -----

  /** The deadline leaves every level passed its full timeout. */
  ghost predicate NotEarly(levels: seq<LevelConfig>, from: Level, r: Record, start: real) {
    if r.status == TimedOut then r.nextAt == None
    else r.nextAt.Some? && Count(levels, r.level) == 1
         && r.nextAt.value >= start + SumFrom(levels, from) - SumFrom(levels, r.level) + Timeout(levels, r.level)
  }

  lemma NotEarlyStep(levels: seq<LevelConfig>, from: Level, r: Record, start: real, now: real)
    requires DistinctFrom(levels, from) && r.level >= from && Active(r) && NotEarly(levels, from, r, start)
    requires Due(r, now)
    ensures NotEarly(levels, from, Poll(levels, r, now), start)
    ensures Poll(levels, r, now).level >= from
    ensures Poll(levels, r, now).status == TimedOut ==> now >= start + SumFrom(levels, from)
    ensures Poll(levels, r, now).status == TimedOut || Active(Poll(levels, r, now))
  {
    NextLevelFinds(levels, r.level);
    match NextLevel(levels, r.level)
    case None =>
      ChainEnd(levels, r.level);
      SumAtSingle(levels, r.level);
    case Some(next) =>
      ChainStep(levels, r.level, next);
      SumAtSingle(levels, r.level);
      SumAtSingle(levels, next);
  }

  lemma {:induction false} StaysNotEarly(alert: string, policy: Policy, start: real, times: seq<real>)
    requires policy.levels != [] && DistinctFrom(policy.levels, policy.levels[0].level)
    ensures var r := Polls(policy.levels, Opened(alert, policy, start), times);
            && NotEarly(policy.levels, policy.levels[0].level, r, start) && r.level >= policy.levels[0].level
            && (r.status == TimedOut || Active(r))
            && (r.status == TimedOut ==>
                  exists i :: 0 <= i < |times| && times[i] >= start + SumFrom(policy.levels, policy.levels[0].level))
  {
    var levels, from := policy.levels, policy.levels[0].level;
    var r := Opened(alert, policy, start);
    if times == [] {
      OpensAtRankZero(alert, policy, start);
    } else {
      var init, now := times[..|times| - 1], times[|times| - 1];
      var before := Polls(levels, r, init);
      StaysNotEarly(alert, policy, start, init);
      if Due(before, now) {
        NotEarlyStep(levels, from, before, start, now);
        assert times[|times| - 1] == now;
      } else if before.status == TimedOut {
        var i :| 0 <= i < |init| && init[i] >= start + SumFrom(levels, from);
        assert times[i] == init[i];
      }
    }
  }

  /** An escalation never runs ahead: a record is timed out only by a check that
      comes after all the timeouts of its chain, however often it is checked. */
  lemma {:induction false} TimesOutNoEarlier(alert: string, policy: Policy, start: real, times: seq<real>)
    requires policy.levels != [] && DistinctFrom(policy.levels, policy.levels[0].level)
    requires forall i :: 0 <= i < |times| ==> times[i] < start + SumFrom(policy.levels, policy.levels[0].level)
    ensures Polls(policy.levels, Opened(alert, policy, start), times).status != TimedOut
  {
    StaysNotEarly(alert, policy, start, times);
  }

  // ----- duplicate levels: exactly when a record can time out at all -----

  /** Some level at or above the record's own is configured twice. */
  ghost predicate Stuck(levels: seq<LevelConfig>, r: Record) {
    Active(r) && Count(levels, r.level) > 0 && !DistinctFrom(levels, r.level)
  }

  lemma StuckStep(levels: seq<LevelConfig>, r: Record, now: real)
    requires Stuck(levels, r)
    ensures Stuck(levels, Poll(levels, r, now))
  {
    NextLevelFinds(levels, r.level);
    var dup :| dup >= r.level && Count(levels, dup) > 1;
    var next := NextLevel(levels, r.level);
    if next.Some? {
      SumAtSingle(levels, next.value);
      assert dup >= next.value;
    }
  }

  lemma {:induction false} StuckForever(levels: seq<LevelConfig>, r: Record, times: seq<real>)
    requires Stuck(levels, r)
    ensures Stuck(levels, Polls(levels, r, times))
  {
    if times == [] {
    } else {
      StuckForever(levels, r, times[..|times| - 1]);
      StuckStep(levels, Polls(levels, r, times[..|times| - 1]), times[|times| - 1]);
    }
  }

  /** Checks that always come exactly at the deadline drive a record to its end. */
  lemma {:induction false} Drive(alert: string, policy: Policy, start: real, times: seq<real>) returns (more: seq<real>)
    requires policy.levels != [] && DistinctFrom(policy.levels, policy.levels[0].level)
    ensures Polls(policy.levels, Opened(alert, policy, start), more).status == TimedOut
    decreases CountFrom(policy.levels, policy.levels[0].level)
              - DueCount(policy.levels, Opened(alert, policy, start), times)
  {
    var r := Opened(alert, policy, start);
    RankIsDueCount(alert, policy, start, times);
    var now := Polls(policy.levels, r, times);
    if now.status == TimedOut {
      more := times;
    } else {
      var longer := times + [now.nextAt.value];
      assert longer[..|longer| - 1] == times;
      RankIsDueCount(alert, policy, start, longer);
      more := Drive(alert, policy, start, longer);
    }
  }

  /** A record can time out if and only if no level at or above its opening
      level is configured twice. */
  lemma {:induction false} CanTimeOutIffDistinct(alert: string, policy: Policy, start: real)
    requires policy.levels != []
    ensures DistinctFrom(policy.levels, policy.levels[0].level) <==>
            exists times :: Polls(policy.levels, Opened(alert, policy, start), times).status == TimedOut
  {
    var r := Opened(alert, policy, start);
    if DistinctFrom(policy.levels, policy.levels[0].level) {
      var times := Drive(alert, policy, start, []);
      assert Polls(policy.levels, r, times).status == TimedOut;
    } else {
      forall times
        ensures Polls(policy.levels, r, times).status != TimedOut
      {
        StuckForever(policy.levels, r, times);
      }
    }
  }

  /** The `from` level written to the history is the level left behind exactly
      when the policy configures that level once and the one above it: neither
      a skipped level nor a repeated one is recorded truthfully. */
  lemma LevelUpRecordsSource(levels: seq<LevelConfig>, r: Record, now: real)
    requires Count(levels, r.level) > 0 && Due(r, now) && Poll(levels, r, now).status == Escalated
    ensures var after := Poll(levels, r, now);
            && |after.trail| == |r.trail| + 1
            && (after.trail[|r.trail|] == LevelUp(r.level, after.level)
                <==> Count(levels, r.level) == 1 && Count(levels, r.level + 1) > 0)
  {
    NextLevelFinds(levels, r.level);
    SumAtSingle(levels, NextLevel(levels, r.level).value);
  }
}
