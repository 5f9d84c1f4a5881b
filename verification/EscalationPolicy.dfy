/** Escalation policies: a configured list of levels, and the step from one
    level to the next along the sorted chain. */
module EscalationPolicy {
  import opened Options
  import A = AlertLifecycle

  type Level = l: int | 1 <= l <= 4 witness 1

  datatype LevelConfig = LevelConfig(level: Level, timeoutMinutes: int)

  datatype Policy = Policy(id: string, levels: seq<LevelConfig>, severities: set<A.Severity>, enabled: bool)

  /** The configuration of a level: the first one listed. */
  function LevelConfigFor(levels: seq<LevelConfig>, level: Level): Option<LevelConfig> {
    if levels == [] then None
    else if levels[0].level == level then Some(levels[0])
    else LevelConfigFor(levels[1..], level)
  }

  function Insert(lc: LevelConfig, sorted: seq<LevelConfig>): seq<LevelConfig> {
    if sorted == [] || lc.level <= sorted[0].level then [lc] + sorted
    else [sorted[0]] + Insert(lc, sorted[1..])
  }

  /** The levels in ascending order, equal ones in configured order. */
  function SortLevels(levels: seq<LevelConfig>): seq<LevelConfig> {
    if levels == [] then [] else Insert(levels[0], SortLevels(levels[1..]))
  }

  /** The level after the first entry for `current` that has a successor. */
  function Scan(sorted: seq<LevelConfig>, current: Level): Option<Level> {
    if |sorted| < 2 then None
    else if sorted[0].level == current then Some(sorted[1].level)
    else Scan(sorted[1..], current)
  }

  function NextLevel(levels: seq<LevelConfig>, current: Level): Option<Level> {
    Scan(SortLevels(levels), current)
  }

  // ----- reference notions, independent of sorting -----

  /** How many entries configure `level`. */
  function Count(levels: seq<LevelConfig>, level: int): nat {
    if levels == [] then 0 else (if levels[0].level == level then 1 else 0) + Count(levels[1..], level)
  }

  /** How many entries configure a level at or above `level`. */
  function CountFrom(levels: seq<LevelConfig>, level: int): nat {
    if levels == [] then 0 else (if levels[0].level >= level then 1 else 0) + CountFrom(levels[1..], level)
  }

  function Seconds(minutes: int): real { 60.0 * minutes as real }

  /** The timeouts of all entries at or above `level`, in seconds. */
  function SumFrom(levels: seq<LevelConfig>, level: int): real {
    if levels == [] then 0.0
    else (if levels[0].level >= level then Seconds(levels[0].timeoutMinutes) else 0.0) + SumFrom(levels[1..], level)
  }

  /** `next` is the least configured level above `current`. */
  ghost predicate IsNext(levels: seq<LevelConfig>, current: int, next: int) {
    next > current && Count(levels, next) > 0 && forall m :: current < m < next ==> Count(levels, m) == 0
  }

  /** No level at or above `level` is configured twice. */
  ghost predicate DistinctFrom(levels: seq<LevelConfig>, level: int) {
    forall l :: l >= level ==> Count(levels, l) <= 1
  }

  ghost predicate NonnegativeFrom(levels: seq<LevelConfig>, level: int) {
    forall lc :: lc in levels && lc.level >= level ==> lc.timeoutMinutes >= 0
  }

  // ----- sorting -----

  ghost predicate Ascending(s: seq<LevelConfig>) {
    forall i, j :: 0 <= i < j < |s| ==> s[i].level <= s[j].level
  }

  lemma {:induction false} InsertSorts(lc: LevelConfig, s: seq<LevelConfig>)
    requires Ascending(s)
    ensures Ascending(Insert(lc, s))
    ensures forall x :: x in Insert(lc, s) ==> x == lc || x in s
  {
    if s != [] && s[0].level < lc.level {
      InsertSorts(lc, s[1..]);
      var rest := Insert(lc, s[1..]);
      forall i | 0 <= i < |rest|
        ensures s[0].level <= rest[i].level
      {
        assert rest[i] in rest;
      }
    }
  }

  lemma {:induction false} InsertCounts(lc: LevelConfig, s: seq<LevelConfig>, l: int)
    ensures Count(Insert(lc, s), l) == Count(s, l) + (if lc.level == l then 1 else 0)
  {
    if s != [] && s[0].level < lc.level {
      InsertCounts(lc, s[1..], l);
    }
  }

  lemma {:induction false} SortSorts(levels: seq<LevelConfig>)
    ensures Ascending(SortLevels(levels))
  {
    if levels == [] {
    } else {
      SortSorts(levels[1..]);
      InsertSorts(levels[0], SortLevels(levels[1..]));
    }
  }

  lemma {:induction false} SortCounts(levels: seq<LevelConfig>, l: int)
    ensures Count(SortLevels(levels), l) == Count(levels, l)
  {
    if levels == [] {
    } else {
      SortCounts(levels[1..], l);
      InsertCounts(levels[0], SortLevels(levels[1..]), l);
    }
  }

  lemma {:induction false} CountZero(levels: seq<LevelConfig>, l: int)
    ensures Count(levels, l) == 0 <==> forall lc :: lc in levels ==> lc.level != l
  {
    if levels == [] {
    } else {
      CountZero(levels[1..], l);
      assert levels == [levels[0]] + levels[1..];
    }
  }

  /** What scanning an ascending list finds. */
  lemma {:induction false} ScanFinds(s: seq<LevelConfig>, current: Level)
    requires Ascending(s) && Count(s, current) > 0
    ensures match Scan(s, current)
            case None => Count(s, current) == 1 && forall m :: m > current ==> Count(s, m) == 0
            case Some(next) => if Count(s, current) == 1 then IsNext(s, current, next) else next == current
  {
    var rest := s[1..];
    if |s| == 1 {
    } else if s[0].level == current {
      forall m | m < rest[0].level
        ensures Count(rest, m) == 0
      {
        CountZero(rest, m);
      }
      if rest[0].level > current {
        assert Count(rest, current) == 0;
      }
    } else {
      ScanFinds(rest, current);
      if s[0].level > current {
        CountZero(s, current);
      }
    }
  }

  /** The next level is the least one above, unless the current one is
      configured twice: then it is the current level again. */
  lemma NextLevelFinds(levels: seq<LevelConfig>, current: Level)
    requires Count(levels, current) > 0
    ensures match NextLevel(levels, current)
            case None => Count(levels, current) == 1 && forall m :: m > current ==> Count(levels, m) == 0
            case Some(next) => if Count(levels, current) == 1 then IsNext(levels, current, next) else next == current
  {
    SortSorts(levels);
    forall l
      ensures Count(SortLevels(levels), l) == Count(levels, l)
    {
      SortCounts(levels, l);
    }
    ScanFinds(SortLevels(levels), current);
  }

  // ----- counting and summing along the chain -----

  function SumAt(levels: seq<LevelConfig>, level: int): real {
    if levels == [] then 0.0
    else (if levels[0].level == level then Seconds(levels[0].timeoutMinutes) else 0.0) + SumAt(levels[1..], level)
  }

  /** One step of the chain peels off exactly the entries of the current level. */
  lemma {:induction false} Peel(levels: seq<LevelConfig>, current: int, next: int)
    requires current < next && forall lc :: lc in levels ==> !(current < lc.level < next)
    ensures CountFrom(levels, current) == Count(levels, current) + CountFrom(levels, next)
    ensures SumFrom(levels, current) == SumAt(levels, current) + SumFrom(levels, next)
  {
    if levels == [] {
    } else {
      Peel(levels[1..], current, next);
    }
  }

  lemma {:induction false} NothingFrom(levels: seq<LevelConfig>, level: int)
    requires forall lc :: lc in levels ==> lc.level < level
    ensures CountFrom(levels, level) == 0 && SumFrom(levels, level) == 0.0
  {
    if levels == [] {
    } else {
      NothingFrom(levels[1..], level);
    }
  }

  lemma {:induction false} SumAtSingle(levels: seq<LevelConfig>, level: Level)
    ensures Count(levels, level) > 0 <==> LevelConfigFor(levels, level).Some?
    ensures Count(levels, level) == 0 ==> SumAt(levels, level) == 0.0
    ensures Count(levels, level) == 1 ==>
              SumAt(levels, level) == Seconds(LevelConfigFor(levels, level).value.timeoutMinutes)
    ensures LevelConfigFor(levels, level).Some? ==>
              LevelConfigFor(levels, level).value in levels && LevelConfigFor(levels, level).value.level == level
  {
    if levels == [] {
    } else {
      SumAtSingle(levels[1..], level);
    }
  }

  /** With distinct levels, moving one level up leaves one level fewer to go
      and takes the current timeout out of the sum. */
  lemma ChainStep(levels: seq<LevelConfig>, current: Level, next: int)
    requires Count(levels, current) == 1 && IsNext(levels, current, next)
    ensures CountFrom(levels, current) == 1 + CountFrom(levels, next)
    ensures LevelConfigFor(levels, current).Some?
    ensures SumFrom(levels, current)
            == Seconds(LevelConfigFor(levels, current).value.timeoutMinutes) + SumFrom(levels, next)
  {
    forall lc | lc in levels
      ensures !(current < lc.level < next)
    {
      CountZero(levels, lc.level);
    }
    Peel(levels, current, next);
    SumAtSingle(levels, current);
  }

  lemma ChainEnd(levels: seq<LevelConfig>, current: Level)
    requires Count(levels, current) == 1 && forall m :: m > current ==> Count(levels, m) == 0
    ensures CountFrom(levels, current) == 1
    ensures LevelConfigFor(levels, current).Some?
    ensures SumFrom(levels, current) == Seconds(LevelConfigFor(levels, current).value.timeoutMinutes)
  {
    forall lc | lc in levels
      ensures lc.level < current + 1
    {
      CountZero(levels, lc.level);
    }
    Peel(levels, current, current + 1);
    NothingFrom(levels, current + 1);
    SumAtSingle(levels, current);
  }

  lemma {:induction false} SumNonnegative(levels: seq<LevelConfig>, level: int)
    requires NonnegativeFrom(levels, level)
    ensures SumFrom(levels, level) >= 0.0
  {
    if levels == [] {
    } else {
      SumNonnegative(levels[1..], level);
    }
  }
}
