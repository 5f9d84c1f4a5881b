/** The processing pipeline: six stages with a skip-or-halt error policy, a
    dead-letter queue, and batch counters.

    What the stage components do with a record is not visible here, so a record
    carries it: every theorem holds for all behaviours. */
module Pipeline {
  import opened Options

  datatype Stage = Validation | Cleaning | Normalization | FeatureEngineering | Enrichment

  datatype Policy = Skip | Halt

  /** What a component does: return a record, reject it (invalid, blocked,
      duplicate), fail (raise, or report failure), fail so that passing the
      record on raises too, or return no record at all. */
  datatype Behaviour = Pass | Reject | Fail | Break | Nothing

  // What each stage can do. The first three work on a fresh dictionary, so
  // writing to it cannot raise; only cleaning and normalization pass on what
  // their component returns, which may be nothing.
  type Checking = b: Behaviour | b.Pass? || b.Reject? || b.Fail? witness Pass
  type Cleansing = b: Behaviour | !b.Break? witness Pass
  type Normalizing = b: Behaviour | !b.Reject? witness Pass
  type Extending = b: Behaviour | b.Pass? || b.Fail? || b.Break? witness Pass

  datatype Record = Record(offset: nat, entryFault: bool, validate: Checking, rules: Checking, clean: Cleansing,
                           normalize: Normalizing, features: Extending, enrich: Extending, markFault: bool)

  /** Where a dead letter says the record failed. */
  datatype Cause = At(stage: Stage) | RulesBlock | PipelineException

  datatype DeadLetter = DeadLetter(offset: nat, cause: Cause)

  datatype Result = Result(success: bool, stageFailed: Option<Stage>, dlq: bool)

  // ----- the specification: what becomes of a record -----

  datatype Fate = Succeeds | Dead(cause: Cause, at: Option<Stage>) | Vanishes(stage: Stage)

  type Policies = map<Stage, Policy>

  function PolicyOf(policies: Policies, stage: Stage): Policy { if stage in policies then policies[stage] else Skip }

  /** The fate a stage decides, or none when the record passes on. */
  function StageFate(policies: Policies, stage: Stage, reject: Cause, b: Behaviour): Option<Fate> {
    match b
    case Pass => None
    case Reject => Some(Dead(reject, Some(stage)))
    case Fail => if PolicyOf(policies, stage).Halt? then Some(Dead(At(stage), Some(stage))) else None
    case Break => if PolicyOf(policies, stage).Halt? then Some(Dead(At(stage), Some(stage)))
                  else Some(Dead(PipelineException, None))
    case Nothing => Some(Vanishes(stage))
  }

  function OrElse(first: Option<Fate>, second: Option<Fate>): Option<Fate> { if first.Some? then first else second }

  /** The first of the six stages that does not pass the record on decides. */
  function Decided(policies: Policies, r: Record): Option<Fate> {
    OrElse(StageFate(policies, Validation, At(Validation), r.validate),
    OrElse(StageFate(policies, Validation, RulesBlock, r.rules),
    OrElse(StageFate(policies, Cleaning, At(Cleaning), r.clean),
    OrElse(StageFate(policies, Normalization, At(Normalization), r.normalize),
    OrElse(StageFate(policies, FeatureEngineering, At(FeatureEngineering), r.features),
           StageFate(policies, Enrichment, At(Enrichment), r.enrich))))))
  }

  function FateOf(policies: Policies, r: Record): Fate {
    if r.entryFault then Dead(PipelineException, None)
    else if Decided(policies, r).Some? then Decided(policies, r).value
    else if r.markFault then Dead(PipelineException, None)
    else Succeeds
  }

  /** One of the six stages in its turn: what it did, and where a rejection is said
      to have come from. */
  datatype Turn = Turn(stage: Stage, cause: Cause, did: Behaviour)

  function Turns(r: Record): seq<Turn> {
    [Turn(Validation, At(Validation), r.validate), Turn(Validation, RulesBlock, r.rules),
     Turn(Cleaning, At(Cleaning), r.clean), Turn(Normalization, At(Normalization), r.normalize),
     Turn(FeatureEngineering, At(FeatureEngineering), r.features), Turn(Enrichment, At(Enrichment), r.enrich)]
  }

  /** A stage without a configured policy skips its errors. */
  predicate Skips(policies: Policies, stage: Stage) { stage !in policies || policies[stage] == Skip }

  /** The stage passes the record on: it did its work, or failed under SKIP. */
  predicate Passes(policies: Policies, t: Turn) { t.did == Pass || (t.did == Fail && Skips(policies, t.stage)) }

  /** The first stage that does not pass the record on decides: a rejection is a
      dead letter of the stage, or of the rules; an error under HALT is one of the
      stage; an error whose skipping raises is one of the pipeline; a record that
      is not returned leaves none. A record passed on six times succeeds unless
      marking it raises. */
  lemma FateMeans(policies: Policies, r: Record, i: nat)
    requires i <= 6 && forall j :: 0 <= j < i ==> Passes(policies, Turns(r)[j])
    requires i < 6 ==> !Passes(policies, Turns(r)[i])
    ensures FateOf(policies, r) ==
            if r.entryFault then Dead(PipelineException, None)
            else if i == 6 then if r.markFault then Dead(PipelineException, None) else Succeeds
            else
              var t := Turns(r)[i];
              if t.did == Reject then Dead(t.cause, Some(t.stage))
              else if t.did == Nothing then Vanishes(t.stage)
              else if !Skips(policies, t.stage) then Dead(At(t.stage), Some(t.stage))
              else Dead(PipelineException, None)
  {
    hide StageFate;
    var ts := Turns(r);
    TurnFate(policies, ts[0]);
    TurnFate(policies, ts[1]);
    TurnFate(policies, ts[2]);
    TurnFate(policies, ts[3]);
    TurnFate(policies, ts[4]);
    TurnFate(policies, ts[5]);
    assert forall j :: 0 <= j < i ==> StageFate(policies, ts[j].stage, ts[j].cause, ts[j].did).None?;
  }

  lemma TurnFate(policies: Policies, t: Turn)
    ensures StageFate(policies, t.stage, t.cause, t.did) ==
            if Passes(policies, t) then None
            else if t.did == Reject then Some(Dead(t.cause, Some(t.stage)))
            else if t.did == Nothing then Some(Vanishes(t.stage))
            else if !Skips(policies, t.stage) then Some(Dead(At(t.stage), Some(t.stage)))
            else Some(Dead(PipelineException, None))
  {
  }

  /** Success is reported alone; every other fate as a failure sent to the queue,
      with the stage if one stage decided it. Exactly a dead one has a letter. */
  lemma ResultMeans(policies: Policies, r: Record)
    ensures match FateOf(policies, r)
            case Succeeds =>
              ResultOf(FateOf(policies, r)) == Result(true, None, false) && LettersOf(policies, r) == []
            case Dead(cause, at) =>
              ResultOf(FateOf(policies, r)) == Result(false, at, true)
              && LettersOf(policies, r) == [DeadLetter(r.offset, cause)]
            case Vanishes(stage) =>
              ResultOf(FateOf(policies, r)) == Result(false, Some(stage), true) && LettersOf(policies, r) == []
  {
    hide FateOf;
  }

  function ResultOf(fate: Fate): Result {
    match fate
    case Succeeds => Result(true, None, false)
    case Dead(_, at) => Result(false, at, true)
    case Vanishes(stage) => Result(false, Some(stage), true)
  }

  function LettersOf(policies: Policies, r: Record): seq<DeadLetter> {
    var fate := FateOf(policies, r);
    if fate.Dead? then [DeadLetter(r.offset, fate.cause)] else []
  }

  /** The dead letters of a batch, in order. */
  function Letters(policies: Policies, rs: seq<Record>): seq<DeadLetter> {
    if rs == [] then [] else Letters(policies, rs[..|rs| - 1]) + LettersOf(policies, rs[|rs| - 1])
  }

  function Count(policies: Policies, rs: seq<Record>, p: Fate -> bool): nat {
    if rs == [] then 0
    else Count(policies, rs[..|rs| - 1], p) + (if p(FateOf(policies, rs[|rs| - 1])) then 1 else 0)
  }

  function IsSuccess(): Fate -> bool { (f: Fate) => f.Succeeds? }
  function IsFailure(): Fate -> bool { (f: Fate) => !f.Succeeds? }
  function IsVanished(): Fate -> bool { (f: Fate) => f.Vanishes? }

  lemma CountAppend(policies: Policies, rs: seq<Record>, r: Record, p: Fate -> bool)
    ensures Count(policies, rs + [r], p) == Count(policies, rs, p) + (if p(FateOf(policies, r)) then 1 else 0)
  {
    hide FateOf;
    assert (rs + [r])[..|rs + [r]| - 1] == rs;
  }

  lemma LettersAppend(policies: Policies, rs: seq<Record>, r: Record)
    ensures Letters(policies, rs + [r]) == Letters(policies, rs) + LettersOf(policies, r)
  {
    hide FateOf;
    assert (rs + [r])[..|rs + [r]| - 1] == rs;
  }

  /** Conservation, under any mix of policies: every failure is a dead letter or
      vanished, and with the successes they are all the records. */
  lemma {:induction false} BatchConserves(policies: Policies, rs: seq<Record>)
    ensures Count(policies, rs, IsSuccess()) + |Letters(policies, rs)| + Count(policies, rs, IsVanished()) == |rs|
    ensures |Letters(policies, rs)| + Count(policies, rs, IsVanished()) == Count(policies, rs, IsFailure())
  {
    hide FateOf;
    if rs == [] {
    } else {
      BatchConserves(policies, rs[..|rs| - 1]);
    }
  }

  lemma {:induction false} CountZero(policies: Policies, rs: seq<Record>, p: Fate -> bool)
    ensures Count(policies, rs, p) == 0 <==> forall r :: r in rs ==> !p(FateOf(policies, r))
  {
    hide FateOf;
    if rs == [] {
    } else {
      assert rs == rs[..|rs| - 1] + [rs[|rs| - 1]];
      CountZero(policies, rs[..|rs| - 1], p);
    }
  }

  /** The stage returns a record: its own, or the one it failed on. */
  predicate PassesOn(policies: Policies, stage: Stage, b: Behaviour) {
    b.Pass? || (b.Fail? && PolicyOf(policies, stage).Skip?)
  }

  /** The cleaner or the normalizer returns no record for one that gets to it. */
  predicate Withheld(policies: Policies, r: Record) {
    && !r.entryFault
    && PassesOn(policies, Validation, r.validate) && PassesOn(policies, Validation, r.rules)
    && (r.clean.Nothing? || (PassesOn(policies, Cleaning, r.clean) && r.normalize.Nothing?))
  }

  /** A record fails without a dead letter exactly when one of those two stages
      withholds it. */
  lemma VanishesIffWithheld(policies: Policies, r: Record)
    ensures Withheld(policies, r) <==> FateOf(policies, r).Vanishes?
    ensures Withheld(policies, r) <==> !ResultOf(FateOf(policies, r)).success && LettersOf(policies, r) == []
  {
  }

  /** The reported dead-letter count is the growth of the queue exactly when
      cleaning and normalization withhold no record. */
  lemma DlqCountIsExactIff(policies: Policies, rs: seq<Record>)
    ensures Count(policies, rs, IsFailure()) == |Letters(policies, rs)|
            <==> forall r :: r in rs ==> !Withheld(policies, r)
  {
    hide FateOf, Withheld, ResultOf, LettersOf;
    BatchConserves(policies, rs);
    CountZero(policies, rs, IsVanished());
    forall r | r in rs
      ensures Withheld(policies, r) <==> FateOf(policies, r).Vanishes?
    {
      VanishesIffWithheld(policies, r);
    }
  }

  /** A cleaner that returns nothing for a valid record: reported as sent to the
      queue, and counted, but not in it. */
  lemma WithheldRecordIsMiscounted(policies: Policies, o: nat)
    ensures var r := Record(o, false, Pass, Pass, Nothing, Pass, Pass, Pass, false);
            && ResultOf(FateOf(policies, r)) == Result(false, Some(Cleaning), true)
            && Count(policies, [r], IsFailure()) == 1 && Letters(policies, [r]) == []
  {
    var r := Record(o, false, Pass, Pass, Nothing, Pass, Pass, Pass, false);
    EmptyCounts(policies);
    CountAppend(policies, [], r, IsFailure());
    LettersAppend(policies, [], r);
    assert [] + [r] == [r];
  }

  lemma EmptyCounts(policies: Policies)
    ensures Letters(policies, []) == [] && forall p :: Count(policies, [], p) == 0
  {
  }

  // ----- the orchestrator itself -----

  datatype Signal = Proceed | Stop | Raised

  datatype BatchResult = BatchResult(total: nat, succeeded: nat, failed: nat, dlqCount: nat, results: seq<Result>)

  class Orchestrator {
    const policies: Policies
    var dlq: seq<DeadLetter>

    constructor (config: Policies)
      ensures policies == config && dlq == []
    {
      policies, dlq := config, [];
    }

    method RouteToDlq(r: Record, cause: Cause)
      modifies this
      ensures dlq == old(dlq) + [DeadLetter(r.offset, cause)]
    {
      dlq := dlq + [DeadLetter(r.offset, cause)];
    }

    /** A stage error halts into the queue, or is skipped; skipping writes to
        the record and may raise. */
    method HandleStageError(stage: Stage, r: Record, raises: bool) returns (s: Signal)
      modifies this
      ensures PolicyOf(policies, stage).Halt? ==> s == Stop && dlq == old(dlq) + [DeadLetter(r.offset, At(stage))]
      ensures PolicyOf(policies, stage).Skip? ==> dlq == old(dlq) && s == if raises then Raised else Proceed
    {
      if PolicyOf(policies, stage).Halt? {
        RouteToDlq(r, At(stage));
        return Stop;
      }
      return if raises then Raised else Proceed;
    }

    method RunStage(stage: Stage, reject: Cause, b: Behaviour, r: Record) returns (s: Signal)
      requires reject != PipelineException
      modifies this
      ensures var fate := StageFate(policies, stage, reject, b);
              && (s.Proceed? <==> fate.None?)
              && (s.Raised? <==> fate == Some(Dead(PipelineException, None)))
              && dlq == old(dlq) + (if s.Stop? && fate.value.Dead?
                                    then [DeadLetter(r.offset, fate.value.cause)] else [])
              && (s.Stop? ==> ResultOf(fate.value) == Result(false, Some(stage), true))
    {
      match b
      case Pass => return Proceed;
      case Reject =>
        RouteToDlq(r, reject);
        return Stop;
      case Fail => s := HandleStageError(stage, r, false);
      case Break => s := HandleStageError(stage, r, true);
      case Nothing => return Stop;
    }

    method ProcessRecord(r: Record) returns (res: Result)
      modifies this
      ensures res == ResultOf(FateOf(policies, r))
      ensures dlq == old(dlq) + LettersOf(policies, r)
    {
      hide Decided;
      if r.entryFault {
        RouteToDlq(r, PipelineException);
        return Result(false, None, true);
      }
      var s, stage := RunStages(r);
      if s.Stop? {
        return Result(false, Some(stage), true);
      }
      if s.Raised? || r.markFault {
        RouteToDlq(r, PipelineException);
        return Result(false, None, true);
      }
      return Result(true, None, false);
    }

    /** The six stages in order, up to the first that does not pass. */
    method RunStages(r: Record) returns (s: Signal, stage: Stage)
      modifies this
      ensures var fate := Decided(policies, r);
              && (s.Proceed? <==> fate.None?)
              && (s.Raised? <==> fate == Some(Dead(PipelineException, None)))
              && dlq == old(dlq) + (if s.Stop? && fate.value.Dead?
                                    then [DeadLetter(r.offset, fate.value.cause)] else [])
              && (s.Stop? ==> ResultOf(fate.value) == Result(false, Some(stage), true))
    {
      hide StageFate;
      stage := Validation;
      s := RunStage(stage, At(Validation), r.validate, r);
      if s.Proceed? {
        s := RunStage(stage, RulesBlock, r.rules, r);
      }
      if s.Proceed? {
        stage := Cleaning;
        s := RunStage(stage, At(Cleaning), r.clean, r);
      }
      if s.Proceed? {
        stage := Normalization;
        s := RunStage(stage, At(Normalization), r.normalize, r);
      }
      if s.Proceed? {
        stage := FeatureEngineering;
        s := RunStage(stage, At(FeatureEngineering), r.features, r);
      }
      if s.Proceed? {
        stage := Enrichment;
        s := RunStage(stage, At(Enrichment), r.enrich, r);
      }
    }

    /** The counters of a batch and what it adds to the queue. */
    method ProcessBatch(rs: seq<Record>) returns (b: BatchResult)
      modifies this
      ensures b.total == |rs| && b.succeeded + b.failed == b.total && b.dlqCount == b.failed
      ensures b.succeeded == Count(policies, rs, IsSuccess()) && b.failed == Count(policies, rs, IsFailure())
      ensures |b.results| == |rs| && forall i :: 0 <= i < |rs| ==> b.results[i] == ResultOf(FateOf(policies, rs[i]))
      ensures dlq == old(dlq) + Letters(policies, rs)
    {
      hide FateOf, Count, Letters;
      EmptyCounts(policies);
      var results, succeeded, failed, dlqCount := [], 0, 0, 0;
      for i := 0 to |rs|
        invariant |results| == i && succeeded + failed == i && dlqCount == failed
        invariant forall j :: 0 <= j < i ==> results[j] == ResultOf(FateOf(policies, rs[j]))
        invariant succeeded == Count(policies, rs[..i], IsSuccess()) && failed == Count(policies, rs[..i], IsFailure())
        invariant dlq == old(dlq) + Letters(policies, rs[..i])
      {
        assert rs[..i + 1] == rs[..i] + [rs[i]];
        CountAppend(policies, rs[..i], rs[i], IsSuccess());
        CountAppend(policies, rs[..i], rs[i], IsFailure());
        LettersAppend(policies, rs[..i], rs[i]);
        var res := ProcessRecord(rs[i]);
        results := results + [res];
        if res.success {
          succeeded := succeeded + 1;
        } else {
          failed := failed + 1;
          if res.dlq {
            dlqCount := dlqCount + 1;
          }
        }
      }
      assert rs[..|rs|] == rs;
      b := BatchResult(|rs|, succeeded, failed, dlqCount, results);
    }
  }
}
