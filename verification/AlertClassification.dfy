/** From a scoring result to the type and rule of an alert: what the alert
    manager reads, and what the scoring pipeline actually writes. */
module AlertClassification {
  import opened Options
  import opened AlertLifecycle
  import E = Ensemble
  import R = Reals

  /** One entry of `method_scores`, as a dictionary: `rules` is the list of
      triggered rules under `details`, when there is one. */
  datatype MethodScore = MethodScore(name: string, weighted: real, success: bool, rules: Option<seq<Option<string>>>)

  // ----- what the alert manager reads -----

  datatype Leader = Leader(name: string, weighted: real)

  const NOBODY := Leader("ensemble", 0.0)

  function Follow(l: Leader, m: MethodScore): Leader {
    if m.success && m.weighted > l.weighted then Leader(m.name, m.weighted) else l
  }

  /** The successful method that contributes most, if any contributes. */
  function Dominant(ms: seq<MethodScore>): Leader {
    if ms == [] then NOBODY else Follow(Dominant(ms[..|ms| - 1]), ms[|ms| - 1])
  }

  function KindOf(name: string): Kind {
    if name == "rule_engine" then RuleBased
    else if name == "anomaly_detection" then Anomaly
    else if name == "ml_model" then MlScore
    else AlertLifecycle.Ensemble
  }

  /** The first rule of the first successful rule-engine entry that lists any. */
  function RuleId(ms: seq<MethodScore>): Option<string> {
    if ms == [] then None
    else if ms[0].name == "rule_engine" && ms[0].success && ms[0].rules.Some? && ms[0].rules.value != []
      then ms[0].rules.value[0]
    else RuleId(ms[1..])
  }

  /** The leader beats every successful method, and is one of them unless no
      method contributes anything. */
  lemma {:induction false} DominantLeads(ms: seq<MethodScore>)
    ensures forall m :: m in ms && m.success ==> m.weighted <= Dominant(ms).weighted
    ensures Dominant(ms).weighted >= 0.0
    ensures Dominant(ms) == NOBODY <==> forall m :: m in ms && m.success ==> m.weighted <= 0.0
    ensures Dominant(ms) != NOBODY ==>
              exists m :: m in ms && m.success && m.name == Dominant(ms).name && m.weighted == Dominant(ms).weighted
  {
    if ms == [] {
    } else {
      var init, last := ms[..|ms| - 1], ms[|ms| - 1];
      assert ms == init + [last] && last in ms;
      assert forall m :: m in init ==> m in ms;
      DominantLeads(init);
    }
  }

  /** The leader is the first successful entry that weighs most, if that is more
      than zero; without one the alert is an ensemble alert. */
  lemma {:induction false} LeaderMeans(ms: seq<MethodScore>, i: nat)
    ensures (forall m :: m in ms && m.success ==> m.weighted <= 0.0) ==> Dominant(ms) == Leader("ensemble", 0.0)
    ensures i < |ms| && ms[i].success && ms[i].weighted > 0.0
            && (forall j :: 0 <= j < i && ms[j].success ==> ms[j].weighted < ms[i].weighted)
            && (forall j :: i < j < |ms| && ms[j].success ==> ms[j].weighted <= ms[i].weighted) ==>
              Dominant(ms) == Leader(ms[i].name, ms[i].weighted)
  {
    if ms == [] {
    } else {
      var init, last := ms[..|ms| - 1], ms[|ms| - 1];
      assert ms == init + [last] && last in ms;
      LeaderMeans(init, i);
      DominantLeads(init);
      if i == |init| && Dominant(init) != NOBODY {
        var m :| m in init && m.success && m.name == Dominant(init).name && m.weighted == Dominant(init).weighted;
        var j :| 0 <= j < |init| && init[j] == m;
        assert ms[j] == m;
      }
    }
  }

  /** The loop that finds the leader. */
  method DetermineAlertType(ms: seq<MethodScore>) returns (kind: Kind)
    ensures kind == KindOf(Dominant(ms).name)
  {
    if ms == [] {
      return AlertLifecycle.Ensemble;
    }
    var leader := NOBODY;
    for i := 0 to |ms|
      invariant leader == Dominant(ms[..i])
    {
      assert ms[..i + 1][..i] == ms[..i];
      if ms[i].success && ms[i].weighted > leader.weighted {
        leader := Leader(ms[i].name, ms[i].weighted);
      }
    }
    assert ms[..|ms|] == ms;
    return KindOf(leader.name);
  }

  /** The three names the alert manager knows; every other gives an ensemble alert. */
  lemma KindMeans(name: string)
    ensures KindOf(name) == RuleBased <==> name == "rule_engine"
    ensures KindOf(name) == Anomaly <==> name == "anomaly_detection"
    ensures KindOf(name) == MlScore <==> name == "ml_model"
    ensures KindOf(name) == AlertLifecycle.Ensemble <==> name !in {"rule_engine", "anomaly_detection", "ml_model"}
  {
  }

  /** The entry names a triggered rule. */
  predicate NamesRule(m: MethodScore) {
    m.name == "rule_engine" && m.success && m.rules.Some? && m.rules.value != []
  }

  /** The rule of an alert is the first one of the first entry that names any. */
  lemma {:induction false} RuleIdMeans(ms: seq<MethodScore>, i: nat)
    requires i <= |ms| && forall j :: 0 <= j < i ==> !NamesRule(ms[j])
    ensures i == |ms| ==> RuleId(ms) == None
    ensures i < |ms| && NamesRule(ms[i]) ==> RuleId(ms) == ms[i].rules.value[0]
  {
    if i == 0 {
    } else {
      RuleIdMeans(ms[1..], i - 1);
    }
  }

  // ----- what the scoring pipeline writes -----

  function NameOf(m: E.Method): string {
    match m
    case RuleEngine => "rule_engine"
    case AnomalyDetector => "anomaly_detector"
    case MlModel => "ml_model"
  }

  /** To six decimals. */
  function Round6(x: real): real { R.RoundInt(1000000.0 * x) as real / 1000000.0 }

  /** The dictionary form of a unified score rounds and keeps no details. */
  function Emit(rs: seq<E.MethodResult>): (ms: seq<MethodScore>)
    ensures |ms| == |rs|
  {
    if rs == [] then []
    else
      var r := rs[|rs| - 1];
      Emit(rs[..|rs| - 1]) + [MethodScore(NameOf(r.kind), Round6(R.Mul(r.score, r.weight)), r.success, None)]
  }

  lemma {:induction false} EmittedEntries(rs: seq<E.MethodResult>)
    ensures forall m :: m in Emit(rs) ==> m.rules.None? && m.name in {"rule_engine", "anomaly_detector", "ml_model"}
  {
    if rs == [] {
    } else {
      EmittedEntries(rs[..|rs| - 1]);
    }
  }

  /** Each result is written under its method's name, with score times weight to the
      nearest millionth, of two the even one. */
  lemma {:induction false} EmittedMeans(rs: seq<E.MethodResult>, i: nat) returns (k: int)
    requires i < |rs|
    ensures var name := match rs[i].kind
                        case RuleEngine => "rule_engine"
                        case AnomalyDetector => "anomaly_detector"
                        case MlModel => "ml_model";
            Emit(rs)[i] == MethodScore(name, k as real / 1000000.0, rs[i].success, None)
    ensures var off := 1000000.0 * (rs[i].score * rs[i].weight) - k as real;
            -0.5 <= off <= 0.5 && (off == 0.5 || off == -0.5 ==> k % 2 == 0)
  {
    if i == |rs| - 1 {
      k := R.RoundInt(1000000.0 * R.Mul(rs[i].score, rs[i].weight));
    } else {
      k := EmittedMeans(rs[..|rs| - 1], i);
    }
  }

  lemma {:induction false} NoRulesNoId(ms: seq<MethodScore>)
    requires forall m :: m in ms ==> m.rules.None?
    ensures RuleId(ms) == None
  {
    if ms == [] {
    } else {
      NoRulesNoId(ms[1..]);
    }
  }

  /** The two halves do not meet: no score the pipeline emits ever becomes an
      anomaly alert, not even when the anomaly detector dominates, and none
      ever carries a rule. So the per-rule throttle and the rule part of the
      deduplication key never take effect for such alerts. */
  lemma {:induction false} PipelineScoresLoseProvenance(rs: seq<E.MethodResult>)
    ensures KindOf(Dominant(Emit(rs)).name) != Anomaly
    ensures RuleId(Emit(rs)) == None
  {
    hide R.Mul;
    EmittedEntries(rs);
    DominantLeads(Emit(rs));
    NoRulesNoId(Emit(rs));
  }
}
