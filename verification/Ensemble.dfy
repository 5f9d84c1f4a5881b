/** The ensemble score: a weighted mean of the scoring methods that succeeded,
    renormalised over them, and the risk class it falls into. */
module Ensemble {
  import opened Windows
  import opened Permutations
  import opened Reals

  datatype Method = RuleEngine | AnomalyDetector | MlModel

  datatype MethodResult = MethodResult(kind: Method, score: real, weight: real, success: bool)

  function Succeeds(): MethodResult -> bool { (r: MethodResult) => r.success }

  function Successful(rs: seq<MethodResult>): seq<MethodResult> { Keep(rs, Succeeds()) }

  function TotalWeight(rs: seq<MethodResult>): real {
    if rs == [] then 0.0 else TotalWeight(rs[..|rs| - 1]) + rs[|rs| - 1].weight
  }

  function WeightedSum(rs: seq<MethodResult>, total: real): real
    requires total > 0.0
  {
    if rs == [] then 0.0
    else WeightedSum(rs[..|rs| - 1], total) + Mul(rs[|rs| - 1].score, rs[|rs| - 1].weight / total)
  }

  function Clamp(x: real): real { if x < 0.0 then 0.0 else if x > 1.0 then 1.0 else x }

  function Score(rs: seq<MethodResult>): (s: real)
    ensures 0.0 <= s <= 1.0
  {
    var ok := Successful(rs);
    if ok == [] || TotalWeight(ok) <= 0.0 then 0.0 else Clamp(WeightedSum(ok, TotalWeight(ok)))
  }

  // ----- the mean as one fraction -----

  /** The sum of score times weight. */
  function Moment(rs: seq<MethodResult>): real {
    if rs == [] then 0.0 else Moment(rs[..|rs| - 1]) + Mul(rs[|rs| - 1].score, rs[|rs| - 1].weight)
  }

  lemma {:induction false} SumIsFraction(rs: seq<MethodResult>, total: real)
    requires total > 0.0
    ensures Mul(WeightedSum(rs, total), total) == Moment(rs)
  {
    hide Mul;
    if rs == [] {
      Fraction(0.0, 0.0, 0.0, total);
    } else {
      var init, last := rs[..|rs| - 1], rs[|rs| - 1];
      SumIsFraction(init, total);
      Fraction(WeightedSum(init, total), last.score, last.weight, total);
    }
  }

  lemma Fraction(a: real, s: real, w: real, t: real)
    requires t > 0.0
    ensures Mul(a + Mul(s, w / t), t) == Mul(a, t) + Mul(s, w)
    ensures Mul(0.0, t) == 0.0
  {
    var q := w / t;
    assert q * t == w;
    Distribute(a, s, q, t);
  }

  lemma Distribute(a: real, s: real, w: real, t: real)
    ensures (a + s * w) * t == a * t + s * (w * t)
  {
  }

  ghost predicate Valid(rs: seq<MethodResult>) {
    forall r :: r in rs ==> r.weight >= 0.0 && 0.0 <= r.score <= 1.0
  }

  ghost predicate Between(rs: seq<MethodResult>, lo: real, hi: real) {
    forall r :: r in rs && r.success ==> lo <= r.score <= hi
  }

  lemma {:induction false} MomentBetween(rs: seq<MethodResult>, lo: real, hi: real)
    requires Valid(rs) && forall r :: r in rs ==> lo <= r.score <= hi
    ensures Mul(lo, TotalWeight(rs)) <= Moment(rs) <= Mul(hi, TotalWeight(rs))
  {
    hide Mul;
    if rs == [] {
      AddBounds(lo, hi, 0.0, lo, 0.0);
    } else {
      var init, last := rs[..|rs| - 1], rs[|rs| - 1];
      assert rs == init + [last] && last in rs;
      MomentBetween(init, lo, hi);
      AddBounds(lo, hi, TotalWeight(init), last.score, last.weight);
    }
  }

  lemma AddBounds(lo: real, hi: real, total: real, s: real, w: real)
    ensures Mul(lo, 0.0) == 0.0 && Mul(hi, 0.0) == 0.0
    ensures lo <= s <= hi && w >= 0.0 ==>
              && Mul(lo, total + w) <= Mul(lo, total) + Mul(s, w)
              && Mul(hi, total) + Mul(s, w) <= Mul(hi, total + w)
  {
    if lo <= s <= hi && w >= 0.0 {
      ScaleUp(lo, s, w);
      ScaleUp(s, hi, w);
    }
  }

  lemma SuccessfulIsSubset(rs: seq<MethodResult>, r: MethodResult)
    ensures r in Successful(rs) <==> r in rs && r.success
  {
    KeepMember(rs, Succeeds(), r);
  }

  /** The unclamped mean is already in [0, 1], so the clamp never acts. */
  lemma MeanBetween(rs: seq<MethodResult>, lo: real, hi: real)
    requires Valid(rs) && Between(rs, lo, hi) && TotalWeight(Successful(rs)) > 0.0
    ensures lo <= WeightedSum(Successful(rs), TotalWeight(Successful(rs))) <= hi
  {
    hide Keep, Mul, TotalWeight, WeightedSum, Moment;
    var ok := Successful(rs);
    var total := TotalWeight(ok);
    forall r | r in ok
      ensures r.weight >= 0.0 && 0.0 <= r.score <= 1.0 && lo <= r.score <= hi
    {
      SuccessfulIsSubset(rs, r);
    }
    MomentBetween(ok, lo, hi);
    SumIsFraction(ok, total);
    Cancel(lo, WeightedSum(ok, total), total);
    Cancel(WeightedSum(ok, total), hi, total);
  }

  /** With positive weight among the successes, the score lies between the
      smallest and the largest successful score, and is the exact weighted
      mean. */
  lemma ScoreIsMean(rs: seq<MethodResult>, lo: real, hi: real)
    requires Valid(rs) && Between(rs, lo, hi) && TotalWeight(Successful(rs)) > 0.0
    ensures lo <= Score(rs) <= hi
    ensures Mul(Score(rs), TotalWeight(Successful(rs))) == Moment(Successful(rs))
  {
    hide Keep, Mul, TotalWeight, WeightedSum, Moment;
    var ok := Successful(rs);
    assert ok != [] by { NoWeight(); }
    MeanBetween(rs, lo, hi);
    MeanBetween(rs, 0.0, 1.0);
    SumIsFraction(ok, TotalWeight(ok));
  }

  lemma NoWeight()
    ensures TotalWeight([]) == 0.0
  {
  }

  // ----- monotone, order-free, blind to failures -----

  /** Same methods, weights and outcomes, and no score lower. */
  ghost predicate Dominates(a: seq<MethodResult>, b: seq<MethodResult>) {
    |a| == |b| && forall i :: 0 <= i < |a| ==> b[i].(score := a[i].score) == a[i] && b[i].score <= a[i].score
  }

  lemma {:induction false} DominatesSuccessful(a: seq<MethodResult>, b: seq<MethodResult>)
    requires Dominates(a, b)
    ensures Dominates(Successful(a), Successful(b))
  {
    if a == [] {
    } else {
      DominatesSuccessful(a[..|a| - 1], b[..|b| - 1]);
    }
  }

  lemma {:induction false} DominatesMoment(a: seq<MethodResult>, b: seq<MethodResult>)
    requires Dominates(a, b) && forall i :: 0 <= i < |a| ==> a[i].weight >= 0.0
    ensures TotalWeight(a) == TotalWeight(b) && Moment(b) <= Moment(a)
  {
    hide Mul;
    if a == [] {
    } else {
      DominatesMoment(a[..|a| - 1], b[..|b| - 1]);
      var x, y := a[|a| - 1], b[|b| - 1];
      assert y.(score := x.score) == x;
      ScaleUp(y.score, x.score, x.weight);
    }
  }

  lemma WeightlessScore(rs: seq<MethodResult>)
    requires TotalWeight(Successful(rs)) <= 0.0
    ensures Score(rs) == 0.0
  {
  }

  /** Raising any scores never lowers the ensemble score. */
  lemma {:induction false} ScoreIsMonotone(a: seq<MethodResult>, b: seq<MethodResult>)
    requires Dominates(a, b) && Valid(a) && Valid(b)
    ensures Score(b) <= Score(a)
  {
    hide Keep, Mul, TotalWeight, WeightedSum, Moment, Score;
    var x, y := Successful(a), Successful(b);
    DominatesSuccessful(a, b);
    forall i | 0 <= i < |x|
      ensures x[i].weight >= 0.0
    {
      SuccessfulIsSubset(a, x[i]);
    }
    DominatesMoment(x, y);
    if TotalWeight(x) <= 0.0 {
      WeightlessScore(a);
      WeightlessScore(b);
    } else {
      ScoreIsMean(a, 0.0, 1.0);
      ScoreIsMean(b, 0.0, 1.0);
      Cancel(Score(b), Score(a), TotalWeight(x));
    }
  }

  lemma {:induction false} ScoreSplits(a: seq<MethodResult>, b: seq<MethodResult>)
    ensures TotalWeight(a + b) == TotalWeight(a) + TotalWeight(b) && Moment(a + b) == Moment(a) + Moment(b)
  {
    hide Mul;
    if b == [] {
      assert a + b == a;
    } else {
      ScoreSplits(a, b[..|b| - 1]);
      assert (a + b)[..|a + b| - 1] == a + b[..|b| - 1];
    }
  }

  lemma SumsAreOrderFree(a: seq<MethodResult>, b: seq<MethodResult>)
    requires multiset(a) == multiset(b)
    ensures TotalWeight(a) == TotalWeight(b) && Moment(a) == Moment(b)
  {
    hide Mul;
    forall l: seq<MethodResult>, x: MethodResult, r: seq<MethodResult>
      ensures TotalWeight(l + [x] + r) == TotalWeight(l + r + [x]) && Moment(l + [x] + r) == Moment(l + r + [x])
    {
      ScoreSplits(l + [x], r);
      ScoreSplits(l, [x]);
      ScoreSplits(l + r, [x]);
      ScoreSplits(l, r);
    }
    forall l: seq<MethodResult>, r: seq<MethodResult>, x: MethodResult
      ensures TotalWeight(l) == TotalWeight(r) ==> TotalWeight(l + [x]) == TotalWeight(r + [x])
      ensures Moment(l) == Moment(r) ==> Moment(l + [x]) == Moment(r + [x])
    {
      ScoreSplits(l, [x]);
      ScoreSplits(r, [x]);
    }
    OrderIrrelevant(TotalWeight, a, b);
    OrderIrrelevant(Moment, a, b);
  }

  lemma {:induction false} KeepMultiset(s: seq<MethodResult>, r: MethodResult)
    ensures multiset(Successful(s))[r] == if r.success then multiset(s)[r] else 0
  {
    if s == [] {
    } else {
      var init, last := s[..|s| - 1], s[|s| - 1];
      assert s == init + [last];
      KeepMultiset(init, r);
    }
  }

  /** Only the total weight and the moment of the successes matter. */
  lemma ScoreFromSums(a: seq<MethodResult>, b: seq<MethodResult>)
    requires TotalWeight(Successful(a)) == TotalWeight(Successful(b))
    requires Moment(Successful(a)) == Moment(Successful(b))
    ensures Score(a) == Score(b)
  {
    hide Keep, Mul, TotalWeight, WeightedSum, Moment;
    NoWeight();
    var x, y, total := Successful(a), Successful(b), TotalWeight(Successful(a));
    if total > 0.0 {
      SumIsFraction(x, total);
      SumIsFraction(y, total);
      Cancel(WeightedSum(x, total), WeightedSum(y, total), total);
      Cancel(WeightedSum(y, total), WeightedSum(x, total), total);
    }
  }

  /** The order in which methods report does not matter. */
  lemma {:induction false} ScoreIsOrderFree(a: seq<MethodResult>, b: seq<MethodResult>)
    requires multiset(a) == multiset(b)
    ensures Score(a) == Score(b)
  {
    hide Keep, Mul, TotalWeight, WeightedSum, Moment, Score;
    forall r
      ensures multiset(Successful(a))[r] == multiset(Successful(b))[r]
    {
      KeepMultiset(a, r);
      KeepMultiset(b, r);
    }
    assert multiset(Successful(a)) == multiset(Successful(b));
    SumsAreOrderFree(Successful(a), Successful(b));
    ScoreFromSums(a, b);
  }

  /** A failed method weighs nothing. */
  lemma FailuresAreIgnored(rs: seq<MethodResult>, failed: MethodResult)
    requires !failed.success
    ensures Score(rs + [failed]) == Score(rs)
  {
    KeepAppend(rs, failed, Succeeds());
    assert Successful(rs + [failed]) == Successful(rs);
  }

  /** What the two sums are. */
  lemma SumsMean(rs: seq<MethodResult>, r: MethodResult)
    ensures TotalWeight([]) == 0.0 && Moment([]) == 0.0
    ensures TotalWeight(rs + [r]) == TotalWeight(rs) + r.weight
    ensures Moment(rs + [r]) == Moment(rs) + r.score * r.weight
  {
    assert (rs + [r])[..|rs + [r]| - 1] == rs;
  }

  /** The score of any results, in range or not: the weighted mean of the successes,
      cut to [0, 1], or zero when they weigh nothing. */
  lemma ScoreMeans(rs: seq<MethodResult>, mean: real)
    ensures TotalWeight(Successful(rs)) <= 0.0 ==> Score(rs) == 0.0
    ensures TotalWeight(Successful(rs)) > 0.0 && mean * TotalWeight(Successful(rs)) == Moment(Successful(rs)) ==>
              Score(rs) == if mean < 0.0 then 0.0 else if mean > 1.0 then 1.0 else mean
  {
    hide Keep, TotalWeight, WeightedSum, Moment;
    var ok, total := Successful(rs), TotalWeight(Successful(rs));
    NoWeight();
    if total > 0.0 && mean * total == Moment(ok) {
      SumIsFraction(ok, total);
      Cancel(WeightedSum(ok, total), mean, total);
      Cancel(mean, WeightedSum(ok, total), total);
    }
  }

  /** Without any weight among the successes the score is zero. */
  lemma NoWeightNoScore(rs: seq<MethodResult>)
    requires Valid(rs) && forall r :: r in rs && r.success ==> r.weight == 0.0
    ensures Score(rs) == 0.0
  {
    hide Keep, Mul;
    forall r
      ensures r in Successful(rs) <==> r in rs && r.success
    {
      KeepMember(rs, Succeeds(), r);
    }
    Weightless(Successful(rs));
  }

  lemma {:induction false} Weightless(rs: seq<MethodResult>)
    requires forall r :: r in rs ==> r.weight == 0.0
    ensures TotalWeight(rs) == 0.0
  {
    if rs == [] {
    } else {
      assert rs[|rs| - 1] in rs;
      Weightless(rs[..|rs| - 1]);
    }
  }

  // ----- completing an asynchronous run -----

  datatype Weights = Weights(rule: real, anomaly: real, ml: real)

  function WeightOf(w: Weights, kind: Method): real {
    match kind
    case RuleEngine => w.rule
    case AnomalyDetector => w.anomaly
    case MlModel => w.ml
  }

  function TimedOut(w: Weights, kind: Method): MethodResult { MethodResult(kind, 0.0, WeightOf(w, kind), false) }

  predicate Reports(rs: seq<MethodResult>, kind: Method) { exists i :: 0 <= i < |rs| && rs[i].kind == kind }

  function FillIn(w: Weights, present: seq<MethodResult>, rs: seq<MethodResult>, kind: Method): seq<MethodResult> {
    if Reports(present, kind) then rs else rs + [TimedOut(w, kind)]
  }

  /** Missing methods are appended as failed. */
  function Complete(w: Weights, present: seq<MethodResult>): seq<MethodResult> {
    FillIn(w, present, FillIn(w, present, FillIn(w, present, present, RuleEngine), AnomalyDetector), MlModel)
  }

  ghost predicate OnePerMethod(rs: seq<MethodResult>) {
    forall i, j :: 0 <= i < j < |rs| ==> rs[i].kind != rs[j].kind
  }

  /** What the synchronous call would list: every method in order, the given
      result or a failure. */
  function Pick(w: Weights, present: seq<MethodResult>, kind: Method): MethodResult {
    if present == [] then TimedOut(w, kind)
    else if present[0].kind == kind then present[0]
    else Pick(w, present[1..], kind)
  }

  function Synchronous(w: Weights, present: seq<MethodResult>): seq<MethodResult> {
    [Pick(w, present, RuleEngine), Pick(w, present, AnomalyDetector), Pick(w, present, MlModel)]
  }

  lemma {:induction false} PickIs(w: Weights, present: seq<MethodResult>, kind: Method)
    ensures Pick(w, present, kind).kind == kind
    ensures Reports(present, kind) ==> Pick(w, present, kind) in present
    ensures !Reports(present, kind) ==> Pick(w, present, kind) == TimedOut(w, kind)
  {
    if present == [] {
    } else {
      PickIs(w, present[1..], kind);
      if Reports(present, kind) && present[0].kind != kind {
        var i :| 0 <= i < |present| && present[i].kind == kind;
        assert present[1..][i - 1].kind == kind;
      }
      if Reports(present[1..], kind) {
        var i :| 0 <= i < |present[1..]| && present[1..][i].kind == kind;
        assert present[i + 1].kind == kind;
      }
    }
  }

  lemma {:induction false} CountOne(rs: seq<MethodResult>, r: MethodResult)
    requires OnePerMethod(rs)
    ensures multiset(rs)[r] == if r in rs then 1 else 0
  {
    if rs == [] {
    } else {
      var init, last := rs[..|rs| - 1], rs[|rs| - 1];
      assert rs == init + [last];
      CountOne(init, r);
      assert last !in init;
    }
  }

  lemma FillInAdds(w: Weights, present: seq<MethodResult>, rs: seq<MethodResult>, kind: Method)
    requires OnePerMethod(rs) && (Reports(rs, kind) ==> Reports(present, kind))
    ensures OnePerMethod(FillIn(w, present, rs, kind))
    ensures forall k :: Reports(FillIn(w, present, rs, kind), k)
                        <==> Reports(rs, k) || (k == kind && !Reports(present, kind))
    ensures forall r :: r in FillIn(w, present, rs, kind) <==>
                        r in rs || (!Reports(present, kind) && r == TimedOut(w, kind))
  {
    var filled := FillIn(w, present, rs, kind);
    forall k
      ensures Reports(filled, k) <==> Reports(rs, k) || (k == kind && !Reports(present, kind))
    {
      if Reports(rs, k) {
        var i :| 0 <= i < |rs| && rs[i].kind == k;
        assert filled[i].kind == k;
      }
      if k == kind && !Reports(present, kind) {
        assert filled[|rs|].kind == k;
      }
    }
  }

  /** The completed list holds each of the three methods once: the results that
      arrived and a failure for every other method. */
  lemma CompleteIs(w: Weights, present: seq<MethodResult>)
    requires OnePerMethod(present)
    ensures OnePerMethod(Complete(w, present))
    ensures forall k :: Reports(Complete(w, present), k)
    ensures forall r :: r in Complete(w, present)
                        <==> r in present || (!Reports(present, r.kind) && r == TimedOut(w, r.kind))
  {
    hide FillIn, OnePerMethod, Reports;
    var one := FillIn(w, present, present, RuleEngine);
    var two := FillIn(w, present, one, AnomalyDetector);
    FillInAdds(w, present, present, RuleEngine);
    FillInAdds(w, present, one, AnomalyDetector);
    FillInAdds(w, present, two, MlModel);
    forall r
      ensures r in Complete(w, present) <==> r in present || (!Reports(present, r.kind) && r == TimedOut(w, r.kind))
    {
      match r.kind { case RuleEngine => case AnomalyDetector => case MlModel => }
    }
    forall k
      ensures Reports(Complete(w, present), k)
    {
      match k { case RuleEngine => case AnomalyDetector => case MlModel => }
    }
  }

  /** A method that did not report is listed as failed, with score zero. */
  lemma MissingFails(w: Weights, present: seq<MethodResult>, r: MethodResult)
    requires OnePerMethod(present) && r in Complete(w, present) && r !in present
    ensures !r.success && r.score == 0.0
    ensures r.weight == match r.kind case RuleEngine => w.rule case AnomalyDetector => w.anomaly case MlModel => w.ml
    ensures forall x :: x in present ==> x.kind != r.kind
  {
    hide Complete;
    CompleteIs(w, present);
    forall x | x in present
      ensures x.kind != r.kind
    {
      var i :| 0 <= i < |present| && present[i] == x;
    }
  }

  lemma SynchronousIs(w: Weights, present: seq<MethodResult>)
    requires OnePerMethod(present)
    ensures OnePerMethod(Synchronous(w, present))
    ensures forall r :: r in Synchronous(w, present)
                        <==> r in present || (!Reports(present, r.kind) && r == TimedOut(w, r.kind))
  {
    hide Pick;
    PickIs(w, present, RuleEngine);
    PickIs(w, present, AnomalyDetector);
    PickIs(w, present, MlModel);
    forall r
      ensures r in Synchronous(w, present) <==> r in present || (!Reports(present, r.kind) && r == TimedOut(w, r.kind))
    {
      PickIs(w, present, r.kind);
      if r in present {
        var i :| 0 <= i < |present| && present[i] == r;
        assert Reports(present, r.kind);
        var j :| 0 <= j < |present| && present[j] == Pick(w, present, r.kind);
        assert i == j;
      }
      match r.kind { case RuleEngine => case AnomalyDetector => case MlModel => }
    }
  }

  /** Whatever subset of methods an asynchronous run hears from, in whatever
      order, its score is the synchronous one with the rest failed, and it
      always lists three methods. */
  lemma {:induction false} AsyncEqualsSync(w: Weights, present: seq<MethodResult>)
    requires OnePerMethod(present)
    ensures Score(Complete(w, present)) == Score(Synchronous(w, present))
    ensures |Complete(w, present)| == 3
    ensures multiset(Complete(w, present)) == multiset(Synchronous(w, present))
  {
    hide Score, Complete, Synchronous, Reports, OnePerMethod;
    var a, b := Complete(w, present), Synchronous(w, present);
    CompleteIs(w, present);
    SynchronousIs(w, present);
    forall r
      ensures multiset(a)[r] == multiset(b)[r]
    {
      CountOne(a, r);
      CountOne(b, r);
    }
    assert multiset(a) == multiset(b);
    ThreeMethods(w, present);
    assert |a| == |multiset(a)| == |multiset(b)| == |b|;
    ScoreIsOrderFree(a, b);
  }

  lemma ThreeMethods(w: Weights, present: seq<MethodResult>)
    ensures |Synchronous(w, present)| == 3
  {
  }

  // ----- risk classes -----

  datatype Thresholds = Thresholds(medium: real, high: real, critical: real)

  /** 0 low, 1 medium, 2 high, 3 critical. */
  function Classify(t: Thresholds, score: real): nat {
    if score >= t.critical then 3 else if score >= t.high then 2 else if score >= t.medium then 1 else 0
  }

  /** A score is critical from its threshold on, else high from its own, else
      medium from its own, else low. */
  lemma ClassMeans(t: Thresholds, score: real)
    ensures Classify(t, score) == 3 <==> score >= t.critical
    ensures Classify(t, score) == 2 <==> score < t.critical && score >= t.high
    ensures Classify(t, score) == 1 <==> score < t.critical && score < t.high && score >= t.medium
    ensures Classify(t, score) == 0 <==> score < t.critical && score < t.high && score < t.medium
  {
  }

  /** A higher score never falls into a lower class, even when the thresholds
      are not in order. */
  lemma RiskIsMonotone(t: Thresholds, a: seq<MethodResult>, b: seq<MethodResult>)
    requires Dominates(a, b) && Valid(a) && Valid(b)
    ensures Classify(t, Score(b)) <= Classify(t, Score(a))
  {
    hide Score, TotalWeight, Keep;
    ScoreIsMonotone(a, b);
  }
}
