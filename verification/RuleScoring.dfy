/** Combining rule matches: noisy-OR confidence, severity escalation by number
    of matches, and the rule score, all with the rounding the engine applies. */
module RuleScoring {
  import opened Permutations
  import opened Reals

  datatype Match = Match(severity: string, confidence: real, category: string)

  datatype Escalation = Escalation(enabled: bool, rulesPerTier: int)

  const CRITICAL: nat := 3

  /** Unknown severities rank lowest. */
  function SeverityIndex(s: string): (i: nat)
    ensures i <= CRITICAL
  {
    if s == "medium" then 1 else if s == "high" then 2 else if s == "critical" then 3 else 0
  }

  function Highest(ms: seq<Match>): (i: nat)
    ensures i <= CRITICAL
  {
    if ms == [] then 0
    else
      var rest, last := Highest(ms[..|ms| - 1]), SeverityIndex(ms[|ms| - 1].severity);
      if last > rest then last else rest
  }

  function Min(a: nat, b: nat): nat { if a <= b then a else b }

  /** How many tiers the further matches are worth. */
  function Tiers(matches: nat, rulesPerTier: int): nat
    requires rulesPerTier >= 1
  {
    (if matches == 0 then 0 else matches - 1) / rulesPerTier
  }

  /** The combined severity, as an index. */
  function CombinedSeverity(e: Escalation, ms: seq<Match>): nat
    requires e.rulesPerTier >= 1
  {
    if ms == [] then 0
    else if e.enabled && |ms| > 1 then Min(Highest(ms) + Tiers(|ms|, e.rulesPerTier), CRITICAL)
    else Highest(ms)
  }

  /** The probability that no match is right. */
  function AllWrong(ms: seq<Match>): real {
    if ms == [] then 1.0 else Mul(AllWrong(ms[..|ms| - 1]), 1.0 - ms[|ms| - 1].confidence)
  }

  /** To four decimals. */
  function Round4(x: real): real { RoundInt(10000.0 * x) as real / 10000.0 }

  function CombinedConfidence(ms: seq<Match>): real {
    if ms == [] then 0.0 else Round4(1.0 - AllWrong(ms))
  }

  function Categories(ms: seq<Match>): set<string> { set m | m in ms :: m.category }

  function Diversity(ms: seq<Match>): real {
    var n := |Categories(ms)|;
    if n >= 5 then 1.0 else n as real / 5.0
  }

  function RawScore(ms: seq<Match>): real {
    0.5 * CombinedConfidence(ms) + 0.3 * (Highest(ms) as real / 3.0) + 0.2 * Diversity(ms)
  }

  function RuleScore(ms: seq<Match>): real {
    if ms == [] then 0.0 else Round4(if RawScore(ms) > 1.0 then 1.0 else RawScore(ms))
  }

  ghost predicate Valid(ms: seq<Match>) { forall m :: m in ms ==> 0.0 <= m.confidence <= 1.0 }

  // ----- rounding -----

  lemma RoundIntNear(x: real)
    ensures -0.5 <= x - RoundInt(x) as real <= 0.5
  {
  }

  lemma RoundIntMonotone(x: real, y: real)
    requires x <= y
    ensures RoundInt(x) <= RoundInt(y)
  {
    var f, g := x.Floor, y.Floor;
    assert f <= g by {
      assert f as real <= x && y < g as real + 1.0;
    }
  }

  lemma Round4Monotone(x: real, y: real)
    requires x <= y
    ensures Round4(x) <= Round4(y)
  {
    RoundIntMonotone(10000.0 * x, 10000.0 * y);
  }

  lemma Round4Ends()
    ensures Round4(0.0) == 0.0 && Round4(1.0) == 1.0
  {
    assert (10000.0 * 0.0).Floor == 0 && (10000.0 * 1.0).Floor == 10000;
  }

  /** Rounding keeps [0, 1] and moves a score by at most half a unit. */
  lemma Round4Range(x: real)
    requires 0.0 <= x <= 1.0
    ensures 0.0 <= Round4(x) <= 1.0 && -0.00005 <= x - Round4(x) <= 0.00005
  {
    Round4Ends();
    Round4Monotone(0.0, x);
    Round4Monotone(x, 1.0);
    RoundIntNear(10000.0 * x);
  }

  // ----- noisy-OR -----

  lemma Shrinks(p: real, c: real)
    requires 0.0 <= p <= 1.0 && 0.0 <= c <= 1.0
    ensures 0.0 <= Mul(p, 1.0 - c) <= p
  {
    NonnegativeProduct(p, c);
    NonnegativeProduct(p, 1.0 - c);
    assert p * (1.0 - c) == p - p * c;
  }

  lemma {:induction false} AllWrongRange(ms: seq<Match>)
    requires Valid(ms)
    ensures 0.0 <= AllWrong(ms) <= 1.0
  {
    hide Mul;
    if ms == [] {
    } else {
      var init, last := ms[..|ms| - 1], ms[|ms| - 1];
      assert ms == init + [last] && last in ms;
      AllWrongRange(init);
      Shrinks(AllWrong(init), last.confidence);
    }
  }

  lemma AllWrongAppend(ms: seq<Match>, m: Match)
    ensures AllWrong(ms + [m]) == Mul(AllWrong(ms), 1.0 - m.confidence)
  {
    hide Mul;
    assert (ms + [m])[..|ms + [m]| - 1] == ms;
  }

  /** The product splits over concatenation. */
  lemma {:induction false} AllWrongConcat(a: seq<Match>, b: seq<Match>)
    ensures AllWrong(a + b) == Mul(AllWrong(a), AllWrong(b))
  {
    hide Mul, AllWrong;
    if b == [] {
      assert a + b == a;
      EmptyProduct();
      MulFacts(AllWrong(a), 1.0, 1.0);
    } else {
      var init, last := b[..|b| - 1], b[|b| - 1];
      AllWrongConcat(a, init);
      assert a + b == (a + init) + [last] && b == init + [last];
      AllWrongAppend(a + init, last);
      AllWrongAppend(init, last);
      MulFacts(AllWrong(a), AllWrong(init), 1.0 - last.confidence);
    }
  }

  lemma AllWrongMoves(l: seq<Match>, x: Match, r: seq<Match>)
    ensures AllWrong(l + [x] + r) == AllWrong(l + r + [x])
  {
    hide Mul, AllWrong;
    AllWrongConcat(l + [x], r);
    AllWrongAppend(l, x);
    AllWrongAppend(l + r, x);
    AllWrongConcat(l, r);
    MulFacts(AllWrong(l), 1.0 - x.confidence, AllWrong(r));
  }

  lemma AllWrongOrderFree(a: seq<Match>, b: seq<Match>)
    requires multiset(a) == multiset(b)
    ensures AllWrong(a) == AllWrong(b)
  {
    hide Mul, AllWrong;
    forall l: seq<Match>, x: Match, r: seq<Match>
      ensures AllWrong(l + [x] + r) == AllWrong(l + r + [x])
    {
      AllWrongMoves(l, x, r);
    }
    forall l: seq<Match>, r: seq<Match>, x: Match
      ensures AllWrong(l) == AllWrong(r) ==> AllWrong(l + [x]) == AllWrong(r + [x])
    {
      AllWrongAppend(l, x);
      AllWrongAppend(r, x);
    }
    OrderIrrelevant(AllWrong, a, b);
  }

  // ----- severity and categories -----

  lemma {:induction false} HighestIs(ms: seq<Match>)
    ensures forall m :: m in ms ==> SeverityIndex(m.severity) <= Highest(ms)
    ensures ms != [] ==> exists m :: m in ms && SeverityIndex(m.severity) == Highest(ms)
  {
    if ms == [] {
    } else {
      var init, last := ms[..|ms| - 1], ms[|ms| - 1];
      assert ms == init + [last] && last in ms;
      HighestIs(init);
      if SeverityIndex(last.severity) < Highest(init) {
        var m :| m in init && SeverityIndex(m.severity) == Highest(init);
        assert m in ms;
      }
    }
  }

  lemma SameMembers(a: seq<Match>, b: seq<Match>)
    requires multiset(a) == multiset(b)
    ensures |a| == |b| && Highest(a) == Highest(b) && Categories(a) == Categories(b)
  {
    assert |a| == |multiset(a)| == |multiset(b)| == |b|;
    assert forall m :: m in a <==> m in multiset(a);
    assert forall m :: m in b <==> m in multiset(b);
    HighestIs(a);
    HighestIs(b);
  }

  lemma HighestGrows(ms: seq<Match>, m: Match)
    ensures Highest(ms) <= Highest(ms + [m]) && SeverityIndex(m.severity) <= Highest(ms + [m])
  {
    assert (ms + [m])[..|ms + [m]| - 1] == ms;
  }

  lemma CategoriesGrow(ms: seq<Match>, m: Match)
    ensures Categories(ms) <= Categories(ms + [m])
  {
  }

  lemma DiversityGrows(ms: seq<Match>, m: Match)
    ensures 0.0 <= Diversity(ms) <= Diversity(ms + [m]) <= 1.0
  {
    hide Categories;
    var a, b := Categories(ms), Categories(ms + [m]);
    CategoriesGrow(ms, m);
    assert |a| <= |b| by {
      assert b == a + (b - a);
    }
  }

  lemma QuotientCore(x: int, k: int, q: int, d: int, r: int)
    requires k >= 1 && x == k * d + r && 0 <= r < k && k * q <= x
    ensures q <= d
  {
    var m := q - d;
    assert k * m == k * q - k * d;
    if m >= 1 {
      assert k * m >= k by { AtLeastOnce(k, m); }
    }
  }

  lemma AtLeastOnce(k: int, m: int)
    requires k >= 1 && m >= 1
    ensures k * m >= k
  {
  }

  lemma TiersGrow(n: nat, k: int)
    requires k >= 1
    ensures Tiers(n, k) <= Tiers(n + 1, k)
  {
    var x := if n == 0 then 0 else n - 1;
    QuotientCore(n, k, x / k, n / k, n % k);
  }

  // ----- the promises -----

  /** None of the three depends on the order of the matches. */
  lemma {:induction false} ScoresAreOrderFree(e: Escalation, a: seq<Match>, b: seq<Match>)
    requires e.rulesPerTier >= 1 && multiset(a) == multiset(b)
    ensures CombinedSeverity(e, a) == CombinedSeverity(e, b)
    ensures CombinedConfidence(a) == CombinedConfidence(b)
    ensures RuleScore(a) == RuleScore(b)
  {
    hide AllWrong, Round4, Categories;
    SameMembers(a, b);
    AllWrongOrderFree(a, b);
  }

  /** Confidence stays in [0, 1]. */
  lemma ConfidenceInRange(ms: seq<Match>)
    requires Valid(ms)
    ensures 0.0 <= CombinedConfidence(ms) <= 1.0
  {
    hide AllWrong, Round4;
    AllWrongRange(ms);
    Round4Range(1.0 - AllWrong(ms));
  }

  lemma ConfidenceGrows(ms: seq<Match>, m: Match)
    requires Valid(ms + [m])
    ensures CombinedConfidence(ms) <= CombinedConfidence(ms + [m])
  {
    hide AllWrong, Round4, Mul;
    assert m in ms + [m] && forall x :: x in ms ==> x in ms + [m];
    if ms == [] {
      ConfidenceInRange(ms + [m]);
    } else {
      AllWrongAppend(ms, m);
      AllWrongRange(ms);
      Shrinks(AllWrong(ms), m.confidence);
      Round4Monotone(1.0 - AllWrong(ms), 1.0 - AllWrong(ms + [m]));
    }
  }

  lemma SeverityGrows(e: Escalation, ms: seq<Match>, m: Match)
    requires e.rulesPerTier >= 1
    ensures CombinedSeverity(e, ms) <= CombinedSeverity(e, ms + [m]) <= CRITICAL
    ensures Highest(ms + [m]) <= CombinedSeverity(e, ms + [m])
  {
    hide Tiers;
    HighestGrows(ms, m);
    TiersGrow(|ms|, e.rulesPerTier);
  }

  lemma RawScoreGrows(ms: seq<Match>, m: Match)
    requires Valid(ms + [m])
    ensures RawScore(ms) <= RawScore(ms + [m]) && 0.0 <= RawScore(ms + [m]) <= 1.0
  {
    hide CombinedConfidence, Diversity;
    ConfidenceGrows(ms, m);
    ConfidenceInRange(ms + [m]);
    HighestGrows(ms, m);
    DiversityGrows(ms, m);
  }

  /** A further match never lowers the severity, the confidence or the score,
      and all three stay in range, rounding included. The cap at one is never
      reached from above. */
  lemma {:induction false} MoreMatchesNeverLower(e: Escalation, ms: seq<Match>, m: Match)
    requires e.rulesPerTier >= 1 && Valid(ms + [m])
    ensures CombinedSeverity(e, ms) <= CombinedSeverity(e, ms + [m]) <= CRITICAL
    ensures Highest(ms + [m]) <= CombinedSeverity(e, ms + [m])
    ensures CombinedConfidence(ms) <= CombinedConfidence(ms + [m]) <= 1.0
    ensures 0.0 <= RuleScore(ms) <= RuleScore(ms + [m]) <= 1.0
  {
    hide CombinedConfidence, RawScore, Round4, CombinedSeverity;
    SeverityGrows(e, ms, m);
    ConfidenceGrows(ms, m);
    ConfidenceInRange(ms + [m]);
    RawScoreGrows(ms, m);
    Round4Range(RawScore(ms + [m]));
    if ms == [] {
    } else {
      Round4Monotone(RawScore(ms), RawScore(ms + [m]));
      var init, last := ms[..|ms| - 1], ms[|ms| - 1];
      assert ms == init + [last];
      assert forall x :: x in ms ==> x in ms + [m];
      RawScoreGrows(init, last);
      Round4Range(RawScore(ms));
    }
  }

  // ----- what the numbers are -----

  /** The nearest multiple of 0.0001, of two the even one. */
  lemma RoundingMeans(x: real) returns (k: int)
    ensures Round4(x) == k as real / 10000.0 && -0.5 <= 10000.0 * x - k as real <= 0.5
    ensures 10000.0 * x - k as real == 0.5 || 10000.0 * x - k as real == -0.5 ==> k % 2 == 0
  {
    k := RoundInt(10000.0 * x);
  }

  /** The probability that no match is right is the product of theirs. */
  lemma NoisyOrMeans(ms: seq<Match>, m: Match)
    ensures AllWrong([]) == 1.0 && AllWrong(ms + [m]) == AllWrong(ms) * (1.0 - m.confidence)
    ensures CombinedConfidence([]) == 0.0
    ensures ms != [] ==> -0.00005 <= CombinedConfidence(ms) - (1.0 - AllWrong(ms)) <= 0.00005
  {
    AllWrongAppend(ms, m);
    RoundIntNear(10000.0 * (1.0 - AllWrong(ms)));
  }

  /** The combined severity: 0 without matches; otherwise that of the gravest match,
      one higher for each full tier of further matches, up to critical. */
  lemma SeverityMeans(e: Escalation, ms: seq<Match>, h: nat)
    requires e.rulesPerTier >= 1
    requires forall m :: m in ms ==> SeverityIndex(m.severity) <= h
    requires exists m :: m in ms && SeverityIndex(m.severity) == h
    ensures CombinedSeverity(e, []) == 0
    ensures CombinedSeverity(e, ms) ==
            var raised := if e.enabled && |ms| > 1 then h + (|ms| - 1) / e.rulesPerTier else h;
            if raised <= 3 then raised else 3
    ensures SeverityIndex("critical") == 3 && SeverityIndex("high") == 2 && SeverityIndex("medium") == 1
    ensures forall s :: s !in {"critical", "high", "medium"} ==> SeverityIndex(s) == 0
  {
    HighestIs(ms);
  }

  /** The rule score is half the noisy-OR confidence, a tenth for each step of the
      gravest severity and a twenty-fifth for each category up to five, to within
      the two roundings; 0 without matches. */
  lemma RuleScoreMeans(ms: seq<Match>, h: nat)
    requires Valid(ms)
    requires forall m :: m in ms ==> SeverityIndex(m.severity) <= h
    requires exists m :: m in ms && SeverityIndex(m.severity) == h
    ensures RuleScore([]) == 0.0
    ensures var n := |set m | m in ms :: m.category|;
            var exact := 0.5 * (1.0 - AllWrong(ms)) + 0.1 * h as real + 0.04 * (if n >= 5 then 5 else n) as real;
            -0.000075 <= RuleScore(ms) - exact <= 0.000075
  {
    hide AllWrong, Round4;
    HighestIs(ms);
    ConfidenceInRange(ms);
    AllWrongRange(ms);
    Round4Range(1.0 - AllWrong(ms));
    assert Diversity(ms) <= 1.0 && Diversity(ms) >= 0.0;
    assert RawScore(ms) <= 1.0;
    Round4Range(RawScore(ms));
  }

  // ----- the loop -----

  lemma EmptyProduct()
    ensures AllWrong([]) == 1.0
  {
  }

  /** The running product of the engine computes the noisy-OR. */
  method CombineConfidence(ms: seq<Match>) returns (c: real)
    ensures c == CombinedConfidence(ms)
    ensures Valid(ms) ==> 0.0 <= c <= 1.0
  {
    hide Mul, Round4, AllWrong;
    if Valid(ms) {
      ConfidenceInRange(ms);
    }
    if ms == [] {
      return 0.0;
    }
    var combined := 1.0;
    EmptyProduct();
    for i := 0 to |ms|
      invariant combined == AllWrong(ms[..i])
    {
      assert ms[..i + 1] == ms[..i] + [ms[i]];
      AllWrongAppend(ms[..i], ms[i]);
      combined := Mul(combined, 1.0 - ms[i].confidence);
    }
    assert ms[..|ms|] == ms;
    return Round4(1.0 - combined);
  }
}
