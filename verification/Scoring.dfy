/** From a raw score to a tier: momentum, tier floors and confidence, over the reals. */
module Scoring {
  import opened Prelude

  datatype Tier = Simple | Standard | Complex | Reasoning

  function Rank(t: Tier): nat {
    match t
    case Simple => 0
    case Standard => 1
    case Complex => 2
    case Reasoning => 3
  }

  datatype Boundaries = Boundaries(simpleMax: real, standardMax: real, complexMax: real)

  datatype Config = Config(boundaries: Boundaries, confidenceK: real, confidenceThreshold: real)

  const DEFAULT_CONFIG := Config(Boundaries(-0.1, 0.08, 0.35), 8.0, 0.45)

  predicate Ordered(b: Boundaries) {
    b.simpleMax <= b.standardMax < b.complexMax
  }

  /** All that is used of the exponential. */
  ghost predicate IsExp(exp: real -> real) {
    exp(0.0) == 1.0 && (forall x :: exp(x) > 0.0) && forall x, y | x <= y :: exp(x) <= exp(y)
  }

  // ----- momentum -----------------------------------------------------------------------------------------

  const MAX_HISTORY: nat := 5

  function TierScore(t: Tier): real {
    match t
    case Simple => -0.2
    case Standard => 0.0
    case Complex => 0.2
    case Reasoning => 0.4
  }

  function Weight(length: nat): real {
    if length > 100 then 0.0
    else if length >= 30 then 0.3 * (1.0 - (length - 30) as real / 70.0)
    else 0.3 + 0.3 * (1.0 - length as real / 30.0)
  }

  function HistorySum(tiers: seq<Tier>): real {
    if tiers == [] then 0.0 else HistorySum(tiers[..|tiers| - 1]) + TierScore(tiers[|tiers| - 1])
  }

  function Recent(tiers: seq<Tier>): seq<Tier> {
    if |tiers| <= MAX_HISTORY then tiers else tiers[..MAX_HISTORY]
  }

  function HistoryAverage(tiers: seq<Tier>): real
    requires tiers != []
  {
    HistorySum(Recent(tiers)) / (|Recent(tiers)| as real)
  }

  function Blend(raw: real, length: nat, tiers: seq<Tier>): real {
    if tiers == [] then raw else (1.0 - Weight(length)) * raw + Weight(length) * HistoryAverage(tiers)
  }

  predicate Applied(raw: real, length: nat, tiers: seq<Tier>) {
    tiers != [] && Weight(length) > 0.0 && Blend(raw, length, tiers) != raw
  }

  datatype Momentum = Momentum(score: real, historyLength: nat, average: real, weight: real, applied: bool)

  /** The loop that averages the most recent tiers. */
  method AverageRecent(tiers: seq<Tier>) returns (average: real, n: nat)
    requires tiers != []
    ensures average == HistoryAverage(tiers) && n == |Recent(tiers)|
  {
    var slice := if |tiers| <= MAX_HISTORY then tiers else tiers[..MAX_HISTORY];
    var sum := 0.0;
    var i := 0;
    while i < |slice|
      invariant i <= |slice| && sum == HistorySum(slice[..i])
    {
      assert slice[..i + 1][..i] == slice[..i];
      sum := sum + TierScore(slice[i]);
      i := i + 1;
    }
    assert slice[..i] == slice;
    return sum / (|slice| as real), |slice|;
  }

  method ApplyMomentum(raw: real, length: nat, tiers: seq<Tier>) returns (m: Momentum)
    ensures m.score == Blend(raw, length, tiers) && m.applied == Applied(raw, length, tiers)
    ensures tiers != [] ==> m.weight == Weight(length) && m.average == HistoryAverage(tiers) && m.historyLength == |Recent(tiers)|
    ensures tiers == [] ==> m == Momentum(raw, 0, 0.0, 0.0, false)
  {
    if |tiers| == 0 {
      return Momentum(raw, 0, 0.0, 0.0, false);
    }
    var weight: real;
    if length > 100 {
      weight := 0.0;
    } else if length >= 30 {
      weight := 0.3 * (1.0 - (length - 30) as real / 70.0);
    } else {
      weight := 0.3 + 0.3 * (1.0 - length as real / 30.0);
    }
    var average, n := AverageRecent(tiers);
    var effective := (1.0 - weight) * raw + weight * average;
    return Momentum(effective, n, average, weight, weight > 0.0 && effective != raw);
  }

  /** The weight lies in [0, 0.6] and never grows with the length of the message. */
  lemma WeightFalls(a: nat, b: nat)
    requires a <= b
    ensures 0.0 <= Weight(b) <= Weight(a) <= 0.6
  {
    var x, y := a as real, b as real;
    assert x <= y;
    WeightAt(a);
    WeightAt(b);
    assert a >= 30 ==> 0.3 * (1.0 - (x - 30.0) / 70.0) >= 0.3 * (1.0 - (y - 30.0) / 70.0);
    assert x / 30.0 <= y / 30.0;
  }

  lemma WeightAt(n: nat)
    ensures n < 30 ==> 0.3 <= Weight(n) <= 0.6
    ensures 30 <= n <= 100 ==> 0.0 <= Weight(n) <= 0.3
  {
    var x := n as real;
    if n < 30 {
      assert 0.0 <= x / 30.0 <= 1.0;
    } else if n <= 100 {
      assert (n - 30) as real == x - 30.0;
      assert 0.0 <= (x - 30.0) / 70.0 <= 1.0;
    }
  }

  lemma {:induction false} HistorySumBounds(tiers: seq<Tier>)
    ensures -0.2 * (|tiers| as real) <= HistorySum(tiers) <= 0.4 * (|tiers| as real)
  {
    if tiers != [] {
      HistorySumBounds(tiers[..|tiers| - 1]);
      assert |tiers| as real == (|tiers| - 1) as real + 1.0;
    }
  }

  lemma AverageBounds(tiers: seq<Tier>)
    requires tiers != []
    ensures -0.2 <= HistoryAverage(tiers) <= 0.4
  {
    var n := |Recent(tiers)| as real;
    HistorySumBounds(Recent(tiers));
    DivideBounds(HistorySum(Recent(tiers)), n, -0.2, 0.4);
  }

  lemma DivideBounds(s: real, n: real, lo: real, hi: real)
    requires n > 0.0 && lo * n <= s <= hi * n
    ensures lo <= s / n <= hi
  {
    var q := s / n;
    assert q * n == s;
    LessTimes(q, lo, n);
    LessTimes(hi, q, n);
  }

  lemma ProductIsNonNegative(x: real, y: real)
    requires x >= 0.0 && y >= 0.0
    ensures x * y >= 0.0
  {
  }

  lemma ConvexBetween(w: real, a: real, b: real)
    requires 0.0 <= w <= 1.0
    ensures (if a <= b then a else b) <= (1.0 - w) * a + w * b <= (if a <= b then b else a)
  {
    var m := (1.0 - w) * a + w * b;
    assert m - a == w * (b - a);
    assert b - m == (1.0 - w) * (b - a);
    if a <= b {
      ProductIsNonNegative(w, b - a);
      ProductIsNonNegative(1.0 - w, b - a);
    } else {
      ProductIsNonNegative(w, a - b);
      ProductIsNonNegative(1.0 - w, a - b);
    }
  }

  /** The effective score lies between the raw score and the history average. */
  lemma BlendIsBetween(raw: real, length: nat, tiers: seq<Tier>)
    requires tiers != []
    ensures var avg := HistoryAverage(tiers);
      (if raw <= avg then raw else avg) <= Blend(raw, length, tiers) <= (if raw <= avg then avg else raw)
    ensures -0.2 <= HistoryAverage(tiers) <= 0.4
  {
    AverageBounds(tiers);
    WeightFalls(length, length);
    ConvexBetween(Weight(length), raw, HistoryAverage(tiers));
  }

  /** Momentum moves the score towards the average by its weight's share of the distance. */
  lemma BlendMoves(raw: real, length: nat, tiers: seq<Tier>)
    requires tiers != []
    ensures Blend(raw, length, tiers) - raw == Weight(length) * (HistoryAverage(tiers) - raw)
  {
    var w, avg := Weight(length), HistoryAverage(tiers);
    assert (1.0 - w) * raw == raw - w * raw && w * (avg - raw) == w * avg - w * raw;
  }

  lemma BlendIsMonotone(a: real, b: real, length: nat, tiers: seq<Tier>)
    requires a <= b
    ensures Blend(a, length, tiers) <= Blend(b, length, tiers)
  {
    if tiers != [] {
      WeightFalls(length, length);
      var w := Weight(length);
      assert (1.0 - w) * b - (1.0 - w) * a == (1.0 - w) * (b - a);
      ProductIsNonNegative(1.0 - w, b - a);
    }
  }

  // ----- what the numbers are -----------------------------------------------------------------------------------

  /** The weight falls in two straight lines: from 0.6 to 0.3 over the first 30 characters, and from there
    * to nothing at 100. */
  lemma WeightIsTwoLines(n: nat)
    ensures Weight(0) == 0.6 && Weight(30) == 0.3 && (n >= 100 ==> Weight(n) == 0.0)
    ensures n < 30 ==> Weight(n) - Weight(n + 1) == 0.01
    ensures 30 <= n < 100 ==> Weight(n) - Weight(n + 1) == 0.3 / 70.0
  {
    var x := n as real;
    assert (n + 1) as real == x + 1.0;
    if n >= 30 {
      assert (n - 30) as real == x - 30.0 && (n + 1 - 30) as real == x - 29.0;
      assert (x - 29.0) / 70.0 - (x - 30.0) / 70.0 == 1.0 / 70.0;
    } else {
      assert (x + 1.0) / 30.0 - x / 30.0 == 1.0 / 30.0;
    }
  }

  /** Momentum counts as applied exactly when it changed the score. */
  lemma AppliedExactly(raw: real, length: nat, tiers: seq<Tier>)
    ensures Applied(raw, length, tiers) <==> Blend(raw, length, tiers) != raw
  {
    WeightFalls(length, length);
    if tiers != [] && Weight(length) == 0.0 {
      var average := HistoryAverage(tiers);
      assert (1.0 - 0.0) * raw + 0.0 * average == raw;
    }
  }

  /** The tiers score evenly around standard. */
  lemma TierScoresAreEven(t: Tier)
    ensures TierScore(t) == 0.2 * (Rank(t) as real) - 0.2
  {
  }

  /** A history of one tier averages to its score. */
  lemma {:induction false} SumOfOneTier(tiers: seq<Tier>, t: Tier)
    requires forall i | 0 <= i < |tiers| :: tiers[i] == t
    ensures HistorySum(tiers) == TierScore(t) * (|tiers| as real)
  {
    if tiers != [] {
      SumOfOneTier(tiers[..|tiers| - 1], t);
      assert |tiers| as real == (|tiers| - 1) as real + 1.0;
    }
  }

  lemma HistoryOfOneTier(tiers: seq<Tier>, t: Tier)
    requires tiers != [] && forall i | 0 <= i < |tiers| && i < 5 :: tiers[i] == t
    ensures HistoryAverage(tiers) == TierScore(t)
  {
    SumOfOneTier(Recent(tiers), t);
    var n := |Recent(tiers)| as real;
    assert TierScore(t) * n / n == TierScore(t);
  }

  /** Only the five most recent tiers, which come first, count. */
  lemma OnlyRecentTiersCount(recent: seq<Tier>, older: seq<Tier>)
    requires |recent| >= 5
    ensures HistoryAverage(recent + older) == HistoryAverage(recent) == HistoryAverage(recent[..5])
  {
    assert Recent(recent + older) == recent[..5] && Recent(recent) == recent[..5];
  }

  /** The tier counts the boundaries that the score reaches. */
  lemma TierCountsBoundaries(score: real, b: Boundaries)
    requires Ordered(b)
    ensures Rank(ScoreToTier(score, b)) ==
      (if score >= b.simpleMax then 1 else 0) + (if score >= b.standardMax then 1 else 0) + (if score >= b.complexMax then 1 else 0)
  {
  }

  // ----- confidence ------------------------------------------------------------------------------------------

  function Abs(x: real): real { if x < 0.0 then -x else x }

  function Least(a: real, b: real): real { if b < a then b else a }

  function MinDistance(score: real, b: Boundaries): real {
    Least(Least(Abs(score - b.simpleMax), Abs(score - b.standardMax)), Abs(score - b.complexMax))
  }

  function Exponent(k: real, distance: real): real { -k * distance }

  function Confidence(score: real, b: Boundaries, k: real, exp: real -> real): real
    requires exp(Exponent(k, MinDistance(score, b))) > 0.0
  {
    1.0 / (1.0 + exp(Exponent(k, MinDistance(score, b))))
  }

  method ComputeConfidence(score: real, b: Boundaries, k: real, exp: real -> real) returns (c: real)
    requires exp(Exponent(k, MinDistance(score, b))) > 0.0
    ensures c == Confidence(score, b, k, exp)
  {
    var values := [b.simpleMax, b.standardMax, b.complexMax];
    var minDistance: Option<real> := None;
    var i := 0;
    while i < |values|
      invariant i <= |values|
      invariant i == 0 ==> minDistance == None
      invariant i == 1 ==> minDistance == Some(Abs(score - b.simpleMax))
      invariant i == 2 ==> minDistance == Some(Least(Abs(score - b.simpleMax), Abs(score - b.standardMax)))
      invariant i == 3 ==> minDistance == Some(MinDistance(score, b))
    {
      var dist := Abs(score - values[i]);
      if minDistance.None? || dist < minDistance.value { minDistance := Some(dist); }
      i := i + 1;
    }
    c := 1.0 / (1.0 + exp(Exponent(k, minDistance.value)));
  }

  /** Confidence lies in [1/2, 1). */
  lemma ConfidenceBounds(score: real, b: Boundaries, k: real, exp: real -> real)
    requires IsExp(exp) && k >= 0.0
    ensures 0.5 <= Confidence(score, b, k, exp) < 1.0
  {
    var d := MinDistance(score, b);
    assert k * d >= 0.0;
    var e := exp(Exponent(k, d));
    assert e <= exp(0.0);
    DivideBounds(1.0, 1.0 + e, 0.5, 1.0);
    LessTimes(1.0 / (1.0 + e), 1.0, 1.0 + e);
  }

  /** The distance is that of the nearest boundary. */
  lemma MinDistanceIsLeast(score: real, b: Boundaries)
    ensures var d := MinDistance(score, b);
      && (score - b.simpleMax == d || b.simpleMax - score == d || score - b.standardMax == d || b.standardMax - score == d
          || score - b.complexMax == d || b.complexMax - score == d)
      && forall x | x in [b.simpleMax, b.standardMax, b.complexMax] :: x <= score - d || x >= score + d
  {
  }

  /** Confidence is one half exactly on a boundary, when the exponential is strict there, and never falls
    * with the distance from the nearest one. */
  lemma ConfidenceGrows(s: real, t: real, b: Boundaries, k: real, exp: real -> real)
    requires IsExp(exp) && k >= 0.0 && MinDistance(s, b) <= MinDistance(t, b)
    ensures Confidence(s, b, k, exp) <= Confidence(t, b, k, exp)
    ensures MinDistance(s, b) == 0.0 ==> Confidence(s, b, k, exp) == 0.5
  {
    hide MinDistance;
    var d, e := MinDistance(s, b), MinDistance(t, b);
    ExponentFalls(k, d, e);
    var x, y := exp(Exponent(k, d)), exp(Exponent(k, e));
    assert x >= y;
    InverseFalls(1.0 + y, 1.0 + x);
  }

  lemma ExponentFalls(k: real, d: real, e: real)
    requires k >= 0.0 && d <= e
    ensures Exponent(k, e) <= Exponent(k, d) && Exponent(k, 0.0) == 0.0
  {
    ProductIsNonNegative(k, e - d);
    assert k * e - k * d == k * (e - d);
  }

  lemma InverseFalls(x: real, y: real)
    requires 0.0 < x <= y
    ensures 1.0 / y <= 1.0 / x
  {
    var p, q := 1.0 / x, 1.0 / y;
    assert p * x == 1.0 && q * y == 1.0;
    LessTimes(p, q, x);
    ProductIsNonNegative(q, y - x);
    assert q * y - q * x == q * (y - x);
  }

  // ----- floors ------------------------------------------------------------------------------------------------

  datatype Reason = Scored | ToolDetected | LargeContext | MomentumApplied | Ambiguous

  function ScoreToTier(score: real, b: Boundaries): Tier {
    if score < b.simpleMax then Simple
    else if score < b.standardMax then Standard
    else if score < b.complexMax then Complex
    else Reasoning
  }

  function MaxTier(a: Tier, b: Tier): (r: Tier)
    ensures Rank(r) >= Rank(a) && Rank(r) >= Rank(b) && (r == a || r == b)
  {
    if Rank(a) >= Rank(b) then a else b
  }

  /** What decides the floors: tools that may be called, and the estimated tokens. */
  datatype Request = Request(tools: bool, toolChoiceNone: bool, tokens: real)

  const LARGE_CONTEXT_TOKENS := 50_000.0

  predicate ToolFloor(r: Request) { r.tools && !r.toolChoiceNone }

  predicate ContextFloor(r: Request) { r.tokens > LARGE_CONTEXT_TOKENS }

  /** The least tier the request's tools and size allow. */
  function Floor(r: Request): Tier {
    if ContextFloor(r) then Complex else if ToolFloor(r) then Standard else Simple
  }

  method ApplyTierFloors(score: real, b: Boundaries, r: Request, momentumApplied: bool) returns (tier: Tier, reason: Reason)
    ensures tier == MaxTier(ScoreToTier(score, b), Floor(r))
    ensures reason == Scored <==> !momentumApplied && tier == ScoreToTier(score, b)
    ensures reason == MomentumApplied <==> momentumApplied
    ensures reason == LargeContext <==> !momentumApplied && ContextFloor(r) && Rank(ScoreToTier(score, b)) < Rank(Complex)
    ensures reason == ToolDetected <==> !momentumApplied && !ContextFloor(r) && ToolFloor(r) && ScoreToTier(score, b) == Simple
    ensures reason != Ambiguous
  {
    tier := ScoreToTier(score, b);
    reason := Scored;
    if r.tools && !r.toolChoiceNone {
      var floored := MaxTier(tier, Standard);
      if floored != tier {
        tier, reason := floored, ToolDetected;
      }
    }
    if r.tokens > LARGE_CONTEXT_TOKENS {
      var floored := MaxTier(tier, Complex);
      if floored != tier {
        tier, reason := floored, LargeContext;
      }
    }
    if momentumApplied {
      reason := MomentumApplied;
    }
  }

  // ----- the full-scoring path -----------------------------------------------------------------------------------

  /** The tier of a request that reached full scoring with this raw score. */
  function FinalTier(c: Config, exp: real -> real, raw: real, length: nat, tiers: seq<Tier>, r: Request): Tier
    requires forall x :: exp(x) > 0.0
  {
    var score := Blend(raw, length, tiers);
    var natural := ScoreToTier(score, c.boundaries);
    var floored := MaxTier(natural, Floor(r));
    if Confidence(score, c.boundaries, c.confidenceK, exp) < c.confidenceThreshold
      && floored == natural && !Applied(raw, length, tiers) then Standard
    else floored
  }

  method ScoreFully(c: Config, exp: real -> real, raw: real, length: nat, tiers: seq<Tier>, r: Request)
    returns (tier: Tier, reason: Reason, confidence: real)
    requires forall x :: exp(x) > 0.0
    ensures tier == FinalTier(c, exp, raw, length, tiers, r)
    ensures reason == Ambiguous ==> tier == Standard && confidence < c.confidenceThreshold
    ensures reason == Scored ==> tier == ScoreToTier(Blend(raw, length, tiers), c.boundaries) && confidence >= c.confidenceThreshold
    ensures reason == MomentumApplied <==> Applied(raw, length, tiers)
    ensures confidence == Confidence(Blend(raw, length, tiers), c.boundaries, c.confidenceK, exp)
  {
    var m := ApplyMomentum(raw, length, tiers);
    tier, reason := ApplyTierFloors(m.score, c.boundaries, r, m.applied);
    confidence := ComputeConfidence(m.score, c.boundaries, c.confidenceK, exp);
    if confidence < c.confidenceThreshold && reason == Scored {
      tier, reason := Standard, Ambiguous;
    }
  }

  /** A confidence threshold of at most one half never demotes: the tier is the floored one. */
  lemma NoDemotion(c: Config, exp: real -> real, raw: real, length: nat, tiers: seq<Tier>, r: Request)
    requires IsExp(exp) && c.confidenceK >= 0.0 && c.confidenceThreshold <= 0.5
    ensures FinalTier(c, exp, raw, length, tiers, r) == MaxTier(ScoreToTier(Blend(raw, length, tiers), c.boundaries), Floor(r))
  {
    ConfidenceBounds(Blend(raw, length, tiers), c.boundaries, c.confidenceK, exp);
  }

  ghost predicate FloorsHold(c: Config, exp: real -> real)
    requires forall x :: exp(x) > 0.0
  {
    forall raw, length, tiers, r :: Rank(FinalTier(c, exp, raw, length, tiers, r)) >= Rank(Floor(r))
  }

  /** Demotion to standard respects the floors for every request exactly when the confidence threshold
    * is at most one half: above it, a large request scored right on a boundary is demoted. */
  lemma FloorsHoldExactly(c: Config, exp: real -> real)
    requires IsExp(exp) && c.confidenceK >= 0.0 && Ordered(c.boundaries)
    ensures FloorsHold(c, exp) <==> c.confidenceThreshold <= 0.5
  {
    if c.confidenceThreshold <= 0.5 {
      forall raw, length: nat, tiers, r ensures Rank(FinalTier(c, exp, raw, length, tiers, r)) >= Rank(Floor(r)) {
        NoDemotion(c, exp, raw, length, tiers, r);
      }
    } else {
      var raw, r := c.boundaries.standardMax, Request(false, false, 50_001.0);
      assert MinDistance(raw, c.boundaries) == 0.0;
      assert Exponent(c.confidenceK, 0.0) == 0.0;
      assert Confidence(raw, c.boundaries, c.confidenceK, exp) == 0.5;
      assert FinalTier(c, exp, raw, 0, [], r) == Standard && Floor(r) == Complex;
    }
  }

  /** With the default configuration tools give at least standard, more than 50,000 estimated tokens
    * give at least complex, and the tier never falls when the raw score rises. */
  lemma DefaultTierIsSoundAndMonotone(exp: real -> real, a: real, b: real, length: nat, tiers: seq<Tier>, r: Request)
    requires IsExp(exp) && a <= b
    ensures r.tools && !r.toolChoiceNone ==> Rank(FinalTier(DEFAULT_CONFIG, exp, a, length, tiers, r)) >= Rank(Standard)
    ensures r.tokens > 50_000.0 ==> Rank(FinalTier(DEFAULT_CONFIG, exp, a, length, tiers, r)) >= Rank(Complex)
    ensures (!r.tools || r.toolChoiceNone) && r.tokens <= 50_000.0 ==>
      FinalTier(DEFAULT_CONFIG, exp, a, length, tiers, r) == ScoreToTier(Blend(a, length, tiers), DEFAULT_CONFIG.boundaries)
    ensures Rank(FinalTier(DEFAULT_CONFIG, exp, a, length, tiers, r)) <= Rank(FinalTier(DEFAULT_CONFIG, exp, b, length, tiers, r))
  {
    NoDemotion(DEFAULT_CONFIG, exp, a, length, tiers, r);
    NoDemotion(DEFAULT_CONFIG, exp, b, length, tiers, r);
    BlendIsMonotone(a, b, length, tiers);
  }
}
