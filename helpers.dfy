/** Risk scoring: the level of a (likelihood, impact) pair, the colour
    classes shown for a level, and the per-level tally of a risk list. */
module Helpers {
  import opened Types

  /** The band a score falls in: 15 and above Critical, 8 to 14 High, 3 to 7 Medium, below 3 Low. */
  function ScoreToLevel(score: int): (l: RiskLevel)
    ensures l == Critical <==> score >= 15
    ensures l == High <==> 8 <= score < 15
    ensures l == Medium <==> 3 <= score < 8
    ensures l == Low <==> score < 3
  {
    if score >= 15 then Critical
    else if score >= 8 then High
    else if score >= 3 then Medium
    else Low
  }

  /** `calculateRiskLevel`: the level of the score likelihood * impact. */
  function CalculateRiskLevel(likelihood: int, impact: int): (l: RiskLevel)
    ensures l == Critical <==> likelihood * impact >= 15
    ensures l == High <==> 8 <= likelihood * impact < 15
    ensures l == Medium <==> 3 <= likelihood * impact < 8
    ensures l == Low <==> likelihood * impact < 3
  {
    ScoreToLevel(likelihood * impact)
  }

  /** The ordinal position of a level, Low lowest. */
  function Rank(l: RiskLevel): nat {
    match l
    case Low => 0
    case Medium => 1
    case High => 2
    case Critical => 3
  }

  /** The exact boundaries: the last score of each band and the first of the next. */
  lemma BoundaryCases()
    ensures CalculateRiskLevel(1, 2) == Low
    ensures CalculateRiskLevel(1, 3) == Medium
    ensures CalculateRiskLevel(1, 7) == Medium
    ensures CalculateRiskLevel(2, 4) == High
    ensures CalculateRiskLevel(2, 7) == High
    ensures CalculateRiskLevel(3, 5) == Critical
    ensures CalculateRiskLevel(4, 5) == Critical
    ensures CalculateRiskLevel(1, 1) == Low
  {
  }

  /** The whole 5 x 5 grid, row by row (likelihood 1..5, impact 1..5). */
  const LevelMatrix: seq<seq<RiskLevel>> := [
    [Low,    Low,    Medium, Medium,   Medium],
    [Low,    Medium, Medium, High,     High],
    [Medium, Medium, High,   High,     Critical],
    [Medium, High,   High,   Critical, Critical],
    [Medium, High,   Critical, Critical, Critical]
  ]

  lemma {:induction false} MatrixExhaustive(likelihood: int, impact: int)
    requires 1 <= likelihood <= 5 && 1 <= impact <= 5
    ensures CalculateRiskLevel(likelihood, impact) == LevelMatrix[likelihood - 1][impact - 1]
  {
    var row := LevelMatrix[likelihood - 1];
    if likelihood == 1 {
      assert row == [Low, Low, Medium, Medium, Medium];
    } else if likelihood == 2 {
      assert row == [Low, Medium, Medium, High, High];
    } else if likelihood == 3 {
      assert row == [Medium, Medium, High, High, Critical];
    } else if likelihood == 4 {
      assert row == [Medium, High, High, Critical, Critical];
    } else {
      assert row == [Medium, High, Critical, Critical, Critical];
    }
  }

  /** A larger score never gives a lower level. */
  lemma ScoreMonotone(s1: int, s2: int)
    requires s1 <= s2
    ensures Rank(ScoreToLevel(s1)) <= Rank(ScoreToLevel(s2))
  {
  }

  lemma LevelMonotone(l1: int, i1: int, l2: int, i2: int)
    requires l1 * i1 <= l2 * i2
    ensures Rank(CalculateRiskLevel(l1, i1)) <= Rank(CalculateRiskLevel(l2, i2))
  {
    ScoreMonotone(l1 * i1, l2 * i2);
  }

  /** Raising likelihood or impact on the 1..5 scale never lowers the level. */
  lemma LevelMonotoneInFactors(l1: int, i1: int, l2: int, i2: int)
    requires 0 <= l1 <= l2 && 0 <= i1 <= i2
    ensures Rank(CalculateRiskLevel(l1, i1)) <= Rank(CalculateRiskLevel(l2, i2))
  {
    assert l1 * i1 <= l2 * i1 <= l2 * i2 by {
      MulLeMonotone(l1, l2, i1);
      MulLeMonotone(i1, i2, l2);
    }
    LevelMonotone(l1, i1, l2, i2);
  }

  lemma MulLeMonotone(a: int, b: int, c: int)
    requires a <= b && 0 <= c
    ensures a * c <= b * c && c * a <= c * b
  {
  }

  /** Swapping likelihood and impact gives the same level. */
  lemma LevelSymmetric(likelihood: int, impact: int)
    ensures CalculateRiskLevel(likelihood, impact) == CalculateRiskLevel(impact, likelihood)
  {
  }

  /** `getRiskLevelColor`: the badge classes for a level. */
  function RiskLevelColor(l: RiskLevel): string {
    match l
    case Critical => "bg-red-500 text-white"
    case High => "bg-orange-500 text-white"
    case Medium => "bg-amber-400 text-black"
    case Low => "bg-green-500 text-white"
  }

  /** The background class of a heatmap cell of a given level. */
  function LevelBackground(l: RiskLevel): string {
    match l
    case Critical => "bg-red-500"
    case High => "bg-orange-500"
    case Medium => "bg-amber-400"
    case Low => "bg-green-500"
  }

  /** `getHeatmapColor`: the background of the level of (likelihood, impact). */
  function HeatmapColor(likelihood: int, impact: int): string {
    LevelBackground(CalculateRiskLevel(likelihood, impact))
  }

  /** The four badge classes are pairwise distinct, so a level can be read back from its colour. */
  lemma RiskLevelColorInjective(a: RiskLevel, b: RiskLevel)
    ensures RiskLevelColor(a) == RiskLevelColor(b) ==> a == b
    ensures LevelBackground(a) == LevelBackground(b) ==> a == b
  {
  }

  /** The heatmap colour depends on the cell only through its level. */
  lemma HeatmapColorByLevel(l1: int, i1: int, l2: int, i2: int)
    ensures HeatmapColor(l1, i1) == HeatmapColor(l2, i2)
        <==> CalculateRiskLevel(l1, i1) == CalculateRiskLevel(l2, i2)
  {
    RiskLevelColorInjective(CalculateRiskLevel(l1, i1), CalculateRiskLevel(l2, i2));
  }

  /** The grey fall-back of both colour switches is never returned: every level has its own class. */
  lemma FallbackColorsUnreachable(l: RiskLevel, likelihood: int, impact: int)
    ensures RiskLevelColor(l) != "bg-gray-200 text-black"
    ensures HeatmapColor(likelihood, impact) != "bg-gray-200"
  {
  }

  /** The badge class begins with the heatmap background of the same level. */
  lemma BadgeExtendsBackground(l: RiskLevel)
    ensures |LevelBackground(l)| <= |RiskLevelColor(l)|
    ensures RiskLevelColor(l)[..|LevelBackground(l)|] == LevelBackground(l)
  {
  }

  /** The record returned by `getRiskCounts`. */
  datatype LevelCounts = LevelCounts(critical: nat, high: nat, medium: nat, low: nat)

  function Total(c: LevelCounts): nat {
    c.critical + c.high + c.medium + c.low
  }

  function Get(c: LevelCounts, l: RiskLevel): nat {
    match l
    case Critical => c.critical
    case High => c.high
    case Medium => c.medium
    case Low => c.low
  }

  function Increment(c: LevelCounts, l: RiskLevel): (r: LevelCounts)
    ensures Get(r, l) == Get(c, l) + 1
    ensures forall m :: m != l ==> Get(r, m) == Get(c, m)
  {
    match l
    case Critical => c.(critical := c.critical + 1)
    case High => c.(high := c.high + 1)
    case Medium => c.(medium := c.medium + 1)
    case Low => c.(low := c.low + 1)
  }

  /** The number of risks whose level, recomputed from likelihood and impact, is `l`.
      The stored `level` field plays no part. */
  function CountLevel(risks: seq<Risk>, l: RiskLevel): nat {
    if risks == [] then 0
    else
      var last := risks[|risks| - 1];
      CountLevel(risks[..|risks| - 1], l) + (if CalculateRiskLevel(last.likelihood, last.impact) == l then 1 else 0)
  }

  /** Every risk is counted under exactly one level. */
  lemma {:induction false} CountLevelsSum(risks: seq<Risk>)
    ensures CountLevel(risks, Critical) + CountLevel(risks, High)
          + CountLevel(risks, Medium) + CountLevel(risks, Low) == |risks|
  {
    if risks != [] {
      CountLevelsSum(risks[..|risks| - 1]);
    }
  }

  /** `getRiskCounts`: tally each risk under its recomputed level. */
  method GetRiskCounts(risks: seq<Risk>) returns (counts: LevelCounts)
    ensures forall l :: Get(counts, l) == CountLevel(risks, l)
    ensures Total(counts) == |risks|
  {
    counts := LevelCounts(0, 0, 0, 0);
    var i := 0;
    while i < |risks|
      invariant 0 <= i <= |risks|
      invariant forall l :: Get(counts, l) == CountLevel(risks[..i], l)
    {
      assert risks[..i + 1][..i] == risks[..i];
      counts := Increment(counts, CalculateRiskLevel(risks[i].likelihood, risks[i].impact));
      i := i + 1;
    }
    assert risks[..i] == risks;
    CountLevelsSum(risks);
  }
}
