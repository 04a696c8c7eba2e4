/** The 5 x 5 risk heatmap: risks bucketed by (likelihood, impact), and the
    grid of cells, impact 5 down to 1 by row and likelihood 1 up to 5 by column. */
module Heatmap {
  import opened Types
  import opened Helpers
  import opened Seqs

  /** A bucket key (likelihood, impact). The source keys by the string "likelihood,impact",
      which is injective on integer pairs, so a pair stands for it. */
  type Key = (int, int)

  /** The ids of the risks at (likelihood, impact), in catalogue order: what the bucket of that key collects. */
  function BucketIds(risks: seq<Risk>, likelihood: int, impact: int): (ids: seq<Id>)
    ensures |ids| <= |risks|
  {
    if risks == [] then []
    else
      var last := risks[|risks| - 1];
      var prefix := BucketIds(risks[..|risks| - 1], likelihood, impact);
      if last.likelihood == likelihood && last.impact == impact then prefix + [last.id] else prefix
  }

  /** An id is in a bucket exactly when some risk with that id sits at that position. */
  lemma {:induction false} BucketMembers(risks: seq<Risk>, likelihood: int, impact: int, x: Id)
    ensures x in BucketIds(risks, likelihood, impact) <==>
      exists j :: 0 <= j < |risks| && risks[j].id == x && risks[j].likelihood == likelihood && risks[j].impact == impact
  {
    if risks != [] {
      var init := risks[..|risks| - 1];
      BucketMembers(init, likelihood, impact, x);
      assert forall j :: 0 <= j < |init| ==> init[j] == risks[j];
    }
  }

  /** The ids of the risks, in catalogue order. */
  function Ids(risks: seq<Risk>): (ids: seq<Id>)
    ensures |ids| == |risks| && forall j :: 0 <= j < |risks| ==> ids[j] == risks[j].id
  {
    seq(|risks|, j requires 0 <= j < |risks| => risks[j].id)
  }

  /** Within a bucket, ids keep the order the risks have in the catalogue. */
  lemma {:induction false} BucketIdsInOrder(risks: seq<Risk>, likelihood: int, impact: int)
    ensures IsSubsequence(BucketIds(risks, likelihood, impact), Ids(risks))
  {
    if risks != [] {
      var init := risks[..|risks| - 1];
      BucketIdsInOrder(init, likelihood, impact);
      assert Ids(risks) == Ids(init) + [risks[|risks| - 1].id];
      SubsequenceExtend(BucketIds(init, likelihood, impact), Ids(init), risks[|risks| - 1].id);
    }
  }

  /** The bucketing loop: one pass over the risks, appending each id to the list under its key. */
  method BuildRiskMap(risks: seq<Risk>) returns (riskMap: map<Key, seq<Id>>)
    ensures forall k :: k in riskMap <==> BucketIds(risks, k.0, k.1) != []
    ensures forall k :: k in riskMap ==> riskMap[k] == BucketIds(risks, k.0, k.1)
  {
    riskMap := map[];
    var n := 0;
    while n < |risks|
      invariant 0 <= n <= |risks|
      invariant forall k :: k in riskMap <==> BucketIds(risks[..n], k.0, k.1) != []
      invariant forall k :: k in riskMap ==> riskMap[k] == BucketIds(risks[..n], k.0, k.1)
    {
      assert risks[..n + 1][..n] == risks[..n];
      var key := (risks[n].likelihood, risks[n].impact);
      var bucket := if key in riskMap then riskMap[key] else [];
      riskMap := riskMap[key := bucket + [risks[n].id]];
      n := n + 1;
    }
    assert risks[..n] == risks;
  }

  /** One rendered cell: its coordinates, how many risks it shows, its colour and the ids in its tooltip. */
  datatype Cell = Cell(likelihood: int, impact: int, numRisks: nat, color: string, riskIds: seq<Id>)

  /** The cell the grid shows at (likelihood, impact). */
  function CellAt(risks: seq<Risk>, likelihood: int, impact: int): Cell {
    var ids := BucketIds(risks, likelihood, impact);
    Cell(likelihood, impact, |ids|, HeatmapColor(likelihood, impact), ids)
  }

  /** `generateHeatmap`: row r holds impact 5 - r and column c likelihood c + 1. */
  method GenerateHeatmap(risks: seq<Risk>) returns (rows: seq<seq<Cell>>)
    ensures |rows| == 5
    ensures forall r :: 0 <= r < 5 ==> |rows[r]| == 5
    ensures forall r, c :: 0 <= r < 5 && 0 <= c < 5 ==> rows[r][c] == CellAt(risks, c + 1, 5 - r)
  {
    var riskMap := BuildRiskMap(risks);
    rows := [];
    var impact := 5;
    while impact >= 1
      invariant 0 <= impact <= 5
      invariant |rows| == 5 - impact
      invariant forall r :: 0 <= r < |rows| ==> |rows[r]| == 5
      invariant forall r, c :: 0 <= r < |rows| && 0 <= c < 5 ==> rows[r][c] == CellAt(risks, c + 1, 5 - r)
    {
      var cells: seq<Cell> := [];
      var likelihood := 1;
      while likelihood <= 5
        invariant 1 <= likelihood <= 6
        invariant |cells| == likelihood - 1
        invariant forall c :: 0 <= c < |cells| ==> cells[c] == CellAt(risks, c + 1, impact)
      {
        var key := (likelihood, impact);
        var risksInCell := if key in riskMap then riskMap[key] else [];
        cells := cells + [Cell(likelihood, impact, |risksInCell|, HeatmapColor(likelihood, impact), risksInCell)];
        likelihood := likelihood + 1;
      }
      rows := rows + [cells];
      impact := impact - 1;
    }
  }

  /** A risk whose likelihood and impact are both on the 1..5 scale has a cell. */
  predicate OnGrid(r: Risk) {
    1 <= r.likelihood <= 5 && 1 <= r.impact <= 5
  }

  function CountOnGrid(risks: seq<Risk>): nat {
    if risks == [] then 0
    else CountOnGrid(risks[..|risks| - 1]) + (if OnGrid(risks[|risks| - 1]) then 1 else 0)
  }

  /** The risks shown in columns 1..n of the row for `impact`. */
  function RowTotal(risks: seq<Risk>, impact: int, n: nat): nat {
    if n == 0 then 0 else RowTotal(risks, impact, n - 1) + CellAt(risks, n, impact).numRisks
  }

  /** The risks shown in the rows for impacts 1..m. */
  function GridTotal(risks: seq<Risk>, m: nat): nat {
    if m == 0 then 0 else GridTotal(risks, m - 1) + RowTotal(risks, m, 5)
  }

  lemma {:induction false} RowTotalAppend(risks: seq<Risk>, x: Risk, impact: int, n: nat)
    ensures RowTotal(risks + [x], impact, n)
         == RowTotal(risks, impact, n) + (if x.impact == impact && 1 <= x.likelihood <= n then 1 else 0)
  {
    assert (risks + [x])[..|risks|] == risks;
    if n > 0 {
      RowTotalAppend(risks, x, impact, n - 1);
    }
  }

  lemma {:induction false} GridTotalAppend(risks: seq<Risk>, x: Risk, m: nat)
    ensures GridTotal(risks + [x], m)
         == GridTotal(risks, m) + (if 1 <= x.impact <= m && 1 <= x.likelihood <= 5 then 1 else 0)
  {
    if m > 0 {
      GridTotalAppend(risks, x, m - 1);
      RowTotalAppend(risks, x, m, 5);
    }
  }

  /** The 25 cells together show every risk on the scale exactly once and no other. */
  lemma {:induction false} GridAccountsForEveryRisk(risks: seq<Risk>)
    ensures GridTotal(risks, 5) == CountOnGrid(risks)
  {
    if risks != [] {
      var init, last := risks[..|risks| - 1], risks[|risks| - 1];
      GridAccountsForEveryRisk(init);
      assert risks == init + [last];
      GridTotalAppend(init, last, 5);
      assert CountOnGrid(risks) == CountOnGrid(init) + (if OnGrid(last) then 1 else 0);
    } else {
      EmptyGrid(5);
    }
  }

  lemma {:induction false} EmptyGrid(m: nat)
    ensures GridTotal([], m) == 0
  {
    if m > 0 {
      EmptyGrid(m - 1);
      EmptyRow(m, 5);
    }
  }

  lemma {:induction false} EmptyRow(impact: int, n: nat)
    ensures RowTotal([], impact, n) == 0
  {
    if n > 0 {
      EmptyRow(impact, n - 1);
    }
  }

  /** With unique ids, a risk's id appears in the cell of its own position and in no other. */
  lemma RiskInItsOwnCell(risks: seq<Risk>, j: nat, likelihood: int, impact: int)
    requires j < |risks|
    requires forall a, b :: 0 <= a < b < |risks| ==> risks[a].id != risks[b].id
    ensures risks[j].id in CellAt(risks, likelihood, impact).riskIds
        <==> risks[j].likelihood == likelihood && risks[j].impact == impact
  {
    BucketMembers(risks, likelihood, impact, risks[j].id);
  }

  /** A cell's colour is the background of the level its position scores. */
  lemma CellColorIsLevelColor(risks: seq<Risk>, likelihood: int, impact: int)
    ensures CellAt(risks, likelihood, impact).color == LevelBackground(CalculateRiskLevel(likelihood, impact))
    ensures CellAt(risks, likelihood, impact).numRisks > 0 <==>
      exists j :: 0 <= j < |risks| && risks[j].likelihood == likelihood && risks[j].impact == impact
  {
    var ids := BucketIds(risks, likelihood, impact);
    if ids != [] {
      BucketMembers(risks, likelihood, impact, ids[0]);
    } else if exists j :: 0 <= j < |risks| && risks[j].likelihood == likelihood && risks[j].impact == impact {
      var j :| 0 <= j < |risks| && risks[j].likelihood == likelihood && risks[j].impact == impact;
      BucketMembers(risks, likelihood, impact, risks[j].id);
    }
  }
}
