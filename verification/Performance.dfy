/** The drawdown figures: one-pass loops over an equity curve, and the worst pair they compute. */
module Performance {
  import opened Arithmetic
  import opened Common
  import opened Sorting

  datatype ClosedTrade = ClosedTrade(
    pnl: real,
    rMultiple: Option<real>,
    fees: Option<real>,
    closedAt: Time,
    marketRegime: Option<nat>,
    volatilityRegime: Option<nat>,
    tradeScore: Option<int>
  )

  // ------------------------------------------------------- specification

  /** The decline from `peak` to `equity`, as a fraction of the peak. */
  function Drop(peak: real, equity: real): real
    requires peak > 0.0
  {
    Over(peak - equity, peak)
  }

  function Peak(start: real, curve: seq<real>): real {
    if curve == [] then start else Max(Peak(start, curve[..|curve| - 1]), curve[|curve| - 1])
  }

  /** The deepest decline below the running peak. */
  function Worst(start: real, curve: seq<real>): real {
    if curve == [] then 0.0 else
      var earlier := Worst(start, curve[..|curve| - 1]);
      var peak := Peak(start, curve);
      if peak > 0.0 then Max(earlier, Drop(peak, curve[|curve| - 1])) else earlier
  }

  /** Declines at the points that sit strictly below their running peak. */
  function Depths(start: real, curve: seq<real>): seq<real> {
    if curve == [] then [] else
      var earlier := Depths(start, curve[..|curve| - 1]);
      var peak := Peak(start, curve);
      var e := curve[|curve| - 1];
      if peak > 0.0 && e < peak then earlier + [Drop(peak, e)] else earlier
  }

  function Sum(xs: seq<real>): real {
    if xs == [] then 0.0 else Sum(xs[..|xs| - 1]) + xs[|xs| - 1]
  }

  predicate ClosesFirst(a: ClosedTrade, b: ClosedTrade) {
    a.closedAt <= b.closedAt
  }

  /** Running equity after each trade. */
  function Curve(start: real, trades: seq<ClosedTrade>): seq<real> {
    if trades == [] then [] else
      var earlier := Curve(start, trades[..|trades| - 1]);
      earlier + [(if earlier == [] then start else earlier[|earlier| - 1]) + trades[|trades| - 1].pnl]
  }

  lemma {:induction false} CurveLength(start: real, trades: seq<ClosedTrade>)
    ensures |Curve(start, trades)| == |trades|
  {
    if trades != [] {
      CurveLength(start, trades[..|trades| - 1]);
    }
  }

  // --------------------------------------------------------------- methods

  /** `maximum_drawdown` of the historical replay. */
  method MaximumDrawdown(curve: seq<real>) returns (maximum: real)
    ensures maximum == Worst(0.0, curve)
    ensures (forall i :: 0 <= i < |curve| ==> curve[i] >= 0.0) ==> WorstPair(curve, maximum) && maximum <= 1.0
  {
    var peak := 0.0;
    maximum := 0.0;
    for i := 0 to |curve|
      invariant peak == Peak(0.0, curve[..i])
      invariant maximum == Worst(0.0, curve[..i])
    {
      assert curve[..i + 1][..i] == curve[..i];
      peak := Max(peak, curve[i]);
      if peak > 0.0 {
        maximum := Max(maximum, Drop(peak, curve[i]));
      }
    }
    assert curve[..|curve|] == curve;
    if forall i :: 0 <= i < |curve| ==> curve[i] >= 0.0 {
      OnePassIsWorstPair(0.0, curve);
      DropZeroStart(curve, maximum);
      WithinUnit(0.0, curve);
    }
  }

  /** `_equity_curve`: trades sorted by close, then summed up. */
  method EquityCurve(trades: seq<ClosedTrade>, start: real) returns (curve: seq<real>)
    ensures curve == Curve(start, Sort(trades, ClosesFirst))
    ensures exists ordered :: OldestFirst(ordered, trades) && RunsOver(curve, ordered, start)
  {
    var ordered := Sort(trades, ClosesFirst);
    var equity := start;
    curve := [];
    for i := 0 to |ordered|
      invariant curve == Curve(start, ordered[..i]) && |curve| == i
      invariant equity == if i == 0 then start else curve[i - 1]
    {
      assert ordered[..i + 1][..i] == ordered[..i];
      equity := equity + ordered[i].pnl;
      curve := curve + [equity];
    }
    assert ordered[..|ordered|] == ordered;
    SortedOldestFirst(trades);
    CurveRuns(start, ordered);
  }

  /** The trades, the earlier close first. */
  predicate OldestFirst(ordered: seq<ClosedTrade>, trades: seq<ClosedTrade>) {
    && multiset(ordered) == multiset(trades)
    && forall i, j :: 0 <= i < j < |ordered| ==> ordered[i].closedAt <= ordered[j].closedAt
  }

  /** Each point is the one before it, or the start, plus the trade's P&L. */
  predicate RunsOver(curve: seq<real>, ordered: seq<ClosedTrade>, start: real) {
    && |curve| == |ordered|
    && forall i :: 0 <= i < |curve| ==> curve[i] == (if i == 0 then start else curve[i - 1]) + ordered[i].pnl
  }

  lemma SortedOldestFirst(trades: seq<ClosedTrade>)
    ensures OldestFirst(Sort(trades, ClosesFirst), trades)
  {
    ClosesFirstOrders();
    SortSorted(trades, ClosesFirst);
    SortMultiset(trades, ClosesFirst);
  }

  lemma {:induction false} CurveRuns(start: real, ordered: seq<ClosedTrade>)
    ensures RunsOver(Curve(start, ordered), ordered, start)
  {
    if ordered != [] {
      var earlier := ordered[..|ordered| - 1];
      CurveRuns(start, earlier);
      var curve, before := Curve(start, ordered), Curve(start, earlier);
      forall i | 0 <= i < |curve| ensures curve[i] == (if i == 0 then start else curve[i - 1]) + ordered[i].pnl {
        assert i > 0 ==> curve[i - 1] == before[i - 1];
        if i < |earlier| {
          assert curve[i] == before[i] && earlier[i] == ordered[i];
        }
      }
      assert |curve| == |before| + 1 && RunsOver(curve, ordered, start);
    }
  }

  /** `compute_max_drawdown_pct`. */
  method ComputeMaxDrawdownPct(trades: seq<ClosedTrade>, start: real) returns (worst: Option<real>)
    ensures worst == if trades == [] || start <= 0.0 then None
                     else Some(Worst(start, Curve(start, Sort(trades, ClosesFirst))))
  {
    if trades == [] || start <= 0.0 {
      return None;
    }
    var curve := EquityCurve(trades, start);
    var peak, deepest := start, 0.0;
    for i := 0 to |curve|
      invariant peak == Peak(start, curve[..i])
      invariant deepest == Worst(start, curve[..i])
    {
      assert curve[..i + 1][..i] == curve[..i];
      peak := Max(peak, curve[i]);
      if peak > 0.0 {
        deepest := Max(deepest, Drop(peak, curve[i]));
      }
    }
    assert curve[..|curve|] == curve;
    worst := Some(deepest);
  }

  /** `max_drawdown_pct` of the backtest script: the same figure with the sum and the peak fused. */
  method MaxDrawdownPct(start: real, trades: seq<ClosedTrade>) returns (worst: real)
    ensures worst == Worst(start, Curve(start, Sort(trades, ClosesFirst)))
  {
    var ordered := Sort(trades, ClosesFirst);
    ghost var curve: seq<real> := [];
    var equity, peak := start, start;
    worst := 0.0;
    for i := 0 to |ordered|
      invariant curve == Curve(start, ordered[..i]) && |curve| == i
      invariant equity == if i == 0 then start else curve[i - 1]
      invariant peak == Peak(start, curve) && worst == Worst(start, curve)
    {
      assert ordered[..i + 1][..i] == ordered[..i];
      equity := equity + ordered[i].pnl;
      assert (curve + [equity])[..i] == curve;
      curve := curve + [equity];
      peak := Max(peak, equity);
      if peak > 0.0 {
        worst := Max(worst, Drop(peak, equity));
      }
    }
    assert ordered[..|ordered|] == ordered;
  }

  /** `compute_avg_drawdown_pct`. */
  method ComputeAvgDrawdownPct(trades: seq<ClosedTrade>, start: real) returns (average: Option<real>)
    ensures average.None? <==> trades == [] || start <= 0.0
    ensures average.Some? ==> average.value == Average(Depths(start, Curve(start, Sort(trades, ClosesFirst))))
    ensures average.Some? ==> 0.0 <= average.value <= Worst(start, Curve(start, Sort(trades, ClosesFirst)))
    ensures average.Some? ==>
              var curve := Curve(start, Sort(trades, ClosesFirst));
              Times(average.value, |Below(start, curve)| as real) == TotalDrop(start, curve)
  {
    if trades == [] || start <= 0.0 {
      return None;
    }
    var curve := EquityCurve(trades, start);
    var peak := start;
    var depths := [];
    for i := 0 to |curve|
      invariant peak == Peak(start, curve[..i])
      invariant depths == Depths(start, curve[..i])
    {
      assert curve[..i + 1][..i] == curve[..i];
      peak := Max(peak, curve[i]);
      if peak > 0.0 && curve[i] < peak {
        depths := depths + [Drop(peak, curve[i])];
      }
    }
    assert curve[..|curve|] == curve;
    AverageWithinWorst(start, curve);
    AverageOfBelow(start, curve);
    average := Some(Average(depths));
  }

  function Average(xs: seq<real>): real {
    if xs == [] then 0.0 else Over(Sum(xs), |xs| as real)
  }

  // ------------------------------------------------------------ worst pair

  /** `d` is the largest decline from any positive point to a later point of the curve. */
  ghost predicate WorstPair(curve: seq<real>, d: real) {
    && d >= 0.0
    && (forall i, j :: 0 <= i <= j < |curve| && curve[i] > 0.0 ==> Drop(curve[i], curve[j]) <= d)
    && (d == 0.0 || exists i, j :: 0 <= i <= j < |curve| && curve[i] > 0.0 && Drop(curve[i], curve[j]) == d)
  }

  lemma {:induction false} PeakBounds(start: real, curve: seq<real>)
    ensures Peak(start, curve) >= start
    ensures forall i :: 0 <= i < |curve| ==> curve[i] <= Peak(start, curve)
    ensures exists i :: 0 <= i <= |curve| && ([start] + curve)[i] == Peak(start, curve)
  {
    if curve == [] {
      assert ([start] + curve)[0] == Peak(start, curve);
    } else {
      var earlier := curve[..|curve| - 1];
      PeakBounds(start, earlier);
      var i :| 0 <= i <= |earlier| && ([start] + earlier)[i] == Peak(start, earlier);
      assert ([start] + curve)[i] == Peak(start, earlier);
      assert ([start] + curve)[|curve|] == curve[|curve| - 1];
      forall k | 0 <= k < |curve| ensures curve[k] <= Peak(start, curve) {
        if k < |earlier| {
          assert earlier[k] <= Peak(start, earlier);
        }
      }
    }
  }

  /** A higher peak means a deeper decline to the same non-negative level. */
  lemma HigherPeakDeeper(low: real, high: real, e: real)
    requires 0.0 < low <= high && e >= 0.0
    ensures Drop(low, e) <= Drop(high, e)
  {
    OverAtLeast(high - e, high, Drop(low, e));
    OverTimes(low - e, low);
    var d := Drop(low, e);
    assert Times(d, low) == low - e;
    assert Times(1.0, low) == low;
    TimesMonotone(1.0, d, low);
    TimesMonotone(d, 1.0, high - low);
    assert Times(d, high) == Times(d, low) + Times(d, high - low);
    assert Times(1.0, high - low) == high - low;
  }

  lemma {:induction false} WorstNonNegative(start: real, curve: seq<real>)
    ensures Worst(start, curve) >= 0.0
  {
    if curve != [] {
      WorstNonNegative(start, curve[..|curve| - 1]);
    }
  }

  /** The one-pass figure is always the decline of some pair of points. */
  lemma {:induction false} OnePassIsAttained(start: real, curve: seq<real>)
    ensures var c := [start] + curve; var d := Worst(start, curve);
            d == 0.0 || exists i, j :: 0 <= i <= j < |c| && c[i] > 0.0 && Drop(c[i], c[j]) == d
  {
    if curve != [] {
      var earlier := curve[..|curve| - 1];
      var c := [start] + curve;
      OnePassIsAttained(start, earlier);
      PeakBounds(start, curve);
      var p :| 0 <= p <= |curve| && c[p] == Peak(start, curve);
      if Worst(start, curve) == Worst(start, earlier) {
        if Worst(start, curve) != 0.0 {
          var e := [start] + earlier;
          var i, j :| 0 <= i <= j < |e| && e[i] > 0.0 && Drop(e[i], e[j]) == Worst(start, earlier);
          assert c[i] == e[i] && c[j] == e[j];
        }
      } else {
        assert Drop(c[p], c[|curve|]) == Worst(start, curve);
      }
    }
  }

  lemma {:induction false} OnePassDominates(start: real, curve: seq<real>, i: nat, j: nat)
    requires forall k :: 0 <= k < |curve| ==> curve[k] >= 0.0
    requires start >= 0.0 && i <= j <= |curve| && ([start] + curve)[i] > 0.0
    ensures Drop(([start] + curve)[i], ([start] + curve)[j]) <= Worst(start, curve)
  {
    var c := [start] + curve;
    WorstNonNegative(start, curve);
    if i == j {
      assert Drop(c[i], c[i]) == 0.0;
    } else {
      var earlier := curve[..|curve| - 1];
      if j < |curve| {
        OnePassDominates(start, earlier, i, j);
        assert ([start] + earlier)[i] == c[i] && ([start] + earlier)[j] == c[j];
      } else {
        PeakBounds(start, curve);
        assert c[i] <= Peak(start, curve) by {
          if i > 0 {
            assert c[i] == curve[i - 1];
          }
        }
        HigherPeakDeeper(c[i], Peak(start, curve), c[j]);
      }
    }
  }

  /** On a non-negative curve the one-pass drawdown is the maximum over all pairs of points. */
  lemma OnePassIsWorstPair(start: real, curve: seq<real>)
    requires start >= 0.0 && forall k :: 0 <= k < |curve| ==> curve[k] >= 0.0
    ensures WorstPair([start] + curve, Worst(start, curve))
  {
    var c := [start] + curve;
    WorstNonNegative(start, curve);
    OnePassIsAttained(start, curve);
    forall i, j | 0 <= i <= j < |c| && c[i] > 0.0 ensures Drop(c[i], c[j]) <= Worst(start, curve) {
      OnePassDominates(start, curve, i, j);
    }
  }

  lemma DropZeroStart(curve: seq<real>, d: real)
    requires WorstPair([0.0] + curve, d)
    ensures WorstPair(curve, d)
  {
    var c := [0.0] + curve;
    forall i, j | 0 <= i <= j < |curve| && curve[i] > 0.0 ensures Drop(curve[i], curve[j]) <= d {
      assert c[i + 1] == curve[i] && c[j + 1] == curve[j];
    }
    if d != 0.0 {
      var i, j :| 0 <= i <= j < |c| && c[i] > 0.0 && Drop(c[i], c[j]) == d;
      assert curve[i - 1] == c[i] && curve[j - 1] == c[j];
    }
  }

  /** On a curve that goes negative the one-pass figure can miss the worst pair: falling from 1 to -1
      is a decline of 200%, but the loop measures it from the later peak of 2 and reports 150%. */
  lemma NegativeCurveMissesWorstPair()
    ensures Worst(1.0, [2.0, -1.0]) == 1.5
    ensures Drop(1.0, -1.0) == 2.0
    ensures !WorstPair([1.0] + [2.0, -1.0], Worst(1.0, [2.0, -1.0]))
  {
    var curve := [2.0, -1.0];
    assert curve[..1] == [2.0] && [2.0][..0] == [];
    assert Peak(1.0, [2.0]) == 2.0 && Peak(1.0, curve) == 2.0;
    assert Drop(2.0, 2.0) == 0.0 && Worst(1.0, [2.0]) == 0.0;
    assert Drop(2.0, -1.0) == 1.5;
    var c := [1.0] + curve;
    assert c[0] == 1.0 && c[2] == -1.0;
  }

  lemma DropWithinUnitIff(peak: real, e: real)
    requires peak > 0.0
    ensures Drop(peak, e) <= 1.0 <==> e >= 0.0
  {
    OverAtLeast(peak - e, peak, 1.0);
    assert Times(1.0, peak) == peak;
  }

  lemma {:induction false} WithinUnit(start: real, curve: seq<real>)
    requires forall k :: 0 <= k < |curve| ==> curve[k] >= 0.0
    ensures 0.0 <= Worst(start, curve) <= 1.0
  {
    WorstNonNegative(start, curve);
    if curve != [] {
      WithinUnit(start, curve[..|curve| - 1]);
      if Peak(start, curve) > 0.0 {
        DropWithinUnitIff(Peak(start, curve), curve[|curve| - 1]);
      }
    }
  }

  /** With a positive start, the drawdown is at most 100% exactly when equity never goes negative. */
  lemma {:induction false} AtMostOneIff(start: real, curve: seq<real>)
    requires start > 0.0
    ensures Worst(start, curve) <= 1.0 <==> forall k :: 0 <= k < |curve| ==> curve[k] >= 0.0
  {
    if curve != [] {
      var earlier := curve[..|curve| - 1];
      AtMostOneIff(start, earlier);
      PeakBounds(start, curve);
      DropWithinUnitIff(Peak(start, curve), curve[|curve| - 1]);
      forall k | 0 <= k < |earlier| ensures earlier[k] == curve[k] {
      }
    }
  }

  // --------------------------------------------------------------- average

  lemma {:induction false} DepthsWithinWorst(start: real, curve: seq<real>)
    ensures forall i :: 0 <= i < |Depths(start, curve)| ==> 0.0 <= Depths(start, curve)[i] <= Worst(start, curve)
  {
    if curve != [] {
      DepthsWithinWorst(start, curve[..|curve| - 1]);
      var peak, e := Peak(start, curve), curve[|curve| - 1];
      if peak > 0.0 && e < peak {
        OverSign(peak - e, peak);
      }
    }
  }

  lemma {:induction false} SumBounds(xs: seq<real>, bound: real)
    requires forall i :: 0 <= i < |xs| ==> 0.0 <= xs[i] <= bound
    ensures 0.0 <= Sum(xs) <= Times(|xs| as real, bound)
  {
    if xs != [] {
      SumBounds(xs[..|xs| - 1], bound);
      assert Times(|xs| as real, bound) == Times((|xs| - 1) as real, bound) + bound;
    }
  }

  /** The average drawdown never exceeds the maximum drawdown. */
  lemma AverageWithinWorst(start: real, curve: seq<real>)
    ensures 0.0 <= Average(Depths(start, curve)) <= Worst(start, curve)
  {
    var depths := Depths(start, curve);
    WorstNonNegative(start, curve);
    DepthsWithinWorst(start, curve);
    SumBounds(depths, Worst(start, curve));
    if depths != [] {
      var n := |depths| as real;
      OverSign(Sum(depths), n);
      OverTimes(Sum(depths), n);
      assert Times(Worst(start, curve), n) == Times(n, Worst(start, curve));
      TimesMonotone(Worst(start, curve), Average(depths), n);
    }
  }

  /** The points strictly below an earlier point or the start. */
  function Below(start: real, curve: seq<real>): set<nat> {
    set k: nat | k < |curve| && (curve[k] < start || exists i :: 0 <= i < k && curve[i] > curve[k])
  }

  /** The declines of all points from the highest point so far, zero where none is higher. */
  function TotalDrop(start: real, curve: seq<real>): real {
    if curve == [] || Peak(start, curve) <= 0.0 then 0.0
    else TotalDrop(start, curve[..|curve| - 1]) + Drop(Peak(start, curve), curve[|curve| - 1])
  }

  lemma {:induction false} DepthsOfBelow(start: real, curve: seq<real>)
    requires start > 0.0
    ensures |Depths(start, curve)| == |Below(start, curve)| && Sum(Depths(start, curve)) == TotalDrop(start, curve)
  {
    hide Drop, Below;
    PeakBounds(start, curve);
    if curve != [] {
      var last := |curve| - 1;
      var earlier := curve[..last];
      DepthsOfBelow(start, earlier);
      BelowCounts(start, curve);
      PeakBounds(start, earlier);
      if curve[last] < Peak(start, curve) {
        assert Depths(start, curve)[..|Depths(start, curve)| - 1] == Depths(start, earlier);
      } else {
        NoDrop(Peak(start, curve));
      }
    } else {
      NothingBelow(start);
    }
  }

  lemma NoDrop(peak: real)
    requires peak > 0.0
    ensures Drop(peak, peak) == 0.0
  {
  }

  lemma NothingBelow(start: real)
    ensures Below(start, []) == {}
  {
  }

  lemma BelowCounts(start: real, curve: seq<real>)
    requires curve != []
    ensures var last := |curve| - 1;
            |Below(start, curve)| == |Below(start, curve[..last])| + if curve[last] < Peak(start, curve) then 1 else 0
  {
    BelowGrows(start, curve);
  }

  lemma BelowGrows(start: real, curve: seq<real>)
    requires curve != []
    ensures var last := |curve| - 1;
            Below(start, curve) == Below(start, curve[..last]) + if curve[last] < Peak(start, curve) then {last} else {}
  {
    var last := |curve| - 1;
    var earlier := curve[..last];
    PeakBounds(start, earlier);
    forall k: nat | k < last ensures k in Below(start, curve) <==> k in Below(start, earlier) {
      assert forall i :: 0 <= i <= k ==> earlier[i] == curve[i];
    }
    if curve[last] < Peak(start, curve) {
      var i :| 0 <= i <= last && ([start] + earlier)[i] == Peak(start, earlier);
      assert i > 0 ==> curve[i - 1] == ([start] + earlier)[i];
    } else {
      forall i | 0 <= i < last ensures curve[i] <= curve[last] {
        assert earlier[i] == curve[i];
      }
    }
    assert last !in Below(start, earlier);
  }

  lemma AverageOfBelow(start: real, curve: seq<real>)
    requires start > 0.0
    ensures Times(Average(Depths(start, curve)), |Below(start, curve)| as real) == TotalDrop(start, curve)
  {
    DepthsOfBelow(start, curve);
    var depths := Depths(start, curve);
    if depths != [] {
      OverTimes(Sum(depths), |depths| as real);
    }
  }

  // ----------------------------------------------------- order of the input

  lemma ClosesFirstOrders()
    ensures OrdersAll(ClosesFirst)
  {
  }

  /** What the curve reads of a trade: its close and its P&L. */
  function Bare(t: ClosedTrade): ClosedTrade {
    Row(t.pnl, t.closedAt)
  }

  function AllBare(trades: seq<ClosedTrade>): seq<ClosedTrade> {
    seq(|trades|, i requires 0 <= i < |trades| => Bare(trades[i]))
  }

  lemma {:induction false} CurveReadsBare(start: real, trades: seq<ClosedTrade>)
    ensures Curve(start, AllBare(trades)) == Curve(start, trades)
  {
    if trades != [] {
      var last := |trades| - 1;
      assert AllBare(trades)[..last] == AllBare(trades[..last]);
      CurveReadsBare(start, trades[..last]);
    }
  }

  lemma InsertBare(x: ClosedTrade, trades: seq<ClosedTrade>)
    ensures Insert(Bare(x), AllBare(trades), ClosesFirst) == AllBare(Insert(x, trades, ClosesFirst))
    decreases |trades|
  {
    if trades == [] || ClosesFirst(x, trades[0]) {
      assert AllBare([x] + trades) == [Bare(x)] + AllBare(trades);
    } else {
      InsertBare(x, trades[1..]);
      assert AllBare(trades)[1..] == AllBare(trades[1..]);
      assert AllBare([trades[0]] + Insert(x, trades[1..], ClosesFirst))
          == [Bare(trades[0])] + AllBare(Insert(x, trades[1..], ClosesFirst));
    }
  }

  lemma {:induction false} SortBare(trades: seq<ClosedTrade>)
    ensures Sort(AllBare(trades), ClosesFirst) == AllBare(Sort(trades, ClosesFirst))
  {
    if trades != [] {
      assert AllBare(trades)[1..] == AllBare(trades[1..]);
      SortBare(trades[1..]);
      InsertBare(trades[0], Sort(trades[1..], ClosesFirst));
    }
  }

  lemma BareAround(head: seq<ClosedTrade>, x: ClosedTrade, tail: seq<ClosedTrade>)
    ensures multiset(AllBare(head + [x] + tail)) == multiset(AllBare(head + tail)) + multiset{Bare(x)}
  {
    assert AllBare(head + [x] + tail) == AllBare(head) + [Bare(x)] + AllBare(tail);
    assert AllBare(head + tail) == AllBare(head) + AllBare(tail);
  }

  lemma BareFirst(a: seq<ClosedTrade>)
    requires a != []
    ensures multiset(AllBare(a)) == multiset(AllBare(a[1..])) + multiset{Bare(a[0])}
  {
    BareAround([], a[0], a[1..]);
    assert [] + [a[0]] + a[1..] == a && [] + a[1..] == a[1..];
  }

  lemma TakeOut<T>(b: seq<T>, x: T) returns (j: nat)
    requires x in b
    ensures j < |b| && b[j] == x && b == b[..j] + [x] + b[j + 1..]
    ensures multiset(b[..j] + b[j + 1..]) == multiset(b) - multiset{x}
  {
    j :| j < |b| && b[j] == x;
    assert b == b[..j] + [x] + b[j + 1..];
  }

  lemma {:induction false} BareMultiset(a: seq<ClosedTrade>, b: seq<ClosedTrade>)
    requires multiset(a) == multiset(b)
    ensures multiset(AllBare(a)) == multiset(AllBare(b))
  {
    hide AllBare;
    assert |multiset(a)| == |a| && |multiset(b)| == |b|;
    if a == [] {
      assert b == [];
    } else {
      var x := a[0];
      assert x in multiset(b);
      var j := TakeOut(b, x);
      var head, tail := b[..j], b[j + 1..];
      TailMultiset(a);
      BareMultiset(a[1..], head + tail);
      BareFirst(a);
      BareAround(head, x, tail);
    }
  }

  /** Trades that close together have the same P&L. */
  predicate TiesAgree(trades: seq<ClosedTrade>) {
    forall i, j :: 0 <= i < |trades| && 0 <= j < |trades| && trades[i].closedAt == trades[j].closedAt ==>
                     trades[i].pnl == trades[j].pnl
  }

  lemma AgreeingTiesForgetOrder(a: seq<ClosedTrade>, b: seq<ClosedTrade>, start: real)
    requires multiset(a) == multiset(b) && TiesAgree(a)
    ensures Curve(start, Sort(a, ClosesFirst)) == Curve(start, Sort(b, ClosesFirst))
  {
    ClosesFirstOrders();
    BareMultiset(a, b);
    SortForgetsOrder(AllBare(a), AllBare(b), ClosesFirst);
    SortBare(a);
    SortBare(b);
    CurveReadsBare(start, Sort(a, ClosesFirst));
    CurveReadsBare(start, Sort(b, ClosesFirst));
  }

  /** Where a stable sort puts a trade: after every strictly earlier close, before all others. */
  function Earlier(t: Time, trades: seq<ClosedTrade>): nat {
    if trades == [] || t <= trades[0].closedAt then 0 else 1 + Earlier(t, trades[1..])
  }

  lemma {:induction false} InsertAt(x: ClosedTrade, trades: seq<ClosedTrade>)
    ensures Earlier(x.closedAt, trades) <= |trades|
    ensures var k := Earlier(x.closedAt, trades);
            Insert(x, trades, ClosesFirst) == trades[..k] + [x] + trades[k..]
    ensures Earlier(x.closedAt, Insert(x, trades, ClosesFirst)) == Earlier(x.closedAt, trades)
    decreases |trades|
  {
    if trades != [] && !ClosesFirst(x, trades[0]) {
      InsertAt(x, trades[1..]);
      var k := Earlier(x.closedAt, trades[1..]);
      assert trades[..k + 1] == [trades[0]] + trades[1..][..k] && trades[k + 1..] == trades[1..][k..];
    }
  }

  /** Two trades that close together lead the sorted list's tie in their input order. */
  lemma TieKeepsInputOrder(x: ClosedTrade, y: ClosedTrade, rest: seq<ClosedTrade>)
    requires x.closedAt == y.closedAt
    ensures var sorted := Sort(rest, ClosesFirst);
            var k := Earlier(x.closedAt, sorted);
            && k <= |sorted|
            && Sort([x, y] + rest, ClosesFirst) == sorted[..k] + [x, y] + sorted[k..]
  {
    var sorted := Sort(rest, ClosesFirst);
    var k := Earlier(x.closedAt, sorted);
    assert ([x, y] + rest)[1..] == [y] + rest && ([y] + rest)[1..] == rest;
    InsertAt(y, sorted);
    var one := Insert(y, sorted, ClosesFirst);
    InsertAt(x, one);
    CutAt(sorted[..k], y, sorted[k..]);
    assert sorted[..k] + [x] + ([y] + sorted[k..]) == sorted[..k] + [x, y] + sorted[k..];
  }

  lemma CutAt<T>(head: seq<T>, x: T, tail: seq<T>)
    ensures (head + [x] + tail)[..|head|] == head && (head + [x] + tail)[|head|..] == [x] + tail
  {
  }

  lemma {:induction false} CurveAt(start: real, head: seq<ClosedTrade>, x: ClosedTrade, tail: seq<ClosedTrade>)
    ensures |Curve(start, head + [x] + tail)| == |head| + 1 + |tail| && |Curve(start, head)| == |head|
    ensures Curve(start, head + [x] + tail)[|head|]
            == (if head == [] then start else Curve(start, head)[|head| - 1]) + x.pnl
    decreases |tail|
  {
    var all := head + [x] + tail;
    CurveLength(start, all);
    CurveLength(start, head);
    CurveLength(start, all[..|all| - 1]);
    if tail == [] {
      assert all[..|all| - 1] == head;
    } else {
      assert all[..|all| - 1] == head + [x] + tail[..|tail| - 1];
      CurveAt(start, head, x, tail[..|tail| - 1]);
    }
  }

  /** Swapping two tied trades of different P&L changes the curve. */
  lemma SwappedTieShows(x: ClosedTrade, y: ClosedTrade, rest: seq<ClosedTrade>, start: real)
    requires x.closedAt == y.closedAt && x.pnl != y.pnl
    ensures Curve(start, Sort([x, y] + rest, ClosesFirst)) != Curve(start, Sort([y, x] + rest, ClosesFirst))
  {
    var sorted := Sort(rest, ClosesFirst);
    var k := Earlier(x.closedAt, sorted);
    TieKeepsInputOrder(x, y, rest);
    TieKeepsInputOrder(y, x, rest);
    var head, tail := sorted[..k], sorted[k..];
    assert head + [x, y] + tail == head + [x] + ([y] + tail);
    assert head + [y, x] + tail == head + [y] + ([x] + tail);
    CurveAt(start, head, x, [y] + tail);
    CurveAt(start, head, y, [x] + tail);
  }

  lemma TwoInFront(a: seq<ClosedTrade>, i: nat, j: nat) returns (rest: seq<ClosedTrade>)
    requires i < j < |a|
    ensures multiset([a[i], a[j]] + rest) == multiset(a) == multiset([a[j], a[i]] + rest)
  {
    rest := a[..i] + a[i + 1..j] + a[j + 1..];
    assert a == a[..i] + [a[i]] + a[i + 1..j] + [a[j]] + a[j + 1..];
  }

  ghost predicate SameCurveInAnyOrder(a: seq<ClosedTrade>, start: real) {
    forall b: seq<ClosedTrade> :: multiset(b) == multiset(a) ==>
                                    Curve(start, Sort(b, ClosesFirst)) == Curve(start, Sort(a, ClosesFirst))
  }

  lemma DisagreeingTieShows(a: seq<ClosedTrade>, i: nat, j: nat, start: real)
    requires i < j < |a| && a[i].closedAt == a[j].closedAt && a[i].pnl != a[j].pnl
    ensures !SameCurveInAnyOrder(a, start)
  {
    hide Curve, Sort;
    var rest := TwoInFront(a, i, j);
    SwappedTieShows(a[i], a[j], rest, start);
  }

  /** Every input order of the same trades gives the same curve, hence the same drawdowns, exactly when
      trades that close together have equal P&L. */
  lemma OrderForgottenIff(a: seq<ClosedTrade>, start: real)
    ensures SameCurveInAnyOrder(a, start) <==> TiesAgree(a)
  {
    hide Curve, Sort;
    if TiesAgree(a) {
      forall b: seq<ClosedTrade> | multiset(b) == multiset(a)
        ensures Curve(start, Sort(b, ClosesFirst)) == Curve(start, Sort(a, ClosesFirst))
      {
        AgreeingTiesForgetOrder(a, b, start);
      }
    } else {
      var i, j :| 0 <= i < |a| && 0 <= j < |a| && a[i].closedAt == a[j].closedAt && a[i].pnl != a[j].pnl;
      if i < j {
        DisagreeingTieShows(a, i, j, start);
      } else {
        DisagreeingTieShows(a, j, i, start);
      }
    }
  }

  function Row(pnl: real, closedAt: Time): ClosedTrade {
    ClosedTrade(pnl, None, None, closedAt, None, None, None)
  }

  /** With equal close times the input order shows: +10 then -10 from 10 is a 50% drawdown, the other
      way round 100%. */
  lemma TiesMakeOrderMatter()
    ensures var up, down := Row(10.0, 0), Row(-10.0, 0);
            && multiset([up, down]) == multiset([down, up])
            && Worst(10.0, Curve(10.0, Sort([up, down], ClosesFirst))) == 0.5
            && Worst(10.0, Curve(10.0, Sort([down, up], ClosesFirst))) == 1.0
  {
    var up, down := Row(10.0, 0), Row(-10.0, 0);
    TwoTrades(up, down);
    TwoTrades(down, up);
    assert Drop(20.0, 10.0) == 0.5 && Drop(20.0, 20.0) == 0.0;
    assert Drop(10.0, 0.0) == 1.0 && Drop(10.0, 10.0) == 0.0;
  }

  lemma TwoTrades(a: ClosedTrade, b: ClosedTrade)
    requires a.closedAt == b.closedAt == 0
    ensures var s := 10.0 + a.pnl;
            var p1 := Max(10.0, s);
            var p2 := Max(p1, s + b.pnl);
            Worst(10.0, Curve(10.0, Sort([a, b], ClosesFirst)))
            == Max(Max(0.0, Drop(p1, s)), Drop(p2, s + b.pnl))
  {
    assert [a, b][1..] == [b] && [b][1..] == [];
    assert Sort([b], ClosesFirst) == [b];
    assert Sort([a, b], ClosesFirst) == [a, b];
    assert [a, b][..1] == [a] && [a][..0] == [];
    var s := 10.0 + a.pnl;
    assert Curve(10.0, [a]) == [s];
    assert Curve(10.0, [a, b]) == [s, s + b.pnl];
    assert [s, s + b.pnl][..1] == [s] && [s][..0] == [];
    assert Peak(10.0, [s]) == Max(10.0, s);
    assert Worst(10.0, [s]) == Max(0.0, Drop(Max(10.0, s), s));
  }
}
