/** Performance broken out by a journal dimension: the cohorts partition the trades, so every additive
    figure adds up and the parent expectancy is the weighted mean of the cohorts'. */
module Breakdowns {
  import opened Arithmetic
  import opened Common
  import opened Sorting
  import P = Performance

  type Trade = P.ClosedTrade

  /** Cohort names; the order of the numbers stands for the order of the names. */
  type Label = nat

  // --------------------------------------------------------------- figures

  function SumBy(trades: seq<Trade>, f: Trade -> real): real {
    if trades == [] then 0.0 else SumBy(trades[..|trades| - 1], f) + f(trades[|trades| - 1])
  }

  function One(t: Trade): real { 1.0 }
  function Win(t: Trade): real { if t.pnl > 0.0 then 1.0 else 0.0 }
  function Loss(t: Trade): real { if t.pnl < 0.0 then 1.0 else 0.0 }
  function Tracked(t: Trade): real { if t.rMultiple.Some? then 1.0 else 0.0 }
  function R(t: Trade): real { if t.rMultiple.Some? then t.rMultiple.value else 0.0 }
  function Pnl(t: Trade): real { t.pnl }
  function Fee(t: Trade): real { if t.fees.Some? then t.fees.value else 0.0 }

  /** `total_r / count` over the trades with a known R; unknown when there is none. */
  function Expectancy(trades: seq<Trade>): Option<real> {
    var n := SumBy(trades, Tracked);
    if n == 0.0 then None else Some(Over(SumBy(trades, R), n))
  }

  // --------------------------------------------------------------- cohorts

  datatype Cohort = Cohort(key: Label, trades: seq<Trade>)

  type KeyOf = Trade -> Option<Label>

  function LabelOf(keyOf: KeyOf, catchAll: Label, t: Trade): Label {
    if keyOf(t).Some? then keyOf(t).value else catchAll
  }

  /** The trades of one label, in their input order. */
  function Group(trades: seq<Trade>, keyOf: KeyOf, catchAll: Label, key: Label): seq<Trade> {
    if trades == [] then [] else
      var earlier := Group(trades[..|trades| - 1], keyOf, catchAll, key);
      var t := trades[|trades| - 1];
      if LabelOf(keyOf, catchAll, t) == key then earlier + [t] else earlier
  }

  /** Larger cohorts first, ties by name, the catch-all after everything else. */
  predicate RanksBefore(catchAll: Label, a: Cohort, b: Cohort) {
    if (a.key == catchAll) != (b.key == catchAll) then b.key == catchAll
    else |a.trades| > |b.trades| || (|a.trades| == |b.trades| && a.key <= b.key)
  }

  predicate DistinctKeys(cohorts: seq<Cohort>) {
    forall i, j :: 0 <= i < j < |cohorts| ==> cohorts[i].key != cohorts[j].key
  }

  /** Each label that occurs has exactly one cohort, holding exactly its trades. */
  ghost predicate Partition(trades: seq<Trade>, keyOf: KeyOf, catchAll: Label, cohorts: seq<Cohort>) {
    && DistinctKeys(cohorts)
    && (forall i :: 0 <= i < |cohorts| ==>
          cohorts[i].trades == Group(trades, keyOf, catchAll, cohorts[i].key) && cohorts[i].trades != [])
    && (forall i :: 0 <= i < |trades| ==> HasCohort(cohorts, LabelOf(keyOf, catchAll, trades[i])))
  }

  ghost predicate HasCohort(cohorts: seq<Cohort>, key: Label) {
    exists i :: 0 <= i < |cohorts| && cohorts[i].key == key
  }

  /** `_cohorts`: one pass that files each trade under its label, then the ranking. */
  method Cohorts(trades: seq<Trade>, keyOf: KeyOf, catchAll: Label) returns (cohorts: seq<Cohort>)
    ensures Partition(trades, keyOf, catchAll, cohorts)
    ensures Sorted(cohorts, (a: Cohort, b: Cohort) => RanksBefore(catchAll, a, b))
    ensures forall i :: 0 <= i < |cohorts| && cohorts[i].key == catchAll ==> i == |cohorts| - 1
    ensures BySize(catchAll, cohorts) && ByLabel(trades, keyOf, catchAll, cohorts)
  {
    hide BySize, ByLabel, Group, LabelOf;
    var groups: map<Label, seq<Trade>> := map[];
    NoGroups(keyOf, catchAll);
    assert trades[..0] == [];
    for i := 0 to |trades|
      invariant forall k: Label :: k in groups ==>
                  groups[k] == Group(trades[..i], keyOf, catchAll, k) && groups[k] != []
      invariant forall k: Label :: k !in groups ==> Group(trades[..i], keyOf, catchAll, k) == []
      invariant forall j :: 0 <= j < i ==> LabelOf(keyOf, catchAll, trades[j]) in groups
    {
      GroupNext(trades, i, keyOf, catchAll);
      var key := LabelOf(keyOf, catchAll, trades[i]);
      groups := groups[key := (if key in groups then groups[key] else []) + [trades[i]]];
    }
    assert trades[..|trades|] == trades;
    var items := Items(groups);
    var le := (a: Cohort, b: Cohort) => RanksBefore(catchAll, a, b);
    cohorts := Sort(items, le);
    SortSorted(items, le);
    SortMultiset(items, le);
    RankedPartition(trades, keyOf, catchAll, groups, items, cohorts);
    forall i | 0 <= i < |cohorts| - 1 ensures cohorts[i].key != catchAll {
      assert le(cohorts[i], cohorts[i + 1]) && cohorts[i].key != cohorts[i + 1].key;
    }
    RankedBySize(catchAll, cohorts);
    FiledUnderLabel(trades, keyOf, catchAll, cohorts);
  }

  lemma GroupNext(trades: seq<Trade>, i: nat, keyOf: KeyOf, catchAll: Label)
    requires i < |trades|
    ensures forall k :: Group(trades[..i + 1], keyOf, catchAll, k)
                        == Group(trades[..i], keyOf, catchAll, k)
                           + if LabelOf(keyOf, catchAll, trades[i]) == k then [trades[i]] else []
  {
    assert trades[..i + 1][..i] == trades[..i];
  }

  lemma NoGroups(keyOf: KeyOf, catchAll: Label)
    ensures forall k :: Group([], keyOf, catchAll, k) == []
  {
  }

  lemma RankedBySize(catchAll: Label, cohorts: seq<Cohort>)
    requires DistinctKeys(cohorts) && Sorted(cohorts, (a: Cohort, b: Cohort) => RanksBefore(catchAll, a, b))
    ensures BySize(catchAll, cohorts)
  {
    var le := (a: Cohort, b: Cohort) => RanksBefore(catchAll, a, b);
    forall i, j | 0 <= i < j < |cohorts| && cohorts[j].key != catchAll
      ensures || |cohorts[i].trades| > |cohorts[j].trades|
              || (|cohorts[i].trades| == |cohorts[j].trades| && cohorts[i].key < cohorts[j].key)
    {
      assert le(cohorts[i], cohorts[j]) && cohorts[i].key != cohorts[j].key;
    }
  }

  lemma FiledUnderLabel(trades: seq<Trade>, keyOf: KeyOf, catchAll: Label, cohorts: seq<Cohort>)
    requires Partition(trades, keyOf, catchAll, cohorts)
    ensures ByLabel(trades, keyOf, catchAll, cohorts)
  {
    forall i, t | 0 <= i < |cohorts|
      ensures t in cohorts[i].trades <==>
                t in trades && (keyOf(t) == Some(cohorts[i].key) || (keyOf(t) == None && cohorts[i].key == catchAll))
    {
      GroupMembers(trades, keyOf, catchAll, cohorts[i].key, t);
    }
  }

  /** Before the catch-all the larger cohort comes first, of equal ones the smaller name. */
  predicate BySize(catchAll: Label, cohorts: seq<Cohort>) {
    forall i, j :: 0 <= i < j < |cohorts| && cohorts[j].key != catchAll ==>
      || |cohorts[i].trades| > |cohorts[j].trades|
      || (|cohorts[i].trades| == |cohorts[j].trades| && cohorts[i].key < cohorts[j].key)
  }

  /** A trade is in the cohort of its label, or in the catch-all when it has none. */
  ghost predicate ByLabel(trades: seq<Trade>, keyOf: KeyOf, catchAll: Label, cohorts: seq<Cohort>) {
    forall i, t :: 0 <= i < |cohorts| ==>
      (t in cohorts[i].trades <==>
         t in trades && (keyOf(t) == Some(cohorts[i].key) || (keyOf(t) == None && cohorts[i].key == catchAll)))
  }

  lemma {:induction false} GroupMembers(trades: seq<Trade>, keyOf: KeyOf, catchAll: Label, key: Label, t: Trade)
    ensures t in Group(trades, keyOf, catchAll, key) <==>
              t in trades && (keyOf(t) == Some(key) || (keyOf(t) == None && key == catchAll))
  {
    if trades != [] {
      var earlier, last := trades[..|trades| - 1], trades[|trades| - 1];
      GroupMembers(earlier, keyOf, catchAll, key, t);
      assert trades == earlier + [last];
    }
  }

  /** The items of the dictionary, in whatever order it yields them. */
  method Items(groups: map<Label, seq<Trade>>) returns (items: seq<Cohort>)
    ensures DistinctKeys(items)
    ensures forall i :: 0 <= i < |items| ==> items[i].key in groups && items[i].trades == groups[items[i].key]
    ensures forall k: Label :: k in groups ==> HasCohort(items, k)
  {
    items := [];
    var rest := groups.Keys;
    while rest != {}
      invariant rest <= groups.Keys && DistinctKeys(items)
      invariant forall i :: 0 <= i < |items| ==>
                  items[i].key in groups && items[i].key !in rest && items[i].trades == groups[items[i].key]
      invariant forall k: Label :: k in groups && k !in rest ==> HasCohort(items, k)
      decreases rest
    {
      var k: Label :| k in rest;
      ghost var before := items;
      items := items + [Cohort(k, groups[k])];
      rest := rest - {k};
      forall x: Label | x in groups && x !in rest ensures HasCohort(items, x) {
        if x == k {
          assert items[|before|].key == x;
        } else {
          var i :| 0 <= i < |before| && before[i].key == x;
          assert items[i].key == x;
        }
      }
    }
  }

  lemma RankedPartition(trades: seq<Trade>, keyOf: KeyOf, catchAll: Label, groups: map<Label, seq<Trade>>,
                        items: seq<Cohort>, cohorts: seq<Cohort>)
    requires DistinctKeys(items) && multiset(cohorts) == multiset(items)
    requires forall i :: 0 <= i < |items| ==> items[i].key in groups && items[i].trades == groups[items[i].key]
    requires forall k: Label :: k in groups ==>
                                  HasCohort(items, k) && groups[k] == Group(trades, keyOf, catchAll, k) && groups[k] != []
    requires forall j :: 0 <= j < |trades| ==> LabelOf(keyOf, catchAll, trades[j]) in groups
    ensures Partition(trades, keyOf, catchAll, cohorts)
  {
    forall i | 0 <= i < |cohorts|
      ensures cohorts[i].trades == Group(trades, keyOf, catchAll, cohorts[i].key) && cohorts[i].trades != []
    {
      assert cohorts[i] in multiset(items);
      var j :| 0 <= j < |items| && items[j] == cohorts[i];
    }
    forall i | 0 <= i < |trades| ensures HasCohort(cohorts, LabelOf(keyOf, catchAll, trades[i])) {
      var k := LabelOf(keyOf, catchAll, trades[i]);
      assert HasCohort(items, k);
      var j :| 0 <= j < |items| && items[j].key == k;
      assert items[j] in multiset(cohorts);
      var m :| 0 <= m < |cohorts| && cohorts[m] == items[j];
    }
    PermutedKeysDistinct(items, cohorts);
  }

  lemma PermutedKeysDistinct(items: seq<Cohort>, cohorts: seq<Cohort>)
    requires DistinctKeys(items) && multiset(cohorts) == multiset(items)
    ensures DistinctKeys(cohorts)
  {
    forall i, j | 0 <= i < j < |cohorts| ensures cohorts[i].key != cohorts[j].key {
      var a, b := cohorts[i], cohorts[j];
      assert a in multiset(items) && b in multiset(items);
      var p :| 0 <= p < |items| && items[p] == a;
      var q :| 0 <= q < |items| && items[q] == b;
      OnceWhenDistinct(items, p);
      if a == b {
        TwiceInMultiset(cohorts, i, j);
      }
    }
  }

  lemma OnceWhenDistinct(items: seq<Cohort>, p: nat)
    requires DistinctKeys(items) && p < |items|
    ensures multiset(items)[items[p]] == 1
  {
    var x := items[p];
    assert items == items[..p] + [x] + items[p + 1..];
    assert x !in items[..p] && x !in items[p + 1..];
  }

  lemma TwiceInMultiset(cohorts: seq<Cohort>, i: nat, j: nat)
    requires i < j < |cohorts| && cohorts[i] == cohorts[j]
    ensures multiset(cohorts)[cohorts[j]] >= 2
  {
    var x := cohorts[j];
    assert cohorts == cohorts[..j] + [x] + cohorts[j + 1..];
    assert cohorts[..j][i] == x && x in cohorts[..j];
  }

  // ------------------------------------------------------------ adding up

  function CohortSum(cohorts: seq<Cohort>, f: Trade -> real): real {
    if cohorts == [] then 0.0 else
      CohortSum(cohorts[..|cohorts| - 1], f) + SumBy(cohorts[|cohorts| - 1].trades, f)
  }

  function GroupSum(keys: seq<Label>, trades: seq<Trade>, keyOf: KeyOf, catchAll: Label, f: Trade -> real): real {
    if keys == [] then 0.0 else
      GroupSum(keys[..|keys| - 1], trades, keyOf, catchAll, f)
      + SumBy(Group(trades, keyOf, catchAll, keys[|keys| - 1]), f)
  }

  predicate Distinct(keys: seq<Label>) {
    forall i, j :: 0 <= i < j < |keys| ==> keys[i] != keys[j]
  }

  /** One more trade adds its figure to exactly one group: its own. */
  lemma {:induction false} OneMoreTrade(keys: seq<Label>, trades: seq<Trade>, t: Trade, keyOf: KeyOf, catchAll: Label,
                                        f: Trade -> real)
    requires Distinct(keys)
    ensures GroupSum(keys, trades + [t], keyOf, catchAll, f)
            == GroupSum(keys, trades, keyOf, catchAll, f)
               + if LabelOf(keyOf, catchAll, t) in keys then f(t) else 0.0
  {
    if keys != [] {
      var fewer := keys[..|keys| - 1];
      var last := keys[|keys| - 1];
      OneMoreTrade(fewer, trades, t, keyOf, catchAll, f);
      assert (trades + [t])[..|trades + [t]| - 1] == trades;
      var g := Group(trades, keyOf, catchAll, last);
      assert (g + [t])[..|g + [t]| - 1] == g;
      assert keys == fewer + [last];
      assert last !in fewer;
    }
  }

  lemma {:induction false} GroupsAddUp(keys: seq<Label>, trades: seq<Trade>, keyOf: KeyOf, catchAll: Label,
                                       f: Trade -> real)
    requires Distinct(keys)
    requires forall i :: 0 <= i < |trades| ==> LabelOf(keyOf, catchAll, trades[i]) in keys
    ensures GroupSum(keys, trades, keyOf, catchAll, f) == SumBy(trades, f)
  {
    if trades == [] {
      EmptyGroups(keys, keyOf, catchAll, f);
    } else {
      var earlier := trades[..|trades| - 1];
      var t := trades[|trades| - 1];
      assert trades == earlier + [t];
      assert LabelOf(keyOf, catchAll, t) in keys;
      GroupsAddUp(keys, earlier, keyOf, catchAll, f);
      OneMoreTrade(keys, earlier, t, keyOf, catchAll, f);
    }
  }

  lemma {:induction false} EmptyGroups(keys: seq<Label>, keyOf: KeyOf, catchAll: Label, f: Trade -> real)
    ensures GroupSum(keys, [], keyOf, catchAll, f) == 0.0
  {
    if keys != [] {
      EmptyGroups(keys[..|keys| - 1], keyOf, catchAll, f);
    }
  }

  function Keys(cohorts: seq<Cohort>): seq<Label> {
    seq(|cohorts|, i requires 0 <= i < |cohorts| => cohorts[i].key)
  }

  lemma {:induction false} CohortSumIsGroupSum(cohorts: seq<Cohort>, trades: seq<Trade>, keyOf: KeyOf, catchAll: Label,
                                               f: Trade -> real)
    requires forall i :: 0 <= i < |cohorts| ==>
                           cohorts[i].trades == Group(trades, keyOf, catchAll, cohorts[i].key)
    ensures CohortSum(cohorts, f) == GroupSum(Keys(cohorts), trades, keyOf, catchAll, f)
  {
    if cohorts != [] {
      var fewer := cohorts[..|cohorts| - 1];
      CohortSumIsGroupSum(fewer, trades, keyOf, catchAll, f);
      assert Keys(cohorts)[..|cohorts| - 1] == Keys(fewer);
    }
  }

  /** Any figure that is a sum over trades adds up across the cohorts of any dimension. */
  lemma CohortsAddUp(trades: seq<Trade>, keyOf: KeyOf, catchAll: Label, cohorts: seq<Cohort>, f: Trade -> real)
    requires Partition(trades, keyOf, catchAll, cohorts)
    ensures CohortSum(cohorts, f) == SumBy(trades, f)
  {
    CohortSumIsGroupSum(cohorts, trades, keyOf, catchAll, f);
    forall i | 0 <= i < |trades| ensures LabelOf(keyOf, catchAll, trades[i]) in Keys(cohorts) {
      var k := LabelOf(keyOf, catchAll, trades[i]);
      assert HasCohort(cohorts, k);
      var j :| 0 <= j < |cohorts| && cohorts[j].key == k;
      assert Keys(cohorts)[j] == k;
    }
    GroupsAddUp(Keys(cohorts), trades, keyOf, catchAll, f);
  }

  /** The reported figures are such sums: counts, wins, losses, P&L, fees and total R. */
  lemma FiguresAddUp(trades: seq<Trade>, keyOf: KeyOf, catchAll: Label, cohorts: seq<Cohort>)
    requires Partition(trades, keyOf, catchAll, cohorts)
    ensures CohortSum(cohorts, One) == |trades| as real
    ensures CohortSum(cohorts, Win) == SumBy(trades, Win) && CohortSum(cohorts, Loss) == SumBy(trades, Loss)
    ensures CohortSum(cohorts, Pnl) == SumBy(trades, Pnl) && CohortSum(cohorts, Fee) == SumBy(trades, Fee)
    ensures CohortSum(cohorts, R) == SumBy(trades, R) && CohortSum(cohorts, Tracked) == SumBy(trades, Tracked)
  {
    CohortsAddUp(trades, keyOf, catchAll, cohorts, One);
    CohortsAddUp(trades, keyOf, catchAll, cohorts, Win);
    CohortsAddUp(trades, keyOf, catchAll, cohorts, Loss);
    CohortsAddUp(trades, keyOf, catchAll, cohorts, Pnl);
    CohortsAddUp(trades, keyOf, catchAll, cohorts, Fee);
    CohortsAddUp(trades, keyOf, catchAll, cohorts, R);
    CohortsAddUp(trades, keyOf, catchAll, cohorts, Tracked);
    OneEach(trades);
  }

  /** The places of the trades with a property. */
  function Where(trades: seq<Trade>, p: Trade -> bool): set<nat> {
    set i: nat | i < |trades| && p(trades[i])
  }

  predicate Won(t: Trade) { t.pnl > 0.0 }
  predicate LostMoney(t: Trade) { t.pnl < 0.0 }
  predicate HasR(t: Trade) { t.rMultiple.Some? }

  /** Wins and losses count the trades above and below zero, tracked trades those with a known R; the rest are
      break-even and untracked. A trade without a recorded fee or R adds nothing to those sums. */
  lemma {:induction false} FiguresCount(trades: seq<Trade>)
    ensures SumBy(trades, Win) == |Where(trades, Won)| as real
    ensures SumBy(trades, Loss) == |Where(trades, LostMoney)| as real
    ensures SumBy(trades, Tracked) == |Where(trades, HasR)| as real
    ensures (forall i :: 0 <= i < |trades| ==> trades[i].fees.None?) ==> SumBy(trades, Fee) == 0.0
    ensures (forall i :: 0 <= i < |trades| ==> trades[i].rMultiple.None?) ==> SumBy(trades, R) == 0.0
    ensures trades != [] ==>
              var earlier, t := trades[..|trades| - 1], trades[|trades| - 1];
              && (t.fees.Some? ==> SumBy(trades, Fee) == SumBy(earlier, Fee) + t.fees.value)
              && (t.rMultiple.Some? ==> SumBy(trades, R) == SumBy(earlier, R) + t.rMultiple.value)
              && SumBy(trades, Pnl) == SumBy(earlier, Pnl) + t.pnl
  {
    if trades == [] {
      assert Where(trades, Won) == {} && Where(trades, LostMoney) == {} && Where(trades, HasR) == {};
    } else {
      FiguresCount(trades[..|trades| - 1]);
      CountGrows(trades, Won);
      CountGrows(trades, LostMoney);
      CountGrows(trades, HasR);
    }
  }

  lemma CountGrows(trades: seq<Trade>, p: Trade -> bool)
    requires trades != []
    ensures var last := |trades| - 1;
            |Where(trades, p)| == |Where(trades[..last], p)| + if p(trades[last]) then 1 else 0
  {
    var last := |trades| - 1;
    assert Where(trades, p) == Where(trades[..last], p) + if p(trades[last]) then {last} else {};
  }

  lemma {:induction false} OneEach(trades: seq<Trade>)
    ensures SumBy(trades, One) == |trades| as real
  {
    if trades != [] {
      OneEach(trades[..|trades| - 1]);
    }
  }

  /** Every cohort's trades, put together, are the parent's trades with the same multiplicities. */
  lemma CohortsPartitionTrades(trades: seq<Trade>, keyOf: KeyOf, catchAll: Label, cohorts: seq<Cohort>, x: Trade)
    requires Partition(trades, keyOf, catchAll, cohorts)
    ensures CohortSum(cohorts, t => if t == x then 1.0 else 0.0) == multiset(trades)[x] as real
  {
    var f := (t: Trade) => if t == x then 1.0 else 0.0;
    CohortsAddUp(trades, keyOf, catchAll, cohorts, f);
    CountIs(trades, x, f);
  }

  lemma {:induction false} CountIs(trades: seq<Trade>, x: Trade, f: Trade -> real)
    requires forall t :: f(t) == if t == x then 1.0 else 0.0
    ensures SumBy(trades, f) == multiset(trades)[x] as real
  {
    if trades != [] {
      var earlier := trades[..|trades| - 1];
      assert trades == earlier + [trades[|trades| - 1]];
      CountIs(earlier, x, f);
    }
  }

  /** A cohort's expectancy times the number of trades behind it, zero when it has none. */
  function Weighted(trades: seq<Trade>): real {
    if Expectancy(trades).None? then 0.0 else Times(Expectancy(trades).value, SumBy(trades, Tracked))
  }

  function WeightedSum(cohorts: seq<Cohort>): real {
    if cohorts == [] then 0.0 else WeightedSum(cohorts[..|cohorts| - 1]) + Weighted(cohorts[|cohorts| - 1].trades)
  }

  lemma {:induction false} NoTrackedNoR(trades: seq<Trade>)
    ensures SumBy(trades, Tracked) >= 0.0
    ensures SumBy(trades, Tracked) == 0.0 ==> SumBy(trades, R) == 0.0
  {
    if trades != [] {
      NoTrackedNoR(trades[..|trades| - 1]);
    }
  }

  lemma WeightedIsTotalR(trades: seq<Trade>)
    ensures Weighted(trades) == SumBy(trades, R)
  {
    NoTrackedNoR(trades);
    if SumBy(trades, Tracked) != 0.0 {
      OverTimes(SumBy(trades, R), SumBy(trades, Tracked));
    }
  }

  lemma {:induction false} WeightedSumIsCohortR(cohorts: seq<Cohort>)
    ensures WeightedSum(cohorts) == CohortSum(cohorts, R)
  {
    if cohorts != [] {
      WeightedSumIsCohortR(cohorts[..|cohorts| - 1]);
      WeightedIsTotalR(cohorts[|cohorts| - 1].trades);
    }
  }

  /** The parent expectancy is the mean of the cohort expectancies, weighted by R-tracked trades; it is
      unknown exactly when no cohort has a tracked trade. */
  lemma ExpectancyIsWeightedMean(trades: seq<Trade>, keyOf: KeyOf, catchAll: Label, cohorts: seq<Cohort>)
    requires Partition(trades, keyOf, catchAll, cohorts)
    ensures Expectancy(trades).None? <==> CohortSum(cohorts, Tracked) == 0.0
    ensures Expectancy(trades).Some? ==>
              CohortSum(cohorts, Tracked) > 0.0
              && Expectancy(trades).value == Over(WeightedSum(cohorts), CohortSum(cohorts, Tracked))
  {
    CohortsAddUp(trades, keyOf, catchAll, cohorts, Tracked);
    CohortsAddUp(trades, keyOf, catchAll, cohorts, R);
    WeightedSumIsCohortR(cohorts);
    NoTrackedNoR(trades);
  }
}
