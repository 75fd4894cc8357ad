/** The clustered loss count: one greedy pass, and the minimum interval cover it computes. */
module LossClusters {
  import opened Common

  datatype ClosedPosition = ClosedPosition(pnl: Option<real>, closedAt: Option<Time>)

  // ---------------------------------------------------------- specification

  predicate BeforeReset(p: ClosedPosition, resetAt: Option<Time>) {
    resetAt.Some? && p.closedAt.Some? && p.closedAt.value <= resetAt.value
  }

  predicate Loses(p: ClosedPosition) {
    p.pnl.Some? && p.pnl.value < 0.0
  }

  /** Close times of the losing run at the head of the list, up to the reset boundary. */
  function Streak(closed: seq<ClosedPosition>, resetAt: Option<Time>): seq<Option<Time>> {
    if closed == [] || BeforeReset(closed[0], resetAt) || !Loses(closed[0]) then []
    else [closed[0].closedAt] + Streak(closed[1..], resetAt)
  }

  predicate OpensCluster(start: Option<Time>, t: Option<Time>, window: int) {
    t.None? || start.None? || t.value - start.value > window
  }

  /** Clusters met from here on, oldest first, the current one having begun at `start`. */
  function Clusters(times: seq<Option<Time>>, start: Option<Time>, window: int): nat {
    if times == [] then 0
    else if OpensCluster(start, times[0], window) then 1 + Clusters(times[1..], times[0], window)
    else Clusters(times[1..], start, window)
  }

  function Reversed<T>(xs: seq<T>): seq<T> {
    if xs == [] then [] else Reversed(xs[1..]) + [xs[0]]
  }

  // ------------------------------------------------------------- the method

  /** `_count_consecutive_losses`: the losing run, then its clusters walked oldest first. When every
      close time is known and the list is newest first, the count is the least number of closed
      windows of the given length that cover the whole losing run. */
  method CountConsecutiveLosses(closed: seq<ClosedPosition>, resetAt: Option<Time>, window: int)
    returns (lossEvents: nat, lastLossClosedAt: Option<Time>)
    requires window >= 0
    ensures lossEvents == Clusters(Reversed(Streak(closed, resetAt)), None, window)
    ensures lastLossClosedAt == if Streak(closed, resetAt) == [] then None else Streak(closed, resetAt)[0]
    ensures NewestFirst(closed) ==>
              MinimumCover(lossEvents, Known(Reversed(Streak(closed, resetAt))), window)
  {
    hide MinimumCover, Known, NewestFirst, Streak, Clusters, Reversed, BeforeReset, Loses, OpensCluster;
    var streak: seq<Option<Time>> := [];
    var i := 0;
    assert closed[0..] == closed;
    while i < |closed|
      invariant i <= |closed|
      invariant streak + Streak(closed[i..], resetAt) == Streak(closed, resetAt)
      decreases |closed| - i
    {
      StreakNext(closed, i, resetAt);
      var position := closed[i];
      if BeforeReset(position, resetAt) {
        break;
      }
      if !Loses(position) {
        break;
      }
      Regroup(streak, position.closedAt, Streak(closed[i + 1..], resetAt));
      streak := streak + [position.closedAt];
      i := i + 1;
    }
    StreakNext(closed, i, resetAt);
    assert streak == Streak(closed, resetAt);

    var oldestFirst := Reversed(streak);
    lossEvents := 0;
    var start: Option<Time> := None;
    assert oldestFirst[0..] == oldestFirst;
    for j := 0 to |oldestFirst|
      invariant lossEvents + Clusters(oldestFirst[j..], start, window) == Clusters(oldestFirst, None, window)
    {
      ClustersNext(oldestFirst, j, start, window);
      if OpensCluster(start, oldestFirst[j], window) {
        lossEvents := lossEvents + 1;
        start := oldestFirst[j];
      }
    }
    ClustersNext(oldestFirst, |oldestFirst|, start, window);
    lastLossClosedAt := if streak == [] then None else streak[0];
    LossEventsAreMinimumCover(closed, resetAt, window);
  }

  lemma Regroup<T>(a: seq<T>, x: T, b: seq<T>)
    ensures a + ([x] + b) == a + [x] + b
  {
  }

  lemma StreakNext(closed: seq<ClosedPosition>, i: nat, resetAt: Option<Time>)
    requires i <= |closed|
    ensures Streak(closed[i..], resetAt)
            == if i == |closed| || BeforeReset(closed[i], resetAt) || !Loses(closed[i]) then []
               else [closed[i].closedAt] + Streak(closed[i + 1..], resetAt)
  {
    if i < |closed| {
      assert closed[i..][1..] == closed[i + 1..];
    }
  }

  lemma ClustersNext(times: seq<Option<Time>>, j: nat, start: Option<Time>, window: int)
    requires j <= |times|
    ensures Clusters(times[j..], start, window)
            == if j == |times| then 0
               else if OpensCluster(start, times[j], window) then 1 + Clusters(times[j + 1..], times[j], window)
               else Clusters(times[j + 1..], start, window)
  {
    if j < |times| {
      assert times[j..][1..] == times[j + 1..];
    }
  }

  lemma LossEventsAreMinimumCover(closed: seq<ClosedPosition>, resetAt: Option<Time>, window: int)
    requires window >= 0
    ensures var oldestFirst := Reversed(Streak(closed, resetAt));
            NewestFirst(closed) ==> MinimumCover(Clusters(oldestFirst, None, window), Known(oldestFirst), window)
  {
    if NewestFirst(closed) {
      StreakAscends(closed, resetAt);
      ClustersAreMinimumCover(Reversed(Streak(closed, resetAt)), window);
    }
  }

  // ----------------------------------------------------------- interval cover

  /** Every position has closed, newest first: what the caller's query returns. */
  predicate NewestFirst(closed: seq<ClosedPosition>) {
    && (forall i :: 0 <= i < |closed| ==> closed[i].closedAt.Some?)
    && (forall i, j :: 0 <= i < j < |closed| ==> closed[i].closedAt.value >= closed[j].closedAt.value)
  }

  predicate Ascending(times: seq<Option<Time>>) {
    && (forall i :: 0 <= i < |times| ==> times[i].Some?)
    && (forall i, j :: 0 <= i < j < |times| ==> times[i].value <= times[j].value)
  }

  function Known(times: seq<Option<Time>>): set<Time> {
    set i | 0 <= i < |times| && times[i].Some? :: times[i].value
  }

  /** Some window [a, a + length] with a in `starts` contains `t`. */
  ghost predicate Hit(starts: set<Time>, t: Time, length: int) {
    exists a :: a in starts && a <= t <= a + length
  }

  /** The windows at `starts` contain every one of the times. */
  ghost predicate Covers(starts: set<Time>, times: set<Time>, length: int) {
    forall t :: t in times ==> Hit(starts, t, length)
  }

  ghost predicate MinimumCover(n: nat, times: set<Time>, length: int) {
    && (exists starts :: |starts| == n && Covers(starts, times, length))
    && (forall starts :: Covers(starts, times, length) ==> n <= |starts|)
  }

  /** The first loss of each cluster opened from here on. */
  function Anchors(times: seq<Option<Time>>, start: Option<Time>, window: int): seq<Time>
    requires Ascending(times)
  {
    if times == [] then []
    else if OpensCluster(start, times[0], window) then [times[0].value] + Anchors(times[1..], times[0], window)
    else Anchors(times[1..], start, window)
  }

  function AnchorSet(times: seq<Option<Time>>, start: Option<Time>, window: int): set<Time>
    requires Ascending(times)
  {
    set a | a in Anchors(times, start, window)
  }

  predicate Apart(xs: seq<Time>, window: int) {
    forall i, j :: 0 <= i < j < |xs| ==> xs[i] + window < xs[j]
  }

  lemma {:induction false} AnchorsApart(times: seq<Option<Time>>, start: Option<Time>, window: int)
    requires Ascending(times) && window >= 0
    requires start.Some? ==> forall i :: 0 <= i < |times| ==> start.value <= times[i].value
    ensures |Anchors(times, start, window)| == Clusters(times, start, window)
    ensures Apart(Anchors(times, start, window), window)
    ensures forall a :: a in Anchors(times, start, window) ==> a in Known(times)
    ensures start.Some? ==> forall a :: a in Anchors(times, start, window) ==> start.value + window < a
  {
    if times != [] {
      var rest := times[1..];
      var next := if OpensCluster(start, times[0], window) then times[0] else start;
      AnchorsApart(rest, next, window);
      assert forall t :: t in Known(rest) ==> t in Known(times) by {
        forall t | t in Known(rest) ensures t in Known(times) {
          var i :| 0 <= i < |rest| && rest[i] == Some(t);
          assert times[i + 1] == Some(t);
        }
      }
      if OpensCluster(start, times[0], window) {
        assert times[0].value in Known(times);
        var tail := Anchors(rest, next, window);
        forall j | 0 <= j < |tail| ensures times[0].value + window < tail[j] {
          assert tail[j] in tail;
        }
      }
    }
  }

  /** Windows starting at the anchors, and at the current cluster's start, cover everything. */
  lemma {:induction false} AnchorsCover(times: seq<Option<Time>>, start: Option<Time>, window: int, i: nat)
    requires Ascending(times) && window >= 0 && i < |times|
    requires start.Some? ==> forall k :: 0 <= k < |times| ==> start.value <= times[k].value
    ensures (start.Some? && times[i].value <= start.value + window)
            || Hit(AnchorSet(times, start, window), times[i].value, window)
  {
    var opens := OpensCluster(start, times[0], window);
    var next := if opens then times[0] else start;
    assert opens ==> Anchors(times, start, window) == [times[0].value] + Anchors(times[1..], next, window);
    assert opens ==> times[0].value in AnchorSet(times, start, window);
    if i > 0 {
      AnchorsCover(times[1..], next, window, i - 1);
      assert times[1..][i - 1] == times[i] && times[0].value <= times[i].value;
      if opens && times[i].value > times[0].value + window {
        var a :| a in AnchorSet(times[1..], next, window) && a <= times[i].value <= a + window;
        assert a in AnchorSet(times, start, window);
      }
    }
  }

  /** Points further apart than the window length each need a window of their own. */
  lemma {:induction false} ApartNeedsWindows(xs: seq<Time>, starts: set<Time>, window: int)
    requires Apart(xs, window) && window >= 0
    requires forall i :: 0 <= i < |xs| ==> Hit(starts, xs[i], window)
    ensures |xs| <= |starts|
  {
    if xs != [] {
      var a :| a in starts && a <= xs[0] <= a + window;
      var fewer := starts - {a};
      var rest := xs[1..];
      forall i | 0 <= i < |rest| ensures Hit(fewer, rest[i], window) {
        assert Hit(starts, xs[i + 1], window);
        var b :| b in starts && b <= xs[i + 1] <= b + window;
        assert xs[0] + window < xs[i + 1];
        assert b in fewer;
      }
      ApartNeedsWindows(rest, fewer, window);
    }
  }

  lemma {:induction false} ApartIsDistinct(xs: seq<Time>, window: int)
    requires Apart(xs, window) && window >= 0
    ensures |set x | x in xs| == |xs|
  {
    if xs != [] {
      ApartIsDistinct(xs[1..], window);
      var tail := set x | x in xs[1..];
      assert xs[0] !in xs[1..];
      assert (set x | x in xs) == tail + {xs[0]};
    } else {
      assert (set x | x in xs) == {};
    }
  }

  lemma StartsAtAnchorsCover(times: seq<Option<Time>>, window: int)
    requires Ascending(times) && window >= 0
    ensures Covers(AnchorSet(times, None, window), Known(times), window)
    ensures |AnchorSet(times, None, window)| == Clusters(times, None, window)
  {
    forall t | t in Known(times) ensures Hit(AnchorSet(times, None, window), t, window) {
      var i :| 0 <= i < |times| && times[i] == Some(t);
      AnchorsCover(times, None, window, i);
    }
    AnchorsApart(times, None, window);
    ApartIsDistinct(Anchors(times, None, window), window);
  }

  lemma CoverNeedsEveryAnchor(times: seq<Option<Time>>, window: int, starts: set<Time>)
    requires Ascending(times) && window >= 0
    requires Covers(starts, Known(times), window)
    ensures Clusters(times, None, window) <= |starts|
  {
    var anchors := Anchors(times, None, window);
    AnchorsApart(times, None, window);
    forall i | 0 <= i < |anchors| ensures Hit(starts, anchors[i], window) {
      assert anchors[i] in anchors;
      assert anchors[i] in Known(times);
    }
    ApartNeedsWindows(anchors, starts, window);
  }

  /** The greedy count is the minimum number of windows that cover all the losses. */
  lemma ClustersAreMinimumCover(times: seq<Option<Time>>, window: int)
    requires Ascending(times) && window >= 0
    ensures MinimumCover(Clusters(times, None, window), Known(times), window)
  {
    StartsAtAnchorsCover(times, window);
    forall other | Covers(other, Known(times), window) ensures Clusters(times, None, window) <= |other| {
      CoverNeedsEveryAnchor(times, window, other);
    }
  }

  // ------------------------------------------------------------ consequences

  lemma {:induction false} ReversedAt<T>(xs: seq<T>, i: nat)
    requires i < |xs|
    ensures |Reversed(xs)| == |xs| && Reversed(xs)[i] == xs[|xs| - 1 - i]
  {
    if |xs| > 1 {
      ReversedAt(xs[1..], if i < |xs| - 1 then i else 0);
    }
  }

  lemma {:induction false} StreakIsPrefix(closed: seq<ClosedPosition>, resetAt: Option<Time>)
    ensures |Streak(closed, resetAt)| <= |closed|
    ensures forall i :: 0 <= i < |Streak(closed, resetAt)| ==> Streak(closed, resetAt)[i] == closed[i].closedAt
  {
    if closed != [] {
      StreakIsPrefix(closed[1..], resetAt);
    }
  }

  /** A position of the streak: it lost, and did not close by the reset. */
  predicate InStreak(p: ClosedPosition, resetAt: Option<Time>) {
    && p.pnl.Some? && p.pnl.value < 0.0
    && (resetAt.Some? && p.closedAt.Some? ==> p.closedAt.value > resetAt.value)
  }

  /** The streak holds the closes of the positions at the head of the list that lost after the reset, and ends at
      the first other one. */
  lemma {:induction false} StreakExtent(closed: seq<ClosedPosition>, resetAt: Option<Time>)
    ensures var n := |Streak(closed, resetAt)|;
            && n <= |closed|
            && (forall i :: 0 <= i < n ==> InStreak(closed[i], resetAt) && Streak(closed, resetAt)[i] == closed[i].closedAt)
            && (n < |closed| ==> !InStreak(closed[n], resetAt))
  {
    if closed != [] && InStreak(closed[0], resetAt) {
      var rest := closed[1..];
      StreakExtent(rest, resetAt);
      var n := |Streak(rest, resetAt)|;
      forall i | 0 <= i < n + 1
        ensures InStreak(closed[i], resetAt) && Streak(closed, resetAt)[i] == closed[i].closedAt
      {
        assert i > 0 ==> closed[i] == rest[i - 1];
      }
      assert n < |rest| ==> rest[n] == closed[n + 1];
    }
  }

  lemma StreakAscends(closed: seq<ClosedPosition>, resetAt: Option<Time>)
    requires NewestFirst(closed)
    ensures Ascending(Reversed(Streak(closed, resetAt)))
  {
    var streak := Streak(closed, resetAt);
    StreakIsPrefix(closed, resetAt);
    if streak != [] {
      forall i | 0 <= i < |streak|
        ensures |Reversed(streak)| == |streak| && Reversed(streak)[i] == streak[|streak| - 1 - i]
      {
        ReversedAt(streak, i);
      }
      ReversedAt(streak, 0);
    }
  }

  /** Minimum covers are unique in size, never larger than the number of losses, and never grow when
      the window does. */
  lemma WiderWindowsNeverNeedMore(n: nat, m: nat, times: set<Time>, narrow: int, wide: int)
    requires 0 <= narrow <= wide
    requires MinimumCover(n, times, narrow) && MinimumCover(m, times, wide)
    ensures m <= n <= |times|
  {
    var starts :| |starts| == n && Covers(starts, times, narrow);
    forall t | t in times ensures Hit(starts, t, wide) {
      assert Hit(starts, t, narrow);
      var a :| a in starts && a <= t <= a + narrow;
    }
    assert Covers(starts, times, wide);
    forall t | t in times ensures Hit(times, t, narrow) {
      assert t in times && t <= t <= t + narrow;
    }
    assert Covers(times, times, narrow);
  }

  /** One more loss adds at most one event, and never removes one. */
  lemma OneMoreLoss(n: nat, m: nat, times: set<Time>, t: Time, window: int)
    requires window >= 0
    requires MinimumCover(n, times, window) && MinimumCover(m, times + {t}, window)
    ensures n <= m <= n + 1
  {
    hide Covers;
    var starts :| |starts| == n && Covers(starts, times, window);
    OneMoreStart(starts, times, t, window);
    assert |starts + {t}| <= n + 1;
    var big :| |big| == m && Covers(big, times + {t}, window);
    CoversFewer(big, times, t, window);
  }

  lemma OneMoreStart(starts: set<Time>, times: set<Time>, t: Time, window: int)
    requires window >= 0 && Covers(starts, times, window)
    ensures Covers(starts + {t}, times + {t}, window)
  {
    var more := starts + {t};
    forall x | x in times + {t} ensures Hit(more, x, window) {
      if x in times {
        assert Hit(starts, x, window);
        var a :| a in starts && a <= x <= a + window;
        assert a in more;
      } else {
        assert t in more && t <= x <= t + window;
      }
    }
  }

  lemma CoversFewer(starts: set<Time>, times: set<Time>, t: Time, window: int)
    requires Covers(starts, times + {t}, window)
    ensures Covers(starts, times, window)
  {
  }

  /** The count never exceeds the number of losses, never grows with the window, and the next loss adds
      zero or one. */
  lemma CountLaws(times: seq<Option<Time>>, t: Time, narrow: int, wide: int)
    requires Ascending(times) && Ascending(times + [Some(t)]) && 0 <= narrow <= wide
    ensures Clusters(times, None, wide) <= Clusters(times, None, narrow) <= |times|
    ensures Clusters(times, None, narrow) <= Clusters(times + [Some(t)], None, narrow)
            <= Clusters(times, None, narrow) + 1
  {
    ClustersAreMinimumCover(times, narrow);
    ClustersAreMinimumCover(times, wide);
    ClustersAreMinimumCover(times + [Some(t)], narrow);
    KnownAppend(times, t);
    InstantsCount(times);
    WiderWindowsNeverNeedMore(Clusters(times, None, narrow), Clusters(times, None, wide), Known(times), narrow, wide);
    OneMoreLoss(Clusters(times, None, narrow), Clusters(times + [Some(t)], None, narrow), Known(times), t, narrow);
  }

  /** A window of zero counts distinct close times, so it counts every losing position separately, as
      the configuration comment says, exactly when no two of them closed at the same instant. */
  lemma ZeroWindowCountsInstants(times: seq<Option<Time>>)
    requires Ascending(times)
    ensures Clusters(times, None, 0) == |Known(times)| <= |times|
    ensures Clusters(times, None, 0) == |times| <==> Distinct(times)
  {
    ClustersAreMinimumCover(times, 0);
    var known := Known(times);
    assert Covers(known, known, 0) by {
      forall t | t in known ensures Hit(known, t, 0) {
        assert t <= t <= t + 0;
      }
    }
    var starts :| |starts| == Clusters(times, None, 0) && Covers(starts, known, 0);
    forall t | t in known ensures t in starts {
      assert Hit(starts, t, 0);
      var a :| a in starts && a <= t <= a + 0;
    }
    Subset(known, starts);
    InstantsCount(times);
  }

  lemma Subset<T>(a: set<T>, b: set<T>)
    requires a <= b
    ensures |a| <= |b|
  {
    assert b == a + (b - a);
  }

  predicate Distinct(times: seq<Option<Time>>) {
    forall i, j :: 0 <= i < j < |times| ==> times[i] != times[j]
  }

  lemma KnownAppend(times: seq<Option<Time>>, t: Time)
    ensures Known(times + [Some(t)]) == Known(times) + {t}
  {
    var more := times + [Some(t)];
    forall x | x in Known(more) ensures x in Known(times) + {t} {
      var i :| 0 <= i < |more| && more[i] == Some(x);
      if i < |times| {
        assert times[i] == Some(x);
      }
    }
    forall x | x in Known(times) ensures x in Known(more) {
      var i :| 0 <= i < |times| && times[i] == Some(x);
      assert more[i] == Some(x);
    }
    assert more[|times|] == Some(t);
  }

  lemma DistinctAppend(times: seq<Option<Time>>, t: Time)
    ensures Distinct(times + [Some(t)]) <==> Distinct(times) && t !in Known(times)
  {
    var more := times + [Some(t)];
    forall i, j | 0 <= i < j < |times| ensures more[i] == times[i] && more[j] == times[j] {
    }
    if t in Known(times) {
      var i :| 0 <= i < |times| && times[i] == Some(t);
      assert more[i] == more[|times|];
    } else {
      forall i | 0 <= i < |times| ensures more[i] != more[|times|] {
        assert times[i] == Some(t) ==> t in Known(times);
      }
    }
    if Distinct(more) {
      forall i, j | 0 <= i < j < |times| ensures times[i] != times[j] {
        assert more[i] != more[j];
      }
    }
  }

  lemma {:induction false} InstantsCount(times: seq<Option<Time>>)
    requires Ascending(times)
    ensures |Known(times)| <= |times|
    ensures |Known(times)| == |times| <==> Distinct(times)
  {
    if times != [] {
      var earlier := times[..|times| - 1];
      var t := times[|times| - 1].value;
      assert times == earlier + [Some(t)];
      InstantsCount(earlier);
      KnownAppend(earlier, t);
      DistinctAppend(earlier, t);
    } else {
      assert Known(times) == {};
    }
  }

  /** A loss whose close time is unknown is an event of its own and separates its neighbours. */
  lemma {:induction false} UnknownTimeSplits(a: seq<Option<Time>>, b: seq<Option<Time>>, start: Option<Time>, window: int)
    ensures Clusters(a + [None] + b, start, window) == Clusters(a, start, window) + 1 + Clusters(b, None, window)
  {
    if a == [] {
      assert a + [None] + b == [None] + b;
    } else {
      assert (a + [None] + b)[1..] == a[1..] + [None] + b;
      UnknownTimeSplits(a[1..], b, if OpensCluster(start, a[0], window) then a[0] else start, window);
    }
  }
}
