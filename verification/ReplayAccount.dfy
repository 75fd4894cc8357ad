/** What the replay's account view says about the trades, positions and prices behind it. */
module ReplayAccount {
  import opened Arithmetic
  import opened Common
  import opened Replay
  import opened ReplayCausality
  import opened ReplayMoney
  import opened ReplayOrders
  import opened Sorting
  import opened Sums
  import Risk
  import RiskFacts

  // ------------------------------------------------------- trades by their close

  predicate Lost(t: Trade) {
    t.netPnl < 0.0
  }

  /** Every trade that closed at or after this moment lost. */
  predicate LostSince(trades: seq<Trade>, at: Time) {
    forall j :: 0 <= j < |trades| && trades[j].closedAt >= at ==> Lost(trades[j])
  }

  predicate LostAfter(trades: seq<Trade>, at: Time) {
    forall j :: 0 <= j < |trades| && trades[j].closedAt > at ==> Lost(trades[j])
  }

  /** No losing trade closes together with one that did not lose. */
  predicate NoMixedTies(trades: seq<Trade>) {
    forall i, j :: 0 <= i < |trades| && 0 <= j < |trades| && trades[i].closedAt == trades[j].closedAt ==>
                     (Lost(trades[i]) <==> Lost(trades[j]))
  }

  /** The trades from which on everything lost, and those that lost with everything after them. */
  function Sunk(trades: seq<Trade>): set<nat> {
    set i: nat | i < |trades| && LostSince(trades, trades[i].closedAt)
  }

  function Sinking(trades: seq<Trade>): set<nat> {
    set i: nat | i < |trades| && Lost(trades[i]) && LostAfter(trades, trades[i].closedAt)
  }

  predicate NewestFirst(desc: seq<Trade>) {
    forall i, j :: 0 <= i < j < |desc| ==> desc[i].closedAt >= desc[j].closedAt
  }

  lemma DescIsNewestFirst(trades: seq<Trade>)
    ensures NewestFirst(ClosedDesc(trades)) && multiset(ClosedDesc(trades)) == multiset(trades)
  {
    assert OrdersAll(ClosesLater);
    SortSorted(trades, ClosesLater);
    SortMultiset(trades, ClosesLater);
  }

  function CountIf(trades: seq<Trade>, p: Trade -> bool): nat {
    if trades == [] then 0 else CountIf(trades[1..], p) + if p(trades[0]) then 1 else 0
  }

  lemma {:induction false} CountSplit(a: seq<Trade>, b: seq<Trade>, p: Trade -> bool)
    ensures CountIf(a + b, p) == CountIf(a, p) + CountIf(b, p)
  {
    if a == [] {
      assert a + b == b;
    } else {
      assert (a + b)[1..] == a[1..] + b;
      CountSplit(a[1..], b, p);
    }
  }

  lemma CountFront(t: Trade, rest: seq<Trade>, p: Trade -> bool)
    ensures CountIf([t] + rest, p) == CountIf(rest, p) + if p(t) then 1 else 0
  {
    assert ([t] + rest)[1..] == rest;
  }

  lemma TakenOut(b: seq<Trade>, j: nat)
    requires j < |b|
    ensures b == b[..j] + ([b[j]] + b[j + 1..])
    ensures multiset(b[..j] + b[j + 1..]) == multiset(b) - multiset{b[j]}
  {
    assert b == b[..j] + ([b[j]] + b[j + 1..]);
  }

  lemma CountWithout(b: seq<Trade>, j: nat, p: Trade -> bool)
    requires j < |b|
    ensures CountIf(b, p) == CountIf(b[..j] + b[j + 1..], p) + if p(b[j]) then 1 else 0
  {
    hide CountIf;
    TakenOut(b, j);
    CountSplit(b[..j], b[j + 1..], p);
    CountSplit(b[..j], [b[j]] + b[j + 1..], p);
    CountFront(b[j], b[j + 1..], p);
  }

  lemma {:induction false} CountForgetsOrder(a: seq<Trade>, b: seq<Trade>, p: Trade -> bool)
    requires multiset(a) == multiset(b)
    ensures CountIf(a, p) == CountIf(b, p)
  {
    assert |multiset(a)| == |a| && |multiset(b)| == |b|;
    if a != [] {
      var j := Occurs(a[0], b);
      TailMultiset(a);
      TakenOut(b, j);
      CountWithout(b, j, p);
      CountForgetsOrder(a[1..], b[..j] + b[j + 1..], p);
    }
  }

  lemma Occurs(t: Trade, b: seq<Trade>) returns (j: nat)
    requires t in multiset(b)
    ensures j < |b| && b[j] == t
  {
    j :| j < |b| && b[j] == t;
  }

  lemma {:induction false} CountAll(trades: seq<Trade>, p: Trade -> bool)
    ensures (forall i :: 0 <= i < |trades| ==> p(trades[i])) ==> CountIf(trades, p) == |trades|
    ensures (forall i :: 0 <= i < |trades| ==> !p(trades[i])) ==> CountIf(trades, p) == 0
    ensures CountIf(trades, p) <= |trades|
  {
    if trades != [] {
      CountAll(trades[1..], p);
    }
  }

  lemma {:induction false} CountIsSize(trades: seq<Trade>, p: Trade -> bool)
    ensures CountIf(trades, p) == |Places(trades, p)|
  {
    if trades == [] {
      assert Places(trades, p) == {};
    } else {
      CountIsSize(trades[1..], p);
      PlacesShift(trades, p);
      Shifted(Places(trades[1..], p), set i | i in Places(trades[1..], p) :: i + 1);
    }
  }

  function Places(trades: seq<Trade>, p: Trade -> bool): set<nat> {
    set i: nat | i < |trades| && p(trades[i])
  }

  lemma PlacesShift(trades: seq<Trade>, p: Trade -> bool)
    requires trades != []
    ensures var shifted := set i | i in Places(trades[1..], p) :: i + 1;
            Places(trades, p) == shifted + (if p(trades[0]) then {0} else {}) && 0 !in shifted
  {
    var rest := trades[1..];
    var shifted := set i | i in Places(rest, p) :: i + 1;
    forall i: nat ensures i in Places(trades, p) <==> i in shifted + if p(trades[0]) then {0} else {} {
      if i > 0 && i in Places(trades, p) {
        assert rest[i - 1] == trades[i] && i - 1 in Places(rest, p);
      }
    }
  }

  lemma {:induction false} Shifted(a: set<nat>, b: set<nat>)
    requires b == set i | i in a :: i + 1
    ensures |b| == |a|
  {
    if a != {} {
      var i :| i in a;
      var fewer := set j | j in a - {i} :: j + 1;
      forall x ensures x in b - {i + 1} <==> x in fewer {
        if x in b - {i + 1} {
          var j :| j in a && j + 1 == x;
          assert j in a - {i};
        }
      }
      assert b - {i + 1} == fewer;
      Shifted(a - {i}, b - {i + 1});
    } else {
      assert b == {};
    }
  }

  lemma {:induction false} RunOfLosses(desc: seq<Trade>)
    ensures LosingRun(desc) <= |desc|
    ensures forall k :: 0 <= k < LosingRun(desc) ==> Lost(desc[k])
    ensures LosingRun(desc) < |desc| ==> !Lost(desc[LosingRun(desc)])
  {
    if desc != [] && Lost(desc[0]) {
      RunOfLosses(desc[1..]);
      var n := LosingRun(desc[1..]);
      forall k | 0 <= k < n + 1 ensures Lost(desc[k]) {
        assert k == 0 || desc[k] == desc[1..][k - 1];
      }
    }
  }

  lemma SameElements(a: seq<Trade>, b: seq<Trade>)
    requires multiset(a) == multiset(b)
    ensures forall t :: t in a <==> t in b
  {
    forall t ensures t in a <==> t in b {
      assert t in multiset(a) <==> t in multiset(b);
    }
  }

  lemma SinceIsShared(a: seq<Trade>, b: seq<Trade>, at: Time)
    requires forall t :: t in a <==> t in b
    ensures LostSince(a, at) == LostSince(b, at) && LostAfter(a, at) == LostAfter(b, at)
  {
    SinceByMembers(a, at);
    SinceByMembers(b, at);
  }

  lemma SinceByMembers(a: seq<Trade>, at: Time)
    ensures LostSince(a, at) <==> forall t :: t in a && t.closedAt >= at ==> Lost(t)
    ensures LostAfter(a, at) <==> forall t :: t in a && t.closedAt > at ==> Lost(t)
  {
  }

  /** The losing run at the head of the closes lies between the two counts. */
  lemma RunBetweenCounts(trades: seq<Trade>)
    ensures |Sunk(trades)| <= LosingRun(ClosedDesc(trades)) <= |Sinking(trades)|
  {
    hide LosingRun, ClosedDesc, CountIf, LostSince, LostAfter;
    var desc := ClosedDesc(trades);
    DescIsNewestFirst(trades);
    var p := (t: Trade) => LostSince(trades, t.closedAt);
    var q := (t: Trade) => Lost(t) && LostAfter(trades, t.closedAt);
    RunAtLeast(desc, trades, p);
    RunAtMost(desc, trades, q);
    CountForgetsOrder(desc, trades, p);
    CountForgetsOrder(desc, trades, q);
    CountIsSize(trades, p);
    CountIsSize(trades, q);
    assert Sunk(trades) == Places(trades, p) && Sinking(trades) == Places(trades, q);
  }

  lemma RunAtLeast(desc: seq<Trade>, trades: seq<Trade>, p: Trade -> bool)
    requires NewestFirst(desc) && multiset(desc) == multiset(trades)
    requires forall t :: p(t) <==> LostSince(trades, t.closedAt)
    ensures CountIf(desc, p) <= LosingRun(desc)
  {
    hide LosingRun, CountIf, LostSince;
    var n := LosingRun(desc);
    RunOfLosses(desc);
    SameElements(desc, trades);
    forall k | n <= k < |desc| ensures !p(desc[k]) {
      SinceIsShared(desc, trades, desc[k].closedAt);
      RunEndsSince(desc, n, k);
    }
    assert desc == desc[..n] + desc[n..];
    CountSplit(desc[..n], desc[n..], p);
    CountAll(desc[..n], p);
    CountAll(desc[n..], p);
  }

  lemma RunEndsSince(desc: seq<Trade>, n: nat, k: nat)
    requires NewestFirst(desc) && n <= k < |desc| && !Lost(desc[n])
    ensures !LostSince(desc, desc[k].closedAt)
  {
    assert desc[n].closedAt >= desc[k].closedAt;
  }

  lemma RunAtMost(desc: seq<Trade>, trades: seq<Trade>, q: Trade -> bool)
    requires NewestFirst(desc) && multiset(desc) == multiset(trades)
    requires forall t :: q(t) <==> Lost(t) && LostAfter(trades, t.closedAt)
    ensures LosingRun(desc) <= CountIf(desc, q)
  {
    hide LosingRun, CountIf, LostAfter;
    var n := LosingRun(desc);
    RunOfLosses(desc);
    SameElements(desc, trades);
    forall k | 0 <= k < n ensures q(desc[k]) {
      SinceIsShared(desc, trades, desc[k].closedAt);
      RunLosesAfter(desc, n, k);
    }
    assert desc == desc[..n] + desc[n..];
    CountSplit(desc[..n], desc[n..], q);
    CountAll(desc[..n], q);
  }

  lemma RunLosesAfter(desc: seq<Trade>, n: nat, k: nat)
    requires NewestFirst(desc) && k < n <= |desc| && forall i :: 0 <= i < n ==> Lost(desc[i])
    ensures LostAfter(desc, desc[k].closedAt)
  {
    forall j | 0 <= j < |desc| && desc[j].closedAt > desc[k].closedAt ensures Lost(desc[j]) {
      assert j < k;
    }
  }

  lemma CountsAgree(trades: seq<Trade>)
    requires NoMixedTies(trades)
    ensures Sunk(trades) == Sinking(trades)
  {
    forall i: nat | i < |trades| && Lost(trades[i]) && LostAfter(trades, trades[i].closedAt)
      ensures LostSince(trades, trades[i].closedAt)
    {
    }
  }

  /** The latest close of all trades, and of one symbol's. */
  predicate Latest(trades: seq<Trade>, at: Time) {
    (exists i :: 0 <= i < |trades| && trades[i].closedAt == at) && forall i :: 0 <= i < |trades| ==> trades[i].closedAt <= at
  }

  predicate LatestOf(trades: seq<Trade>, symbol: Symbol, at: Time) {
    && (exists i :: 0 <= i < |trades| && trades[i].symbol == symbol && trades[i].closedAt == at)
    && forall i :: 0 <= i < |trades| && trades[i].symbol == symbol ==> trades[i].closedAt <= at
  }

  predicate Traded(trades: seq<Trade>, symbol: Symbol) {
    exists i :: 0 <= i < |trades| && trades[i].symbol == symbol
  }

  /** An older close changes the latest one of no traded symbol, and starts that of a symbol not yet traded. */
  lemma OlderClose(earlier: seq<Trade>, last: Trade, k: Symbol, at: Time)
    requires forall i :: 0 <= i < |earlier| ==> earlier[i].closedAt >= last.closedAt
    ensures Traded(earlier + [last], k) <==> Traded(earlier, k) || last.symbol == k
    ensures LatestOf(earlier, k, at) ==> LatestOf(earlier + [last], k, at)
    ensures last.symbol == k && !Traded(earlier, k) ==> LatestOf(earlier + [last], k, last.closedAt)
  {
    var all := earlier + [last];
    assert all[|earlier|] == last && forall i :: 0 <= i < |earlier| ==> all[i] == earlier[i];
    if i :| 0 <= i < |earlier| && earlier[i].symbol == k && earlier[i].closedAt == at {
      assert all[i] == earlier[i];
    }
    if i :| 0 <= i < |earlier| && earlier[i].symbol == k {
      assert all[i].symbol == k;
    }
  }

  lemma {:induction false} FirstClosesFirst(desc: seq<Trade>, k: Symbol)
    requires NewestFirst(desc)
    ensures k in FirstCloses(desc) <==> Traded(desc, k)
    ensures k in FirstCloses(desc) ==> LatestOf(desc, k, FirstCloses(desc)[k])
  {
    hide LatestOf, Traded;
    if desc == [] {
      NothingTraded(k);
    } else {
      var earlier, last := desc[..|desc| - 1], desc[|desc| - 1];
      FirstClosesFirst(earlier, k);
      assert desc == earlier + [last];
      OlderClose(earlier, last, k, if k in FirstCloses(earlier) then FirstCloses(earlier)[k] else 0);
    }
  }

  lemma NothingTraded(k: Symbol)
    ensures !Traded([], k)
  {
  }

  lemma LatestIsShared(a: seq<Trade>, b: seq<Trade>, at: Time, k: Symbol)
    requires forall t :: t in a <==> t in b
    ensures Latest(a, at) ==> Latest(b, at)
    ensures LatestOf(a, k, at) ==> LatestOf(b, k, at)
    ensures Traded(a, k) ==> Traded(b, k)
  {
    forall i | 0 <= i < |b| ensures exists j :: 0 <= j < |a| && a[j] == b[i] {
      assert b[i] in a;
    }
    forall i | 0 <= i < |a| ensures exists j :: 0 <= j < |b| && b[j] == a[i] {
      assert a[i] in b;
    }
  }

  /** What the account says of the closed trades: the loss streak counts the trades from which on everything lost,
      exactly so when no losing trade closes together with another kind; its clock is the latest close of all; and
      each traded symbol, no other, has the latest close of its own trades. */
  lemma AccountOfTrades(cfg: Config, s: State, now: Time)
    ensures var a := AccountState(cfg, s, now);
            && |Sunk(s.trades)| <= a.consecutiveLosses <= |Sinking(s.trades)|
            && (NoMixedTies(s.trades) ==> a.consecutiveLosses == |Sunk(s.trades)|)
            && (a.lastLossClosedAt.Some? <==> a.consecutiveLosses > 0)
            && (a.lastLossClosedAt.Some? ==> Latest(s.trades, a.lastLossClosedAt.value))
            && (forall k :: k in a.symbolLastClosedAt <==> exists i :: 0 <= i < |s.trades| && s.trades[i].symbol == k)
            && (forall k :: k in a.symbolLastClosedAt ==> LatestOf(s.trades, k, a.symbolLastClosedAt[k]))
  {
    hide Equity, Total, ClosedDesc, LatestOf, Latest, NoMixedTies, Sunk, Sinking, PnlOn;
    var desc := ClosedDesc(s.trades);
    DescIsNewestFirst(s.trades);
    SameElements(desc, s.trades);
    RunBetweenCounts(s.trades);
    if NoMixedTies(s.trades) {
      CountsAgree(s.trades);
    }
    if LosingRun(desc) > 0 {
      HeadIsLatest(desc);
      LatestIsShared(desc, s.trades, desc[0].closedAt, 0);
    }
    forall k
      ensures k in FirstCloses(desc) <==> Traded(s.trades, k)
      ensures k in FirstCloses(desc) ==> LatestOf(s.trades, k, FirstCloses(desc)[k])
    {
      FirstClosesFirst(desc, k);
      LatestIsShared(s.trades, desc, 0, k);
      LatestIsShared(desc, s.trades, if k in FirstCloses(desc) then FirstCloses(desc)[k] else 0, k);
    }
  }

  lemma HeadIsLatest(desc: seq<Trade>)
    requires NewestFirst(desc) && desc != []
    ensures Latest(desc, desc[0].closedAt)
  {
  }

  // --------------------------------------------------------------- the day's P&L

  const DAY_LENGTH: int := 24 * 60 * 60 * 1_000_000

  /** The trades closed on the UTC day of `now`. */
  function OfDay(trades: seq<Trade>, now: Time): seq<Trade> {
    if trades == [] then [] else
      var earlier := OfDay(trades[..|trades| - 1], now);
      var t := trades[|trades| - 1];
      var midnight := now - now % DAY_LENGTH;
      if midnight <= t.closedAt < midnight + DAY_LENGTH then earlier + [t] else earlier
  }

  lemma SameDay(at: Time, now: Time)
    ensures Date(at) == Date(now) <==> now - now % DAY_LENGTH <= at < now - now % DAY_LENGTH + DAY_LENGTH
  {
  }

  lemma {:induction false} DayPnl(trades: seq<Trade>, now: Time)
    ensures PnlOn(trades, Date(now)) == NetTotal(OfDay(trades, now))
  {
    if trades != [] {
      var earlier, t := trades[..|trades| - 1], trades[|trades| - 1];
      DayPnl(earlier, now);
      SameDay(t.closedAt, now);
      TotalsAppend(OfDay(earlier, now), t);
    }
  }

  /** The daily P&L is the net P&L of the day's closes as a share of the equity, nothing without equity. */
  lemma AccountOfDay(cfg: Config, s: State, now: Time)
    ensures var a := AccountState(cfg, s, now);
            if a.equity > 0.0 then Times(a.dailyPnlPct, a.equity) == NetTotal(OfDay(s.trades, now)) else a.dailyPnlPct == 0.0
  {
    hide Equity, ClosedDesc, LosingRun, FirstCloses;
    DayPnl(s.trades, now);
    if Equity(cfg, s) > 0.0 {
      OverTimes(PnlOn(s.trades, Date(now)), Equity(cfg, s));
    }
  }

  // ------------------------------------------------------- positions and prices

  /** The stake behind each committed symbol: bought or about to be. */
  function Stakes(s: State): map<Symbol, real> {
    map k | k in Committed(s) ::
      if k in s.positions then s.positions[k].stake else if k in PendingBuys(s) then s.pending[k].stake else 0.0
  }

  lemma {:induction false} TotalUnion(a: map<Symbol, real>, b: map<Symbol, real>)
    requires a.Keys !! b.Keys
    ensures Total(a + b) == Total(a) + Total(b)
    decreases |b|
  {
    hide Total;
    if b == map[] {
      assert a + b == a;
      NothingTotals();
    } else {
      var k :| k in b;
      UnionWithout(a, b, k);
      Shrinks(b, k);
      TotalUnion(a, b - {k});
      TotalRemove(b, k);
      TotalRemove(a + b, k);
    }
  }

  lemma UnionWithout(a: map<Symbol, real>, b: map<Symbol, real>, k: Symbol)
    requires a.Keys !! b.Keys && k in b
    ensures k in a + b && (a + b)[k] == b[k] && (a + b) - {k} == a + (b - {k})
    ensures a.Keys !! (b - {k}).Keys
  {
    assert k !in a;
  }

  lemma NothingTotals()
    ensures Total<Symbol>(map[]) == 0.0
  {
  }

  /** The close of the latest candle of the symbol. */
  function LastPrice(candles: seq<Candle>, symbol: Symbol): Option<real> {
    if candles == [] then None
    else if candles[|candles| - 1].symbol == symbol then Some(candles[|candles| - 1].close)
    else LastPrice(candles[..|candles| - 1], symbol)
  }

  lemma SettleKeepsPrices(cfg: Config, s: State, c: Candle)
    requires ValidConfig(cfg) && ValidCandle(c) && Settle(cfg, s, c).Success?
    ensures Settle(cfg, s, c).value.lastPrices == s.lastPrices[c.symbol := c.close]
    ensures Settle(cfg, s, c).value.equityCurve == s.equityCurve
  {
    hide Times, Over, ApplySafetyExits;
    var at, reference, fill, reason := SafetyExitShape(cfg, ExecutePending(cfg, s, c).value, c);
  }

  lemma {:induction false} RunKnowsPrices(cfg: Config, signals: SignalIndex, candles: seq<Candle>, k: Symbol)
    requires ValidConfig(cfg) && AllValid(candles) && Run(cfg, signals, candles).Success?
    ensures var s := Run(cfg, signals, candles).value;
            (if k in s.lastPrices then Some(s.lastPrices[k]) else None) == LastPrice(candles, k)
  {
    hide Settle, ProcessSignal;
    if candles != [] {
      var earlier, c := candles[..|candles| - 1], candles[|candles| - 1];
      RunKnowsPrices(cfg, signals, earlier, k);
      var s := Run(cfg, signals, earlier).value;
      SettleKeepsPrices(cfg, s, c);
      SignalKeepsMoney(cfg, signals, Settle(cfg, s, c).value, c);
    }
  }

  lemma {:induction false} SeenHasPrice(candles: seq<Candle>, n: nat)
    requires n < |candles|
    ensures LastPrice(candles, candles[n].symbol).Some?
  {
    if n < |candles| - 1 && candles[|candles| - 1].symbol != candles[n].symbol {
      assert candles[..|candles| - 1][n] == candles[n];
      SeenHasPrice(candles[..|candles| - 1], n);
    }
  }

  /** Every position is worth its amount at the close of its symbol's latest candle, less the fee of selling it. */
  ghost function Worth(cfg: Config, candles: seq<Candle>, s: State): map<Symbol, real>
    requires forall k :: k in s.positions ==> LastPrice(candles, k).Some?
  {
    map k | k in s.positions :: Times(Times(s.positions[k].amount, LastPrice(candles, k).value), 1.0 - cfg.feeRate)
  }

  lemma HeldWasSeen(cfg: Config, signals: SignalIndex, candles: seq<Candle>)
    requires ValidConfig(cfg) && AllValid(candles) && CheckOrdered(candles).None?
    requires Run(cfg, signals, candles).Success?
    ensures forall k :: k in Run(cfg, signals, candles).value.positions ==> LastPrice(candles, k).Some?
  {
    hide Run, CheckOrdered, Follows;
    RunIsCausal(cfg, signals, candles);
    var s := Run(cfg, signals, candles).value;
    forall k | k in s.positions ensures LastPrice(candles, k).Some? {
      var n :| 0 <= n < |candles| && Follows(candles, s.decisions, k, BuySide, s.positions[k].openedAt, n);
      FollowsOnSymbol(candles, s.decisions, k, s.positions[k].openedAt, n);
      SeenHasPrice(candles, n);
    }
  }

  lemma FollowsOnSymbol(candles: seq<Candle>, decisions: seq<Decision>, k: Symbol, at: Time, n: nat)
    requires n < |candles| && Follows(candles, decisions, k, BuySide, at, n)
    ensures candles[n].symbol == k
  {
  }

  /** In every replay the account's equity is the cash and the worth of the positions at the latest closes; its
      symbols are those held or about to be bought, one stake each making up the exposure; and its free balance is
      the cash not reserved, with fees, for what is about to be bought. */
  lemma AccountOfRun(cfg: Config, signals: SignalIndex, candles: seq<Candle>, now: Time)
    requires ValidConfig(cfg) && AllValid(candles) && CheckOrdered(candles).None?
    requires Run(cfg, signals, candles).Success?
    ensures var s := Run(cfg, signals, candles).value;
            var a := AccountState(cfg, s, now);
            && (forall k :: k in s.positions ==> LastPrice(candles, k).Some?)
            && a.equity == s.cash + Total(Worth(cfg, candles, s))
            && (forall k :: k in a.openSymbols <==> k in s.positions || (k in s.pending && s.pending[k].BuyOrder?))
            && a.totalExposure == Total(Stakes(s)) && Stakes(s).Keys == a.openSymbols
            && a.freeBalance == Max(s.cash - Total(ReservedCash(cfg, s)), 0.0)
            && (forall k :: k in ReservedCash(cfg, s) <==> k in s.pending && s.pending[k].BuyOrder?)
            && (forall k :: k in ReservedCash(cfg, s) ==>
                  ReservedCash(cfg, s)[k] == s.pending[k].stake + Times(s.pending[k].stake, cfg.feeRate))
  {
    hide Run, CheckOrdered, ClosedDesc, LosingRun, FirstCloses, PnlOn;
    var s := Run(cfg, signals, candles).value;
    HeldWasSeen(cfg, signals, candles);
    forall k | k in s.positions ensures MarkPrice(s, k) == LastPrice(candles, k).value {
      RunKnowsPrices(cfg, signals, candles, k);
    }
    assert MarkValues(cfg, s) == Worth(cfg, candles, s);
    RunStaysCoupled(cfg, signals, candles);
    TotalUnion(PositionStakes(s), PendingStakes(s));
    assert Stakes(s) == PositionStakes(s) + PendingStakes(s);
    forall k | k in ReservedCash(cfg, s)
      ensures ReservedCash(cfg, s)[k] == s.pending[k].stake + Times(s.pending[k].stake, cfg.feeRate)
    {
      FeeOnTop(s.pending[k].stake, cfg.feeRate);
    }
  }

  lemma FeeOnTop(stake: real, fee: real)
    ensures Times(stake, 1.0 + fee) == stake + Times(stake, fee)
  {
  }

  /** The equity curve has one point for each candle, at its close, with the equity after it. */
  lemma {:induction false} CurveOfRun(cfg: Config, signals: SignalIndex, candles: seq<Candle>, n: nat)
    requires ValidConfig(cfg) && AllValid(candles) && Run(cfg, signals, candles).Success?
    ensures |Run(cfg, signals, candles).value.equityCurve| == |candles|
    ensures n < |candles| ==>
              && Run(cfg, signals, candles[..n + 1]).Success?
              && Run(cfg, signals, candles).value.equityCurve[n]
                 == EquityPoint(candles[n].closeTime, Equity(cfg, Run(cfg, signals, candles[..n + 1]).value))
  {
    hide Settle, ProcessSignal, Equity;
    if candles != [] {
      var last := |candles| - 1;
      var earlier, c := candles[..last], candles[last];
      CurveOfRun(cfg, signals, earlier, n);
      var s := Run(cfg, signals, earlier).value;
      SettleKeepsPrices(cfg, s, c);
      var decided := Decided(cfg, signals, Settle(cfg, s, c).value, c).value;
      SignalKeepsMoney(cfg, signals, Settle(cfg, s, c).value, c);
      SameEquity(cfg, decided, c.closeTime);
      if n < last {
        assert earlier[..n + 1] == candles[..n + 1];
      } else if n == last {
        assert candles[..n + 1] == candles;
      }
    }
  }

  lemma SameEquity(cfg: Config, s: State, timestamp: Time)
    ensures Equity(cfg, Recorded(cfg, s, timestamp)) == Equity(cfg, s)
  {
    assert MarkValues(cfg, Recorded(cfg, s, timestamp)) == MarkValues(cfg, s);
  }
}
