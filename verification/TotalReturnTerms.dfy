/**
 * The total-return series in the inputs' own terms: which bars it keeps, where it ends and at what value, which bar each
 * distribution lands on, what a close is adjusted by, and what is warned of.
 */
module TotalReturnTerms {
  import opened Wrappers
  import opened TotalReturn
  import StableSort

  // ---------------------------------------------------------------------------------------------
  // The ending
  // ---------------------------------------------------------------------------------------------

  /** The first delisting listed, or without one the first merger. */
  predicate EndsAt(actions: seq<Action>, i: nat) {
    && i < |actions|
    && (actions[i].Delisting? || (actions[i].Merger? && forall a :: a in actions ==> !a.Delisting?))
    && (forall j :: 0 <= j < i ==> !(actions[i].Delisting? && actions[j].Delisting?) && !(actions[i].Merger? && actions[j].Merger?))
  }

  lemma {:induction false} FirstDelistingIs(actions: seq<Action>, i: nat)
    requires i < |actions| && actions[i].Delisting? && forall j :: 0 <= j < i ==> !actions[j].Delisting?
    ensures FirstDelisting(actions) == Some(actions[i])
    decreases |actions|
  {
    if i > 0 {
      FirstDelistingIs(actions[1..], i - 1);
    }
  }

  lemma {:induction false} FirstMergerIs(actions: seq<Action>, i: nat)
    requires i < |actions| && actions[i].Merger? && forall j :: 0 <= j < i ==> !actions[j].Merger?
    ensures FirstMerger(actions) == Some(actions[i])
    decreases |actions|
  {
    if i > 0 {
      FirstMergerIs(actions[1..], i - 1);
    }
  }

  lemma {:induction false} NoDelisting(actions: seq<Action>)
    requires forall a :: a in actions ==> !a.Delisting?
    ensures FirstDelisting(actions).None?
    decreases |actions|
  {
    if actions != [] {
      assert actions[0] in actions && forall a :: a in actions[1..] ==> a in actions;
      NoDelisting(actions[1..]);
    }
  }

  lemma {:induction false} NoMerger(actions: seq<Action>)
    requires forall a :: a in actions ==> !a.Merger?
    ensures FirstMerger(actions).None?
    decreases |actions|
  {
    if actions != [] {
      assert actions[0] in actions && forall a :: a in actions[1..] ==> a in actions;
      NoMerger(actions[1..]);
    }
  }

  lemma {:induction false} EndingIs(actions: seq<Action>, i: nat)
    requires EndsAt(actions, i)
    ensures Ending(actions) == Some(actions[i])
  {
    if actions[i].Delisting? {
      FirstDelistingIs(actions, i);
    } else {
      NoDelisting(actions);
      FirstMergerIs(actions, i);
    }
  }

  predicate NeverEnds(actions: seq<Action>) {
    forall a :: a in actions ==> !a.Delisting? && !a.Merger?
  }

  lemma {:induction false} NoEnding(actions: seq<Action>)
    requires NeverEnds(actions)
    ensures Ending(actions).None?
  {
    NoDelisting(actions);
    NoMerger(actions);
  }

  /**
   * The last point: a delisting pays its final price, or nothing, the day after the last bar; a merger its cash, or
   * nothing, on its effective date; without either there is none.
   */
  lemma {:induction false} EndPointIs(actions: seq<Action>, bars: seq<Bar>, i: nat)
    requires RatiosPositive(actions) && Builds(actions, bars) && bars != [] && EndsAt(actions, i)
    ensures var points := Series(actions, bars);
            && |points| == |bars| + 1 && points[|bars|].terminal && points[|bars|].distribution == 0.0
            && match actions[i] {
                 case Delisting(_, price) =>
                   points[|bars|].session == bars[|bars| - 1].session + 1
                   && points[|bars|].adjClose == (if price.Some? then price.value else 0.0)
                 case Merger(effective, cash, _) =>
                   points[|bars|].session == effective
                   && points[|bars|].adjClose == (if cash.Some? then cash.value else 0.0)
                 case _ => true
               }
  {
    EndingIs(actions, i);
  }

  /** There the index goes on from the last bar as its last close does to what is paid. */
  lemma {:induction false} EndIndexIs(actions: seq<Action>, bars: seq<Bar>, i: nat)
    requires RatiosPositive(actions) && Builds(actions, bars) && bars != [] && EndsAt(actions, i)
    ensures var points := Series(actions, bars);
            && |points| == |bars| + 1
            && Times(points[|bars|].trIndex, points[|bars| - 1].adjClose) == Times(points[|bars| - 1].trIndex, points[|bars|].adjClose)
  {
    EndingIs(actions, i);
    AdjCloseSign(actions, bars, |bars| - 1);
    OverBack(Times(Tr(actions, bars, |bars| - 1), FinalValue(actions).value), AdjClose(actions, bars, |bars| - 1));
  }

  lemma {:induction false} OverBack(x: real, y: real)
    requires y != 0.0
    ensures Times(Over(x, y), y) == x
  {
  }

  lemma {:induction false} NoEndPoint(actions: seq<Action>, bars: seq<Bar>)
    requires RatiosPositive(actions) && Builds(actions, bars) && NeverEnds(actions)
    ensures |Series(actions, bars)| == |bars|
  {
    NoEnding(actions);
  }

  /** One point for each bar, on its session, and only the ending's point is terminal. */
  lemma {:induction false} OnlyTheEndIsTerminal(actions: seq<Action>, bars: seq<Bar>, i: nat)
    requires RatiosPositive(actions) && Builds(actions, bars) && i < |Series(actions, bars)|
    ensures Series(actions, bars)[i].terminal <==> i == |bars|
    ensures i < |bars| ==> Series(actions, bars)[i].session == bars[i].session
  {
  }

  /**
   * A series builds exactly when no session has two bars, every close but the last is above zero, and a last close that
   * an ending is paid over is not zero.
   */
  lemma {:induction false} BuildsIff(actions: seq<Action>, bars: seq<Bar>)
    requires forall i, j :: 0 <= i < j < |bars| ==> bars[i].session <= bars[j].session
    ensures Builds(actions, bars) <==>
      && (forall i, j :: 0 <= i < j < |bars| ==> bars[i].session < bars[j].session && bars[i].close > 0.0)
      && (bars != [] && !NeverEnds(actions) ==> bars[|bars| - 1].close != 0.0)
  {
    if NeverEnds(actions) {
      NoEnding(actions);
    } else {
      var i := SomeEnd(actions);
      EndingIs(actions, i);
    }
    if forall i, j :: 0 <= i < j < |bars| ==> bars[i].session < bars[j].session && bars[i].close > 0.0 {
      forall i | 0 <= i < |bars| - 1 ensures bars[i].close > 0.0 {
        assert bars[i].session < bars[|bars| - 1].session;
      }
    }
  }

  /** Which refusal a series that does not build gets: a doubled session first, then a close, then the ending's quotient. */
  lemma {:induction false} RefusalIs(actions: seq<Action>, bars: seq<Bar>, e: SeriesError)
    requires forall i, j :: 0 <= i < j < |bars| ==> bars[i].session <= bars[j].session
    requires !Builds(actions, bars) && IsRefusal(e, actions, bars)
    ensures e == DuplicateSession <==> exists i, j :: 0 <= i < j < |bars| && bars[j].session <= bars[i].session
    ensures e == NonPositiveClose ==> exists i :: 0 <= i < |bars| - 1 && bars[i].close <= 0.0
    ensures e == NoQuotient ==> !NeverEnds(actions) && bars != [] && bars[|bars| - 1].close == 0.0
    ensures e == NoQuotient ==> forall i :: 0 <= i < |bars| - 1 ==> bars[i].close > 0.0
  {
    if NeverEnds(actions) {
      NoEnding(actions);
    }
  }

  // ---------------------------------------------------------------------------------------------
  // The bars kept
  // ---------------------------------------------------------------------------------------------

  /** Tradable, not corrected away, and through a delisting's last trade or the day before a merger. */
  ghost predicate IsKept(actions: seq<Action>, b: Bar) {
    && b.tradable
    && (forall a :: a in actions && a.StaleBar? ==> a.session != b.session)
    && (forall i: nat :: EndsAt(actions, i) ==>
          (actions[i].Delisting? ==> b.session <= actions[i].lastTradeDate) && (actions[i].Merger? ==> b.session < actions[i].effective))
  }

  lemma {:induction false} EarliestDelisting(actions: seq<Action>, n: nat) returns (i: nat)
    requires n < |actions| && actions[n].Delisting?
    ensures i <= n && actions[i].Delisting? && forall j :: 0 <= j < i ==> !actions[j].Delisting?
    decreases n
  {
    if m :| 0 <= m < n && actions[m].Delisting? {
      i := EarliestDelisting(actions, m);
    } else {
      i := n;
    }
  }

  lemma {:induction false} EarliestMerger(actions: seq<Action>, n: nat) returns (i: nat)
    requires n < |actions| && actions[n].Merger?
    ensures i <= n && actions[i].Merger? && forall j :: 0 <= j < i ==> !actions[j].Merger?
    decreases n
  {
    if m :| 0 <= m < n && actions[m].Merger? {
      i := EarliestMerger(actions, m);
    } else {
      i := n;
    }
  }

  lemma {:induction false} SomeEnd(actions: seq<Action>) returns (i: nat)
    requires !NeverEnds(actions)
    ensures EndsAt(actions, i)
  {
    if n :| 0 <= n < |actions| && actions[n].Delisting? {
      i := EarliestDelisting(actions, n);
    } else {
      assert forall a :: a in actions ==> !a.Delisting?;
      var n :| 0 <= n < |actions| && actions[n].Merger?;
      i := EarliestMerger(actions, n);
    }
  }

  lemma {:induction false} KeptIff(actions: seq<Action>, b: Bar)
    ensures IsUsed(actions, b) <==> IsKept(actions, b)
  {
    forall i: nat | EndsAt(actions, i) ensures Ending(actions) == Some(actions[i]) {
      EndingIs(actions, i);
    }
    if NeverEnds(actions) {
      NoEnding(actions);
      assert forall i: nat :: i < |actions| ==> actions[i] in actions;
    } else {
      var i := SomeEnd(actions);
      assert EndsAt(actions, i);
    }
  }

  lemma {:induction false} UsedCount(raw: seq<Bar>, actions: seq<Action>, b: Bar)
    ensures multiset(Used(raw, actions))[b] == if IsKept(actions, b) then multiset(raw)[b] else 0
    decreases |raw|
  {
    if raw != [] {
      var front, last := raw[..|raw| - 1], raw[|raw| - 1];
      UsedCount(front, actions, b);
      KeptIff(actions, last);
      assert raw == front + [last];
    }
  }

  /** The series is over the bars kept, each as often as it is given, in session order. */
  lemma {:induction false} BarsAre(raw: seq<Bar>, actions: seq<Action>, b: Bar)
    ensures multiset(Bars(raw, actions))[b] == if IsKept(actions, b) then multiset(raw)[b] else 0
    ensures forall i, j :: 0 <= i < j < |Bars(raw, actions)| ==> Bars(raw, actions)[i].session <= Bars(raw, actions)[j].session
  {
    var used := Used(raw, actions);
    UsedCount(raw, actions, b);
    StableSort.SortMultiset(used, BarOrder);
    StableSort.SortSorted(used, BarOrder);
    forall i, j | 0 <= i < j < |Bars(raw, actions)| ensures Bars(raw, actions)[i].session <= Bars(raw, actions)[j].session {
      StableSort.SortedPairs(Bars(raw, actions), i, j, BarOrder);
    }
  }

  // ---------------------------------------------------------------------------------------------
  // Where distributions land
  // ---------------------------------------------------------------------------------------------

  /** Bar `i` is the first at or after the date. */
  predicate IsFirstFrom(bars: seq<Bar>, i: nat, date: int) {
    i < |bars| && date <= bars[i].session && (i > 0 ==> bars[i - 1].session < date)
  }

  /** A distribution lands on the first bar at or after its ex-date, and nowhere when there is none. */
  lemma {:induction false} LandingIs(bars: seq<Bar>, date: int)
    requires Ascending(bars)
    ensures forall i: nat :: IsFirstFrom(bars, i, date) ==> Landing(bars, date) == Some(bars[i].session)
    ensures (forall b :: b in bars ==> b.session < date) ==> Landing(bars, date).None?
    ensures Landing(bars, date).Some? ==> exists i: nat :: IsFirstFrom(bars, i, date)
    decreases |bars|
  {
    if bars != [] {
      var rest := bars[1..];
      LandingIs(rest, date);
      assert bars[0] in bars && forall b :: b in rest ==> b in bars;
      forall i: nat | IsFirstFrom(bars, i, date) ensures Landing(bars, date) == Some(bars[i].session) {
        if i > 0 {
          assert bars[0].session <= bars[i - 1].session;
          assert i > 1 ==> rest[i - 2] == bars[i - 1];
          assert IsFirstFrom(rest, i - 1, date);
        }
      }
      if bars[0].session >= date {
        assert IsFirstFrom(bars, 0, date);
      } else if Landing(bars, date).Some? {
        var i: nat :| IsFirstFrom(rest, i, date);
        assert i > 0 ==> bars[i] == rest[i - 1];
        assert IsFirstFrom(bars, i + 1, date);
      }
    }
  }

  /** What an action pays per share on bar `i` of the series: a dividend or a valued spin-off ex since the bar before. */
  function Pays(a: Action, bars: seq<Bar>, i: nat): real
    requires 1 <= i < |bars|
  {
    match a
    case CashDividend(d, amount) => if bars[i - 1].session < d <= bars[i].session then amount else 0.0
    case Spinoff(d, childRatio, Some(close)) => if bars[i - 1].session < d <= bars[i].session then childRatio * close else 0.0
    case _ => 0.0
  }

  function AllPay(actions: seq<Action>, bars: seq<Bar>, i: nat): real
    requires 1 <= i < |bars|
    decreases |actions|
  {
    if actions == [] then 0.0 else AllPay(actions[..|actions| - 1], bars, i) + Pays(actions[|actions| - 1], bars, i)
  }

  lemma {:induction false} LandsIff(a: Action, bars: seq<Bar>, i: nat)
    requires Ascending(bars) && i < |bars| && Distributed(a).Some?
    ensures LandsOn(a, bars, bars[i].session) <==> i >= 1 && bars[i - 1].session < ExDate(a) <= bars[i].session
  {
    LandingIs(bars, ExDate(a));
    if Landing(bars, ExDate(a)).Some? {
      var k: nat :| IsFirstFrom(bars, k, ExDate(a));
      SameBar(bars, i, k);
      if k > 0 {
        assert bars[0].session <= bars[k - 1].session;
      }
    }
    if i >= 1 && bars[i - 1].session < ExDate(a) <= bars[i].session {
      assert IsFirstFrom(bars, i, ExDate(a));
      assert bars[0].session <= bars[i - 1].session;
    }
  }

  lemma {:induction false} SameBar(bars: seq<Bar>, i: nat, k: nat)
    requires Ascending(bars) && i < |bars| && k < |bars|
    ensures bars[i].session == bars[k].session ==> i == k
  {
  }

  /** Each bar's distribution is what the actions ex since the bar before it pay; the first bar's is nothing. */
  lemma {:induction false} DistributionIs(actions: seq<Action>, bars: seq<Bar>, i: nat)
    requires Ascending(bars) && i < |bars|
    ensures RawDistribution(actions, bars, bars[i].session) == if i == 0 then 0.0 else AllPay(actions, bars, i)
    decreases |actions|
  {
    if actions != [] {
      DistributionIs(actions[..|actions| - 1], bars, i);
      var a := actions[|actions| - 1];
      if Distributed(a).Some? {
        LandsIff(a, bars, i);
      }
    }
  }

  // ---------------------------------------------------------------------------------------------
  // Adjustment
  // ---------------------------------------------------------------------------------------------

  /** The product of the ratios of the splits ex after one date and by another. */
  function RatiosBetween(actions: seq<Action>, after: int, until: int): real
    decreases |actions|
  {
    if actions == [] then 1.0
    else
      var front, a := RatiosBetween(actions[..|actions| - 1], after, until), actions[|actions| - 1];
      if a.Split? && after < a.exDate <= until then Times(front, a.ratio) else front
  }

  lemma {:induction false} FactorsSplit(actions: seq<Action>, first: int, last: int, date: int)
    requires first <= date <= last
    ensures Times(Factor(actions, first, last, date), RatiosBetween(actions, date, last)) == Factor(actions, first, last, last)
    decreases |actions|
  {
    if actions != [] {
      var front, a := actions[..|actions| - 1], actions[|actions| - 1];
      FactorsSplit(front, first, last, date);
      if IsApplied(a, first, last) {
        MoveRatio(Factor(front, first, last, date), RatiosBetween(front, date, last), a.ratio);
      }
    }
  }

  lemma {:induction false} MoveRatio(x: real, y: real, k: real)
    ensures Times(Times(x, k), y) == Times(Times(x, y), k) && Times(x, Times(y, k)) == Times(Times(x, y), k)
  {
  }

  lemma {:induction false} Rescaled(x: real, f: real, r: real, all: real)
    requires all > 0.0 && Times(f, r) == all
    ensures Times(Times(x, Over(f, all)), r) == x
  {
    var s := Over(f, all);
    assert s * all == f;
    assert (s * r) * all == (s * all) * r;
    assert (s * r - 1.0) * all == 0.0;
    assert s * r == 1.0;
    assert (x * s) * r == x * (s * r);
  }

  /** A close, and a distribution, is divided by the ratios of the splits after its session and by the last. */
  lemma {:induction false} AdjustedIs(actions: seq<Action>, bars: seq<Bar>, i: nat)
    requires Ascending(bars) && i < |bars| && RatiosPositive(actions)
    ensures var ratios := RatiosBetween(actions, bars[i].session, bars[|bars| - 1].session);
            && Times(AdjClose(actions, bars, i), ratios) == bars[i].close
            && Times(DistributionAt(actions, bars, i), ratios) == if i == 0 then 0.0 else AllPay(actions, bars, i)
  {
    var first, last, date := bars[0].session, bars[|bars| - 1].session, bars[i].session;
    FactorsSplit(actions, first, last, date);
    FactorPositive(actions, first, last, last);
    var f, all := Factor(actions, first, last, date), Factor(actions, first, last, last);
    Rescaled(bars[i].close, f, RatiosBetween(actions, date, last), all);
    Rescaled(RawDistribution(actions, bars, date), f, RatiosBetween(actions, date, last), all);
    DistributionIs(actions, bars, i);
  }

  /** The index goes up from one bar to the next as a holder's adjusted close and distribution do. */
  lemma {:induction false} IndexStep(actions: seq<Action>, bars: seq<Bar>, i: nat)
    requires i < |bars| && RatiosPositive(actions) && Divisible(bars, i + 1)
    ensures i == 0 ==> Tr(actions, bars, i) == 1.0
    ensures i > 0 ==>
      Times(Tr(actions, bars, i), AdjClose(actions, bars, i - 1))
      == Times(Tr(actions, bars, i - 1), AdjClose(actions, bars, i) + DistributionAt(actions, bars, i))
  {
    if i > 0 {
      AdjCloseSign(actions, bars, i - 1);
      OverBack(Times(Tr(actions, bars, i - 1), AdjClose(actions, bars, i) + DistributionAt(actions, bars, i)), AdjClose(actions, bars, i - 1));
    }
  }

  // ---------------------------------------------------------------------------------------------
  // Warnings
  // ---------------------------------------------------------------------------------------------

  lemma {:induction false} SplitWarningsAre(splits: seq<Action>, bars: seq<Bar>, w: Warning)
    ensures w in SplitWarnings(splits, bars) <==>
      exists a :: a in splits && a.Split? && w == SplitWithoutBar(a.exDate) && forall b :: b in bars ==> b.session != a.exDate
    decreases |splits|
  {
    if splits != [] {
      var front, last := splits[..|splits| - 1], splits[|splits| - 1];
      SplitWarningsAre(front, bars, w);
      assert splits == front + [last];
    }
  }

  lemma {:induction false} DistributionWarningsAre(actions: seq<Action>, bars: seq<Bar>, w: Warning)
    ensures w in DistributionWarnings(actions, bars) <==> exists a :: a in actions && w in WarningsOf(a, bars)
    decreases |actions|
  {
    if actions != [] {
      var front, last := actions[..|actions| - 1], actions[|actions| - 1];
      DistributionWarningsAre(front, bars, w);
      assert actions == front + [last];
    }
  }

  /** A dividend, or a spin-off whose child has a first close, ex after the first bar. */
  predicate IsCredited(a: Action, bars: seq<Bar>)
    requires bars != []
  {
    match a
    case CashDividend(d, _) => bars[0].session < d
    case Spinoff(d, _, close) => close.Some? && bars[0].session < d
    case _ => false
  }

  function ExOf(a: Action): int
    requires a.CashDividend? || a.Spinoff?
  {
    match a
    case CashDividend(d, _) => d
    case Spinoff(d, _, _) => d
  }

  /** What each warning says of the actions and the bars. */
  ghost predicate IsWarned(actions: seq<Action>, bars: seq<Bar>, w: Warning)
    requires bars != []
  {
    match w
    case SplitWithoutBar(d) =>
      && bars[0].session < d <= bars[|bars| - 1].session
      && (exists a :: a in actions && a.Split? && a.exDate == d) && (forall b :: b in bars ==> b.session != d)
    case NotValued(a) => a in actions && a.Spinoff? && a.childFirstClose.None?
    case AfterLastBar(a) => a in actions && IsCredited(a, bars) && bars[|bars| - 1].session < ExOf(a)
    case NotOnExDate(a, landed) =>
      a in actions && IsCredited(a, bars)
      && exists i: nat :: 1 <= i < |bars| && bars[i - 1].session < ExOf(a) < bars[i].session == landed
    case StockNotValued(d) =>
      exists i: nat :: EndsAt(actions, i) && actions[i].Merger? && actions[i].paysStock && actions[i].effective == d
  }

  lemma {:induction false} CreditedIs(a: Action, bars: seq<Bar>)
    requires bars != []
    ensures IsCredited(a, bars) <==> Distributed(a).Some? && bars[0].session < ExDate(a)
    ensures IsCredited(a, bars) ==> ExOf(a) == ExDate(a)
  {
  }

  lemma {:induction false} NoneFrom(bars: seq<Bar>, date: int)
    requires Ascending(bars) && bars != []
    ensures Landing(bars, date).None? <==> bars[|bars| - 1].session < date
  {
    LandingIs(bars, date);
    if bars[|bars| - 1].session < date {
      forall b | b in bars ensures b.session < date {
      }
    } else {
      LastLands(bars, date);
    }
  }

  lemma {:induction false} LastLands(bars: seq<Bar>, date: int)
    requires bars != [] && date <= bars[|bars| - 1].session
    ensures Landing(bars, date).Some?
    decreases |bars|
  {
    if bars[0].session < date {
      LastLands(bars[1..], date);
    }
  }

  lemma {:induction false} LandedIff(bars: seq<Bar>, date: int, landed: int)
    requires Ascending(bars) && bars != [] && bars[0].session < date
    ensures Landing(bars, date) == Some(landed) <==>
      exists i: nat :: 1 <= i < |bars| && bars[i - 1].session < date <= bars[i].session == landed
  {
    LandingIs(bars, date);
    if Landing(bars, date).Some? {
      var i: nat :| IsFirstFrom(bars, i, date);
      assert i >= 1;
    }
    forall i: nat | 1 <= i < |bars| && bars[i - 1].session < date <= bars[i].session ensures Landing(bars, date) == Some(bars[i].session) {
      assert IsFirstFrom(bars, i, date);
    }
  }

  ghost predicate DistributionCause(a: Action, bars: seq<Bar>, w: Warning)
    requires bars != []
  {
    match w
    case NotValued(x) => x == a && a.Spinoff? && a.childFirstClose.None?
    case AfterLastBar(x) => x == a && IsCredited(a, bars) && bars[|bars| - 1].session < ExOf(a)
    case NotOnExDate(x, landed) =>
      x == a && IsCredited(a, bars)
      && exists i: nat :: 1 <= i < |bars| && bars[i - 1].session < ExOf(a) < bars[i].session == landed
    case _ => false
  }

  lemma {:induction false} DistributionWarned(actions: seq<Action>, bars: seq<Bar>, a: Action, w: Warning)
    requires Ascending(bars) && bars != []
    ensures w in WarningsOf(a, bars) <==> DistributionCause(a, bars, w)
  {
    CreditedIs(a, bars);
    NoneFrom(bars, ExDate(a));
    if bars[0].session < ExDate(a) {
      match w {
        case NotOnExDate(x, landed) => LandedIff(bars, ExDate(a), landed);
        case _ =>
      }
    }
  }

  lemma {:induction false} EndingWarned(actions: seq<Action>, bars: seq<Bar>, w: Warning)
    requires bars != []
    ensures w in EndingWarnings(actions) <==> w.StockNotValued? && IsWarned(actions, bars, w)
  {
    if NeverEnds(actions) {
      NoEnding(actions);
      assert forall i: nat :: i < |actions| ==> actions[i] in actions;
    } else {
      var i := SomeEnd(actions);
      EndingIs(actions, i);
      forall j: nat | EndsAt(actions, j) ensures actions[j] == actions[i] {
        EndingIs(actions, j);
      }
    }
  }

  lemma {:induction false} SplitWarned(actions: seq<Action>, bars: seq<Bar>, w: Warning)
    requires bars != []
    ensures w in SplitWarnings(StableSort.Sort(Splits(actions, bars[0].session, bars[|bars| - 1].session), ExOrder), bars) <==>
      w.SplitWithoutBar? && IsWarned(actions, bars, w)
  {
    var first, last := bars[0].session, bars[|bars| - 1].session;
    var splits := Splits(actions, first, last);
    StableSort.SortContains(splits, ExOrder);
    SplitWarningsAre(StableSort.Sort(splits, ExOrder), bars, w);
    forall a ensures a in StableSort.Sort(splits, ExOrder) <==> a in actions && IsApplied(a, first, last) {
      SplitMember(actions, first, last, a);
    }
  }

  lemma {:induction false} CausesAre(actions: seq<Action>, bars: seq<Bar>, w: Warning)
    requires bars != []
    ensures (exists a :: a in actions && DistributionCause(a, bars, w)) <==>
      (w.NotValued? || w.AfterLastBar? || w.NotOnExDate?) && IsWarned(actions, bars, w)
  {
  }

  lemma {:induction false} DistributionsWarned(actions: seq<Action>, bars: seq<Bar>, w: Warning)
    requires Ascending(bars) && bars != []
    ensures w in DistributionWarnings(actions, bars) <==>
      (w.NotValued? || w.AfterLastBar? || w.NotOnExDate?) && IsWarned(actions, bars, w)
  {
    DistributionWarningsAre(actions, bars, w);
    CausesAre(actions, bars, w);
    forall a ensures w in WarningsOf(a, bars) <==> DistributionCause(a, bars, w) {
      DistributionWarned(actions, bars, a, w);
    }
  }

  /** A series warns exactly of what its actions and bars give cause for. */
  lemma {:induction false} WarnedIff(actions: seq<Action>, bars: seq<Bar>, w: Warning)
    requires Ascending(bars) && bars != []
    ensures w in Warnings(actions, bars) <==> IsWarned(actions, bars, w)
  {
    SplitWarned(actions, bars, w);
    EndingWarned(actions, bars, w);
    DistributionsWarned(actions, bars, w);
  }
}
