/** Building a total-return index from raw closes and corporate actions. */
module TotalReturn {
  import opened Wrappers
  import StableSort

  datatype Bar = Bar(session: int, close: real, tradable: bool)

  datatype Action =
    | Split(exDate: int, ratio: real)
    | CashDividend(exDate: int, amount: real)
    | Spinoff(exDate: int, childRatio: real, childFirstClose: Option<real>)
    | Merger(effective: int, cashPerShare: Option<real>, paysStock: bool)
    | Delisting(lastTradeDate: int, finalPrice: Option<real>)
    | StaleBar(session: int)
    | OtherAction

  datatype Point = Point(session: int, trIndex: real, adjClose: real, distribution: real, terminal: bool)

  /** What a finished series notes. */
  datatype Warning =
    | SplitWithoutBar(exDate: int)
    | NotValued(action: Action)
    | AfterLastBar(action: Action)
    | NotOnExDate(action: Action, landed: int)
    | StockNotValued(effective: int)

  datatype Built = Built(points: seq<Point>, warnings: seq<Warning>)

  /** `NoQuotient`: a final value over a zero last close, which has no finite result. */
  datatype SeriesError = DuplicateSession | NonPositiveClose | NoQuotient

  // ---------------------------------------------------------------------------------------------
  // Bars and the end of the series
  // ---------------------------------------------------------------------------------------------

  function FirstDelisting(actions: seq<Action>): Option<Action> {
    if actions == [] then None
    else if actions[0].Delisting? then Some(actions[0])
    else FirstDelisting(actions[1..])
  }

  function FirstMerger(actions: seq<Action>): Option<Action> {
    if actions == [] then None
    else if actions[0].Merger? then Some(actions[0])
    else FirstMerger(actions[1..])
  }

  /** The action that ends the series: a delisting before a merger. */
  function Ending(actions: seq<Action>): Option<Action> {
    FirstDelisting(actions).OrElse(FirstMerger(actions))
  }

  function LastDate(ending: Action): int {
    match ending
    case Delisting(d, _) => d
    case Merger(d, _, _) => d - 1
    case _ => 0
  }

  predicate IsStale(actions: seq<Action>, session: int) {
    exists a :: a in actions && a.StaleBar? && a.session == session
  }

  predicate IsUsed(actions: seq<Action>, b: Bar) {
    b.tradable && !IsStale(actions, b.session) && (Ending(actions).Some? ==> b.session <= LastDate(Ending(actions).value))
  }

  function Used(raw: seq<Bar>, actions: seq<Action>): seq<Bar>
    decreases |raw|
  {
    if raw == [] then []
    else
      var front, b := Used(raw[..|raw| - 1], actions), raw[|raw| - 1];
      if IsUsed(actions, b) then front + [b] else front
  }

  function BarOrder(b: Bar): StableSort.Key {
    StableSort.Key(b.session, 0, 0)
  }

  function Bars(raw: seq<Bar>, actions: seq<Action>): seq<Bar> {
    StableSort.Sort(Used(raw, actions), BarOrder)
  }

  ghost predicate Ascending(bars: seq<Bar>) {
    forall i, j :: 0 <= i < j < |bars| ==> bars[i].session < bars[j].session
  }

  // ---------------------------------------------------------------------------------------------
  // Splits and distributions
  // ---------------------------------------------------------------------------------------------

  function Times(x: real, y: real): real {
    x * y
  }

  function Over(x: real, y: real): real
    requires y != 0.0
  {
    x / y
  }

  predicate IsApplied(a: Action, first: int, last: int) {
    a.Split? && first < a.exDate <= last
  }

  /** The product of the ratios of the splits in the series that are ex by a date. */
  function Factor(actions: seq<Action>, first: int, last: int, date: int): real
    decreases |actions|
  {
    if actions == [] then 1.0
    else
      var front, a := Factor(actions[..|actions| - 1], first, last, date), actions[|actions| - 1];
      if IsApplied(a, first, last) && a.exDate <= date then Times(front, a.ratio) else front
  }

  /** The session a distribution lands on: the first bar at or after its ex-date. */
  function Landing(bars: seq<Bar>, date: int): Option<int> {
    if bars == [] then None
    else if bars[0].session >= date then Some(bars[0].session)
    else Landing(bars[1..], date)
  }

  /** What an action distributes per share, if it does. */
  function Distributed(a: Action): Option<real> {
    match a
    case CashDividend(_, amount) => Some(amount)
    case Spinoff(_, ratio, Some(close)) => Some(Times(ratio, close))
    case _ => None
  }

  function ExDate(a: Action): int {
    match a
    case CashDividend(d, _) => d
    case Spinoff(d, _, _) => d
    case _ => 0
  }

  /** A distribution with a prior close to be reinvested against, at the session it lands on. */
  predicate LandsOn(a: Action, bars: seq<Bar>, session: int) {
    bars != [] && Distributed(a).Some? && ExDate(a) > bars[0].session && Landing(bars, ExDate(a)) == Some(session)
  }

  /** The distributions landing on a session, in raw per-share units. */
  function RawDistribution(actions: seq<Action>, bars: seq<Bar>, session: int): real
    decreases |actions|
  {
    if actions == [] then 0.0
    else
      var front, a := RawDistribution(actions[..|actions| - 1], bars, session), actions[|actions| - 1];
      if LandsOn(a, bars, session) then front + Distributed(a).value else front
  }

  // ---------------------------------------------------------------------------------------------
  // The series
  // ---------------------------------------------------------------------------------------------

  predicate RatiosPositive(actions: seq<Action>) {
    forall a :: a in actions && a.Split? ==> a.ratio > 0.0
  }

  lemma {:induction false} FactorPositive(actions: seq<Action>, first: int, last: int, date: int)
    requires RatiosPositive(actions)
    ensures Factor(actions, first, last, date) > 0.0
    decreases |actions|
  {
    if actions != [] {
      var front, a := actions[..|actions| - 1], actions[|actions| - 1];
      assert a in actions && forall x :: x in front ==> x in actions;
      FactorPositive(front, first, last, date);
      if IsApplied(a, first, last) && a.exDate <= date {
        TimesPositive(Factor(front, first, last, date), a.ratio);
      }
    }
  }

  lemma {:induction false} TimesPositive(x: real, y: real)
    requires x > 0.0 && y > 0.0
    ensures Times(x, y) > 0.0
  {
  }

  /** Raw per-share units on a date, in end-of-series share units. */
  function Scale(actions: seq<Action>, bars: seq<Bar>, date: int): (s: real)
    requires bars != [] && RatiosPositive(actions)
    ensures s > 0.0
  {
    var first, last := bars[0].session, bars[|bars| - 1].session;
    FactorPositive(actions, first, last, date);
    FactorPositive(actions, first, last, last);
    Over(Factor(actions, first, last, date), Factor(actions, first, last, last))
  }

  function AdjClose(actions: seq<Action>, bars: seq<Bar>, i: nat): real
    requires i < |bars| && RatiosPositive(actions)
  {
    Times(bars[i].close, Scale(actions, bars, bars[i].session))
  }

  function DistributionAt(actions: seq<Action>, bars: seq<Bar>, i: nat): real
    requires i < |bars| && RatiosPositive(actions)
  {
    Times(RawDistribution(actions, bars, bars[i].session), Scale(actions, bars, bars[i].session))
  }

  /** Whether every close before bar `n` can be divided by. */
  ghost predicate Divisible(bars: seq<Bar>, n: nat)
    requires n <= |bars|
  {
    forall i :: 0 <= i < n - 1 ==> bars[i].close > 0.0
  }

  lemma {:induction false} AdjCloseSign(actions: seq<Action>, bars: seq<Bar>, i: nat)
    requires i < |bars| && RatiosPositive(actions)
    ensures AdjClose(actions, bars, i) > 0.0 <==> bars[i].close > 0.0
    ensures AdjClose(actions, bars, i) == 0.0 <==> bars[i].close == 0.0
  {
  }

  lemma {:induction false} SignOfProduct(x: real, s: real)
    requires s > 0.0
    ensures Times(x, s) > 0.0 <==> x > 0.0
    ensures Times(x, s) == 0.0 <==> x == 0.0
  {
  }

  /** The total-return index at bar `i`: 1 at the first, then reinvesting each close and its distribution. */
  ghost function Tr(actions: seq<Action>, bars: seq<Bar>, i: nat): real
    requires i < |bars| && RatiosPositive(actions) && Divisible(bars, i + 1)
  {
    if i == 0 then 1.0
    else
      AdjCloseSign(actions, bars, i - 1);
      Over(Times(Tr(actions, bars, i - 1), AdjClose(actions, bars, i) + DistributionAt(actions, bars, i)),
           AdjClose(actions, bars, i - 1))
  }

  /** What the ending pays for a last share, and when it is realized. */
  function FinalValue(actions: seq<Action>): Option<real> {
    match Ending(actions)
    case Some(Delisting(_, price)) => Some(price.GetOr(0.0))
    case Some(Merger(_, cash, _)) => Some(cash.GetOr(0.0))
    case _ => None
  }

  function FinalSession(actions: seq<Action>, last: int): int {
    match Ending(actions)
    case Some(Merger(d, _, _)) => d
    case _ => last + 1
  }

  /** The value of the index once the ending is realized. */
  ghost function FinalTr(actions: seq<Action>, bars: seq<Bar>): real
    requires bars != [] && RatiosPositive(actions) && Divisible(bars, |bars|) && bars[|bars| - 1].close != 0.0
    requires FinalValue(actions).Some?
  {
    var n := |bars| - 1;
    AdjCloseSign(actions, bars, n);
    Over(Times(Tr(actions, bars, n), FinalValue(actions).value), AdjClose(actions, bars, n))
  }

  ghost function BarPoint(actions: seq<Action>, bars: seq<Bar>, i: nat): Point
    requires i < |bars| && RatiosPositive(actions) && Divisible(bars, i + 1)
  {
    Point(bars[i].session, Tr(actions, bars, i), AdjClose(actions, bars, i), DistributionAt(actions, bars, i), false)
  }

  ghost predicate PointsAre(points: seq<Point>, actions: seq<Action>, bars: seq<Bar>, n: nat)
    requires n <= |bars| && RatiosPositive(actions) && Divisible(bars, n)
  {
    |points| == n && forall i :: 0 <= i < n ==> points[i] == BarPoint(actions, bars, i)
  }

  ghost predicate Duplicated(bars: seq<Bar>) {
    exists i, j :: 0 <= i < j < |bars| && bars[i].session == bars[j].session
  }

  /** What the bars and the ending must be for the series to exist. */
  ghost predicate Builds(actions: seq<Action>, bars: seq<Bar>) {
    && !Duplicated(bars)
    && (bars != [] ==> Divisible(bars, |bars|) && (FinalValue(actions).Some? ==> bars[|bars| - 1].close != 0.0))
  }

  /** A point for each bar, and one that realizes the ending. */
  ghost function Series(actions: seq<Action>, bars: seq<Bar>): (points: seq<Point>)
    requires RatiosPositive(actions) && Builds(actions, bars)
    ensures |points| == |bars| + if bars != [] && FinalValue(actions).Some? then 1 else 0
  {
    if bars == [] then []
    else
      seq(|bars|, i requires 0 <= i < |bars| => BarPoint(actions, bars, i))
      + if FinalValue(actions).None? then []
        else [Point(FinalSession(actions, bars[|bars| - 1].session), FinalTr(actions, bars), FinalValue(actions).value, 0.0, true)]
  }

  lemma {:induction false} SeriesIs(points: seq<Point>, actions: seq<Action>, bars: seq<Bar>)
    requires RatiosPositive(actions) && Builds(actions, bars) && bars != [] && PointsAre(points, actions, bars, |bars|)
    ensures Series(actions, bars) == points
      + if FinalValue(actions).None? then []
        else [Point(FinalSession(actions, bars[|bars| - 1].session), FinalTr(actions, bars), FinalValue(actions).value, 0.0, true)]
  {
    assert points == seq(|bars|, i requires 0 <= i < |bars| => BarPoint(actions, bars, i));
  }

  // ---------------------------------------------------------------------------------------------
  // What it notes
  // ---------------------------------------------------------------------------------------------

  function SplitWarnings(splits: seq<Action>, bars: seq<Bar>): seq<Warning>
    decreases |splits|
  {
    if splits == [] then []
    else
      var front, a := SplitWarnings(splits[..|splits| - 1], bars), splits[|splits| - 1];
      if a.Split? && !exists b :: b in bars && b.session == a.exDate then front + [SplitWithoutBar(a.exDate)] else front
  }

  function WarningsOf(a: Action, bars: seq<Bar>): seq<Warning> {
    if a.Spinoff? && a.childFirstClose.None? then [NotValued(a)]
    else if Distributed(a).None? || bars == [] || ExDate(a) <= bars[0].session then []
    else
      match Landing(bars, ExDate(a))
      case None => [AfterLastBar(a)]
      case Some(target) => if target != ExDate(a) then [NotOnExDate(a, target)] else []
  }

  function DistributionWarnings(actions: seq<Action>, bars: seq<Bar>): seq<Warning>
    decreases |actions|
  {
    if actions == [] then []
    else DistributionWarnings(actions[..|actions| - 1], bars) + WarningsOf(actions[|actions| - 1], bars)
  }

  function EndingWarnings(actions: seq<Action>): seq<Warning> {
    match Ending(actions)
    case Some(Merger(d, _, true)) => [StockNotValued(d)]
    case _ => []
  }

  function Warnings(actions: seq<Action>, bars: seq<Bar>): seq<Warning> {
    if bars == [] then []
    else
      SplitWarnings(StableSort.Sort(Splits(actions, bars[0].session, bars[|bars| - 1].session), ExOrder), bars)
      + DistributionWarnings(actions, bars) + EndingWarnings(actions)
  }

  // ---------------------------------------------------------------------------------------------
  // The running split factor
  // ---------------------------------------------------------------------------------------------

  function Splits(actions: seq<Action>, first: int, last: int): seq<Action>
    decreases |actions|
  {
    if actions == [] then []
    else
      var front, a := Splits(actions[..|actions| - 1], first, last), actions[|actions| - 1];
      if IsApplied(a, first, last) then front + [a] else front
  }

  function ExOrder(a: Action): StableSort.Key {
    if a.Split? then StableSort.Key(a.exDate, 0, 0) else StableSort.Key(0, 0, 0)
  }

  /** The product of the ratios of splits ex by a date. */
  function Product(splits: seq<Action>, date: int): real
    decreases |splits|
  {
    if splits == [] then 1.0
    else
      var front, a := Product(splits[..|splits| - 1], date), splits[|splits| - 1];
      if a.Split? && a.exDate <= date then Times(front, a.ratio) else front
  }

  lemma {:induction false} ProductOfSplits(actions: seq<Action>, first: int, last: int, date: int)
    ensures Product(Splits(actions, first, last), date) == Factor(actions, first, last, date)
    decreases |actions|
  {
    if actions != [] {
      ProductOfSplits(actions[..|actions| - 1], first, last, date);
    }
  }

  lemma {:induction false} InsertProduct(s: seq<Action>, a: Action, date: int)
    ensures Product(StableSort.Insert(s, a, ExOrder), date) == Product(s + [a], date)
    decreases |s|
  {
    if s == [] {
      assert s + [a] == [a];
    } else {
      var front, b := s[..|s| - 1], s[|s| - 1];
      assert (s + [a])[..|s|] == s;
      if !StableSort.Leq(ExOrder(b), ExOrder(a)) {
        InsertProduct(front, a, date);
        assert (front + [a])[..|front|] == front;
        var r := StableSort.Insert(front, a, ExOrder);
        assert (r + [b])[..|r|] == r;
        TimesSwap(Product(front, date), a, b);
      }
    }
  }

  lemma {:induction false} TimesSwap(x: real, a: Action, b: Action)
    ensures a.Split? && b.Split? ==> Times(Times(x, a.ratio), b.ratio) == Times(Times(x, b.ratio), a.ratio)
  {
  }

  lemma {:induction false} SortProduct(s: seq<Action>, date: int)
    ensures Product(StableSort.Sort(s, ExOrder), date) == Product(s, date)
    decreases |s|
  {
    if s != [] {
      var front, a := s[..|s| - 1], s[|s| - 1];
      var sorted := StableSort.Sort(front, ExOrder);
      SortProduct(front, date);
      InsertProduct(sorted, a, date);
      assert (sorted + [a])[..|sorted|] == sorted;
    }
  }

  // ---------------------------------------------------------------------------------------------
  // The loops
  // ---------------------------------------------------------------------------------------------

  ghost predicate AreSplits(splits: seq<Action>) {
    && (forall a :: a in splits ==> a.Split? && a.ratio > 0.0)
    && (forall i, j :: 0 <= i < j < |splits| ==> ExOrder(splits[i]).a <= ExOrder(splits[j]).a)
  }

  ghost predicate ExBy(splits: seq<Action>, n: nat, date: int)
    requires n <= |splits|
  {
    forall j :: 0 <= j < n ==> splits[j].Split? && splits[j].exDate <= date
  }

  lemma {:induction false} ProductOfEx(splits: seq<Action>, n: nat, date: int, later: int)
    requires n <= |splits| && date <= later && ExBy(splits, n, date)
    ensures Product(splits[..n], date) == Product(splits[..n], later)
    decreases n
  {
    if n > 0 {
      assert splits[..n][..n - 1] == splits[..n - 1];
      ProductOfEx(splits, n - 1, date, later);
    }
  }

  lemma {:induction false} ProductCut(splits: seq<Action>, n: nat, date: int)
    requires n <= |splits| && forall j :: n <= j < |splits| ==> splits[j].Split? && splits[j].exDate > date
    ensures Product(splits, date) == Product(splits[..n], date)
    decreases |splits|
  {
    if n == |splits| {
      assert splits[..n] == splits;
    } else {
      var front := splits[..|splits| - 1];
      ProductCut(front, n, date);
      assert front[..n] == splits[..n];
    }
  }

  lemma {:induction false} SplitMember(actions: seq<Action>, first: int, last: int, a: Action)
    ensures a in Splits(actions, first, last) <==> a in actions && IsApplied(a, first, last)
    decreases |actions|
  {
    if actions != [] {
      SplitMember(actions[..|actions| - 1], first, last, a);
      assert actions == actions[..|actions| - 1] + [actions[|actions| - 1]];
    }
  }

  lemma {:induction false} SortedSplitsAre(actions: seq<Action>, first: int, last: int)
    requires RatiosPositive(actions)
    ensures var splits := StableSort.Sort(Splits(actions, first, last), ExOrder);
            AreSplits(splits) && ExBy(splits, |splits|, last)
  {
    var applied := Splits(actions, first, last);
    var splits := StableSort.Sort(applied, ExOrder);
    StableSort.SortSorted(applied, ExOrder);
    StableSort.SortContains(applied, ExOrder);
    forall a | a in splits ensures a.Split? && a.ratio > 0.0 && a.exDate <= last {
      SplitMember(actions, first, last, a);
    }
    forall i, j | 0 <= i < j < |splits| ensures ExOrder(splits[i]).a <= ExOrder(splits[j]).a {
      StableSort.SortedPairs(splits, i, j, ExOrder);
    }
  }

  lemma {:induction false} SortedProduct(actions: seq<Action>, first: int, last: int, date: int)
    ensures Product(StableSort.Sort(Splits(actions, first, last), ExOrder), date) == Factor(actions, first, last, date)
  {
    SortProduct(Splits(actions, first, last), date);
    ProductOfSplits(actions, first, last, date);
  }

  /** The product of all the splits' ratios. */
  method WholeProduct(splits: seq<Action>, last: int) returns (f: real)
    requires AreSplits(splits) && ExBy(splits, |splits|, last)
    ensures f == Product(splits, last)
  {
    f := 1.0;
    for i := 0 to |splits|
      invariant f == Product(splits[..i], last)
    {
      assert splits[..i + 1][..i] == splits[..i] && splits[i] in splits;
      f := Times(f, splits[i].ratio);
    }
    assert splits[..|splits|] == splits;
  }

  /** The splits inside the series, by ex-date. */
  method SortedSplits(actions: seq<Action>, first: int, last: int) returns (splits: seq<Action>, fEnd: real)
    requires RatiosPositive(actions)
    ensures AreSplits(splits) && ExBy(splits, |splits|, last)
    ensures forall date :: Product(splits, date) == Factor(actions, first, last, date)
    ensures fEnd == Factor(actions, first, last, last)
    ensures splits == StableSort.Sort(Splits(actions, first, last), ExOrder)
  {
    splits := StableSort.Sort(Splits(actions, first, last), ExOrder);
    SortedSplitsAre(actions, first, last);
    forall date ensures Product(splits, date) == Factor(actions, first, last, date) {
      SortedProduct(actions, first, last, date);
    }
    fEnd := WholeProduct(splits, last);
  }

  /** Advance the running split factor to a bar's session. */
  method AdvanceFactor(splits: seq<Action>, f: real, from: nat, ghost date: int, session: int) returns (g: real, n: nat)
    requires AreSplits(splits) && from <= |splits| && date <= session && ExBy(splits, from, date)
    requires f == Product(splits[..from], date)
    ensures from <= n <= |splits| && ExBy(splits, n, session)
    ensures g == Product(splits[..n], session) == Product(splits, session)
  {
    g, n := f, from;
    ProductOfEx(splits, from, date, session);
    while n < |splits| && ExOrder(splits[n]).a <= session
      invariant from <= n <= |splits| && ExBy(splits, n, session) && g == Product(splits[..n], session)
    {
      assert splits[..n + 1][..n] == splits[..n] && splits[n] in splits;
      g := Times(g, splits[n].ratio);
      n := n + 1;
    }
    forall j | n <= j < |splits| ensures splits[j].Split? && splits[j].exDate > session {
      assert splits[j] in splits && splits[n] in splits;
      assert ExOrder(splits[n]).a <= ExOrder(splits[j]).a;
    }
    ProductCut(splits, n, session);
  }

  function Get(m: map<int, real>, session: int): real {
    if session in m then m[session] else 0.0
  }

  /** Add up the distributions by the session each lands on. */
  method Distributions(actions: seq<Action>, bars: seq<Bar>) returns (raw: map<int, real>, warnings: seq<Warning>)
    requires bars != []
    ensures forall s :: Get(raw, s) == RawDistribution(actions, bars, s)
    ensures warnings == DistributionWarnings(actions, bars)
  {
    raw, warnings := map[], [];
    var i := 0;
    while i < |actions|
      invariant i <= |actions| && forall s :: Get(raw, s) == RawDistribution(actions[..i], bars, s)
      invariant warnings == DistributionWarnings(actions[..i], bars)
    {
      var a := actions[i];
      ghost var before := raw;
      assert actions[..i + 1][..i] == actions[..i];
      var amount := Distributed(a);
      if a.Spinoff? && a.childFirstClose.None? {
        warnings := warnings + [NotValued(a)];
      } else if amount.Some? && ExDate(a) > bars[0].session {
        var target := Landing(bars, ExDate(a));
        if target.None? {
          warnings := warnings + [AfterLastBar(a)];
        } else {
          if target.value != ExDate(a) {
            warnings := warnings + [NotOnExDate(a, target.value)];
          }
          raw := raw[target.value := Get(raw, target.value) + amount.value];
        }
      }
      forall s ensures Get(raw, s) == RawDistribution(actions[..i + 1], bars, s) {
        DistributionStep(actions, bars, i, s);
        assert Get(before, s) == RawDistribution(actions[..i], bars, s);
      }
      i := i + 1;
    }
    assert actions[..i] == actions;
  }

  lemma {:induction false} DistributionStep(actions: seq<Action>, bars: seq<Bar>, i: nat, session: int)
    requires i < |actions|
    ensures RawDistribution(actions[..i + 1], bars, session)
            == RawDistribution(actions[..i], bars, session)
               + if LandsOn(actions[i], bars, session) then Distributed(actions[i]).value else 0.0
  {
    assert actions[..i + 1][..i] == actions[..i];
  }

  method FindDuplicate(bars: seq<Bar>) returns (found: bool)
    requires StableSort.IsSorted(bars, BarOrder)
    ensures found == Duplicated(bars)
    ensures !found ==> Ascending(bars)
  {
    forall i, j | 0 <= i <= j < |bars| ensures bars[i].session <= bars[j].session {
      StableSort.SortedPairs(bars, i, j, BarOrder);
    }
    var i := 1;
    while i < |bars|
      invariant 1 <= i
      invariant forall k, j :: 0 <= k < j < i && j < |bars| ==> bars[k].session < bars[j].session
    {
      if bars[i - 1].session == bars[i].session {
        return true;
      }
      i := i + 1;
    }
    return false;
  }

  /** One bar's point, unless the close before it cannot be divided by. */
  method PointFor(actions: seq<Action>, bars: seq<Bar>, i: nat, f: real, fEnd: real, amount: real, tr: real, prevAdj: real)
    returns (point: Point, ok: bool)
    requires i < |bars| && RatiosPositive(actions) && Divisible(bars, i)
    requires fEnd == Factor(actions, bars[0].session, bars[|bars| - 1].session, bars[|bars| - 1].session)
    requires f == Factor(actions, bars[0].session, bars[|bars| - 1].session, bars[i].session)
    requires amount == RawDistribution(actions, bars, bars[i].session)
    requires if i == 0 then tr == 1.0 else tr == Tr(actions, bars, i - 1) && prevAdj == AdjClose(actions, bars, i - 1)
    ensures ok <==> Divisible(bars, i + 1)
    ensures ok ==> point == BarPoint(actions, bars, i)
  {
    ok := true;
    FactorPositive(actions, bars[0].session, bars[|bars| - 1].session, bars[|bars| - 1].session);
    var scale := Over(f, fEnd);
    var adjClose := Times(bars[i].close, scale);
    var dist := Times(amount, scale);
    var next := tr;
    if i > 0 {
      AdjCloseSign(actions, bars, i - 1);
      if prevAdj <= 0.0 {
        ok := false;
      } else {
        next := Over(Times(tr, adjClose + dist), prevAdj);
      }
    }
    point := Point(bars[i].session, next, adjClose, dist, false);
  }

  method SplitsWithoutBar(splits: seq<Action>, bars: seq<Bar>) returns (warnings: seq<Warning>)
    ensures warnings == SplitWarnings(splits, bars)
  {
    warnings := [];
    for i := 0 to |splits|
      invariant warnings == SplitWarnings(splits[..i], bars)
    {
      assert splits[..i + 1][..i] == splits[..i];
      if splits[i].Split? && !exists b :: b in bars && b.session == splits[i].exDate {
        warnings := warnings + [SplitWithoutBar(splits[i].exDate)];
      }
    }
    assert splits[..|splits|] == splits;
  }

  /** A point for each bar, or the first close that cannot be divided by. */
  method BarPoints(actions: seq<Action>, bars: seq<Bar>, splits: seq<Action>, fEnd: real, raw: map<int, real>)
    returns (points: seq<Point>, ok: bool)
    requires bars != [] && Ascending(bars) && RatiosPositive(actions) && AreSplits(splits)
    requires forall date :: Product(splits, date) == Factor(actions, bars[0].session, bars[|bars| - 1].session, date)
    requires fEnd == Factor(actions, bars[0].session, bars[|bars| - 1].session, bars[|bars| - 1].session)
    requires forall s :: Get(raw, s) == RawDistribution(actions, bars, s)
    ensures ok <==> Divisible(bars, |bars|)
    ensures ok ==> PointsAre(points, actions, bars, |bars|)
  {
    var f, idx := 1.0, 0;
    var tr, prevAdj := 1.0, 0.0;
    points, ok := [], true;
    var i := 0;
    ghost var date := bars[0].session;
    assert splits[..0] == [];
    while i < |bars|
      invariant i <= |bars| && Divisible(bars, i) && PointsAre(points, actions, bars, i)
      invariant idx <= |splits| && ExBy(splits, idx, date) && f == Product(splits[..idx], date)
      invariant date == if i == 0 then bars[0].session else bars[i - 1].session
      invariant i > 0 ==> tr == Tr(actions, bars, i - 1) && prevAdj == AdjClose(actions, bars, i - 1)
      invariant i == 0 ==> tr == 1.0
    {
      var bar := bars[i];
      f, idx := AdvanceFactor(splits, f, idx, date, bar.session);
      var point, priced := PointFor(actions, bars, i, f, fEnd, Get(raw, bar.session), tr, prevAdj);
      if !priced {
        return [], false;
      }
      points := points + [point];
      tr, prevAdj := point.trIndex, point.adjClose;
      date := bar.session;
      i := i + 1;
    }
  }

  /** The error a build ends in, if its input is refused. */
  ghost predicate IsRefusal(e: SeriesError, actions: seq<Action>, bars: seq<Bar>) {
    match e
    case DuplicateSession => Duplicated(bars)
    case NonPositiveClose => !Duplicated(bars) && bars != [] && !Divisible(bars, |bars|)
    case NoQuotient =>
      !Duplicated(bars) && bars != [] && Divisible(bars, |bars|) && FinalValue(actions).Some? && bars[|bars| - 1].close == 0.0
  }

  /** The total-return series. */
  method Build(raw: seq<Bar>, actions: seq<Action>) returns (result: Result<Built, SeriesError>)
    requires RatiosPositive(actions)
    ensures result.Success? <==> Builds(actions, Bars(raw, actions))
    ensures result.Success? ==> result.value == Built(Series(actions, Bars(raw, actions)), Warnings(actions, Bars(raw, actions)))
    ensures result.Failure? ==> IsRefusal(result.error, actions, Bars(raw, actions))
  {
    var bars := StableSort.Sort(Used(raw, actions), BarOrder);
    StableSort.SortSorted(Used(raw, actions), BarOrder);
    var duplicate := FindDuplicate(bars);
    if duplicate {
      return Failure(DuplicateSession);
    }
    if bars == [] {
      return Success(Built([], []));
    }
    result := BuildFrom(actions, bars);
  }

  /** The series over bars on different sessions. */
  method BuildFrom(actions: seq<Action>, bars: seq<Bar>) returns (result: Result<Built, SeriesError>)
    requires RatiosPositive(actions) && bars != [] && Ascending(bars) && !Duplicated(bars)
    ensures result.Success? <==> Builds(actions, bars)
    ensures result.Success? ==> result.value == Built(Series(actions, bars), Warnings(actions, bars))
    ensures result.Failure? ==> IsRefusal(result.error, actions, bars)
  {
    var splits, fEnd := SortedSplits(actions, bars[0].session, bars[|bars| - 1].session);
    var noted := SplitsWithoutBar(splits, bars);
    var distributions, more := Distributions(actions, bars);
    var points, ok := BarPoints(actions, bars, splits, fEnd, distributions);
    if !ok {
      return Failure(NonPositiveClose);
    }
    result := Finish(actions, bars, points, noted + more);
  }

  /** Realize the ending. */
  method Finish(actions: seq<Action>, bars: seq<Bar>, points: seq<Point>, noted: seq<Warning>)
    returns (result: Result<Built, SeriesError>)
    requires RatiosPositive(actions) && bars != [] && !Duplicated(bars) && Divisible(bars, |bars|)
    requires PointsAre(points, actions, bars, |bars|)
    ensures result.Success? <==> Builds(actions, bars)
    ensures result.Success? ==> result.value == Built(Series(actions, bars), noted + EndingWarnings(actions))
    ensures result.Failure? ==> result.error == NoQuotient && FinalValue(actions).Some? && bars[|bars| - 1].close == 0.0
  {
    var final := FinalValue(actions);
    FirstsAreSuch(actions);
    if final.None? {
      SeriesIs(points, actions, bars);
      assert points + [] == points && noted + [] == noted;
      return Success(Built(points, noted));
    }
    var lastPoint := points[|points| - 1];
    AdjCloseSign(actions, bars, |bars| - 1);
    if lastPoint.adjClose == 0.0 {
      return Failure(NoQuotient);
    }
    SeriesIs(points, actions, bars);
    var tr := Over(Times(lastPoint.trIndex, final.value), lastPoint.adjClose);
    var all := points + [Point(FinalSession(actions, lastPoint.session), tr, final.value, 0.0, true)];
    return Success(Built(all, noted + EndingWarnings(actions)));
  }

  lemma {:induction false} FirstsAreSuch(actions: seq<Action>)
    ensures FirstDelisting(actions).Some? ==> FirstDelisting(actions).value.Delisting?
    ensures FirstMerger(actions).Some? ==> FirstMerger(actions).value.Merger?
  {
    if actions != [] {
      FirstsAreSuch(actions[1..]);
    }
  }
}
