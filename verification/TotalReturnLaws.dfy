/**
 * Restating a history for a split leaves the total-return index unchanged, exactly when no distribution is carried
 * over the split's ex-date; and without distributions the index is the ratio of adjusted closes.
 */
module TotalReturnLaws {
  import opened Wrappers
  import opened TotalReturn
  import StableSort

  // ---------------------------------------------------------------------------------------------
  // Restating a history for a split
  // ---------------------------------------------------------------------------------------------

  /** The split a history is restated for. */
  datatype Restatement = Restatement(exDate: int, ratio: real)

  function PerShare(r: Restatement, amount: real): real
    requires r.ratio > 0.0
  {
    Over(amount, r.ratio)
  }

  function RestatedBar(r: Restatement, b: Bar): Bar
    requires r.ratio > 0.0
  {
    if b.session >= r.exDate then b.(close := PerShare(r, b.close)) else b
  }

  function RestatedOption(r: Restatement, amount: Option<real>): Option<real>
    requires r.ratio > 0.0
  {
    if amount.Some? then Some(PerShare(r, amount.value)) else None
  }

  /** Per-share amounts from the ex-date on, and what the ending pays, in the new shares. */
  function RestatedAction(r: Restatement, a: Action): Action
    requires r.ratio > 0.0
  {
    match a
    case CashDividend(d, amount) => if d >= r.exDate then CashDividend(d, PerShare(r, amount)) else a
    case Spinoff(d, ratio, close) => if d >= r.exDate then Spinoff(d, ratio, RestatedOption(r, close)) else a
    case Merger(d, cash, stock) => Merger(d, RestatedOption(r, cash), stock)
    case Delisting(d, price) => Delisting(d, RestatedOption(r, price))
    case _ => a
  }

  function RestatedBars(r: Restatement, bars: seq<Bar>): seq<Bar>
    requires r.ratio > 0.0
    decreases |bars|
  {
    if bars == [] then [] else RestatedBars(r, bars[..|bars| - 1]) + [RestatedBar(r, bars[|bars| - 1])]
  }

  function RestatedActions(r: Restatement, actions: seq<Action>): seq<Action>
    requires r.ratio > 0.0
    decreases |actions|
  {
    if actions == [] then [] else RestatedActions(r, actions[..|actions| - 1]) + [RestatedAction(r, actions[|actions| - 1])]
  }

  /** The restated actions, with the split itself. */
  function WithSplit(r: Restatement, actions: seq<Action>): seq<Action>
    requires r.ratio > 0.0
  {
    RestatedActions(r, actions) + [Split(r.exDate, r.ratio)]
  }

  lemma {:induction false} RestatedBarsAt(r: Restatement, bars: seq<Bar>)
    requires r.ratio > 0.0
    ensures |RestatedBars(r, bars)| == |bars|
    ensures forall i :: 0 <= i < |bars| ==> RestatedBars(r, bars)[i] == RestatedBar(r, bars[i])
    decreases |bars|
  {
    if bars != [] {
      RestatedBarsAt(r, bars[..|bars| - 1]);
    }
  }

  lemma {:induction false} RestatedActionsAt(r: Restatement, actions: seq<Action>)
    requires r.ratio > 0.0
    ensures |RestatedActions(r, actions)| == |actions|
    ensures forall i :: 0 <= i < |actions| ==> RestatedActions(r, actions)[i] == RestatedAction(r, actions[i])
    decreases |actions|
  {
    if actions != [] {
      RestatedActionsAt(r, actions[..|actions| - 1]);
    }
  }

  lemma {:induction false} RatiosStayPositive(r: Restatement, actions: seq<Action>)
    requires r.ratio > 0.0 && RatiosPositive(actions)
    ensures RatiosPositive(RestatedActions(r, actions)) && RatiosPositive(WithSplit(r, actions))
  {
    RestatedActionsAt(r, actions);
    forall a | a in RestatedActions(r, actions) && a.Split? ensures a.ratio > 0.0 {
      var i :| 0 <= i < |actions| && RestatedActions(r, actions)[i] == a;
      assert actions[i] in actions;
    }
  }

  // ---------------------------------------------------------------------------------------------
  // The same bars are used
  // ---------------------------------------------------------------------------------------------

  lemma {:induction false} EndingRestated(r: Restatement, actions: seq<Action>)
    requires r.ratio > 0.0
    ensures var xs := WithSplit(r, actions);
            && (FirstDelisting(xs) == match FirstDelisting(actions) case Some(a) => Some(RestatedAction(r, a)) case None => None)
            && (FirstMerger(xs) == match FirstMerger(actions) case Some(a) => Some(RestatedAction(r, a)) case None => None)
    decreases |actions|
  {
    var xs := WithSplit(r, actions);
    RestatedActionsAt(r, actions);
    if actions == [] {
      assert xs[1..] == [];
    } else {
      EndingRestated(r, actions[1..]);
      RestatedActionsAt(r, actions[1..]);
      assert xs[1..] == WithSplit(r, actions[1..]);
    }
  }

  /** The ending is the same action on the same date, paying the restated value. */
  lemma {:induction false} FinalRestated(r: Restatement, actions: seq<Action>)
    requires r.ratio > 0.0
    ensures var xs := WithSplit(r, actions);
            && (FinalValue(xs) == RestatedOption(r, FinalValue(actions)))
            && (Ending(xs).Some? <==> Ending(actions).Some?)
            && (Ending(actions).Some? ==> LastDate(Ending(xs).value) == LastDate(Ending(actions).value))
  {
    EndingRestated(r, actions);
    FirstsAreSuch(actions);
    assert PerShare(r, 0.0) == 0.0;
  }

  lemma {:induction false} StaleRestated(r: Restatement, actions: seq<Action>, session: int)
    requires r.ratio > 0.0
    ensures IsStale(WithSplit(r, actions), session) <==> IsStale(actions, session)
  {
    var xs := WithSplit(r, actions);
    RestatedActionsAt(r, actions);
    if a :| a in actions && a.StaleBar? && a.session == session {
      var i :| 0 <= i < |actions| && actions[i] == a;
      assert xs[i] == a;
    }
    if a :| a in xs && a.StaleBar? && a.session == session {
      var i :| 0 <= i < |xs| && xs[i] == a;
      assert actions[i] == a;
    }
  }

  lemma {:induction false} UsedRestated(r: Restatement, raw: seq<Bar>, actions: seq<Action>)
    requires r.ratio > 0.0
    ensures Used(RestatedBars(r, raw), WithSplit(r, actions)) == RestatedBars(r, Used(raw, actions))
    decreases |raw|
  {
    if raw != [] {
      var front, b := raw[..|raw| - 1], raw[|raw| - 1];
      UsedRestated(r, front, actions);
      FinalRestated(r, actions);
      StaleRestated(r, actions, b.session);
      assert RestatedBars(r, raw)[..|raw| - 1] == RestatedBars(r, front) by {
        RestatedBarsAt(r, front);
      }
      RestatedBarsAt(r, raw);
      assert IsUsed(WithSplit(r, actions), RestatedBar(r, b)) <==> IsUsed(actions, b);
    }
  }

  lemma {:induction false} InsertRestated(r: Restatement, bars: seq<Bar>, b: Bar)
    requires r.ratio > 0.0
    ensures StableSort.Insert(RestatedBars(r, bars), RestatedBar(r, b), BarOrder)
            == RestatedBars(r, StableSort.Insert(bars, b, BarOrder))
    decreases |bars|
  {
    RestatedBarsAt(r, bars);
    if bars == [] {
      assert [b][..0] == [];
    } else {
      var front, y := bars[..|bars| - 1], bars[|bars| - 1];
      RestatedBarsAt(r, front);
      assert RestatedBars(r, bars)[..|bars| - 1] == RestatedBars(r, front);
      if StableSort.Leq(BarOrder(y), BarOrder(b)) {
        assert (bars + [b])[..|bars|] == bars;
      } else {
        InsertRestated(r, front, b);
        var s := StableSort.Insert(front, b, BarOrder);
        assert (s + [y])[..|s|] == s;
      }
    }
  }

  lemma {:induction false} SortRestated(r: Restatement, bars: seq<Bar>)
    requires r.ratio > 0.0
    ensures StableSort.Sort(RestatedBars(r, bars), BarOrder) == RestatedBars(r, StableSort.Sort(bars, BarOrder))
    decreases |bars|
  {
    if bars != [] {
      var front := bars[..|bars| - 1];
      RestatedBarsAt(r, front);
      assert RestatedBars(r, bars)[..|bars| - 1] == RestatedBars(r, front);
      SortRestated(r, front);
      InsertRestated(r, StableSort.Sort(front, BarOrder), bars[|bars| - 1]);
    }
  }

  /** The restated input yields the restated bars. */
  lemma {:induction false} BarsRestated(r: Restatement, raw: seq<Bar>, actions: seq<Action>)
    requires r.ratio > 0.0
    ensures Bars(RestatedBars(r, raw), WithSplit(r, actions)) == RestatedBars(r, Bars(raw, actions))
  {
    UsedRestated(r, raw, actions);
    SortRestated(r, Used(raw, actions));
  }

  // ---------------------------------------------------------------------------------------------
  // Factors, closes and distributions
  // ---------------------------------------------------------------------------------------------

  function WithFactor(f: real, a: Action, first: int, last: int, date: int): real {
    if IsApplied(a, first, last) && a.exDate <= date then Times(f, a.ratio) else f
  }

  lemma {:induction false} FactorAppend(s: seq<Action>, a: Action, first: int, last: int, date: int)
    ensures Factor(s + [a], first, last, date) == WithFactor(Factor(s, first, last, date), a, first, last, date)
  {
  }

  lemma {:induction false} WithFactorRestated(r: Restatement, f: real, a: Action, first: int, last: int, date: int)
    requires r.ratio > 0.0
    ensures WithFactor(f, RestatedAction(r, a), first, last, date) == WithFactor(f, a, first, last, date)
  {
  }

  lemma {:induction false} FactorOfRestated(r: Restatement, actions: seq<Action>, first: int, last: int, date: int)
    requires r.ratio > 0.0
    ensures Factor(RestatedActions(r, actions), first, last, date) == Factor(actions, first, last, date)
    decreases |actions|
  {
    if actions != [] {
      var front, a := actions[..|actions| - 1], actions[|actions| - 1];
      FactorOfRestated(r, front, first, last, date);
      FactorAppend(RestatedActions(r, front), RestatedAction(r, a), first, last, date);
      WithFactorRestated(r, Factor(front, first, last, date), a, first, last, date);
    }
  }

  lemma {:induction false} FactorWithSplit(r: Restatement, actions: seq<Action>, first: int, last: int, date: int)
    requires r.ratio > 0.0
    ensures var f := Factor(actions, first, last, date);
            Factor(WithSplit(r, actions), first, last, date)
            == if first < r.exDate <= last && r.exDate <= date then Times(f, r.ratio) else f
  {
    FactorOfRestated(r, actions, first, last, date);
    var xs := WithSplit(r, actions);
    assert xs[..|xs| - 1] == RestatedActions(r, actions);
  }

  lemma {:induction false} OverTimes(x: real, y: real, k: real)
    requires y > 0.0 && k > 0.0
    ensures Times(y, k) > 0.0
    ensures Over(Times(x, k), Times(y, k)) == Over(x, y)
    ensures Over(x, Times(y, k)) == Over(Over(x, y), k)
  {
  }

  lemma {:induction false} ScaleRestated(r: Restatement, actions: seq<Action>, bars: seq<Bar>, date: int)
    requires r.ratio > 0.0 && bars != [] && RatiosPositive(actions)
    requires bars[0].session <= date <= bars[|bars| - 1].session && r.exDate <= bars[|bars| - 1].session
    ensures RatiosPositive(WithSplit(r, actions)) && |RestatedBars(r, bars)| == |bars|
    ensures var s := Scale(actions, bars, date);
            Scale(WithSplit(r, actions), RestatedBars(r, bars), date) == if r.exDate <= date then s else PerShare(r, s)
  {
    var first, last := bars[0].session, bars[|bars| - 1].session;
    RatiosStayPositive(r, actions);
    RestatedBarsAt(r, bars);
    FactorWithSplit(r, actions, first, last, date);
    FactorWithSplit(r, actions, first, last, last);
    FactorPositive(actions, first, last, last);
    OverTimes(Factor(actions, first, last, date), Factor(actions, first, last, last), r.ratio);
  }

  lemma {:induction false} TimesOver(x: real, s: real, k: real)
    requires k > 0.0
    ensures Times(Over(x, k), s) == Over(Times(x, s), k) == Times(x, Over(s, k))
  {
  }

  /** Every adjusted close is restated by the ratio, before the split as after it. */
  lemma {:induction false} AdjCloseRestated(r: Restatement, actions: seq<Action>, bars: seq<Bar>, i: nat)
    requires r.ratio > 0.0 && i < |bars| && RatiosPositive(actions) && Ascending(bars)
    requires r.exDate <= bars[|bars| - 1].session
    ensures RatiosPositive(WithSplit(r, actions)) && |RestatedBars(r, bars)| == |bars|
    ensures AdjClose(WithSplit(r, actions), RestatedBars(r, bars), i) == PerShare(r, AdjClose(actions, bars, i))
  {
    var d := bars[i].session;
    assert i > 0 ==> bars[0].session < d;
    assert i < |bars| - 1 ==> d < bars[|bars| - 1].session;
    ScaleRestated(r, actions, bars, d);
    RestatedBarsAt(r, bars);
    TimesOver(bars[i].close, Scale(actions, bars, d), r.ratio);
  }

  lemma {:induction false} LandingRestated(r: Restatement, bars: seq<Bar>, date: int)
    requires r.ratio > 0.0
    ensures Landing(RestatedBars(r, bars), date) == Landing(bars, date)
    decreases |bars|
  {
    RestatedBarsAt(r, bars);
    if bars != [] {
      RestatedBarsAt(r, bars[1..]);
      assert RestatedBars(r, bars)[1..] == RestatedBars(r, bars[1..]);
      LandingRestated(r, bars[1..], date);
    }
  }

  lemma {:induction false} LandingIsLater(bars: seq<Bar>, date: int)
    ensures Landing(bars, date).Some? ==> date <= Landing(bars, date).value
  {
    if bars != [] {
      LandingIsLater(bars[1..], date);
    }
  }

  /** Goes ex before the split, but lands on a session on or after it. */
  predicate Straddles(r: Restatement, a: Action, bars: seq<Bar>, session: int) {
    LandsOn(a, bars, session) && ExDate(a) < r.exDate <= session
  }

  /** The amounts carried over the split's ex-date to a session. */
  function Straddling(r: Restatement, actions: seq<Action>, bars: seq<Bar>, session: int): real
    decreases |actions|
  {
    if actions == [] then 0.0
    else
      var front, a := Straddling(r, actions[..|actions| - 1], bars, session), actions[|actions| - 1];
      if Straddles(r, a, bars, session) then front + Distributed(a).value else front
  }

  lemma {:induction false} LandsOnRestated(r: Restatement, a: Action, bars: seq<Bar>, session: int)
    requires r.ratio > 0.0 && bars != []
    ensures LandsOn(RestatedAction(r, a), RestatedBars(r, bars), session) <==> LandsOn(a, bars, session)
    ensures LandsOn(a, bars, session) ==>
      Distributed(RestatedAction(r, a)).value
      == if ExDate(a) >= r.exDate then PerShare(r, Distributed(a).value) else Distributed(a).value
  {
    RestatedBarsAt(r, bars);
    LandingRestated(r, bars, ExDate(a));
    if a.Spinoff? && a.childFirstClose.Some? {
      TimesOver(a.childFirstClose.value, a.childRatio, r.ratio);
      assert Times(a.childRatio, PerShare(r, a.childFirstClose.value)) == Times(PerShare(r, a.childFirstClose.value), a.childRatio);
    }
  }

  lemma {:induction false} OverAdds(x: real, y: real, k: real)
    requires k > 0.0
    ensures Over(x + y, k) == Over(x, k) + Over(y, k)
    ensures Over(x - y, k) == Over(x, k) - Over(y, k)
  {
  }

  /** What one action distributes on a session. */
  function Amount(a: Action, bars: seq<Bar>, session: int): real {
    if LandsOn(a, bars, session) then Distributed(a).value else 0.0
  }

  /** And how much of it is carried over the split. */
  function AmountCarried(r: Restatement, a: Action, bars: seq<Bar>, session: int): real {
    if Straddles(r, a, bars, session) then Distributed(a).value else 0.0
  }

  lemma {:induction false} RawOneMore(s: seq<Action>, a: Action, bars: seq<Bar>, session: int)
    ensures RawDistribution(s + [a], bars, session) == RawDistribution(s, bars, session) + Amount(a, bars, session)
  {
    assert (s + [a])[..|s|] == s;
  }

  lemma {:induction false} StraddlingOneMore(r: Restatement, s: seq<Action>, a: Action, bars: seq<Bar>, session: int)
    ensures Straddling(r, s + [a], bars, session) == Straddling(r, s, bars, session) + AmountCarried(r, a, bars, session)
  {
    assert (s + [a])[..|s|] == s;
  }

  function RestatedAmount(r: Restatement, raw: real, kept: real, session: int): real
    requires r.ratio > 0.0
  {
    if r.exDate <= session then PerShare(r, raw - kept) + kept else raw
  }

  lemma {:induction false} AmountRestated(r: Restatement, a: Action, bars: seq<Bar>, session: int)
    requires r.ratio > 0.0 && bars != []
    ensures Amount(RestatedAction(r, a), RestatedBars(r, bars), session)
            == RestatedAmount(r, Amount(a, bars, session), AmountCarried(r, a, bars, session), session)
  {
    LandsOnRestated(r, a, bars, session);
    LandingIsLater(bars, ExDate(a));
    assert PerShare(r, 0.0) == 0.0;
  }

  lemma {:induction false} RestatedAmountsAdd(r: Restatement, raw: real, kept: real, x: real, y: real, session: int)
    requires r.ratio > 0.0
    ensures RestatedAmount(r, raw, kept, session) + RestatedAmount(r, x, y, session)
            == RestatedAmount(r, raw + x, kept + y, session)
  {
    OverAdds(raw - kept, x - y, r.ratio);
    assert raw + x - (kept + y) == raw - kept + (x - y);
  }

  /** Raw distributions restate, but for what is carried over the split unrestated. */
  lemma {:induction false} DistributionRestated(r: Restatement, actions: seq<Action>, bars: seq<Bar>, session: int)
    requires r.ratio > 0.0 && bars != []
    ensures RawDistribution(RestatedActions(r, actions), RestatedBars(r, bars), session)
            == RestatedAmount(r, RawDistribution(actions, bars, session), Straddling(r, actions, bars, session), session)
    decreases |actions|
  {
    if actions == [] {
      assert PerShare(r, 0.0) == 0.0;
    } else {
      var front, a := actions[..|actions| - 1], actions[|actions| - 1];
      assert actions == front + [a];
      DistributionRestated(r, front, bars, session);
      RawOneMore(front, a, bars, session);
      StraddlingOneMore(r, front, a, bars, session);
      RawOneMore(RestatedActions(r, front), RestatedAction(r, a), RestatedBars(r, bars), session);
      AmountRestated(r, a, bars, session);
      RestatedAmountsAdd(r, RawDistribution(front, bars, session), Straddling(r, front, bars, session),
                         Amount(a, bars, session), AmountCarried(r, a, bars, session), session);
    }
  }

  lemma {:induction false} SplitDistributesNothing(r: Restatement, actions: seq<Action>, bars: seq<Bar>, session: int)
    requires r.ratio > 0.0
    ensures RawDistribution(WithSplit(r, actions), bars, session) == RawDistribution(RestatedActions(r, actions), bars, session)
  {
  }

  /** What a straddled amount adds to a restated distribution. */
  function Excess(r: Restatement, actions: seq<Action>, bars: seq<Bar>, i: nat): real
    requires r.ratio > 0.0 && i < |bars| && RatiosPositive(actions)
  {
    var kept := Straddling(r, actions, bars, bars[i].session);
    Times(kept - PerShare(r, kept), Scale(actions, bars, bars[i].session))
  }

  lemma {:induction false} NothingStraddlesBefore(r: Restatement, actions: seq<Action>, bars: seq<Bar>, session: int)
    requires session < r.exDate || (bars != [] && session == bars[0].session)
    ensures Straddling(r, actions, bars, session) == 0.0
    decreases |actions|
  {
    if actions != [] {
      NothingStraddlesBefore(r, actions[..|actions| - 1], bars, session);
      LandingIsLater(bars, ExDate(actions[|actions| - 1]));
    }
  }

  lemma {:induction false} ScaledParts(raw: real, kept: real, s: real, k: real)
    requires k > 0.0
    ensures Times(Over(raw - kept, k) + kept, s) == Over(Times(raw, s), k) + Times(kept - Over(kept, k), s)
  {
  }

  lemma {:induction false} DistributionAtRestated(r: Restatement, actions: seq<Action>, bars: seq<Bar>, i: nat)
    requires r.ratio > 0.0 && i < |bars| && RatiosPositive(actions) && Ascending(bars)
    requires r.exDate <= bars[|bars| - 1].session
    ensures RatiosPositive(WithSplit(r, actions)) && |RestatedBars(r, bars)| == |bars|
    ensures DistributionAt(WithSplit(r, actions), RestatedBars(r, bars), i)
            == PerShare(r, DistributionAt(actions, bars, i)) + Excess(r, actions, bars, i)
  {
    var d := bars[i].session;
    var raw, kept, s := RawDistribution(actions, bars, d), Straddling(r, actions, bars, d), Scale(actions, bars, d);
    assert i > 0 ==> bars[0].session < d;
    assert i < |bars| - 1 ==> d < bars[|bars| - 1].session;
    ScaleRestated(r, actions, bars, d);
    RestatedBarsAt(r, bars);
    SplitDistributesNothing(r, actions, RestatedBars(r, bars), d);
    DistributionRestated(r, actions, bars, d);
    if d < r.exDate {
      NothingStraddlesBefore(r, actions, bars, d);
    }
    ScaledAmount(r, raw, kept, s, d);
  }

  lemma {:induction false} ScaledAmount(r: Restatement, raw: real, kept: real, s: real, d: int)
    requires r.ratio > 0.0 && (d < r.exDate ==> kept == 0.0)
    ensures Times(RestatedAmount(r, raw, kept, d), if r.exDate <= d then s else PerShare(r, s))
            == PerShare(r, Times(raw, s)) + Times(kept - PerShare(r, kept), s)
  {
    if r.exDate <= d {
      ScaledParts(raw, kept, s, r.ratio);
    } else {
      TimesOver(raw, s, r.ratio);
      assert PerShare(r, kept) == 0.0;
    }
  }

  // ---------------------------------------------------------------------------------------------
  // The index
  // ---------------------------------------------------------------------------------------------

  ghost predicate AmountsNonNegative(actions: seq<Action>) {
    forall a :: a in actions && Distributed(a).Some? ==> Distributed(a).value >= 0.0
  }

  lemma {:induction false} RawNonNegative(actions: seq<Action>, bars: seq<Bar>, session: int)
    requires AmountsNonNegative(actions)
    ensures RawDistribution(actions, bars, session) >= 0.0
    decreases |actions|
  {
    if actions != [] {
      var front, a := actions[..|actions| - 1], actions[|actions| - 1];
      assert a in actions && forall x :: x in front ==> x in actions;
      RawNonNegative(front, bars, session);
    }
  }

  lemma {:induction false} PositiveStep(t: real, c: real, d: real, p: real)
    requires t > 0.0 && c > 0.0 && d >= 0.0 && p > 0.0
    ensures Over(Times(t, c + d), p) > 0.0
  {
  }

  lemma {:induction false} TrPositive(actions: seq<Action>, bars: seq<Bar>, i: nat)
    requires i < |bars| && RatiosPositive(actions) && AmountsNonNegative(actions)
    requires forall j :: 0 <= j <= i ==> bars[j].close > 0.0
    ensures Tr(actions, bars, i) > 0.0
  {
    if i > 0 {
      TrPositive(actions, bars, i - 1);
      AdjCloseSign(actions, bars, i);
      AdjCloseSign(actions, bars, i - 1);
      DistributionSign(actions, bars, i);
      PositiveStep(Tr(actions, bars, i - 1), AdjClose(actions, bars, i), DistributionAt(actions, bars, i), AdjClose(actions, bars, i - 1));
    }
  }

  lemma {:induction false} DistributionSign(actions: seq<Action>, bars: seq<Bar>, i: nat)
    requires i < |bars| && RatiosPositive(actions) && AmountsNonNegative(actions)
    ensures DistributionAt(actions, bars, i) >= 0.0
  {
    RawNonNegative(actions, bars, bars[i].session);
    SignOfProduct(RawDistribution(actions, bars, bars[i].session), Scale(actions, bars, bars[i].session));
  }

  lemma {:induction false} ZeroProduct(x: real, y: real)
    requires y > 0.0
    ensures Times(x, y) == 0.0 <==> x == 0.0
  {
  }

  /** A step with everything restated, and an excess, is the same step exactly when the excess is nothing. */
  lemma {:induction false} StepRestated(t: real, c: real, d: real, p: real, e: real, k: real)
    requires t > 0.0 && p > 0.0 && k > 0.0
    ensures Over(p, k) > 0.0
    ensures Over(Times(t, Over(c, k) + (Over(d, k) + e)), Over(p, k)) == Over(Times(t, c + d), p) <==> e == 0.0
  {
  }

  lemma {:induction false} RestatedQuotient(t: real, a: real, b: real, k: real)
    requires b > 0.0 && k > 0.0
    ensures Times(b, k) > 0.0
    ensures Over(Times(t, Times(a, k)), Times(b, k)) == Over(Times(t, a), b)
  {
  }

  lemma {:induction false} ExcessIsNothingIff(r: Restatement, actions: seq<Action>, bars: seq<Bar>, i: nat)
    requires r.ratio > 0.0 && i < |bars| && RatiosPositive(actions)
    ensures Excess(r, actions, bars, i) == 0.0 <==> r.ratio == 1.0 || Straddling(r, actions, bars, bars[i].session) == 0.0
  {
    var kept := Straddling(r, actions, bars, bars[i].session);
    var q := PerShare(r, kept);
    assert kept == q * r.ratio;
    assert kept - q == q * (r.ratio - 1.0);
    ZeroProduct(kept - q, Scale(actions, bars, bars[i].session));
    if kept - q == 0.0 && r.ratio != 1.0 {
      if r.ratio > 1.0 {
        ZeroProduct(q, r.ratio - 1.0);
      } else {
        ZeroProduct(q, 1.0 - r.ratio);
        assert q * (1.0 - r.ratio) == -(q * (r.ratio - 1.0));
      }
    }
  }

  ghost predicate IsHistory(actions: seq<Action>, bars: seq<Bar>) {
    bars != [] && Ascending(bars) && RatiosPositive(actions) && Divisible(bars, |bars|) && AmountsNonNegative(actions)
  }

  /** A split within the bars. */
  ghost predicate IsRestatable(r: Restatement, bars: seq<Bar>) {
    r.ratio > 0.0 && bars != [] && r.exDate <= bars[|bars| - 1].session
  }

  lemma {:induction false} RestatedIsDivisible(r: Restatement, actions: seq<Action>, bars: seq<Bar>)
    requires IsHistory(actions, bars) && r.ratio > 0.0
    ensures |RestatedBars(r, bars)| == |bars| && RatiosPositive(WithSplit(r, actions))
    ensures Divisible(RestatedBars(r, bars), |bars|)
  {
    RestatedBarsAt(r, bars);
    RatiosStayPositive(r, actions);
  }

  ghost predicate SameTr(r: Restatement, actions: seq<Action>, bars: seq<Bar>, i: nat)
    requires IsHistory(actions, bars) && r.ratio > 0.0 && i < |bars|
  {
    RestatedIsDivisible(r, actions, bars);
    Tr(WithSplit(r, actions), RestatedBars(r, bars), i) == Tr(actions, bars, i)
  }

  lemma {:induction false} SameTrStep(r: Restatement, actions: seq<Action>, bars: seq<Bar>, i: nat)
    requires IsHistory(actions, bars) && IsRestatable(r, bars) && 0 < i < |bars|
    requires SameTr(r, actions, bars, i - 1)
    ensures SameTr(r, actions, bars, i) <==> Excess(r, actions, bars, i) == 0.0
  {
    RestatedIsDivisible(r, actions, bars);
    AdjCloseRestated(r, actions, bars, i);
    AdjCloseRestated(r, actions, bars, i - 1);
    DistributionAtRestated(r, actions, bars, i);
    TrPositive(actions, bars, i - 1);
    AdjCloseSign(actions, bars, i - 1);
    StepRestated(Tr(actions, bars, i - 1), AdjClose(actions, bars, i), DistributionAt(actions, bars, i),
                 AdjClose(actions, bars, i - 1), Excess(r, actions, bars, i), r.ratio);
  }

  ghost predicate NothingStraddles(r: Restatement, actions: seq<Action>, bars: seq<Bar>) {
    forall i :: 0 <= i < |bars| ==> Straddling(r, actions, bars, bars[i].session) == 0.0
  }

  lemma {:induction false} SameTrWithout(r: Restatement, actions: seq<Action>, bars: seq<Bar>, i: nat)
    requires IsHistory(actions, bars) && IsRestatable(r, bars) && i < |bars|
    requires r.ratio == 1.0 || NothingStraddles(r, actions, bars)
    ensures SameTr(r, actions, bars, i)
  {
    if i > 0 {
      SameTrWithout(r, actions, bars, i - 1);
      SameTrStep(r, actions, bars, i);
      ExcessIsNothingIff(r, actions, bars, i);
    }
  }

  /**
   * Restating a history for a split - closes, per-share distributions and the final price from the ex-date on divided
   * by the ratio, and the split added - leaves the index unchanged at every bar exactly when no distribution that went
   * ex before the split lands, for want of a bar, on or after it (or the ratio is one).
   */
  lemma {:induction false} RestatementInvariantIff(r: Restatement, actions: seq<Action>, bars: seq<Bar>)
    requires IsHistory(actions, bars) && IsRestatable(r, bars)
    ensures (forall i :: 0 <= i < |bars| ==> SameTr(r, actions, bars, i))
            <==> r.ratio == 1.0 || NothingStraddles(r, actions, bars)
  {
    if r.ratio == 1.0 || NothingStraddles(r, actions, bars) {
      forall i | 0 <= i < |bars| ensures SameTr(r, actions, bars, i) {
        SameTrWithout(r, actions, bars, i);
      }
    }
    if forall i :: 0 <= i < |bars| ==> SameTr(r, actions, bars, i) {
      forall i | 0 <= i < |bars| ensures r.ratio == 1.0 || Straddling(r, actions, bars, bars[i].session) == 0.0 {
        if i == 0 {
          NothingStraddlesBefore(r, actions, bars, bars[0].session);
        } else {
          assert SameTr(r, actions, bars, i - 1);
          SameTrStep(r, actions, bars, i);
          ExcessIsNothingIff(r, actions, bars, i);
        }
      }
    }
  }

  // ---------------------------------------------------------------------------------------------
  // Which distributions are carried over the split
  // ---------------------------------------------------------------------------------------------

  /** Nothing is paid that went ex before the split and lands on a session on or after it. */
  ghost predicate NothingCarried(r: Restatement, actions: seq<Action>, bars: seq<Bar>) {
    forall a, i :: a in actions && 0 <= i < |bars| && Straddles(r, a, bars, bars[i].session) ==> Distributed(a).value == 0.0
  }

  lemma {:induction false} StraddlingNothingIff(r: Restatement, actions: seq<Action>, bars: seq<Bar>, session: int)
    requires AmountsNonNegative(actions)
    ensures Straddling(r, actions, bars, session) >= 0.0
    ensures Straddling(r, actions, bars, session) == 0.0
            <==> forall a :: a in actions && Straddles(r, a, bars, session) ==> Distributed(a).value == 0.0
    decreases |actions|
  {
    if actions != [] {
      var front, a := actions[..|actions| - 1], actions[|actions| - 1];
      assert actions == front + [a] && a in actions;
      assert forall x :: x in actions <==> x in front || x == a;
      StraddlingNothingIff(r, front, bars, session);
    }
  }

  lemma {:induction false} NothingStraddlesIff(r: Restatement, actions: seq<Action>, bars: seq<Bar>)
    requires AmountsNonNegative(actions)
    ensures NothingStraddles(r, actions, bars) <==> NothingCarried(r, actions, bars)
  {
    forall i | 0 <= i < |bars|
      ensures Straddling(r, actions, bars, bars[i].session) == 0.0
              <==> forall a :: a in actions && Straddles(r, a, bars, bars[i].session) ==> Distributed(a).value == 0.0
    {
      StraddlingNothingIff(r, actions, bars, bars[i].session);
    }
  }

  // ---------------------------------------------------------------------------------------------
  // A split after the last bar
  // ---------------------------------------------------------------------------------------------

  lemma {:induction false} LateSplitKeepsBars(r: Restatement, bars: seq<Bar>)
    requires r.ratio > 0.0 && bars != [] && Ascending(bars) && bars[|bars| - 1].session < r.exDate
    ensures RestatedBars(r, bars) == bars
  {
    RestatedBarsAt(r, bars);
    forall i | 0 <= i < |bars| ensures RestatedBar(r, bars[i]) == bars[i] {
      assert i < |bars| - 1 ==> bars[i].session < bars[|bars| - 1].session;
    }
  }

  lemma {:induction false} LateSplitKeepsUnits(r: Restatement, actions: seq<Action>, bars: seq<Bar>, i: nat)
    requires IsHistory(actions, bars) && r.ratio > 0.0 && bars[|bars| - 1].session < r.exDate && i < |bars|
    ensures RatiosPositive(WithSplit(r, actions))
    ensures AdjClose(WithSplit(r, actions), bars, i) == AdjClose(actions, bars, i)
    ensures DistributionAt(WithSplit(r, actions), bars, i) == DistributionAt(actions, bars, i)
  {
    var first, last, d := bars[0].session, bars[|bars| - 1].session, bars[i].session;
    assert i < |bars| - 1 ==> d < last;
    RatiosStayPositive(r, actions);
    FactorWithSplit(r, actions, first, last, d);
    FactorWithSplit(r, actions, first, last, last);
    LateSplitKeepsBars(r, bars);
    DistributionRestated(r, actions, bars, d);
    SplitDistributesNothing(r, actions, bars, d);
  }

  lemma {:induction false} LateSplitKeepsTr(r: Restatement, actions: seq<Action>, bars: seq<Bar>, i: nat)
    requires IsHistory(actions, bars) && r.ratio > 0.0 && bars[|bars| - 1].session < r.exDate && i < |bars|
    ensures RatiosPositive(WithSplit(r, actions))
    ensures Tr(WithSplit(r, actions), bars, i) == Tr(actions, bars, i)
  {
    RatiosStayPositive(r, actions);
    if i > 0 {
      LateSplitKeepsTr(r, actions, bars, i - 1);
      LateSplitKeepsUnits(r, actions, bars, i);
      LateSplitKeepsUnits(r, actions, bars, i - 1);
    }
  }

  /**
   * A split after the last bar is not applied, so a final price restated for it is worth its ratio less: the final
   * price is read in the share units of the last bar.
   */
  lemma {:induction false} LateSplitLosesTheRatio(r: Restatement, actions: seq<Action>, bars: seq<Bar>)
    requires IsHistory(actions, bars) && r.ratio > 0.0 && bars[|bars| - 1].session < r.exDate
    requires FinalValue(actions).Some? && bars[|bars| - 1].close > 0.0
    ensures RestatedBars(r, bars) == bars && RatiosPositive(WithSplit(r, actions)) && FinalValue(WithSplit(r, actions)).Some?
    ensures FinalTr(WithSplit(r, actions), bars) == PerShare(r, FinalTr(actions, bars))
  {
    var n := |bars| - 1;
    LateSplitKeepsBars(r, bars);
    RatiosStayPositive(r, actions);
    FinalRestated(r, actions);
    LateSplitKeepsTr(r, actions, bars, n);
    LateSplitKeepsUnits(r, actions, bars, n);
    AdjCloseSign(actions, bars, n);
    PerShareQuotient(Tr(actions, bars, n), FinalValue(actions).value, AdjClose(actions, bars, n), r.ratio);
  }

  lemma {:induction false} ShareIsWholeIff(q: real, k: real)
    requires k > 0.0
    ensures Over(q, k) == q <==> k == 1.0 || q == 0.0
  {
    var a := Over(q, k);
    assert q == Times(a, k);
    ZeroProduct(a, k);
    if a == q && k != 1.0 {
      assert Times(q, k - 1.0) == 0.0 && Times(q, 1.0 - k) == 0.0;
      ZeroProduct(q, if k > 1.0 then k - 1.0 else 1.0 - k);
    }
  }

  lemma {:induction false} ZeroQuotientIff(t: real, v: real, p: real)
    requires t > 0.0 && p > 0.0
    ensures Over(Times(t, v), p) == 0.0 <==> v == 0.0
  {
    var q := Over(Times(t, v), p);
    assert t * v == q * p;
    ZeroProduct(v, t);
    assert Times(v, t) == t * v;
  }

  /** So the terminal point of a late split is unchanged exactly when the ending pays nothing, or the ratio is one. */
  lemma {:induction false} LateSplitKeepsTheEndIff(r: Restatement, actions: seq<Action>, bars: seq<Bar>)
    requires IsHistory(actions, bars) && r.ratio > 0.0 && bars[|bars| - 1].session < r.exDate
    requires FinalValue(actions).Some? && bars[|bars| - 1].close > 0.0
    ensures RestatedBars(r, bars) == bars && RatiosPositive(WithSplit(r, actions)) && FinalValue(WithSplit(r, actions)).Some?
    ensures FinalTr(WithSplit(r, actions), bars) == FinalTr(actions, bars)
            <==> r.ratio == 1.0 || FinalValue(actions).value == 0.0
  {
    var n := |bars| - 1;
    LateSplitLosesTheRatio(r, actions, bars);
    ShareIsWholeIff(FinalTr(actions, bars), r.ratio);
    TrPositive(actions, bars, n);
    AdjCloseSign(actions, bars, n);
    ZeroQuotientIff(Tr(actions, bars, n), FinalValue(actions).value, AdjClose(actions, bars, n));
  }

  lemma {:induction false} PerShareQuotient(t: real, v: real, p: real, k: real)
    requires p > 0.0 && k > 0.0
    ensures Over(Times(t, Over(v, k)), p) == Over(Over(Times(t, v), p), k)
  {
  }

  // ---------------------------------------------------------------------------------------------
  // The whole series
  // ---------------------------------------------------------------------------------------------

  lemma {:induction false} FinalTrRestated(r: Restatement, actions: seq<Action>, bars: seq<Bar>)
    requires IsHistory(actions, bars) && IsRestatable(r, bars) && SameTr(r, actions, bars, |bars| - 1)
    requires FinalValue(actions).Some? && bars[|bars| - 1].close > 0.0
    ensures |RestatedBars(r, bars)| == |bars| && RatiosPositive(WithSplit(r, actions))
    ensures RestatedBars(r, bars)[|bars| - 1].close > 0.0 && Divisible(RestatedBars(r, bars), |bars|)
    ensures FinalValue(WithSplit(r, actions)).Some?
    ensures FinalTr(WithSplit(r, actions), RestatedBars(r, bars)) == FinalTr(actions, bars)
  {
    var n := |bars| - 1;
    RestatedIsDivisible(r, actions, bars);
    RestatedBarsAt(r, bars);
    FinalRestated(r, actions);
    AdjCloseRestated(r, actions, bars, n);
    AdjCloseSign(actions, bars, n);
    var t, v, p := Tr(actions, bars, n), FinalValue(actions).value, AdjClose(actions, bars, n);
    var a, b := PerShare(r, v), PerShare(r, p);
    assert v == Times(a, r.ratio) && p == Times(b, r.ratio);
    RestatedQuotient(t, a, b, r.ratio);
  }

  lemma {:induction false} FinalSessionRestated(r: Restatement, actions: seq<Action>, last: int)
    requires r.ratio > 0.0
    ensures FinalSession(WithSplit(r, actions), last) == FinalSession(actions, last)
  {
    EndingRestated(r, actions);
    FirstsAreSuch(actions);
  }

  lemma {:induction false} DuplicatedRestated(r: Restatement, bars: seq<Bar>)
    requires r.ratio > 0.0
    ensures Duplicated(RestatedBars(r, bars)) <==> Duplicated(bars)
  {
    RestatedBarsAt(r, bars);
    var after := RestatedBars(r, bars);
    if i, j :| 0 <= i < j < |bars| && bars[i].session == bars[j].session {
      assert after[i].session == after[j].session;
    }
    if i, j :| 0 <= i < j < |after| && after[i].session == after[j].session {
      assert bars[i].session == bars[j].session;
    }
  }

  lemma {:induction false} CloseRestated(r: Restatement, b: Bar)
    requires r.ratio > 0.0
    ensures RestatedBar(r, b).close > 0.0 <==> b.close > 0.0
    ensures RestatedBar(r, b).close == 0.0 <==> b.close == 0.0
  {
    if b.session >= r.exDate {
      var c := PerShare(r, b.close);
      assert b.close == Times(c, r.ratio);
      SignOfProduct(c, r.ratio);
    }
  }

  /** Whatever can be built can be built restated, and the other way round. */
  lemma {:induction false} BuildsRestated(r: Restatement, actions: seq<Action>, bars: seq<Bar>)
    requires r.ratio > 0.0 && RatiosPositive(actions)
    ensures RatiosPositive(WithSplit(r, actions))
    ensures Builds(WithSplit(r, actions), RestatedBars(r, bars)) <==> Builds(actions, bars)
  {
    RatiosStayPositive(r, actions);
    RestatedBarsAt(r, bars);
    DuplicatedRestated(r, bars);
    FinalRestated(r, actions);
    forall i | 0 <= i < |bars|
      ensures RestatedBars(r, bars)[i].close > 0.0 <==> bars[i].close > 0.0
      ensures RestatedBars(r, bars)[i].close == 0.0 <==> bars[i].close == 0.0
    {
      CloseRestated(r, bars[i]);
    }
  }

  ghost predicate PointsAgree(points: seq<Point>, restated: seq<Point>, i: nat)
    requires i < |points| && i < |restated|
  {
    points[i].session == restated[i].session && points[i].trIndex == restated[i].trIndex
  }

  /** The restated series has the same sessions and the same index at every point, the terminal one included. */
  ghost predicate IsNeutral(r: Restatement, actions: seq<Action>, bars: seq<Bar>)
    requires r.ratio > 0.0 && RatiosPositive(actions) && Builds(actions, bars)
  {
    BuildsRestated(r, actions, bars);
    var before, after := Series(actions, bars), Series(WithSplit(r, actions), RestatedBars(r, bars));
    |before| == |after| && forall i :: 0 <= i < |before| ==> PointsAgree(before, after, i)
  }

  /** Bars and actions as the parsers give them: no negative close, no negative amount. */
  ghost predicate IsParsed(actions: seq<Action>, bars: seq<Bar>) {
    RatiosPositive(actions) && AmountsNonNegative(actions) && forall b :: b in bars ==> b.close >= 0.0
  }

  /** The split falls within the bars, or there is no ending to restate, or it pays nothing. */
  predicate EndIsCovered(r: Restatement, actions: seq<Action>, bars: seq<Bar>) {
    bars == [] || r.exDate <= bars[|bars| - 1].session || FinalValue(actions).None? || FinalValue(actions).value == 0.0
  }

  lemma {:induction false} BuiltIsHistory(actions: seq<Action>, bars: seq<Bar>)
    requires IsParsed(actions, bars) && Builds(actions, bars) && bars != [] && Ascending(bars)
    ensures IsHistory(actions, bars)
    ensures FinalValue(actions).Some? ==> bars[|bars| - 1].close > 0.0
  {
    assert bars[|bars| - 1] in bars;
  }

  lemma {:induction false} BarAgreesIff(r: Restatement, actions: seq<Action>, bars: seq<Bar>, i: nat)
    requires IsHistory(actions, bars) && r.ratio > 0.0 && Builds(actions, bars) && i < |bars|
    ensures RatiosPositive(WithSplit(r, actions)) && Builds(WithSplit(r, actions), RestatedBars(r, bars))
    ensures |RestatedBars(r, bars)| == |bars|
    ensures PointsAgree(Series(actions, bars), Series(WithSplit(r, actions), RestatedBars(r, bars)), i) <==> SameTr(r, actions, bars, i)
  {
    BuildsRestated(r, actions, bars);
    RestatedBarsAt(r, bars);
    BarPointAt(actions, bars, i);
    BarPointAt(WithSplit(r, actions), RestatedBars(r, bars), i);
  }

  lemma {:induction false} BarPointAt(actions: seq<Action>, bars: seq<Bar>, i: nat)
    requires RatiosPositive(actions) && Builds(actions, bars) && i < |bars|
    ensures Series(actions, bars)[i] == BarPoint(actions, bars, i)
  {
  }

  lemma {:induction false} EndPointAt(actions: seq<Action>, bars: seq<Bar>)
    requires RatiosPositive(actions) && Builds(actions, bars) && bars != [] && FinalValue(actions).Some?
    ensures Series(actions, bars)[|bars|].session == FinalSession(actions, bars[|bars| - 1].session)
    ensures Series(actions, bars)[|bars|].trIndex == FinalTr(actions, bars)
  {
  }

  lemma {:induction false} EndAgreesIff(r: Restatement, actions: seq<Action>, bars: seq<Bar>)
    requires IsHistory(actions, bars) && r.ratio > 0.0 && Builds(actions, bars)
    requires FinalValue(actions).Some? && bars[|bars| - 1].close > 0.0
    requires SameTr(r, actions, bars, |bars| - 1)
    ensures RatiosPositive(WithSplit(r, actions)) && Builds(WithSplit(r, actions), RestatedBars(r, bars))
    ensures |RestatedBars(r, bars)| == |bars| && FinalValue(WithSplit(r, actions)).Some?
    ensures PointsAgree(Series(actions, bars), Series(WithSplit(r, actions), RestatedBars(r, bars)), |bars|)
            <==> r.ratio == 1.0 || EndIsCovered(r, actions, bars)
  {
    var n := |bars| - 1;
    BuildsRestated(r, actions, bars);
    RestatedBarsAt(r, bars);
    FinalRestated(r, actions);
    FinalSessionRestated(r, actions, bars[n].session);
    EndPointAt(actions, bars);
    EndPointAt(WithSplit(r, actions), RestatedBars(r, bars));
    if r.exDate <= bars[n].session {
      FinalTrRestated(r, actions, bars);
    } else {
      LateSplitKeepsTheEndIff(r, actions, bars);
    }
  }

  lemma {:induction false} LateBarsAgree(r: Restatement, actions: seq<Action>, bars: seq<Bar>, i: nat)
    requires IsHistory(actions, bars) && r.ratio > 0.0 && bars[|bars| - 1].session < r.exDate && i < |bars|
    ensures SameTr(r, actions, bars, i) && NothingCarried(r, actions, bars)
  {
    LateSplitKeepsBars(r, bars);
    LateSplitKeepsTr(r, actions, bars, i);
    forall k | 0 <= k < |bars| ensures bars[k].session < r.exDate {
      assert k < |bars| - 1 ==> bars[k].session < bars[|bars| - 1].session;
    }
  }

  lemma {:induction false} BarsAgreeIff(r: Restatement, actions: seq<Action>, bars: seq<Bar>)
    requires IsHistory(actions, bars) && r.ratio > 0.0
    ensures (forall i :: 0 <= i < |bars| ==> SameTr(r, actions, bars, i)) <==> r.ratio == 1.0 || NothingCarried(r, actions, bars)
  {
    if r.exDate <= bars[|bars| - 1].session {
      RestatementInvariantIff(r, actions, bars);
      NothingStraddlesIff(r, actions, bars);
    } else {
      forall i | 0 <= i < |bars| ensures SameTr(r, actions, bars, i) && NothingCarried(r, actions, bars) {
        LateBarsAgree(r, actions, bars, i);
      }
      assert SameTr(r, actions, bars, 0);
    }
  }

  lemma {:induction false} NeutralPoints(r: Restatement, actions: seq<Action>, bars: seq<Bar>)
    requires IsHistory(actions, bars) && r.ratio > 0.0 && Builds(actions, bars)
    requires FinalValue(actions).Some? ==> bars[|bars| - 1].close > 0.0
    ensures IsNeutral(r, actions, bars) <==>
      (forall i :: 0 <= i < |bars| ==> SameTr(r, actions, bars, i)) && (r.ratio == 1.0 || EndIsCovered(r, actions, bars))
  {
    BuildsRestated(r, actions, bars);
    RestatedBarsAt(r, bars);
    FinalRestated(r, actions);
    var before, after := Series(actions, bars), Series(WithSplit(r, actions), RestatedBars(r, bars));
    forall i | 0 <= i < |bars| ensures PointsAgree(before, after, i) <==> SameTr(r, actions, bars, i) {
      BarAgreesIff(r, actions, bars, i);
    }
    if FinalValue(actions).Some? && forall i :: 0 <= i < |bars| ==> SameTr(r, actions, bars, i) {
      assert SameTr(r, actions, bars, |bars| - 1);
      EndAgreesIff(r, actions, bars);
      assert |before| == |bars| + 1;
    }
    if IsNeutral(r, actions, bars) {
      forall i | 0 <= i < |bars| ensures SameTr(r, actions, bars, i) {
        assert PointsAgree(before, after, i);
      }
      if FinalValue(actions).Some? {
        assert PointsAgree(before, after, |bars|);
      }
    }
  }

  /**
   * For any history and any split, before, within or after the bars: restating is neutral exactly when nothing is
   * carried over the split's ex-date and the split falls within the bars or there is no payment at the end to restate
   * (or the ratio is one).
   */
  lemma {:induction false} RestatementIsNeutralIff(r: Restatement, actions: seq<Action>, bars: seq<Bar>)
    requires r.ratio > 0.0 && IsParsed(actions, bars) && Builds(actions, bars) && Ascending(bars)
    ensures IsNeutral(r, actions, bars)
            <==> r.ratio == 1.0 || (NothingCarried(r, actions, bars) && EndIsCovered(r, actions, bars))
  {
    if bars != [] {
      BuiltIsHistory(actions, bars);
      NeutralPoints(r, actions, bars);
      BarsAgreeIff(r, actions, bars);
    }
  }

  lemma {:induction false} UsedAreRaw(raw: seq<Bar>, actions: seq<Action>)
    ensures forall b :: b in Used(raw, actions) ==> b in raw
    decreases |raw|
  {
    if raw != [] {
      UsedAreRaw(raw[..|raw| - 1], actions);
      assert raw == raw[..|raw| - 1] + [raw[|raw| - 1]];
    }
  }

  lemma {:induction false} BarsAreSound(raw: seq<Bar>, actions: seq<Action>)
    ensures forall b :: b in Bars(raw, actions) ==> b in raw
    ensures !Duplicated(Bars(raw, actions)) ==> Ascending(Bars(raw, actions))
  {
    var used := Used(raw, actions);
    var bars := Bars(raw, actions);
    UsedAreRaw(raw, actions);
    StableSort.SortContains(used, BarOrder);
    StableSort.SortSorted(used, BarOrder);
    forall i, j | 0 <= i < j < |bars| ensures bars[i].session <= bars[j].session {
      StableSort.SortedPairs(bars, i, j, BarOrder);
    }
  }

  /**
   * From the raw bars and actions on: whatever builds builds restated, and the two series have the same index at every
   * point under exactly that condition.
   */
  lemma {:induction false} RestatedBuildsAgreeIff(r: Restatement, raw: seq<Bar>, actions: seq<Action>)
    requires r.ratio > 0.0 && IsParsed(actions, raw) && Builds(actions, Bars(raw, actions))
    ensures RatiosPositive(WithSplit(r, actions))
    ensures Builds(WithSplit(r, actions), Bars(RestatedBars(r, raw), WithSplit(r, actions)))
    ensures var bars := Bars(raw, actions);
            var before, after := Series(actions, bars), Series(WithSplit(r, actions), Bars(RestatedBars(r, raw), WithSplit(r, actions)));
            (|before| == |after| && forall i :: 0 <= i < |before| ==> PointsAgree(before, after, i))
            <==> r.ratio == 1.0 || (NothingCarried(r, actions, bars) && EndIsCovered(r, actions, bars))
  {
    var bars := Bars(raw, actions);
    BarsAreSound(raw, actions);
    BarsRestated(r, raw, actions);
    BuildsRestated(r, actions, bars);
    RestatementIsNeutralIff(r, actions, bars);
  }

  // ---------------------------------------------------------------------------------------------
  // What the warnings say of it
  // ---------------------------------------------------------------------------------------------

  predicate IsMoved(w: Warning) {
    w.NotOnExDate?
  }

  lemma {:induction false} MovedIsWarned(actions: seq<Action>, bars: seq<Bar>, a: Action)
    requires a in actions && bars != [] && Distributed(a).Some? && ExDate(a) > bars[0].session
    requires Landing(bars, ExDate(a)).Some? && Landing(bars, ExDate(a)).value != ExDate(a)
    ensures NotOnExDate(a, Landing(bars, ExDate(a)).value) in DistributionWarnings(actions, bars)
    decreases |actions|
  {
    var front, last := actions[..|actions| - 1], actions[|actions| - 1];
    assert actions == front + [last];
    if a != last {
      MovedIsWarned(front, bars, a);
    }
  }

  /** A series that warns of no moved distribution carries nothing over any split. */
  lemma {:induction false} UnwarnedCarriesNothing(r: Restatement, actions: seq<Action>, bars: seq<Bar>)
    requires forall w :: w in Warnings(actions, bars) ==> !IsMoved(w)
    ensures NothingCarried(r, actions, bars)
  {
    forall a, i | a in actions && 0 <= i < |bars|
      ensures Straddles(r, a, bars, bars[i].session) ==> Distributed(a).value == 0.0
    {
      UnwarnedLands(actions, bars, a);
    }
  }

  lemma {:induction false} UnwarnedLands(actions: seq<Action>, bars: seq<Bar>, a: Action)
    requires a in actions && bars != [] && forall w :: w in Warnings(actions, bars) ==> !IsMoved(w)
    ensures Distributed(a).Some? && ExDate(a) > bars[0].session && Landing(bars, ExDate(a)).Some? ==>
      Landing(bars, ExDate(a)).value == ExDate(a)
  {
    if Distributed(a).Some? && ExDate(a) > bars[0].session && Landing(bars, ExDate(a)).Some? {
      var w := NotOnExDate(a, Landing(bars, ExDate(a)).value);
      if w.landed != ExDate(a) {
        MovedIsWarned(actions, bars, a);
      }
      assert IsMoved(w) && w !in Warnings(actions, bars);
    }
  }

  // ---------------------------------------------------------------------------------------------
  // Inputs for which restating is not neutral
  // ---------------------------------------------------------------------------------------------

  /** A dividend ex on a day without a bar, landing after a two-for-one split. */
  lemma {:induction false} CarriedDividendIsNotNeutral()
    ensures var r, actions, bars := Restatement(3, 2.0), [CashDividend(2, 10.0)], [Bar(1, 100.0, true), Bar(4, 60.0, true)];
            IsParsed(actions, bars) && Builds(actions, bars) && !IsNeutral(r, actions, bars)
  {
    var r, actions, bars := Restatement(3, 2.0), [CashDividend(2, 10.0)], [Bar(1, 100.0, true), Bar(4, 60.0, true)];
    assert bars[1..] == [Bar(4, 60.0, true)];
    assert Landing(bars, 2) == Landing(bars[1..], 2) == Some(4);
    assert actions[0] in actions && Straddles(r, actions[0], bars, bars[1].session);
    assert actions[1..] == [];
    RestatementIsNeutralIff(r, actions, bars);
  }

  /** A cash merger after the last bar, with a two-for-one split in between. */
  lemma {:induction false} LateSplitIsNotNeutral()
    ensures var r, actions, bars := Restatement(5, 2.0), [Merger(10, Some(50.0), false)], [Bar(1, 100.0, true), Bar(2, 100.0, true)];
            IsParsed(actions, bars) && Builds(actions, bars) && !IsNeutral(r, actions, bars)
  {
    var r, actions, bars := Restatement(5, 2.0), [Merger(10, Some(50.0), false)], [Bar(1, 100.0, true), Bar(2, 100.0, true)];
    assert actions[1..] == [];
    assert FinalValue(actions) == Some(50.0);
    RestatementIsNeutralIff(r, actions, bars);
  }

  // ---------------------------------------------------------------------------------------------
  // Telescoping
  // ---------------------------------------------------------------------------------------------

  lemma {:induction false} Telescopes(a: real, b: real, c: real)
    requires a > 0.0 && b > 0.0
    ensures Over(Times(Over(b, a), c), b) == Over(c, a)
  {
  }

  lemma {:induction false} OverItself(x: real)
    requires x > 0.0
    ensures Over(x, x) == 1.0
  {
  }

  /** Without distributions the index telescopes to the ratio of adjusted closes. */
  lemma {:induction false} IndexIsCloseRatio(actions: seq<Action>, bars: seq<Bar>, i: nat)
    requires i < |bars| && RatiosPositive(actions) && Divisible(bars, i + 1) && bars[0].close > 0.0
    requires forall j :: 0 <= j <= i ==> RawDistribution(actions, bars, bars[j].session) == 0.0
    ensures AdjClose(actions, bars, 0) > 0.0
    ensures Tr(actions, bars, i) == Over(AdjClose(actions, bars, i), AdjClose(actions, bars, 0))
  {
    AdjCloseSign(actions, bars, 0);
    if i > 0 {
      IndexIsCloseRatio(actions, bars, i - 1);
      AdjCloseSign(actions, bars, i - 1);
      assert DistributionAt(actions, bars, i) == 0.0;
      Telescopes(AdjClose(actions, bars, 0), AdjClose(actions, bars, i - 1), AdjClose(actions, bars, i));
    } else {
      OverItself(AdjClose(actions, bars, 0));
    }
  }
}
