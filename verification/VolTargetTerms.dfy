/**
 * The volatility-targeted index in the inputs' own terms: what the two halves of a rebalance session are worth, in any
 * share units, when a session can be split, which weight is in force, and which steps are inexact.
 */
module VolTargetTerms {
  import opened Wrappers
  import opened VolTarget
  import opened VolTargetLaws
  import StableSort

  // ---------------------------------------------------------------------------------------------
  // Points by session
  // ---------------------------------------------------------------------------------------------

  /** Point `i` is the series' point of the session. */
  predicate StandsAt(points: seq<Point>, i: nat, session: int) {
    i < |points| && points[i].session == session
  }

  lemma {:induction false} PositionIs(points: seq<Point>, session: int)
    ensures var i := PositionOf(points, session);
            if i.Some? then StandsAt(points, i.value, session) else forall k :: 0 <= k < |points| ==> points[k].session != session
    decreases |points|
  {
    if points != [] {
      PositionIs(points[..|points| - 1], session);
    }
  }

  /** In an ascending series the only one. */
  lemma {:induction false} PositionFound(points: seq<Point>, i: nat, session: int)
    requires Ascending(points) && StandsAt(points, i, session)
    ensures PositionOf(points, session) == Some(i)
  {
    PositionIs(points, session);
    OneEach(points, i, PositionOf(points, session).value);
  }

  lemma {:induction false} OneEach(points: seq<Point>, i: nat, k: nat)
    requires Ascending(points) && i < |points| && k < |points| && points[i].session == points[k].session
    ensures i == k
  {
  }

  /** Close to close a leg returns the ratio of its index levels at its two sessions. */
  lemma {:induction false} CloseToCloseIs(leg: Leg, i: nat, j: nat, cur: int, prev: int)
    requires Ascending(leg.points) && StandsAt(leg.points, i, cur) && StandsAt(leg.points, j, prev)
    requires leg.points[j].trIndex > 0.0
    ensures (1.0 + CloseToClose(leg, cur, prev)) * leg.points[j].trIndex == leg.points[i].trIndex
  {
    PositionFound(leg.points, i, cur);
    PositionFound(leg.points, j, prev);
    RatioBack(leg.points[i].trIndex, leg.points[j].trIndex);
  }

  /** It returns nothing where it lacks either session, or the earlier level is not above zero. */
  lemma {:induction false} NoReturn(leg: Leg, cur: int, prev: int)
    requires (forall i: nat :: !StandsAt(leg.points, i, cur)) || (forall j: nat :: StandsAt(leg.points, j, prev) ==> leg.points[j].trIndex <= 0.0)
    ensures CloseToClose(leg, cur, prev) == 0.0
  {
    PositionIs(leg.points, cur);
    PositionIs(leg.points, prev);
  }

  lemma {:induction false} RatioBack(x: real, y: real)
    requires y != 0.0
    ensures Ratio(x, y) * y == x
  {
  }

  // ---------------------------------------------------------------------------------------------
  // The halves of a session
  // ---------------------------------------------------------------------------------------------

  /** Everything the split of a session reads of a leg is above zero. */
  predicate IsUsable(before: Point, last: Point, now: Point, bar: Bar) {
    && before.trIndex > 0.0 && last.trIndex > 0.0 && last.adjClose > 0.0
    && now.adjClose > 0.0 && bar.open > 0.0 && bar.close > 0.0
  }

  lemma {:induction false} AdjustedOpenIs(bar: Bar, adjClose: real)
    requires bar.open > 0.0 && bar.close > 0.0 && adjClose > 0.0
    ensures AdjustedOpen(bar, adjClose) > 0.0 && AdjustedOpen(bar, adjClose) * bar.close == bar.open * adjClose
    ensures Ratio(adjClose, AdjustedOpen(bar, adjClose)) * bar.open == bar.close
  {
    var x := bar.open * adjClose;
    assert x > 0.0;
    var o := x / bar.close;
    assert o * bar.close == x;
    assert o > 0.0;
    var z := Ratio(adjClose, o);
    assert z * o == adjClose;
    assert (z * bar.open - bar.close) * adjClose == 0.0 by {
      assert z * (o * bar.close) == adjClose * bar.close;
    }
  }

  /** A leg's session can be split at its open exactly when it has the points and the bar, and they are usable. */
  lemma {:induction false} SplitsIff(leg: Leg, cur: int, prev: int)
    requires Ascending(leg.points)
    ensures LegSplit(leg, cur, prev).Some? <==>
      exists i: nat, j: nat :: StandsAt(leg.points, i, cur) && StandsAt(leg.points, j, prev) && i >= 1 && cur in leg.bars
        && IsUsable(leg.points[j], leg.points[i - 1], leg.points[i], leg.bars[cur])
  {
    PositionIs(leg.points, cur);
    PositionIs(leg.points, prev);
    if PositionOf(leg.points, cur).Some? && PositionOf(leg.points, prev).Some? && cur in leg.bars {
      var i, j := PositionOf(leg.points, cur).value, PositionOf(leg.points, prev).value;
      OnlyPosition(leg.points, cur);
      OnlyPosition(leg.points, prev);
      UsableSplits(leg, i, j, cur, prev);
    }
  }

  lemma {:induction false} OnlyPosition(points: seq<Point>, session: int)
    requires Ascending(points)
    ensures forall i: nat :: StandsAt(points, i, session) ==> PositionOf(points, session) == Some(i)
  {
    forall i: nat | StandsAt(points, i, session) ensures PositionOf(points, session) == Some(i) {
      PositionFound(points, i, session);
    }
  }

  lemma {:induction false} UsableSplits(leg: Leg, i: nat, j: nat, cur: int, prev: int)
    requires Ascending(leg.points) && StandsAt(leg.points, i, cur) && StandsAt(leg.points, j, prev) && cur in leg.bars
    ensures LegSplit(leg, cur, prev).Some? <==>
      i >= 1 && IsUsable(leg.points[j], leg.points[i - 1], leg.points[i], leg.bars[cur])
  {
    PositionFound(leg.points, i, cur);
    PositionFound(leg.points, j, prev);
    if i >= 1 && IsUsable(leg.points[j], leg.points[i - 1], leg.points[i], leg.bars[cur]) {
      AdjustedOpenIs(leg.bars[cur], leg.points[i].adjClose);
    }
  }

  lemma {:induction false} OvernightIs(t: real, p: real, o: real, d: real, l: real)
    requires p > 0.0 && l > 0.0
    ensures Times(Ratio(t, p), Ratio(o + d, l)) * l * p == t * (o + d)
  {
    var x, y := Ratio(t, p), Ratio(o + d, l);
    assert x * p == t && y * l == o + d;
    assert (x * y) * l * p == (x * p) * (y * l);
  }

  predicate IsIntraday(h: real, bar: Bar) {
    h * bar.open == bar.close
  }

  predicate IsOvernight(h: real, before: Point, last: Point, now: Point, bar: Bar) {
    h * last.adjClose * before.trIndex * bar.close == last.trIndex * (bar.open * now.adjClose + now.distribution * bar.close)
  }

  /** What the halves of a session split at its open come to. */
  predicate HalvesFit(h: Halves, leg: Leg, i: nat, j: nat, cur: int) {
    && 1 <= i < |leg.points| && j < |leg.points| && cur in leg.bars
    && IsUsable(leg.points[j], leg.points[i - 1], leg.points[i], leg.bars[cur])
    && IsIntraday(h.intraday, leg.bars[cur])
    && IsOvernight(h.overnight, leg.points[j], leg.points[i - 1], leg.points[i], leg.bars[cur])
  }

  lemma {:induction false} OvernightScaled(h: real, l: real, p: real, t: real, o: real, d: real, b: real)
    requires h * l * p == t * (o + d)
    ensures h * l * p * b == t * (o * b + d * b)
  {
    assert t * (o * b + d * b) == t * (o + d) * b;
  }

  /**
   * What the halves of a split session are worth, in raw prices: from the previous shared close to the open the carry of
   * the leg's index to its last point, the open in that point's units, and the session's distribution; from the open to
   * the close the raw price move alone.
   */
  lemma {:induction false} HalvesAre(leg: Leg, i: nat, j: nat, cur: int, prev: int)
    requires Ascending(leg.points) && StandsAt(leg.points, i, cur) && StandsAt(leg.points, j, prev)
    requires LegSplit(leg, cur, prev).Some?
    ensures HalvesFit(LegSplit(leg, cur, prev).value, leg, i, j, cur)
  {
    PositionFound(leg.points, i, cur);
    PositionFound(leg.points, j, prev);
    UsableSplits(leg, i, j, cur, prev);
    var bar, now, last, before := leg.bars[cur], leg.points[i], leg.points[i - 1], leg.points[j];
    var o := AdjustedOpen(bar, now.adjClose);
    AdjustedOpenIs(bar, now.adjClose);
    OvernightIs(last.trIndex, before.trIndex, o, now.distribution, last.adjClose);
    var h := LegSplit(leg, cur, prev).value;
    OvernightScaled(h.overnight, last.adjClose, before.trIndex, last.trIndex, o, now.distribution, bar.close);
  }

  lemma {:induction false} PlainOvernight(h: real, l: real, p: real, b: real, t: real, o: real, c: real)
    requires l > 0.0 && p > 0.0 && b > 0.0 && h * l * p * b == t * (o * c)
    ensures h == Ratio(o, b) * Ratio(c, l) * Ratio(t, p)
  {
    var x, y, z := Ratio(o, b), Ratio(c, l), Ratio(t, p);
    assert x * b == o && y * l == c && z * p == t;
    assert t * (o * c) == (z * p) * ((x * b) * (y * l));
    assert (z * p) * ((x * b) * (y * l)) == (x * y * z) * (l * p * b);
    assert h * l * p * b == h * (l * p * b);
    assert l * p > 0.0;
    assert l * p * b > 0.0;
    SameFactor(h, x * y * z, l * p * b);
  }

  lemma {:induction false} SameFactor(x: real, y: real, k: real)
    requires k > 0.0 && x * k == y * k
    ensures x == y
  {
    assert (x - y) * k == 0.0;
  }

  /** Without a distribution the overnight half is the raw move from close to open times the adjusted move from last close. */
  lemma {:induction false} OvernightWithoutIncome(leg: Leg, i: nat, j: nat, cur: int, prev: int)
    requires Ascending(leg.points) && StandsAt(leg.points, i, cur) && StandsAt(leg.points, j, prev)
    requires LegSplit(leg, cur, prev).Some? && leg.points[i].distribution == 0.0
    ensures cur in leg.bars && i >= 1 && IsUsable(leg.points[j], leg.points[i - 1], leg.points[i], leg.bars[cur])
    ensures var bar, now, last, before := leg.bars[cur], leg.points[i], leg.points[i - 1], leg.points[j];
            LegSplit(leg, cur, prev).value.overnight
            == Ratio(bar.open, bar.close) * Ratio(now.adjClose, last.adjClose) * Ratio(last.trIndex, before.trIndex)
  {
    HalvesAre(leg, i, j, cur, prev);
    var bar, now, last, before := leg.bars[cur], leg.points[i], leg.points[i - 1], leg.points[j];
    PlainOvernight(LegSplit(leg, cur, prev).value.overnight, last.adjClose, before.trIndex, bar.close,
                   last.trIndex, bar.open, now.adjClose);
  }

  // ---------------------------------------------------------------------------------------------
  // Restating a leg's prices
  // ---------------------------------------------------------------------------------------------

  /**
   * The same leg in other share units: each session's raw bar restated by a ratio of its own, every adjusted close and
   * distribution by one ratio. A later split restates the raw bars before it and every adjusted close.
   */
  ghost predicate IsRestated(a: Leg, b: Leg, units: int -> real, ratio: real) {
    && ratio > 0.0
    && |a.points| == |b.points|
    && (forall i :: 0 <= i < |a.points| ==>
          b.points[i] == Point(a.points[i].session, a.points[i].trIndex, a.points[i].adjClose * ratio, a.points[i].distribution * ratio))
    && (forall s :: s in a.bars <==> s in b.bars)
    && (forall s :: s in a.bars ==> units(s) > 0.0 && b.bars[s] == Bar(a.bars[s].open * units(s), a.bars[s].close * units(s)))
  }

  lemma {:induction false} RestatedAscending(a: Leg, b: Leg, units: int -> real, ratio: real)
    requires IsRestated(a, b, units, ratio) && Ascending(a.points)
    ensures Ascending(b.points)
  {
  }

  lemma {:induction false} Restates(x: real, y: real)
    requires y > 0.0
    ensures x > 0.0 <==> x * y > 0.0
  {
    if x <= 0.0 {
      assert (-x) * y >= 0.0;
    }
  }

  lemma {:induction false} RestatedUsable(before: Point, last: Point, now: Point, bar: Bar, before': Point, last': Point, now': Point,
                                          bar': Bar, units: real, ratio: real)
    requires units > 0.0 && ratio > 0.0
    requires before'.trIndex == before.trIndex && last'.trIndex == last.trIndex
    requires last'.adjClose == last.adjClose * ratio && now'.adjClose == now.adjClose * ratio
    requires bar' == Bar(bar.open * units, bar.close * units)
    ensures IsUsable(before, last, now, bar) <==> IsUsable(before', last', now', bar')
  {
    Restates(last.adjClose, ratio);
    Restates(now.adjClose, ratio);
    Restates(bar.open, units);
    Restates(bar.close, units);
  }

  lemma {:induction false} SameIntraday(h: real, k: real, bar: Bar, units: real)
    requires bar.open > 0.0 && units > 0.0 && IsIntraday(h, bar) && IsIntraday(k, Bar(bar.open * units, bar.close * units))
    ensures h == k
  {
    assert bar.open * units > 0.0;
    assert h * (bar.open * units) == (h * bar.open) * units;
    SameFactor(h, k, bar.open * units);
  }

  lemma {:induction false} SameOvernight(h: real, k: real, l: real, p: real, b: real, t: real, o: real, c: real, d: real, units: real, ratio: real)
    requires l > 0.0 && p > 0.0 && b > 0.0 && units > 0.0 && ratio > 0.0
    requires h * l * p * b == t * (o * c + d * b)
    requires k * (l * ratio) * p * (b * units) == t * ((o * units) * (c * ratio) + (d * ratio) * (b * units))
    ensures h == k
  {
    var w, v := l * p * b, units * ratio;
    assert l * p > 0.0;
    assert w > 0.0 && v > 0.0;
    assert k * (l * ratio) * p * (b * units) == (k * w) * v;
    ScaledIncome(t, o, c, d, b, units, ratio);
    assert h * l * p * b == h * w;
    SameFactor(k * w, h * w, v);
    SameFactor(k, h, w);
  }

  lemma {:induction false} ScaledIncome(t: real, o: real, c: real, d: real, b: real, units: real, ratio: real)
    ensures t * ((o * units) * (c * ratio) + (d * ratio) * (b * units)) == (t * (o * c + d * b)) * (units * ratio)
  {
    var v := units * ratio;
    assert (o * units) * (c * ratio) == (o * c) * v;
    assert (d * ratio) * (b * units) == (d * b) * v;
    assert t * ((o * c) * v + (d * b) * v) == (t * (o * c + d * b)) * v;
  }

  lemma {:induction false} RestatedSplits(a: Leg, b: Leg, units: int -> real, ratio: real, i: nat, j: nat, cur: int, prev: int)
    requires Ascending(a.points) && IsRestated(a, b, units, ratio)
    requires StandsAt(a.points, i, cur) && StandsAt(a.points, j, prev) && cur in a.bars
    ensures Ascending(b.points) && StandsAt(b.points, i, cur) && StandsAt(b.points, j, prev) && cur in b.bars
    ensures LegSplit(a, cur, prev).Some? <==> LegSplit(b, cur, prev).Some?
  {
    RestatedAscending(a, b, units, ratio);
    UsableSplits(a, i, j, cur, prev);
    UsableSplits(b, i, j, cur, prev);
    if i >= 1 {
      RestatedUsable(a.points[j], a.points[i - 1], a.points[i], a.bars[cur],
                     b.points[j], b.points[i - 1], b.points[i], b.bars[cur], units(cur), ratio);
    }
  }

  /** Restating a leg's raw bars and adjusted closes for a split leaves both halves of every session as they were. */
  lemma {:induction false} RestatingKeepsTheHalves(a: Leg, b: Leg, units: int -> real, ratio: real, cur: int, prev: int)
    requires Ascending(a.points) && IsRestated(a, b, units, ratio)
    ensures LegSplit(b, cur, prev) == LegSplit(a, cur, prev)
  {
    RestatedAscending(a, b, units, ratio);
    PositionIs(a.points, cur);
    PositionIs(a.points, prev);
    PositionIs(b.points, cur);
    PositionIs(b.points, prev);
    if PositionOf(a.points, cur).Some? && PositionOf(a.points, prev).Some? && cur in a.bars {
      var i, j := PositionOf(a.points, cur).value, PositionOf(a.points, prev).value;
      RestatedSplits(a, b, units, ratio, i, j, cur, prev);
      if LegSplit(a, cur, prev).Some? {
        HalvesAre(a, i, j, cur, prev);
        HalvesAre(b, i, j, cur, prev);
        SameHalves(a, b, units, ratio, i, j, cur, LegSplit(a, cur, prev).value, LegSplit(b, cur, prev).value);
      }
    } else {
      assert LegSplit(a, cur, prev).None?;
      assert PositionOf(a.points, cur).Some? <==> PositionOf(b.points, cur).Some?;
      assert PositionOf(a.points, prev).Some? <==> PositionOf(b.points, prev).Some?;
    }
  }

  lemma {:induction false} SameOvernightOf(h: real, k: real, before: Point, last: Point, now: Point, bar: Bar,
                                           last': Point, now': Point, bar': Bar, units: real, ratio: real)
    requires units > 0.0 && ratio > 0.0 && IsUsable(before, last, now, bar)
    requires last'.trIndex == last.trIndex && last'.adjClose == last.adjClose * ratio
    requires now'.adjClose == now.adjClose * ratio && now'.distribution == now.distribution * ratio
    requires bar' == Bar(bar.open * units, bar.close * units)
    requires IsOvernight(h, before, last, now, bar) && IsOvernight(k, before, last', now', bar')
    ensures h == k
  {
    SameOvernight(h, k, last.adjClose, before.trIndex, bar.close, last.trIndex, bar.open, now.adjClose, now.distribution,
                  units, ratio);
  }

  lemma {:induction false} OvernightReadsTheLevel(h: real, before: Point, before': Point, last: Point, now: Point, bar: Bar)
    requires before'.trIndex == before.trIndex && IsOvernight(h, before, last, now, bar)
    ensures IsOvernight(h, before', last, now, bar)
  {
  }

  lemma {:induction false} SameHalves(a: Leg, b: Leg, units: int -> real, ratio: real, i: nat, j: nat, cur: int, h: Halves, k: Halves)
    requires IsRestated(a, b, units, ratio) && HalvesFit(h, a, i, j, cur) && HalvesFit(k, b, i, j, cur)
    ensures h == k
  {
    SameIntraday(h.intraday, k.intraday, a.bars[cur], units(cur));
    SameOvernights(a, b, units, ratio, i, j, cur, h.overnight, k.overnight);
  }

  lemma {:induction false} SameOvernights(a: Leg, b: Leg, units: int -> real, ratio: real, i: nat, j: nat, cur: int, h: real, k: real)
    requires IsRestated(a, b, units, ratio) && 1 <= i < |a.points| && j < |a.points| && cur in a.bars
    requires IsUsable(a.points[j], a.points[i - 1], a.points[i], a.bars[cur])
    requires IsOvernight(h, a.points[j], a.points[i - 1], a.points[i], a.bars[cur])
    requires IsOvernight(k, b.points[j], b.points[i - 1], b.points[i], b.bars[cur])
    ensures h == k
  {
    OvernightReadsTheLevel(k, b.points[j], a.points[j], b.points[i - 1], b.points[i], b.bars[cur]);
    SameOvernightOf(h, k, a.points[j], a.points[i - 1], a.points[i], a.bars[cur], b.points[i - 1], b.points[i], b.bars[cur],
                    units(cur), ratio);
  }

  lemma {:induction false} RestatingKeepsReturns(a: Leg, b: Leg, units: int -> real, ratio: real, cur: int, prev: int)
    requires Ascending(a.points) && IsRestated(a, b, units, ratio)
    ensures CloseToClose(b, cur, prev) == CloseToClose(a, cur, prev)
  {
    RestatedAscending(a, b, units, ratio);
    PositionIs(a.points, cur);
    PositionIs(a.points, prev);
    PositionIs(b.points, cur);
    PositionIs(b.points, prev);
    OnlyPosition(b.points, cur);
    OnlyPosition(b.points, prev);
    if PositionOf(a.points, cur).Some? {
      assert StandsAt(b.points, PositionOf(a.points, cur).value, cur);
    }
    if PositionOf(a.points, prev).Some? {
      assert StandsAt(b.points, PositionOf(a.points, prev).value, prev);
    }
  }

  /** The same specification with both legs restated, each in units of its own. */
  ghost predicate SpecIsRestated(a: Spec, b: Spec, ue: int -> real, re: real, uc: int -> real, rc: real) {
    && IsRestated(a.equity, b.equity, ue, re) && IsRestated(a.cash, b.cash, uc, rc)
    && b.activations == a.activations && b.expected == a.expected
  }

  lemma {:induction false} RestatingKeepsTheStep(a: Spec, b: Spec, ue: int -> real, re: real, uc: int -> real, rc: real,
                                                 acts: seq<Activation>, cur: int, prev: int)
    requires Ascending(a.equity.points) && Ascending(a.cash.points) && SpecIsRestated(a, b, ue, re, uc, rc)
    ensures Step(a, acts, cur, prev) == Step(b, acts, cur, prev)
  {
    RestatingKeepsReturns(a.equity, b.equity, ue, re, cur, prev);
    RestatingKeepsReturns(a.cash, b.cash, uc, rc, cur, prev);
    RestatingKeepsTheHalves(a.equity, b.equity, ue, re, cur, prev);
    RestatingKeepsTheHalves(a.cash, b.cash, uc, rc, cur, prev);
    assert SplitAtOpen(a, cur, prev) == SplitAtOpen(b, cur, prev);
    assert forall w :: PlainStep(a, w, cur, prev) == PlainStep(b, w, cur, prev);
  }

  /** So the whole index is the same, whatever share units the two legs are quoted in. */
  lemma {:induction false} RestatingKeepsTheIndex(a: Spec, b: Spec, ue: int -> real, re: real, uc: int -> real, rc: real,
                                                  sessions: seq<int>, n: nat)
    requires Ascending(a.equity.points) && Ascending(a.cash.points) && SpecIsRestated(a, b, ue, re, uc, rc)
    requires n < |sessions|
    ensures Acts(a) == Acts(b) && Index(a, Acts(a), sessions, n) == Index(b, Acts(b), sessions, n)
    decreases n
  {
    if n > 0 {
      RestatingKeepsTheIndex(a, b, ue, re, uc, rc, sessions, n - 1);
      RestatingKeepsTheStep(a, b, ue, re, uc, rc, Acts(a), sessions[n], sessions[n - 1]);
    }
  }

  lemma {:induction false} RestatedSessions(a: Leg, b: Leg, units: int -> real, ratio: real)
    requires IsRestated(a, b, units, ratio)
    ensures SessionSet(a.points) == SessionSet(b.points)
  {
    forall u ensures u in SessionSet(a.points) <==> u in SessionSet(b.points) {
      ObservedIff(a.points, u);
      ObservedIff(b.points, u);
      assert forall i: nat :: StandsAt(a.points, i, u) <==> StandsAt(b.points, i, u);
    }
  }

  lemma {:induction false} RestatedShared(a: seq<Point>, b: seq<Point>, c: seq<Point>, d: seq<Point>)
    requires |a| == |b| && (forall i :: 0 <= i < |a| ==> a[i].session == b[i].session) && SessionSet(c) == SessionSet(d)
    ensures CommonSessions(a, c) == CommonSessions(b, d)
    decreases |a|
  {
    if a != [] {
      RestatedShared(a[..|a| - 1], b[..|b| - 1], c, d);
    }
  }

  /** And it is over the same sessions, and exact alike. */
  lemma {:induction false} RestatingKeepsExactness(a: Spec, b: Spec, ue: int -> real, re: real, uc: int -> real, rc: real)
    requires Ascending(a.equity.points) && Ascending(a.cash.points) && SpecIsRestated(a, b, ue, re, uc, rc)
    ensures Shared(a) == Shared(b)
    ensures Shared(a) != [] ==> (IsExact(a, Acts(a), Shared(a)) <==> IsExact(b, Acts(b), Shared(b)))
  {
    RestatedSessions(a.equity, b.equity, ue, re);
    RestatedSessions(a.cash, b.cash, uc, rc);
    RestatedShared(a.equity.points, b.equity.points, a.cash.points, b.cash.points);
    assert Union(a) == Union(b);
    var sessions := Shared(a);
    forall i | 1 <= i < |sessions| ensures ExactAt(a, Acts(a), sessions, i) <==> ExactAt(b, Acts(b), sessions, i) {
      RestatingKeepsTheHalves(a.equity, b.equity, ue, re, sessions[i], sessions[i - 1]);
      RestatingKeepsTheHalves(a.cash, b.cash, uc, rc, sessions[i], sessions[i - 1]);
    }
  }

  // ---------------------------------------------------------------------------------------------
  // The weight in force, and inexact steps
  // ---------------------------------------------------------------------------------------------

  /** By session; an open before the close of the same session. */
  predicate Precedes(a: Instant, b: Instant) {
    a.session < b.session || (a.session == b.session && a.AtOpen? && b.AtClose?)
  }

  lemma {:induction false} KeysPrecede(a: Instant, b: Instant)
    ensures InstantKey(a) < InstantKey(b) <==> Precedes(a, b)
  {
  }

  /** Weight `w` is in force just after an instant: the last activation not after it, or none and zero. */
  ghost predicate IsWeightAt(acts: seq<Activation>, at: Instant, w: real) {
    if exists j :: 0 <= j < |acts| && !Precedes(at, acts[j].acquiredAt) then
      exists j: nat :: IsLastBy(acts, at, j) && w == acts[j].weight
    else w == 0.0
  }

  ghost predicate IsLastBy(acts: seq<Activation>, at: Instant, j: nat) {
    && j < |acts| && !Precedes(at, acts[j].acquiredAt)
    && forall k :: j < k < |acts| ==> Precedes(at, acts[k].acquiredAt)
  }

  lemma {:induction false} LastByGoesOn(acts: seq<Activation>, at: Instant, j: nat)
    requires acts != [] && Precedes(at, acts[|acts| - 1].acquiredAt) && IsLastBy(acts[..|acts| - 1], at, j)
    ensures IsLastBy(acts, at, j)
  {
    forall k | j < k < |acts| ensures Precedes(at, acts[k].acquiredAt) {
      assert k < |acts| - 1 ==> acts[..|acts| - 1][k] == acts[k];
    }
  }

  lemma {:induction false} WeightInForce(acts: seq<Activation>, at: Instant)
    ensures IsWeightAt(acts, at, InForce(acts, InstantKey(at)))
    decreases |acts|
  {
    if acts != [] {
      var front, last := acts[..|acts| - 1], acts[|acts| - 1];
      KeysPrecede(at, last.acquiredAt);
      if ActivationKey(last) <= InstantKey(at) {
        assert IsLastBy(acts, at, |acts| - 1);
      } else {
        WeightInForce(front, at);
        if j :| 0 <= j < |acts| && !Precedes(at, acts[j].acquiredAt) {
          assert front[j] == acts[j];
          var i: nat :| IsLastBy(front, at, i) && InForce(acts, InstantKey(at)) == front[i].weight;
          LastByGoesOn(acts, at, i);
        } else {
          assert forall j :: 0 <= j < |front| ==> front[j] == acts[j];
        }
      }
    }
  }

  /** The activations are worked in the order of their instants, and in the order listed at one instant. */
  lemma {:induction false} ActsInOrder(spec: Spec, i: nat, j: nat)
    requires i <= j < |Acts(spec)|
    ensures !Precedes(Acts(spec)[j].acquiredAt, Acts(spec)[i].acquiredAt)
    ensures multiset(Acts(spec)) == multiset(spec.activations)
  {
    StableSort.SortSorted(spec.activations, ActivationOrder);
    StableSort.SortMultiset(spec.activations, ActivationOrder);
    StableSort.SortedPairs(Acts(spec), i, j, ActivationOrder);
    KeysPrecede(Acts(spec)[j].acquiredAt, Acts(spec)[i].acquiredAt);
  }

  /** Some session stands strictly between: expected by the calendar, or observed in a leg. */
  ghost predicate SessionBetween(spec: Spec, prev: int, cur: int) {
    || (exists u :: u in spec.expected && prev < u < cur)
    || (exists i: nat, u :: StandsAt(spec.equity.points, i, u) && prev < u < cur)
    || (exists i: nat, u :: StandsAt(spec.cash.points, i, u) && prev < u < cur)
  }

  lemma {:induction false} ObservedIff(points: seq<Point>, u: int)
    ensures u in SessionSet(points) <==> exists i: nat :: StandsAt(points, i, u)
  {
    if u in SessionSet(points) {
      var p :| p in points && p.session == u;
      var i :| 0 <= i < |points| && points[i] == p;
      assert StandsAt(points, i, u);
    }
  }

  lemma {:induction false} SkipsIff(spec: Spec, cur: int, prev: int)
    ensures Skips(spec, cur, prev) <==> SessionBetween(spec, prev, cur)
  {
    if u :| u in Union(spec) && prev < u < cur {
      ObservedIff(spec.equity.points, u);
      ObservedIff(spec.cash.points, u);
    }
    if SessionBetween(spec, prev, cur) {
      var u := Between(spec, prev, cur);
      ObservedIff(spec.equity.points, u);
      ObservedIff(spec.cash.points, u);
    }
  }

  lemma {:induction false} Between(spec: Spec, prev: int, cur: int) returns (u: int)
    requires SessionBetween(spec, prev, cur)
    ensures prev < u < cur
    ensures u in spec.expected || (exists i: nat :: StandsAt(spec.equity.points, i, u)) || (exists i: nat :: StandsAt(spec.cash.points, i, u))
  {
    if x :| x in spec.expected && prev < x < cur {
      u := x;
    } else if i: nat, x :| StandsAt(spec.equity.points, i, x) && prev < x < cur {
      u := x;
    } else {
      var i: nat, x :| StandsAt(spec.cash.points, i, x) && prev < x < cur;
      u := x;
    }
  }

  /**
   * A step is inexact exactly when a fractional weight is carried over a session strictly between its two shared closes,
   * or its weight changes at an open at which one of the legs cannot be split.
   */
  lemma {:induction false} InexactIff(spec: Spec, acts: seq<Activation>, cur: int, prev: int, held: real, acquired: real)
    requires held == InForce(acts, InstantKey(AtClose(prev))) && acquired == InForce(acts, InstantKey(AtOpen(cur)))
    ensures StepIsExact(spec, acts, cur, prev) <==>
      && !(SessionBetween(spec, prev, cur) && held != 0.0 && held != 1.0)
      && !(held != acquired && (LegSplit(spec.equity, cur, prev).None? || LegSplit(spec.cash, cur, prev).None?))
  {
    SkipsIff(spec, cur, prev);
  }

  /** A step that is not rebalanced at its open, or cannot be, compounds the two legs' returns at the weight held into it. */
  lemma {:induction false} UnsplitStep(spec: Spec, acts: seq<Activation>, cur: int, prev: int)
    requires var held, acquired := InForce(acts, InstantKey(AtClose(prev))), InForce(acts, InstantKey(AtOpen(cur)));
             held == acquired || LegSplit(spec.equity, cur, prev).None? || LegSplit(spec.cash, cur, prev).None?
    ensures var held := InForce(acts, InstantKey(AtClose(prev)));
            Step(spec, acts, cur, prev)
            == held * (1.0 + CloseToClose(spec.equity, cur, prev)) + (1.0 - held) * (1.0 + CloseToClose(spec.cash, cur, prev))
  {
  }

  // ---------------------------------------------------------------------------------------------
  // When every activation is placed
  // ---------------------------------------------------------------------------------------------

  /** No two activations at one instant. */
  ghost predicate StrictlyInOrder(acts: seq<Activation>) {
    forall i, j :: 0 <= i < j < |acts| ==> ActivationKey(acts[i]) < ActivationKey(acts[j])
  }

  /** The weight stays what it was at the shared close through the instants up to, but not at, the next shared open. */
  ghost predicate Steady(acts: seq<Activation>, from: int, until: int) {
    forall key :: from <= key < until ==> InForce(acts, key) == InForce(acts, from)
  }

  ghost predicate SteadyAfter(acts: seq<Activation>, from: int) {
    forall key :: from <= key ==> InForce(acts, key) == InForce(acts, from)
  }

  lemma {:induction false} StepsOver(acts: seq<Activation>, j: nat)
    requires StrictlyInOrder(acts) && j < |acts|
    ensures InForce(acts, ActivationKey(acts[j])) == acts[j].weight
    ensures InForce(acts, ActivationKey(acts[j]) - 1) == Before(acts, j)
  {
    assert Cut(acts, j + 1, ActivationKey(acts[j]));
    assert Cut(acts, j, ActivationKey(acts[j]) - 1);
    CutInForce(acts, j + 1, ActivationKey(acts[j]));
    CutInForce(acts, j, ActivationKey(acts[j]) - 1);
  }

  lemma {:induction false} IntervalOf(sessions: seq<int>, n: nat, key: int) returns (i: nat)
    requires Increasing(sessions) && 0 < n <= |sessions| && CloseKey(sessions[0]) < key <= CloseKey(sessions[n - 1])
    ensures 1 <= i < n && CloseKey(sessions[i - 1]) < key <= CloseKey(sessions[i])
    decreases n
  {
    if key <= CloseKey(sessions[n - 2]) {
      i := IntervalOf(sessions, n - 1, key);
    } else {
      i := n - 1;
    }
  }

  lemma {:induction false} PlacedWhenSteady(acts: seq<Activation>, sessions: seq<int>, j: nat)
    requires StrictlyInOrder(acts) && Increasing(sessions) && sessions != [] && j < |acts|
    requires forall i :: 1 <= i < |sessions| ==> Steady(acts, CloseKey(sessions[i - 1]), OpenKey(sessions[i]))
    requires SteadyAfter(acts, CloseKey(sessions[|sessions| - 1]))
    ensures IsPlaced(acts, sessions, j)
  {
    var key := ActivationKey(acts[j]);
    StepsOver(acts, j);
    if CloseKey(sessions[0]) < key <= CloseKey(sessions[|sessions| - 1]) {
      var i := IntervalOf(sessions, |sessions|, key);
      PlacedInInterval(acts, sessions, i, j);
      if key < OpenKey(sessions[i]) {
        assert Steady(acts, CloseKey(sessions[i - 1]), OpenKey(sessions[i]));
      }
    }
  }

  /**
   * With one activation at an instant at most, every activation is placed exactly when the weight changes at no instant
   * but the shared opens and closes, and at none after the last.
   */
  lemma {:induction false} PlacedIff(acts: seq<Activation>, sessions: seq<int>)
    requires StrictlyInOrder(acts) && Increasing(sessions) && sessions != []
    ensures PlacedTo(acts, sessions, |acts|) <==>
      && (forall i :: 1 <= i < |sessions| ==> Steady(acts, CloseKey(sessions[i - 1]), OpenKey(sessions[i])))
      && SteadyAfter(acts, CloseKey(sessions[|sessions| - 1]))
  {
    if PlacedTo(acts, sessions, |acts|) {
      forall i | 1 <= i < |sessions| ensures Steady(acts, CloseKey(sessions[i - 1]), OpenKey(sessions[i])) {
        forall key | CloseKey(sessions[i - 1]) <= key < OpenKey(sessions[i])
          ensures InForce(acts, key) == InForce(acts, CloseKey(sessions[i - 1]))
        {
          NothingChangesInside(acts, sessions, i, key);
        }
      }
      forall key | CloseKey(sessions[|sessions| - 1]) <= key
        ensures InForce(acts, key) == InForce(acts, CloseKey(sessions[|sessions| - 1]))
      {
        NothingChangesAfter(acts, sessions, key);
      }
    } else if (forall i :: 1 <= i < |sessions| ==> Steady(acts, CloseKey(sessions[i - 1]), OpenKey(sessions[i])))
              && SteadyAfter(acts, CloseKey(sessions[|sessions| - 1])) {
      forall j | 0 <= j < |acts| ensures IsPlaced(acts, sessions, j) {
        PlacedWhenSteady(acts, sessions, j);
      }
    }
  }

  lemma {:induction false} NothingChangesAfter(acts: seq<Activation>, sessions: seq<int>, key: int)
    requires InOrder(acts) && Increasing(sessions) && sessions != [] && PlacedTo(acts, sessions, |acts|)
    requires CloseKey(sessions[|sessions| - 1]) <= key
    ensures InForce(acts, key) == InForce(acts, CloseKey(sessions[|sessions| - 1]))
  {
    var close := CloseKey(sessions[|sessions| - 1]);
    var m := CutExists(acts, close);
    var n := CutExists(acts, key);
    CutInForce(acts, m, close);
    CutInForce(acts, n, key);
    CutsAreOrdered(acts, m, n, close, key);
    PlacedAfter(acts, sessions, m);
    SameWeightThrough(acts, m, n);
  }

  // ---------------------------------------------------------------------------------------------
  // What the two series refuse
  // ---------------------------------------------------------------------------------------------

  /** Holding at the weight is worth something between the two legs, whatever they come to: nothing is lent or sold short. */
  ghost predicate IsBetweenLegs(weight: real) {
    forall e, c :: e <= c ==> e <= Mix(weight, e, c) <= c
  }

  lemma {:induction false} Convex(weight: real, e: real, c: real)
    requires 0.0 <= weight <= 1.0 && e <= c
    ensures e <= Mix(weight, e, c) <= c
  {
    assert Mix(weight, e, c) - e == (1.0 - weight) * (c - e);
    assert c - Mix(weight, e, c) == weight * (c - e);
    AtLeastZero(1.0 - weight, c - e);
    AtLeastZero(weight, c - e);
  }

  lemma {:induction false} AtLeastZero(x: real, y: real)
    requires x >= 0.0 && y >= 0.0
    ensures x * y >= 0.0
  {
  }

  lemma {:induction false} BetweenIff(weight: real)
    ensures 0.0 <= weight <= 1.0 <==> IsBetweenLegs(weight)
  {
    if 0.0 <= weight <= 1.0 {
      forall e, c | e <= c ensures e <= Mix(weight, e, c) <= c {
        Convex(weight, e, c);
      }
    }
    if IsBetweenLegs(weight) {
      assert 0.0 <= Mix(weight, 0.0, 1.0) <= 1.0;
      assert Mix(weight, 0.0, 1.0) == 1.0 - weight;
    }
  }

  /** The activations are refused exactly when one of them is at a weight that is not between the legs. */
  lemma {:induction false} RefusedIff(activations: seq<Activation>)
    ensures WeightsInRange(activations) <==> forall i :: 0 <= i < |activations| ==> IsBetweenLegs(activations[i].weight)
  {
    forall i | 0 <= i < |activations| ensures IsBetweenLegs(activations[i].weight) <==> 0.0 <= activations[i].weight <= 1.0 {
      BetweenIff(activations[i].weight);
    }
    assert WeightsInRange(activations) <==> forall i :: 0 <= i < |activations| ==> 0.0 <= activations[i].weight <= 1.0;
  }

  /** A leg has a return into a shared session exactly when its level at the one before is above zero. */
  lemma {:induction false} SharedReturnIs(leg: Leg, sessions: seq<int>, n: nat, i: nat, j: nat)
    requires Ascending(leg.points) && 1 <= n < |sessions|
    requires StandsAt(leg.points, i, sessions[n]) && StandsAt(leg.points, j, sessions[n - 1])
    ensures SharedReturn(leg, sessions, n).Some? <==> leg.points[j].trIndex > 0.0
    ensures SharedReturn(leg, sessions, n).Some? ==>
      (1.0 + SharedReturn(leg, sessions, n).value) * leg.points[j].trIndex == leg.points[i].trIndex
  {
    PositionFound(leg.points, i, sessions[n]);
    PositionFound(leg.points, j, sessions[n - 1]);
    if leg.points[j].trIndex > 0.0 {
      RatioBack(leg.points[i].trIndex, leg.points[j].trIndex);
    }
  }

  /** A shared session blends exactly when both legs' levels at the one before are above zero and the weight is between them. */
  lemma {:induction false} BlendsIff(spec: Spec, sessions: seq<int>, weightAt: int -> real, n: nat, i: nat, j: nat, k: nat, l: nat)
    requires Ascending(spec.equity.points) && Ascending(spec.cash.points) && 1 <= n < |sessions|
    requires StandsAt(spec.equity.points, i, sessions[n]) && StandsAt(spec.equity.points, j, sessions[n - 1])
    requires StandsAt(spec.cash.points, k, sessions[n]) && StandsAt(spec.cash.points, l, sessions[n - 1])
    ensures BlendsAt(spec, sessions, weightAt, n) <==>
      spec.equity.points[j].trIndex > 0.0 && spec.cash.points[l].trIndex > 0.0 && IsBetweenLegs(weightAt(sessions[n]))
  {
    SharedReturnIs(spec.equity, sessions, n, i, j);
    SharedReturnIs(spec.cash, sessions, n, k, l);
    BetweenIff(weightAt(sessions[n]));
  }
}
