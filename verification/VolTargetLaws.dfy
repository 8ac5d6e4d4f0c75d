/**
 * What an exact volatility-targeted index is worth: the value of a portfolio that holds the two legs and rebalances
 * at each acquisition instant; and when it is the constant-weight blend.
 */
module VolTargetLaws {
  import opened Wrappers
  import opened VolTarget
  import StableSort

  // ---------------------------------------------------------------------------------------------
  // The portfolio behind an exact index
  // ---------------------------------------------------------------------------------------------

  /** What is held in each leg, at market. */
  datatype Holding = Holding(equity: real, cash: real) {
    function Total(): real {
      equity + cash
    }
  }

  /** Sell everything and buy at a weight. */
  function Rebalanced(h: Holding, weight: real): Holding {
    Holding(Times(weight, h.Total()), Times(1.0 - weight, h.Total()))
  }

  function Grown(h: Holding, equityFactor: real, cashFactor: real): Holding {
    Holding(Times(h.equity, equityFactor), Times(h.cash, cashFactor))
  }

  /** From a close to the next: hold across the open, or rebalance at it. */
  function Carried(spec: Spec, acts: seq<Activation>, h: Holding, cur: int, prev: int): Holding
    requires StepIsExact(spec, acts, cur, prev)
  {
    if InForce(acts, CloseKey(prev)) == InForce(acts, OpenKey(cur)) then
      Grown(h, 1.0 + CloseToClose(spec.equity, cur, prev), 1.0 + CloseToClose(spec.cash, cur, prev))
    else
      var split := SplitAtOpen(spec, cur, prev).value;
      var atOpen := Grown(h, split.equity.overnight, split.cash.overnight);
      Grown(Rebalanced(atOpen, InForce(acts, OpenKey(cur))), split.equity.intraday, split.cash.intraday)
  }

  /** The holding after the close of the `n`-th shared session, started with one unit of cash. */
  ghost function Portfolio(spec: Spec, acts: seq<Activation>, sessions: seq<int>, n: nat): Holding
    requires n < |sessions| && ExactTo(spec, acts, sessions, n + 1)
  {
    var weight := InForce(acts, CloseKey(sessions[n]));
    if n == 0 then Rebalanced(Holding(0.0, 1.0), weight)
    else
      assert ExactAt(spec, acts, sessions, n);
      Rebalanced(Carried(spec, acts, Portfolio(spec, acts, sessions, n - 1), sessions[n], sessions[n - 1]), weight)
  }

  lemma {:induction false} RebalancedTotal(h: Holding, weight: real)
    ensures Rebalanced(h, weight).Total() == h.Total()
  {
  }

  lemma {:induction false} GrownTotal(h: Holding, weight: real, equityFactor: real, cashFactor: real)
    ensures Grown(Rebalanced(h, weight), equityFactor, cashFactor).Total()
            == Times(h.Total(), Mix(weight, equityFactor, cashFactor))
  {
  }

  lemma {:induction false} MixOfReturns(weight: real, e: real, c: real)
    ensures Mix(weight, 1.0 + e, 1.0 + c) == 1.0 + Mix(weight, e, c)
  {
  }

  lemma {:induction false} CarriedTotal(spec: Spec, acts: seq<Activation>, h: Holding, cur: int, prev: int)
    requires StepIsExact(spec, acts, cur, prev)
    ensures Carried(spec, acts, Rebalanced(h, InForce(acts, CloseKey(prev))), cur, prev).Total()
            == Times(h.Total(), Step(spec, acts, cur, prev))
  {
    var held, acquired := InForce(acts, CloseKey(prev)), InForce(acts, OpenKey(cur));
    if held == acquired {
      GrownTotal(h, held, 1.0 + CloseToClose(spec.equity, cur, prev), 1.0 + CloseToClose(spec.cash, cur, prev));
      MixOfReturns(held, CloseToClose(spec.equity, cur, prev), CloseToClose(spec.cash, cur, prev));
    } else {
      var split := SplitAtOpen(spec, cur, prev).value;
      var atOpen := Grown(Rebalanced(h, held), split.equity.overnight, split.cash.overnight);
      GrownTotal(h, held, split.equity.overnight, split.cash.overnight);
      GrownTotal(atOpen, acquired, split.equity.intraday, split.cash.intraday);
      TimesAssociates(h.Total(), Mix(held, split.equity.overnight, split.cash.overnight),
                      Mix(acquired, split.equity.intraday, split.cash.intraday));
    }
  }

  /** Where every step is exact, the index is the portfolio's value at every shared close. */
  lemma {:induction false} IndexIsPortfolioValue(spec: Spec, acts: seq<Activation>, sessions: seq<int>, n: nat)
    requires n < |sessions| && ExactTo(spec, acts, sessions, n + 1)
    ensures Portfolio(spec, acts, sessions, n).Total() == Index(spec, acts, sessions, n)
  {
    var weight := InForce(acts, CloseKey(sessions[n]));
    if n == 0 {
      RebalancedTotal(Holding(0.0, 1.0), weight);
    } else {
      assert ExactAt(spec, acts, sessions, n);
      var h := Portfolio(spec, acts, sessions, n - 1);
      var held := InForce(acts, CloseKey(sessions[n - 1]));
      IndexIsPortfolioValue(spec, acts, sessions, n - 1);
      PortfolioIsRebalanced(spec, acts, sessions, n - 1);
      CarriedTotal(spec, acts, h, sessions[n], sessions[n - 1]);
      RebalancedTotal(Carried(spec, acts, h, sessions[n], sessions[n - 1]), weight);
    }
  }

  lemma {:induction false} PortfolioIsRebalanced(spec: Spec, acts: seq<Activation>, sessions: seq<int>, n: nat)
    requires n < |sessions| && ExactTo(spec, acts, sessions, n + 1)
    ensures var h := Portfolio(spec, acts, sessions, n); Rebalanced(h, InForce(acts, CloseKey(sessions[n]))) == h
  {
  }

  // ---------------------------------------------------------------------------------------------
  // No acquisition instant is missed
  // ---------------------------------------------------------------------------------------------

  lemma {:induction false} CutExists(acts: seq<Activation>, key: int) returns (n: nat)
    requires InOrder(acts)
    ensures Cut(acts, n, key)
    decreases |acts|
  {
    if acts == [] || ActivationKey(acts[|acts| - 1]) <= key {
      n := |acts|;
    } else {
      n := CutExists(acts[..|acts| - 1], key);
    }
  }

  lemma {:induction false} CutsAreOrdered(acts: seq<Activation>, m: nat, n: nat, key: int, later: int)
    requires Cut(acts, m, key) && Cut(acts, n, later) && key <= later
    ensures m <= n
  {
    assert n < |acts| ==> ActivationKey(acts[n]) > later;
  }

  lemma {:induction false} SameWeightThrough(acts: seq<Activation>, m: nat, n: nat)
    requires m <= n <= |acts| && forall j :: m <= j < n ==> acts[j].weight == Before(acts, j)
    ensures Before(acts, m) == Before(acts, n)
    decreases n
  {
    if m < n {
      SameWeightThrough(acts, m, n - 1);
    }
  }

  /**
   * In an exact index no weight changes strictly between a shared close and the next shared open, so rebalancing at
   * the shared opens and closes is rebalancing at every acquisition instant.
   */
  lemma {:induction false} NothingChangesInside(acts: seq<Activation>, sessions: seq<int>, i: nat, key: int)
    requires InOrder(acts) && Increasing(sessions) && 1 <= i < |sessions|
    requires PlacedTo(acts, sessions, |acts|)
    requires CloseKey(sessions[i - 1]) <= key < OpenKey(sessions[i])
    ensures InForce(acts, key) == InForce(acts, CloseKey(sessions[i - 1]))
  {
    var m := CutExists(acts, CloseKey(sessions[i - 1]));
    var n := CutExists(acts, key);
    CutInForce(acts, m, CloseKey(sessions[i - 1]));
    CutInForce(acts, n, key);
    CutsAreOrdered(acts, m, n, CloseKey(sessions[i - 1]), key);
    forall j | m <= j < n ensures acts[j].weight == Before(acts, j) {
      PlacedInInterval(acts, sessions, i, j);
      assert IsPlaced(acts, sessions, j);
    }
    SameWeightThrough(acts, m, n);
  }

  /**
   * An exact index is worth what the portfolio holds at every shared close; between a close and the next open no
   * acquisition instant is left out.
   */
  lemma {:induction false} ExactIndexIsPortfolioValue(spec: Spec, points: seq<IndexPoint>, n: nat)
    requires Ascending(spec.equity.points) && Shared(spec) != [] && IsExact(spec, Acts(spec), Shared(spec))
    requires PointsAre(points, spec, Acts(spec), Shared(spec), |Shared(spec)|) && n < |Shared(spec)|
    ensures ExactTo(spec, Acts(spec), Shared(spec), n + 1)
    ensures points[n].value == Portfolio(spec, Acts(spec), Shared(spec), n).Total()
    ensures n > 0 ==> forall key :: CloseKey(Shared(spec)[n - 1]) <= key < OpenKey(Shared(spec)[n]) ==>
      InForce(Acts(spec), key) == InForce(Acts(spec), CloseKey(Shared(spec)[n - 1]))
  {
    var acts, sessions := Acts(spec), Shared(spec);
    IndexIsPortfolioValue(spec, acts, sessions, n);
    if n > 0 {
      CommonIncreasing(spec.equity.points, spec.cash.points);
      StableSort.SortSorted(spec.activations, ActivationOrder);
      SortedInOrder(acts);
      forall key | CloseKey(sessions[n - 1]) <= key < OpenKey(sessions[n])
        ensures InForce(acts, key) == InForce(acts, CloseKey(sessions[n - 1]))
      {
        NothingChangesInside(acts, sessions, n, key);
      }
    }
  }

  // ---------------------------------------------------------------------------------------------
  // The two halves of a rebalance session
  // ---------------------------------------------------------------------------------------------

  /** The leg's index went on from its point before a session as the total-return series builds it. */
  predicate IsReinvested(last: Point, now: Point) {
    last.adjClose > 0.0 && now.trIndex == Ratio(Times(last.trIndex, now.adjClose + now.distribution), last.adjClose)
  }

  lemma {:induction false} HalvesMultiply(t: real, p: real, l: real, c: real, d: real, o: real)
    requires t > 0.0 && p > 0.0 && l > 0.0 && c > 0.0 && o > 0.0
    ensures Times(Times(Ratio(t, p), Ratio(o + d, l)), Ratio(c, o)) == Ratio(Ratio(Times(t, c + d), l), p) <==> d == 0.0 || o == c
  {
    var z := Ratio(c, o);
    var k := Ratio(t, Times(p, l));
    SameShare(t, p, l, o + d, z);
    assert z * (o + d) == c + Times(z, d) by {
      assert z * o == c;
    }
    WholeShare(t, p, l, c + d);
    ShareIsPositive(t, p, l);
    SameMultiple(k, c + Times(z, d), c + d);
    PriceMove(c, o, d);
  }

  lemma {:induction false} SameMultiple(k: real, x: real, y: real)
    requires k > 0.0
    ensures Times(k, x) == Times(k, y) <==> x == y
  {
    if Times(k, x) == Times(k, y) {
      assert k * (x - y) == 0.0;
    }
  }

  lemma {:induction false} PriceMove(c: real, o: real, d: real)
    requires o > 0.0
    ensures Times(Ratio(c, o), d) == d <==> d == 0.0 || o == c
  {
    var z := Ratio(c, o);
    assert z * o == c;
    if z * d == d {
      assert (z - 1.0) * d == 0.0;
    }
  }

  lemma {:induction false} ShareIsPositive(t: real, p: real, l: real)
    requires t > 0.0 && p > 0.0 && l > 0.0
    ensures Times(p, l) > 0.0 && Ratio(t, Times(p, l)) > 0.0
  {
  }

  lemma {:induction false} SameShare(t: real, p: real, l: real, v: real, z: real)
    requires p > 0.0 && l > 0.0
    ensures Times(p, l) > 0.0
    ensures Times(Times(Ratio(t, p), Ratio(v, l)), z) == Times(Ratio(t, Times(p, l)), z * v)
  {
    var x, y, k := Ratio(t, p), Ratio(v, l), Ratio(t, Times(p, l));
    assert t == x * p && v == y * l && t == k * (p * l);
    assert x * p == (k * l) * p;
    assert x == k * l;
    assert x * y * z == k * (z * (y * l));
  }

  lemma {:induction false} WholeShare(t: real, p: real, l: real, v: real)
    requires p > 0.0 && l > 0.0
    ensures Times(p, l) > 0.0
    ensures Ratio(Ratio(Times(t, v), l), p) == Times(Ratio(t, Times(p, l)), v)
  {
    var k := Ratio(t, Times(p, l));
    assert t == k * (p * l);
    assert t * v == ((k * v) * p) * l;
  }

  /**
   * The halves of a split session multiply back to the leg's own total-return step exactly when the session has no
   * distribution or opened at its close: otherwise the distribution stays with the holder before the open, and none
   * of it moves with the price to the close.
   */
  lemma {:induction false} HalvesCompoundIff(leg: Leg, cur: int, prev: int)
    requires LegSplit(leg, cur, prev).Some? && PositionOf(leg.points, cur).value >= 1
    requires IsReinvested(leg.points[PositionOf(leg.points, cur).value - 1], leg.points[PositionOf(leg.points, cur).value])
    ensures var h, now, bar := LegSplit(leg, cur, prev).value, leg.points[PositionOf(leg.points, cur).value], leg.bars[cur];
            Times(h.overnight, h.intraday) == 1.0 + CloseToClose(leg, cur, prev)
            <==> now.distribution == 0.0 || AdjustedOpen(bar, now.adjClose) == now.adjClose
  {
    var i := PositionOf(leg.points, cur).value;
    var now, last, before := leg.points[i], leg.points[i - 1], PointAt(leg, prev).value;
    HalvesMultiply(last.trIndex, before.trIndex, last.adjClose, now.adjClose, now.distribution,
                   AdjustedOpen(leg.bars[cur], now.adjClose));
  }

  // ---------------------------------------------------------------------------------------------
  // Skipped sessions
  // ---------------------------------------------------------------------------------------------

  ghost predicate AllPositive(levels: seq<real>) {
    forall i :: 0 <= i < |levels| ==> levels[i] > 0.0
  }

  /** Rebalancing daily at one weight through every level the legs went through. */
  function Daily(weight: real, equity: seq<real>, cash: seq<real>, n: nat): real
    requires n < |equity| && n < |cash| && AllPositive(equity) && AllPositive(cash)
  {
    if n == 0 then 1.0
    else Times(Daily(weight, equity, cash, n - 1),
               Mix(weight, Ratio(equity[n], equity[n - 1]), Ratio(cash[n], cash[n - 1])))
  }

  lemma {:induction false} RatiosChain(x: real, y: real, z: real)
    requires x > 0.0 && y > 0.0
    ensures Times(Ratio(y, x), Ratio(z, y)) == Ratio(z, x)
  {
  }

  lemma {:induction false} RatioOfItself(x: real)
    requires x > 0.0
    ensures Ratio(x, x) == 1.0
  {
  }

  lemma {:induction false} OneLegMix(weight: real, e: real, c: real)
    requires weight == 0.0 || weight == 1.0
    ensures Mix(weight, e, c) == if weight == 1.0 then e else c
  {
  }

  /** Holding one leg only, the sessions a step skips make no difference, whatever the levels on them were. */
  lemma {:induction false} OneLegCompounds(weight: real, equity: seq<real>, cash: seq<real>, n: nat)
    requires n < |equity| && n < |cash| && AllPositive(equity) && AllPositive(cash)
    requires weight == 0.0 || weight == 1.0
    ensures Daily(weight, equity, cash, n) == Mix(weight, Ratio(equity[n], equity[0]), Ratio(cash[n], cash[0]))
  {
    OneLegMix(weight, Ratio(equity[n], equity[0]), Ratio(cash[n], cash[0]));
    if n > 0 {
      OneLegCompounds(weight, equity, cash, n - 1);
      OneLegMix(weight, Ratio(equity[n - 1], equity[0]), Ratio(cash[n - 1], cash[0]));
      OneLegMix(weight, Ratio(equity[n], equity[n - 1]), Ratio(cash[n], cash[n - 1]));
      RatiosChain(equity[0], equity[n - 1], equity[n]);
      RatiosChain(cash[0], cash[n - 1], cash[n]);
    } else {
      RatioOfItself(equity[0]);
      RatioOfItself(cash[0]);
    }
  }

  /** Not so at a fractional weight: +10% and back against flat cash, half in each, does not come back to 1. */
  lemma {:induction false} FractionalDoesNotCompound()
    ensures var e, c := [10.0, 11.0, 10.0], [1.0, 1.0, 1.0];
            Daily(0.5, e, c, 2) != Mix(0.5, Ratio(e[2], e[0]), Ratio(c[2], c[0]))
  {
  }

  // ---------------------------------------------------------------------------------------------
  // One weight throughout
  // ---------------------------------------------------------------------------------------------

  lemma {:induction false} OneWeight(a: Activation, key: int)
    requires ActivationKey(a) <= key
    ensures StableSort.Sort([a], ActivationOrder) == [a]
    ensures InForce([a], key) == a.weight
  {
  }

  /** No weight changes at an open: the weight held into a session is the one in force at the close before it. */
  ghost predicate ChangesAtCloses(acts: seq<Activation>, sessions: seq<int>, weightAt: int -> real) {
    forall i :: 1 <= i < |sessions| ==> HeldInto(acts, sessions, i, weightAt(sessions[i]))
  }

  predicate HeldInto(acts: seq<Activation>, sessions: seq<int>, i: nat, weight: real)
    requires 1 <= i < |sessions|
  {
    weight == InForce(acts, CloseKey(sessions[i - 1])) == InForce(acts, OpenKey(sessions[i]))
  }

  /** Where no weight changes at an open, the index is the blend at the weights held into the sessions. */
  lemma {:induction false} CloseWeightsAreBlend(spec: Spec, acts: seq<Activation>, sessions: seq<int>, weightAt: int -> real,
                                                points: seq<IndexPoint>, n: nat)
    requires n < |sessions| && ChangesAtCloses(acts, sessions, weightAt)
    requires IsBlend(points, spec, sessions, weightAt, |sessions|)
    ensures points[n] == IndexPoint(sessions[n], Index(spec, acts, sessions, n))
  {
    if n > 0 {
      CloseWeightsAreBlend(spec, acts, sessions, weightAt, points, n - 1);
      assert HasReturns(spec, sessions, n) && HeldInto(acts, sessions, n, weightAt(sessions[n]));
    }
  }

  function Constantly(weight: real): int -> real {
    _ => weight
  }

  lemma {:induction false} OneWeightIsHeld(a: Activation, sessions: seq<int>)
    requires sessions != [] && Increasing(sessions) && ActivationKey(a) <= CloseKey(sessions[0])
    ensures ChangesAtCloses([a], sessions, Constantly(a.weight))
  {
    forall i | 1 <= i < |sessions| ensures HeldInto([a], sessions, i, a.weight) {
      assert i > 1 ==> sessions[0] < sessions[i - 1];
      assert sessions[0] < sessions[i];
      OneWeight(a, CloseKey(sessions[i - 1]));
      OneWeight(a, OpenKey(sessions[i]));
    }
  }

  lemma {:induction false} OneWeightExact(spec: Spec, a: Activation, sessions: seq<int>)
    requires sessions != [] && Increasing(sessions) && ActivationKey(a) <= CloseKey(sessions[0])
    ensures IsExact(spec, [a], sessions) <==>
      a.weight == 0.0 || a.weight == 1.0
      || forall i :: 1 <= i < |sessions| ==> !Skips(spec, sessions[i], sessions[i - 1])
  {
    assert IsPlaced([a], sessions, 0);
    forall i | 1 <= i < |sessions|
      ensures ExactAt(spec, [a], sessions, i) <==>
        a.weight == 0.0 || a.weight == 1.0 || !Skips(spec, sessions[i], sessions[i - 1])
    {
      assert i > 1 ==> sessions[0] < sessions[i - 1];
      assert sessions[0] < sessions[i];
      OneWeight(a, CloseKey(sessions[i - 1]));
      OneWeight(a, OpenKey(sessions[i]));
    }
  }

  /**
   * With a single weight acquired by the first shared close the index is the blend at that weight, and it is exact
   * unless a fractional weight is carried over a skipped session.
   */
  lemma {:induction false} SingleWeightIsBlend(spec: Spec, a: Activation, points: seq<IndexPoint>)
    requires spec.activations == [a] && Ascending(spec.equity.points) && Shared(spec) != []
    requires ActivationKey(a) <= CloseKey(Shared(spec)[0])
    requires IsBlend(points, spec, Shared(spec), Constantly(a.weight), |Shared(spec)|)
    ensures PointsAre(points, spec, Acts(spec), Shared(spec), |Shared(spec)|)
    ensures IsExact(spec, Acts(spec), Shared(spec)) <==>
      a.weight == 0.0 || a.weight == 1.0
      || forall i :: 1 <= i < |Shared(spec)| ==> !Skips(spec, Shared(spec)[i], Shared(spec)[i - 1])
  {
    var sessions := Shared(spec);
    CommonIncreasing(spec.equity.points, spec.cash.points);
    OneWeight(a, CloseKey(sessions[0]));
    OneWeightIsHeld(a, sessions);
    forall i | 0 <= i < |sessions| ensures points[i] == IndexPoint(sessions[i], Index(spec, [a], sessions, i)) {
      CloseWeightsAreBlend(spec, [a], sessions, Constantly(a.weight), points, i);
    }
    assert Acts(spec) == [a];
    OneWeightExact(spec, a, sessions);
  }

  // ---------------------------------------------------------------------------------------------
  // Listing order, and later activations
  // ---------------------------------------------------------------------------------------------

  /** The index sorts its activations: listing them in another order changes nothing when their instants differ. */
  lemma {:induction false} ListingOrderIsIrrelevant(a: Spec, b: Spec, sessions: seq<int>, n: nat)
    requires n < |sessions| && b == a.(activations := b.activations)
    requires StableSort.Distinct(a.activations, ActivationOrder) && StableSort.Distinct(b.activations, ActivationOrder)
    requires forall x :: x in a.activations <==> x in b.activations
    ensures Acts(a) == Acts(b) && Index(a, Acts(a), sessions, n) == Index(b, Acts(b), sessions, n)
  {
    StableSort.SortOfSameElements(a.activations, b.activations, ActivationOrder);
    SameLegs(a, b, Acts(a), sessions, n);
  }

  lemma {:induction false} SameLegs(a: Spec, b: Spec, acts: seq<Activation>, sessions: seq<int>, n: nat)
    requires n < |sessions| && b == a.(activations := b.activations)
    ensures Index(a, acts, sessions, n) == Index(b, acts, sessions, n)
  {
    if n > 0 {
      SameLegs(a, b, acts, sessions, n - 1);
    }
  }

  lemma {:induction false} InsertLater(acts: seq<Activation>, x: Activation, key: int)
    requires ActivationKey(x) > key
    ensures InForce(StableSort.Insert(acts, x, ActivationOrder), key) == InForce(acts, key)
    decreases |acts|
  {
    if acts == [] {
      assert [x][..0] == [];
    } else {
      var front, y := acts[..|acts| - 1], acts[|acts| - 1];
      if StableSort.Leq(ActivationOrder(y), ActivationOrder(x)) {
        assert (acts + [x])[..|acts|] == acts;
      } else {
        InsertLater(front, x, key);
        var r := StableSort.Insert(front, x, ActivationOrder);
        assert (r + [y])[..|r|] == r;
      }
    }
  }

  lemma {:induction false} SortLater(activations: seq<Activation>, later: seq<Activation>, key: int)
    requires forall x :: x in later ==> ActivationKey(x) > key
    ensures InForce(StableSort.Sort(activations + later, ActivationOrder), key)
            == InForce(StableSort.Sort(activations, ActivationOrder), key)
    decreases |later|
  {
    if later == [] {
      assert activations + later == activations;
    } else {
      var front, x := later[..|later| - 1], later[|later| - 1];
      assert x in later && forall y :: y in front ==> y in later;
      assert (activations + later)[..|activations + later| - 1] == activations + front;
      SortLater(activations, front, key);
      InsertLater(StableSort.Sort(activations + front, ActivationOrder), x, key);
    }
  }

  /** No look-ahead: a weight acquired after a session's open leaves the index at that session's close unchanged. */
  lemma {:induction false} LaterActivationsChangeNothing(spec: Spec, later: seq<Activation>, sessions: seq<int>, n: nat)
    requires n < |sessions| && Increasing(sessions)
    requires forall x :: x in later ==> ActivationKey(x) > OpenKey(sessions[n])
    ensures var more := spec.(activations := spec.activations + later);
            Index(more, Acts(more), sessions, n) == Index(spec, Acts(spec), sessions, n)
  {
    var more := spec.(activations := spec.activations + later);
    forall key | key <= OpenKey(sessions[n]) ensures InForce(Acts(more), key) == InForce(Acts(spec), key) {
      SortLater(spec.activations, later, key);
    }
    SameWeightsSameIndex(spec, Acts(more), Acts(spec), sessions, n);
    SameLegs(more, spec, Acts(more), sessions, n);
  }

  lemma {:induction false} SameWeightsSameIndex(spec: Spec, acts: seq<Activation>, other: seq<Activation>, sessions: seq<int>, n: nat)
    requires n < |sessions| && Increasing(sessions)
    requires forall key :: key <= OpenKey(sessions[n]) ==> InForce(acts, key) == InForce(other, key)
    ensures Index(spec, acts, sessions, n) == Index(spec, other, sessions, n)
  {
    if n > 0 {
      assert sessions[n - 1] < sessions[n];
      SameWeightsSameIndex(spec, acts, other, sessions, n - 1);
      assert InForce(acts, CloseKey(sessions[n - 1])) == InForce(other, CloseKey(sessions[n - 1]));
    }
  }
}
