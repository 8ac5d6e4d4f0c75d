/**
 * A shadow fill record in the inputs' own terms: which steps stand in the timeline and in what order, the share units
 * each fill is recorded in, what one step does to the book, and what is left of each order and why.
 */
module ShadowFillUnits {
  import opened Wrappers
  import opened StableSort
  import opened ShadowFills
  import opened ShadowFillLaws

  // ---------------------------------------------------------------------------------------------
  // What one share becomes
  // ---------------------------------------------------------------------------------------------

  function Times(a: real, b: real): real {
    a * b
  }

  /** What one share of an entity becomes through its split steps among these. */
  function Carried(steps: seq<Step>, entityId: EntityId): real
    decreases |steps|
  {
    if steps == [] then 1.0
    else
      var s := steps[|steps| - 1];
      var before := Carried(steps[..|steps| - 1], entityId);
      if s.SplitStep? && s.entityId == entityId then Times(before, s.ratio) else before
  }

  /** What one share becomes through those dated no later than `at`. */
  function CarriedTo(steps: seq<Step>, entityId: EntityId, at: Date): real
    decreases |steps|
  {
    if steps == [] then 1.0
    else
      var s := steps[|steps| - 1];
      var before := CarriedTo(steps[..|steps| - 1], entityId, at);
      if s.SplitStep? && s.entityId == entityId && s.date <= at then Times(before, s.ratio) else before
  }

  /** What one step multiplies a share by. */
  function RatioAt(s: Step, entityId: EntityId, at: Date): real {
    if s.SplitStep? && s.entityId == entityId && s.date <= at then s.ratio else 1.0
  }

  lemma {:induction false} CarriedAppend(steps: seq<Step>, s: Step, entityId: EntityId, at: Date)
    ensures CarriedTo(steps + [s], entityId, at) == Times(CarriedTo(steps, entityId, at), RatioAt(s, entityId, at))
  {
    assert (steps + [s])[..|steps|] == steps;
  }

  lemma {:induction false} CarriedConcat(a: seq<Step>, b: seq<Step>, entityId: EntityId, at: Date)
    ensures CarriedTo(a + b, entityId, at) == Times(CarriedTo(a, entityId, at), CarriedTo(b, entityId, at))
    decreases |b|
  {
    if b == [] {
      assert a + b == a;
    } else {
      var front, s := b[..|b| - 1], b[|b| - 1];
      CarriedConcat(a, front, entityId, at);
      assert a + b == (a + front) + [s];
      assert b == front + [s];
      CarriedAppend(a + front, s, entityId, at);
      CarriedAppend(front, s, entityId, at);
      TimesAssociative(CarriedTo(a, entityId, at), CarriedTo(front, entityId, at), RatioAt(s, entityId, at));
    }
  }

  lemma {:induction false} TimesAssociative(a: real, b: real, c: real)
    ensures Times(Times(a, b), c) == Times(a, Times(b, c)) && Times(Times(a, b), c) == Times(Times(a, c), b)
  {
  }

  lemma {:induction false} CarriedInsert(steps: seq<Step>, s: Step, entityId: EntityId, at: Date)
    ensures CarriedTo(Insert(steps, s, StepKey), entityId, at) == Times(CarriedTo(steps, entityId, at), RatioAt(s, entityId, at))
    decreases |steps|
  {
    if steps == [] || Leq(StepKey(steps[|steps| - 1]), StepKey(s)) {
      CarriedAppend(steps, s, entityId, at);
    } else {
      var front, last := steps[..|steps| - 1], steps[|steps| - 1];
      CarriedInsert(front, s, entityId, at);
      CarriedAppend(Insert(front, s, StepKey), last, entityId, at);
      CarriedAppend(front, last, entityId, at);
      assert steps == front + [last];
      TimesAssociative(CarriedTo(front, entityId, at), RatioAt(s, entityId, at), RatioAt(last, entityId, at));
    }
  }

  lemma {:induction false} CarriedSort(steps: seq<Step>, entityId: EntityId, at: Date)
    ensures CarriedTo(Sort(steps, StepKey), entityId, at) == CarriedTo(steps, entityId, at)
    decreases |steps|
  {
    if steps != [] {
      var front, last := steps[..|steps| - 1], steps[|steps| - 1];
      CarriedSort(front, entityId, at);
      CarriedInsert(Sort(front, StepKey), last, entityId, at);
      CarriedAppend(front, last, entityId, at);
      assert steps == front + [last];
    }
  }

  lemma {:induction false} FillsCarryNothing(steps: seq<Step>, entityId: EntityId, at: Date)
    requires forall s :: s in steps ==> s.FillStep?
    ensures CarriedTo(steps, entityId, at) == 1.0
    decreases |steps|
  {
    if steps != [] {
      FillsCarryNothing(steps[..|steps| - 1], entityId, at);
      assert steps[|steps| - 1] in steps;
    }
  }

  lemma {:induction false} SplitStepsCarry(d: Decision, splits: seq<Split>, entityId: EntityId, at: Date)
    ensures CarriedTo(SplitSteps(d, splits), entityId, at) == SplitFactor(splits, entityId, d.session, at)
    decreases |splits|
  {
    if splits != [] {
      var front, s := splits[..|splits| - 1], splits[|splits| - 1];
      SplitStepsCarry(d, front, entityId, at);
      CarriedAppend(SplitSteps(d, front), SplitStep(s.exDate, s.entityId, s.ratio), entityId, at);
    }
  }

  lemma {:induction false} OrderStepsAreFills(d: Decision, orders: seq<Order>, s: Step)
    requires s in OrderSteps(d, orders)
    ensures s.FillStep?
  {
    OrderStepsOfOrders(d, orders, s);
  }

  lemma {:induction false} TimelineCarries(d: Decision, entityId: EntityId, at: Date)
    ensures CarriedTo(Timeline(d), entityId, at) == SplitFactor(d.splits, entityId, d.session, at)
  {
    var fills, splits := OrderSteps(d, Actionable(d, d.orders)), SplitSteps(d, d.splits);
    CarriedSort(AllSteps(d), entityId, at);
    CarriedConcat(fills, splits, entityId, at);
    forall s | s in fills ensures s.FillStep? {
      OrderStepsAreFills(d, Actionable(d, d.orders), s);
    }
    FillsCarryNothing(fills, entityId, at);
    SplitStepsCarry(d, d.splits, entityId, at);
  }

  // ---------------------------------------------------------------------------------------------
  // The order of the timeline
  // ---------------------------------------------------------------------------------------------

  /** By date; within a date splits, then sells, then buys; within those by entity. */
  ghost predicate InOrder(a: Step, b: Step) {
    && a.date <= b.date
    && (a.date == b.date && b.SplitStep? ==> a.SplitStep?)
    && (a.date == b.date && a.FillStep? && b.FillStep? && b.side == Sell ==> a.side == Sell)
    && (a.date == b.date && a.SplitStep? && b.SplitStep? ==> a.entityId <= b.entityId)
    && (a.date == b.date && a.FillStep? && b.FillStep? && a.side == b.side ==> a.entityId <= b.entityId)
  }

  lemma {:induction false} TimelineInOrder(d: Decision, i: nat, j: nat)
    requires i <= j < |Timeline(d)|
    ensures InOrder(Timeline(d)[i], Timeline(d)[j])
  {
    SortSorted(AllSteps(d), StepKey);
    SortedPairs(Timeline(d), i, j, StepKey);
  }

  lemma {:induction false} CarriedBefore(d: Decision, i: nat, n: nat, at: Date, entityId: EntityId)
    requires n <= i < |Timeline(d)| && at == Timeline(d)[i].date
    ensures CarriedTo(Timeline(d)[..n], entityId, at) == Carried(Timeline(d)[..n], entityId)
    decreases n
  {
    if n > 0 {
      CarriedBefore(d, i, n - 1, at, entityId);
      TimelineInOrder(d, n - 1, i);
      assert Timeline(d)[..n][..n - 1] == Timeline(d)[..n - 1];
    }
  }

  lemma {:induction false} NoneCarriedAfter(d: Decision, i: nat, n: nat, entityId: EntityId)
    requires i <= n <= |Timeline(d)| && i < |Timeline(d)| && Timeline(d)[i].FillStep?
    ensures CarriedTo(Timeline(d)[..n], entityId, Timeline(d)[i].date) == CarriedTo(Timeline(d)[..i], entityId, Timeline(d)[i].date)
    decreases n
  {
    if n > i {
      NoneCarriedAfter(d, i, n - 1, entityId);
      TimelineInOrder(d, i, n - 1);
      assert Timeline(d)[..n][..n - 1] == Timeline(d)[..n - 1];
    }
  }

  /** At a fill step the entity's share units are those of the split steps standing before it. */
  lemma {:induction false} UnitsAreCarried(d: Decision, i: nat, entityId: EntityId)
    requires i < |Timeline(d)| && Timeline(d)[i].FillStep?
    ensures CarriedTo(Timeline(d), entityId, Timeline(d)[i].date) == Carried(Timeline(d)[..i], entityId)
    ensures SplitFactor(d.splits, entityId, d.session, Timeline(d)[i].date) == Carried(Timeline(d)[..i], entityId)
  {
    var t := Timeline(d);
    CarriedBefore(d, i, i, t[i].date, entityId);
    NoneCarriedAfter(d, i, |t|, entityId);
    assert t[..|t|] == t;
    TimelineCarries(d, entityId, t[i].date);
  }

  // ---------------------------------------------------------------------------------------------
  // What each step of the timeline is
  // ---------------------------------------------------------------------------------------------

  /** The gate lets an order through: nothing under HOLD_ONLY, and no increase while new risk is blocked. */
  predicate LetThrough(d: Decision, o: Order) {
    o in d.orders && !d.holdOnly && (o.deltaShares > 0.0 ==> d.newRiskAllowed)
  }

  /** The step is that simulated fill of the order, in units in which one decision share is `units` shares. */
  ghost predicate IsFillOf(s: Step, o: Order, r: SimResult, f: SimFill, units: real) {
    && s.FillStep? && f in r.fills
    && s.entityId == o.entityId && s.date == f.session
    && (s.side == Buy <==> o.deltaShares > 0.0)
    && s.decisionUnits == f.quantity && s.quantity == f.quantity * units
    && s.price * units == f.price && s.fees == f.fees
    && s.factor == units && s.decisionClose == r.decisionClose
  }

  lemma {:induction false} FillStepsAre(d: Decision, o: Order, r: SimResult, fills: seq<SimFill>, s: Step)
    requires s in FillSteps(d, o, r, fills)
    ensures exists f :: f in fills && s == FillStepOf(d, o, r, f)
    decreases |fills|
  {
    var front, f := fills[..|fills| - 1], fills[|fills| - 1];
    if s in FillSteps(d, o, r, front) {
      FillStepsAre(d, o, r, front, s);
      var g :| g in front && s == FillStepOf(d, o, r, g);
      assert g in fills;
    }
  }

  lemma {:induction false} FillStepsHold(d: Decision, o: Order, r: SimResult, fills: seq<SimFill>, f: SimFill)
    requires f in fills
    ensures FillStepOf(d, o, r, f) in FillSteps(d, o, r, fills)
    decreases |fills|
  {
    var front, last := fills[..|fills| - 1], fills[|fills| - 1];
    assert fills == front + [last];
    if f != last {
      FillStepsHold(d, o, r, front, f);
    }
  }

  lemma {:induction false} OrderStepsAre(d: Decision, orders: seq<Order>, s: Step) returns (o: Order, f: SimFill)
    requires s in OrderSteps(d, orders)
    ensures o in orders && d.simulate(o).Some? && f in d.simulate(o).value.fills && s == FillStepOf(d, o, d.simulate(o).value, f)
    decreases |orders|
  {
    var front, last := orders[..|orders| - 1], orders[|orders| - 1];
    if s in OrderSteps(d, front) {
      o, f := OrderStepsAre(d, front, s);
    } else {
      o := last;
      var r := d.simulate(o).value;
      FillStepsAre(d, o, r, r.fills, s);
      f :| f in r.fills && s == FillStepOf(d, o, r, f);
    }
  }

  lemma {:induction false} OrderStepsHold(d: Decision, orders: seq<Order>, o: Order, f: SimFill)
    requires o in orders && d.simulate(o).Some? && f in d.simulate(o).value.fills
    ensures FillStepOf(d, o, d.simulate(o).value, f) in OrderSteps(d, orders)
    decreases |orders|
  {
    var front, last := orders[..|orders| - 1], orders[|orders| - 1];
    assert orders == front + [last];
    if o == last {
      FillStepsHold(d, o, d.simulate(o).value, d.simulate(o).value.fills, f);
    } else {
      OrderStepsHold(d, front, o, f);
    }
  }

  lemma {:induction false} UnitsOfStep(d: Decision, o: Order, r: SimResult, f: SimFill)
    requires SplitFactor(d.splits, o.entityId, d.session, f.session) > 0.0 && f in r.fills
    ensures IsFillOf(FillStepOf(d, o, r, f), o, r, f, SplitFactor(d.splits, o.entityId, d.session, f.session))
  {
    QuotientBack(f.price, SplitFactor(d.splits, o.entityId, d.session, f.session));
  }

  lemma {:induction false} QuotientBack(a: real, b: real)
    requires b > 0.0
    ensures (a / b) * b == a
  {
  }

  /**
   * Every fill step is a simulated fill of an order the gate let through, in the units its entity's split steps standing
   * before it carry one decision share to, with the notional and the fees of the simulation.
   */
  lemma {:induction false} FillIsInItsUnits(d: Decision, i: nat) returns (o: Order, f: SimFill)
    requires InputsSound(d) && i < |Timeline(d)| && Timeline(d)[i].FillStep?
    ensures LetThrough(d, o) && d.simulate(o).Some?
    ensures IsFillOf(Timeline(d)[i], o, d.simulate(o).value, f, Carried(Timeline(d)[..i], o.entityId))
    ensures Carried(Timeline(d)[..i], o.entityId) > 0.0
  {
    var s := Timeline(d)[i];
    SortContains(AllSteps(d), StepKey);
    SplitStepsAreSplits(d, d.splits);
    assert s in AllSteps(d);
    o, f := OrderStepsAre(d, Actionable(d, d.orders), s);
    ActionableListed(d, d.orders);
    SplitFactorPositive(d.splits, o.entityId, d.session, f.session);
    UnitsOfStep(d, o, d.simulate(o).value, f);
    UnitsAreCarried(d, i, o.entityId);
  }

  /** And every simulated fill of an order the gate lets through has its step. */
  lemma {:induction false} EveryFillIsWorked(d: Decision, o: Order, f: SimFill) returns (i: nat)
    requires InputsSound(d) && LetThrough(d, o) && d.simulate(o).Some? && f in d.simulate(o).value.fills
    ensures i < |Timeline(d)| && Timeline(d)[i].FillStep?
    ensures IsFillOf(Timeline(d)[i], o, d.simulate(o).value, f, Carried(Timeline(d)[..i], o.entityId))
  {
    var s := FillStepOf(d, o, d.simulate(o).value, f);
    ActionableListed(d, d.orders);
    OrderStepsHold(d, Actionable(d, d.orders), o, f);
    SortContains(AllSteps(d), StepKey);
    assert s in Timeline(d);
    i :| 0 <= i < |Timeline(d)| && Timeline(d)[i] == s;
    SplitFactorPositive(d.splits, o.entityId, d.session, f.session);
    UnitsOfStep(d, o, d.simulate(o).value, f);
    UnitsAreCarried(d, i, o.entityId);
  }

  lemma {:induction false} SplitStepsCount(d: Decision, splits: seq<Split>, x: Split)
    ensures multiset(SplitSteps(d, splits))[SplitStep(x.exDate, x.entityId, x.ratio)]
            == if d.session < x.exDate then multiset(splits)[x] else 0
    decreases |splits|
  {
    if splits != [] {
      var front, s := splits[..|splits| - 1], splits[|splits| - 1];
      SplitStepsCount(d, front, x);
      assert splits == front + [s];
    }
  }

  /** A split dated after the decision session stands in the timeline as often as it is given, and no other does. */
  lemma {:induction false} LaterSplitsAreApplied(d: Decision, x: Split)
    ensures multiset(Timeline(d))[SplitStep(x.exDate, x.entityId, x.ratio)]
            == if d.session < x.exDate then multiset(d.splits)[x] else 0
  {
    var fills := OrderSteps(d, Actionable(d, d.orders));
    var step := SplitStep(x.exDate, x.entityId, x.ratio);
    SortMultiset(AllSteps(d), StepKey);
    SplitStepsCount(d, d.splits, x);
    if step in fills {
      OrderStepsAreFills(d, Actionable(d, d.orders), step);
    }
    assert multiset(fills)[step] == 0;
  }

  // ---------------------------------------------------------------------------------------------
  // What one fill step does to the book
  // ---------------------------------------------------------------------------------------------

  /** The book after the first `n` steps. */
  ghost function BookAt(d: Decision, n: nat): Progress
    requires InputsSound(d) && n <= |Timeline(d)|
  {
    TimelineSound(d);
    AfterSteps(Opening(d), Timeline(d)[..n])
  }

  lemma {:induction false} BookSteps(d: Decision, n: nat)
    requires InputsSound(d) && n < |Timeline(d)|
    ensures StepSound(Timeline(d)[n]) && NonNegative(BookAt(d, n))
    ensures BookAt(d, n + 1) == AfterStep(BookAt(d, n), Timeline(d)[n])
  {
    TimelineSound(d);
    BookNeverNegative(d, n);
    assert Timeline(d)[..n + 1][..n] == Timeline(d)[..n];
  }

  /** What `n` of the step's shares cost to buy, with that share of its fees. */
  function CostOf(s: Step, n: real): real
    requires s.FillStep? && s.quantity > 0.0
  {
    s.price * n + s.fees * n / s.quantity
  }

  /** A buy takes the whole fill if the cash covers it, and otherwise the most whole shares the cash covers. */
  ghost predicate IsBought(s: Step, cash: real, quantity: real)
    requires s.FillStep? && s.quantity > 0.0
  {
    if s.price * s.quantity + s.fees <= cash then quantity == s.quantity
    else
      && quantity < s.quantity && CostOf(s, quantity) <= cash
      && exists n: nat :: quantity == Shares(n) && forall k: int :: k > n ==> CostOf(s, Shares(k)) > cash
  }

  /** A sell takes what is held, at most. */
  predicate IsSold(s: Step, held: real, quantity: real)
    requires s.FillStep?
  {
    quantity <= s.quantity && quantity <= held && (quantity == s.quantity || quantity == held)
  }

  /** The fill is of that step, with the step's fees in proportion. */
  predicate IsPartOf(f: ShadowFill, s: Step, quantity: real)
    requires s.FillStep?
  {
    && f.session == s.date && f.entityId == s.entityId && f.side == s.side && f.price == s.price
    && f.quantity == quantity && f.fees * s.quantity == s.fees * quantity
  }

  lemma {:induction false} FeesInProportion(s: Step, quantity: real)
    requires StepSound(s) && s.FillStep?
    ensures FeesOn(s, quantity) * s.quantity == s.fees * quantity
  {
    if quantity != s.quantity {
      QuotientBack(s.fees * quantity, s.quantity);
    }
  }

  lemma {:induction false} SameCost(s: Step, n: real)
    requires s.FillStep? && s.quantity > 0.0
    ensures CostOf(s, n) == PartCost(s, n)
  {
  }

  lemma {:induction false} BoughtLess(s: Step, cash: real, n: nat)
    requires s.FillStep? && s.quantity > 0.0 && s.price * s.quantity + s.fees > cash
    requires Shares(n) < s.quantity && IsMostShares(s, cash, n)
    ensures IsBought(s, cash, Shares(n))
  {
    SameCost(s, Shares(n));
    forall k: int | k > n ensures CostOf(s, Shares(k)) > cash {
      assert CostOfShares(s, k) > cash;
      SameCost(s, Shares(k));
    }
  }

  lemma {:induction false} WholeOrMost(s: Step, cash: real) returns (n: nat)
    requires StepSound(s) && s.FillStep? && cash >= 0.0
    ensures if s.price * s.quantity + s.fees <= cash then Affordable(s, cash) == s.quantity
            else Affordable(s, cash) == Shares(n) < s.quantity && IsMostShares(s, cash, n)
  {
    n := 0;
    if WholeCost(s) > cash {
      n := AffordableIsMost(s, cash);
    }
  }

  lemma {:induction false} BoughtIs(s: Step, cash: real, quantity: real)
    requires StepSound(s) && s.FillStep? && cash >= 0.0 && quantity == Affordable(s, cash)
    ensures IsBought(s, cash, quantity)
  {
    var n := WholeOrMost(s, cash);
    IsBoughtAs(s, cash, quantity, n);
  }

  lemma {:induction false} IsBoughtAs(s: Step, cash: real, quantity: real, n: nat)
    requires s.FillStep? && s.quantity > 0.0
    requires if s.price * s.quantity + s.fees <= cash then quantity == s.quantity
             else quantity == Shares(n) < s.quantity && IsMostShares(s, cash, n)
    ensures IsBought(s, cash, quantity)
  {
    if s.price * s.quantity + s.fees > cash {
      BoughtLess(s, cash, n);
    }
  }

  /** The quantity is what the cash or the holding allows. */
  ghost predicate Fits(before: Progress, s: Step, quantity: real)
    requires s.FillStep? && s.quantity > 0.0
  {
    && 0.0 <= quantity
    && (s.side == Buy ==> IsBought(s, before.cash, quantity))
    && (s.side == Sell ==> IsSold(s, Of(before.held, s.entityId), quantity))
  }

  /** The record gains the fill and the cash pays for it, or takes its proceeds less its fees. */
  ghost predicate IsAdded(before: Progress, after: Progress, f: ShadowFill) {
    && after.fills == before.fills + [f]
    && after.cash == if f.side == Buy then before.cash - f.price * f.quantity - f.fees else before.cash + f.price * f.quantity - f.fees
  }

  /** A fill step's effect on the book: nothing where no share can be traded, else exactly that fill. */
  ghost predicate IsApplied(before: Progress, s: Step, after: Progress, quantity: real)
    requires s.FillStep? && s.quantity > 0.0
  {
    && Fits(before, s, quantity)
    && (quantity == 0.0 ==> after.fills == before.fills && after.cash == before.cash && after.held == before.held)
    && (quantity > 0.0 ==> exists f :: IsPartOf(f, s, quantity) && IsAdded(before, after, f))
  }

  lemma {:induction false} QuantityFits(before: Progress, s: Step)
    requires NonNegative(before) && StepSound(s) && s.FillStep?
    ensures Fits(before, s, AppliedQuantity(before, s))
  {
    if s.side == Buy {
      BoughtIs(s, before.cash, Affordable(s, before.cash));
      AffordableAtLeastZero(s, before.cash);
    }
  }

  /** The book gains the fill, its cash effect and its shortfall, or nothing. */
  ghost predicate IsRecorded(before: Progress, s: Step, after: Progress, quantity: real)
    requires StepSound(s) && s.FillStep?
  {
    if quantity > 0.0 then
      && after.fills == before.fills + [FillFor(s, quantity)]
      && after.cash == before.cash + CashEffect(FillFor(s, quantity))
      && after.shortfall == before.shortfall + ShortfallOf(s, quantity)
    else after.fills == before.fills && after.cash == before.cash && after.shortfall == before.shortfall && after.held == before.held
  }

  lemma {:induction false} FillRecorded(before: Progress, s: Step)
    requires StepSound(s) && s.FillStep?
    ensures IsRecorded(before, s, AfterStep(before, s), AppliedQuantity(before, s))
  {
  }

  lemma {:induction false} CashOfFill(s: Step, quantity: real)
    requires StepSound(s) && s.FillStep?
    ensures var f := FillFor(s, quantity);
            CashEffect(f) == if f.side == Buy then -(f.price * f.quantity) - f.fees else f.price * f.quantity - f.fees
    ensures IsPartOf(FillFor(s, quantity), s, quantity)
  {
    FeesInProportion(s, quantity);
  }

  lemma {:induction false} RecordedIsApplied(before: Progress, s: Step, after: Progress, quantity: real)
    requires StepSound(s) && s.FillStep? && IsRecorded(before, s, after, quantity) && Fits(before, s, quantity)
    ensures IsApplied(before, s, after, quantity)
  {
    CashOfFill(s, quantity);
    assert quantity > 0.0 ==> IsAdded(before, after, FillFor(s, quantity));
  }

  /**
   * One fill step in plain terms: the quantity the cash or the holding allows is bought or sold, and the record gains
   * exactly that fill, or nothing where no share can be.
   */
  lemma {:induction false} FillStepApplied(d: Decision, i: nat) returns (quantity: real)
    requires InputsSound(d) && i < |Timeline(d)| && Timeline(d)[i].FillStep?
    ensures Timeline(d)[i].quantity > 0.0
    ensures IsApplied(BookAt(d, i), Timeline(d)[i], BookAt(d, i + 1), quantity)
  {
    BookSteps(d, i);
    quantity := AppliedQuantity(BookAt(d, i), Timeline(d)[i]);
    QuantityFits(BookAt(d, i), Timeline(d)[i]);
    FillRecorded(BookAt(d, i), Timeline(d)[i]);
    RecordedIsApplied(BookAt(d, i), Timeline(d)[i], BookAt(d, i + 1), quantity);
  }

  lemma {:induction false} AffordableAtLeastZero(s: Step, cash: real)
    requires StepSound(s) && s.FillStep? && cash >= 0.0
    ensures Affordable(s, cash) >= 0.0
  {
    if WholeCost(s) > cash {
      AffordableIsLess(s, cash);
    }
  }

  /** Every line the book lists has shares. */
  ghost predicate NoEmptyLine(held: map<EntityId, real>) {
    forall e :: e in held ==> held[e] > 0.0
  }

  lemma {:induction false} StepKeepsLines(before: Progress, s: Step)
    requires StepSound(s) && NonNegative(before) && NoEmptyLine(before.held)
    ensures NoEmptyLine(AfterStep(before, s).held)
  {
    if s.SplitStep? {
      if s.entityId in before.held {
        PositiveProduct(before.held[s.entityId], s.ratio);
      }
    } else {
      LinesAfterFill(before, s, AppliedQuantity(before, s));
    }
  }

  lemma {:induction false} LinesAfterFill(before: Progress, s: Step, quantity: real)
    requires StepSound(s) && s.FillStep? && quantity == AppliedQuantity(before, s) && NoEmptyLine(before.held)
    ensures NoEmptyLine(AfterFill(before, s).held)
  {
  }

  /** A line sold out leaves the book: from a book without empty lines, no step leaves one. */
  lemma {:induction false} SoldOutLeavesTheBook(d: Decision, n: nat)
    requires InputsSound(d) && n <= |Timeline(d)| && NoEmptyLine(d.positions)
    ensures NoEmptyLine(BookAt(d, n).held)
    decreases n
  {
    if n > 0 {
      SoldOutLeavesTheBook(d, n - 1);
      BookSteps(d, n - 1);
      StepKeepsLines(BookAt(d, n - 1), Timeline(d)[n - 1]);
    }
  }

  // ---------------------------------------------------------------------------------------------
  // What is left of each order, and why
  // ---------------------------------------------------------------------------------------------

  /** Persisted fills of an entity in decision units, by the split steps of the timeline. */
  function DecisionUnits(t: seq<Step>, fills: seq<ShadowFill>, entityId: EntityId): real
    decreases |fills|
  {
    if fills == [] then 0.0
    else
      var f := fills[|fills| - 1];
      var earlier := DecisionUnits(t, fills[..|fills| - 1], entityId);
      var units := CarriedTo(t, entityId, f.session);
      if f.entityId == entityId && units != 0.0 then earlier + f.quantity / units else earlier
  }

  lemma {:induction false} UnitsAgree(d: Decision, fills: seq<ShadowFill>, entityId: EntityId)
    ensures DecisionUnits(Timeline(d), fills, entityId) == UnitsFilled(d, fills, entityId)
    decreases |fills|
  {
    if fills != [] {
      UnitsAgree(d, fills[..|fills| - 1], entityId);
      TimelineCarries(d, entityId, fills[|fills| - 1].session);
    }
  }

  lemma {:induction false} RemaindersAre(d: Decision, orders: seq<Order>, p: Progress, u: Unfilled)
    ensures u in Remainders(d, orders, p) <==> exists o :: o in orders && u in RemainderOf(d, o, p)
    decreases |orders|
  {
    if orders != [] {
      var front, last := orders[..|orders| - 1], orders[|orders| - 1];
      assert orders == front + [last];
      RemaindersAre(d, front, p, u);
    }
  }

  /** What the record lists as left of an order: the entity, its side, and a quantity above zero with its reason. */
  predicate IsLeftOf(d: Decision, o: Order, u: Unfilled) {
    && u.entityId == o.entityId && (u.side == Buy <==> o.deltaShares > 0.0)
    && (d.simulate(o).None? <==> u.reason == NoBars)
  }

  lemma {:induction false} ListedOnce(d: Decision, p: Progress, o: Order, u: Unfilled)
    requires OnePerEntity(d.orders) && LetThrough(d, o) && u.entityId == o.entityId
    ensures u in Remainders(d, Actionable(d, d.orders), p) <==> u in RemainderOf(d, o, p)
  {
    RemaindersAre(d, Actionable(d, d.orders), p, u);
    ActionableListed(d, d.orders);
    forall x | x in d.orders && x.entityId == o.entityId ensures x == o {
      var i :| 0 <= i < |d.orders| && d.orders[i] == x;
      var j :| 0 <= j < |d.orders| && d.orders[j] == o;
      SameEntity(d.orders, i, j);
    }
    assert forall x :: x in d.orders && u in RemainderOf(d, x, p) ==> x.entityId == u.entityId;
  }

  lemma {:induction false} SameEntity(orders: seq<Order>, i: nat, j: nat)
    requires OnePerEntity(orders) && i < |orders| && j < |orders| && orders[i].entityId == orders[j].entityId
    ensures i == j
  {
  }

  /**
   * An order the gate let through is accounted for: its persisted fills, each brought back to decision units by the
   * split steps dated no later than it, and what the record lists as left of it add up to its size.
   */
  lemma {:induction false} OrderAddsUp(d: Decision, o: Order)
    requires InputsSound(d) && LetThrough(d, o)
    ensures var p, size := FinalBook(d), if o.deltaShares >= 0.0 then o.deltaShares else -o.deltaShares;
            var filled := DecisionUnits(Timeline(d), p.fills, o.entityId);
            && 0.0 <= filled <= size
            && forall u: Unfilled :: u.entityId == o.entityId ==>
                 (u in Remainders(d, Actionable(d, d.orders), p) ==> IsLeftOf(d, o, u) && filled + u.remaining == size)
    ensures var p := FinalBook(d);
            d.simulate(o).None?
            || (DecisionUnits(Timeline(d), p.fills, o.entityId) < o.Quantity() <==>
                  exists u :: u in Remainders(d, Actionable(d, d.orders), p) && u.entityId == o.entityId)
  {
    var p := FinalBook(d);
    OrderIsAccountedFor(d, o);
    UnitsAgree(d, p.fills, o.entityId);
    forall u: Unfilled | u.entityId == o.entityId
      ensures u in Remainders(d, Actionable(d, d.orders), p) <==> u in RemainderOf(d, o, p)
    {
      ListedOnce(d, p, o, u);
    }
    if RemainderOf(d, o, p) != [] {
      assert RemainderOf(d, o, p)[0] in RemainderOf(d, o, p);
    }
  }

  /** A buy of the entity costing more than the cash. */
  predicate IsTooDear(s: Step, cash: real, entityId: EntityId) {
    s.FillStep? && s.side == Buy && s.entityId == entityId && s.price * s.quantity + s.fees > cash
  }

  /** A buy of the entity at step `i` cost more than the cash then held. */
  ghost predicate WasShort(d: Decision, i: nat, entityId: EntityId)
    requires InputsSound(d) && i < |Timeline(d)|
  {
    IsTooDear(Timeline(d)[i], BookAt(d, i).cash, entityId)
  }

  lemma {:induction false} ShortAfter(before: Progress, s: Step, entityId: EntityId)
    requires StepSound(s)
    ensures entityId in AfterStep(before, s).cashShort <==> entityId in before.cashShort || IsTooDear(s, before.cash, entityId)
  {
  }

  lemma {:induction false} ShortIff(d: Decision, n: nat, entityId: EntityId)
    requires InputsSound(d) && n <= |Timeline(d)|
    ensures entityId in BookAt(d, n).cashShort <==> exists i :: 0 <= i < n && WasShort(d, i, entityId)
    decreases n
  {
    if n > 0 {
      ShortIff(d, n - 1, entityId);
      BookSteps(d, n - 1);
      ShortAfter(BookAt(d, n - 1), Timeline(d)[n - 1], entityId);
      assert WasShort(d, n - 1, entityId) <==> IsTooDear(Timeline(d)[n - 1], BookAt(d, n - 1).cash, entityId);
    }
  }

  /** A remainder is put down to cash exactly when the simulation filled the whole order and some buy of it was too dear. */
  lemma {:induction false} CashReasonIff(d: Decision, o: Order, u: Unfilled)
    requires InputsSound(d) && LetThrough(d, o) && u.entityId == o.entityId
    requires u in Remainders(d, Actionable(d, d.orders), FinalBook(d))
    ensures u.reason == Cash <==>
      && d.simulate(o).Some? && d.simulate(o).value.unfilled <= 0.0
      && exists i :: 0 <= i < |Timeline(d)| && WasShort(d, i, o.entityId)
    ensures u.reason == NoBars <==> d.simulate(o).None?
  {
    ListedOnce(d, FinalBook(d), o, u);
    ShortIff(d, |Timeline(d)|, o.entityId);
    assert Timeline(d)[..|Timeline(d)|] == Timeline(d);
  }

  // ---------------------------------------------------------------------------------------------
  // What the gate stops
  // ---------------------------------------------------------------------------------------------

  /** The suppressed entries are the increases the gate stops; the suppressed exits the frozen decreases and unpriced exits. */
  lemma {:induction false} SuppressedAre(d: Decision, e: EntityId)
    ensures e in Suppressed(d, true) <==>
      exists o :: o in d.orders && o.entityId == e && o.deltaShares > 0.0 && (d.holdOnly || !d.newRiskAllowed)
    ensures e in Suppressed(d, false) + RemovedUnpriced(d) <==>
      d.holdOnly
      && ((exists o :: o in d.orders && o.entityId == e && o.deltaShares <= 0.0)
          || (e in d.positions && d.positions[e] > 0.0 && e !in d.weighted && e !in d.priced))
  {
  }

  // ---------------------------------------------------------------------------------------------
  // The shortfall
  // ---------------------------------------------------------------------------------------------

  /** What the persisted fills would have cost at each entity's decision close, a sale counting as a receipt. */
  function AtDecisionClose(t: seq<Step>, fills: seq<ShadowFill>, close: EntityId -> real): real
    decreases |fills|
  {
    if fills == [] then 0.0
    else
      var f := fills[|fills| - 1];
      var earlier := AtDecisionClose(t, fills[..|fills| - 1], close);
      var units := CarriedTo(t, f.entityId, f.session);
      if units == 0.0 then earlier
      else if f.side == Buy then earlier + close(f.entityId) * (f.quantity / units)
      else earlier - close(f.entityId) * (f.quantity / units)
  }

  ghost predicate ClosesAre(d: Decision, close: EntityId -> real) {
    forall o :: o in d.orders && d.simulate(o).Some? ==> close(o.entityId) == d.simulate(o).value.decisionClose
  }

  lemma {:induction false} ShortfallOfOne(s: Step, quantity: real, units: real, close: real)
    requires StepSound(s) && s.FillStep? && s.factor == units && s.decisionClose == close
    ensures var f := FillFor(s, quantity);
            ShortfallOf(s, quantity) == -CashEffect(f) - (if s.side == Buy then close * (quantity / units) else -(close * (quantity / units)))
  {
    Redistribute(s.price, close, quantity, units);
  }

  lemma {:induction false} Redistribute(price: real, close: real, quantity: real, units: real)
    requires units > 0.0
    ensures (price - close / units) * quantity == price * quantity - close * (quantity / units)
    ensures (-1.0 * (price - close / units)) * quantity == -(price * quantity) + close * (quantity / units)
  {
    var c := close / units;
    assert c * units == close;
    var q := quantity / units;
    assert q * units == quantity;
    assert c * quantity == close * q;
  }

  /** What one fill adds to the decision cost. */
  function Worth(f: ShadowFill, units: real, close: real): real
    requires units != 0.0
  {
    if f.side == Buy then close * (f.quantity / units) else -(close * (f.quantity / units))
  }

  lemma {:induction false} ShortfallAfter(before: Progress, s: Step, after: Progress, quantity: real)
    requires StepSound(s) && s.FillStep? && quantity > 0.0 && IsRecorded(before, s, after, quantity)
    ensures after.shortfall + after.cash == before.shortfall + before.cash - Worth(FillFor(s, quantity), s.factor, s.decisionClose)
  {
    ShortfallOfOne(s, quantity, s.factor, s.decisionClose);
  }

  lemma {:induction false} OneMoreAtClose(t: seq<Step>, fills: seq<ShadowFill>, f: ShadowFill, close: EntityId -> real)
    requires CarriedTo(t, f.entityId, f.session) != 0.0
    ensures AtDecisionClose(t, fills + [f], close)
            == AtDecisionClose(t, fills, close) + Worth(f, CarriedTo(t, f.entityId, f.session), close(f.entityId))
  {
    assert (fills + [f])[..|fills|] == fills;
  }

  lemma {:induction false} StepCloses(d: Decision, i: nat, close: EntityId -> real)
    requires InputsSound(d) && i < |Timeline(d)| && Timeline(d)[i].FillStep? && ClosesAre(d, close)
    ensures var s := Timeline(d)[i];
            s.decisionClose == close(s.entityId) && s.factor == CarriedTo(Timeline(d), s.entityId, s.date) > 0.0
  {
    var o, f := FillIsInItsUnits(d, i);
    UnitsAreCarried(d, i, o.entityId);
  }

  lemma {:induction false} ShortfallAt(d: Decision, n: nat, close: EntityId -> real)
    requires InputsSound(d) && n <= |Timeline(d)| && ClosesAre(d, close)
    ensures BookAt(d, n).shortfall == d.cash - BookAt(d, n).cash - AtDecisionClose(Timeline(d), BookAt(d, n).fills, close)
    decreases n
  {
    if n > 0 {
      ShortfallAt(d, n - 1, close);
      BookSteps(d, n - 1);
      var s, before := Timeline(d)[n - 1], BookAt(d, n - 1);
      if s.FillStep? {
        var quantity := AppliedQuantity(before, s);
        FillRecorded(before, s);
        if quantity > 0.0 {
          ShortfallAfter(before, s, BookAt(d, n), quantity);
          StepCloses(d, n - 1, close);
          OneMoreAtClose(Timeline(d), before.fills, FillFor(s, quantity), close);
        }
      }
    }
  }

  /** The execution shortfall is the cash the fills took less what their decision units cost at the decision close. */
  lemma {:induction false} ShortfallIsCashOverDecisionCost(d: Decision, close: EntityId -> real)
    requires InputsSound(d) && ClosesAre(d, close)
    ensures FinalBook(d).shortfall == d.cash - FinalBook(d).cash - AtDecisionClose(Timeline(d), FinalBook(d).fills, close)
  {
    ShortfallAt(d, |Timeline(d)|, close);
    assert Timeline(d)[..|Timeline(d)|] == Timeline(d);
  }
}
