/**
 * Counterfactual fills of one sealed shadow decision: every order simulated without a cash constraint, then all
 * fills and splits applied in time order to a cash-funded, long-only book.
 *
 * The order builder and the bar simulator are taken as inputs: an order list with one order per entity, and what
 * the simulator returned for each order, in the share units of the decision session.
 */
module ShadowFills {
  import opened Wrappers
  import opened StableSort

  type EntityId = nat
  type Date = nat

  datatype Side = Buy | Sell
  datatype Order = Order(entityId: EntityId, deltaShares: real) {
    function Side(): Side {
      if deltaShares > 0.0 then Buy else Sell
    }

    function Quantity(): real {
      if deltaShares < 0.0 then -deltaShares else deltaShares
    }
  }

  datatype Split = Split(entityId: EntityId, ratio: real, exDate: Date)
  datatype SimFill = SimFill(session: Date, quantity: real, price: real, fees: real)
  datatype SimResult = SimResult(fills: seq<SimFill>, unfilled: real, decisionClose: real)
  datatype ShadowFill = ShadowFill(session: Date, entityId: EntityId, side: Side, quantity: real, price: real, fees: real)

  datatype Remainder = Cash | Liquidity | NoBars
  datatype Unfilled = Unfilled(entityId: EntityId, side: Side, remaining: real, reason: Remainder)

  datatype Decision = Decision(
    session: Date,
    /** The sealed gate verdict. */
    holdOnly: bool,
    newRiskAllowed: bool,
    cash: real,
    positions: map<EntityId, real>,
    nav: real,
    orders: seq<Order>,
    /** The entities with a target weight, and those with a price at the decision mark. */
    weighted: set<EntityId>,
    priced: set<EntityId>,
    splits: seq<Split>,
    /** The simulator's result, or nothing when there is no bar it may use. */
    simulate: Order -> Option<SimResult>)

  /** The held lines a HOLD_ONLY verdict freezes: those absent from the target. */
  function RemovedHeld(d: Decision): set<EntityId> {
    set e | e in d.positions && d.holdOnly && d.positions[e] > 0.0 && e !in d.weighted
  }

  /** Of those, the ones no order can be built for. */
  function RemovedUnpriced(d: Decision): set<EntityId> {
    RemovedHeld(d) - d.priced
  }

  function SimQuantity(f: SimFill): real {
    f.quantity
  }

  function Notional(price: real, quantity: real): real {
    price * quantity
  }

  /** What the simulator and the action parser promise of their outputs. */
  predicate SimSound(o: Order, r: SimResult) {
    && (forall f :: f in r.fills ==> f.quantity > 0.0 && f.price > 0.0 && 0.0 <= f.fees <= Notional(f.price, f.quantity))
    && r.unfilled >= 0.0
    && SumBy(r.fills, SimQuantity) + r.unfilled == o.Quantity()
  }

  ghost predicate InputsSound(d: Decision) {
    && d.cash >= 0.0
    && (forall e :: e in d.positions ==> d.positions[e] >= 0.0)
    && (forall s :: s in d.splits ==> s.ratio > 0.0)
    && (forall o :: o in d.orders ==> d.simulate(o).Some? ==> SimSound(o, d.simulate(o).value))
    && OnePerEntity(d.orders)
  }

  predicate OnePerEntity(orders: seq<Order>) {
    forall i, j :: 0 <= i < j < |orders| ==> orders[i].entityId != orders[j].entityId
  }

  // ---------------------------------------------------------------------------------------------
  // Units, gate, steps
  // ---------------------------------------------------------------------------------------------

  /** Product of one entity's split ratios strictly after `after` and at or before `at`. */
  function SplitFactor(splits: seq<Split>, entityId: EntityId, after: Date, at: Date): real
    decreases |splits|
  {
    if splits == [] then 1.0
    else
      var s := splits[|splits| - 1];
      var f := SplitFactor(splits[..|splits| - 1], entityId, after, at);
      if s.entityId == entityId && after < s.exDate <= at then f * s.ratio else f
  }

  lemma {:induction false} SplitFactorPositive(splits: seq<Split>, entityId: EntityId, after: Date, at: Date)
    requires forall s :: s in splits ==> s.ratio > 0.0
    ensures SplitFactor(splits, entityId, after, at) > 0.0
    decreases |splits|
  {
    if splits != [] {
      SplitFactorPositive(splits[..|splits| - 1], entityId, after, at);
    }
  }

  /** HOLD_ONLY freezes everything; blocked new risk cancels increases and keeps decreases. */
  predicate IsActionable(d: Decision, o: Order) {
    !d.holdOnly && (d.newRiskAllowed || o.deltaShares <= 0.0)
  }

  function Actionable(d: Decision, orders: seq<Order>): seq<Order>
    decreases |orders|
  {
    if orders == [] then []
    else
      var earlier := Actionable(d, orders[..|orders| - 1]);
      if IsActionable(d, orders[|orders| - 1]) then earlier + [orders[|orders| - 1]] else earlier
  }

  datatype Step =
    | SplitStep(date: Date, entityId: EntityId, ratio: real)
    | FillStep(date: Date, side: Side, entityId: EntityId, quantity: real, decisionUnits: real, price: real, fees: real,
               factor: real, decisionClose: real)

  /** A split before any same-day fill, sells before buys, then the entity id. */
  function StepKey(s: Step): Key {
    Key(s.date, if s.SplitStep? then 0 else if s.side == Sell then 1 else 2, s.entityId)
  }

  function FillStepOf(d: Decision, o: Order, r: SimResult, f: SimFill): Step {
    var factor := SplitFactor(d.splits, o.entityId, d.session, f.session);
    if factor == 0.0 then FillStep(f.session, o.Side(), o.entityId, 0.0, f.quantity, f.price, f.fees, factor, r.decisionClose)
    else FillStep(f.session, o.Side(), o.entityId, f.quantity * factor, f.quantity, f.price / factor, f.fees, factor, r.decisionClose)
  }

  function FillSteps(d: Decision, o: Order, r: SimResult, fills: seq<SimFill>): seq<Step>
    decreases |fills|
  {
    if fills == [] then []
    else FillSteps(d, o, r, fills[..|fills| - 1]) + [FillStepOf(d, o, r, fills[|fills| - 1])]
  }

  function StepsOf(d: Decision, o: Order): seq<Step> {
    match d.simulate(o)
    case None => []
    case Some(r) => FillSteps(d, o, r, r.fills)
  }

  function OrderSteps(d: Decision, orders: seq<Order>): seq<Step>
    decreases |orders|
  {
    if orders == [] then [] else OrderSteps(d, orders[..|orders| - 1]) + StepsOf(d, orders[|orders| - 1])
  }

  function SplitSteps(d: Decision, splits: seq<Split>): seq<Step>
    decreases |splits|
  {
    if splits == [] then []
    else
      var s := splits[|splits| - 1];
      var earlier := SplitSteps(d, splits[..|splits| - 1]);
      if s.exDate > d.session then earlier + [SplitStep(s.exDate, s.entityId, s.ratio)] else earlier
  }

  function AllSteps(d: Decision): seq<Step> {
    OrderSteps(d, Actionable(d, d.orders)) + SplitSteps(d, d.splits)
  }

  function Timeline(d: Decision): seq<Step> {
    Sort(AllSteps(d), StepKey)
  }

  predicate StepSound(s: Step) {
    match s
    case SplitStep(_, _, ratio) => ratio > 0.0
    case FillStep(_, _, _, quantity, units, price, fees, factor, _) =>
      quantity > 0.0 && price > 0.0 && 0.0 <= fees <= Notional(price, quantity) && factor > 0.0 && quantity == units * factor
  }

  // ---------------------------------------------------------------------------------------------
  // Applying the steps
  // ---------------------------------------------------------------------------------------------

  datatype Progress = Progress(
    cash: real,
    held: map<EntityId, real>,
    shortfall: real,
    applied: map<EntityId, real>,
    cashShort: set<EntityId>,
    fills: seq<ShadowFill>)

  function Of(m: map<EntityId, real>, e: EntityId): real {
    if e in m then m[e] else 0.0
  }

  function FeesOn(s: Step, quantity: real): real
    requires s.FillStep? && s.quantity > 0.0
  {
    if quantity == s.quantity then s.fees else s.fees * quantity / s.quantity
  }

  function WholeCost(s: Step): real
    requires s.FillStep?
  {
    Notional(s.price, s.quantity) + s.fees
  }

  /** What a part of the fill costs, fees pro-rated. */
  function PartCost(s: Step, n: real): real
    requires s.FillStep? && s.quantity > 0.0
  {
    Notional(s.price, n) + s.fees * n / s.quantity
  }

  function UnitCost(s: Step): real
    requires s.FillStep? && s.quantity > 0.0
  {
    WholeCost(s) / s.quantity
  }

  /** The whole fill if the cash covers it, else the whole shares the cash covers, fees pro-rated. */
  function Affordable(s: Step, cash: real): real
    requires s.FillStep? && s.quantity > 0.0
  {
    if WholeCost(s) <= cash then s.quantity
    else if UnitCost(s) == 0.0 then 0.0
    else (cash / UnitCost(s)).Floor as real
  }

  function AppliedQuantity(p: Progress, s: Step): real
    requires s.FillStep? && s.quantity > 0.0
  {
    if s.side == Buy then Affordable(s, p.cash)
    else if s.quantity > Of(p.held, s.entityId) then Of(p.held, s.entityId) else s.quantity
  }

  function FillFor(s: Step, quantity: real): ShadowFill
    requires s.FillStep? && s.quantity > 0.0
  {
    ShadowFill(s.date, s.entityId, s.side, quantity, s.price, FeesOn(s, quantity))
  }

  function Held(held: map<EntityId, real>, s: Step, quantity: real): map<EntityId, real>
    requires s.FillStep?
  {
    var e := s.entityId;
    if s.side == Buy then held[e := Of(held, e) + quantity]
    else if Of(held, e) - quantity > 0.0 then held[e := Of(held, e) - quantity]
    else held - {e}
  }

  function CashEffect(f: ShadowFill): real {
    if f.side == Buy then -(Notional(f.price, f.quantity) + f.fees) else Notional(f.price, f.quantity) - f.fees
  }

  function ShortfallOf(s: Step, quantity: real): real
    requires s.FillStep? && s.quantity > 0.0 && s.factor > 0.0
  {
    var sign := if s.side == Buy then 1.0 else -1.0;
    Notional(sign * (s.price - s.decisionClose / s.factor), quantity) + FeesOn(s, quantity)
  }

  function AfterFill(p: Progress, s: Step): Progress
    requires StepSound(s) && s.FillStep?
  {
    var q := AppliedQuantity(p, s);
    var e := s.entityId;
    var short := s.side == Buy && WholeCost(s) > p.cash;
    var p1 := if short then p.(cashShort := p.cashShort + {e}) else p;
    if q <= 0.0 then p1
    else
      p1.(cash := p.cash + CashEffect(FillFor(s, q)),
          held := Held(p.held, s, q),
          shortfall := p.shortfall + ShortfallOf(s, q),
          applied := p.applied[e := Of(p.applied, e) + (if q == s.quantity then s.decisionUnits else q / s.factor)],
          fills := p.fills + [FillFor(s, q)])
  }

  function AfterSplit(units: real, ratio: real): real {
    units * ratio
  }

  function AfterStep(p: Progress, s: Step): Progress
    requires StepSound(s)
  {
    match s
    case SplitStep(_, e, ratio) => if e in p.held then p.(held := p.held[e := AfterSplit(p.held[e], ratio)]) else p
    case FillStep(_, _, _, _, _, _, _, _, _) => AfterFill(p, s)
  }

  function AfterSteps(p: Progress, steps: seq<Step>): Progress
    requires forall s :: s in steps ==> StepSound(s)
    decreases |steps|
  {
    if steps == [] then p else AfterStep(AfterSteps(p, steps[..|steps| - 1]), steps[|steps| - 1])
  }

  function Opening(d: Decision): Progress {
    Progress(d.cash, d.positions, 0.0, map[], {}, [])
  }

  // ---------------------------------------------------------------------------------------------
  // Steps are sound
  // ---------------------------------------------------------------------------------------------

  lemma {:induction false} FillStepSound(d: Decision, o: Order, r: SimResult, f: SimFill)
    requires forall s :: s in d.splits ==> s.ratio > 0.0
    requires f.quantity > 0.0 && f.price > 0.0 && 0.0 <= f.fees <= Notional(f.price, f.quantity)
    ensures StepSound(FillStepOf(d, o, r, f))
  {
    SplitFactorPositive(d.splits, o.entityId, d.session, f.session);
    var factor := SplitFactor(d.splits, o.entityId, d.session, f.session);
    PositiveProduct(f.quantity, factor);
    PositiveQuotient(f.price, factor);
    UnitsCancel(f.price, f.quantity, factor);
  }

  lemma {:induction false} PositiveProduct(a: real, b: real)
    requires a > 0.0 && b > 0.0
    ensures a * b > 0.0
  {
  }

  lemma {:induction false} PositiveQuotient(a: real, b: real)
    requires a > 0.0 && b > 0.0
    ensures a / b > 0.0
  {
  }

  /** Notional is the same in any share units. */
  lemma {:induction false} UnitsCancel(price: real, quantity: real, factor: real)
    requires factor > 0.0
    ensures (price / factor) * (quantity * factor) == price * quantity
  {
  }

  lemma {:induction false} FillStepsSound(d: Decision, o: Order, r: SimResult, fills: seq<SimFill>)
    requires forall s :: s in d.splits ==> s.ratio > 0.0
    requires forall f :: f in fills ==> f.quantity > 0.0 && f.price > 0.0 && 0.0 <= f.fees <= Notional(f.price, f.quantity)
    ensures forall s :: s in FillSteps(d, o, r, fills) ==> StepSound(s)
    decreases |fills|
  {
    if fills != [] {
      FillStepsSound(d, o, r, fills[..|fills| - 1]);
      FillStepSound(d, o, r, fills[|fills| - 1]);
    }
  }

  lemma {:induction false} OrderStepsSound(d: Decision, orders: seq<Order>)
    requires InputsSound(d) && forall o :: o in orders ==> o in d.orders
    ensures forall s :: s in OrderSteps(d, orders) ==> StepSound(s)
    decreases |orders|
  {
    if orders != [] {
      var o := orders[|orders| - 1];
      OrderStepsSound(d, orders[..|orders| - 1]);
      assert o in d.orders;
      if d.simulate(o).Some? {
        assert SimSound(o, d.simulate(o).value);
        FillStepsSound(d, o, d.simulate(o).value, d.simulate(o).value.fills);
      }
    }
  }

  lemma {:induction false} SplitStepsSound(d: Decision, splits: seq<Split>)
    requires forall s :: s in splits ==> s.ratio > 0.0
    ensures forall s :: s in SplitSteps(d, splits) ==> StepSound(s)
    decreases |splits|
  {
    if splits != [] {
      SplitStepsSound(d, splits[..|splits| - 1]);
    }
  }

  lemma {:induction false} ActionableListed(d: Decision, orders: seq<Order>)
    ensures forall o :: o in Actionable(d, orders) <==> o in orders && IsActionable(d, o)
    decreases |orders|
  {
    if orders != [] {
      ActionableListed(d, orders[..|orders| - 1]);
      assert orders == orders[..|orders| - 1] + [orders[|orders| - 1]];
    }
  }

  lemma {:induction false} TimelineSound(d: Decision)
    requires InputsSound(d)
    ensures forall s :: s in Timeline(d) ==> StepSound(s)
  {
    ActionableListed(d, d.orders);
    OrderStepsSound(d, Actionable(d, d.orders));
    SplitStepsSound(d, d.splits);
    SortContains(AllSteps(d), StepKey);
  }

  // ---------------------------------------------------------------------------------------------
  // The clamp to cash
  // ---------------------------------------------------------------------------------------------

  lemma {:induction false} UnitCostPositive(s: Step)
    requires StepSound(s) && s.FillStep?
    ensures UnitCost(s) > 0.0
  {
    PositiveProduct(s.price, s.quantity);
    PositiveQuotient(WholeCost(s), s.quantity);
  }

  /** A part of a fill costs its share of the whole. */
  lemma {:induction false} CostOfPart(s: Step, n: real)
    requires StepSound(s) && s.FillStep?
    ensures PartCost(s, n) == n * UnitCost(s)
  {
    PartOfCost(s.price, s.fees, s.quantity, n);
  }

  lemma {:induction false} PartOfCost(price: real, fees: real, q: real, n: real)
    requires q > 0.0
    ensures fees * n / q == n * (fees / q)
    ensures n * ((price * q + fees) / q) == n * price + n * (fees / q)
  {
    var a := fees / q;
    assert fees == a * q;
    assert price * q + fees == (price + a) * q;
    assert fees * n == (n * a) * q;
  }

  lemma {:induction false} CostOfWhole(s: Step)
    requires StepSound(s) && s.FillStep?
    ensures WholeCost(s) == s.quantity * UnitCost(s)
  {
  }

  lemma {:induction false} Scaled(a: real, b: real, unit: real)
    requires unit > 0.0
    ensures a < b <==> a * unit < b * unit
  {
    if a < b {
      assert (b - a) * unit > 0.0;
    } else {
      assert (a - b) * unit >= 0.0;
    }
  }

  lemma {:induction false} QuotientBelow(x: real, unit: real, cash: real, n: int)
    requires unit > 0.0 && x * unit == cash
    ensures x < n as real <==> cash < n as real * unit
  {
    var low := n as real;
    Scaled(x, low, unit);
    assert x < low ==> x * unit < low * unit;
    assert x < low ==> cash < low * unit;
  }

  lemma {:induction false} FloorBetween(x: real, unit: real, cash: real, n: int)
    requires unit > 0.0 && x * unit == cash
    ensures x.Floor == n ==> n as real * unit <= cash < (n + 1) as real * unit
    ensures n as real * unit <= cash < (n + 1) as real * unit ==> x.Floor == n
    ensures (n + 1) as real * unit > cash ==> x.Floor <= n
  {
    QuotientBelow(x, unit, cash, n);
    QuotientBelow(x, unit, cash, n + 1);
  }

  lemma {:induction false} Quotient(cash: real, unit: real) returns (x: real)
    requires unit > 0.0
    ensures x == cash / unit && x * unit == cash
    ensures cash >= 0.0 ==> x >= 0.0
  {
    x := cash / unit;
  }

  /** What is bought when the whole fill is too dear: the most whole shares the cash covers, and fewer than ordered. */
  lemma {:induction false} AffordableIsMost(s: Step, cash: real) returns (n: nat)
    requires StepSound(s) && s.FillStep? && cash >= 0.0 && WholeCost(s) > cash
    ensures Affordable(s, cash) == Shares(n) < s.quantity && IsMostShares(s, cash, n)
  {
    UnitCostPositive(s);
    var unit := UnitCost(s);
    var x := Quotient(cash, unit);
    n := x.Floor;
    FloorBetween(x, unit, cash, n);
    CostOfWhole(s);
    Scaled(n as real, s.quantity, unit);
    MostShares(s, cash, n);
  }

  lemma {:induction false} AffordableIsLess(s: Step, cash: real)
    requires StepSound(s) && s.FillStep? && cash >= 0.0 && WholeCost(s) > cash
    ensures 0.0 <= Affordable(s, cash) < s.quantity && PartCost(s, Affordable(s, cash)) <= cash
  {
    var n := AffordableIsMost(s, cash);
    assert CostOfShares(s, n) <= cash;
  }

  /** Whole shares as a quantity. */
  function Shares(n: int): real {
    n as real
  }

  function CostOfShares(s: Step, k: int): real
    requires s.FillStep? && s.quantity > 0.0
  {
    PartCost(s, Shares(k))
  }

  /** `n` shares are covered by the cash and no greater whole number is. */
  ghost predicate IsMostShares(s: Step, cash: real, n: int)
    requires s.FillStep? && s.quantity > 0.0
  {
    CostOfShares(s, n) <= cash && forall k :: k > n ==> CostOfShares(s, k) > cash
  }

  lemma {:induction false} MostShares(s: Step, cash: real, n: int)
    requires StepSound(s) && s.FillStep?
    requires n as real * UnitCost(s) <= cash < (n + 1) as real * UnitCost(s)
    ensures IsMostShares(s, cash, n)
  {
    UnitCostPositive(s);
    CostOfPart(s, n as real);
    forall k | k > n ensures CostOfShares(s, k) > cash {
      CostOfPart(s, k as real);
      Scaled((n + 1) as real, k as real, UnitCost(s));
      Scaled(k as real, (n + 1) as real, UnitCost(s));
    }
  }

  lemma {:induction false} PositiveOrZeroQuotient(a: real, b: real)
    requires a >= 0.0 && b > 0.0
    ensures a / b >= 0.0
  {
  }

  /** The clamp loop: start at the quotient and step down while the pro-rated cost still exceeds the cash. */
  method ClampToCash(s: Step, cash: real) returns (quantity: real, fees: real)
    requires StepSound(s) && s.FillStep? && cash >= 0.0 && WholeCost(s) > cash
    ensures quantity <= 0.0 ==> Affordable(s, cash) <= 0.0
    ensures quantity > 0.0 ==> quantity == Affordable(s, cash) && fees == s.fees * quantity / s.quantity
  {
    UnitCostPositive(s);
    ghost var unit := UnitCost(s);
    ghost var x := Quotient(cash, unit);
    var n := (cash / (WholeCost(s) / s.quantity)).Floor;
    fees := s.fees;
    FloorBetween(x, unit, cash, n);
    while n > 0
      invariant (n + 1) as real * unit > cash
      decreases n
    {
      fees := s.fees * (n as real) / s.quantity;
      var cost := Notional(s.price, n as real) + fees;
      CostOfPart(s, n as real);
      if cost <= cash {
        FloorBetween(x, unit, cash, n);
        return n as real, fees;
      }
      n := n - 1;
    }
    FloorBetween(x, unit, cash, n);
    quantity := n as real;
  }

  // ---------------------------------------------------------------------------------------------
  // The fill computation itself
  // ---------------------------------------------------------------------------------------------

  datatype FillRecord = FillRecord(
    fills: seq<ShadowFill>,
    suppressedEntries: set<EntityId>,
    suppressedExits: set<EntityId>,
    unfilled: seq<Unfilled>,
    shortfall: real,
    cash: real,
    held: map<EntityId, real>)

  /** What an order has left, and why, once everything is applied. */
  function RemainderOf(d: Decision, o: Order, p: Progress): seq<Unfilled> {
    match d.simulate(o)
    case None => [Unfilled(o.entityId, o.Side(), o.Quantity(), NoBars)]
    case Some(r) =>
      var remaining := o.Quantity() - Of(p.applied, o.entityId);
      if remaining > 0.0 then
        [Unfilled(o.entityId, o.Side(), remaining,
                  if r.unfilled > 0.0 || o.entityId !in p.cashShort then Liquidity else Cash)]
      else []
  }

  function Remainders(d: Decision, orders: seq<Order>, p: Progress): seq<Unfilled>
    decreases |orders|
  {
    if orders == [] then []
    else Remainders(d, orders[..|orders| - 1], p) + RemainderOf(d, orders[|orders| - 1], p)
  }

  /** The entities among some orders that the gate stops, by direction. */
  function Stopped(d: Decision, orders: seq<Order>, increase: bool): set<EntityId> {
    set o | o in orders && !IsActionable(d, o) && (o.deltaShares > 0.0) == increase :: o.entityId
  }

  function Suppressed(d: Decision, increase: bool): set<EntityId> {
    Stopped(d, d.orders, increase)
  }

  lemma {:induction false} StoppedOneMore(d: Decision, orders: seq<Order>, o: Order, increase: bool)
    ensures Stopped(d, orders + [o], increase)
            == Stopped(d, orders, increase) + if !IsActionable(d, o) && (o.deltaShares > 0.0) == increase then {o.entityId} else {}
  {
    assert forall x :: x in orders + [o] <==> x in orders || x == o;
  }

  /** How much of a fill the book can take: a buy is clamped to its cash, a sell to its holding. */
  method ClampFill(p: Progress, s: Step) returns (quantity: real, fees: real)
    requires StepSound(s) && s.FillStep? && p.cash >= 0.0
    ensures quantity <= 0.0 ==> AppliedQuantity(p, s) <= 0.0
    ensures quantity > 0.0 ==> quantity == AppliedQuantity(p, s) && fees == FeesOn(s, quantity)
  {
    quantity, fees := s.quantity, s.fees;
    if s.side == Buy {
      if WholeCost(s) > p.cash {
        AffordableIsLess(s, p.cash);
        quantity, fees := ClampToCash(s, p.cash);
      }
    } else {
      var have := Of(p.held, s.entityId);
      if s.quantity > have {
        quantity := have;
        fees := FeesOn(s, quantity);
      }
    }
  }

  /** Apply one fill to the running book. */
  method ApplyFill(p: Progress, s: Step) returns (p': Progress)
    requires StepSound(s) && s.FillStep? && p.cash >= 0.0
    ensures p' == AfterFill(p, s)
  {
    p' := p;
    var e := s.entityId;
    if s.side == Buy && WholeCost(s) > p.cash {
      p' := p'.(cashShort := p'.cashShort + {e});
    }
    var quantity, fees := ClampFill(p, s);
    if quantity <= 0.0 {
      return;
    }
    if s.side == Buy {
      p' := p'.(cash := p.cash - (Notional(s.price, quantity) + fees), held := p.held[e := Of(p.held, e) + quantity]);
    } else {
      var left := Of(p.held, e) - quantity;
      p' := p'.(cash := p.cash + Notional(s.price, quantity) - fees, held := if left > 0.0 then p.held[e := left] else p.held - {e});
    }
    var sign := if s.side == Buy then 1.0 else -1.0;
    p' := p'.(shortfall := p.shortfall + (Notional(sign * (s.price - s.decisionClose / s.factor), quantity) + fees),
              applied := p.applied[e := Of(p.applied, e) + (if quantity == s.quantity then s.decisionUnits else quantity / s.factor)],
              fills := p.fills + [ShadowFill(s.date, e, s.side, quantity, s.price, fees)]);
  }

  /** The sealed gate verdict binds the fills: what it cancels is listed, not silently dropped. */
  method GateOrders(d: Decision) returns (actionable: seq<Order>, entries: set<EntityId>, exits: set<EntityId>)
    ensures actionable == Actionable(d, d.orders)
    ensures entries == Suppressed(d, true)
    ensures exits == Suppressed(d, false) + RemovedUnpriced(d)
  {
    entries, exits, actionable := {}, {}, [];
    for i := 0 to |d.orders|
      invariant actionable == Actionable(d, d.orders[..i])
      invariant entries == Stopped(d, d.orders[..i], true) && exits == Stopped(d, d.orders[..i], false)
    {
      var o := d.orders[i];
      assert d.orders[..i + 1] == d.orders[..i] + [o];
      assert d.orders[..i + 1][..i] == d.orders[..i];
      StoppedOneMore(d, d.orders[..i], o, true);
      StoppedOneMore(d, d.orders[..i], o, false);
      var increase := o.deltaShares > 0.0;
      if d.holdOnly || !(d.newRiskAllowed || !increase) {
        if increase {
          entries := entries + {o.entityId};
        } else {
          exits := exits + {o.entityId};
        }
      } else {
        actionable := actionable + [o];
      }
    }
    assert d.orders[..|d.orders|] == d.orders;
    exits := exits + RemovedUnpriced(d);
  }

  /** Phase 2: apply the sorted steps one by one. */
  method ApplyTimeline(d: Decision, steps: seq<Step>) returns (p: Progress)
    requires d.cash >= 0.0 && (forall e :: e in d.positions ==> d.positions[e] >= 0.0)
    requires forall s :: s in steps ==> StepSound(s)
    ensures p == AfterSteps(Opening(d), steps)
  {
    p := Opening(d);
    for i := 0 to |steps|
      invariant p == AfterSteps(Opening(d), steps[..i])
      invariant NonNegative(p)
    {
      assert steps[..i + 1][..i] == steps[..i];
      p := ApplyOne(p, steps[i]);
    }
    assert steps[..|steps|] == steps;
  }

  method ApplyOne(p: Progress, s: Step) returns (p': Progress)
    requires NonNegative(p) && StepSound(s)
    ensures p' == AfterStep(p, s) && NonNegative(p')
  {
    AfterStepNonNegative(p, s);
    if s.SplitStep? {
      p' := ApplySplit(p, s);
    } else {
      p' := ApplyFill(p, s);
    }
  }

  /** A split changes a position's units. */
  method ApplySplit(p: Progress, s: Step) returns (p': Progress)
    requires StepSound(s) && s.SplitStep?
    ensures p' == AfterStep(p, s)
  {
    p' := p;
    if s.entityId in p.held {
      p' := p.(held := p.held[s.entityId := AfterSplit(p.held[s.entityId], s.ratio)]);
    }
  }

  /** Phase 1: every order's simulated fills, in order. */
  method SimulateOrders(d: Decision, actionable: seq<Order>) returns (steps: seq<Step>)
    ensures steps == OrderSteps(d, actionable)
  {
    steps := [];
    for i := 0 to |actionable|
      invariant steps == OrderSteps(d, actionable[..i])
    {
      assert actionable[..i + 1][..i] == actionable[..i];
      steps := steps + StepsOf(d, actionable[i]);
    }
    assert actionable[..|actionable|] == actionable;
  }

  /** What each order has left once everything is applied. */
  method ListRemainders(d: Decision, actionable: seq<Order>, p: Progress) returns (unfilled: seq<Unfilled>)
    ensures unfilled == Remainders(d, actionable, p)
  {
    unfilled := [];
    for i := 0 to |actionable|
      invariant unfilled == Remainders(d, actionable[..i], p)
    {
      assert actionable[..i + 1][..i] == actionable[..i];
      unfilled := unfilled + RemainderOf(d, actionable[i], p);
    }
    assert actionable[..|actionable|] == actionable;
  }

  /** The book once every step of the timeline is applied. */
  ghost function FinalBook(d: Decision): Progress
    requires InputsSound(d)
  {
    TimelineSound(d);
    AfterSteps(Opening(d), Timeline(d))
  }

  method CounterfactualFills(d: Decision) returns (r: FillRecord)
    requires InputsSound(d)
    ensures d.nav > 0.0 ==> r.fills == FinalBook(d).fills && r.cash == FinalBook(d).cash && r.held == FinalBook(d).held
    ensures d.nav <= 0.0 ==>
              r == FillRecord([], {}, RemovedHeld(d), [], 0.0, d.cash, d.positions)
    ensures d.nav > 0.0 ==>
              && (forall s :: s in Timeline(d) ==> StepSound(s))
              && var p := AfterSteps(Opening(d), Timeline(d));
                 r == FillRecord(p.fills, Suppressed(d, true),
                                 Suppressed(d, false) + RemovedUnpriced(d),
                                 Remainders(d, Actionable(d, d.orders), p), p.shortfall, p.cash, p.held)
  {
    if d.nav <= 0.0 {
      return FillRecord([], {}, RemovedHeld(d), [], 0.0, d.cash, d.positions);
    }
    var actionable, entries, exits := GateOrders(d);

    // The fills, then the splits after the decision; sorted by time, kind and entity.
    var steps := SimulateOrders(d, actionable);
    steps := Sort(steps + SplitSteps(d, d.splits), StepKey);
    TimelineSound(d);

    var p := ApplyTimeline(d, steps);

    var unfilled := ListRemainders(d, actionable, p);
    return FillRecord(p.fills, entries, exits, unfilled, p.shortfall, p.cash, p.held);
  }

  predicate NonNegative(p: Progress) {
    p.cash >= 0.0 && forall e :: e in p.held ==> p.held[e] >= 0.0
  }

  lemma {:induction false} SellProceeds(s: Step, n: real)
    requires StepSound(s) && s.FillStep? && 0.0 <= n <= s.quantity
    ensures Notional(s.price, n) - FeesOn(s, n) >= 0.0
  {
    if n != s.quantity {
      var share := n / s.quantity;
      PositiveOrZeroQuotient(n, s.quantity);
      assert share * s.quantity == n;
      assert s.fees * n / s.quantity == s.fees * share;
      assert s.price * n == (s.price * s.quantity) * share;
      assert (s.price * s.quantity - s.fees) * share >= 0.0;
    }
  }

  lemma {:induction false} PositiveOrZeroProduct(a: real, b: real)
    requires a >= 0.0 && b > 0.0
    ensures a * b >= 0.0
  {
  }

  lemma {:induction false} AfterBuyNonNegative(p: Progress, s: Step)
    requires NonNegative(p) && StepSound(s) && s.FillStep? && s.side == Buy
    ensures NonNegative(AfterFill(p, s))
  {
    var n := Affordable(s, p.cash);
    if WholeCost(s) > p.cash {
      AffordableIsLess(s, p.cash);
    }
  }

  lemma {:induction false} AfterSellNonNegative(p: Progress, s: Step)
    requires NonNegative(p) && StepSound(s) && s.FillStep? && s.side == Sell
    ensures NonNegative(AfterFill(p, s))
  {
    SellProceeds(s, AppliedQuantity(p, s));
  }

  /** No step takes cash or a holding below zero. */
  lemma {:induction false} AfterStepNonNegative(p: Progress, s: Step)
    requires NonNegative(p) && StepSound(s)
    ensures NonNegative(AfterStep(p, s))
  {
    if s.SplitStep? {
      if s.entityId in p.held { PositiveOrZeroProduct(p.held[s.entityId], s.ratio); }
    } else if s.side == Buy {
      AfterBuyNonNegative(p, s);
    } else {
      AfterSellNonNegative(p, s);
    }
  }
}
