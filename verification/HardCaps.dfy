/** The gateway's own re-check of every hard cap: each failing check contributes its reason code. */
module HardCaps {
  import opened Wrappers
  import opened OrderTypes

  datatype CapReason =
    | AccountMismatch | LiveUnavailable | NotionalCap | QtyCap | BadQty | OrderTypeRefused
    | TifRefused | SideRefused | ExtendedHours | Fractional | StaleQuote | BadLimit

  datatype CapConfig = CapConfig(
    sleeveAccountId: Id,
    maxOrderNotional: real,
    maxOrderQty: real,
    allowedOrderTypes: set<OrderType>,
    allowedTimeInForce: set<TimeInForce>,
    allowedSides: set<Side>,
    maxQuoteAgeMs: int)

  /** The most a unit of the order can fill for: a LIMIT sell's limit is only a floor, so the bid may exceed it. */
  function ReferencePrice(intent: OrderIntent): Option<real> {
    if intent.orderType.Limit? then
      if intent.side.Sell? && intent.limitPrice.Some? then
        Some(if intent.limitPrice.value >= intent.quote.bid then intent.limitPrice.value else intent.quote.bid)
      else intent.limitPrice
    else if intent.side.Buy? then Some(intent.quote.ask)
    else Some(intent.quote.bid)
  }

  predicate IsWhole(q: real) {
    q == q.Floor as real
  }

  predicate FreshQuote(c: CapConfig, intent: OrderIntent, now: Instant) {
    0 <= now - intent.quote.at <= c.maxQuoteAgeMs
  }

  function Notional(quantity: real, price: real): real {
    quantity * price
  }

  /** Everything a sent order satisfies, said of the order itself. */
  predicate WithinCaps(c: CapConfig, intent: OrderIntent, now: Instant) {
    && intent.sleeveAccountId == c.sleeveAccountId
    && !IsLiveMode(intent.mode)
    && intent.side in c.allowedSides && intent.orderType in c.allowedOrderTypes && intent.timeInForce in c.allowedTimeInForce
    && !intent.extendedHours
    && 0.0 < intent.quantity <= c.maxOrderQty && IsWhole(intent.quantity)
    && (intent.orderType.Limit? ==> intent.limitPrice.Some? && intent.limitPrice.value > 0.0)
    && FreshQuote(c, intent, now)
    && ReferencePrice(intent).Some?
    && ReferencePrice(intent).value > 0.0
    && Notional(intent.quantity, ReferencePrice(intent).value) <= c.maxOrderNotional
  }

  predicate NoRepeats(reasons: seq<CapReason>) {
    forall i, j :: 0 <= i < j < |reasons| ==> reasons[i] != reasons[j]
  }

  /** The one reason each way of leaving `WithinCaps` is reported under. */
  predicate Breaks(c: CapConfig, intent: OrderIntent, now: Instant, r: CapReason) {
    var price := ReferencePrice(intent);
    match r
    case AccountMismatch => intent.sleeveAccountId != c.sleeveAccountId
    case LiveUnavailable => IsLiveMode(intent.mode)
    case SideRefused => intent.side !in c.allowedSides
    case OrderTypeRefused => intent.orderType !in c.allowedOrderTypes
    case TifRefused => intent.timeInForce !in c.allowedTimeInForce
    case ExtendedHours => intent.extendedHours
    case BadQty => intent.quantity <= 0.0
    case Fractional => !IsWhole(intent.quantity)
    case QtyCap => intent.quantity > c.maxOrderQty
    case StaleQuote => !FreshQuote(c, intent, now)
    case BadLimit => price.None? || price.value <= 0.0
                     || (intent.orderType.Limit? && (intent.limitPrice.None? || intent.limitPrice.value <= 0.0))
    case NotionalCap => price.Some? && price.value > 0.0 && Notional(intent.quantity, price.value) > c.maxOrderNotional
  }

  /** Add a reason unless it is already listed. */
  method Fail(reasons: seq<CapReason>, failed: bool, r: CapReason) returns (rs: seq<CapReason>)
    requires NoRepeats(reasons)
    ensures NoRepeats(rs)
    ensures forall x :: x in rs <==> x in reasons || (failed && x == r)
  {
    rs := if failed && r !in reasons then reasons + [r] else reasons;
  }

  /** The reasons listed are those of the ones checked that apply, each once. */
  ghost predicate Reports(c: CapConfig, intent: OrderIntent, now: Instant, reasons: seq<CapReason>, checked: seq<CapReason>) {
    NoRepeats(reasons) && forall r {:trigger Breaks(c, intent, now, r)} :: r in reasons <==> r in checked && Breaks(c, intent, now, r)
  }

  const ROUTING := [AccountMismatch, LiveUnavailable, SideRefused, OrderTypeRefused, TifRefused, ExtendedHours]
  const QUANTITY := [BadQty, Fractional, QtyCap]
  const PRICE := [BadLimit, StaleQuote, NotionalCap]

  /** One check. */
  method Test(c: CapConfig, intent: OrderIntent, now: Instant, ghost checked: seq<CapReason>, reasons: seq<CapReason>,
              failed: bool, r: CapReason) returns (rs: seq<CapReason>)
    requires Reports(c, intent, now, reasons, checked) && failed == Breaks(c, intent, now, r)
    ensures Reports(c, intent, now, rs, checked + [r])
  {
    rs := Fail(reasons, failed, r);
  }

  method CheckRouting(c: CapConfig, intent: OrderIntent, now: Instant) returns (reasons: seq<CapReason>)
    ensures Reports(c, intent, now, reasons, ROUTING)
  {
    reasons := [];
    ghost var checked: seq<CapReason> := [];
    reasons := Test(c, intent, now, checked, reasons, intent.sleeveAccountId != c.sleeveAccountId, AccountMismatch);
    checked := checked + [AccountMismatch];
    reasons := Test(c, intent, now, checked, reasons, IsLiveMode(intent.mode), LiveUnavailable);
    checked := checked + [LiveUnavailable];
    reasons := Test(c, intent, now, checked, reasons, intent.side !in c.allowedSides, SideRefused);
    checked := checked + [SideRefused];
    reasons := Test(c, intent, now, checked, reasons, intent.orderType !in c.allowedOrderTypes, OrderTypeRefused);
    checked := checked + [OrderTypeRefused];
    reasons := Test(c, intent, now, checked, reasons, intent.timeInForce !in c.allowedTimeInForce, TifRefused);
    checked := checked + [TifRefused];
    reasons := Test(c, intent, now, checked, reasons, intent.extendedHours, ExtendedHours);
    checked := checked + [ExtendedHours];
    assert checked == ROUTING;
  }

  method CheckQuantity(c: CapConfig, intent: OrderIntent, now: Instant, before: seq<CapReason>) returns (reasons: seq<CapReason>)
    requires Reports(c, intent, now, before, ROUTING)
    ensures Reports(c, intent, now, reasons, ROUTING + QUANTITY)
  {
    reasons := Test(c, intent, now, ROUTING, before, !(intent.quantity > 0.0), BadQty);
    reasons := Test(c, intent, now, ROUTING + [BadQty], reasons, !IsWhole(intent.quantity), Fractional);
    reasons := Test(c, intent, now, ROUTING + [BadQty] + [Fractional], reasons, intent.quantity > c.maxOrderQty, QtyCap);
    assert ROUTING + [BadQty] + [Fractional] + [QtyCap] == ROUTING + QUANTITY;
  }

  method CheckPrice(c: CapConfig, intent: OrderIntent, now: Instant, ghost checked: seq<CapReason>, before: seq<CapReason>)
    returns (reasons: seq<CapReason>)
    requires Reports(c, intent, now, before, checked)
    ensures Reports(c, intent, now, reasons, checked + PRICE)
  {
    var badLimit := intent.orderType.Limit? && !(intent.limitPrice.Some? && intent.limitPrice.value > 0.0);
    reasons := Fail(before, badLimit, BadLimit);
    var quoteAge := now - intent.quote.at;
    reasons := Fail(reasons, quoteAge < 0 || quoteAge > c.maxQuoteAgeMs, StaleQuote);
    var price := ReferencePrice(intent);
    if price.None? || !(price.value > 0.0) {
      reasons := Fail(reasons, true, BadLimit);
    } else {
      reasons := Fail(reasons, Notional(intent.quantity, price.value) > c.maxOrderNotional, NotionalCap);
    }
    PriceReported(c, intent, now, checked, before, reasons);
  }

  lemma {:induction false} PriceReported(c: CapConfig, intent: OrderIntent, now: Instant, checked: seq<CapReason>,
                                         before: seq<CapReason>, reasons: seq<CapReason>)
    requires Reports(c, intent, now, before, checked) && NoRepeats(reasons)
    requires forall x :: x in reasons <==> x in before || (x in PRICE && Breaks(c, intent, now, x))
    ensures Reports(c, intent, now, reasons, checked + PRICE)
  {
    forall r ensures r in reasons <==> r in checked + PRICE && Breaks(c, intent, now, r) {
      InEither(checked, PRICE, r);
      assert Breaks(c, intent, now, r) || !Breaks(c, intent, now, r);
    }
  }

  lemma {:induction false} InEither(a: seq<CapReason>, b: seq<CapReason>, r: CapReason)
    ensures r in a + b <==> r in a || r in b
  {
  }

  lemma {:induction false} AllAreChecked(r: CapReason)
    ensures r in ROUTING + QUANTITY + PRICE
  {
  }

  /** The verdict is the union of every failing check, each once; it is empty exactly when the order is within caps. */
  method Check(c: CapConfig, intent: OrderIntent, now: Instant) returns (ok: bool, reasons: seq<CapReason>)
    ensures ok <==> WithinCaps(c, intent, now)
    ensures ok <==> reasons == []
    ensures forall r {:trigger Breaks(c, intent, now, r)} :: r in reasons <==> Breaks(c, intent, now, r)
    ensures NoRepeats(reasons)
  {
    reasons := CheckRouting(c, intent, now);
    reasons := CheckQuantity(c, intent, now, reasons);
    reasons := CheckPrice(c, intent, now, ROUTING + QUANTITY, reasons);
    ok := |reasons| == 0;
    forall r ensures r in reasons <==> Breaks(c, intent, now, r) {
      AllAreChecked(r);
    }
    AllCapsMet(c, intent, now);
    assert reasons != [] ==> reasons[0] in reasons;
  }

  /** An order is within caps exactly when no reason applies to it. */
  lemma {:induction false} AllCapsMet(c: CapConfig, intent: OrderIntent, now: Instant)
    ensures WithinCaps(c, intent, now) <==> forall r :: !Breaks(c, intent, now, r)
  {
    if forall r :: !Breaks(c, intent, now, r) {
      assert !Breaks(c, intent, now, AccountMismatch) && !Breaks(c, intent, now, LiveUnavailable);
      assert !Breaks(c, intent, now, SideRefused) && !Breaks(c, intent, now, OrderTypeRefused) && !Breaks(c, intent, now, TifRefused);
      assert !Breaks(c, intent, now, ExtendedHours) && !Breaks(c, intent, now, BadQty) && !Breaks(c, intent, now, Fractional);
      assert !Breaks(c, intent, now, QtyCap) && !Breaks(c, intent, now, StaleQuote);
      assert !Breaks(c, intent, now, BadLimit) && !Breaks(c, intent, now, NotionalCap);
    }
  }

  /** A LIMIT sell priced below the market is still charged at the bid it would fill at. */
  lemma {:induction false} SellNotionalCoversBid(c: CapConfig, intent: OrderIntent, now: Instant)
    requires WithinCaps(c, intent, now) && intent.side.Sell?
    ensures intent.quantity * intent.quote.bid <= c.maxOrderNotional
  {
  }

  lemma {:induction false} WholeNumbersAreWhole(n: int)
    ensures IsWhole(n as real)
  {
  }

  /** What a quote's age must be. */
  lemma {:induction false} FreshIff(c: CapConfig, intent: OrderIntent, now: Instant)
    ensures FreshQuote(c, intent, now) <==> intent.quote.at <= now <= intent.quote.at + c.maxQuoteAgeMs
  {
  }

  /** An order within caps is not live, and for a whole number of shares above zero on a quote no later than now and not too old. */
  lemma {:induction false} WholeSharesOnAFreshQuote(c: CapConfig, intent: OrderIntent, now: Instant) returns (n: nat)
    requires WithinCaps(c, intent, now)
    ensures n > 0 && intent.quantity == n as real && intent.quantity <= c.maxOrderQty
    ensures intent.quote.at <= now <= intent.quote.at + c.maxQuoteAgeMs
    ensures intent.mode != LiveManual && intent.mode != LiveLimited
  {
    n := intent.quantity.Floor;
  }

  /** A MARKET buy is charged at the ask it would fill at, a LIMIT buy at the most it would pay. */
  lemma {:induction false} BuyNotionalCoversAsk(c: CapConfig, intent: OrderIntent, now: Instant)
    requires WithinCaps(c, intent, now) && intent.side.Buy?
    ensures !intent.orderType.Limit? ==> intent.quantity * intent.quote.ask <= c.maxOrderNotional
    ensures intent.orderType.Limit? ==> intent.limitPrice.Some? && intent.quantity * intent.limitPrice.value <= c.maxOrderNotional
  {
  }

  /** A price at which the order may fill: an adverse quote for MARKET, at or better than the limit for LIMIT. */
  predicate MayFillAt(intent: OrderIntent, limit: real, price: real) {
    if intent.orderType.Limit? then
      if intent.side.Buy? then price <= limit else price == limit || price == intent.quote.bid
    else price == if intent.side.Buy? then intent.quote.ask else intent.quote.bid
  }

  predicate Exceeds(c: CapConfig, intent: OrderIntent, price: real) {
    intent.quantity * price > c.maxOrderNotional
  }

  lemma {:induction false} DearerCostsMore(quantity: real, a: real, b: real)
    requires quantity > 0.0 && a <= b
    ensures quantity * a <= quantity * b
  {
    assert quantity * (b - a) >= 0.0;
  }

  /** The notional cap refuses an order exactly when some price it may fill at takes it over the cap. */
  lemma {:induction false} NotionalCapIff(c: CapConfig, intent: OrderIntent, now: Instant, limit: real)
    requires intent.quantity > 0.0 && intent.quote.bid > 0.0 && intent.quote.ask > 0.0 && limit > 0.0
    requires intent.orderType.Limit? ==> intent.limitPrice == Some(limit)
    ensures Breaks(c, intent, now, NotionalCap) <==>
      exists price :: MayFillAt(intent, limit, price) && Exceeds(c, intent, price)
  {
    var most := ReferencePrice(intent).value;
    assert MayFillAt(intent, limit, most);
    forall price | MayFillAt(intent, limit, price) ensures Exceeds(c, intent, price) ==> Exceeds(c, intent, most) {
      DearerCostsMore(intent.quantity, price, most);
    }
  }
}
