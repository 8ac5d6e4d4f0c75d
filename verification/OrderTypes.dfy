/** The order vocabulary of the broker gateway: states, intents, broker events and broker snapshots. */
module OrderTypes {
  import opened Wrappers

  /** Order, intent, event, account and symbol identifiers.  They are only ever compared for equality, so naturals stand for the texts. */
  type Id = nat

  /** Epoch milliseconds. */
  type Instant = int

  datatype OrderState =
    | Created | Validated | AwaitingApproval | Approved | Submitting | Unknown
    | Acknowledged | PartiallyFilled | Filled | ProtectionPending | Protected | ProtectionFailed
    | CancelPending | Canceled | Rejected | ExitPending | Closed

  datatype Side = Buy | Sell
  datatype OrderType = Limit | Market
  datatype TimeInForce = Day | Gtc
  datatype Mode = Research | Backtest | Shadow | Paper | LiveManual | LiveLimited

  predicate IsLiveMode(mode: Mode) {
    mode.LiveManual? || mode.LiveLimited?
  }

  datatype Quote = Quote(bid: real, ask: real, at: Instant)

  datatype OrderIntent = OrderIntent(
    intentId: Id,
    clientOrderId: Id,
    sleeveAccountId: Id,
    mode: Mode,
    strategyVersion: Id,
    symbol: Id,
    side: Side,
    quantity: real,
    orderType: OrderType,
    limitPrice: Option<real>,
    timeInForce: TimeInForce,
    extendedHours: bool,
    protectionStop: Option<real>,
    quote: Quote,
    approvalPresent: bool,
    decisionAt: Instant)
  {
    /** An entry that asked for a protective order: it may not rest in FILLED. */
    predicate NeedsProtection() {
      side.Buy? && protectionStop.Some?
    }
  }

  datatype EventBody =
    | AckEvent(brokerOrderId: Id)
    | RejectEvent
    | PartialFillEvent(cumulativeQty: real, avgPrice: real)
    | FillEvent(cumulativeQty: real, avgPrice: real)
    | CancelAckEvent
    | ProtectionAckEvent(coveredQty: real)
    | ProtectionRejectEvent
    | UnknownTimeoutEvent
  {
    function KindName(): string {
      match this
      case AckEvent(_) => "ack"
      case RejectEvent => "reject"
      case PartialFillEvent(_, _) => "partial_fill"
      case FillEvent(_, _) => "fill"
      case CancelAckEvent => "cancel_ack"
      case ProtectionAckEvent(_) => "protection_ack"
      case ProtectionRejectEvent => "protection_reject"
      case UnknownTimeoutEvent => "unknown_timeout"
    }

    predicate IsFillLike() {
      PartialFillEvent? || FillEvent?
    }
  }

  datatype BrokerEvent = BrokerEvent(eventId: Id, clientOrderId: Id, body: EventBody)

  /** One row of the order-states table, and equally the broker's own account of an order. */
  datatype OrderRow = OrderRow(
    state: OrderState,
    filledQty: real,
    avgFillPrice: Option<real>,
    confirmedQty: real,
    brokerOrderId: Option<Id>,
    updatedAt: Instant)
}
