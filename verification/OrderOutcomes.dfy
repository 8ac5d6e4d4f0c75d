/**
 * Where each broker answer and each event leads, said of the stored row: what an awaited submit, cancel or reconcile
 * leaves an order in, what an event does to it, and that nothing but the broker's word ends a sent order.
 */
module OrderOutcomes {
  import opened Wrappers
  import opened OrderTypes
  import opened Transitions
  import opened OrderStore
  import opened OrderInvariants
  import opened Gateway
  import opened GatewayRuns
  import HardCaps

  // ---------------------------------------------------------------------------------------------
  // What an event does to an order
  // ---------------------------------------------------------------------------------------------

  /** Everything of a row but its state and the instant it was written at. */
  predicate SameAmounts(a: OrderRow, b: OrderRow) {
    a.filledQty == b.filledQty && a.avgFillPrice == b.avgFillPrice && a.confirmedQty == b.confirmedQty && a.brokerOrderId == b.brokerOrderId
  }

  /** An ack: a submitted or unknown order is acknowledged under the broker's id, any other keeps its state. */
  lemma {:induction false} AckOutcome(row: OrderRow, intent: OrderIntent, b: Id, at: Instant)
    ensures var after := EventEffect(row, intent, AckEvent(b), at).row;
            && after.state == (if row.state == Submitting || row.state == Unknown then Acknowledged else row.state)
            && after.brokerOrderId == Some(b) && after.filledQty == row.filledQty && after.confirmedQty == row.confirmedQty
  {
  }

  /** A reject ends an order that may still be refused; from any other state it changes nothing. */
  lemma {:induction false} RejectOutcome(row: OrderRow, intent: OrderIntent, at: Instant)
    ensures var after := EventEffect(row, intent, RejectEvent, at).row;
            && after.state == (if row.state in {Created, Validated, AwaitingApproval, Submitting, Unknown} then Rejected else row.state)
            && SameAmounts(row, after)
  {
  }

  /** A cancel acknowledgement ends an order whose cancel was asked for or whose fate is unknown, or that was never sent. */
  lemma {:induction false} CancelAckOutcome(row: OrderRow, intent: OrderIntent, at: Instant)
    ensures var after := EventEffect(row, intent, CancelAckEvent, at).row;
            && after.state == (if row.state in {AwaitingApproval, Approved, CancelPending, Unknown} then Canceled else row.state)
            && SameAmounts(row, after)
  {
  }

  /** A timeout makes every order that the broker may be working on unknown. */
  lemma {:induction false} TimeoutOutcome(row: OrderRow, intent: OrderIntent, at: Instant)
    ensures var after := EventEffect(row, intent, UnknownTimeoutEvent, at).row;
            && after.state == (if row.state in {Submitting, Acknowledged, PartiallyFilled, ProtectionPending, CancelPending, ExitPending}
                               then Unknown else row.state)
            && SameAmounts(row, after)
  {
  }

  /** Coverage counts only when it reaches the filled quantity of a positive fill; what was confirmed is recorded either way. */
  lemma {:induction false} CoverageOutcome(row: OrderRow, intent: OrderIntent, covered: real, at: Instant)
    requires row.state == ProtectionPending
    ensures var e := EventEffect(row, intent, ProtectionAckEvent(covered), at);
            && e.row.state == (if 0.0 < row.filledQty <= covered then Protected else ProtectionPending)
            && e.row.confirmedQty == covered && e.row.filledQty == row.filledQty
            && (e.result.underProtected <==> !(0.0 < row.filledQty <= covered))
  {
  }

  lemma {:induction false} CoverageRefused(row: OrderRow, intent: OrderIntent, at: Instant)
    ensures EventEffect(row, intent, ProtectionRejectEvent, at).row.state
            == if row.state == ProtectionPending then ProtectionFailed else row.state
  {
  }

  /** A fill above what is held is taken where a fill can happen; it fills the order, and a protected entry awaits coverage. */
  lemma {:induction false} FillOutcome(row: OrderRow, intent: OrderIntent, body: EventBody, at: Instant)
    requires body.IsFillLike() && (row.filledQty <= 0.0 || body.cumulativeQty > row.filledQty)
    requires row.state in {Acknowledged, PartiallyFilled, CancelPending, Unknown}
    ensures var e := EventEffect(row, intent, body, at);
            && e.row.filledQty == body.cumulativeQty && e.row.avgFillPrice == Some(body.avgPrice)
            && e.row.confirmedQty == row.confirmedQty && e.result.applied
            && e.row.state == (if body.PartialFillEvent? then PartiallyFilled
                               else if intent.side == Buy && intent.protectionStop.Some? then ProtectionPending
                               else Filled)
  {
  }

  /** A fill that does not exceed what is held, or that comes where no fill can happen, changes no state and no amount. */
  lemma {:induction false} FillIgnored(row: OrderRow, intent: OrderIntent, body: EventBody, at: Instant)
    requires body.IsFillLike()
    requires (row.filledQty > 0.0 && body.cumulativeQty <= row.filledQty)
             || row.state !in {Acknowledged, PartiallyFilled, CancelPending, Unknown, ExitPending}
    ensures var after := EventEffect(row, intent, body, at).row; after.state == row.state && SameAmounts(row, after)
  {
  }

  /** A partial fill above what is held, of an order already filled in part: the state stays, the amounts do not. */
  predicate IsFurtherFill(row: OrderRow, body: EventBody) {
    row.state == PartiallyFilled && body.PartialFillEvent? && (row.filledQty <= 0.0 || body.cumulativeQty > row.filledQty)
  }

  /** The report of an event that is no fill. */
  lemma {:induction false} OtherReports(row: OrderRow, intent: OrderIntent, body: EventBody, at: Instant)
    requires !body.IsFillLike()
    ensures var e := EventEffect(row, intent, body, at);
            e.result.state == Some(e.row.state) && (e.result.applied <==> e.row.state != row.state)
    ensures EventEffect(row, intent, body, at).result.underProtected ==> body.ProtectionAckEvent?
  {
  }

  lemma {:induction false} PartialFillReports(row: OrderRow, intent: OrderIntent, body: EventBody, at: Instant)
    requires body.PartialFillEvent?
    ensures var e := EventEffect(row, intent, body, at);
            e.result.state == Some(e.row.state) && (e.result.applied <==> e.row.state != row.state || IsFurtherFill(row, body))
    ensures !EventEffect(row, intent, body, at).result.underProtected
  {
  }

  lemma {:induction false} FillReports(row: OrderRow, intent: OrderIntent, body: EventBody, at: Instant)
    requires body.FillEvent?
    ensures var e := EventEffect(row, intent, body, at);
            e.result.state == Some(e.row.state) && (e.result.applied <==> e.row.state != row.state)
    ensures !EventEffect(row, intent, body, at).result.underProtected
  {
  }

  /** What an event reports: the state it leaves, and whether it moved the order. */
  lemma {:induction false} EventResult(row: OrderRow, intent: OrderIntent, body: EventBody, at: Instant)
    ensures var e := EventEffect(row, intent, body, at);
            && e.result.state == Some(e.row.state)
            && (e.result.applied <==> e.row.state != row.state || IsFurtherFill(row, body))
  {
    match body
    case PartialFillEvent(_, _) => PartialFillReports(row, intent, body, at);
    case FillEvent(_, _) => FillReports(row, intent, body, at);
    case _ => OtherReports(row, intent, body, at);
  }

  lemma {:induction false} CoverageReport(row: OrderRow, intent: OrderIntent, covered: real, at: Instant)
    ensures EventEffect(row, intent, ProtectionAckEvent(covered), at).result.underProtected <==>
      row.state == ProtectionPending && (row.filledQty <= 0.0 || covered < row.filledQty)
  {
  }

  /** And whether coverage fell short of a positive fill. */
  lemma {:induction false} ShortCoverageIff(row: OrderRow, intent: OrderIntent, body: EventBody, at: Instant)
    ensures EventEffect(row, intent, body, at).result.underProtected <==>
      row.state == ProtectionPending && body.ProtectionAckEvent? && (row.filledQty <= 0.0 || body.coveredQty < row.filledQty)
  {
    match body
    case ProtectionAckEvent(covered) => CoverageReport(row, intent, covered, at);
    case PartialFillEvent(_, _) => PartialFillReports(row, intent, body, at);
    case FillEvent(_, _) => FillReports(row, intent, body, at);
    case _ => OtherReports(row, intent, body, at);
  }

  /** An event seen before, or of no stored order, moves nothing and reports so. */
  lemma {:induction false} IgnoredEvent(s: StoreState, e: BrokerEvent, at: Instant)
    requires e.eventId in s.seen || e.clientOrderId !in s.rows
    ensures var (s', result) := ApplyEvent(s, e, at);
            && !result.applied && !result.underProtected && s'.rows == s.rows && s'.log == s.log && s'.intents == s.intents
            && s'.seen == s.seen + {e.eventId}
  {
    assert e.eventId in s.seen ==> s.seen + {e.eventId} == s.seen;
  }

  /** An event reaches its own order only, once: then every other row stays, and the order's row is the one above. */
  lemma {:induction false} EventReachesItsOrder(s: StoreState, e: BrokerEvent, at: Instant, other: Id)
    requires e.clientOrderId in s.rows && e.clientOrderId in s.intents && e.eventId !in s.seen
    ensures var s' := ApplyEvent(s, e, at).0;
            && s'.rows[e.clientOrderId] == EventEffect(s.rows[e.clientOrderId], s.intents[e.clientOrderId], e.body, at).row
            && (other != e.clientOrderId && other in s.rows ==> s'.rows[other] == s.rows[other])
            && e.eventId in s'.seen && ApplyEvent(s', e, at).0 == s'
  {
  }

  // ---------------------------------------------------------------------------------------------
  // What an awaited call leaves
  // ---------------------------------------------------------------------------------------------

  ghost predicate IsStored(s: StoreState, id: Id, state: OrderState) {
    id in s.rows && id in s.intents && s.rows[id].state == state
  }

  /**
   * The await of a submit: a broker acknowledgement, a refusal, and any ambiguity.  A lost response and an adapter error
   * leave the order UNKNOWN, never in a state it cannot leave.
   */
  lemma {:induction false} AwaitedSubmit(g: GatewayState, id: Id, outcome: SubmitOutcome, now: Instant)
    requires IsStored(g.store, id, Submitting)
    ensures var g' := SubmitEnd(g, id, outcome, now);
            var after := g'.store.rows[id];
            && (outcome.Accepted? ==> after.state == Acknowledged && after.brokerOrderId == Some(outcome.brokerOrderId))
            && (outcome.RefusedByBroker? ==> after.state == Rejected)
            && (outcome.ResponseLost? || outcome.AdapterError? ==> after.state == Unknown && !IsTerminal(after.state))
            && after.filledQty == g.store.rows[id].filledQty && g'.calls == g.calls
            && forall other :: other in g.store.rows && other != id ==> g'.store.rows[other] == g.store.rows[other]
  {
  }

  /** An answer that comes after an event acknowledged the order: only an ambiguity still has effect. */
  lemma {:induction false} LateSubmitOutcome(g: GatewayState, id: Id, outcome: SubmitOutcome, now: Instant)
    requires IsStored(g.store, id, Acknowledged)
    ensures var g' := SubmitEnd(g, id, outcome, now);
            if outcome.ResponseLost? || outcome.AdapterError? then g'.store.rows[id].state == Unknown else g' == g
  {
  }

  /** An intent neither of whose ids is stored yet. */
  ghost predicate IsNew(s: StoreState, intent: OrderIntent) {
    intent.clientOrderId !in s.intents && forall x :: x in s.intents ==> s.intents[x].intentId != intent.intentId
  }

  /** Everything asked of an intent before the broker is called with it. */
  predicate IsAllowed(u: Setup, intent: OrderIntent, now: Instant) {
    && intent.sleeveAccountId == u.cfg.sleeveAccountId
    && intent.clientOrderId == u.idFor(intent)
    && HardCaps.WithinCaps(u.cfg.caps, intent, now)
  }

  /** Up to the await, an allowed new intent is submitting and the broker has been called with it. */
  lemma {:induction false} AllowedIsSubmitted(u: Setup, g: GatewayState, intent: OrderIntent, now: Instant)
    requires Valid(g.store) && IsNew(g.store, intent) && IsAllowed(u, intent, now)
    ensures var g' := SubmitBegin(u.cfg, u.idFor, g, intent, now);
            && intent.clientOrderId in g'.store.rows && g'.store.rows[intent.clientOrderId].state == Submitting
            && |g'.calls| == |g.calls| + 1 && g'.calls[..|g.calls|] == g.calls && g'.calls[|g.calls|].intent == intent
  {
    var id := intent.clientOrderId;
    PersistedHistory(g.store, intent, now);
    var s1 := MovedHistory(Persist(g.store, intent, now).value, id, Validated, "guards_passed", now);
    var s2 := MovedHistory(s1, id, Approved, ApprovalReason(intent), now);
    var s3 := MovedHistory(s2, id, Submitting, "submit", now);
    assert SubmitBegin(u.cfg, u.idFor, g, intent, now) == GatewayState(s3, g.calls + [SubmitCall(intent, now, |s3.log|)]);
  }

  /** Any other new intent is stored as rejected, and the broker is not called. */
  lemma {:induction false} RefusedIsRejected(u: Setup, g: GatewayState, intent: OrderIntent, now: Instant)
    requires Valid(g.store) && IsNew(g.store, intent) && !IsAllowed(u, intent, now)
    ensures var g' := SubmitBegin(u.cfg, u.idFor, g, intent, now);
            && intent.clientOrderId in g'.store.rows && g'.store.rows[intent.clientOrderId].state == Rejected
            && g'.calls == g.calls
  {
    var id := intent.clientOrderId;
    var s0 := Persist(g.store, intent, now).value;
    PersistedIsCreated(g.store, intent, now);
    CreatedIsRejected(s0, id, REJECT_ACCOUNT, now);
    CreatedIsRejected(s0, id, REJECT_CAPS, now);
    assert SubmitBegin(u.cfg, u.idFor, g, intent, now).store == Moved(s0, id, Rejected, REJECT_ACCOUNT, NO_PATCH, now)
        || SubmitBegin(u.cfg, u.idFor, g, intent, now).store == Moved(s0, id, Rejected, REJECT_CAPS, NO_PATCH, now);
  }

  lemma {:induction false} PersistedIsCreated(s: StoreState, intent: OrderIntent, now: Instant)
    requires IsNew(s, intent)
    ensures Persist(s, intent, now).Success? && IsStored(Persist(s, intent, now).value, intent.clientOrderId, Created)
  {
  }

  /** Either way nothing is filled, covered or known of the broker yet. */
  lemma {:induction false} NewOrderIsEmpty(u: Setup, g: GatewayState, intent: OrderIntent, now: Instant)
    requires Valid(g.store) && IsNew(g.store, intent)
    ensures var g' := SubmitBegin(u.cfg, u.idFor, g, intent, now);
            intent.clientOrderId in g'.store.rows
            && SameAmounts(OrderRow(Created, 0.0, None, 0.0, None, now), g'.store.rows[intent.clientOrderId])
  {
    var id := intent.clientOrderId;
    var s0 := Persist(g.store, intent, now).value;
    MoveKeepsAmounts(s0, id, Rejected, REJECT_ACCOUNT, now);
    MoveKeepsAmounts(s0, id, Rejected, REJECT_CAPS, now);
    MoveKeepsAmounts(s0, id, Validated, "guards_passed", now);
    var s1 := Moved(s0, id, Validated, "guards_passed", NO_PATCH, now);
    MoveKeepsAmounts(s1, id, Approved, ApprovalReason(intent), now);
    var s2 := Moved(s1, id, Approved, ApprovalReason(intent), NO_PATCH, now);
    MoveKeepsAmounts(s2, id, Submitting, "submit", now);
  }

  lemma {:induction false} MoveKeepsAmounts(s: StoreState, id: Id, to: OrderState, reason: string, now: Instant)
    requires id in s.rows
    ensures id in Moved(s, id, to, reason, NO_PATCH, now).rows
    ensures SameAmounts(s.rows[id], Moved(s, id, to, reason, NO_PATCH, now).rows[id])
  {
  }

  lemma {:induction false} CreatedIsRejected(s: StoreState, id: Id, reason: string, now: Instant)
    requires IsStored(s, id, Created)
    ensures IsStored(Moved(s, id, Rejected, reason, NO_PATCH, now), id, Rejected)
  {
  }

  /** A duplicate of either id is refused before anything is written. */
  lemma {:induction false} DuplicateIsRefused(u: Setup, g: GatewayState, intent: OrderIntent, now: Instant, x: Id)
    requires x in g.store.intents && (x == intent.clientOrderId || g.store.intents[x].intentId == intent.intentId)
    ensures SubmitBegin(u.cfg, u.idFor, g, intent, now) == g
  {
  }

  /** The broker has no such order: within the grace nothing happens, after it the order is rejected. */
  lemma {:induction false} ReconcileNotFound(u: Setup, g: GatewayState, id: Id, before: OrderRow, now: Instant)
    requires IsStored(g.store, id, Unknown)
    ensures var g' := ReconcileEnd(u.cfg, g, id, before, None, now);
            if now < before.updatedAt + u.cfg.unknownGraceMs then g' == g
            else g'.store.rows[id].state == Rejected && SameAmounts(g.store.rows[id], g'.store.rows[id])
  {
  }

  /** The broker knows it: the order takes the broker's state and totals, and a filled protected entry awaits coverage. */
  lemma {:induction false} ReconcileFound(u: Setup, g: GatewayState, id: Id, before: OrderRow, broker: OrderRow, now: Instant)
    requires IsStored(g.store, id, Unknown)
    ensures var g' := ReconcileEnd(u.cfg, g, id, before, Some(broker), now);
            if broker.state !in {Acknowledged, PartiallyFilled, Filled, Rejected, Canceled} then g' == g
            else
              var after := g'.store.rows[id];
              && after.filledQty == broker.filledQty && after.confirmedQty == broker.confirmedQty
              && after.avgFillPrice == broker.avgFillPrice.OrElse(g.store.rows[id].avgFillPrice)
              && after.state == (if broker.state == Filled && g.store.intents[id].NeedsProtection() then ProtectionPending else broker.state)
  {
    assert IsReconcilable(broker.state) <==> broker.state in {Acknowledged, PartiallyFilled, Filled, Rejected, Canceled};
    if IsReconcilable(broker.state) {
      TakesBrokerState(g.store, id, broker, now);
    }
  }

  lemma {:induction false} TakesBrokerState(s: StoreState, id: Id, broker: OrderRow, now: Instant)
    requires IsStored(s, id, Unknown) && IsReconcilable(broker.state)
    ensures var r := Transition(s, id, broker.state, "reconciliation:broker_status", BrokerPatch(broker), now);
            r.Success? && r.value.rows[id] == Patched(s.rows[id], broker.state, BrokerPatch(broker), now) && r.value.intents == s.intents
  {
    PrefixIsReconciliation("broker_status");
    assert "reconciliation:" + "broker_status" == "reconciliation:broker_status";
  }

  /** A cancel before submission is local and final; of a working order it is asked for; of any other it is refused. */
  lemma {:induction false} CancelStart(g: GatewayState, id: Id, now: Instant)
    requires id in g.store.rows && id in g.store.intents
    ensures var g' := CancelBegin(g, id, now);
            match g.store.rows[id].state
            case AwaitingApproval => g'.store.rows[id].state == Canceled
            case Approved => g'.store.rows[id].state == Canceled
            case Acknowledged => g'.store.rows[id].state == CancelPending
            case PartiallyFilled => g'.store.rows[id].state == CancelPending
            case _ => g' == g
  {
  }

  /** A lost cancel response leaves the order UNKNOWN; any other answer is for the events to tell. */
  lemma {:induction false} CancelOutcome(g: GatewayState, id: Id, lost: bool, now: Instant)
    requires IsStored(g.store, id, CancelPending)
    ensures var g' := CancelEnd(g, id, lost, now);
            if lost then g'.store.rows[id].state == Unknown && SameAmounts(g.store.rows[id], g'.store.rows[id]) else g' == g
  {
  }

  // ---------------------------------------------------------------------------------------------
  // Only the broker's word ends a sent order
  // ---------------------------------------------------------------------------------------------

  predicate BeenSent(s: OrderState) {
    !s.Created? && !s.Validated? && !s.AwaitingApproval? && !s.Approved?
  }

  /** The broker said that the order is refused, or that it has no such order. */
  predicate IsRefusal(op: GatewayOp, id: Id) {
    match op
    case EndSubmitOp(i, outcome, _) => i == id && outcome.RefusedByBroker?
    case EndReconcileOp(i, _, broker, _) => i == id && (broker.None? || broker.value.state == Rejected)
    case EventArrives(e, _) => e.clientOrderId == id && e.body.RejectEvent?
    case _ => false
  }

  /** The broker said that the order is canceled. */
  predicate IsCancellation(op: GatewayOp, id: Id) {
    match op
    case EndReconcileOp(i, _, broker, _) => i == id && broker.Some? && broker.value.state == Canceled
    case EventArrives(e, _) => e.clientOrderId == id && e.body.CancelAckEvent?
    case _ => false
  }

  /** How a step may change an order that has been sent. */
  ghost predicate EndsByWord(a: OrderState, b: OrderState, op: GatewayOp, id: Id) {
    && BeenSent(b)
    && (b == Rejected && a != Rejected ==> IsRefusal(op, id))
    && (b == Canceled && a != Canceled ==> IsCancellation(op, id))
    && (b == Closed ==> a == Closed)
  }

  lemma {:induction false} MoveOfAnother(s: StoreState, id: Id, to: OrderState, reason: string, patch: StatePatch, at: Instant, other: Id)
    requires other in s.rows && other != id
    ensures other in Moved(s, id, to, reason, patch, at).rows && Moved(s, id, to, reason, patch, at).rows[other] == s.rows[other]
  {
  }

  lemma {:induction false} MoveOfThis(s: StoreState, id: Id, to: OrderState, reason: string, patch: StatePatch, at: Instant)
    requires id in s.rows
    ensures id in Moved(s, id, to, reason, patch, at).rows
    ensures var b := Moved(s, id, to, reason, patch, at).rows[id].state; b == to || b == s.rows[id].state
  {
  }

  lemma {:induction false} SubmitOfAnother(u: Setup, g: GatewayState, intent: OrderIntent, now: Instant, id: Id)
    requires Valid(g.store) && id in g.store.rows
    ensures var g' := SubmitBegin(u.cfg, u.idFor, g, intent, now); id in g'.store.rows && g'.store.rows[id] == g.store.rows[id]
  {
    if Persist(g.store, intent, now).Success? {
      var i := intent.clientOrderId;
      var s0 := Persist(g.store, intent, now).value;
      assert i !in g.store.intents && i != id;
      var s1 := Moved(s0, i, Validated, "guards_passed", NO_PATCH, now);
      var s2 := Moved(s1, i, Approved, ApprovalReason(intent), NO_PATCH, now);
      MoveOfAnother(s0, i, Rejected, REJECT_ACCOUNT, NO_PATCH, now, id);
      MoveOfAnother(s0, i, Rejected, REJECT_CAPS, NO_PATCH, now, id);
      MoveOfAnother(s0, i, Validated, "guards_passed", NO_PATCH, now, id);
      MoveOfAnother(s1, i, Approved, ApprovalReason(intent), NO_PATCH, now, id);
      MoveOfAnother(s2, i, Submitting, "submit", NO_PATCH, now, id);
    }
  }

  lemma {:induction false} EndSubmitEnds(g: GatewayState, i: Id, outcome: SubmitOutcome, now: Instant, id: Id)
    requires id in g.store.rows && BeenSent(g.store.rows[id].state)
    ensures var s' := SubmitEnd(g, i, outcome, now).store;
            id in s'.rows && EndsByWord(g.store.rows[id].state, s'.rows[id].state, EndSubmitOp(i, outcome, now), id)
  {
    if i != id {
      match outcome
      case Accepted(b) => MoveOfAnother(g.store, i, Acknowledged, "broker_ack", NO_PATCH.(brokerOrderId := Some(b)), now, id);
      case RefusedByBroker => MoveOfAnother(g.store, i, Rejected, "broker_rejected", NO_PATCH, now, id);
      case ResponseLost => MoveOfAnother(g.store, i, Unknown, "submit_response_lost", NO_PATCH, now, id);
      case AdapterError => MoveOfAnother(g.store, i, Unknown, "adapter_error", NO_PATCH, now, id);
    }
  }

  lemma {:induction false} FoundEnds(u: Setup, g: GatewayState, i: Id, before: OrderRow, broker: OrderRow, now: Instant)
    requires i in g.store.rows && BeenSent(g.store.rows[i].state)
    ensures var s' := ReconcileEnd(u.cfg, g, i, before, Some(broker), now).store;
            i in s'.rows && EndsByWord(g.store.rows[i].state, s'.rows[i].state, EndReconcileOp(i, before, Some(broker), now), i)
  {
    var r := Transition(g.store, i, broker.state, "reconciliation:broker_status", BrokerPatch(broker), now);
    if r.Success? {
      MoveOfThis(r.value, i, ProtectionPending, "protection_requested", NO_PATCH, now);
    }
  }

  lemma {:induction false} AnotherFound(u: Setup, g: GatewayState, i: Id, before: OrderRow, broker: OrderRow, now: Instant, id: Id)
    requires id in g.store.rows && i != id
    ensures var s' := ReconcileEnd(u.cfg, g, i, before, Some(broker), now).store;
            id in s'.rows && s'.rows[id] == g.store.rows[id]
  {
    var r := Transition(g.store, i, broker.state, "reconciliation:broker_status", BrokerPatch(broker), now);
    if r.Success? {
      MoveOfAnother(r.value, i, ProtectionPending, "protection_requested", NO_PATCH, now, id);
    }
  }

  lemma {:induction false} NotFoundEnds(u: Setup, g: GatewayState, i: Id, before: OrderRow, now: Instant, id: Id)
    requires id in g.store.rows && BeenSent(g.store.rows[id].state)
    ensures var s' := ReconcileEnd(u.cfg, g, i, before, None, now).store;
            id in s'.rows && EndsByWord(g.store.rows[id].state, s'.rows[id].state, EndReconcileOp(i, before, None, now), id)
  {
    if i == id {
      MoveOfThis(g.store, i, Rejected, "reconciliation:NOT_FOUND_AFTER_UNKNOWN", NO_PATCH, now);
    } else {
      MoveOfAnother(g.store, i, Rejected, "reconciliation:NOT_FOUND_AFTER_UNKNOWN", NO_PATCH, now, id);
    }
  }

  lemma {:induction false} ReconcileEnds(u: Setup, g: GatewayState, i: Id, before: OrderRow, broker: Option<OrderRow>, now: Instant, id: Id)
    requires id in g.store.rows && BeenSent(g.store.rows[id].state)
    ensures var s' := ReconcileEnd(u.cfg, g, i, before, broker, now).store;
            id in s'.rows && EndsByWord(g.store.rows[id].state, s'.rows[id].state, EndReconcileOp(i, before, broker, now), id)
  {
    match broker
    case Some(b) =>
      if i == id { FoundEnds(u, g, i, before, b, now); } else { AnotherFound(u, g, i, before, b, now, id); }
    case None => NotFoundEnds(u, g, i, before, now, id);
  }

  lemma {:induction false} CancelEnds(g: GatewayState, i: Id, lost: bool, now: Instant, id: Id)
    requires id in g.store.rows && id in g.store.intents && BeenSent(g.store.rows[id].state)
    ensures var s' := CancelBegin(g, i, now).store;
            id in s'.rows && EndsByWord(g.store.rows[id].state, s'.rows[id].state, BeginCancelOp(i, now), id)
    ensures var s' := CancelEnd(g, i, lost, now).store;
            id in s'.rows && EndsByWord(g.store.rows[id].state, s'.rows[id].state, EndCancelOp(i, lost, now), id)
  {
    if i == id {
      MoveOfThis(g.store, i, CancelPending, "cancel_requested", NO_PATCH, now);
      MoveOfThis(g.store, i, Unknown, "cancel_response_lost", NO_PATCH, now);
    } else {
      MoveOfAnother(g.store, i, Canceled, "cancel_before_submit", NO_PATCH, now, id);
      MoveOfAnother(g.store, i, CancelPending, "cancel_requested", NO_PATCH, now, id);
      MoveOfAnother(g.store, i, Unknown, "cancel_response_lost", NO_PATCH, now, id);
    }
  }

  lemma {:induction false} EventEnds(g: GatewayState, e: BrokerEvent, now: Instant, id: Id)
    requires id in g.store.rows && BeenSent(g.store.rows[id].state)
    ensures var s' := OnEvent(g, e, now).store;
            id in s'.rows && EndsByWord(g.store.rows[id].state, s'.rows[id].state, EventArrives(e, now), id)
  {
    if e.clientOrderId == id && id in g.store.intents && e.eventId !in g.store.seen {
      var row, intent := g.store.rows[id], g.store.intents[id];
      match e.body
      case AckEvent(b) => AckOutcome(row, intent, b, now);
      case RejectEvent => RejectOutcome(row, intent, now);
      case PartialFillEvent(_, _) =>
      case FillEvent(_, _) =>
      case CancelAckEvent => CancelAckOutcome(row, intent, now);
      case ProtectionAckEvent(_) =>
      case ProtectionRejectEvent => CoverageRefused(row, intent, now);
      case UnknownTimeoutEvent => TimeoutOutcome(row, intent, now);
    }
  }

  /** One step ends a sent order only by the broker's word on it, and never unsends it. */
  lemma {:induction false} StepEndsByWord(u: Setup, g: GatewayState, op: GatewayOp, id: Id)
    requires Safe(u, g) && id in g.store.rows && BeenSent(g.store.rows[id].state)
    ensures var s' := GatewayStep(u, g, op).store; id in s'.rows && EndsByWord(g.store.rows[id].state, s'.rows[id].state, op, id)
  {
    match op
    case BeginSubmitOp(intent, now) => SubmitOfAnother(u, g, intent, now, id);
    case EndSubmitOp(i, outcome, now) => EndSubmitEnds(g, i, outcome, now, id);
    case EndReconcileOp(i, before, broker, now) => ReconcileEnds(u, g, i, before, broker, now, id);
    case BeginCancelOp(i, now) => CancelEnds(g, i, false, now, id);
    case EndCancelOp(i, lost, now) => CancelEnds(g, i, lost, now, id);
    case EventArrives(e, now) => EventEnds(g, e, now, id);
  }

  /**
   * Over any run: a sent order that ends REJECTED was refused by the broker in an answer, an event or a reconcile, one
   * that ends CANCELED was canceled by it, and none is ever CLOSED.  So no ambiguous answer ends an order.
   */
  lemma {:induction false} OnlyTheBrokersWordEnds(u: Setup, g: GatewayState, ops: seq<GatewayOp>, id: Id)
    requires Safe(u, g) && id in g.store.rows && BeenSent(g.store.rows[id].state) && !IsTerminal(g.store.rows[id].state)
    ensures var s' := GatewayRun(u, g, ops).store;
            && id in s'.rows && BeenSent(s'.rows[id].state) && s'.rows[id].state != Closed
            && (s'.rows[id].state == Rejected ==> exists k :: 0 <= k < |ops| && IsRefusal(ops[k], id))
            && (s'.rows[id].state == Canceled ==> exists k :: 0 <= k < |ops| && IsCancellation(ops[k], id))
    decreases |ops|
  {
    if ops != [] {
      var g1 := GatewayStep(u, g, ops[0]);
      GatewayStepSafe(u, g, ops[0]);
      StepEndsByWord(u, g, ops[0], id);
      if IsTerminal(g1.store.rows[id].state) {
        GatewayRunEvolvesFrom(u, g1, ops[1..]);
      } else {
        OnlyTheBrokersWordEnds(u, g1, ops[1..], id);
        LaterStep(ops, id);
      }
    }
  }

  lemma {:induction false} LaterStep(ops: seq<GatewayOp>, id: Id)
    requires ops != []
    ensures (exists k :: 0 <= k < |ops[1..]| && IsRefusal(ops[1..][k], id)) ==> exists k :: 0 <= k < |ops| && IsRefusal(ops[k], id)
    ensures (exists k :: 0 <= k < |ops[1..]| && IsCancellation(ops[1..][k], id)) ==> exists k :: 0 <= k < |ops| && IsCancellation(ops[k], id)
  {
    if k :| 0 <= k < |ops[1..]| && IsRefusal(ops[1..][k], id) {
      assert IsRefusal(ops[k + 1], id);
    }
    if k :| 0 <= k < |ops[1..]| && IsCancellation(ops[1..][k], id) {
      assert IsCancellation(ops[k + 1], id);
    }
  }
}
