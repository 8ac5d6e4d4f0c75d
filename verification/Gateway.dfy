/**
 * The only path from an order intent to a broker call.  Each asynchronous operation is modelled as the part
 * before its `await` and the part after it, so that broker events and other operations may run in between.
 */
module Gateway {
  import opened Wrappers
  import opened OrderTypes
  import opened OrderStore
  import HardCaps

  datatype GatewayConfig = GatewayConfig(sleeveAccountId: Id, caps: HardCaps.CapConfig, unknownGraceMs: int)

  /** How a broker answered a submission; a thrown error and a lost response are both ambiguous. */
  datatype SubmitOutcome = Accepted(brokerOrderId: Id) | RefusedByBroker | ResponseLost | AdapterError

  datatype GatewayError =
    | StoreFailed(error: StoreError)
    | AccountBoundaryViolation

  /** One call of the adapter's `submit`, with how long the log was when it was made. */
  datatype SubmitCall = SubmitCall(intent: OrderIntent, at: Instant, logLength: nat)

  datatype GatewayState = GatewayState(store: StoreState, calls: seq<SubmitCall>)

  datatype SubmitStart = AwaitingBroker | GuardRejected

  const REJECT_ACCOUNT := "guard:ACCOUNT_MISMATCH"
  const REJECT_CAPS := "guard:hard_caps"

  /** The guards, read as one condition on the intent. */
  predicate GuardsPass(cfg: GatewayConfig, idFor: OrderIntent -> Id, intent: OrderIntent, now: Instant) {
    intent.clientOrderId == idFor(intent) && HardCaps.WithinCaps(cfg.caps, intent, now)
  }

  predicate IsReconcilable(s: OrderState) {
    s.Acknowledged? || s.PartiallyFilled? || s.Filled? || s.Rejected? || s.Canceled?
  }

  function BrokerPatch(broker: OrderRow): StatePatch {
    StatePatch(Some(broker.filledQty), broker.avgFillPrice, Some(broker.confirmedQty), broker.brokerOrderId)
  }

  /** The state after an accepted transition, or the same state when it throws. */
  function Moved(s: StoreState, id: Id, to: OrderState, reason: string, patch: StatePatch, at: Instant): StoreState {
    match Transition(s, id, to, reason, patch, at)
    case Success(s') => s'
    case Failure(_) => s
  }

  // ---------------------------------------------------------------------------------------------
  // Specification of the half-steps
  // ---------------------------------------------------------------------------------------------

  function SubmitBegin(cfg: GatewayConfig, idFor: OrderIntent -> Id, g: GatewayState, intent: OrderIntent, now: Instant)
    : GatewayState
  {
    var id := intent.clientOrderId;
    match Persist(g.store, intent, now)
    case Failure(_) => g
    case Success(s0) =>
      if intent.sleeveAccountId != cfg.sleeveAccountId then
        g.(store := Moved(s0, id, Rejected, REJECT_ACCOUNT, NO_PATCH, now))
      else if !GuardsPass(cfg, idFor, intent, now) then
        g.(store := Moved(s0, id, Rejected, REJECT_CAPS, NO_PATCH, now))
      else
        var s1 := Moved(s0, id, Validated, "guards_passed", NO_PATCH, now);
        var s2 := Moved(s1, id, Approved, ApprovalReason(intent), NO_PATCH, now);
        var s3 := Moved(s2, id, Submitting, "submit", NO_PATCH, now);
        GatewayState(s3, g.calls + [SubmitCall(intent, now, |s3.log|)])
  }

  function ApprovalReason(intent: OrderIntent): string {
    if intent.approvalPresent then "approval_present" else "auto_approved:non_live_mode"
  }

  function SubmitEnd(g: GatewayState, id: Id, outcome: SubmitOutcome, now: Instant): GatewayState {
    g.(store :=
         match outcome
         case Accepted(b) => Moved(g.store, id, Acknowledged, "broker_ack", NO_PATCH.(brokerOrderId := Some(b)), now)
         case RefusedByBroker => Moved(g.store, id, Rejected, "broker_rejected", NO_PATCH, now)
         case ResponseLost => Moved(g.store, id, Unknown, "submit_response_lost", NO_PATCH, now)
         case AdapterError => Moved(g.store, id, Unknown, "adapter_error", NO_PATCH, now))
  }

  /** `before` is the snapshot the first half read; it was UNKNOWN then, but need not be any more. */
  function ReconcileEnd(cfg: GatewayConfig, g: GatewayState, id: Id, before: OrderRow, broker: Option<OrderRow>, now: Instant)
    : GatewayState
  {
    if broker.None? then
      if now - before.updatedAt < cfg.unknownGraceMs then g
      else g.(store := Moved(g.store, id, Rejected, "reconciliation:NOT_FOUND_AFTER_UNKNOWN", NO_PATCH, now))
    else if !IsReconcilable(broker.value.state) then g
    else
      match Transition(g.store, id, broker.value.state, "reconciliation:broker_status", BrokerPatch(broker.value), now)
      case Failure(_) => g
      case Success(s) =>
        if broker.value.state == Filled && id in s.intents && s.intents[id].NeedsProtection() then
          g.(store := Moved(s, id, ProtectionPending, "protection_requested", NO_PATCH, now))
        else g.(store := s)
  }

  function CancelBegin(g: GatewayState, id: Id, now: Instant): GatewayState {
    if id in g.store.rows && (g.store.rows[id].state == AwaitingApproval || g.store.rows[id].state == Approved) then
      g.(store := Moved(g.store, id, Canceled, "cancel_before_submit", NO_PATCH, now))
    else
      g.(store := Moved(g.store, id, CancelPending, "cancel_requested", NO_PATCH, now))
  }

  function CancelEnd(g: GatewayState, id: Id, responseLost: bool, now: Instant): GatewayState {
    if responseLost then g.(store := Moved(g.store, id, Unknown, "cancel_response_lost", NO_PATCH, now)) else g
  }

  function OnEvent(g: GatewayState, event: BrokerEvent, now: Instant): GatewayState {
    g.(store := ApplyEvent(g.store, event, now).0)
  }

  // ---------------------------------------------------------------------------------------------
  // The gateway
  // ---------------------------------------------------------------------------------------------

  datatype ReconcileResult = ReconcileResult(state: OrderState, changed: bool, haltNewRisk: bool)

  class OrderGateway {
    const cfg: GatewayConfig
    /** The deterministic client order id of an intent. */
    const idFor: OrderIntent -> Id
    const store: Store
    /** The calls made to the adapter's `submit`, oldest first. */
    var calls: seq<SubmitCall>

    function Value(): GatewayState
      reads this, store
    {
      GatewayState(store.Value(), calls)
    }

    constructor (cfg: GatewayConfig, idFor: OrderIntent -> Id, store: Store)
      ensures this.cfg == cfg && this.idFor == idFor && this.store == store
      ensures Value() == GatewayState(store.Value(), [])
    {
      this.cfg, this.idFor, this.store, this.calls := cfg, idFor, store, [];
    }

    /** `submit` up to its await: persist, guard, approve, and make the one broker call. */
    method BeginSubmit(intent: OrderIntent, now: Instant) returns (r: Result<SubmitStart, GatewayError>)
      modifies this, store
      ensures Value() == SubmitBegin(cfg, idFor, old(Value()), intent, now)
      ensures r == Success(AwaitingBroker) <==> calls != old(calls)
      ensures r.Failure? && r.error.StoreFailed? ==> Value() == old(Value())
    {
      var id := intent.clientOrderId;
      var persisted := store.PersistIntent(intent, now);
      if persisted.Failure? {
        return Failure(StoreFailed(persisted.error));
      }
      if intent.sleeveAccountId != cfg.sleeveAccountId {
        var _ := store.TransitionTo(id, Rejected, REJECT_ACCOUNT, NO_PATCH, now);
        return Failure(AccountBoundaryViolation);
      }
      var idMatches := id == idFor(intent);
      var ok, _ := HardCaps.Check(cfg.caps, intent, now);
      if !idMatches || !ok {
        var _ := store.TransitionTo(id, Rejected, REJECT_CAPS, NO_PATCH, now);
        return Success(GuardRejected);
      }
      var _ := store.TransitionTo(id, Validated, "guards_passed", NO_PATCH, now);
      var _ := store.TransitionTo(id, Approved, ApprovalReason(intent), NO_PATCH, now);
      var _ := store.TransitionTo(id, Submitting, "submit", NO_PATCH, now);
      calls := calls + [SubmitCall(intent, now, |store.log|)];
      return Success(AwaitingBroker);
    }

    /** `submit` after its await.  An event that arrived meanwhile may make the transition illegal: it throws, and writes nothing. */
    method EndSubmit(id: Id, outcome: SubmitOutcome, now: Instant) returns (r: Result<OrderRow, StoreError>)
      modifies store
      ensures Value() == SubmitEnd(old(Value()), id, outcome, now)
      ensures r.Failure? ==> Value() == old(Value())
    {
      match outcome {
        case Accepted(b) => r := store.TransitionTo(id, Acknowledged, "broker_ack", NO_PATCH.(brokerOrderId := Some(b)), now);
        case RefusedByBroker => r := store.TransitionTo(id, Rejected, "broker_rejected", NO_PATCH, now);
        case ResponseLost => r := store.TransitionTo(id, Unknown, "submit_response_lost", NO_PATCH, now);
        case AdapterError => r := store.TransitionTo(id, Unknown, "adapter_error", NO_PATCH, now);
      }
    }

    /** `reconcile` up to its await: only an UNKNOWN order asks the broker. */
    method BeginReconcile(id: Id) returns (r: Result<Option<OrderRow>, StoreError>)
      ensures r == if id !in store.rows then Failure(UnknownOrder)
                   else if store.rows[id].state == Unknown then Success(Some(store.rows[id]))
                   else Success(None)
    {
      if id !in store.rows {
        return Failure(UnknownOrder);
      }
      var snap := store.rows[id];
      if snap.state != Unknown {
        return Success(None);
      }
      return Success(Some(snap));
    }

    /** `reconcile` after its await, against broker truth.  Never resubmits. */
    method EndReconcile(id: Id, before: OrderRow, broker: Option<OrderRow>, now: Instant)
      returns (r: Result<ReconcileResult, StoreError>)
      modifies store
      ensures Value() == ReconcileEnd(cfg, old(Value()), id, before, broker, now)
      ensures r.Success? && r.value.changed ==> id in store.rows && store.rows[id].state == r.value.state
      ensures r.Failure? || !r.value.changed ==> Value() == old(Value())
    {
      if broker.None? {
        var age := now - before.updatedAt;
        if age < cfg.unknownGraceMs {
          return Success(ReconcileResult(before.state, false, false));
        }
        var moved := store.TransitionTo(id, Rejected, "reconciliation:NOT_FOUND_AFTER_UNKNOWN", NO_PATCH, now);
        if moved.Failure? {
          return Failure(moved.error);
        }
        return Success(ReconcileResult(Rejected, true, true));
      }
      if !IsReconcilable(broker.value.state) {
        return Success(ReconcileResult(before.state, false, true));
      }
      var moved := store.TransitionTo(id, broker.value.state, "reconciliation:broker_status", BrokerPatch(broker.value), now);
      if moved.Failure? {
        return Failure(moved.error);
      }
      var after := moved.value;
      if after.state == Filled && id in store.intents && store.intents[id].NeedsProtection() {
        var requested := store.TransitionTo(id, ProtectionPending, "protection_requested", NO_PATCH, now);
        if requested.Success? {
          after := requested.value;
        }
      }
      return Success(ReconcileResult(after.state, true, false));
    }

    /** `cancel` up to its await: local before submission, CANCEL_PENDING after it. */
    method BeginCancel(id: Id, now: Instant) returns (r: Result<OrderRow, StoreError>)
      modifies store
      ensures Value() == CancelBegin(old(Value()), id, now)
      ensures r.Failure? ==> Value() == old(Value())
    {
      if id !in store.rows {
        return Failure(UnknownOrder);
      }
      var snap := store.rows[id];
      if snap.state == AwaitingApproval || snap.state == Approved {
        r := store.TransitionTo(id, Canceled, "cancel_before_submit", NO_PATCH, now);
      } else {
        r := store.TransitionTo(id, CancelPending, "cancel_requested", NO_PATCH, now);
      }
    }

    /** `cancel` after its await. */
    method EndCancel(id: Id, responseLost: bool, now: Instant) returns (r: Result<OrderRow, StoreError>)
      modifies store
      ensures Value() == CancelEnd(old(Value()), id, responseLost, now)
      ensures r.Failure? ==> Value() == old(Value())
    {
      if responseLost {
        r := store.TransitionTo(id, Unknown, "cancel_response_lost", NO_PATCH, now);
        return;
      }
      if id !in store.rows {
        return Failure(UnknownOrder);
      }
      return Success(store.rows[id]);
    }

    method OnBrokerEvent(event: BrokerEvent, now: Instant) returns (r: ApplyResult)
      modifies store
      ensures Value() == OnEvent(old(Value()), event, now)
      ensures r == ApplyEvent(old(store.Value()), event, now).1
    {
      r := store.ApplyBrokerEvent(event, now);
    }
  }
}
