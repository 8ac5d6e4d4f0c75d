/**
 * The persisted, event-sourced order lifecycle.  The four SQLite tables are four fields; every public
 * method is one transaction, so a method that fails leaves all four as they were.
 */
module OrderStore {
  import opened Wrappers
  import opened OrderTypes
  import opened Transitions

  datatype LogRow = LogRow(orderId: Id, from: Option<OrderState>, to: OrderState, reason: string)

  datatype StatePatch = StatePatch(
    filledQty: Option<real>, avgFillPrice: Option<real>, confirmedQty: Option<real>, brokerOrderId: Option<Id>)

  const NO_PATCH := StatePatch(None, None, None, None)

  datatype StoreError = DuplicateIntent | UnknownOrder | IllegalTransition(from: OrderState, to: OrderState)

  datatype ApplyResult = ApplyResult(applied: bool, state: Option<OrderState>, reason: string, underProtected: bool)

  /** Everything the store persists, as a value. */
  datatype StoreState = StoreState(
    intents: map<Id, OrderIntent>,
    rows: map<Id, OrderRow>,
    log: seq<LogRow>,
    seen: set<Id>)

  const EMPTY_STORE := StoreState(map[], map[], [], {})

  /** A transition as the log shows it, without the order it belongs to. */
  datatype Hop = Hop(from: OrderState, to: OrderState, reason: string)

  /** What one accepted operation does to one order: its new row, and the rows it adds to the log. */
  datatype Effect = Effect(row: OrderRow, hops: seq<Hop>, result: ApplyResult)

  predicate IsReconciliation(reason: string) {
    "reconciliation:" <= reason
  }

  function Patched(row: OrderRow, to: OrderState, patch: StatePatch, at: Instant): OrderRow {
    OrderRow(
      to,
      patch.filledQty.GetOr(row.filledQty),
      patch.avgFillPrice.OrElse(row.avgFillPrice),
      patch.confirmedQty.GetOr(row.confirmedQty),
      patch.brokerOrderId.OrElse(row.brokerOrderId),
      at)
  }

  function Logged(log: seq<LogRow>, id: Id, hops: seq<Hop>): seq<LogRow>
    decreases |hops|
  {
    if hops == [] then log
    else Logged(log + [LogRow(id, Some(hops[0].from), hops[0].to, hops[0].reason)], id, hops[1..])
  }

  function WithEffect(s: StoreState, id: Id, e: Effect): StoreState {
    s.(rows := s.rows[id := e.row], log := Logged(s.log, id, e.hops))
  }

  // ---------------------------------------------------------------------------------------------
  // Specification of the three writing operations
  // ---------------------------------------------------------------------------------------------

  predicate IsPersisted(s: StoreState, intent: OrderIntent) {
    intent.clientOrderId in s.intents
    || exists id :: id in s.intents && s.intents[id].intentId == intent.intentId
  }

  function Persist(s: StoreState, intent: OrderIntent, at: Instant): Result<StoreState, StoreError> {
    if IsPersisted(s, intent) then Failure(DuplicateIntent)
    else
      var id := intent.clientOrderId;
      Success(s.(
        intents := s.intents[id := intent],
        rows := s.rows[id := OrderRow(Created, 0.0, None, 0.0, None, at)],
        log := s.log + [LogRow(id, None, Created, "intent_persisted")]))
  }

  /** The table, plus the two side conditions the table cannot express. */
  predicate MayTransition(from: OrderState, to: OrderState, reason: string, side: Side) {
    && IsLegal(from, to)
    && (from == Unknown ==> IsReconciliation(reason))
    && (from == Filled && to == Closed ==> side == Sell)
  }

  /** What a transition does to its order: the one hop, and the patched row. */
  function OneHop(row: OrderRow, to: OrderState, reason: string, patch: StatePatch, at: Instant): Effect {
    Effect(Patched(row, to, patch, at), [Hop(row.state, to, reason)], ApplyResult(true, Some(to), reason, false))
  }

  function Transition(s: StoreState, id: Id, to: OrderState, reason: string, patch: StatePatch, at: Instant)
    : Result<StoreState, StoreError>
  {
    if id !in s.rows || id !in s.intents then Failure(UnknownOrder)
    else
      var from := s.rows[id].state;
      if !MayTransition(from, to, reason, s.intents[id].side) then Failure(IllegalTransition(from, to))
      else Success(WithEffect(s, id, OneHop(s.rows[id], to, reason, patch, at)))
  }

  /** A fill whose cumulative quantity does not exceed what is already held arrived late or twice. */
  predicate IsStaleFill(row: OrderRow, cumulativeQty: real) {
    row.filledQty > 0.0 && cumulativeQty <= row.filledQty
  }

  function BrokerReason(body: EventBody): string {
    "broker_event:" + body.KindName()
  }

  /** Take the implied transition if the table allows it, else record that reconciliation is needed. */
  function Attempt(row: OrderRow, body: EventBody, to: OrderState, patch: StatePatch, at: Instant): Effect {
    var from := row.state;
    if !IsLegal(from, to) || (from == Filled && to == Closed) then
      var why := if IsTerminal(from) then "terminal_state" else "illegal_for_state";
      Effect(row, [Hop(from, from, "reconciliation_needed:" + body.KindName() + ":" + why)],
             ApplyResult(false, Some(from), "reconciliation_needed:" + why, false))
    else
      var reason := if from == Unknown then "reconciliation:" + BrokerReason(body) else BrokerReason(body);
      Effect(Patched(row, to, patch, at), [Hop(from, to, reason)], ApplyResult(true, Some(to), reason, false))
  }

  function Noop(row: OrderRow, body: EventBody, why: string, patch: StatePatch, at: Instant): Effect {
    Effect(Patched(row, row.state, patch, at),
           [Hop(row.state, row.state, "noop:" + body.KindName() + ":" + why)],
           ApplyResult(false, Some(row.state), "noop:" + why, false))
  }

  /** Broker truth wins: totals come from the event's cumulative fields, never from summing deltas. */
  function FillPatch(cumulativeQty: real, avgPrice: real): StatePatch {
    NO_PATCH.(filledQty := Some(cumulativeQty), avgFillPrice := Some(avgPrice))
  }

  function EventEffect(row: OrderRow, intent: OrderIntent, body: EventBody, at: Instant): Effect {
    match body
    case AckEvent(brokerId) =>
      var patch := NO_PATCH.(brokerOrderId := Some(brokerId));
      if row.state == Acknowledged then Noop(row, body, "already_acknowledged", patch, at)
      else if row.state != Submitting && row.state != Unknown then Noop(row, body, "stale_ack", patch, at)
      else Attempt(row, body, Acknowledged, patch, at)
    case RejectEvent => Attempt(row, body, Rejected, NO_PATCH, at)
    case PartialFillEvent(cum, avg) =>
      if IsStaleFill(row, cum) then Noop(row, body, "stale_fill_event", NO_PATCH, at)
      else Attempt(row, body, PartiallyFilled, FillPatch(cum, avg), at)
    case FillEvent(cum, avg) =>
      if IsStaleFill(row, cum) then Noop(row, body, "stale_fill_event", NO_PATCH, at)
      else
        var filled := Attempt(row, body, Filled, FillPatch(cum, avg), at);
        if filled.result.applied && intent.NeedsProtection() then
          Effect(filled.row.(state := ProtectionPending),
                 filled.hops + [Hop(Filled, ProtectionPending, "protection_requested")],
                 filled.result.(state := Some(ProtectionPending)))
        else filled
    case CancelAckEvent => Attempt(row, body, Canceled, NO_PATCH, at)
    case ProtectionAckEvent(covered) =>
      var patch := NO_PATCH.(confirmedQty := Some(covered));
      if row.state != ProtectionPending then Attempt(row, body, Protected, patch, at)
      else if covered >= row.filledQty && row.filledQty > 0.0 then Attempt(row, body, Protected, patch, at)
      else
        var e := Noop(row, body, "under_protected", patch, at);
        e.(result := e.result.(underProtected := true))
    case ProtectionRejectEvent => Attempt(row, body, ProtectionFailed, NO_PATCH, at)
    case UnknownTimeoutEvent =>
      if row.state == Unknown then Noop(row, body, "already_unknown", NO_PATCH, at)
      else Attempt(row, body, Unknown, NO_PATCH, at)
  }

  function ApplyEvent(s: StoreState, e: BrokerEvent, at: Instant): (StoreState, ApplyResult) {
    var id := e.clientOrderId;
    var current := if id in s.rows then Some(s.rows[id].state) else None;
    if e.eventId in s.seen then (s, ApplyResult(false, current, "duplicate_event", false))
    else
      var marked := s.(seen := s.seen + {e.eventId});
      if id !in s.rows || id !in s.intents then (marked, ApplyResult(false, None, "unknown_order", false))
      else
        var effect := EventEffect(s.rows[id], s.intents[id], e.body, at);
        (WithEffect(marked, id, effect), effect.result)
  }

  // ---------------------------------------------------------------------------------------------
  // The store itself
  // ---------------------------------------------------------------------------------------------

  class Store {
    var intents: map<Id, OrderIntent>
    var rows: map<Id, OrderRow>
    var log: seq<LogRow>
    var seen: set<Id>

    function Value(): StoreState
      reads this
    {
      StoreState(intents, rows, log, seen)
    }

    constructor ()
      ensures Value() == EMPTY_STORE
    {
      intents, rows, log, seen := map[], map[], [], {};
    }

    /** Persist the validated intent as CREATED.  Runs before any network side effect. */
    method PersistIntent(intent: OrderIntent, at: Instant) returns (r: Result<(), StoreError>)
      modifies this
      ensures match Persist(old(Value()), intent, at)
              case Success(s) => r == Success(()) && Value() == s
              case Failure(e) => r == Failure(e) && Value() == old(Value())
    {
      var existing := intent.clientOrderId in intents
                      || exists id :: id in intents && intents[id].intentId == intent.intentId;
      if existing {
        return Failure(DuplicateIntent);
      }
      intents := intents[intent.clientOrderId := intent];
      rows := rows[intent.clientOrderId := OrderRow(Created, 0.0, None, 0.0, None, at)];
      log := log + [LogRow(intent.clientOrderId, None, Created, "intent_persisted")];
      return Success(());
    }

    /** Check legality, then write the log row and the new state together; an illegal one writes nothing. */
    method TransitionTo(id: Id, to: OrderState, reason: string, patch: StatePatch, at: Instant)
      returns (r: Result<OrderRow, StoreError>)
      modifies this
      ensures match Transition(old(Value()), id, to, reason, patch, at)
              case Success(s) => id in s.rows && r == Success(s.rows[id]) && Value() == s
              case Failure(e) => r == Failure(e) && Value() == old(Value())
    {
      if id !in rows || id !in intents {
        return Failure(UnknownOrder);
      }
      var from := rows[id].state;
      if !IsLegal(from, to) {
        return Failure(IllegalTransition(from, to));
      }
      if from == Unknown && !IsReconciliation(reason) {
        return Failure(IllegalTransition(from, to));
      }
      if from == Filled && to == Closed && intents[id].side != Sell {
        return Failure(IllegalTransition(from, to));
      }
      PatchState(id, to, patch, at);
      AppendTransition(id, from, to, reason);
      assert log == Logged(old(log), id, [Hop(from, to, reason)]);
      return Success(rows[id]);
    }

    /** Apply a broker event exactly once. */
    method ApplyBrokerEvent(event: BrokerEvent, at: Instant) returns (r: ApplyResult)
      modifies this
      ensures (Value(), r) == ApplyEvent(old(Value()), event, at)
    {
      var id := event.clientOrderId;
      if event.eventId in seen {
        return ApplyResult(false, if id in rows then Some(rows[id].state) else None, "duplicate_event", false);
      }
      seen := seen + {event.eventId};
      if id !in rows || id !in intents {
        return ApplyResult(false, None, "unknown_order", false);
      }
      r := ApplyInTx(id, event.body, at);
    }

    method PatchState(id: Id, to: OrderState, patch: StatePatch, at: Instant)
      requires id in rows
      modifies this`rows
      ensures rows == old(rows)[id := Patched(old(rows)[id], to, patch, at)]
    {
      var row := rows[id];
      row := row.(state := to, updatedAt := at);
      if patch.filledQty.Some? { row := row.(filledQty := patch.filledQty.value); }
      if patch.avgFillPrice.Some? { row := row.(avgFillPrice := patch.avgFillPrice); }
      if patch.confirmedQty.Some? { row := row.(confirmedQty := patch.confirmedQty.value); }
      if patch.brokerOrderId.Some? { row := row.(brokerOrderId := patch.brokerOrderId); }
      rows := rows[id := row];
    }

    method AppendTransition(id: Id, from: OrderState, to: OrderState, reason: string)
      modifies this`log
      ensures log == Logged(old(log), id, [Hop(from, to, reason)])
      ensures log == old(log) + [LogRow(id, Some(from), to, reason)]
    {
      log := log + [LogRow(id, Some(from), to, reason)];
    }

    method AttemptInTx(id: Id, body: EventBody, to: OrderState, patch: StatePatch, at: Instant)
      returns (r: ApplyResult)
      requires id in rows
      modifies this`rows, this`log
      ensures var e := Attempt(old(rows)[id], body, to, patch, at);
              rows == old(rows)[id := e.row] && log == Logged(old(log), id, e.hops) && r == e.result
    {
      var from := rows[id].state;
      if !IsLegal(from, to) || (from == Filled && to == Closed) {
        var why := if IsTerminal(from) then "terminal_state" else "illegal_for_state";
        AppendTransition(id, from, from, "reconciliation_needed:" + body.KindName() + ":" + why);
        assert rows == rows[id := rows[id]];
        return ApplyResult(false, Some(from), "reconciliation_needed:" + why, false);
      }
      var reason := "broker_event:" + body.KindName();
      if from == Unknown {
        reason := "reconciliation:" + reason;
      }
      PatchState(id, to, patch, at);
      AppendTransition(id, from, to, reason);
      return ApplyResult(true, Some(to), reason, false);
    }

    method NoopInTx(id: Id, body: EventBody, why: string, patch: StatePatch, at: Instant)
      returns (r: ApplyResult)
      requires id in rows
      modifies this`rows, this`log
      ensures var e := Noop(old(rows)[id], body, why, patch, at);
              rows == old(rows)[id := e.row] && log == Logged(old(log), id, e.hops) && r == e.result
    {
      var from := rows[id].state;
      PatchState(id, from, patch, at);
      AppendTransition(id, from, from, "noop:" + body.KindName() + ":" + why);
      return ApplyResult(false, Some(from), "noop:" + why, false);
    }

    method ApplyInTx(id: Id, body: EventBody, at: Instant) returns (r: ApplyResult)
      requires id in rows && id in intents
      modifies this`rows, this`log
      ensures var e := EventEffect(old(rows)[id], intents[id], body, at);
              rows == old(rows)[id := e.row] && log == Logged(old(log), id, e.hops) && r == e.result
    {
      var row := rows[id];
      var from := row.state;
      match body {
        case AckEvent(brokerId) =>
          var patch := NO_PATCH.(brokerOrderId := Some(brokerId));
          if from == Acknowledged {
            r := NoopInTx(id, body, "already_acknowledged", patch, at);
          } else if from != Submitting && from != Unknown {
            r := NoopInTx(id, body, "stale_ack", patch, at);
          } else {
            r := AttemptInTx(id, body, Acknowledged, patch, at);
          }
        case RejectEvent =>
          r := AttemptInTx(id, body, Rejected, NO_PATCH, at);
        case PartialFillEvent(cum, avg) =>
          if IsStaleFill(row, cum) {
            r := NoopInTx(id, body, "stale_fill_event", NO_PATCH, at);
          } else {
            r := AttemptInTx(id, body, PartiallyFilled, FillPatch(cum, avg), at);
          }
        case FillEvent(cum, avg) =>
          if IsStaleFill(row, cum) {
            r := NoopInTx(id, body, "stale_fill_event", NO_PATCH, at);
          } else {
            r := ApplyFillInTx(id, body, FillPatch(cum, avg), at);
          }
        case CancelAckEvent =>
          r := AttemptInTx(id, body, Canceled, NO_PATCH, at);
        case ProtectionAckEvent(covered) =>
          var patch := NO_PATCH.(confirmedQty := Some(covered));
          if from != ProtectionPending || (covered >= row.filledQty && row.filledQty > 0.0) {
            r := AttemptInTx(id, body, Protected, patch, at);
          } else {
            r := NoopInTx(id, body, "under_protected", patch, at);
            r := r.(underProtected := true);
          }
        case ProtectionRejectEvent =>
          r := AttemptInTx(id, body, ProtectionFailed, NO_PATCH, at);
        case UnknownTimeoutEvent =>
          if from == Unknown {
            r := NoopInTx(id, body, "already_unknown", NO_PATCH, at);
          } else {
            r := AttemptInTx(id, body, Unknown, NO_PATCH, at);
          }
      }
    }

    /** A filled entry with requested protection is not done: it goes on to await confirmed coverage. */
    method ApplyFillInTx(id: Id, body: EventBody, patch: StatePatch, at: Instant) returns (r: ApplyResult)
      requires id in rows && id in intents
      requires body.FillEvent? && !IsStaleFill(rows[id], body.cumulativeQty)
      requires patch == FillPatch(body.cumulativeQty, body.avgPrice)
      modifies this`rows, this`log
      ensures var e := EventEffect(old(rows)[id], intents[id], body, at);
              rows == old(rows)[id := e.row] && log == Logged(old(log), id, e.hops) && r == e.result
    {
      ghost var filled := Attempt(rows[id], body, Filled, patch, at);
      r := AttemptInTx(id, body, Filled, patch, at);
      if !r.applied {
        return;
      }
      if intents[id].NeedsProtection() {
        PatchState(id, ProtectionPending, NO_PATCH, at);
        AppendTransition(id, Filled, ProtectionPending, "protection_requested");
        LoggedConcat(old(log), id, filled.hops, [Hop(Filled, ProtectionPending, "protection_requested")]);
        r := r.(state := Some(ProtectionPending));
      }
    }
  }

  lemma {:induction false} LoggedConcat(log: seq<LogRow>, id: Id, a: seq<Hop>, b: seq<Hop>)
    ensures Logged(log, id, a + b) == Logged(Logged(log, id, a), id, b)
    decreases |a|
  {
    if a == [] {
      assert a + b == b;
    } else {
      assert (a + b)[1..] == a[1..] + b;
      LoggedConcat(log + [LogRow(id, Some(a[0].from), a[0].to, a[0].reason)], id, a[1..], b);
    }
  }
}
