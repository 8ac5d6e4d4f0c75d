/** What holds in every run of the gateway, whatever broker events arrive between the halves of its operations. */
module GatewayRuns {
  import opened Wrappers
  import opened OrderTypes
  import opened Transitions
  import opened OrderStore
  import opened OrderInvariants
  import opened Gateway

  /**
   * One atomic stretch of gateway work.  Nothing forces an end to follow its own begin, so every schedule the
   * event loop can produce is among the runs, a half whose process died included.
   */
  datatype GatewayOp =
    | BeginSubmitOp(intent: OrderIntent, now: Instant)
    | EndSubmitOp(id: Id, outcome: SubmitOutcome, now: Instant)
    | EndReconcileOp(id: Id, before: OrderRow, broker: Option<OrderRow>, now: Instant)
    | BeginCancelOp(id: Id, now: Instant)
    | EndCancelOp(id: Id, responseLost: bool, now: Instant)
    | EventArrives(event: BrokerEvent, now: Instant)

  datatype Setup = Setup(cfg: GatewayConfig, idFor: OrderIntent -> Id)

  function GatewayStep(u: Setup, g: GatewayState, op: GatewayOp): GatewayState {
    match op
    case BeginSubmitOp(intent, now) => SubmitBegin(u.cfg, u.idFor, g, intent, now)
    case EndSubmitOp(id, outcome, now) => SubmitEnd(g, id, outcome, now)
    case EndReconcileOp(id, before, broker, now) => ReconcileEnd(u.cfg, g, id, before, broker, now)
    case BeginCancelOp(id, now) => CancelBegin(g, id, now)
    case EndCancelOp(id, lost, now) => CancelEnd(g, id, lost, now)
    case EventArrives(event, now) => OnEvent(g, event, now)
  }

  function GatewayRun(u: Setup, g: GatewayState, ops: seq<GatewayOp>): GatewayState
    decreases |ops|
  {
    if ops == [] then g else GatewayRun(u, GatewayStep(u, g, ops[0]), ops[1..])
  }

  const FRESH := GatewayState(EMPTY_STORE, [])

  // ---------------------------------------------------------------------------------------------
  // Invariants
  // ---------------------------------------------------------------------------------------------

  /** Coverage: PROTECTED means the broker confirmed at least the filled quantity; a protected entry never rests in FILLED. */
  predicate RowSafe(row: OrderRow, intent: OrderIntent) {
    && (row.state == Protected ==> 0.0 < row.filledQty <= row.confirmedQty)
    && (row.state == Filled ==> !intent.NeedsProtection())
  }

  ghost predicate RowsSafe(s: StoreState) {
    forall id :: id in s.rows && id in s.intents ==> RowSafe(s.rows[id], s.intents[id])
  }

  predicate IsSubmitTrail(h: seq<LogRow>) {
    |h| == 4 && h[0].to == Created && h[1].to == Validated && h[2].to == Approved && h[3].to == Submitting
  }

  /** Everything that was true of an intent when the broker was called with it. */
  predicate CallSound(u: Setup, s: StoreState, c: SubmitCall) {
    var id := c.intent.clientOrderId;
    && id in s.intents && s.intents[id] == c.intent
    && c.intent.sleeveAccountId == u.cfg.sleeveAccountId
    && GuardsPass(u.cfg, u.idFor, c.intent, c.at)
    && c.logLength <= |s.log|
    && IsSubmitTrail(History(s.log[..c.logLength], id))
  }

  ghost predicate CallsSound(u: Setup, g: GatewayState) {
    forall c :: c in g.calls ==> CallSound(u, g.store, c)
  }

  predicate CalledOnce(calls: seq<SubmitCall>) {
    forall i, j :: 0 <= i < j < |calls| ==>
      calls[i].intent.clientOrderId != calls[j].intent.clientOrderId && calls[i].intent.intentId != calls[j].intent.intentId
  }

  ghost predicate Safe(u: Setup, g: GatewayState) {
    Valid(g.store) && RowsSafe(g.store) && CallsSound(u, g) && CalledOnce(g.calls)
  }

  // ---------------------------------------------------------------------------------------------
  // One store operation inside the gateway
  // ---------------------------------------------------------------------------------------------

  lemma {:induction false} MovedKeeps(s: StoreState, id: Id, to: OrderState, reason: string, patch: StatePatch, at: Instant)
    requires Valid(s)
    ensures Valid(Moved(s, id, to, reason, patch, at)) && Evolves(s, Moved(s, id, to, reason, patch, at))
  {
    StoreStepKeeps(s, TransitionOp(id, to, reason, patch, at));
    EvolvesReflexive(s);
  }

  /** A move touches the one order's row, and only as the patch says. */
  lemma {:induction false} MovedRows(s: StoreState, id: Id, to: OrderState, reason: string, patch: StatePatch, at: Instant)
    ensures var s' := Moved(s, id, to, reason, patch, at);
            && s'.intents == s.intents
            && (s' == s || (id in s.rows && s'.rows == s.rows[id := Patched(s.rows[id], to, patch, at)]))
  {
  }

  /** The gateway itself only ever moves an order to states that need no coverage. */
  lemma {:induction false} MovedKeepsRowsSafe(s: StoreState, id: Id, to: OrderState, reason: string, patch: StatePatch, at: Instant)
    requires Valid(s) && RowsSafe(s)
    requires to != Protected && to != Filled
    ensures RowsSafe(Moved(s, id, to, reason, patch, at))
  {
  }

  lemma {:induction false} CallsStaySound(u: Setup, g: GatewayState, s': StoreState)
    requires CallsSound(u, g) && Evolves(g.store, s')
    ensures CallsSound(u, g.(store := s'))
  {
    forall c | c in g.calls ensures CallSound(u, s', c) {
      assert CallSound(u, g.store, c);
      assert s'.log[..c.logLength] == g.store.log[..c.logLength];
    }
  }

  lemma {:induction false} AttemptRowSafe(row: OrderRow, intent: OrderIntent, body: EventBody, to: OrderState, patch: StatePatch, at: Instant)
    requires RowSafe(row, intent) && to != Protected && to != Filled
    ensures RowSafe(Attempt(row, body, to, patch, at).row, intent)
  {
  }

  lemma {:induction false} FillKeepsRowSafe(row: OrderRow, intent: OrderIntent, body: EventBody, at: Instant)
    requires RowSafe(row, intent) && body.FillEvent?
    ensures RowSafe(EventEffect(row, intent, body, at).row, intent)
  {
  }

  lemma {:induction false} CoverageKeepsRowSafe(row: OrderRow, intent: OrderIntent, body: EventBody, at: Instant)
    requires RowSafe(row, intent) && body.ProtectionAckEvent?
    ensures RowSafe(EventEffect(row, intent, body, at).row, intent)
  {
  }

  lemma {:induction false} EventKeepsRowSafe(row: OrderRow, intent: OrderIntent, body: EventBody, at: Instant)
    requires RowSafe(row, intent)
    ensures RowSafe(EventEffect(row, intent, body, at).row, intent)
  {
    match body
    case AckEvent(brokerId) => AttemptRowSafe(row, intent, body, Acknowledged, NO_PATCH.(brokerOrderId := Some(brokerId)), at);
    case RejectEvent => AttemptRowSafe(row, intent, body, Rejected, NO_PATCH, at);
    case PartialFillEvent(cum, avg) => AttemptRowSafe(row, intent, body, PartiallyFilled, FillPatch(cum, avg), at);
    case FillEvent(_, _) => FillKeepsRowSafe(row, intent, body, at);
    case CancelAckEvent => AttemptRowSafe(row, intent, body, Canceled, NO_PATCH, at);
    case ProtectionAckEvent(_) => CoverageKeepsRowSafe(row, intent, body, at);
    case ProtectionRejectEvent => AttemptRowSafe(row, intent, body, ProtectionFailed, NO_PATCH, at);
    case UnknownTimeoutEvent => AttemptRowSafe(row, intent, body, Unknown, NO_PATCH, at);
  }

  lemma {:induction false} EventKeeps(u: Setup, g: GatewayState, event: BrokerEvent, now: Instant)
    requires Safe(u, g)
    ensures Safe(u, OnEvent(g, event, now))
  {
    var s, s' := g.store, ApplyEvent(g.store, event, now).0;
    StoreStepKeeps(s, EventOp(event, now));
    CallsStaySound(u, g, s');
    var id := event.clientOrderId;
    if event.eventId !in s.seen && id in s.rows {
      EventKeepsRowSafe(s.rows[id], s.intents[id], event.body, now);
    }
  }

  // ---------------------------------------------------------------------------------------------
  // The half-steps
  // ---------------------------------------------------------------------------------------------

  lemma {:induction false} MovedSafe(u: Setup, g: GatewayState, id: Id, to: OrderState, reason: string, patch: StatePatch, at: Instant)
    returns (g': GatewayState)
    requires Safe(u, g) && to != Protected && to != Filled
    ensures g' == g.(store := Moved(g.store, id, to, reason, patch, at))
    ensures Safe(u, g') && g'.store.intents == g.store.intents
  {
    g' := g.(store := Moved(g.store, id, to, reason, patch, at));
    MovedKeeps(g.store, id, to, reason, patch, at);
    MovedRows(g.store, id, to, reason, patch, at);
    MovedKeepsRowsSafe(g.store, id, to, reason, patch, at);
    CallsStaySound(u, g, g'.store);
  }

  lemma {:induction false} ReconcileSafe(u: Setup, g: GatewayState, id: Id, before: OrderRow, broker: Option<OrderRow>, now: Instant)
    requires Safe(u, g)
    ensures Safe(u, ReconcileEnd(u.cfg, g, id, before, broker, now))
  {
    if broker.None? {
      var _ := MovedSafe(u, g, id, Rejected, "reconciliation:NOT_FOUND_AFTER_UNKNOWN", NO_PATCH, now);
    } else if IsReconcilable(broker.value.state) {
      var reason, patch := "reconciliation:broker_status", BrokerPatch(broker.value);
      if broker.value.state != Filled {
        var _ := MovedSafe(u, g, id, broker.value.state, reason, patch, now);
      } else if Transition(g.store, id, Filled, reason, patch, now).Success? {
        ReconcileFilledSafe(u, g, id, before, broker.value, now);
      }
    }
  }

  /** The two store transactions of a reconcile to FILLED: a protected entry goes on to PROTECTION_PENDING at once. */
  function ReconciledFilled(s: StoreState, id: Id, patch: StatePatch, now: Instant): StoreState
    requires id in s.rows && id in s.intents
  {
    var s1 := Moved(s, id, Filled, "reconciliation:broker_status", patch, now);
    if s.intents[id].NeedsProtection() then Moved(s1, id, ProtectionPending, "protection_requested", NO_PATCH, now) else s1
  }

  lemma {:induction false} ReconciledFilledKeeps(s: StoreState, id: Id, patch: StatePatch, now: Instant)
    requires Valid(s) && id in s.rows
    ensures Valid(ReconciledFilled(s, id, patch, now)) && Evolves(s, ReconciledFilled(s, id, patch, now))
  {
    var s1 := Moved(s, id, Filled, "reconciliation:broker_status", patch, now);
    MovedKeeps(s, id, Filled, "reconciliation:broker_status", patch, now);
    var s2 := FurtherMoved(s, s1, id, ProtectionPending, "protection_requested", now);
  }

  lemma {:induction false} ReconciledFilledRowsSafe(s: StoreState, id: Id, patch: StatePatch, now: Instant)
    requires id in s.rows && id in s.intents && RowsSafe(s)
    requires Transition(s, id, Filled, "reconciliation:broker_status", patch, now).Success?
    ensures RowsSafe(ReconciledFilled(s, id, patch, now))
  {
  }

  lemma {:induction false} ReconcileFilledSafe(u: Setup, g: GatewayState, id: Id, before: OrderRow, broker: OrderRow, now: Instant)
    requires Safe(u, g) && broker.state == Filled
    requires Transition(g.store, id, Filled, "reconciliation:broker_status", BrokerPatch(broker), now).Success?
    ensures Safe(u, ReconcileEnd(u.cfg, g, id, before, Some(broker), now))
  {
    var s' := ReconciledFilled(g.store, id, BrokerPatch(broker), now);
    assert ReconcileEnd(u.cfg, g, id, before, Some(broker), now) == g.(store := s');
    ReconciledFilledKeeps(g.store, id, BrokerPatch(broker), now);
    ReconciledFilledRowsSafe(g.store, id, BrokerPatch(broker), now);
    CallsStaySound(u, g, s');
  }

  lemma {:induction false} SubmitSafe(u: Setup, g: GatewayState, intent: OrderIntent, now: Instant)
    requires Safe(u, g)
    ensures Safe(u, SubmitBegin(u.cfg, u.idFor, g, intent, now))
  {
    var id := intent.clientOrderId;
    if Persist(g.store, intent, now).Success? {
      var s0 := Persist(g.store, intent, now).value;
      PersistKeeps(g.store, intent, now);
      CallsStaySound(u, g, s0);
      var g0 := g.(store := s0);
      assert Safe(u, g0);
      var _ := MovedSafe(u, g0, id, Rejected, REJECT_ACCOUNT, NO_PATCH, now);
      var _ := MovedSafe(u, g0, id, Rejected, REJECT_CAPS, NO_PATCH, now);
      if intent.sleeveAccountId == u.cfg.sleeveAccountId && GuardsPass(u.cfg, u.idFor, intent, now) {
        SubmitCallSafe(u, g, intent, now);
      }
    }
  }

  lemma {:induction false} PersistedHistory(s: StoreState, intent: OrderIntent, now: Instant)
    requires Valid(s) && Persist(s, intent, now).Success?
    ensures var id, s0 := intent.clientOrderId, Persist(s, intent, now).value;
            id in s0.rows && id in s0.intents && s0.intents[id] == intent && s0.rows[id].state == Created
            && History(s0.log, id) == [LogRow(id, None, Created, "intent_persisted")]
  {
    NoHistory(s.log, intent.clientOrderId);
    HistoryAppend(s.log, LogRow(intent.clientOrderId, None, Created, "intent_persisted"), intent.clientOrderId);
  }

  ghost predicate IsTrail(h: seq<LogRow>, states: seq<OrderState>) {
    |h| == |states| && forall i :: 0 <= i < |h| ==> h[i].to == states[i]
  }

  lemma {:induction false} TrailAppend(h: seq<LogRow>, states: seq<OrderState>, row: LogRow, more: seq<LogRow>)
    requires IsTrail(h, states) && more == h + [row]
    ensures IsTrail(more, states + [row.to])
  {
  }

  lemma {:induction false} TrailIsSubmit(h: seq<LogRow>)
    requires IsTrail(h, [Created] + [Validated] + [Approved] + [Submitting])
    ensures IsSubmitTrail(h)
  {
    var states := [Created] + [Validated] + [Approved] + [Submitting];
    assert states[0] == Created && states[1] == Validated && states[2] == Approved && states[3] == Submitting;
  }

  lemma {:induction false} MovedTrail(s: StoreState, id: Id, to: OrderState, reason: string, now: Instant, states: seq<OrderState>)
    returns (s': StoreState)
    requires id in s.rows && id in s.intents && MayTransition(s.rows[id].state, to, reason, s.intents[id].side)
    requires IsTrail(History(s.log, id), states)
    ensures s' == Moved(s, id, to, reason, NO_PATCH, now)
    ensures id in s'.rows && s'.intents == s.intents && s'.rows[id].state == to
    ensures IsTrail(History(s'.log, id), states + [to])
  {
    s' := MovedHistory(s, id, to, reason, now);
    TrailAppend(History(s.log, id), states, LogRow(id, Some(s.rows[id].state), to, reason), History(s'.log, id));
  }

  /** From a fresh CREATED row the three guarded moves are all legal, so the call follows exactly four log rows. */
  lemma {:induction false} SubmitTrail(s: StoreState, intent: OrderIntent, now: Instant)
    requires Valid(s) && Persist(s, intent, now).Success?
    ensures var id := intent.clientOrderId;
            var s0 := Persist(s, intent, now).value;
            var s1 := Moved(s0, id, Validated, "guards_passed", NO_PATCH, now);
            var s2 := Moved(s1, id, Approved, ApprovalReason(intent), NO_PATCH, now);
            var s3 := Moved(s2, id, Submitting, "submit", NO_PATCH, now);
            IsSubmitTrail(History(s3.log, id))
  {
    var id := intent.clientOrderId;
    var s0 := Persist(s, intent, now).value;
    PersistedHistory(s, intent, now);
    var s1 := MovedTrail(s0, id, Validated, "guards_passed", now, [Created]);
    var s2 := MovedTrail(s1, id, Approved, ApprovalReason(intent), now, [Created] + [Validated]);
    var s3 := MovedTrail(s2, id, Submitting, "submit", now, [Created] + [Validated] + [Approved]);
    TrailIsSubmit(History(s3.log, id));
  }

  lemma {:induction false} MovedHistory(s: StoreState, id: Id, to: OrderState, reason: string, now: Instant) returns (s': StoreState)
    requires id in s.rows && id in s.intents && MayTransition(s.rows[id].state, to, reason, s.intents[id].side)
    ensures s' == Moved(s, id, to, reason, NO_PATCH, now)
    ensures id in s'.rows && s'.intents == s.intents && s'.rows[id].state == to
    ensures History(s'.log, id) == History(s.log, id) + [LogRow(id, Some(s.rows[id].state), to, reason)]
  {
    s' := Moved(s, id, to, reason, NO_PATCH, now);
    var row := LogRow(id, Some(s.rows[id].state), to, reason);
    OneHopLogged(s.log, id, Hop(s.rows[id].state, to, reason));
    HistoryAppend(s.log, row, id);
  }

  lemma {:induction false} OneHopLogged(log: seq<LogRow>, id: Id, hop: Hop)
    ensures Logged(log, id, [hop]) == log + [LogRow(id, Some(hop.from), hop.to, hop.reason)]
  {
  }

  lemma {:induction false} SubmitCallSafe(u: Setup, g: GatewayState, intent: OrderIntent, now: Instant)
    requires Safe(u, g) && Persist(g.store, intent, now).Success?
    requires intent.sleeveAccountId == u.cfg.sleeveAccountId && GuardsPass(u.cfg, u.idFor, intent, now)
    ensures Safe(u, SubmitBegin(u.cfg, u.idFor, g, intent, now))
  {
    var id := intent.clientOrderId;
    var s0 := Persist(g.store, intent, now).value;
    PersistKeeps(g.store, intent, now);
    CallsStaySound(u, g, s0);
    var g0 := g.(store := s0);
    var g1 := MovedSafe(u, g0, id, Validated, "guards_passed", NO_PATCH, now);
    var g2 := MovedSafe(u, g1, id, Approved, ApprovalReason(intent), NO_PATCH, now);
    var g3 := MovedSafe(u, g2, id, Submitting, "submit", NO_PATCH, now);
    SubmitTrail(g.store, intent, now);
    NewCallSafe(u, g, g3, SubmitCall(intent, now, |g3.store.log|));
  }

  lemma {:induction false} NewCallIsNew(u: Setup, g: GatewayState, calls: seq<SubmitCall>, c: SubmitCall)
    requires CallsSound(u, g) && calls == g.calls && CalledOnce(calls) && !IsPersisted(g.store, c.intent)
    ensures CalledOnce(calls + [c])
  {
    forall i | 0 <= i < |calls|
      ensures calls[i].intent.clientOrderId != c.intent.clientOrderId && calls[i].intent.intentId != c.intent.intentId
    {
      assert CallSound(u, g.store, calls[i]);
    }
  }

  lemma {:induction false} NewCallSafe(u: Setup, g: GatewayState, g3: GatewayState, c: SubmitCall)
    requires CallsSound(u, g) && Safe(u, g3) && g3.calls == g.calls
    requires !IsPersisted(g.store, c.intent)
    requires c.intent.clientOrderId in g3.store.intents && g3.store.intents[c.intent.clientOrderId] == c.intent
    requires c.intent.sleeveAccountId == u.cfg.sleeveAccountId && GuardsPass(u.cfg, u.idFor, c.intent, c.at)
    requires c.logLength == |g3.store.log| && IsSubmitTrail(History(g3.store.log, c.intent.clientOrderId))
    ensures Safe(u, g3.(calls := g3.calls + [c]))
  {
    assert g3.store.log[..c.logLength] == g3.store.log;
    assert CallSound(u, g3.store, c);
    NewCallIsNew(u, g, g.calls, c);
  }

  lemma {:induction false} EndSubmitSafe(u: Setup, g: GatewayState, id: Id, outcome: SubmitOutcome, now: Instant)
    requires Safe(u, g)
    ensures Safe(u, SubmitEnd(g, id, outcome, now))
  {
    match outcome
    case Accepted(b) => var _ := MovedSafe(u, g, id, Acknowledged, "broker_ack", NO_PATCH.(brokerOrderId := Some(b)), now);
    case RefusedByBroker => var _ := MovedSafe(u, g, id, Rejected, "broker_rejected", NO_PATCH, now);
    case ResponseLost => var _ := MovedSafe(u, g, id, Unknown, "submit_response_lost", NO_PATCH, now);
    case AdapterError => var _ := MovedSafe(u, g, id, Unknown, "adapter_error", NO_PATCH, now);
  }

  lemma {:induction false} GatewayStepSafe(u: Setup, g: GatewayState, op: GatewayOp)
    requires Safe(u, g)
    ensures Safe(u, GatewayStep(u, g, op))
  {
    match op
    case BeginSubmitOp(intent, now) => SubmitSafe(u, g, intent, now);
    case EndSubmitOp(id, outcome, now) => EndSubmitSafe(u, g, id, outcome, now);
    case EndReconcileOp(id, before, broker, now) => ReconcileSafe(u, g, id, before, broker, now);
    case BeginCancelOp(id, now) =>
      var _ := MovedSafe(u, g, id, Canceled, "cancel_before_submit", NO_PATCH, now);
      var _ := MovedSafe(u, g, id, CancelPending, "cancel_requested", NO_PATCH, now);
    case EndCancelOp(id, lost, now) => var _ := MovedSafe(u, g, id, Unknown, "cancel_response_lost", NO_PATCH, now);
    case EventArrives(event, now) => EventKeeps(u, g, event, now);
  }

  // ---------------------------------------------------------------------------------------------
  // Whole runs
  // ---------------------------------------------------------------------------------------------

  lemma {:induction false} GatewayRunSafeFrom(u: Setup, g: GatewayState, ops: seq<GatewayOp>)
    requires Safe(u, g)
    ensures Safe(u, GatewayRun(u, g, ops))
    decreases |ops|
  {
    if ops != [] {
      GatewayStepSafe(u, g, ops[0]);
      GatewayRunSafeFrom(u, GatewayStep(u, g, ops[0]), ops[1..]);
    }
  }

  /** Each part of `Safe`, said of an order in any state the gateway can reach. */
  lemma {:induction false} GatewayRunSafe(u: Setup, ops: seq<GatewayOp>, id: Id)
    requires id in GatewayRun(u, FRESH, ops).store.rows
    ensures var s := GatewayRun(u, FRESH, ops).store;
            && id in s.intents
            && IsChainTo(History(s.log, id), s.rows[id].state)
            && (s.rows[id].state == Protected ==> 0.0 < s.rows[id].filledQty <= s.rows[id].confirmedQty)
            && (s.intents[id].NeedsProtection() ==> s.rows[id].state != Filled)
    ensures forall r :: r in GatewayRun(u, FRESH, ops).store.log ==> RowSound(r, GatewayRun(u, FRESH, ops).store.intents)
  {
    EmptyValid();
    GatewayRunSafeFrom(u, FRESH, ops);
    var s := GatewayRun(u, FRESH, ops).store;
    assert RowSafe(s.rows[id], s.intents[id]);
  }

  /** The broker is called at most once per client order id and per intent id, and only with a guarded, logged intent. */
  lemma {:induction false} SubmittedAtMostOnce(u: Setup, ops: seq<GatewayOp>)
    ensures CalledOnce(GatewayRun(u, FRESH, ops).calls)
    ensures forall c :: c in GatewayRun(u, FRESH, ops).calls ==> CallSound(u, GatewayRun(u, FRESH, ops).store, c)
  {
    EmptyValid();
    GatewayRunSafeFrom(u, FRESH, ops);
  }

  lemma {:induction false} GatewayRunEvolvesFrom(u: Setup, g: GatewayState, ops: seq<GatewayOp>)
    requires Safe(u, g)
    ensures Evolves(g.store, GatewayRun(u, g, ops).store) && g.calls <= GatewayRun(u, g, ops).calls
    decreases |ops|
  {
    if ops == [] {
      EvolvesReflexive(g.store);
    } else {
      var g1 := GatewayStep(u, g, ops[0]);
      GatewayStepSafe(u, g, ops[0]);
      GatewayStepEvolves(u, g, ops[0]);
      GatewayRunEvolvesFrom(u, g1, ops[1..]);
      EvolvesTransitive(g.store, g1.store, GatewayRun(u, g, ops).store);
    }
  }

  lemma {:induction false} StepStoreEvolves(u: Setup, g: GatewayState, op: GatewayOp)
    requires Safe(u, g)
    ensures Evolves(g.store, GatewayStep(u, g, op).store)
  {
    match op
    case BeginSubmitOp(intent, now) => SubmitEvolves(u, g, intent, now);
    case EndSubmitOp(id, outcome, now) => EndSubmitEvolves(g, id, outcome, now);
    case EndReconcileOp(id, before, broker, now) => ReconcileEvolves(u, g, id, before, broker, now);
    case BeginCancelOp(id, now) => CancelEvolves(g, id, false, now);
    case EndCancelOp(id, lost, now) => CancelEvolves(g, id, lost, now);
    case EventArrives(event, now) => EventStepKeeps(g.store, event, now);
  }

  lemma {:induction false} StepCallsGrow(u: Setup, g: GatewayState, op: GatewayOp)
    ensures g.calls <= GatewayStep(u, g, op).calls
  {
  }

  /** No step takes back a log row, an intent, a call, or the outcome of a terminal order. */
  lemma {:induction false} GatewayStepEvolves(u: Setup, g: GatewayState, op: GatewayOp)
    requires Safe(u, g)
    ensures Evolves(g.store, GatewayStep(u, g, op).store) && g.calls <= GatewayStep(u, g, op).calls
  {
    StepStoreEvolves(u, g, op);
    StepCallsGrow(u, g, op);
  }

  lemma {:induction false} CancelEvolves(g: GatewayState, id: Id, lost: bool, now: Instant)
    requires Valid(g.store)
    ensures Evolves(g.store, CancelBegin(g, id, now).store) && Evolves(g.store, CancelEnd(g, id, lost, now).store)
  {
    EvolvesReflexive(g.store);
    MovedKeeps(g.store, id, Canceled, "cancel_before_submit", NO_PATCH, now);
    MovedKeeps(g.store, id, CancelPending, "cancel_requested", NO_PATCH, now);
    MovedKeeps(g.store, id, Unknown, "cancel_response_lost", NO_PATCH, now);
  }

  lemma {:induction false} EndSubmitEvolves(g: GatewayState, id: Id, outcome: SubmitOutcome, now: Instant)
    requires Valid(g.store)
    ensures Evolves(g.store, SubmitEnd(g, id, outcome, now).store)
  {
    match outcome
    case Accepted(b) => MovedKeeps(g.store, id, Acknowledged, "broker_ack", NO_PATCH.(brokerOrderId := Some(b)), now);
    case RefusedByBroker => MovedKeeps(g.store, id, Rejected, "broker_rejected", NO_PATCH, now);
    case ResponseLost => MovedKeeps(g.store, id, Unknown, "submit_response_lost", NO_PATCH, now);
    case AdapterError => MovedKeeps(g.store, id, Unknown, "adapter_error", NO_PATCH, now);
  }

  lemma {:induction false} ReconcileEvolves(u: Setup, g: GatewayState, id: Id, before: OrderRow, broker: Option<OrderRow>, now: Instant)
    requires Safe(u, g)
    ensures Evolves(g.store, ReconcileEnd(u.cfg, g, id, before, broker, now).store)
  {
    EvolvesReflexive(g.store);
    if broker.None? {
      MovedKeeps(g.store, id, Rejected, "reconciliation:NOT_FOUND_AFTER_UNKNOWN", NO_PATCH, now);
    } else {
      ReconcileFoundEvolves(u, g, id, before, broker.value, now);
    }
  }

  lemma {:induction false} ReconcileFoundEvolves(u: Setup, g: GatewayState, id: Id, before: OrderRow, broker: OrderRow, now: Instant)
    requires Safe(u, g)
    ensures Evolves(g.store, ReconcileEnd(u.cfg, g, id, before, Some(broker), now).store)
  {
    var patch := BrokerPatch(broker);
    EvolvesReflexive(g.store);
    if Transition(g.store, id, broker.state, "reconciliation:broker_status", patch, now).Success? {
      var s := FurtherMovedBy(g.store, id, broker.state, patch, now);
      var _ := FurtherMoved(g.store, s, id, ProtectionPending, "protection_requested", now);
    }
  }

  lemma {:induction false} FurtherMovedBy(s: StoreState, id: Id, to: OrderState, patch: StatePatch, now: Instant) returns (s': StoreState)
    requires Valid(s) && Transition(s, id, to, "reconciliation:broker_status", patch, now).Success?
    ensures s' == Transition(s, id, to, "reconciliation:broker_status", patch, now).value && Valid(s') && Evolves(s, s')
  {
    MovedKeeps(s, id, to, "reconciliation:broker_status", patch, now);
    s' := Transition(s, id, to, "reconciliation:broker_status", patch, now).value;
  }

  lemma {:induction false} SubmitEvolves(u: Setup, g: GatewayState, intent: OrderIntent, now: Instant)
    requires Safe(u, g)
    ensures Evolves(g.store, SubmitBegin(u.cfg, u.idFor, g, intent, now).store)
  {
    EvolvesReflexive(g.store);
    if Persist(g.store, intent, now).Success? {
      var id := intent.clientOrderId;
      var s0 := Persist(g.store, intent, now).value;
      PersistKeeps(g.store, intent, now);
      var _ := FurtherMoved(g.store, s0, id, Rejected, REJECT_ACCOUNT, now);
      var _ := FurtherMoved(g.store, s0, id, Rejected, REJECT_CAPS, now);
      var s1 := FurtherMoved(g.store, s0, id, Validated, "guards_passed", now);
      var s2 := FurtherMoved(g.store, s1, id, Approved, ApprovalReason(intent), now);
      var _ := FurtherMoved(g.store, s2, id, Submitting, "submit", now);
    }
  }

  lemma {:induction false} FurtherMoved(s0: StoreState, s: StoreState, id: Id, to: OrderState, reason: string, now: Instant) returns (s': StoreState)
    requires Valid(s) && Evolves(s0, s)
    ensures s' == Moved(s, id, to, reason, NO_PATCH, now) && Valid(s') && Evolves(s0, s')
  {
    s' := Moved(s, id, to, reason, NO_PATCH, now);
    MovedKeeps(s, id, to, reason, NO_PATCH, now);
    EvolvesTransitive(s0, s, s');
  }

  /** Only the guarded half of `submit` ever calls the broker's submit: reconcile, cancel and events never do. */
  lemma {:induction false} OnlySubmitCalls(u: Setup, g: GatewayState, op: GatewayOp)
    ensures GatewayStep(u, g, op).calls != g.calls ==>
              && op.BeginSubmitOp?
              && !IsPersisted(g.store, op.intent)
              && op.intent.sleeveAccountId == u.cfg.sleeveAccountId && GuardsPass(u.cfg, u.idFor, op.intent, op.now)
              && |GatewayStep(u, g, op).calls| == |g.calls| + 1
  {
  }

  /** However a run goes on, an order that reached a terminal state keeps its state, quantity, price and coverage. */
  lemma {:induction false} TerminalForever(u: Setup, before: seq<GatewayOp>, after: seq<GatewayOp>, id: Id)
    requires id in GatewayRun(u, FRESH, before).store.rows
    requires IsTerminal(GatewayRun(u, FRESH, before).store.rows[id].state)
    ensures var g := GatewayRun(u, FRESH, before);
            var g' := GatewayRun(u, g, after);
            id in g'.store.rows && SameOutcome(g.store.rows[id], g'.store.rows[id])
  {
    EmptyValid();
    GatewayRunSafeFrom(u, FRESH, before);
    GatewayRunEvolvesFrom(u, GatewayRun(u, FRESH, before), after);
  }
}
