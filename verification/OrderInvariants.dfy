/** What every order-store operation keeps, and what whole runs of them therefore guarantee. */
module OrderInvariants {
  import opened Wrappers
  import opened OrderTypes
  import opened Transitions
  import opened OrderStore

  // ---------------------------------------------------------------------------------------------
  // Histories
  // ---------------------------------------------------------------------------------------------

  /** One order's rows of the log, oldest first. */
  function History(log: seq<LogRow>, id: Id): seq<LogRow> {
    if log == [] then []
    else
      var last := log[|log| - 1];
      var earlier := History(log[..|log| - 1], id);
      if last.orderId == id then earlier + [last] else earlier
  }

  lemma {:induction false} HistoryAppend(log: seq<LogRow>, row: LogRow, id: Id)
    ensures History(log + [row], id) == if row.orderId == id then History(log, id) + [row] else History(log, id)
  {
  }

  /** The rows start by creating the order, each one leaves the state the previous one entered, and the last enters `state`. */
  predicate IsChainTo(h: seq<LogRow>, state: OrderState) {
    && h != []
    && var last := h[|h| - 1];
       && last.to == state
       && if |h| == 1 then last.from == None && state == Created
          else last.from.Some? && IsChainTo(h[..|h| - 1], last.from.value)
  }

  lemma {:induction false} ChainExtends(h: seq<LogRow>, row: LogRow, state: OrderState)
    requires IsChainTo(h, state) && row.from == Some(state)
    ensures IsChainTo(h + [row], row.to)
  {
  }

  /** The chain read by index: what a caller of `history()` sees. */
  lemma {:induction false} ChainByIndex(h: seq<LogRow>, state: OrderState)
    requires IsChainTo(h, state)
    ensures h[0].from == None && h[0].to == Created && h[|h| - 1].to == state
    ensures forall i {:trigger h[i].from} :: 1 <= i < |h| ==> h[i].from == Some(h[i - 1].to)
    decreases |h|
  {
    if |h| > 1 {
      var front, last := h[..|h| - 1], h[|h| - 1];
      ChainByIndex(front, last.from.value);
      assert front[|front| - 1] == h[|h| - 2];
      forall i | 1 <= i < |h| ensures h[i].from == Some(h[i - 1].to) {
        if i < |front| {
          assert front[i] == h[i] && front[i - 1] == h[i - 1];
        }
      }
    }
  }

  /** A row that changes state is in the table, and keeps the two side conditions. */
  predicate RowSound(r: LogRow, intents: map<Id, OrderIntent>) {
    match r.from
    case None => r.to == Created
    case Some(from) =>
      && (from != r.to ==> IsLegal(from, r.to))
      && (from == Unknown && r.to != Unknown ==> IsReconciliation(r.reason))
      && (from == Filled && r.to == Closed ==> r.orderId in intents && intents[r.orderId].side == Sell)
  }

  ghost predicate Keyed(intents: map<Id, OrderIntent>, rows: map<Id, OrderRow>) {
    && rows.Keys == intents.Keys
    && (forall id :: id in intents ==> intents[id].clientOrderId == id)
    && (forall a, b :: a in intents && b in intents && intents[a].intentId == intents[b].intentId ==> a == b)
  }

  ghost predicate LogSound(log: seq<LogRow>, intents: map<Id, OrderIntent>) {
    forall r :: r in log ==> r.orderId in intents && RowSound(r, intents)
  }

  ghost predicate Chained(log: seq<LogRow>, rows: map<Id, OrderRow>) {
    forall id :: id in rows ==> IsChainTo(History(log, id), rows[id].state)
  }

  ghost predicate Valid(s: StoreState) {
    Keyed(s.intents, s.rows) && LogSound(s.log, s.intents) && Chained(s.log, s.rows)
  }

  /** What no operation takes back: the log only grows, intents stay, and a terminal order is frozen. */
  ghost predicate Evolves(s: StoreState, s': StoreState) {
    && s.log <= s'.log
    && s.seen <= s'.seen
    && (forall id :: id in s.intents ==> id in s'.intents && s'.intents[id] == s.intents[id])
    && (forall id :: id in s.rows ==> id in s'.rows)
    && (forall id :: id in s.rows && IsTerminal(s.rows[id].state) ==> SameOutcome(s.rows[id], s'.rows[id]))
  }

  lemma {:induction false} EvolvesReflexive(s: StoreState)
    ensures Evolves(s, s)
  {
  }

  lemma {:induction false} EvolvesTransitive(s0: StoreState, s1: StoreState, s2: StoreState)
    requires Evolves(s0, s1) && Evolves(s1, s2)
    ensures Evolves(s0, s2)
  {
  }

  predicate SameOutcome(a: OrderRow, b: OrderRow) {
    a.state == b.state && a.filledQty == b.filledQty && a.avgFillPrice == b.avgFillPrice && a.confirmedQty == b.confirmedQty
  }

  // ---------------------------------------------------------------------------------------------
  // One effect on one order
  // ---------------------------------------------------------------------------------------------

  predicate HopSound(h: Hop, side: Side) {
    && (h.from != h.to ==> IsLegal(h.from, h.to))
    && (h.from == Unknown && h.to != Unknown ==> IsReconciliation(h.reason))
    && (h.from == Filled && h.to == Closed ==> side == Sell)
  }

  predicate IsPath(from: OrderState, hops: seq<Hop>, to: OrderState)
    decreases |hops|
  {
    if hops == [] then from == to else hops[0].from == from && IsPath(hops[0].to, hops[1..], to)
  }

  /** The hops lead from the old row's state to the new one's, and a terminal row keeps its outcome. */
  predicate EffectSound(row: OrderRow, side: Side, e: Effect) {
    && IsPath(row.state, e.hops, e.row.state)
    && (forall h :: h in e.hops ==> HopSound(h, side))
    && (IsTerminal(row.state) ==> SameOutcome(row, e.row))
  }

  lemma {:induction false} TerminalStays(from: OrderState, to: OrderState)
    requires IsTerminal(from)
    ensures !IsLegal(from, to)
  {
  }

  lemma {:induction false} PrefixIsReconciliation(rest: string)
    ensures IsReconciliation("reconciliation:" + rest)
  {
  }

  /** An effect of one sound hop, which leaves a terminal row's outcome. */
  lemma {:induction false} SingleHopSound(row: OrderRow, side: Side, e: Effect, hop: Hop)
    requires e.hops == [hop] && hop.from == row.state && hop.to == e.row.state && HopSound(hop, side)
    requires IsTerminal(row.state) ==> SameOutcome(row, e.row)
    ensures EffectSound(row, side, e)
  {
    OneHopPath(hop, e.hops);
  }

  lemma {:induction false} AttemptSound(row: OrderRow, side: Side, body: EventBody, to: OrderState, patch: StatePatch, at: Instant)
    ensures EffectSound(row, side, Attempt(row, body, to, patch, at))
  {
    var e := Attempt(row, body, to, patch, at);
    if IsTerminal(row.state) {
      TerminalStays(row.state, to);
    }
    PrefixIsReconciliation(BrokerReason(body));
    SingleHopSound(row, side, e, e.hops[0]);
  }

  lemma {:induction false} OneHopPath(hop: Hop, hops: seq<Hop>)
    requires hops == [hop]
    ensures IsPath(hop.from, hops, hop.to) && forall h :: h in hops ==> h == hop
  {
    assert hops[1..] == [];
  }

  lemma {:induction false} NoopSound(row: OrderRow, side: Side, body: EventBody, why: string, patch: StatePatch, at: Instant)
    requires IsTerminal(row.state) ==> patch.filledQty.None? && patch.avgFillPrice.None? && patch.confirmedQty.None?
    ensures EffectSound(row, side, Noop(row, body, why, patch, at))
  {
  }

  lemma {:induction false} EventEffectSound(row: OrderRow, intent: OrderIntent, body: EventBody, at: Instant)
    ensures EffectSound(row, intent.side, EventEffect(row, intent, body, at))
  {
    var side := intent.side;
    match body
    case AckEvent(brokerId) =>
      var patch := NO_PATCH.(brokerOrderId := Some(brokerId));
      NoopSound(row, side, body, "already_acknowledged", patch, at);
      NoopSound(row, side, body, "stale_ack", patch, at);
      AttemptSound(row, side, body, Acknowledged, patch, at);
    case RejectEvent => AttemptSound(row, side, body, Rejected, NO_PATCH, at);
    case PartialFillEvent(cum, avg) =>
      NoopSound(row, side, body, "stale_fill_event", NO_PATCH, at);
      AttemptSound(row, side, body, PartiallyFilled, FillPatch(cum, avg), at);
    case FillEvent(cum, avg) =>
      NoopSound(row, side, body, "stale_fill_event", NO_PATCH, at);
      AttemptSound(row, side, body, Filled, FillPatch(cum, avg), at);
      if !IsStaleFill(row, cum) {
        FillSound(row, intent, body, at);
      }
    case CancelAckEvent => AttemptSound(row, side, body, Canceled, NO_PATCH, at);
    case ProtectionAckEvent(covered) =>
      var patch := NO_PATCH.(confirmedQty := Some(covered));
      AttemptSound(row, side, body, Protected, patch, at);
      if row.state == ProtectionPending {
        NoopSound(row, side, body, "under_protected", patch, at);
      }
    case ProtectionRejectEvent => AttemptSound(row, side, body, ProtectionFailed, NO_PATCH, at);
    case UnknownTimeoutEvent =>
      NoopSound(row, side, body, "already_unknown", NO_PATCH, at);
      AttemptSound(row, side, body, Unknown, NO_PATCH, at);
  }

  /** The second hop of a protected entry's fill, FILLED to PROTECTION_PENDING, is in the table too. */
  lemma {:induction false} FillSound(row: OrderRow, intent: OrderIntent, body: EventBody, at: Instant)
    requires body.FillEvent?
    requires !IsStaleFill(row, body.cumulativeQty)
    requires EffectSound(row, intent.side, Attempt(row, body, Filled, FillPatch(body.cumulativeQty, body.avgPrice), at))
    ensures EffectSound(row, intent.side, EventEffect(row, intent, body, at))
  {
    var filled := Attempt(row, body, Filled, FillPatch(body.cumulativeQty, body.avgPrice), at);
    if filled.result.applied && intent.NeedsProtection() {
      var hop := Hop(Filled, ProtectionPending, "protection_requested");
      var e := EventEffect(row, intent, body, at);
      assert e.hops == [filled.hops[0], hop];
      assert e.hops[1..] == [hop] && [hop][1..] == [];
    }
  }

  lemma {:induction false} LoggedChain(log: seq<LogRow>, id: Id, hops: seq<Hop>, from: OrderState, to: OrderState)
    requires IsChainTo(History(log, id), from) && IsPath(from, hops, to)
    ensures IsChainTo(History(Logged(log, id, hops), id), to)
    decreases |hops|
  {
    if hops != [] {
      var row := LogRow(id, Some(hops[0].from), hops[0].to, hops[0].reason);
      HistoryAppend(log, row, id);
      ChainExtends(History(log, id), row, from);
      LoggedChain(log + [row], id, hops[1..], hops[0].to, to);
    }
  }

  lemma {:induction false} LoggedElsewhere(log: seq<LogRow>, id: Id, hops: seq<Hop>, other: Id)
    requires other != id
    ensures History(Logged(log, id, hops), other) == History(log, other)
    decreases |hops|
  {
    if hops != [] {
      var row := LogRow(id, Some(hops[0].from), hops[0].to, hops[0].reason);
      HistoryAppend(log, row, other);
      LoggedElsewhere(log + [row], id, hops[1..], other);
    }
  }

  lemma {:induction false} LoggedSound(log: seq<LogRow>, id: Id, hops: seq<Hop>, intents: map<Id, OrderIntent>)
    requires LogSound(log, intents) && id in intents
    requires forall h :: h in hops ==> HopSound(h, intents[id].side)
    ensures LogSound(Logged(log, id, hops), intents) && log <= Logged(log, id, hops)
    decreases |hops|
  {
    if hops != [] {
      var row := LogRow(id, Some(hops[0].from), hops[0].to, hops[0].reason);
      assert HopSound(hops[0], intents[id].side);
      LoggedSound(log + [row], id, hops[1..], intents);
    }
  }

  lemma {:induction false} WithEffectKeepsChains(s: StoreState, id: Id, e: Effect)
    requires Chained(s.log, s.rows) && id in s.rows && IsPath(s.rows[id].state, e.hops, e.row.state)
    ensures Chained(Logged(s.log, id, e.hops), s.rows[id := e.row])
  {
    var rows := s.rows[id := e.row];
    forall other | other in rows ensures IsChainTo(History(Logged(s.log, id, e.hops), other), rows[other].state) {
      if other == id {
        LoggedChain(s.log, id, e.hops, s.rows[id].state, e.row.state);
      } else {
        LoggedElsewhere(s.log, id, e.hops, other);
      }
    }
  }

  lemma {:induction false} WithEffectEvolves(s: StoreState, id: Id, e: Effect)
    requires id in s.rows && s.log <= Logged(s.log, id, e.hops)
    requires IsTerminal(s.rows[id].state) ==> SameOutcome(s.rows[id], e.row)
    ensures Evolves(s, WithEffect(s, id, e))
  {
  }

  lemma {:induction false} WithEffectKeeps(s: StoreState, id: Id, e: Effect)
    requires Valid(s) && id in s.rows
    requires EffectSound(s.rows[id], s.intents[id].side, e)
    ensures Valid(WithEffect(s, id, e)) && Evolves(s, WithEffect(s, id, e))
  {
    LoggedSound(s.log, id, e.hops, s.intents);
    WithEffectKeepsChains(s, id, e);
    WithEffectEvolves(s, id, e);
    assert Keyed(s.intents, s.rows[id := e.row]);
  }

  // ---------------------------------------------------------------------------------------------
  // Store operations and runs of them
  // ---------------------------------------------------------------------------------------------

  datatype StoreOp =
    | PersistOp(intent: OrderIntent, at: Instant)
    | TransitionOp(id: Id, to: OrderState, reason: string, patch: StatePatch, at: Instant)
    | EventOp(event: BrokerEvent, at: Instant)

  /** A failed operation throws and is rolled back: the state stays. */
  function StoreStep(s: StoreState, op: StoreOp): StoreState {
    match op
    case PersistOp(intent, at) =>
      (match Persist(s, intent, at) case Success(s') => s' case Failure(_) => s)
    case TransitionOp(id, to, reason, patch, at) =>
      (match Transition(s, id, to, reason, patch, at) case Success(s') => s' case Failure(_) => s)
    case EventOp(event, at) => ApplyEvent(s, event, at).0
  }

  function StoreRun(s: StoreState, ops: seq<StoreOp>): StoreState
    decreases |ops|
  {
    if ops == [] then s else StoreRun(StoreStep(s, ops[0]), ops[1..])
  }

  lemma {:induction false} PersistKeepsKeys(s: StoreState, intent: OrderIntent, at: Instant)
    requires Keyed(s.intents, s.rows) && Persist(s, intent, at).Success?
    ensures var s' := Persist(s, intent, at).value;
            Keyed(s'.intents, s'.rows) && Evolves(s, s')
  {
  }

  lemma {:induction false} PersistKeepsLog(s: StoreState, intent: OrderIntent, at: Instant)
    requires LogSound(s.log, s.intents) && Persist(s, intent, at).Success?
    ensures var s' := Persist(s, intent, at).value;
            LogSound(s'.log, s'.intents)
  {
  }

  lemma {:induction false} PersistKeepsChains(s: StoreState, intent: OrderIntent, at: Instant)
    requires Valid(s) && Persist(s, intent, at).Success?
    ensures var s' := Persist(s, intent, at).value;
            Chained(s'.log, s'.rows)
  {
    var s' := Persist(s, intent, at).value;
    var id := intent.clientOrderId;
    var row := LogRow(id, None, Created, "intent_persisted");
    forall other | other in s'.rows ensures IsChainTo(History(s'.log, other), s'.rows[other].state) {
      HistoryAppend(s.log, row, other);
      if other == id {
        NoHistory(s.log, id);
      }
    }
  }

  lemma {:induction false} PersistKeeps(s: StoreState, intent: OrderIntent, at: Instant)
    requires Valid(s) && Persist(s, intent, at).Success?
    ensures Valid(Persist(s, intent, at).value) && Evolves(s, Persist(s, intent, at).value)
  {
    PersistKeepsKeys(s, intent, at);
    PersistKeepsLog(s, intent, at);
    PersistKeepsChains(s, intent, at);
  }

  lemma {:induction false} NoHistory(log: seq<LogRow>, id: Id)
    requires forall r :: r in log ==> r.orderId != id
    ensures History(log, id) == []
    decreases |log|
  {
    if log != [] {
      assert log[|log| - 1] in log && forall r :: r in log[..|log| - 1] ==> r in log;
      NoHistory(log[..|log| - 1], id);
    }
  }

  lemma {:induction false} StoreStepKeeps(s: StoreState, op: StoreOp)
    requires Valid(s)
    ensures Valid(StoreStep(s, op)) && Evolves(s, StoreStep(s, op))
  {
    match op
    case PersistOp(intent, at) =>
      if Persist(s, intent, at).Success? { PersistKeeps(s, intent, at); }
    case TransitionOp(id, to, reason, patch, at) =>
      if Transition(s, id, to, reason, patch, at).Success? { TransitionKeeps(s, id, to, reason, patch, at); }
    case EventOp(event, at) => EventStepKeeps(s, event, at);
  }

  lemma {:induction false} TransitionKeeps(s: StoreState, id: Id, to: OrderState, reason: string, patch: StatePatch, at: Instant)
    requires Valid(s) && Transition(s, id, to, reason, patch, at).Success?
    ensures var s' := Transition(s, id, to, reason, patch, at).value; Valid(s') && Evolves(s, s')
  {
    OneHopSound(s, id, to, reason, patch, at);
    WithEffectKeeps(s, id, OneHop(s.rows[id], to, reason, patch, at));
  }

  lemma {:induction false} OneHopSound(s: StoreState, id: Id, to: OrderState, reason: string, patch: StatePatch, at: Instant)
    requires Valid(s) && Transition(s, id, to, reason, patch, at).Success?
    ensures id in s.rows && id in s.intents && EffectSound(s.rows[id], s.intents[id].side, OneHop(s.rows[id], to, reason, patch, at))
  {
    if IsTerminal(s.rows[id].state) {
      TerminalStays(s.rows[id].state, to);
    }
    SingleHopSound(s.rows[id], s.intents[id].side, OneHop(s.rows[id], to, reason, patch, at), Hop(s.rows[id].state, to, reason));
  }

  lemma {:induction false} EventStepKeeps(s: StoreState, event: BrokerEvent, at: Instant)
    requires Valid(s)
    ensures Valid(ApplyEvent(s, event, at).0) && Evolves(s, ApplyEvent(s, event, at).0)
  {
    var id := event.clientOrderId;
    if event.eventId !in s.seen && id in s.rows {
      var marked := s.(seen := s.seen + {event.eventId});
      EventEffectSound(s.rows[id], s.intents[id], event.body, at);
      WithEffectKeeps(marked, id, EventEffect(s.rows[id], s.intents[id], event.body, at));
    }
  }

  /** Over any run: the log stays chained and sound, and every terminal order stays as it ended. */
  lemma {:induction false} StoreRunKeeps(s: StoreState, ops: seq<StoreOp>)
    requires Valid(s)
    ensures Valid(StoreRun(s, ops)) && Evolves(s, StoreRun(s, ops))
    decreases |ops|
  {
    if ops != [] {
      StoreStepKeeps(s, ops[0]);
      StoreRunKeeps(StoreStep(s, ops[0]), ops[1..]);
      EvolvesTransitive(s, StoreStep(s, ops[0]), StoreRun(s, ops));
    } else {
      EvolvesReflexive(s);
    }
  }

  lemma {:induction false} EmptyValid()
    ensures Valid(EMPTY_STORE)
  {
  }
}
