/**
 * Out-of-order and repeated delivery of fill events: whatever order they arrive in, an acknowledged order
 * ends with the totals of the largest cumulative fill, and in the state that fill implies.
 */
module FillDelivery {
  import opened Wrappers
  import opened OrderTypes
  import opened OrderStore

  datatype Delivery = Delivery(event: BrokerEvent, at: Instant)

  function DeliverAll(s: StoreState, ds: seq<Delivery>): StoreState
    decreases |ds|
  {
    if ds == [] then s
    else
      var earlier := DeliverAll(s, ds[..|ds| - 1]);
      ApplyEvent(earlier, ds[|ds| - 1].event, ds[|ds| - 1].at).0
  }

  function EventsOf(ds: seq<Delivery>): set<BrokerEvent> {
    set d | d in ds :: d.event
  }

  function EventIds(ds: seq<Delivery>): set<Id> {
    set d | d in ds :: d.event.eventId
  }

  function Cum(d: Delivery): real
    requires d.event.body.IsFillLike()
  {
    d.event.body.cumulativeQty
  }

  /**
   * What the broker promises of one order's fill events: cumulative totals are positive, an event id names one
   * event, one cumulative total is reported one way, and nothing exceeds the final fill.
   */
  ghost predicate FillsOf(s: StoreState, id: Id, ds: seq<Delivery>) {
    && (forall d :: d in ds ==> d.event.clientOrderId == id && d.event.body.IsFillLike() && Cum(d) > 0.0 && d.event.eventId !in s.seen)
    && (forall d, e :: d in ds && e in ds && d.event.eventId == e.event.eventId ==> d.event == e.event)
    && (forall d, e :: d in ds && e in ds && Cum(d) == Cum(e) ==> d.event.body == e.event.body)
    && (forall d, e :: d in ds && e in ds && d.event.body.FillEvent? ==> Cum(e) <= Cum(d))
  }

  /** A delivery none of the others exceeds. */
  ghost predicate IsLargest(m: Delivery, ds: seq<Delivery>)
    requires forall d :: d in ds ==> d.event.body.IsFillLike()
  {
    m in ds && forall d :: d in ds ==> Cum(d) <= Cum(m)
  }

  function StateAfter(intent: OrderIntent, body: EventBody): OrderState {
    if body.PartialFillEvent? then PartiallyFilled
    else if intent.NeedsProtection() then ProtectionPending
    else Filled
  }

  /** The order's row once everything up to `m`, the largest, has arrived; `row0` is the acknowledged row. */
  predicate Settled(row0: OrderRow, intent: OrderIntent, m: EventBody, row: OrderRow)
    requires m.IsFillLike()
  {
    if m.cumulativeQty > row0.filledQty then
      row == row0.(state := StateAfter(intent, m), filledQty := m.cumulativeQty, avgFillPrice := Some(m.avgPrice),
                   updatedAt := row.updatedAt)
    else
      row == row0.(updatedAt := row.updatedAt)
  }

  lemma {:induction false} DeliveredFrame(s: StoreState, id: Id, ds: seq<Delivery>)
    requires id in s.rows && id in s.intents
    requires forall d :: d in ds ==> d.event.clientOrderId == id
    ensures var s' := DeliverAll(s, ds);
            && s'.intents == s.intents && id in s'.rows
            && s'.seen == s.seen + EventIds(ds)
    decreases |ds|
  {
    if ds != [] {
      var earlier, last := ds[..|ds| - 1], ds[|ds| - 1];
      DeliveredFrame(s, id, earlier);
      assert EventIds(ds) == EventIds(earlier) + {last.event.eventId};
    }
  }

  /** One more fill event, new or repeated, moves a settled row to where the new largest settles it. */
  lemma {:induction false} OneDelivery(row0: OrderRow, intent: OrderIntent, m: EventBody, row: OrderRow, body: EventBody, at: Instant)
    requires row0.state == Acknowledged
    requires m.IsFillLike() && m.cumulativeQty > 0.0 && Settled(row0, intent, m, row)
    requires body.IsFillLike() && body.cumulativeQty > 0.0
    requires body.cumulativeQty > m.cumulativeQty ==> m.PartialFillEvent?
    ensures var row' := EventEffect(row, intent, body, at).row;
            Settled(row0, intent, if body.cumulativeQty > m.cumulativeQty then body else m, row')
  {
  }

  lemma {:induction false} FirstDelivery(row0: OrderRow, intent: OrderIntent, body: EventBody, at: Instant)
    requires row0.state == Acknowledged
    requires body.IsFillLike() && body.cumulativeQty > 0.0
    ensures Settled(row0, intent, body, EventEffect(row0, intent, body, at).row)
  {
  }

  /** One delivery more, on top of the settled ones. */
  lemma {:induction false} SettledOneMore(s: StoreState, id: Id, earlier: seq<Delivery>, last: Delivery, m1: Delivery, m: Delivery)
    requires id in s.rows && id in s.intents && s.rows[id].state == Acknowledged
    requires FillsOf(s, id, earlier + [last]) && IsLargest(m, earlier + [last])
    requires FillsOf(s, id, earlier) && IsLargest(m1, earlier)
    requires id in DeliverAll(s, earlier).rows && DeliverAll(s, earlier).intents == s.intents
    requires DeliverAll(s, earlier).seen == s.seen + EventIds(earlier)
    requires Settled(s.rows[id], s.intents[id], m1.event.body, DeliverAll(s, earlier).rows[id])
    ensures id in ApplyEvent(DeliverAll(s, earlier), last.event, last.at).0.rows
    ensures Settled(s.rows[id], s.intents[id], m.event.body, ApplyEvent(DeliverAll(s, earlier), last.event, last.at).0.rows[id])
  {
    var s1 := DeliverAll(s, earlier);
    assert last in earlier + [last] && m1 in earlier + [last];
    assert m == last || m in earlier;
    OneDelivery(s.rows[id], s.intents[id], m1.event.body, s1.rows[id], last.event.body, last.at);
    if last.event.eventId in s1.seen {
      var d :| d in earlier && d.event.eventId == last.event.eventId;
      assert d in earlier + [last];
      assert d.event == last.event;
    }
  }

  /** Any deliveries, in any order, with repeats: the order settles as its largest fill event says. */
  lemma {:induction false} DeliveriesSettle(s: StoreState, id: Id, ds: seq<Delivery>, m: Delivery)
    requires id in s.rows && id in s.intents && s.rows[id].state == Acknowledged
    requires FillsOf(s, id, ds) && IsLargest(m, ds)
    ensures id in DeliverAll(s, ds).rows
    ensures Settled(s.rows[id], s.intents[id], m.event.body, DeliverAll(s, ds).rows[id])
    decreases |ds|
  {
    var earlier, last := ds[..|ds| - 1], ds[|ds| - 1];
    assert ds == earlier + [last];
    DeliveredFrame(s, id, earlier);
    if earlier == [] {
      FirstDelivery(s.rows[id], s.intents[id], last.event.body, last.at);
    } else {
      var m1 := LargestExists(earlier);
      assert forall d :: d in earlier ==> d in ds;
      DeliveriesSettle(s, id, earlier, m1);
      SettledOneMore(s, id, earlier, last, m1, m);
    }
  }

  lemma {:induction false} LargestExists(ds: seq<Delivery>) returns (m: Delivery)
    requires ds != [] && forall d :: d in ds ==> d.event.body.IsFillLike()
    ensures IsLargest(m, ds)
    decreases |ds|
  {
    m := ds[|ds| - 1];
    if |ds| > 1 {
      var m1 := LargestExists(ds[..|ds| - 1]);
      if Cum(m1) > Cum(m) {
        m := m1;
      }
    }
  }

  /** Two delivery schedules of the same events, repeats and all, leave the same state, quantity and average. */
  lemma {:induction false} DeliveryOrderIrrelevant(s: StoreState, id: Id, ds: seq<Delivery>, es: seq<Delivery>)
    requires id in s.rows && id in s.intents && s.rows[id].state == Acknowledged
    requires FillsOf(s, id, ds) && FillsOf(s, id, es)
    requires EventsOf(ds) == EventsOf(es)
    ensures id in DeliverAll(s, ds).rows && id in DeliverAll(s, es).rows
    ensures DeliverAll(s, ds).rows[id].(updatedAt := 0) == DeliverAll(s, es).rows[id].(updatedAt := 0)
  {
    if ds == [] {
      assert forall e :: e in es ==> e.event in EventsOf(es);
    } else {
      var m := LargestExists(ds);
      assert m.event in EventsOf(es);
      var n :| n in es && n.event == m.event;
      forall e | e in es ensures Cum(e) <= Cum(n) {
        assert e.event in EventsOf(ds);
        var d :| d in ds && d.event == e.event;
      }
      DeliveriesSettle(s, id, ds, m);
      DeliveriesSettle(s, id, es, n);
    }
  }

  /** Among event steps alone a stored quantity never falls: only reconciliation may lower it. */
  lemma {:induction false} EventsNeverLowerFilled(row: OrderRow, intent: OrderIntent, body: EventBody, at: Instant)
    requires body.IsFillLike() ==> body.cumulativeQty >= 0.0
    ensures EventEffect(row, intent, body, at).row.filledQty >= row.filledQty
  {
  }
}
