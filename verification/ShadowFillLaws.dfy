/** What holds of one shadow fill record: no overdraft, exact replay, conservation, and no dependence on listing order. */
module ShadowFillLaws {
  import opened Wrappers
  import opened StableSort
  import opened ShadowFills

  // ---------------------------------------------------------------------------------------------
  // Long-only and cash-funded, at every moment
  // ---------------------------------------------------------------------------------------------

  lemma {:induction false} StepsKeepNonNegative(p: Progress, steps: seq<Step>)
    requires NonNegative(p) && forall s :: s in steps ==> StepSound(s)
    ensures NonNegative(AfterSteps(p, steps))
    decreases |steps|
  {
    if steps != [] {
      StepsKeepNonNegative(p, steps[..|steps| - 1]);
      AfterStepNonNegative(AfterSteps(p, steps[..|steps| - 1]), steps[|steps| - 1]);
    }
  }

  /** After any number of the record's steps, cash and every holding are at least zero. */
  lemma {:induction false} BookNeverNegative(d: Decision, n: nat)
    requires InputsSound(d) && n <= |Timeline(d)|
    ensures forall s :: s in Timeline(d)[..n] ==> StepSound(s)
    ensures NonNegative(AfterSteps(Opening(d), Timeline(d)[..n]))
  {
    TimelineSound(d);
    StepsKeepNonNegative(Opening(d), Timeline(d)[..n]);
  }

  /** The cash is the opening cash and the effect of exactly the fills recorded. */
  lemma {:induction false} CashIsReplayed(p: Progress, steps: seq<Step>)
    requires p.fills == [] && forall s :: s in steps ==> StepSound(s)
    ensures AfterSteps(p, steps).cash == p.cash + SumBy(AfterSteps(p, steps).fills, CashEffect)
    decreases |steps|
  {
    if steps != [] {
      var before := AfterSteps(p, steps[..|steps| - 1]);
      var s := steps[|steps| - 1];
      CashIsReplayed(p, steps[..|steps| - 1]);
      assert StepSound(s);
      if s.FillStep? {
        SumAppend(before.fills, FillFor(s, AppliedQuantity(before, s)), CashEffect);
      }
    }
  }

  // ---------------------------------------------------------------------------------------------
  // Replaying one entity's quantity from the persisted fills and the splits
  // ---------------------------------------------------------------------------------------------

  datatype Event = SplitEvent(date: Date, ratio: real) | FillEvent(date: Date, side: Side, quantity: real)

  /** The replay's order: by date, a split before a same-day fill. */
  function EventKey(e: Event): Key {
    Key(e.date, if e.SplitEvent? then 0 else 1, 0)
  }

  function FillEvents(fills: seq<ShadowFill>, entityId: EntityId): seq<Event>
    decreases |fills|
  {
    if fills == [] then []
    else
      var f := fills[|fills| - 1];
      var earlier := FillEvents(fills[..|fills| - 1], entityId);
      if f.entityId == entityId then earlier + [FillEvent(f.session, f.side, f.quantity)] else earlier
  }

  /** The entity's splits after a date. */
  function SplitEvents(after: int, splits: seq<Split>, entityId: EntityId): seq<Event>
    decreases |splits|
  {
    if splits == [] then []
    else
      var s := splits[|splits| - 1];
      var earlier := SplitEvents(after, splits[..|splits| - 1], entityId);
      if s.entityId == entityId && s.exDate > after then earlier + [SplitEvent(s.exDate, s.ratio)] else earlier
  }

  function AfterEvent(q: real, e: Event): real {
    match e
    case SplitEvent(_, ratio) => q * ratio
    case FillEvent(_, side, quantity) => if side == Buy then q + quantity else q - quantity
  }

  function AfterEvents(q: real, events: seq<Event>): real
    decreases |events|
  {
    if events == [] then q else AfterEvent(AfterEvents(q, events[..|events| - 1]), events[|events| - 1])
  }

  /** The replayed quantity: fills first, then splits, stably sorted by date and kind, applied in turn. */
  function ReplayedQuantity(d: Decision, fills: seq<ShadowFill>, entityId: EntityId): real {
    AfterEvents(Of(d.positions, entityId),
                Sort(FillEvents(fills, entityId) + SplitEvents(d.session, d.splits, entityId), EventKey))
  }

  /** What one step did to the entity, as an event. */
  function EventOf(before: Progress, s: Step, entityId: EntityId): seq<Event>
    requires StepSound(s)
  {
    if s.entityId != entityId then []
    else if s.SplitStep? then [SplitEvent(s.date, s.ratio)]
    else if AppliedQuantity(before, s) <= 0.0 then []
    else [FillEvent(s.date, s.side, AppliedQuantity(before, s))]
  }

  function Trace(p: Progress, steps: seq<Step>, entityId: EntityId): seq<Event>
    requires forall s :: s in steps ==> StepSound(s)
    decreases |steps|
  {
    if steps == [] then []
    else
      Trace(p, steps[..|steps| - 1], entityId)
      + EventOf(AfterSteps(p, steps[..|steps| - 1]), steps[|steps| - 1], entityId)
  }

  lemma {:induction false} AfterOneMore(q: real, events: seq<Event>, e: Event)
    ensures AfterEvents(q, events + [e]) == AfterEvent(AfterEvents(q, events), e)
  {
  }

  lemma {:induction false} StepReplays(before: Progress, s: Step, entityId: EntityId)
    requires StepSound(s)
    ensures var es := EventOf(before, s, entityId);
            Of(AfterStep(before, s).held, entityId)
            == if es == [] then Of(before.held, entityId) else AfterEvent(Of(before.held, entityId), es[0])
  {
  }

  lemma {:induction false} TraceReplays(p: Progress, steps: seq<Step>, entityId: EntityId)
    requires forall s :: s in steps ==> StepSound(s)
    ensures Of(AfterSteps(p, steps).held, entityId) == AfterEvents(Of(p.held, entityId), Trace(p, steps, entityId))
    decreases |steps|
  {
    if steps != [] {
      var earlier, s := steps[..|steps| - 1], steps[|steps| - 1];
      TraceReplays(p, earlier, entityId);
      var before := AfterSteps(p, earlier);
      StepReplays(before, s, entityId);
      var es := EventOf(before, s, entityId);
      var t := Trace(p, earlier, entityId);
      if es == [] {
        assert t + es == t;
      } else {
        assert t + es == t + [es[0]];
        AfterOneMore(Of(p.held, entityId), t, es[0]);
      }
    }
  }

  /** The part of a step's key the replay also sorts by. */
  function ReplayKey(s: Step): Key {
    Key(s.date, if s.SplitStep? then 0 else 1, 0)
  }

  lemma {:induction false} TraceSortedStep(t: seq<Event>, p: Progress, s: Step, entityId: EntityId)
    requires StepSound(s) && IsSorted(t, EventKey) && (t != [] ==> Leq(EventKey(t[|t| - 1]), ReplayKey(s)))
    ensures var t' := t + EventOf(p, s, entityId);
            IsSorted(t', EventKey) && (t' != [] ==> Leq(EventKey(t'[|t'| - 1]), ReplayKey(s)))
  {
    var es := EventOf(p, s, entityId);
    if es == [] {
      assert t + es == t;
    } else {
      assert EventKey(es[0]) == ReplayKey(s);
      assert t + es == t + [es[0]];
      SortedAppend(t, es[0], EventKey);
    }
  }

  lemma {:induction false} TraceSorted(p: Progress, steps: seq<Step>, entityId: EntityId)
    requires forall s :: s in steps ==> StepSound(s)
    requires IsSorted(steps, StepKey)
    ensures var t := Trace(p, steps, entityId);
            IsSorted(t, EventKey) && (t != [] ==> Leq(EventKey(t[|t| - 1]), ReplayKey(steps[|steps| - 1])))
    decreases |steps|
  {
    if steps != [] {
      var earlier, s := steps[..|steps| - 1], steps[|steps| - 1];
      var t := Trace(p, earlier, entityId);
      TraceSorted(p, earlier, entityId);
      if earlier != [] {
        CoarserOrder(earlier[|earlier| - 1], s);
      }
      TraceSortedStep(t, AfterSteps(p, earlier), s, entityId);
    }
  }

  lemma {:induction false} CoarserOrder(a: Step, b: Step)
    requires Leq(StepKey(a), StepKey(b))
    ensures Leq(ReplayKey(a), ReplayKey(b))
  {
  }

  lemma {:induction false} TraceFills(p: Progress, steps: seq<Step>, entityId: EntityId, k: Key)
    requires p.fills == [] && k.b == 1 && forall s :: s in steps ==> StepSound(s)
    ensures Under(Trace(p, steps, entityId), k, EventKey) == Under(FillEvents(AfterSteps(p, steps).fills, entityId), k, EventKey)
    decreases |steps|
  {
    if steps != [] {
      var earlier, s := steps[..|steps| - 1], steps[|steps| - 1];
      var before, t := AfterSteps(p, earlier), Trace(p, earlier, entityId);
      TraceFills(p, earlier, entityId, k);
      var es := EventOf(before, s, entityId);
      if es == [] {
        assert t + es == t;
      } else {
        assert t + es == t + [es[0]];
        UnderAppend(t, es[0], k, EventKey);
      }
      if s.FillStep? && AppliedQuantity(before, s) > 0.0 {
        var f := FillFor(s, AppliedQuantity(before, s));
        assert (before.fills + [f])[..|before.fills|] == before.fills;
        UnderAppend(FillEvents(before.fills, entityId), FillEvent(f.session, f.side, f.quantity), k, EventKey);
      }
    }
  }

  function AsEvents(steps: seq<Step>): seq<Event>
    requires forall s :: s in steps ==> s.SplitStep?
    decreases |steps|
  {
    if steps == [] then [] else AsEvents(steps[..|steps| - 1]) + [SplitEvent(steps[|steps| - 1].date, steps[|steps| - 1].ratio)]
  }

  lemma {:induction false} UnderSplitKey(steps: seq<Step>, k: Key)
    requires k.b == 0
    ensures forall s :: s in Under(steps, k, StepKey) ==> s.SplitStep?
    decreases |steps|
  {
    if steps != [] {
      UnderSplitKey(steps[..|steps| - 1], k);
    }
  }

  lemma {:induction false} TraceSplits(p: Progress, steps: seq<Step>, entityId: EntityId, date: int)
    requires forall s :: s in steps ==> StepSound(s)
    requires forall s :: s in Under(steps, Key(date, 0, entityId), StepKey) ==> s.SplitStep?
    ensures Under(Trace(p, steps, entityId), Key(date, 0, 0), EventKey) == AsEvents(Under(steps, Key(date, 0, entityId), StepKey))
    decreases |steps|
  {
    if steps != [] {
      var earlier, s := steps[..|steps| - 1], steps[|steps| - 1];
      var t := Trace(p, earlier, entityId);
      UnderSplitKey(earlier, Key(date, 0, entityId));
      TraceSplits(p, earlier, entityId, date);
      var es := EventOf(AfterSteps(p, earlier), s, entityId);
      if es == [] {
        assert t + es == t;
      } else {
        assert t + es == t + [es[0]];
        UnderAppend(t, es[0], Key(date, 0, 0), EventKey);
      }
      if StepKey(s) == Key(date, 0, entityId) {
        var u := Under(earlier, Key(date, 0, entityId), StepKey);
        assert (u + [s])[..|u|] == u;
      }
    }
  }

  lemma {:induction false} SplitStepsAsEvents(d: Decision, splits: seq<Split>, entityId: EntityId, date: int)
    requires forall s :: s in Under(SplitSteps(d, splits), Key(date, 0, entityId), StepKey) ==> s.SplitStep?
    ensures AsEvents(Under(SplitSteps(d, splits), Key(date, 0, entityId), StepKey))
            == Under(SplitEvents(d.session, splits, entityId), Key(date, 0, 0), EventKey)
    decreases |splits|
  {
    if splits != [] {
      var earlier, s := splits[..|splits| - 1], splits[|splits| - 1];
      var k := Key(date, 0, entityId);
      UnderSplitKey(SplitSteps(d, earlier), k);
      SplitStepsAsEvents(d, earlier, entityId, date);
      if s.exDate > d.session {
        var step := SplitStep(s.exDate, s.entityId, s.ratio);
        UnderAppend(SplitSteps(d, earlier), step, k, StepKey);
        var u := Under(SplitSteps(d, earlier), k, StepKey);
        assert (u + [step])[..|u|] == u;
        if s.entityId == entityId {
          UnderAppend(SplitEvents(d.session, earlier, entityId), SplitEvent(s.exDate, s.ratio), Key(date, 0, 0), EventKey);
        }
      }
    }
  }

  lemma {:induction false} OrderStepsHaveNoSplits(d: Decision, orders: seq<Order>, k: Key)
    requires k.b == 0
    ensures Under(OrderSteps(d, orders), k, StepKey) == []
    decreases |orders|
  {
    if orders != [] {
      var earlier, o := orders[..|orders| - 1], orders[|orders| - 1];
      OrderStepsHaveNoSplits(d, earlier, k);
      UnderConcat(OrderSteps(d, earlier), StepsOf(d, o), k, StepKey);
      if d.simulate(o).Some? {
        FillStepsUnder(d, o, d.simulate(o).value, d.simulate(o).value.fills, k);
      }
    }
  }

  /** An order's fill steps stand only under its own entity's keys, and never under a split's. */
  lemma {:induction false} FillStepsUnder(d: Decision, o: Order, r: SimResult, fills: seq<SimFill>, k: Key)
    requires k.b == 0 || k.c != o.entityId
    ensures Under(FillSteps(d, o, r, fills), k, StepKey) == []
    decreases |fills|
  {
    if fills != [] {
      FillStepsUnder(d, o, r, fills[..|fills| - 1], k);
      UnderAppend(FillSteps(d, o, r, fills[..|fills| - 1]), FillStepOf(d, o, r, fills[|fills| - 1]), k, StepKey);
    }
  }

  lemma {:induction false} NoFillUnderSplitKey(fills: seq<ShadowFill>, entityId: EntityId, k: Key)
    requires k.b != 1 || k.c != 0
    ensures Under(FillEvents(fills, entityId), k, EventKey) == []
    decreases |fills|
  {
    if fills != [] {
      var f := fills[|fills| - 1];
      NoFillUnderSplitKey(fills[..|fills| - 1], entityId, k);
      UnderAppend(FillEvents(fills[..|fills| - 1], entityId), FillEvent(f.session, f.side, f.quantity), k, EventKey);
    }
  }

  lemma {:induction false} NoSplitUnderFillKey(session: Date, splits: seq<Split>, entityId: EntityId, k: Key)
    requires k.b != 0 || k.c != 0
    ensures Under(SplitEvents(session, splits, entityId), k, EventKey) == []
    decreases |splits|
  {
    if splits != [] {
      var s := splits[|splits| - 1];
      NoSplitUnderFillKey(session, splits[..|splits| - 1], entityId, k);
      UnderAppend(SplitEvents(session, splits[..|splits| - 1], entityId), SplitEvent(s.exDate, s.ratio), k, EventKey);
    }
  }

  lemma {:induction false} NoTraceElsewhere(p: Progress, steps: seq<Step>, entityId: EntityId, k: Key)
    requires forall s :: s in steps ==> StepSound(s)
    requires (k.b != 0 && k.b != 1) || k.c != 0
    ensures Under(Trace(p, steps, entityId), k, EventKey) == []
    decreases |steps|
  {
    if steps != [] {
      var t := Trace(p, steps[..|steps| - 1], entityId);
      NoTraceElsewhere(p, steps[..|steps| - 1], entityId, k);
      var es := EventOf(AfterSteps(p, steps[..|steps| - 1]), steps[|steps| - 1], entityId);
      if es == [] {
        assert t + es == t;
      } else {
        assert t + es == t + [es[0]];
        UnderAppend(t, es[0], k, EventKey);
      }
    }
  }

  lemma {:induction false} SplitKeysAgree(d: Decision, entityId: EntityId, date: int)
    requires forall s :: s in Timeline(d) ==> StepSound(s)
    ensures Under(Trace(Opening(d), Timeline(d), entityId), Key(date, 0, 0), EventKey)
            == Under(SplitEvents(d.session, d.splits, entityId), Key(date, 0, 0), EventKey)
  {
    var sk := Key(date, 0, entityId);
    SortUnder(AllSteps(d), sk, StepKey);
    UnderConcat(OrderSteps(d, Actionable(d, d.orders)), SplitSteps(d, d.splits), sk, StepKey);
    OrderStepsHaveNoSplits(d, Actionable(d, d.orders), sk);
    UnderSplitKey(Timeline(d), sk);
    UnderSplitKey(SplitSteps(d, d.splits), sk);
    TraceSplits(Opening(d), Timeline(d), entityId, date);
    SplitStepsAsEvents(d, d.splits, entityId, date);
    assert Under(Timeline(d), sk, StepKey) == Under(SplitSteps(d, d.splits), sk, StepKey);
  }

  /** The record's own trace and the replay's event list agree under every key. */
  lemma {:induction false} TraceIsReplayList(d: Decision, entityId: EntityId, k: Key)
    requires InputsSound(d) && forall s :: s in Timeline(d) ==> StepSound(s)
    ensures Under(Trace(Opening(d), Timeline(d), entityId), k, EventKey)
            == Under(FillEvents(AfterSteps(Opening(d), Timeline(d)).fills, entityId) + SplitEvents(d.session, d.splits, entityId), k, EventKey)
  {
    var fills := AfterSteps(Opening(d), Timeline(d)).fills;
    var fe, se := FillEvents(fills, entityId), SplitEvents(d.session, d.splits, entityId);
    UnderConcat(fe, se, k, EventKey);
    if k.b == 1 && k.c == 0 {
      TraceFills(Opening(d), Timeline(d), entityId, k);
      NoSplitUnderFillKey(d.session, d.splits, entityId, k);
    } else if k.b == 0 && k.c == 0 {
      NoFillUnderSplitKey(fills, entityId, k);
      SplitKeysAgree(d, entityId, k.a);
    } else {
      NoTraceElsewhere(Opening(d), Timeline(d), entityId, k);
      NoFillUnderSplitKey(fills, entityId, k);
      NoSplitUnderFillKey(d.session, d.splits, entityId, k);
    }
  }

  /**
   * Replaying only what the record persists, with the later splits, reproduces the final book: every holding
   * (a split before a same-day fill, although the record was applied by a finer order) and the cash.
   */
  lemma {:induction false} ReplayReproducesTheBook(d: Decision, entityId: EntityId)
    requires InputsSound(d)
    ensures forall s :: s in Timeline(d) ==> StepSound(s)
    ensures var p := AfterSteps(Opening(d), Timeline(d));
            && ReplayedQuantity(d, p.fills, entityId) == Of(p.held, entityId)
            && d.cash + SumBy(p.fills, CashEffect) == p.cash
  {
    TimelineSound(d);
    TraceIsReplay(d, entityId);
    TraceReplays(Opening(d), Timeline(d), entityId);
    CashIsReplayed(Opening(d), Timeline(d));
  }

  /** What the record did to the entity, step by step, is the replay's sorted list of events. */
  lemma {:induction false} TraceIsReplay(d: Decision, entityId: EntityId)
    requires InputsSound(d)
    ensures forall s :: s in Timeline(d) ==> StepSound(s)
    ensures var fills := AfterSteps(Opening(d), Timeline(d)).fills;
            Trace(Opening(d), Timeline(d), entityId)
            == Sort(FillEvents(fills, entityId) + SplitEvents(d.session, d.splits, entityId), EventKey)
  {
    TimelineSound(d);
    var p := AfterSteps(Opening(d), Timeline(d));
    var t := Trace(Opening(d), Timeline(d), entityId);
    var listed := FillEvents(p.fills, entityId) + SplitEvents(d.session, d.splits, entityId);
    SortSorted(AllSteps(d), StepKey);
    TraceSorted(Opening(d), Timeline(d), entityId);
    SortSorted(listed, EventKey);
    forall k ensures Under(t, k, EventKey) == Under(Sort(listed, EventKey), k, EventKey) {
      TraceIsReplayList(d, entityId, k);
      SortUnder(listed, k, EventKey);
    }
    SortedIsDetermined(t, Sort(listed, EventKey), EventKey);
  }

  // ---------------------------------------------------------------------------------------------
  // The gate binds the fills
  // ---------------------------------------------------------------------------------------------

  lemma {:induction false} FillsAreOfSteps(p: Progress, steps: seq<Step>, f: ShadowFill)
    requires p.fills == [] && (forall s :: s in steps ==> StepSound(s)) && f in AfterSteps(p, steps).fills
    ensures exists s :: s in steps && s.FillStep? && s.date == f.session && s.side == f.side && s.entityId == f.entityId && s.price == f.price
    decreases |steps|
  {
    var earlier, s := steps[..|steps| - 1], steps[|steps| - 1];
    if f in AfterSteps(p, earlier).fills {
      FillsAreOfSteps(p, earlier, f);
    } else {
      assert s in steps && StepSound(s);
    }
  }

  lemma {:induction false} FillStepsOfOrder(d: Decision, o: Order, r: SimResult, fills: seq<SimFill>)
    ensures forall s :: s in FillSteps(d, o, r, fills) ==> s.FillStep? && s.side == o.Side() && s.entityId == o.entityId
    decreases |fills|
  {
    if fills != [] {
      FillStepsOfOrder(d, o, r, fills[..|fills| - 1]);
    }
  }

  lemma {:induction false} OrderStepsOfOrders(d: Decision, orders: seq<Order>, s: Step)
    requires s in OrderSteps(d, orders)
    ensures exists o :: o in orders && s.FillStep? && s.side == o.Side() && s.entityId == o.entityId
    decreases |orders|
  {
    var earlier, o := orders[..|orders| - 1], orders[|orders| - 1];
    if s in OrderSteps(d, earlier) {
      OrderStepsOfOrders(d, earlier, s);
    } else {
      FillStepsOfOrder(d, o, d.simulate(o).value, d.simulate(o).value.fills);
    }
  }

  lemma {:induction false} SplitStepsAreSplits(d: Decision, splits: seq<Split>)
    ensures forall s :: s in SplitSteps(d, splits) ==> s.SplitStep?
    decreases |splits|
  {
    if splits != [] {
      SplitStepsAreSplits(d, splits[..|splits| - 1]);
    }
  }

  /** Order construction exits every priced line the target removes, whatever its size. */
  ghost predicate RemovedAreExited(d: Decision) {
    forall e :: e in RemovedHeld(d) && e in d.priced ==> exists o :: o in d.orders && o.entityId == e && o.deltaShares < 0.0
  }

  /** Under HOLD_ONLY every held line the target removes is listed as a frozen exit, priced or not. */
  lemma {:induction false} FreezeListsEveryRemovedLine(d: Decision, e: EntityId)
    requires d.holdOnly && RemovedAreExited(d) && e in d.positions && d.positions[e] > 0.0 && e !in d.weighted
    ensures e in RemovedHeld(d) && e in Suppressed(d, false) + RemovedUnpriced(d)
  {
    if e in d.priced {
      var o :| o in d.orders && o.entityId == e && o.deltaShares < 0.0;
      assert !IsActionable(d, o);
    }
  }

  /** Every persisted fill is of an order the gate let through: none under HOLD_ONLY, no buy under blocked new risk. */
  lemma {:induction false} GateBindsTheFills(d: Decision, f: ShadowFill)
    requires InputsSound(d)
    requires forall s :: s in Timeline(d) ==> StepSound(s)
    requires f in AfterSteps(Opening(d), Timeline(d)).fills
    ensures !d.holdOnly && (d.newRiskAllowed || f.side == Sell)
    ensures exists o :: o in d.orders && IsActionable(d, o) && o.entityId == f.entityId && o.Side() == f.side
  {
    FillsAreOfSteps(Opening(d), Timeline(d), f);
    var s :| s in Timeline(d) && s.FillStep? && s.side == f.side && s.entityId == f.entityId;
    SortContains(AllSteps(d), StepKey);
    SplitStepsAreSplits(d, d.splits);
    OrderStepsOfOrders(d, Actionable(d, d.orders), s);
    ActionableListed(d, d.orders);
  }

  // ---------------------------------------------------------------------------------------------
  // The listing order of the orders does not matter
  // ---------------------------------------------------------------------------------------------

  /** Same orders, listed otherwise. */
  ghost predicate SameOrders(a: seq<Order>, b: seq<Order>) {
    OnePerEntity(a) && OnePerEntity(b) && forall o :: o in a <==> o in b
  }

  /** What stands under an entity's keys comes from its one order alone. */
  lemma {:induction false} OrderStepsUnder(d: Decision, orders: seq<Order>, o: Order, k: Key)
    requires OnePerEntity(orders) && o in orders && k.c == o.entityId
    ensures Under(OrderSteps(d, orders), k, StepKey) == Under(StepsOf(d, o), k, StepKey)
    decreases |orders|
  {
    var earlier, last := orders[..|orders| - 1], orders[|orders| - 1];
    UnderConcat(OrderSteps(d, earlier), StepsOf(d, last), k, StepKey);
    if o == last {
      forall x | x in earlier ensures x.entityId != k.c {
        var i :| 0 <= i < |earlier| && earlier[i] == x;
        assert orders[i].entityId != orders[|orders| - 1].entityId;
      }
      NoStepsUnder(d, earlier, k);
    } else {
      var i :| 0 <= i < |orders| && orders[i] == o;
      assert orders[i].entityId != orders[|orders| - 1].entityId;
      assert o == earlier[i];
      OrderStepsUnder(d, earlier, o, k);
      NoStepsOf(d, last, k);
    }
  }

  lemma {:induction false} NoStepsOf(d: Decision, o: Order, k: Key)
    requires k.c != o.entityId
    ensures Under(StepsOf(d, o), k, StepKey) == []
  {
    if d.simulate(o).Some? {
      FillStepsUnder(d, o, d.simulate(o).value, d.simulate(o).value.fills, k);
    }
  }

  lemma {:induction false} NoStepsUnder(d: Decision, orders: seq<Order>, k: Key)
    requires forall o :: o in orders ==> o.entityId != k.c
    ensures Under(OrderSteps(d, orders), k, StepKey) == []
    decreases |orders|
  {
    if orders != [] {
      var earlier, last := orders[..|orders| - 1], orders[|orders| - 1];
      UnderConcat(OrderSteps(d, earlier), StepsOf(d, last), k, StepKey);
      NoStepsUnder(d, earlier, k);
      NoStepsOf(d, last, k);
    }
  }

  lemma {:induction false} SameUnder(d: Decision, a: seq<Order>, b: seq<Order>, k: Key)
    requires SameOrders(a, b)
    ensures Under(OrderSteps(d, a), k, StepKey) == Under(OrderSteps(d, b), k, StepKey)
  {
    if exists o :: o in a && o.entityId == k.c {
      var o :| o in a && o.entityId == k.c;
      OrderStepsUnder(d, a, o, k);
      OrderStepsUnder(d, b, o, k);
    } else {
      NoStepsUnder(d, a, k);
      NoStepsUnder(d, b, k);
    }
  }

  lemma {:induction false} ActionableOnePerEntity(d: Decision, orders: seq<Order>)
    requires OnePerEntity(orders)
    ensures OnePerEntity(Actionable(d, orders))
    decreases |orders|
  {
    if orders != [] {
      var earlier, last := orders[..|orders| - 1], orders[|orders| - 1];
      ActionableOnePerEntity(d, earlier);
      ActionableListed(d, earlier);
      forall o | o in Actionable(d, earlier) ensures o.entityId != last.entityId {
        var i :| 0 <= i < |earlier| && earlier[i] == o;
        assert orders[i].entityId != orders[|orders| - 1].entityId;
      }
    }
  }

  lemma {:induction false} OrdersAreNotRead(d: Decision, e: Decision, orders: seq<Order>, splits: seq<Split>)
    requires e == d.(orders := e.orders)
    ensures Actionable(d, orders) == Actionable(e, orders)
    ensures OrderSteps(d, orders) == OrderSteps(e, orders)
    ensures SplitSteps(d, splits) == SplitSteps(e, splits)
    decreases |orders| + |splits|
  {
    if splits != [] {
      OrdersAreNotRead(d, e, orders, splits[..|splits| - 1]);
    } else if orders != [] {
      var o := orders[|orders| - 1];
      OrdersAreNotRead(d, e, orders[..|orders| - 1], splits);
      if d.simulate(o).Some? {
        FillStepsReadNoOrders(d, e, o, d.simulate(o).value, d.simulate(o).value.fills);
      }
    }
  }

  lemma {:induction false} FillStepsReadNoOrders(d: Decision, e: Decision, o: Order, r: SimResult, fills: seq<SimFill>)
    requires e == d.(orders := e.orders)
    ensures FillSteps(d, o, r, fills) == FillSteps(e, o, r, fills)
    decreases |fills|
  {
    if fills != [] {
      FillStepsReadNoOrders(d, e, o, r, fills[..|fills| - 1]);
      var f := fills[|fills| - 1];
      assert FillStepOf(d, o, r, f) == FillStepOf(e, o, r, f);
      assert FillSteps(e, o, r, fills) == FillSteps(e, o, r, fills[..|fills| - 1]) + [FillStepOf(e, o, r, f)];
    }
  }

  /** The same orders listed in another order give the same timeline, hence the same fills, cash, holdings and shortfall. */
  lemma {:induction false} ListingOrderIsIrrelevant(d: Decision, e: Decision)
    requires e == d.(orders := e.orders) && SameOrders(d.orders, e.orders)
    ensures Timeline(d) == Timeline(e)
    ensures (forall s :: s in Timeline(d) ==> StepSound(s)) ==>
              AfterSteps(Opening(d), Timeline(d)) == AfterSteps(Opening(e), Timeline(e))
  {
    var a, b := Actionable(d, d.orders), Actionable(d, e.orders);
    OrdersAreNotRead(d, e, e.orders, d.splits);
    OrdersAreNotRead(d, e, b, d.splits);
    ActionableOnePerEntity(d, d.orders);
    ActionableOnePerEntity(d, e.orders);
    ActionableListed(d, d.orders);
    ActionableListed(d, e.orders);
    forall k ensures Under(AllSteps(d), k, StepKey) == Under(AllSteps(e), k, StepKey) {
      UnderConcat(OrderSteps(d, a), SplitSteps(d, d.splits), k, StepKey);
      UnderConcat(OrderSteps(d, b), SplitSteps(d, d.splits), k, StepKey);
      SameUnder(d, a, b, k);
    }
    SortForgetsOrder(AllSteps(d), AllSteps(e), StepKey);
  }

  // ---------------------------------------------------------------------------------------------
  // Conservation: applied plus remaining is the order
  // ---------------------------------------------------------------------------------------------

  /** What the persisted fills come to for one entity, in the share units its order was sized in. */
  function UnitsFilled(d: Decision, fills: seq<ShadowFill>, entityId: EntityId): real
    decreases |fills|
  {
    if fills == [] then 0.0
    else
      var f := fills[|fills| - 1];
      var earlier := UnitsFilled(d, fills[..|fills| - 1], entityId);
      var factor := SplitFactor(d.splits, entityId, d.session, f.session);
      if f.entityId == entityId && factor != 0.0 then earlier + f.quantity / factor else earlier
  }

  /** The step's factor is the entity's split factor up to the step's own date. */
  predicate InUnits(d: Decision, s: Step) {
    s.FillStep? ==> s.factor == SplitFactor(d.splits, s.entityId, d.session, s.date)
  }

  function Units(s: Step, entityId: EntityId): real {
    if s.FillStep? && s.entityId == entityId then s.decisionUnits else 0.0
  }

  function UnitsFor(entityId: EntityId): Step -> real {
    s => Units(s, entityId)
  }

  lemma {:induction false} AppliedIsUnitsFilled(d: Decision, p: Progress, steps: seq<Step>, entityId: EntityId)
    requires p.fills == [] && p.applied == map[]
    requires forall s :: s in steps ==> StepSound(s) && InUnits(d, s)
    ensures Of(AfterSteps(p, steps).applied, entityId) == UnitsFilled(d, AfterSteps(p, steps).fills, entityId)
    decreases |steps|
  {
    if steps != [] {
      var earlier, s := steps[..|steps| - 1], steps[|steps| - 1];
      var before := AfterSteps(p, earlier);
      AppliedIsUnitsFilled(d, p, earlier, entityId);
      assert StepSound(s) && InUnits(d, s);
      if s.FillStep? && AppliedQuantity(before, s) > 0.0 {
        AppliedShare(before, s);
        var f := FillFor(s, AppliedQuantity(before, s));
        assert (before.fills + [f])[..|before.fills|] == before.fills;
      }
    }
  }

  /** Both ways the code counts an applied quantity in decision units are the quantity over the factor. */
  lemma {:induction false} AppliedShare(before: Progress, s: Step)
    requires StepSound(s) && s.FillStep?
    ensures var q := AppliedQuantity(before, s);
            (if q == s.quantity then s.decisionUnits else q / s.factor) == q / s.factor
  {
  }

  lemma {:induction false} WholeShare(units: real, factor: real)
    requires factor > 0.0
    ensures units * factor / factor == units
  {
  }

  lemma {:induction false} ShareAtMost(q: real, units: real, factor: real)
    requires factor > 0.0 && 0.0 <= q <= units * factor
    ensures 0.0 <= q / factor <= units
  {
  }

  lemma {:induction false} AppliedAtMost(before: Progress, s: Step)
    requires NonNegative(before) && StepSound(s) && s.FillStep?
    ensures AppliedQuantity(before, s) <= s.quantity
  {
  }

  /** What a step adds to its order's applied quantity, in decision units. */
  function Increment(before: Progress, s: Step): real
    requires StepSound(s) && s.FillStep?
  {
    var q := AppliedQuantity(before, s);
    if q <= 0.0 then 0.0 else if q == s.quantity then s.decisionUnits else q / s.factor
  }

  lemma {:induction false} IncrementBounded(before: Progress, s: Step)
    requires NonNegative(before) && StepSound(s) && s.FillStep?
    ensures 0.0 <= Increment(before, s) <= s.decisionUnits
  {
    AppliedAtMost(before, s);
    AppliedShare(before, s);
    UnitsPositive(s);
    if AppliedQuantity(before, s) > 0.0 {
      ShareAtMost(AppliedQuantity(before, s), s.decisionUnits, s.factor);
    }
  }

  lemma {:induction false} AppliedAfter(before: Progress, s: Step, entityId: EntityId)
    requires StepSound(s)
    ensures Of(AfterStep(before, s).applied, entityId)
            == Of(before.applied, entityId) + if s.FillStep? && s.entityId == entityId then Increment(before, s) else 0.0
  {
  }

  lemma {:induction false} AppliedBounded(p: Progress, steps: seq<Step>, entityId: EntityId)
    requires NonNegative(p) && p.applied == map[] && forall s :: s in steps ==> StepSound(s)
    ensures 0.0 <= Of(AfterSteps(p, steps).applied, entityId) <= SumBy(steps, UnitsFor(entityId))
    decreases |steps|
  {
    if steps != [] {
      var earlier, s := steps[..|steps| - 1], steps[|steps| - 1];
      var before := AfterSteps(p, earlier);
      AppliedBounded(p, earlier, entityId);
      StepsKeepNonNegative(p, earlier);
      AppliedAfter(before, s, entityId);
      if s.FillStep? {
        IncrementBounded(before, s);
      }
    }
  }

  lemma {:induction false} UnitsPositive(s: Step)
    requires StepSound(s) && s.FillStep?
    ensures s.decisionUnits > 0.0
  {
  }

  lemma {:induction false} FillStepsUnits(d: Decision, o: Order, r: SimResult, fills: seq<SimFill>, entityId: EntityId)
    ensures SumBy(FillSteps(d, o, r, fills), UnitsFor(entityId)) == if entityId == o.entityId then SumBy(fills, SimQuantity) else 0.0
    decreases |fills|
  {
    if fills != [] {
      FillStepsUnits(d, o, r, fills[..|fills| - 1], entityId);
      SumAppend(FillSteps(d, o, r, fills[..|fills| - 1]), FillStepOf(d, o, r, fills[|fills| - 1]), UnitsFor(entityId));
    }
  }

  function SimulatedUnits(d: Decision, o: Order): real {
    match d.simulate(o)
    case None => 0.0
    case Some(r) => SumBy(r.fills, SimQuantity)
  }

  lemma {:induction false} StepsOfUnits(d: Decision, o: Order, entityId: EntityId)
    ensures SumBy(StepsOf(d, o), UnitsFor(entityId)) == if entityId == o.entityId then SimulatedUnits(d, o) else 0.0
  {
    if d.simulate(o).Some? {
      FillStepsUnits(d, o, d.simulate(o).value, d.simulate(o).value.fills, entityId);
    }
  }

  lemma {:induction false} OrderStepsUnits(d: Decision, orders: seq<Order>, o: Order)
    requires OnePerEntity(orders)
    ensures o in orders ==> SumBy(OrderSteps(d, orders), UnitsFor(o.entityId)) == SimulatedUnits(d, o)
    ensures (forall x :: x in orders ==> x.entityId != o.entityId) ==> SumBy(OrderSteps(d, orders), UnitsFor(o.entityId)) == 0.0
    decreases |orders|
  {
    if orders != [] {
      var earlier, last := orders[..|orders| - 1], orders[|orders| - 1];
      OrderStepsUnits(d, earlier, o);
      SumConcat(OrderSteps(d, earlier), StepsOf(d, last), UnitsFor(o.entityId));
      StepsOfUnits(d, last, o.entityId);
      forall x | x in earlier ensures x.entityId != last.entityId {
        var i :| 0 <= i < |earlier| && earlier[i] == x;
        assert orders[i].entityId != orders[|orders| - 1].entityId;
      }
      assert orders == earlier + [last];
    }
  }

  lemma {:induction false} SplitStepsUnits(d: Decision, splits: seq<Split>, entityId: EntityId)
    ensures SumBy(SplitSteps(d, splits), UnitsFor(entityId)) == 0.0
    decreases |splits|
  {
    if splits != [] {
      var s := splits[|splits| - 1];
      SplitStepsUnits(d, splits[..|splits| - 1], entityId);
      SumAppend(SplitSteps(d, splits[..|splits| - 1]), SplitStep(s.exDate, s.entityId, s.ratio), UnitsFor(entityId));
    }
  }

  lemma {:induction false} TimelineUnits(d: Decision, o: Order)
    requires InputsSound(d) && o in d.orders && IsActionable(d, o)
    ensures SumBy(Timeline(d), UnitsFor(o.entityId)) == SimulatedUnits(d, o)
  {
    var acts := Actionable(d, d.orders);
    ActionableListed(d, d.orders);
    ActionableOnePerEntity(d, d.orders);
    SortSum(AllSteps(d), StepKey, UnitsFor(o.entityId));
    SumConcat(OrderSteps(d, acts), SplitSteps(d, d.splits), UnitsFor(o.entityId));
    OrderStepsUnits(d, acts, o);
    SplitStepsUnits(d, d.splits, o.entityId);
  }

  lemma {:induction false} FillStepsInUnits(d: Decision, o: Order, r: SimResult, fills: seq<SimFill>)
    ensures forall s :: s in FillSteps(d, o, r, fills) ==> InUnits(d, s)
    decreases |fills|
  {
    if fills != [] {
      FillStepsInUnits(d, o, r, fills[..|fills| - 1]);
    }
  }

  lemma {:induction false} OrderStepsInUnits(d: Decision, orders: seq<Order>)
    ensures forall s :: s in OrderSteps(d, orders) ==> InUnits(d, s)
    decreases |orders|
  {
    if orders != [] {
      var o := orders[|orders| - 1];
      OrderStepsInUnits(d, orders[..|orders| - 1]);
      if d.simulate(o).Some? {
        FillStepsInUnits(d, o, d.simulate(o).value, d.simulate(o).value.fills);
      }
    }
  }

  lemma {:induction false} TimelineInUnits(d: Decision)
    ensures forall s :: s in Timeline(d) ==> InUnits(d, s)
  {
    OrderStepsInUnits(d, Actionable(d, d.orders));
    SplitStepsAreSplits(d, d.splits);
    SortContains(AllSteps(d), StepKey);
  }

  /** The quantity the record lists as unfilled for an order; nothing listed means nothing left. */
  function ListedRemaining(d: Decision, o: Order, p: Progress): real {
    var r := RemainderOf(d, o, p);
    if r == [] then 0.0 else r[0].remaining
  }

  /** Every order the gate let through is accounted for: its persisted fills, in decision units, and its listed remainder. */
  lemma {:induction false} OrderIsAccountedFor(d: Decision, o: Order)
    requires InputsSound(d) && o in d.orders && IsActionable(d, o)
    ensures forall s :: s in Timeline(d) ==> StepSound(s)
    ensures var p := AfterSteps(Opening(d), Timeline(d));
            && UnitsFilled(d, p.fills, o.entityId) + ListedRemaining(d, o, p) == o.Quantity()
            && UnitsFilled(d, p.fills, o.entityId) >= 0.0 && ListedRemaining(d, o, p) >= 0.0
  {
    TimelineSound(d);
    TimelineInUnits(d);
    AppliedIsUnitsFilled(d, Opening(d), Timeline(d), o.entityId);
    AppliedBounded(Opening(d), Timeline(d), o.entityId);
    TimelineUnits(d, o);
    if d.simulate(o).Some? {
      assert SimSound(o, d.simulate(o).value);
    }
  }
}
