/** Replaying an arm's book from its append-only fill records, up to any date. */
module ShadowBook {
  import opened Wrappers
  import opened StableSort
  import opened ShadowFills
  import opened ShadowFillLaws

  // ---------------------------------------------------------------------------------------------
  // The quantity going into a date
  // ---------------------------------------------------------------------------------------------

  /** The events dated before a date, of a list sorted by date. */
  function EventsBefore(events: seq<Event>, exDate: int): seq<Event>
    decreases |events|
  {
    if events == [] || events[|events| - 1].date < exDate then events else EventsBefore(events[..|events| - 1], exDate)
  }

  /** Fills first, then splits after a date, stably sorted by date and kind, and applied up to the ex-date. */
  function Entitled(q: real, after: int, fills: seq<ShadowFill>, splits: seq<Split>, entityId: EntityId, exDate: int): real {
    AfterEvents(q, EventsBefore(Sort(FillEvents(fills, entityId) + SplitEvents(after, splits, entityId), EventKey), exDate))
  }

  lemma {:induction false} CutIsBefore(events: seq<Event>, n: nat, exDate: int)
    requires IsSorted(events, EventKey) && n <= |events|
    requires n > 0 ==> events[n - 1].date < exDate
    requires n < |events| ==> events[n].date >= exDate
    ensures EventsBefore(events, exDate) == events[..n]
    decreases |events|
  {
    if n == |events| {
      assert events[..n] == events;
    } else {
      SortedPairs(events, n, |events| - 1, EventKey);
      var front := events[..|events| - 1];
      CutIsBefore(front, n, exDate);
      assert front[..n] == events[..n];
    }
  }

  /** The code's replay starts from nothing and takes every split: `q` is zero and `after` precedes every date. */
  method EntitledQuantity(q0: real, after: int, fills: seq<ShadowFill>, splits: seq<Split>, entityId: EntityId, exDate: int)
    returns (q: real)
    ensures q == Entitled(q0, after, fills, splits, entityId, exDate)
  {
    var evs: seq<Event> := [];
    for i := 0 to |fills|
      invariant evs == FillEvents(fills[..i], entityId)
    {
      assert fills[..i + 1][..i] == fills[..i];
      if fills[i].entityId == entityId {
        evs := evs + [FillEvent(fills[i].session, fills[i].side, fills[i].quantity)];
      }
    }
    assert fills[..|fills|] == fills;
    for i := 0 to |splits|
      invariant evs == FillEvents(fills, entityId) + SplitEvents(after, splits[..i], entityId)
    {
      assert splits[..i + 1][..i] == splits[..i];
      if splits[i].entityId == entityId && splits[i].exDate > after {
        evs := evs + [SplitEvent(splits[i].exDate, splits[i].ratio)];
      }
    }
    assert splits[..|splits|] == splits;
    var unsorted := evs;
    evs := Sort(evs, EventKey);
    SortSorted(unsorted, EventKey);
    q := ApplyBefore(q0, evs, exDate);
  }

  /** Apply the events in turn, stopping at the first on or after the ex-date. */
  method ApplyBefore(q0: real, events: seq<Event>, exDate: int) returns (q: real)
    requires IsSorted(events, EventKey)
    ensures q == AfterEvents(q0, EventsBefore(events, exDate))
  {
    q := q0;
    var i := 0;
    assert events[..0] == [];
    while i < |events| && events[i].date < exDate
      invariant i <= |events| && q == AfterEvents(q0, events[..i])
      invariant i > 0 ==> events[i - 1].date < exDate
    {
      assert events[..i + 1] == events[..i] + [events[i]];
      AfterOneMore(q0, events[..i], events[i]);
      q := AfterEvent(q, events[i]);
      i := i + 1;
    }
    CutIsBefore(events, i, exDate);
  }

  // ---------------------------------------------------------------------------------------------
  // It is what the record held then
  // ---------------------------------------------------------------------------------------------

  /** The record's steps dated before a date. */
  function StepsBefore(steps: seq<Step>, exDate: int): (r: seq<Step>)
    ensures r <= steps
    decreases |steps|
  {
    if steps == [] || steps[|steps| - 1].date < exDate then steps else StepsBefore(steps[..|steps| - 1], exDate)
  }

  /** The book going into a date: the record's timeline applied up to it. */
  function BookBefore(d: Decision, exDate: int): Progress
    requires forall s :: s in Timeline(d) ==> StepSound(s)
  {
    AfterSteps(Opening(d), StepsBefore(Timeline(d), exDate))
  }

  lemma {:induction false} EventDates(before: Progress, s: Step, entityId: EntityId)
    requires StepSound(s)
    ensures |EventOf(before, s, entityId)| <= 1
    ensures forall e :: e in EventOf(before, s, entityId) ==> e.date == s.date
  {
  }

  lemma {:induction false} EventsBeforeAppend(t: seq<Event>, es: seq<Event>, exDate: int)
    requires |es| <= 1 && forall e :: e in es ==> e.date >= exDate
    ensures EventsBefore(t + es, exDate) == EventsBefore(t, exDate)
  {
    if es == [] {
      assert t + es == t;
    } else {
      assert es[0] in es;
      assert (t + es)[..|t + es| - 1] == t;
    }
  }

  lemma {:induction false} TraceBefore(p: Progress, steps: seq<Step>, entityId: EntityId, exDate: int)
    requires IsSorted(steps, StepKey) && forall s :: s in steps ==> StepSound(s)
    ensures forall s :: s in StepsBefore(steps, exDate) ==> StepSound(s)
    ensures EventsBefore(Trace(p, steps, entityId), exDate) == Trace(p, StepsBefore(steps, exDate), entityId)
    decreases |steps|
  {
    if steps != [] {
      var earlier, s := steps[..|steps| - 1], steps[|steps| - 1];
      if s.date < exDate {
        TraceSorted(p, steps, entityId);
      } else {
        var before := AfterSteps(p, earlier);
        TraceBefore(p, earlier, entityId, exDate);
        EventDates(before, s, entityId);
        EventsBeforeAppend(Trace(p, earlier, entityId), EventOf(before, s, entityId), exDate);
      }
    }
  }

  /**
   * For every date: replaying the persisted fills and the splits up to it, a split before a same-day fill, gives the
   * holding the record had going into it.
   */
  lemma {:induction false} EntitledIsHeldThen(d: Decision, entityId: EntityId, exDate: int)
    requires InputsSound(d)
    ensures forall s :: s in Timeline(d) ==> StepSound(s)
    ensures Entitled(Of(d.positions, entityId), d.session, AfterSteps(Opening(d), Timeline(d)).fills, d.splits, entityId, exDate)
            == Of(BookBefore(d, exDate).held, entityId)
  {
    TimelineSound(d);
    SortSorted(AllSteps(d), StepKey);
    TraceIsReplay(d, entityId);
    TraceBefore(Opening(d), Timeline(d), entityId, exDate);
    TraceReplays(Opening(d), StepsBefore(Timeline(d), exDate), entityId);
  }

  // ---------------------------------------------------------------------------------------------
  // And so is the cash
  // ---------------------------------------------------------------------------------------------

  /** The persisted fills dated before a date, of a list sorted by date. */
  function FillsBefore(fills: seq<ShadowFill>, exDate: int): seq<ShadowFill>
    decreases |fills|
  {
    if fills == [] || fills[|fills| - 1].session < exDate then fills else FillsBefore(fills[..|fills| - 1], exDate)
  }

  lemma {:induction false} StepFills(before: Progress, s: Step)
    requires StepSound(s)
    ensures AfterStep(before, s).fills == before.fills
            || (AfterStep(before, s).fills[..|AfterStep(before, s).fills| - 1] == before.fills
                && |AfterStep(before, s).fills| == |before.fills| + 1
                && AfterStep(before, s).fills[|before.fills|].session == s.date)
  {
    if s.FillStep? && AppliedQuantity(before, s) > 0.0 {
      var f := FillFor(s, AppliedQuantity(before, s));
      assert (before.fills + [f])[..|before.fills|] == before.fills;
    }
  }

  lemma {:induction false} LastFillDate(p: Progress, steps: seq<Step>)
    requires p.fills == [] && IsSorted(steps, StepKey) && forall s :: s in steps ==> StepSound(s)
    ensures var fills := AfterSteps(p, steps).fills;
            fills != [] ==> steps != [] && fills[|fills| - 1].session <= steps[|steps| - 1].date
    decreases |steps|
  {
    if steps != [] {
      var earlier, s := steps[..|steps| - 1], steps[|steps| - 1];
      LastFillDate(p, earlier);
      StepFills(AfterSteps(p, earlier), s);
    }
  }

  lemma {:induction false} FillsAreBefore(p: Progress, steps: seq<Step>, exDate: int)
    requires p.fills == [] && IsSorted(steps, StepKey) && forall s :: s in steps ==> StepSound(s)
    ensures forall s :: s in StepsBefore(steps, exDate) ==> StepSound(s)
    ensures FillsBefore(AfterSteps(p, steps).fills, exDate) == AfterSteps(p, StepsBefore(steps, exDate)).fills
    decreases |steps|
  {
    if steps != [] {
      var earlier, s := steps[..|steps| - 1], steps[|steps| - 1];
      if s.date < exDate {
        LastFillDate(p, steps);
      } else {
        FillsAreBefore(p, earlier, exDate);
        StepFills(AfterSteps(p, earlier), s);
      }
    }
  }

  /** For every date, the opening cash and the effects of the fills before it are the record's cash going into it. */
  lemma {:induction false} CashThenIsReplayed(d: Decision, exDate: int)
    requires InputsSound(d)
    ensures forall s :: s in Timeline(d) ==> StepSound(s)
    ensures BookBefore(d, exDate).cash
            == d.cash + SumBy(FillsBefore(AfterSteps(Opening(d), Timeline(d)).fills, exDate), CashEffect)
  {
    TimelineSound(d);
    SortSorted(AllSteps(d), StepKey);
    FillsAreBefore(Opening(d), Timeline(d), exDate);
    CashIsReplayed(Opening(d), StepsBefore(Timeline(d), exDate));
  }
}
