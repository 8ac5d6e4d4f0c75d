/** What the lookups answer around a registration, a symbol change, a merger, a delisting and a spin-off, date by date. */
module EntityMapAnswers {
  import opened Wrappers
  import opened EntityMap

  // ---------------------------------------------------------------------------------------------
  // Lookups when everything is known
  // ---------------------------------------------------------------------------------------------

  /** The range holds on the date, whoever knows it. */
  predicate Covers(e: SymbolRange, date: Date) {
    e.effectiveFrom <= date && (e.effectiveTo.None? || date <= e.effectiveTo.value)
  }

  /** Everything the table says can be known at `k`. */
  ghost predicate AllKnown(rows: Rows, k: Instant) {
    forall e :: e in rows ==> e.knownFrom <= k && (e.closeKnownFrom.Some? ==> e.closeKnownFrom.value <= k)
  }

  /** Some range of the entity holds for the symbol on the date. */
  ghost predicate Holds(rows: Rows, symbol: Symbol, entityId: EntityId, date: Date) {
    exists e :: e in rows && e.symbol == symbol && e.entityId == entityId && Covers(e, date)
  }

  lemma {:induction false} HoldersAre(rows: Rows, symbol: Symbol, date: Date, k: Instant, x: EntityId)
    requires AllKnown(rows, k)
    ensures x in Candidates(rows, symbol, date, k) <==> Holds(rows, symbol, x, date)
  {
    forall e | e in rows ensures Denotes(e, date, k) <==> Covers(e, date) {
    }
  }

  /** With everything known a symbol resolves to an entity exactly when a range of that entity holds on the date. */
  lemma {:induction false} ResolvedIff(rows: Rows, symbol: Symbol, date: Date, k: Instant, x: EntityId)
    requires NoOverlaps(rows) && AllKnown(rows, k)
    ensures Resolve(rows, symbol, date, k) == Some(x) <==> Holds(rows, symbol, x, date)
  {
    var c := Candidates(rows, symbol, date, k);
    HoldersAre(rows, symbol, date, k, x);
    if x in c {
      forall y | y in c ensures y == x {
        HoldersAre(rows, symbol, date, k, y);
        SameHolder(rows, symbol, date, x, y);
      }
      assert c == {x};
    } else if |c| == 1 {
      var y :| y in c;
    }
  }

  lemma {:induction false} SameHolder(rows: Rows, symbol: Symbol, date: Date, x: EntityId, y: EntityId)
    requires NoOverlaps(rows) && Holds(rows, symbol, x, date) && Holds(rows, symbol, y, date)
    ensures x == y
  {
    var a :| a in rows && a.symbol == symbol && a.entityId == x && Covers(a, date);
    var b :| b in rows && b.symbol == symbol && b.entityId == y && Covers(b, date);
    assert a.entityId != b.entityId ==> !Overlap(a, b);
  }

  // ---------------------------------------------------------------------------------------------
  // Registering a range
  // ---------------------------------------------------------------------------------------------

  lemma {:induction false} RegisteredRows(rows: Rows, r: RegisterSymbol, a: SymbolRange)
    requires Register(rows, r).Success? && !IsRegistered(rows, r)
    ensures a in Register(rows, r).value <==> a == r.Row() || exists e :: e in rows && a == GaveWay(e, r)
  {
    var after := Register(rows, r).value;
    if a in after {
      var i :| 0 <= i < |after| && after[i] == a;
      if i < |rows| {
        assert rows[i] in rows;
      }
    }
    if e :| e in rows && a == GaveWay(e, r) {
      var i :| 0 <= i < |rows| && rows[i] == e;
      assert after[i] == a;
    }
    assert after[|rows|] == r.Row();
  }

  lemma {:induction false} RegisterKnown(rows: Rows, r: RegisterSymbol, k: Instant)
    requires Register(rows, r).Success? && AllKnown(rows, k) && r.Known() <= k
    ensures AllKnown(Register(rows, r).value, k)
  {
    if !IsRegistered(rows, r) {
      forall a | a in Register(rows, r).value ensures a.knownFrom <= k && (a.closeKnownFrom.Some? ==> a.closeKnownFrom.value <= k) {
        RegisteredRows(rows, r, a);
      }
    }
  }

  predicate InRange(r: RegisterSymbol, date: Date) {
    r.effectiveFrom <= date && (r.effectiveTo.Some? ==> date <= r.effectiveTo.value)
  }

  /** A range of another entity that was open when the new one started: it ends the day before. */
  predicate EndedBy(e: SymbolRange, r: RegisterSymbol) {
    e.symbol == r.symbol && e.entityId != r.entityId && e.effectiveTo.None? && e.effectiveFrom < r.effectiveFrom
  }

  lemma {:induction false} GaveWayCovers(e: SymbolRange, r: RegisterSymbol, date: Date)
    requires WellFormed(e) && (r.effectiveTo.Some? ==> r.effectiveFrom <= r.effectiveTo.value)
    requires IsRival(e, r) ==> GivesWay(e, r)
    ensures Covers(GaveWay(e, r), date) <==> Covers(e, date) && !(EndedBy(e, r) && r.effectiveFrom <= date)
    ensures GaveWay(e, r).symbol == e.symbol && GaveWay(e, r).entityId == e.entityId
  {
  }

  /**
   * After a registration the registered range holds; an open range of another entity for the symbol holds only until the
   * day before it starts; and every other answer is as it was.
   */
  lemma {:induction false} RegisterAnswers(rows: Rows, r: RegisterSymbol, symbol: Symbol, x: EntityId, date: Date)
    requires NoOverlaps(rows) && Register(rows, r).Success?
    ensures Holds(Register(rows, r).value, symbol, x, date) <==>
      || (symbol == r.symbol && x == r.entityId && InRange(r, date))
      || (exists e :: e in rows && e.symbol == symbol && e.entityId == x && Covers(e, date)
                      && !(EndedBy(e, r) && r.effectiveFrom <= date))
  {
    if IsRegistered(rows, r) {
      RegisteredHolds(rows, r, symbol, x, date);
    } else {
      AddedAnswers(rows, r, symbol, x, date);
    }
  }

  lemma {:induction false} AddedAnswers(rows: Rows, r: RegisterSymbol, symbol: Symbol, x: EntityId, date: Date)
    requires NoOverlaps(rows) && Register(rows, r).Success? && !IsRegistered(rows, r)
    ensures Holds(Register(rows, r).value, symbol, x, date) <==>
      || (symbol == r.symbol && x == r.entityId && InRange(r, date))
      || (exists e :: e in rows && e.symbol == symbol && e.entityId == x && Covers(e, date)
                      && !(EndedBy(e, r) && r.effectiveFrom <= date))
  {
    var after := Register(rows, r).value;
    forall e | e in rows
      ensures Covers(GaveWay(e, r), date) <==> Covers(e, date) && !(EndedBy(e, r) && r.effectiveFrom <= date)
      ensures GaveWay(e, r).symbol == e.symbol && GaveWay(e, r).entityId == e.entityId
    {
      GaveWayCovers(e, r, date);
    }
    assert Covers(r.Row(), date) <==> InRange(r, date);
    if a :| a in after && a.symbol == symbol && a.entityId == x && Covers(a, date) {
      RegisteredRows(rows, r, a);
    }
    if e :| e in rows && e.symbol == symbol && e.entityId == x && Covers(e, date) && !(EndedBy(e, r) && r.effectiveFrom <= date) {
      RegisteredRows(rows, r, GaveWay(e, r));
    }
    RegisteredRows(rows, r, r.Row());
  }

  lemma {:induction false} RegisteredHolds(rows: Rows, r: RegisterSymbol, symbol: Symbol, x: EntityId, date: Date)
    requires NoOverlaps(rows) && IsRegistered(rows, r)
    ensures Holds(rows, symbol, x, date) <==>
      || (symbol == r.symbol && x == r.entityId && InRange(r, date))
      || (exists e :: e in rows && e.symbol == symbol && e.entityId == x && Covers(e, date)
                      && !(EndedBy(e, r) && r.effectiveFrom <= date))
  {
    var s :| s in rows && SameRange(s, r);
    assert WellFormed(s);
    assert Covers(s, date) <==> InRange(r, date);
    forall e | e in rows ensures !EndedBy(e, r) {
      assert e.symbol == s.symbol && e.entityId != s.entityId ==> !Overlap(e, s);
    }
  }

  /**
   * A registration is refused exactly when its dates are reversed, or, unless the very range is held already, another
   * entity's range for the symbol holds on one of its dates and is not an open one that started earlier.
   */
  lemma {:induction false} RegisterFailsIff(rows: Rows, r: RegisterSymbol)
    requires NoOverlaps(rows)
    ensures Register(rows, r).Failure? <==>
      || (r.effectiveTo.Some? && r.effectiveTo.value < r.effectiveFrom)
      || (!IsRegistered(rows, r)
          && exists e, date :: e in rows && e.symbol == r.symbol && e.entityId != r.entityId && Covers(e, date) && InRange(r, date)
               && !(e.effectiveTo.None? && e.effectiveFrom < r.effectiveFrom))
  {
    if !(r.effectiveTo.Some? && r.effectiveTo.value < r.effectiveFrom) {
      forall e | e in rows
        ensures IsRival(e, r) <==>
          e.symbol == r.symbol && e.entityId != r.entityId && exists date :: Covers(e, date) && InRange(r, date)
      {
        OverlapIff(e, r);
      }
    }
  }

  lemma {:induction false} OverlapIff(e: SymbolRange, r: RegisterSymbol)
    requires WellFormed(e) && (r.effectiveTo.Some? ==> r.effectiveFrom <= r.effectiveTo.value)
    ensures Overlap(e, r.Row()) <==> exists date :: Covers(e, date) && InRange(r, date)
  {
    var from := if e.effectiveFrom <= r.effectiveFrom then r.effectiveFrom else e.effectiveFrom;
    if Overlap(e, r.Row()) {
      assert Covers(e, from) && InRange(r, from);
    }
  }

  // ---------------------------------------------------------------------------------------------
  // Closing an entity: mergers and delistings
  // ---------------------------------------------------------------------------------------------

  lemma {:induction false} ClosedRows(rows: Rows, entityId: EntityId, last: Date, knownAt: Instant, a: SymbolRange)
    requires CloseEntity(rows, entityId, last, knownAt).Success?
    ensures a in CloseEntity(rows, entityId, last, knownAt).value <==>
      exists e :: e in rows && a == if e.entityId == entityId then Closed(e, last, knownAt) else e
  {
    var after := CloseEntity(rows, entityId, last, knownAt).value;
    if a in after {
      var i :| 0 <= i < |after| && after[i] == a;
      assert rows[i] in rows;
    }
    if e :| e in rows && a == if e.entityId == entityId then Closed(e, last, knownAt) else e {
      var i :| 0 <= i < |rows| && rows[i] == e;
      assert after[i] == a;
    }
  }

  /** After the close the entity's open ranges hold up to its last date only; every other range is as it was. */
  lemma {:induction false} CloseAnswers(rows: Rows, entityId: EntityId, last: Date, knownAt: Instant, symbol: Symbol, x: EntityId, date: Date)
    requires CloseEntity(rows, entityId, last, knownAt).Success?
    ensures Holds(CloseEntity(rows, entityId, last, knownAt).value, symbol, x, date) <==>
      exists e :: e in rows && e.symbol == symbol && e.entityId == x && Covers(e, date)
                  && (x == entityId && e.effectiveTo.None? ==> date <= last)
  {
    var after := CloseEntity(rows, entityId, last, knownAt).value;
    if a :| a in after && a.symbol == symbol && a.entityId == x && Covers(a, date) {
      ClosedRows(rows, entityId, last, knownAt, a);
    }
    if e :| e in rows && e.symbol == symbol && e.entityId == x && Covers(e, date)
            && (x == entityId && e.effectiveTo.None? ==> date <= last) {
      ClosedRows(rows, entityId, last, knownAt, if e.entityId == entityId then Closed(e, last, knownAt) else e);
    }
  }

  lemma {:induction false} CloseKnown(rows: Rows, entityId: EntityId, last: Date, knownAt: Instant, k: Instant)
    requires CloseEntity(rows, entityId, last, knownAt).Success? && AllKnown(rows, k) && knownAt <= k
    ensures AllKnown(CloseEntity(rows, entityId, last, knownAt).value, k)
  {
    forall a | a in CloseEntity(rows, entityId, last, knownAt).value
      ensures a.knownFrom <= k && (a.closeKnownFrom.Some? ==> a.closeKnownFrom.value <= k)
    {
      ClosedRows(rows, entityId, last, knownAt, a);
    }
  }

  /** A close is refused exactly when an open range of the entity would end before its first date. */
  lemma {:induction false} CloseFailsIff(rows: Rows, entityId: EntityId, last: Date, knownAt: Instant)
    ensures CloseEntity(rows, entityId, last, knownAt).Failure? <==>
      exists e :: e in rows && e.entityId == entityId && e.effectiveTo.None? && !Covers(e.(effectiveTo := Some(last)), e.effectiveFrom)
  {
    forall e: SymbolRange ensures StartsTooLate(e, entityId, last) <==>
        e.entityId == entityId && e.effectiveTo.None? && !Covers(e.(effectiveTo := Some(last)), e.effectiveFrom)
    {
    }
  }

  function OpenRows(rows: Rows, entityId: EntityId): set<int> {
    set i | 0 <= i < |rows| && rows[i].entityId == entityId && rows[i].effectiveTo.None?
  }

  /** What it returns is how many ranges it closes. */
  lemma {:induction false} OpenCountIs(rows: Rows, entityId: EntityId)
    ensures OpenCount(rows, entityId) == |OpenRows(rows, entityId)|
    decreases |rows|
  {
    if rows != [] {
      var n := |rows| - 1;
      var front := rows[..n];
      OpenCountIs(front, entityId);
      if rows[n].entityId == entityId && rows[n].effectiveTo.None? {
        assert OpenRows(rows, entityId) == OpenRows(front, entityId) + {n};
      } else {
        assert OpenRows(rows, entityId) == OpenRows(front, entityId);
      }
    } else {
      assert OpenRows(rows, entityId) == {};
    }
  }

  /** What is given no instant is known from the start of the day it concerns: its start, last date, or effective date. */
  lemma {:induction false} KnownFromTheDay(op: MapOp)
    ensures var at := op.KnowledgeInstant();
            match op
            case RegisterOp(r) => r.knownFrom.None? ==> at == r.effectiveFrom * DAY_MS
            case CloseOp(_, last, knownAt) => knownAt.None? ==> at == last * DAY_MS
            case ActionOp(action, knownAt) => knownAt.None? ==> at == action.EffectiveDate() * DAY_MS
  {
  }

  /** The last date an action leaves its entity's symbols in use: the day before a merger, the last trade date. */
  function LastUse(a: Action): Option<int> {
    match a
    case Merger(_, effective) => Some(effective - 1)
    case Delisting(_, last) => Some(last)
    case _ => None
  }

  /**
   * Around a merger or a delisting: through the last date of use every symbol resolves as it did, and after it a symbol
   * resolves to the entity only by a range that was closed, before the action, on or after the date.
   */
  lemma {:induction false} EndingAnswers(rows: Rows, a: Action, knownAt: Instant, k: Instant, symbol: Symbol, x: EntityId, date: Date)
    requires NoOverlaps(rows) && AllKnown(rows, k) && knownAt <= k
    requires LastUse(a).Some? && ApplyAction(rows, a, knownAt).Success?
    ensures var after := ApplyAction(rows, a, knownAt).value;
            && (date <= LastUse(a).value || x != a.entityId ==>
                  (Resolve(after, symbol, date, k) == Some(x) <==> Resolve(rows, symbol, date, k) == Some(x)))
            && (date > LastUse(a).value ==>
                  (Resolve(after, symbol, date, k) == Some(a.entityId) <==>
                     exists e :: e in rows && e.symbol == symbol && e.entityId == a.entityId
                                 && e.effectiveTo.Some? && e.effectiveFrom <= date <= e.effectiveTo.value))
  {
    var after, last := ApplyAction(rows, a, knownAt).value, LastUse(a).value;
    ApplyActionKeeps(rows, a, knownAt);
    CloseKnown(rows, a.entityId, last, knownAt, k);
    ResolvedIff(rows, symbol, date, k, x);
    ResolvedIff(after, symbol, date, k, x);
    ResolvedIff(after, symbol, date, k, a.entityId);
    CloseAnswers(rows, a.entityId, last, knownAt, symbol, x, date);
    CloseAnswers(rows, a.entityId, last, knownAt, symbol, a.entityId, date);
  }

  // ---------------------------------------------------------------------------------------------
  // Symbol changes
  // ---------------------------------------------------------------------------------------------

  /** An open range of the entity's old symbol that started before the change. */
  predicate EndsAtChange(e: SymbolRange, entityId: EntityId, oldSymbol: Symbol, effective: Date) {
    e.symbol == oldSymbol && e.entityId == entityId && e.effectiveTo.None? && e.effectiveFrom < effective
  }

  lemma {:induction false} OldClosedRows(rows: Rows, entityId: EntityId, oldSymbol: Symbol, effective: Date, knownAt: Instant, a: SymbolRange)
    requires effective > 0
    ensures a in OldSymbolClosed(rows, entityId, oldSymbol, effective, knownAt) <==>
      exists e :: e in rows && a == ClosedByChange(e, entityId, oldSymbol, effective, knownAt)
  {
    var after := OldSymbolClosed(rows, entityId, oldSymbol, effective, knownAt);
    if a in after {
      var i :| 0 <= i < |after| && after[i] == a;
      assert rows[i] in rows;
    }
    if e :| e in rows && a == ClosedByChange(e, entityId, oldSymbol, effective, knownAt) {
      var i :| 0 <= i < |rows| && rows[i] == e;
      assert after[i] == a;
    }
  }

  lemma {:induction false} OldClosedAnswers(rows: Rows, entityId: EntityId, oldSymbol: Symbol, effective: Date, knownAt: Instant,
                                            symbol: Symbol, x: EntityId, date: Date)
    requires effective > 0
    ensures Holds(OldSymbolClosed(rows, entityId, oldSymbol, effective, knownAt), symbol, x, date) <==>
      exists e :: e in rows && e.symbol == symbol && e.entityId == x && Covers(e, date)
                  && !(EndsAtChange(e, entityId, oldSymbol, effective) && effective <= date)
  {
    var after := OldSymbolClosed(rows, entityId, oldSymbol, effective, knownAt);
    forall e ensures Covers(ClosedByChange(e, entityId, oldSymbol, effective, knownAt), date) <==>
        Covers(e, date) && !(EndsAtChange(e, entityId, oldSymbol, effective) && effective <= date)
    {
    }
    if a :| a in after && a.symbol == symbol && a.entityId == x && Covers(a, date) {
      OldClosedRows(rows, entityId, oldSymbol, effective, knownAt, a);
    }
    if e :| e in rows && e.symbol == symbol && e.entityId == x && Covers(e, date)
            && !(EndsAtChange(e, entityId, oldSymbol, effective) && effective <= date) {
      OldClosedRows(rows, entityId, oldSymbol, effective, knownAt, ClosedByChange(e, entityId, oldSymbol, effective, knownAt));
    }
  }

  lemma {:induction false} OldClosedKnown(rows: Rows, entityId: EntityId, oldSymbol: Symbol, effective: Date, knownAt: Instant, k: Instant)
    requires effective > 0 && AllKnown(rows, k) && knownAt <= k
    ensures AllKnown(OldSymbolClosed(rows, entityId, oldSymbol, effective, knownAt), k)
  {
    forall a | a in OldSymbolClosed(rows, entityId, oldSymbol, effective, knownAt)
      ensures a.knownFrom <= k && (a.closeKnownFrom.Some? ==> a.closeKnownFrom.value <= k)
    {
      OldClosedRows(rows, entityId, oldSymbol, effective, knownAt, a);
    }
  }

  /** The table links the old symbol to the entity. */
  ghost predicate IsLinked(rows: Rows, entityId: EntityId, oldSymbol: Symbol) {
    exists e :: e in rows && e.symbol == oldSymbol && e.entityId == entityId
  }

  /** The tables between the three writes of a symbol change. */
  lemma {:induction false} ChangeSteps(rows: Rows, entityId: EntityId, oldSymbol: Symbol, newSymbol: Symbol, effective: Date, knownAt: Instant, k: Instant)
    returns (closed: Rows, linked: Rows)
    requires NoOverlaps(rows) && AllKnown(rows, k) && knownAt <= k
    requires ApplySymbolChange(rows, entityId, oldSymbol, newSymbol, effective, knownAt).Success?
    ensures effective > 0 && closed == OldSymbolClosed(rows, entityId, oldSymbol, effective, knownAt)
    ensures NoOverlaps(closed) && NoOverlaps(linked) && AllKnown(linked, k)
    ensures if IsLinked(rows, entityId, oldSymbol) then linked == closed
            else Register(closed, RegisterSymbol(oldSymbol, entityId, MATERIALIZED_RANGE_FLOOR, Some(effective - 1), Some(knownAt))) == Success(linked)
    ensures Register(linked, RegisterSymbol(newSymbol, entityId, effective, None, Some(knownAt)))
            == ApplySymbolChange(rows, entityId, oldSymbol, newSymbol, effective, knownAt)
  {
    closed := OldSymbolClosed(rows, entityId, oldSymbol, effective, knownAt);
    linked := closed;
    OldSymbolClosedKeeps(rows, entityId, oldSymbol, effective, knownAt);
    OldClosedKnown(rows, entityId, oldSymbol, effective, knownAt, k);
    assert IsLinked(rows, entityId, oldSymbol) <==> exists e :: e in rows && IsOldRange(e, entityId, oldSymbol);
    if !IsLinked(rows, entityId, oldSymbol) {
      var r := RegisterSymbol(oldSymbol, entityId, MATERIALIZED_RANGE_FLOOR, Some(effective - 1), Some(knownAt));
      linked := Register(closed, r).value;
      RegisterKeeps(closed, r);
      RegisterKnown(closed, r, k);
    }
  }

  lemma {:induction false} ChangedIsSound(rows: Rows, entityId: EntityId, oldSymbol: Symbol, newSymbol: Symbol, effective: Date, knownAt: Instant, k: Instant)
    requires NoOverlaps(rows) && AllKnown(rows, k) && knownAt <= k
    requires ApplySymbolChange(rows, entityId, oldSymbol, newSymbol, effective, knownAt).Success?
    ensures var after := ApplySymbolChange(rows, entityId, oldSymbol, newSymbol, effective, knownAt).value;
            NoOverlaps(after) && AllKnown(after, k)
  {
    var closed, linked := ChangeSteps(rows, entityId, oldSymbol, newSymbol, effective, knownAt, k);
    var r := RegisterSymbol(newSymbol, entityId, effective, None, Some(knownAt));
    RegisterKeeps(linked, r);
    RegisterKnown(linked, r, k);
  }

  /** From the effective date on, the new symbol is the entity's. */
  lemma {:induction false} NewSymbolAnswers(rows: Rows, entityId: EntityId, oldSymbol: Symbol, newSymbol: Symbol, effective: Date,
                                            knownAt: Instant, k: Instant, date: Date)
    requires NoOverlaps(rows) && AllKnown(rows, k) && knownAt <= k
    requires ApplySymbolChange(rows, entityId, oldSymbol, newSymbol, effective, knownAt).Success? && effective <= date
    ensures Resolve(ApplySymbolChange(rows, entityId, oldSymbol, newSymbol, effective, knownAt).value, newSymbol, date, k) == Some(entityId)
  {
    var closed, linked := ChangeSteps(rows, entityId, oldSymbol, newSymbol, effective, knownAt, k);
    ChangedIsSound(rows, entityId, oldSymbol, newSymbol, effective, knownAt, k);
    RegisterAnswers(linked, RegisterSymbol(newSymbol, entityId, effective, None, Some(knownAt)), newSymbol, entityId, date);
    ResolvedIff(ApplySymbolChange(rows, entityId, oldSymbol, newSymbol, effective, knownAt).value, newSymbol, date, k, entityId);
  }

  /**
   * Before the effective date the old symbol is the entity's where it was, and where the table knew no link, from the
   * floor on.  From the effective date on it is the entity's only by a range that was closed on or after the date, or an
   * open one that starts no earlier than the change.
   */
  lemma {:induction false} OldSymbolAnswers(rows: Rows, entityId: EntityId, oldSymbol: Symbol, newSymbol: Symbol, effective: Date,
                                            knownAt: Instant, k: Instant, date: Date)
    requires NoOverlaps(rows) && AllKnown(rows, k) && knownAt <= k && oldSymbol != newSymbol
    requires ApplySymbolChange(rows, entityId, oldSymbol, newSymbol, effective, knownAt).Success?
    ensures var after := ApplySymbolChange(rows, entityId, oldSymbol, newSymbol, effective, knownAt).value;
            && (date < effective ==>
                  (Resolve(after, oldSymbol, date, k) == Some(entityId) <==>
                     Resolve(rows, oldSymbol, date, k) == Some(entityId)
                     || (!IsLinked(rows, entityId, oldSymbol) && MATERIALIZED_RANGE_FLOOR <= date)))
            && (effective <= date ==>
                  (Resolve(after, oldSymbol, date, k) == Some(entityId) <==>
                     exists e :: e in rows && e.symbol == oldSymbol && e.entityId == entityId && Covers(e, date)
                                 && (e.effectiveTo.None? ==> effective <= e.effectiveFrom)))
  {
    var after := ApplySymbolChange(rows, entityId, oldSymbol, newSymbol, effective, knownAt).value;
    var closed, linked := ChangeSteps(rows, entityId, oldSymbol, newSymbol, effective, knownAt, k);
    ChangedIsSound(rows, entityId, oldSymbol, newSymbol, effective, knownAt, k);
    ResolvedIff(after, oldSymbol, date, k, entityId);
    ResolvedIff(rows, oldSymbol, date, k, entityId);
    RegisterAnswers(linked, RegisterSymbol(newSymbol, entityId, effective, None, Some(knownAt)), oldSymbol, entityId, date);
    assert Holds(after, oldSymbol, entityId, date) <==> Holds(linked, oldSymbol, entityId, date);
    if !IsLinked(rows, entityId, oldSymbol) {
      RegisterAnswers(closed, RegisterSymbol(oldSymbol, entityId, MATERIALIZED_RANGE_FLOOR, Some(effective - 1), Some(knownAt)),
                      oldSymbol, entityId, date);
    }
    OldClosedAnswers(rows, entityId, oldSymbol, effective, knownAt, oldSymbol, entityId, date);
    ClosedHoldsIff(rows, closed, entityId, oldSymbol, effective, date);
  }

  lemma {:induction false} ClosedHoldsIff(rows: Rows, closed: Rows, entityId: EntityId, oldSymbol: Symbol, effective: Date, date: Date)
    requires Holds(closed, oldSymbol, entityId, date) <==>
      exists e :: e in rows && e.symbol == oldSymbol && e.entityId == entityId && Covers(e, date)
                  && !(EndsAtChange(e, entityId, oldSymbol, effective) && effective <= date)
    ensures date < effective ==> (Holds(closed, oldSymbol, entityId, date) <==> Holds(rows, oldSymbol, entityId, date))
    ensures effective <= date ==>
      (Holds(closed, oldSymbol, entityId, date) <==>
         exists e :: e in rows && e.symbol == oldSymbol && e.entityId == entityId && Covers(e, date)
                     && (e.effectiveTo.None? ==> effective <= e.effectiveFrom))
  {
  }

  // ---------------------------------------------------------------------------------------------
  // Spin-offs
  // ---------------------------------------------------------------------------------------------

  /** From the ex-date the child's symbol, or the child's own id where none is given, is the child's. */
  lemma {:induction false} SpinoffAnswers(rows: Rows, a: Action, knownAt: Instant, k: Instant, date: Date)
    requires NoOverlaps(rows) && AllKnown(rows, k) && knownAt <= k
    requires a.Spinoff? && ApplyAction(rows, a, knownAt).Success? && a.exDate <= date
    ensures var symbol := match a.childSymbol { case Some(s) => s case None => a.child };
            Resolve(ApplyAction(rows, a, knownAt).value, symbol, date, k) == Some(a.child)
  {
    var symbol := a.childSymbol.GetOr(a.child);
    var r := RegisterSymbol(symbol, a.child, a.exDate, None, Some(knownAt));
    RegisterKeeps(rows, r);
    RegisterKnown(rows, r, k);
    RegisterAnswers(rows, r, symbol, a.child, date);
    ResolvedIff(ApplyAction(rows, a, knownAt).value, symbol, date, k, a.child);
  }

  /** Current knowledge knows everything, so the answers above are those of the lookups without a bound. */
  lemma {:induction false} CurrentKnowsAll(rows: Rows)
    ensures AllKnown(rows, ALL_KNOWLEDGE)
  {
    forall e | e in rows ensures e.knownFrom <= ALL_KNOWLEDGE && (e.closeKnownFrom.Some? ==> e.closeKnownFrom.value <= ALL_KNOWLEDGE) {
    }
  }

  // ---------------------------------------------------------------------------------------------
  // Lookups bounded by knowledge
  // ---------------------------------------------------------------------------------------------

  /** What an instant knows of a range: nothing before the range is known, and no end before its close is. */
  function AsKnown(e: SymbolRange, k: Instant): Option<SymbolRange> {
    if k < e.knownFrom then None
    else if e.closeKnownFrom.Some? && k < e.closeKnownFrom.value then Some(e.(effectiveTo := None, closeKnownFrom := None))
    else Some(e)
  }

  /** A bounded lookup answers from the table as the instant knows it, and only when that names one entity. */
  lemma {:induction false} BoundedLookup(rows: Rows, symbol: Symbol, date: Date, k: Instant, x: EntityId)
    ensures Resolve(rows, symbol, date, k) == Some(x) <==>
      && IsHeldAsKnown(rows, symbol, x, date, k)
      && forall y :: IsHeldAsKnown(rows, symbol, y, date, k) ==> y == x
  {
    var c := Candidates(rows, symbol, date, k);
    forall y ensures y in c <==> IsHeldAsKnown(rows, symbol, y, date, k) {
      CandidatesAre(rows, symbol, date, k, y);
    }
    if |c| == 1 {
      var y :| y in c;
      assert c == {y} by {
        assert |c - {y}| == 0;
      }
    }
    if x in c && forall y :: y in c ==> y == x {
      assert c == {x};
    }
  }

  ghost predicate IsHeldAsKnown(rows: Rows, symbol: Symbol, x: EntityId, date: Date, k: Instant) {
    exists e :: e in rows && e.symbol == symbol && e.entityId == x && AsKnown(e, k).Some? && Covers(AsKnown(e, k).value, date)
  }

  lemma {:induction false} CandidatesAre(rows: Rows, symbol: Symbol, date: Date, k: Instant, y: EntityId)
    ensures y in Candidates(rows, symbol, date, k) <==> IsHeldAsKnown(rows, symbol, y, date, k)
  {
    forall e | e in rows ensures Denotes(e, date, k) <==> AsKnown(e, k).Some? && Covers(AsKnown(e, k).value, date) {
    }
  }

  /** The symbol an entity traded under is that of a range it held, as known, with the latest start of all it held. */
  lemma {:induction false} SymbolOnIs(rows: Rows, entityId: EntityId, date: Date, k: Instant)
    ensures match SymbolOn(rows, entityId, date, k)
            case Some(s) =>
              exists e :: e in rows && e.entityId == entityId && e.symbol == s && IsHeld(e, date, k)
                          && forall f :: f in rows && f.entityId == entityId && IsHeld(f, date, k) ==> f.effectiveFrom <= e.effectiveFrom
            case None => forall e :: e in rows && e.entityId == entityId ==> !IsHeld(e, date, k)
  {
    var p := LatestRange(rows, entityId, date, k);
    forall e | e in rows && e.entityId == entityId ensures IsHeld(e, date, k) <==> TradedUnder(e, entityId, date, k) {
    }
    if p.Some? {
      var e := rows[p.value];
      assert e in rows && IsHeld(e, date, k);
      forall f | f in rows && f.entityId == entityId && IsHeld(f, date, k) ensures f.effectiveFrom <= e.effectiveFrom {
        var i :| 0 <= i < |rows| && rows[i] == f;
      }
    } else {
      forall e | e in rows && e.entityId == entityId ensures !IsHeld(e, date, k) {
        var i :| 0 <= i < |rows| && rows[i] == e;
      }
    }
  }

  predicate IsHeld(e: SymbolRange, date: Date, k: Instant) {
    AsKnown(e, k).Some? && Covers(AsKnown(e, k).value, date)
  }
}
