/**
 * The bitemporal symbol-to-entity map.  Each row says when a symbol denoted an entity (effective dates) and
 * from which instant that, and later its closing, could be known.  Rows are only added, and an open row closed.
 */
module EntityMap {
  import opened Wrappers

  /** Day numbers from 0000-01-01 to 9999-12-31, the dates an ISO text of four year digits can write. */
  const MAX_DATE := 3_652_424
  type Date = d: int | 0 <= d <= MAX_DATE

  const DAY_MS := 86_400_000
  /** The sentinel instant that stands for all current knowledge: the last millisecond of the last date. */
  const ALL_KNOWLEDGE := (MAX_DATE + 1) * DAY_MS - 1
  type Instant = i: int | 0 <= i <= ALL_KNOWLEDGE

  /** 1800-01-01, where a range of unknown start is opened. */
  const MATERIALIZED_RANGE_FLOOR: Date := 657_437

  type Symbol = nat
  type EntityId = nat

  function DateStart(d: Date): Instant {
    d * DAY_MS
  }

  /** A row; its id is its position, since rows are never deleted. */
  datatype SymbolRange = SymbolRange(
    symbol: Symbol,
    effectiveFrom: Date,
    effectiveTo: Option<Date>,
    entityId: EntityId,
    knownFrom: Instant,
    closeKnownFrom: Option<Instant>)

  datatype RegisterSymbol = RegisterSymbol(
    symbol: Symbol, entityId: EntityId, effectiveFrom: Date, effectiveTo: Option<Date>, knownFrom: Option<Instant>)
  {
    function Known(): Instant {
      knownFrom.GetOr(DateStart(effectiveFrom))
    }

    function Row(): SymbolRange {
      SymbolRange(symbol, effectiveFrom, effectiveTo, entityId, Known(), if effectiveTo.None? then None else Some(Known()))
    }
  }

  datatype Action =
    | SymbolChange(entityId: EntityId, oldSymbol: Symbol, newSymbol: Symbol, effective: Date)
    | Merger(entityId: EntityId, effective: Date)
    | Delisting(entityId: EntityId, lastTradeDate: Date)
    | Spinoff(child: EntityId, childSymbol: Option<Symbol>, exDate: Date)
    | NoIdentityEffect(on: Date)
  {
    function EffectiveDate(): Date {
      match this
      case SymbolChange(_, _, _, effective) => effective
      case Merger(_, effective) => effective
      case Delisting(_, last) => last
      case Spinoff(_, _, exDate) => exDate
      case NoIdentityEffect(on) => on
    }
  }

  datatype MapError = RangeConflict | NotADate

  function EndOf(r: SymbolRange): int {
    r.effectiveTo.GetOr(MAX_DATE)
  }

  predicate Overlap(a: SymbolRange, b: SymbolRange) {
    a.effectiveFrom <= EndOf(b) && EndOf(a) >= b.effectiveFrom
  }

  predicate SameRange(e: SymbolRange, r: RegisterSymbol) {
    e.symbol == r.symbol && e.entityId == r.entityId && e.effectiveFrom == r.effectiveFrom && e.effectiveTo == r.effectiveTo
  }

  /** Another entity's range for the same symbol that overlaps the new one. */
  predicate IsRival(e: SymbolRange, r: RegisterSymbol) {
    e.symbol == r.symbol && e.entityId != r.entityId && Overlap(e, r.Row())
  }

  /** A rival that is still open and started earlier gives way: it is closed the day before. */
  predicate GivesWay(e: SymbolRange, r: RegisterSymbol) {
    e.effectiveTo.None? && e.effectiveFrom < r.effectiveFrom
  }

  function Closed(e: SymbolRange, at: Date, knownAt: Instant): SymbolRange {
    if e.effectiveTo.None? then e.(effectiveTo := Some(at), closeKnownFrom := Some(knownAt)) else e
  }

  // ---------------------------------------------------------------------------------------------
  // Specification of the writing operations, each all-or-nothing
  // ---------------------------------------------------------------------------------------------

  type Rows = seq<SymbolRange>

  predicate IsRegistered(rows: Rows, r: RegisterSymbol) {
    exists e :: e in rows && SameRange(e, r)
  }

  predicate Conflicts(rows: Rows, r: RegisterSymbol) {
    exists e :: e in rows && IsRival(e, r) && !GivesWay(e, r)
  }

  function GaveWay(e: SymbolRange, r: RegisterSymbol): SymbolRange {
    if IsRival(e, r) && r.effectiveFrom > 0 then Closed(e, r.effectiveFrom - 1, r.Known()) else e
  }

  function Register(rows: Rows, r: RegisterSymbol): Result<Rows, MapError> {
    if r.effectiveTo.Some? && r.effectiveTo.value < r.effectiveFrom then Failure(RangeConflict)
    else if IsRegistered(rows, r) then Success(rows)
    else if Conflicts(rows, r) then Failure(RangeConflict)
    else Success(seq(|rows|, i requires 0 <= i < |rows| => GaveWay(rows[i], r)) + [r.Row()])
  }

  predicate StartsTooLate(e: SymbolRange, entityId: EntityId, lastDate: Date) {
    e.entityId == entityId && e.effectiveTo.None? && e.effectiveFrom > lastDate
  }

  function CloseEntity(rows: Rows, entityId: EntityId, lastDate: Date, knownAt: Instant): Result<Rows, MapError> {
    if exists e :: e in rows && StartsTooLate(e, entityId, lastDate) then Failure(RangeConflict)
    else Success(seq(|rows|, i requires 0 <= i < |rows| =>
                   if rows[i].entityId == entityId then Closed(rows[i], lastDate, knownAt) else rows[i]))
  }

  /** How many ranges a close of the entity closes. */
  function OpenCount(rows: Rows, entityId: EntityId): nat
    decreases |rows|
  {
    if rows == [] then 0
    else
      var n := |rows| - 1;
      OpenCount(rows[..n], entityId) + if rows[n].entityId == entityId && rows[n].effectiveTo.None? then 1 else 0
  }

  predicate IsOldRange(e: SymbolRange, entityId: EntityId, oldSymbol: Symbol) {
    e.symbol == oldSymbol && e.entityId == entityId
  }

  function ClosedByChange(e: SymbolRange, entityId: EntityId, oldSymbol: Symbol, effective: Date, knownAt: Instant): SymbolRange
    requires effective > 0
  {
    if IsOldRange(e, entityId, oldSymbol) && e.effectiveFrom < effective then Closed(e, effective - 1, knownAt) else e
  }

  /** The old symbol's open ranges end the day before the change. */
  function OldSymbolClosed(rows: Rows, entityId: EntityId, oldSymbol: Symbol, effective: Date, knownAt: Instant): Rows
    requires effective > 0
  {
    seq(|rows|, i requires 0 <= i < |rows| => ClosedByChange(rows[i], entityId, oldSymbol, effective, knownAt))
  }

  function ApplySymbolChange(rows: Rows, entityId: EntityId, oldSymbol: Symbol, newSymbol: Symbol, effective: Date, knownAt: Instant)
    : Result<Rows, MapError>
  {
    if effective == 0 then Failure(NotADate)
    else
      var known := exists e :: e in rows && IsOldRange(e, entityId, oldSymbol);
      var closed := OldSymbolClosed(rows, entityId, oldSymbol, effective, knownAt);
      var materialized :=
        if known then Success(closed)
        else Register(closed, RegisterSymbol(oldSymbol, entityId, MATERIALIZED_RANGE_FLOOR, Some(effective - 1), Some(knownAt)));
      match materialized
      case Failure(e) => Failure(e)
      case Success(rows1) => Register(rows1, RegisterSymbol(newSymbol, entityId, effective, None, Some(knownAt)))
  }

  function ApplyAction(rows: Rows, a: Action, knownAt: Instant): Result<Rows, MapError> {
    match a
    case SymbolChange(entityId, oldSymbol, newSymbol, effective) =>
      ApplySymbolChange(rows, entityId, oldSymbol, newSymbol, effective, knownAt)
    case Merger(entityId, effective) =>
      if effective == 0 then Failure(NotADate) else CloseEntity(rows, entityId, effective - 1, knownAt)
    case Delisting(entityId, last) => CloseEntity(rows, entityId, last, knownAt)
    case Spinoff(child, childSymbol, exDate) =>
      Register(rows, RegisterSymbol(childSymbol.GetOr(child), child, exDate, None, Some(knownAt)))
    case NoIdentityEffect(_) => Success(rows)
  }

  // ---------------------------------------------------------------------------------------------
  // Specification of the lookups
  // ---------------------------------------------------------------------------------------------

  /** Visible at `k` and not yet ended on `date`, as far as `k` could know. */
  predicate OpenAt(r: SymbolRange, date: Date, k: Instant) {
    && (r.effectiveTo.None? || r.effectiveTo.value >= date || (r.closeKnownFrom.Some? && r.closeKnownFrom.value > k))
    && r.knownFrom <= k
  }

  predicate Denotes(r: SymbolRange, date: Date, k: Instant) {
    r.effectiveFrom <= date && OpenAt(r, date, k)
  }

  function Candidates(rows: Rows, symbol: Symbol, date: Date, k: Instant): set<EntityId> {
    set r | r in rows && r.symbol == symbol && Denotes(r, date, k) :: r.entityId
  }

  /** The one entity the symbol denoted, or nothing when none or more than one did. */
  ghost function Resolve(rows: Rows, symbol: Symbol, date: Date, k: Instant): Option<EntityId> {
    var c := Candidates(rows, symbol, date, k);
    if |c| == 1 then var e :| e in c; Some(e) else None
  }

  function SymbolsFor(rows: Rows, entityId: EntityId, k: Instant): set<Symbol> {
    set r | r in rows && r.entityId == entityId && r.knownFrom <= k :: r.symbol
  }

  predicate TradedUnder(r: SymbolRange, entityId: EntityId, date: Date, k: Instant) {
    r.entityId == entityId && Denotes(r, date, k)
  }

  /** Position of the range an entity traded under: the latest start, and of those the latest row. */
  function LatestRange(rows: Rows, entityId: EntityId, date: Date, k: Instant): (p: Option<nat>)
    ensures p.Some? ==> p.value < |rows| && TradedUnder(rows[p.value], entityId, date, k)
    ensures p.Some? ==> forall i :: 0 <= i < |rows| && TradedUnder(rows[i], entityId, date, k) ==>
              rows[i].effectiveFrom < rows[p.value].effectiveFrom
              || (rows[i].effectiveFrom == rows[p.value].effectiveFrom && i <= p.value)
    ensures p.None? ==> forall i :: 0 <= i < |rows| ==> !TradedUnder(rows[i], entityId, date, k)
    decreases |rows|
  {
    if rows == [] then None
    else
      var n := |rows| - 1;
      var earlier := LatestRange(rows[..n], entityId, date, k);
      if TradedUnder(rows[n], entityId, date, k) && (earlier.None? || rows[n].effectiveFrom >= rows[earlier.value].effectiveFrom)
      then Some(n) else earlier
  }

  ghost function SymbolOn(rows: Rows, entityId: EntityId, date: Date, k: Instant): Option<Symbol> {
    match LatestRange(rows, entityId, date, k)
    case None => None
    case Some(p) => Some(rows[p].symbol)
  }

  // ---------------------------------------------------------------------------------------------
  // The invariant every operation keeps
  // ---------------------------------------------------------------------------------------------

  /** Ranges of different entities for one symbol never overlap; a close comes with the instant it became known. */
  ghost predicate NoOverlaps(rows: Rows) {
    && (forall a :: a in rows ==> WellFormed(a))
    && (forall a, b :: a in rows && b in rows && a.symbol == b.symbol && a.entityId != b.entityId ==> !Overlap(a, b))
  }

  predicate WellFormed(a: SymbolRange) {
    (a.effectiveTo.None? <==> a.closeKnownFrom.None?) && a.effectiveFrom <= EndOf(a)
  }

  /** An identical registered range has no rival, which is why returning early from the middle of the scan is safe. */
  lemma {:induction false} RegisteredHasNoRival(rows: Rows, r: RegisterSymbol, e: SymbolRange)
    requires NoOverlaps(rows) && IsRegistered(rows, r) && e in rows
    ensures !IsRival(e, r)
  {
  }

  lemma {:induction false} RegisterKeeps(rows: Rows, r: RegisterSymbol)
    requires NoOverlaps(rows) && Register(rows, r).Success?
    ensures NoOverlaps(Register(rows, r).value)
  {
    if !IsRegistered(rows, r) {
      var rows' := Register(rows, r).value;
      forall a | a in rows' ensures a == r.Row() || exists e :: e in rows && a == GaveWay(e, r) {
        var i :| 0 <= i < |rows'| && rows'[i] == a;
        if i < |rows| { assert rows[i] in rows; }
      }
      forall a | a in rows' ensures WellFormed(a) {
      }
      forall a, b | a in rows' && b in rows' && a.symbol == b.symbol && a.entityId != b.entityId ensures !Overlap(a, b) {
      }
    }
  }

  lemma {:induction false} CloseEntityKeeps(rows: Rows, entityId: EntityId, lastDate: Date, knownAt: Instant)
    requires NoOverlaps(rows) && CloseEntity(rows, entityId, lastDate, knownAt).Success?
    ensures NoOverlaps(CloseEntity(rows, entityId, lastDate, knownAt).value)
  {
    var rows' := CloseEntity(rows, entityId, lastDate, knownAt).value;
    forall a | a in rows'
      ensures exists e :: e in rows && a == if e.entityId == entityId then Closed(e, lastDate, knownAt) else e
    {
      var i :| 0 <= i < |rows'| && rows'[i] == a;
      assert rows[i] in rows;
    }
  }

  /** A well-formed part of a range. */
  predicate Shrinks(e: SymbolRange, a: SymbolRange) {
    a.symbol == e.symbol && a.entityId == e.entityId && a.effectiveFrom == e.effectiveFrom && EndOf(a) <= EndOf(e) && WellFormed(a)
  }

  lemma {:induction false} ClosingShrinks(e: SymbolRange, entityId: EntityId, oldSymbol: Symbol, effective: Date, knownAt: Instant)
    requires WellFormed(e) && effective > 0
    ensures Shrinks(e, ClosedByChange(e, entityId, oldSymbol, effective, knownAt))
  {
  }

  lemma {:induction false} OldSymbolClosedKeeps(rows: Rows, entityId: EntityId, oldSymbol: Symbol, effective: Date, knownAt: Instant)
    requires NoOverlaps(rows) && effective > 0
    ensures NoOverlaps(OldSymbolClosed(rows, entityId, oldSymbol, effective, knownAt))
  {
    var rows' := OldSymbolClosed(rows, entityId, oldSymbol, effective, knownAt);
    forall a | a in rows'
      ensures exists e :: e in rows && a == ClosedByChange(e, entityId, oldSymbol, effective, knownAt) && Shrinks(e, a)
    {
      var i :| 0 <= i < |rows'| && rows'[i] == a;
      assert rows[i] in rows;
      ClosingShrinks(rows[i], entityId, oldSymbol, effective, knownAt);
    }
  }

  lemma {:induction false} ApplyActionKeeps(rows: Rows, a: Action, knownAt: Instant)
    requires NoOverlaps(rows) && ApplyAction(rows, a, knownAt).Success?
    ensures NoOverlaps(ApplyAction(rows, a, knownAt).value)
  {
    match a
    case SymbolChange(entityId, oldSymbol, newSymbol, effective) =>
      var closed := OldSymbolClosed(rows, entityId, oldSymbol, effective, knownAt);
      OldSymbolClosedKeeps(rows, entityId, oldSymbol, effective, knownAt);
      var old' := RegisterSymbol(oldSymbol, entityId, MATERIALIZED_RANGE_FLOOR, Some(effective - 1), Some(knownAt));
      var new' := RegisterSymbol(newSymbol, entityId, effective, None, Some(knownAt));
      if exists e :: e in rows && IsOldRange(e, entityId, oldSymbol) {
        RegisterKeeps(closed, new');
      } else {
        RegisterKeeps(closed, old');
        RegisterKeeps(Register(closed, old').value, new');
      }
    case Merger(entityId, effective) => CloseEntityKeeps(rows, entityId, effective - 1, knownAt);
    case Delisting(entityId, last) => CloseEntityKeeps(rows, entityId, last, knownAt);
    case Spinoff(child, childSymbol, exDate) =>
      RegisterKeeps(rows, RegisterSymbol(childSymbol.GetOr(child), child, exDate, None, Some(knownAt)));
    case NoIdentityEffect(_) =>
  }

  // ---------------------------------------------------------------------------------------------
  // Runs of transactions
  // ---------------------------------------------------------------------------------------------

  datatype MapOp =
    | RegisterOp(r: RegisterSymbol)
    | CloseOp(entityId: EntityId, lastDate: Date, knownAt: Option<Instant>)
    | ActionOp(action: Action, knownAt: Option<Instant>)
  {
    /** The instant from which everything the operation writes is knowable. */
    function KnowledgeInstant(): Instant {
      match this
      case RegisterOp(r) => r.Known()
      case CloseOp(_, lastDate, knownAt) => knownAt.GetOr(DateStart(lastDate))
      case ActionOp(action, knownAt) => knownAt.GetOr(DateStart(action.EffectiveDate()))
    }

    function Apply(rows: Rows): Result<Rows, MapError> {
      match this
      case RegisterOp(r) => Register(rows, r)
      case CloseOp(entityId, lastDate, _) => CloseEntity(rows, entityId, lastDate, KnowledgeInstant())
      case ActionOp(action, _) => ApplyAction(rows, action, KnowledgeInstant())
    }
  }

  /** A transaction of several operations, as the identity seeding and the action sync run them. */
  function ApplyAll(rows: Rows, ops: seq<MapOp>): Result<Rows, MapError>
    decreases |ops|
  {
    if ops == [] then Success(rows)
    else
      match ops[0].Apply(rows)
      case Failure(e) => Failure(e)
      case Success(rows') => ApplyAll(rows', ops[1..])
  }

  /** The table after a run of transactions: one that throws is rolled back and leaves it as it was. */
  function RunAll(rows: Rows, txs: seq<seq<MapOp>>): Rows
    decreases |txs|
  {
    if txs == [] then rows
    else
      match ApplyAll(rows, txs[0])
      case Failure(_) => RunAll(rows, txs[1..])
      case Success(rows') => RunAll(rows', txs[1..])
  }

  lemma {:induction false} ApplyAllKeeps(rows: Rows, ops: seq<MapOp>)
    requires NoOverlaps(rows) && ApplyAll(rows, ops).Success?
    ensures NoOverlaps(ApplyAll(rows, ops).value)
    decreases |ops|
  {
    if ops != [] {
      var rows' := ops[0].Apply(rows).value;
      match ops[0] {
        case RegisterOp(r) => RegisterKeeps(rows, r);
        case CloseOp(entityId, lastDate, _) => CloseEntityKeeps(rows, entityId, lastDate, ops[0].KnowledgeInstant());
        case ActionOp(action, _) => ApplyActionKeeps(rows, action, ops[0].KnowledgeInstant());
      }
      ApplyAllKeeps(rows', ops[1..]);
    }
  }

  lemma {:induction false} RunKeepsNoOverlaps(rows: Rows, txs: seq<seq<MapOp>>)
    requires NoOverlaps(rows)
    ensures NoOverlaps(RunAll(rows, txs))
    decreases |txs|
  {
    if txs != [] {
      match ApplyAll(rows, txs[0]) {
        case Failure(_) => RunKeepsNoOverlaps(rows, txs[1..]);
        case Success(rows') =>
          ApplyAllKeeps(rows, txs[0]);
          RunKeepsNoOverlaps(rows', txs[1..]);
      }
    }
  }

  /** With all current knowledge a symbol denotes at most one entity on any date, after any run from an empty table. */
  lemma {:induction false} CurrentResolutionUnambiguous(txs: seq<seq<MapOp>>, symbol: Symbol, date: Date)
    ensures |Candidates(RunAll([], txs), symbol, date, ALL_KNOWLEDGE)| <= 1
    ensures Resolve(RunAll([], txs), symbol, date, ALL_KNOWLEDGE).None?
            <==> Candidates(RunAll([], txs), symbol, date, ALL_KNOWLEDGE) == {}
  {
    RunKeepsNoOverlaps([], txs);
    var rows := RunAll([], txs);
    var c := Candidates(rows, symbol, date, ALL_KNOWLEDGE);
    forall x, y | x in c && y in c ensures x == y {
      var a :| a in rows && a.symbol == symbol && Denotes(a, date, ALL_KNOWLEDGE) && a.entityId == x;
      var b :| b in rows && b.symbol == symbol && Denotes(b, date, ALL_KNOWLEDGE) && b.entityId == y;
      assert a.entityId != b.entityId ==> !Overlap(a, b);
    }
    if c != {} {
      var x :| x in c;
      assert c == {x};
    }
  }

  /** Registering a range the table already holds changes nothing, after any run. */
  lemma {:induction false} RegisteringAgainChangesNothing(txs: seq<seq<MapOp>>, r: RegisterSymbol)
    requires IsRegistered(RunAll([], txs), r)
    ensures Register(RunAll([], txs), r) == Success(RunAll([], txs))
  {
    RunKeepsNoOverlaps([], txs);
    var rows := RunAll([], txs);
    var e :| e in rows && SameRange(e, r);
    assert WellFormed(e);
  }

  // ---------------------------------------------------------------------------------------------
  // Later knowledge never changes an earlier decision
  // ---------------------------------------------------------------------------------------------

  predicate SameAsOf(a: SymbolRange, b: SymbolRange, k: Instant) {
    || b == a
    || (a.effectiveTo.None? && b == a.(effectiveTo := b.effectiveTo, closeKnownFrom := b.closeKnownFrom)
        && b.closeKnownFrom.Some? && b.closeKnownFrom.value > k)
  }

  /** `rows'` differs from `rows` only in what was not yet knowable at `k`. */
  ghost predicate SameTableAsOf(rows: Rows, rows': Rows, k: Instant) {
    && |rows| <= |rows'|
    && (forall i {:trigger rows'[i]} :: 0 <= i < |rows| ==> SameAsOf(rows[i], rows'[i], k))
    && (forall i {:trigger rows'[i]} :: |rows| <= i < |rows'| ==> rows'[i].knownFrom > k)
  }

  lemma {:induction false} SameTableTransitive(a: Rows, b: Rows, c: Rows, k: Instant)
    requires SameTableAsOf(a, b, k) && SameTableAsOf(b, c, k)
    ensures SameTableAsOf(a, c, k)
  {
  }

  lemma {:induction false} RegisterUnseen(rows: Rows, r: RegisterSymbol, k: Instant)
    requires Register(rows, r).Success? && r.Known() > k
    ensures SameTableAsOf(rows, Register(rows, r).value, k)
  {
  }

  lemma {:induction false} ActionUnseen(rows: Rows, a: Action, knownAt: Instant, k: Instant)
    requires ApplyAction(rows, a, knownAt).Success? && knownAt > k
    ensures SameTableAsOf(rows, ApplyAction(rows, a, knownAt).value, k)
  {
    match a
    case SymbolChange(entityId, oldSymbol, newSymbol, effective) =>
      var closed := OldSymbolClosed(rows, entityId, oldSymbol, effective, knownAt);
      assert SameTableAsOf(rows, closed, k);
      var old' := RegisterSymbol(oldSymbol, entityId, MATERIALIZED_RANGE_FLOOR, Some(effective - 1), Some(knownAt));
      var new' := RegisterSymbol(newSymbol, entityId, effective, None, Some(knownAt));
      var rows1 := if exists e :: e in rows && IsOldRange(e, entityId, oldSymbol) then closed else Register(closed, old').value;
      if rows1 != closed {
        RegisterUnseen(closed, old', k);
        SameTableTransitive(rows, closed, rows1, k);
      }
      RegisterUnseen(rows1, new', k);
      SameTableTransitive(rows, rows1, Register(rows1, new').value, k);
    case Merger(_, _) =>
    case Delisting(_, _) =>
    case Spinoff(child, childSymbol, exDate) =>
      RegisterUnseen(rows, RegisterSymbol(childSymbol.GetOr(child), child, exDate, None, Some(knownAt)), k);
    case NoIdentityEffect(_) =>
  }

  lemma {:induction false} ApplyAllUnseen(rows: Rows, ops: seq<MapOp>, k: Instant)
    requires ApplyAll(rows, ops).Success? && forall op :: op in ops ==> op.KnowledgeInstant() > k
    ensures SameTableAsOf(rows, ApplyAll(rows, ops).value, k)
    decreases |ops|
  {
    if ops != [] {
      var op, rows' := ops[0], ops[0].Apply(rows).value;
      assert op in ops;
      match op {
        case RegisterOp(r) => RegisterUnseen(rows, r, k);
        case CloseOp(_, _, _) =>
        case ActionOp(action, _) => ActionUnseen(rows, action, op.KnowledgeInstant(), k);
      }
      ApplyAllUnseen(rows', ops[1..], k);
      SameTableTransitive(rows, rows', ApplyAll(rows, ops).value, k);
    }
  }

  ghost predicate AllLaterThan(txs: seq<seq<MapOp>>, k: Instant) {
    forall tx, op :: tx in txs && op in tx ==> op.KnowledgeInstant() > k
  }

  lemma {:induction false} RunUnseen(rows: Rows, txs: seq<seq<MapOp>>, k: Instant)
    requires AllLaterThan(txs, k)
    ensures SameTableAsOf(rows, RunAll(rows, txs), k)
    decreases |txs|
  {
    if txs != [] {
      assert txs[0] in txs;
      match ApplyAll(rows, txs[0]) {
        case Failure(_) => RunUnseen(rows, txs[1..], k);
        case Success(rows') =>
          ApplyAllUnseen(rows, txs[0], k);
          RunUnseen(rows', txs[1..], k);
          SameTableTransitive(rows, rows', RunAll(rows, txs), k);
      }
    }
  }

  lemma {:induction false} SameCandidates(rows: Rows, rows': Rows, symbol: Symbol, date: Date, k: Instant)
    requires SameTableAsOf(rows, rows', k)
    ensures Candidates(rows, symbol, date, k) == Candidates(rows', symbol, date, k)
  {
    forall e | e in Candidates(rows, symbol, date, k) ensures e in Candidates(rows', symbol, date, k) {
      var r :| r in rows && r.symbol == symbol && Denotes(r, date, k) && r.entityId == e;
      var i :| 0 <= i < |rows| && rows[i] == r;
      assert SameAsOf(rows[i], rows'[i], k) && rows'[i] in rows';
    }
    forall e | e in Candidates(rows', symbol, date, k) ensures e in Candidates(rows, symbol, date, k) {
      var r :| r in rows' && r.symbol == symbol && Denotes(r, date, k) && r.entityId == e;
      var i :| 0 <= i < |rows'| && rows'[i] == r;
      assert i < |rows| && SameAsOf(rows[i], rows'[i], k) && rows[i] in rows;
    }
  }

  lemma {:induction false} SameSymbols(rows: Rows, rows': Rows, entityId: EntityId, k: Instant)
    requires SameTableAsOf(rows, rows', k)
    ensures SymbolsFor(rows, entityId, k) == SymbolsFor(rows', entityId, k)
  {
    forall s | s in SymbolsFor(rows, entityId, k) ensures s in SymbolsFor(rows', entityId, k) {
      var r :| r in rows && r.entityId == entityId && r.knownFrom <= k && r.symbol == s;
      var i :| 0 <= i < |rows| && rows[i] == r;
      assert SameAsOf(rows[i], rows'[i], k) && rows'[i] in rows';
    }
    forall s | s in SymbolsFor(rows', entityId, k) ensures s in SymbolsFor(rows, entityId, k) {
      var r :| r in rows' && r.entityId == entityId && r.knownFrom <= k && r.symbol == s;
      var i :| 0 <= i < |rows'| && rows'[i] == r;
      assert i < |rows| && SameAsOf(rows[i], rows'[i], k) && rows[i] in rows;
    }
  }

  lemma {:induction false} SameSymbolOn(rows: Rows, rows': Rows, entityId: EntityId, date: Date, k: Instant)
    requires SameTableAsOf(rows, rows', k)
    ensures SymbolOn(rows, entityId, date, k) == SymbolOn(rows', entityId, date, k)
  {
    var p, p' := LatestRange(rows, entityId, date, k), LatestRange(rows', entityId, date, k);
    forall i | 0 <= i < |rows| ensures TradedUnder(rows[i], entityId, date, k) <==> TradedUnder(rows'[i], entityId, date, k)
      ensures rows[i].symbol == rows'[i].symbol && rows[i].effectiveFrom == rows'[i].effectiveFrom
    {
      assert SameAsOf(rows[i], rows'[i], k);
    }
    if p'.Some? {
      assert rows'[p'.value].knownFrom <= k;
      assert p'.value < |rows| && TradedUnder(rows[p'.value], entityId, date, k);
    }
    if p.Some? {
      assert TradedUnder(rows'[p.value], entityId, date, k);
    }
  }

  /**
   * Non-interference: whatever transactions later knowledge brings, every lookup bounded by the knowledge of an
   * earlier instant answers as it did.
   */
  lemma {:induction false} LaterKnowledgeIsInvisible(rows: Rows, txs: seq<seq<MapOp>>, k: Instant)
    requires AllLaterThan(txs, k)
    ensures forall symbol, date :: Resolve(RunAll(rows, txs), symbol, date, k) == Resolve(rows, symbol, date, k)
    ensures forall entityId :: SymbolsFor(RunAll(rows, txs), entityId, k) == SymbolsFor(rows, entityId, k)
    ensures forall entityId, date :: SymbolOn(RunAll(rows, txs), entityId, date, k) == SymbolOn(rows, entityId, date, k)
  {
    RunUnseen(rows, txs, k);
    var rows' := RunAll(rows, txs);
    forall symbol, date ensures Resolve(rows', symbol, date, k) == Resolve(rows, symbol, date, k) {
      SameCandidates(rows, rows', symbol, date, k);
    }
    forall entityId ensures SymbolsFor(rows', entityId, k) == SymbolsFor(rows, entityId, k) {
      SameSymbols(rows, rows', entityId, k);
    }
    forall entityId, date ensures SymbolOn(rows', entityId, date, k) == SymbolOn(rows, entityId, date, k) {
      SameSymbolOn(rows, rows', entityId, date, k);
    }
  }

  /**
   * When a bounded lookup is ambiguous: two entities can both be candidates only if one of them was in fact
   * closed before the date, by a close not yet knowable.  It then fails closed.
   */
  lemma {:induction false} AmbiguityNeedsALateClose(rows: Rows, symbol: Symbol, date: Date, k: Instant, a: SymbolRange, b: SymbolRange)
    requires NoOverlaps(rows) && a in rows && b in rows && a.symbol == b.symbol == symbol && a.entityId != b.entityId
    requires Denotes(a, date, k) && Denotes(b, date, k)
    ensures (EndOf(a) < date && a.closeKnownFrom.Some? && a.closeKnownFrom.value > k)
            || (EndOf(b) < date && b.closeKnownFrom.Some? && b.closeKnownFrom.value > k)
    ensures Resolve(rows, symbol, date, k) == None
  {
    var c := Candidates(rows, symbol, date, k);
    assert a.entityId in c && b.entityId in c;
    assert !Overlap(a, b);
    assert b.entityId in c - {a.entityId};
    assert |c - {a.entityId}| == |c| - 1;
  }

  // ---------------------------------------------------------------------------------------------
  // The map itself
  // ---------------------------------------------------------------------------------------------

  class SymbolTable {
    var rows: Rows

    ghost predicate Valid()
      reads this
    {
      NoOverlaps(rows)
    }

    constructor ()
      ensures Valid() && rows == []
    {
      rows := [];
    }

    /** The row's end, if it is still open; a closed row is left as it is. */
    method Close(i: nat, at: Date, knownAt: Instant)
      requires i < |rows|
      modifies this
      ensures rows == old(rows)[i := Closed(old(rows)[i], at, knownAt)]
    {
      if rows[i].effectiveTo.None? {
        rows := rows[i := rows[i].(effectiveTo := Some(at), closeKnownFrom := Some(knownAt))];
      }
    }

    /**
     * Scan the symbol's rows: an identical one ends the scan, a rival that gives way is closed, any other rival
     * conflicts and rolls everything back.  The outcome does not depend on the order of the scan.
     */
    method RegisterRange(r: RegisterSymbol) returns (result: Result<SymbolRange, MapError>)
      requires Valid()
      modifies this
      ensures Valid()
      ensures match Register(old(rows), r)
              case Success(rows') => rows == rows' && result.Success? && result.value in rows && SameRange(result.value, r)
              case Failure(e) => rows == old(rows) && result == Failure(e)
    {
      if r.effectiveTo.Some? && r.effectiveTo.value < r.effectiveFrom {
        return Failure(RangeConflict);
      }
      var existing := rows;
      for i := 0 to |existing|
        invariant |rows| == |existing|
        invariant forall j :: 0 <= j < i ==> rows[j] == GaveWay(existing[j], r)
        invariant forall j :: i <= j < |existing| ==> rows[j] == existing[j]
        invariant forall j :: 0 <= j < i ==> !SameRange(existing[j], r) && (IsRival(existing[j], r) ==> GivesWay(existing[j], r))
      {
        var e := existing[i];
        if e.symbol == r.symbol {
          if e.entityId == r.entityId {
            if e.effectiveFrom == r.effectiveFrom && e.effectiveTo == r.effectiveTo {
              assert e in existing && SameRange(e, r);
              forall j | 0 <= j < i ensures GaveWay(existing[j], r) == existing[j] {
                RegisteredHasNoRival(existing, r, existing[j]);
              }
              assert rows == existing;
              return Success(e);
            }
          } else if e.effectiveFrom <= r.effectiveTo.GetOr(MAX_DATE) && e.effectiveTo.GetOr(MAX_DATE) >= r.effectiveFrom {
            if e.effectiveTo.None? && e.effectiveFrom < r.effectiveFrom {
              Close(i, r.effectiveFrom - 1, r.Known());
            } else {
              assert IsRival(e, r) && !GivesWay(e, r);
              if IsRegistered(existing, r) {
                RegisteredHasNoRival(existing, r, e);
              }
              rows := existing;
              return Failure(RangeConflict);
            }
          }
        }
      }
      assert rows == seq(|existing|, i requires 0 <= i < |existing| => GaveWay(existing[i], r));
      rows := rows + [r.Row()];
      RegisterKeeps(existing, r);
      return Success(rows[|rows| - 1]);
    }

    /** Close every open range of the entity; one that starts too late rolls everything back. */
    method CloseRangesOf(entityId: EntityId, lastDate: Date, knownAt: Instant) returns (result: Result<nat, MapError>)
      requires Valid()
      modifies this
      ensures Valid()
      ensures match CloseEntity(old(rows), entityId, lastDate, knownAt)
              case Success(rows') => rows == rows' && result == Success(OpenCount(old(rows), entityId))
              case Failure(e) => rows == old(rows) && result == Failure(e)
    {
      var existing := rows;
      var n := 0;
      for i := 0 to |existing|
        invariant n == OpenCount(existing[..i], entityId)
        invariant |rows| == |existing|
        invariant forall j :: 0 <= j < i ==>
          rows[j] == if existing[j].entityId == entityId then Closed(existing[j], lastDate, knownAt) else existing[j]
        invariant forall j :: i <= j < |existing| ==> rows[j] == existing[j]
        invariant forall j :: 0 <= j < i ==> !StartsTooLate(existing[j], entityId, lastDate)
      {
        var e := existing[i];
        if e.entityId == entityId && e.effectiveTo.None? {
          if e.effectiveFrom > lastDate {
            assert StartsTooLate(e, entityId, lastDate);
            rows := existing;
            return Failure(RangeConflict);
          }
          Close(i, lastDate, knownAt);
          n := n + 1;
        }
        assert existing[..i + 1][..i] == existing[..i];
      }
      assert existing[..|existing|] == existing;
      assert rows == CloseEntity(existing, entityId, lastDate, knownAt).value;
      CloseEntityKeeps(existing, entityId, lastDate, knownAt);
      return Success(n);
    }

    method ApplySymbolChangeAction(entityId: EntityId, oldSymbol: Symbol, newSymbol: Symbol, effective: Date, knownAt: Instant)
      returns (result: Result<(), MapError>)
      requires Valid()
      modifies this
      ensures Valid()
      ensures match ApplySymbolChange(old(rows), entityId, oldSymbol, newSymbol, effective, knownAt)
              case Success(rows') => rows == rows' && result == Success(())
              case Failure(e) => rows == old(rows) && result == Failure(e)
    {
      if effective == 0 {
        return Failure(NotADate);
      }
      var existing := rows;
      var oldSymbolKnown := false;
      for i := 0 to |existing|
        invariant |rows| == |existing|
        invariant forall j :: 0 <= j < i ==>
          rows[j] == if IsOldRange(existing[j], entityId, oldSymbol) && existing[j].effectiveFrom < effective
                     then Closed(existing[j], effective - 1, knownAt) else existing[j]
        invariant forall j :: i <= j < |existing| ==> rows[j] == existing[j]
        invariant oldSymbolKnown <==> exists j :: 0 <= j < i && IsOldRange(existing[j], entityId, oldSymbol)
      {
        var e := existing[i];
        if e.symbol == oldSymbol && e.entityId == entityId {
          oldSymbolKnown := true;
          if e.effectiveTo.None? && e.effectiveFrom < effective {
            Close(i, effective - 1, knownAt);
          }
        }
      }
      assert rows == OldSymbolClosed(existing, entityId, oldSymbol, effective, knownAt);
      OldSymbolClosedKeeps(existing, entityId, oldSymbol, effective, knownAt);
      if !oldSymbolKnown {
        var old' := RegisterSymbol(oldSymbol, entityId, MATERIALIZED_RANGE_FLOOR, Some(effective - 1), Some(knownAt));
        var materialized := RegisterRange(old');
        if materialized.Failure? {
          rows := existing;
          return Failure(materialized.error);
        }
      }
      var started := RegisterRange(RegisterSymbol(newSymbol, entityId, effective, None, Some(knownAt)));
      if started.Failure? {
        rows := existing;
        return Failure(started.error);
      }
      return Success(());
    }

    method ApplyIdentityAction(a: Action, knownAt: Instant) returns (result: Result<(), MapError>)
      requires Valid()
      modifies this
      ensures Valid()
      ensures match ApplyAction(old(rows), a, knownAt)
              case Success(rows') => rows == rows' && result == Success(())
              case Failure(e) => rows == old(rows) && result == Failure(e)
    {
      match a {
        case SymbolChange(entityId, oldSymbol, newSymbol, effective) =>
          result := ApplySymbolChangeAction(entityId, oldSymbol, newSymbol, effective, knownAt);
        case Merger(entityId, effective) =>
          if effective == 0 {
            return Failure(NotADate);
          }
          var closed := CloseRangesOf(entityId, effective - 1, knownAt);
          result := if closed.Success? then Success(()) else Failure(closed.error);
        case Delisting(entityId, last) =>
          var closed := CloseRangesOf(entityId, last, knownAt);
          result := if closed.Success? then Success(()) else Failure(closed.error);
        case Spinoff(child, childSymbol, exDate) =>
          var started := RegisterRange(RegisterSymbol(childSymbol.GetOr(child), child, exDate, None, Some(knownAt)));
          result := if started.Success? then Success(()) else Failure(started.error);
        case NoIdentityEffect(_) =>
          result := Success(());
      }
    }

    /** The entity the symbol denoted on `date`, as knowable at `k` (all current knowledge when absent). */
    method ResolveSymbol(symbol: Symbol, date: Date, knownAt: Option<Instant>) returns (result: Option<EntityId>)
      ensures result == Resolve(rows, symbol, date, knownAt.GetOr(ALL_KNOWLEDGE))
    {
      var k := knownAt.GetOr(ALL_KNOWLEDGE);
      var found: set<EntityId> := {};
      for i := 0 to |rows|
        invariant found == Candidates(rows[..i], symbol, date, k)
      {
        if rows[i].symbol == symbol && Denotes(rows[i], date, k) {
          found := found + {rows[i].entityId};
        }
        assert rows[..i + 1] == rows[..i] + [rows[i]];
      }
      assert rows[..|rows|] == rows;
      if |found| != 1 {
        return None;
      }
      var e :| e in found;
      assert found == {e} by {
        assert |found - {e}| == 0;
      }
      return Some(e);
    }

    /** The symbol an entity traded under on `date`, as knowable at `k`. */
    method SymbolOfEntityOn(entityId: EntityId, date: Date, knownAt: Option<Instant>) returns (result: Option<Symbol>)
      ensures result == SymbolOn(rows, entityId, date, knownAt.GetOr(ALL_KNOWLEDGE))
    {
      var p := LatestRange(rows, entityId, date, knownAt.GetOr(ALL_KNOWLEDGE));
      result := if p.Some? then Some(rows[p.value].symbol) else None;
    }
  }
}
