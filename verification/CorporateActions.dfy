/**
 * Corporate-action records, the owner's curated structural actions, and the checks that admit those actions:
 * what each may name, and the series ends a merger or delisting sets.
 */
module CorporateActions {
  import opened Wrappers

  datatype Kind = CASH_DIVIDEND | SPLIT | SPINOFF | MERGER | DELISTING

  datatype ActionKey = ActionKey(entity: nat, kind: Kind, date: int)

  /** An entity on a date. */
  datatype Day = Day(entity: nat, date: int)

  /** The facts every source record carries, and the cash or split terms. */
  datatype Record =
    | CashRecord(source: nat, entity: nat, exDate: int, announcedAt: Option<nat>, amount: real, payDate: Option<int>)
    | SplitRecord(source: nat, entity: nat, exDate: int, announcedAt: Option<nat>, ratio: real)
  {
    function Kind(): Kind {
      if CashRecord? then CASH_DIVIDEND else SPLIT
    }

    function Key(): ActionKey {
      ActionKey(entity, Kind(), exDate)
    }

    function OnDay(): Day {
      Day(entity, exDate)
    }

    function Id(): RecordId {
      RecordId(entity, source, Kind(), exDate)
    }
  }

  /** What a structural action's lists name: each source has at most one record per entity, kind and date. */
  datatype RecordId = RecordId(entity: nat, source: nat, kind: Kind, date: int)

  datatype StructuralAction =
    | Spinoff(parent: nat, exDate: int, childFirstClose: Option<real>)
    | Merger(target: nat, effective: int, cashPerShare: Option<real>, stockRatio: Option<real>)
    | Delisting(entityId: nat, lastTradeDate: int, finalPrice: Option<real>)
  {
    function Entity(): nat {
      match this
      case Spinoff(e, _, _) => e
      case Merger(e, _, _, _) => e
      case Delisting(e, _, _) => e
    }

    function Date(): int {
      match this
      case Spinoff(_, d, _) => d
      case Merger(_, d, _, _) => d
      case Delisting(_, d, _) => d
    }

    function Kind(): Kind {
      match this
      case Spinoff(_, _, _) => SPINOFF
      case Merger(_, _, _, _) => MERGER
      case Delisting(_, _, _) => DELISTING
    }

    function Key(): ActionKey {
      ActionKey(Entity(), Kind(), Date())
    }

    /** The last date the entity's return series applies anything: a merger's target trades until the day before. */
    function LastDate(): Option<int> {
      match this
      case Spinoff(_, _, _) => None
      case Merger(_, d, _, _) => Some(d - 1)
      case Delisting(_, d, _) => Some(d)
    }

    /** Whether the return series can value it. */
    predicate IsValued() {
      match this
      case Spinoff(_, _, close) => close.Some?
      case Merger(_, _, _, stock) => stock.None?
      case Delisting(_, _, price) => price.Some?
    }
  }

  /** A parsed action, an action of a kind that is not structural, or what the action parser refuses. */
  datatype Curated = Structural(action: StructuralAction) | OtherKind | Malformed

  datatype Selector = Selector(source: nat, kind: Kind, exDate: Option<int>)

  datatype StructuralEntry = StructuralEntry(
    action: Curated, sources: set<nat>, announcedAt: Option<nat>, supersedes: seq<Selector>, keeps: seq<Selector>)

  datatype Window = Window(from: int, to: int)

  /** `upper` is the upper-case spelling of an entity id. */
  datatype Options = Options(
    windows: seq<Window>, entities: set<nat>, upper: nat -> nat, preferred: seq<nat>, tolerance: real,
    structural: seq<StructuralEntry>)

  datatype Problem =
    | TooFewSources | NoPreferredSource | PreferredSilent | NoWindow | WindowReversed
    | MalformedStructural(index: nat) | NotStructural(index: nat) | Unvalued(index: nat) | Misspelled(index: nat)
    | TwoTerminals(entity: nat) | GivenTwice(key: ActionKey) | StrayName(index: nat) | BothNamed(index: nat)
    | KeepsPastEnd(index: nat) | SpinoffPastEnd
    | Contradiction | DuplicateRecord | BeyondUnwritten | Unclassified | MalformedAction

  predicate InAny(windows: seq<Window>, d: int) {
    exists w :: w in windows && w.from <= d <= w.to
  }

  /** An admitted structural action and the records its lists name. */
  datatype Item = Item(action: StructuralAction, sources: set<nat>, announcedAt: Option<nat>,
                       supersedes: set<RecordId>, keeps: set<RecordId>)

  datatype SeriesEnd = SeriesEnd(lastDate: int, written: bool)

  datatype SkipReason = EntityNotInScope | OutsideWindows

  datatype Skipped = Skipped(index: nat, key: ActionKey, reason: SkipReason)

  datatype Curation = Curation(items: seq<Item>, ends: map<nat, SeriesEnd>, skipped: seq<Skipped>)

  // ---------------------------------------------------------------------------------------------
  // Admitting the curated actions
  // ---------------------------------------------------------------------------------------------

  function NameDate(sel: Selector, a: StructuralAction): int {
    sel.exDate.GetOr(a.Date())
  }

  /** A selector names a record on the action's own date, or past the series end the action sets. */
  predicate MayName(sel: Selector, a: StructuralAction) {
    NameDate(sel, a) == a.Date() || (a.LastDate().Some? && NameDate(sel, a) > a.LastDate().value)
  }

  function NameOf(sel: Selector, a: StructuralAction): RecordId {
    RecordId(a.Entity(), sel.source, sel.kind, NameDate(sel, a))
  }

  function Names(list: seq<Selector>, a: StructuralAction): set<RecordId> {
    set sel | sel in list :: NameOf(sel, a)
  }

  function ItemFor(e: StructuralEntry, a: StructuralAction): Item {
    Item(a, e.sources, e.announcedAt, Names(e.supersedes, a), Names(e.keeps, a))
  }

  predicate Past(d: int, end: Option<int>) {
    end.Some? && d > end.value
  }

  /** What is wrong with an entry's own lists. */
  function ListProblem(e: StructuralEntry, a: StructuralAction, i: nat): Option<Problem> {
    if (exists sel :: sel in e.supersedes && !MayName(sel, a)) || (exists sel :: sel in e.keeps && !MayName(sel, a)) then
      Some(StrayName(i))
    else if exists id :: id in Names(e.supersedes, a) && id in Names(e.keeps, a) then Some(BothNamed(i))
    else if exists id :: id in Names(e.keeps, a) && Past(id.date, a.LastDate()) then Some(KeepsPastEnd(i))
    else None
  }

  predicate IsTypo(entity: nat, opts: Options) {
    exists e :: e in opts.entities && opts.upper(e) == opts.upper(entity)
  }

  predicate HasKey(items: seq<Item>, key: ActionKey) {
    exists it :: it in items && it.action.Key() == key
  }

  function WithEnd(ends: map<nat, SeriesEnd>, a: StructuralAction, written: bool): map<nat, SeriesEnd> {
    if a.LastDate().Some? then ends[a.Entity() := SeriesEnd(a.LastDate().value, written)] else ends
  }

  /** A well-formed structural action for an entity in scope. */
  function AdmitAction(c: Curation, e: StructuralEntry, a: StructuralAction, i: nat, opts: Options): Result<Curation, Problem> {
    if a.LastDate().Some? && a.Entity() in c.ends then Failure(TwoTerminals(a.Entity()))
    else
      var inWindow := InAny(opts.windows, a.Date());
      var ends := WithEnd(c.ends, a, inWindow);
      if !inWindow then Success(c.(ends := ends, skipped := c.skipped + [Skipped(i, a.Key(), OutsideWindows)]))
      else if HasKey(c.items, a.Key()) then Failure(GivenTwice(a.Key()))
      else if ListProblem(e, a, i).Some? then Failure(ListProblem(e, a, i).value)
      else Success(c.(ends := ends, items := c.items + [ItemFor(e, a)]))
  }

  function Admit(c: Curation, e: StructuralEntry, i: nat, opts: Options): Result<Curation, Problem> {
    match e.action
    case Malformed => Failure(MalformedStructural(i))
    case OtherKind => Failure(NotStructural(i))
    case Structural(a) =>
      if !a.IsValued() then Failure(Unvalued(i))
      else if a.Entity() !in opts.entities then
        if IsTypo(a.Entity(), opts) then Failure(Misspelled(i))
        else Success(c.(skipped := c.skipped + [Skipped(i, a.Key(), EntityNotInScope)]))
      else AdmitAction(c, e, a, i, opts)
  }

  const NOTHING_CURATED := Curation([], map[], [])

  /** Admitting the first `n` entries. */
  function AdmitAll(opts: Options, n: nat): Result<Curation, Problem>
    requires n <= |opts.structural|
  {
    if n == 0 then Success(NOTHING_CURATED)
    else
      var before := AdmitAll(opts, n - 1);
      if before.Failure? then before else Admit(before.value, opts.structural[n - 1], n - 1, opts)
  }

  predicate SpinoffIsLate(it: Item, ends: map<nat, SeriesEnd>) {
    it.action.Spinoff? && it.action.Entity() in ends && it.action.Date() > ends[it.action.Entity()].lastDate
  }

  function Curate(opts: Options): Result<Curation, Problem> {
    var all := AdmitAll(opts, |opts.structural|);
    if all.Success? && exists it :: it in all.value.items && SpinoffIsLate(it, all.value.ends) then Failure(SpinoffPastEnd)
    else all
  }

  lemma {:induction false} FailureStays(opts: Options, m: nat, n: nat)
    requires m <= n <= |opts.structural| && AdmitAll(opts, m).Failure?
    ensures AdmitAll(opts, n) == AdmitAll(opts, m)
    decreases n
  {
    if m < n {
      FailureStays(opts, m, n - 1);
    }
  }

  /** The loop over the curated entries, growing its lists and maps in place. */
  method StructuralInScope(opts: Options) returns (result: Result<Curation, Problem>)
    ensures result == Curate(opts)
  {
    var items, skipped: seq<Skipped> := [], [];
    var ends: map<nat, SeriesEnd> := map[];
    var seen: set<ActionKey> := {};
    var i := 0;
    while i < |opts.structural|
      invariant i <= |opts.structural|
      invariant AdmitAll(opts, i) == Success(Curation(items, ends, skipped))
      invariant forall k :: k in seen <==> HasKey(items, k)
    {
      var e := opts.structural[i];
      ghost var c := Curation(items, ends, skipped);
      ghost var next := Admit(c, e, i, opts);
      assert AdmitAll(opts, i + 1) == next;
      if next.Failure? {
        FailureStays(opts, i + 1, |opts.structural|);
      }
      if e.action.Malformed? {
        return Failure(MalformedStructural(i));
      }
      if e.action.OtherKind? {
        return Failure(NotStructural(i));
      }
      var a := e.action.action;
      if !a.IsValued() {
        return Failure(Unvalued(i));
      }
      if a.Entity() !in opts.entities {
        if IsTypo(a.Entity(), opts) {
          return Failure(Misspelled(i));
        }
        skipped := skipped + [Skipped(i, a.Key(), EntityNotInScope)];
      } else {
        var inWindow := InAny(opts.windows, a.Date());
        if a.LastDate().Some? {
          if a.Entity() in ends {
            return Failure(TwoTerminals(a.Entity()));
          }
          ends := ends[a.Entity() := SeriesEnd(a.LastDate().value, inWindow)];
        }
        if !inWindow {
          skipped := skipped + [Skipped(i, a.Key(), OutsideWindows)];
        } else {
          if a.Key() in seen {
            return Failure(GivenTwice(a.Key()));
          }
          var problem := ListProblem(e, a, i);
          if problem.Some? {
            return Failure(problem.value);
          }
          HasKeyAppend(items, ItemFor(e, a));
          seen := seen + {a.Key()};
          items := items + [ItemFor(e, a)];
        }
      }
      i := i + 1;
    }
    if exists it :: it in items && SpinoffIsLate(it, ends) {
      return Failure(SpinoffPastEnd);
    }
    return Success(Curation(items, ends, skipped));
  }

  lemma {:induction false} HasKeyAppend(items: seq<Item>, it: Item)
    ensures forall k :: HasKey(items + [it], k) <==> HasKey(items, k) || k == it.action.Key()
  {
  }

  // ---------------------------------------------------------------------------------------------
  // What admission guarantees
  // ---------------------------------------------------------------------------------------------

  predicate EndsHere(e: StructuralEntry, opts: Options) {
    e.action.Structural? && e.action.action.Entity() in opts.entities && e.action.action.LastDate().Some?
  }

  /** One admitted item: of its own entity only, and keeping nothing past the end it sets. */
  ghost predicate ItemIsSound(it: Item, opts: Options) {
    && it.action.Entity() in opts.entities
    && InAny(opts.windows, it.action.Date())
    && it.action.IsValued()
    && (forall id :: id in it.supersedes ==> id !in it.keeps)
    && (forall id :: id in it.supersedes ==> IsNameOf(id, it.action))
    && (forall id :: id in it.keeps ==> IsNameOf(id, it.action) && !Past(id.date, it.action.LastDate()))
  }

  predicate IsNameOf(id: RecordId, a: StructuralAction) {
    id.entity == a.Entity() && (id.date == a.Date() || Past(id.date, a.LastDate()))
  }

  ghost predicate KeysDistinct(items: seq<Item>) {
    forall i, j :: 0 <= i < j < |items| ==> items[i].action.Key() != items[j].action.Key()
  }

  /** Each in-scope terminal action among the first `n` entries is the one end of its entity. */
  ghost predicate EndsRecorded(c: Curation, opts: Options, n: nat)
    requires n <= |opts.structural|
  {
    && (forall k :: 0 <= k < n && EndsHere(opts.structural[k], opts) ==>
          EndIs(c.ends, opts.structural[k].action.action))
    && (forall it :: it in c.items && it.action.LastDate().Some? ==> EndIs(c.ends, it.action))
  }

  predicate EndIs(ends: map<nat, SeriesEnd>, a: StructuralAction)
    requires a.LastDate().Some?
  {
    a.Entity() in ends && ends[a.Entity()].lastDate == a.LastDate().value
  }

  lemma {:induction false} AdmitKeepsItems(c: Curation, n: nat, opts: Options)
    requires n < |opts.structural|
    requires Admit(c, opts.structural[n], n, opts).Success?
    requires KeysDistinct(c.items) && forall it :: it in c.items ==> ItemIsSound(it, opts)
    ensures var d := Admit(c, opts.structural[n], n, opts).value;
            KeysDistinct(d.items) && forall it :: it in d.items ==> ItemIsSound(it, opts)
  {
  }

  lemma {:induction false} AdmitRecordsEnds(c: Curation, n: nat, opts: Options)
    requires n < |opts.structural|
    requires Admit(c, opts.structural[n], n, opts).Success?
    requires EndsRecorded(c, opts, n)
    ensures EndsRecorded(Admit(c, opts.structural[n], n, opts).value, opts, n + 1)
  {
  }

  ghost predicate CurationIsSound(c: Curation, opts: Options) {
    && KeysDistinct(c.items)
    && (forall it :: it in c.items ==> ItemIsSound(it, opts))
    && EndsRecorded(c, opts, |opts.structural|)
    && (forall it :: it in c.items ==> !SpinoffIsLate(it, c.ends))
  }

  lemma {:induction false} AdmittedIsSound(opts: Options, n: nat)
    requires n <= |opts.structural| && AdmitAll(opts, n).Success?
    ensures var c := AdmitAll(opts, n).value;
            KeysDistinct(c.items) && (forall it :: it in c.items ==> ItemIsSound(it, opts)) && EndsRecorded(c, opts, n)
    decreases n
  {
    if n > 0 {
      AdmittedIsSound(opts, n - 1);
      AdmitKeepsItems(AdmitAll(opts, n - 1).value, n - 1, opts);
      AdmitRecordsEnds(AdmitAll(opts, n - 1).value, n - 1, opts);
    }
  }

  /** Everything the reconciler relies on, from the entry checks alone. */
  lemma {:induction false} CuratedIsSound(opts: Options)
    requires Curate(opts).Success?
    ensures CurationIsSound(Curate(opts).value, opts)
  {
    AdmittedIsSound(opts, |opts.structural|);
  }

  /** No admitted action keeps a record past its entity's series end, whichever action sets that end. */
  lemma {:induction false} NothingKeptPastAnEnd(opts: Options, it: Item, id: RecordId)
    requires Curate(opts).Success? && it in Curate(opts).value.items && id in it.keeps
    ensures var ends := Curate(opts).value.ends;
            id.entity in ends ==> id.date <= ends[id.entity].lastDate
  {
    CuratedIsSound(opts);
    var c := Curate(opts).value;
    assert ItemIsSound(it, opts);
    if it.action.LastDate().Some? {
      assert EndIs(c.ends, it.action);
    } else {
      assert !SpinoffIsLate(it, c.ends);
    }
  }
}
