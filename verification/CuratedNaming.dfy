/**
 * The reconciliation in the curated entries' own terms: which entries are admitted, which records they set aside or
 * keep, and which records a successful run leaves unnamed.
 */
module CuratedNaming {
  import opened Wrappers
  import opened CorporateActions
  import opened ActionReconciliation
  import opened ActionReconciliationLaws

  // ---------------------------------------------------------------------------------------------
  // The curated entries
  // ---------------------------------------------------------------------------------------------

  /** The date a selector gives, or else its action's own. */
  function Dated(sel: Selector, a: StructuralAction): int {
    match sel.exDate
    case Some(d) => d
    case None => a.Date()
  }

  predicate PointsAt(sel: Selector, a: StructuralAction, r: Record) {
    r.entity == a.Entity() && r.source == sel.source && r.Kind() == sel.kind && r.exDate == Dated(sel, a)
  }

  /** Some selector of the list names the record. */
  predicate Lists(list: seq<Selector>, a: StructuralAction, r: Record) {
    exists sel :: sel in list && PointsAt(sel, a, r)
  }

  /** The date is inside one of the windows, both ends included. */
  predicate InWindows(opts: Options, date: int) {
    exists w :: w in opts.windows && w.from <= date && date <= w.to
  }

  /** A source's record of an entity in scope, dated inside a window. */
  predicate IsAsked(r: Record, opts: Options) {
    r.entity in opts.entities && InWindows(opts, r.exDate)
  }

  lemma {:induction false} WindowsAre(opts: Options, date: int)
    ensures InAny(opts.windows, date) <==> InWindows(opts, date)
  {
  }

  lemma {:induction false} AskedAreConsidered(r: Record, opts: Options)
    ensures IsAsked(r, opts) <==> IsAsked(r, opts)
  {
    WindowsAre(opts, r.exDate);
  }

  /** A merger's target trades until the day before, a delisted entity through its last trade date. */
  predicate IsPastEndOf(date: int, a: StructuralAction) {
    match a
    case Merger(_, effective, _, _) => effective <= date
    case Delisting(_, lastTradeDate, _) => lastTradeDate < date
    case Spinoff(_, _, _) => false
  }

  /** An entry for an entity in scope, dated inside a window: its action is written to the file. */
  predicate IsWritten(e: StructuralEntry, opts: Options) {
    e.action.Structural? && e.action.action.Entity() in opts.entities && InWindows(opts, e.action.action.Date())
  }

  predicate OnDay(e: StructuralEntry, opts: Options, d: Day) {
    IsWritten(e, opts) && e.action.action.Entity() == d.entity && e.action.action.Date() == d.date
  }

  predicate Supersedes(e: StructuralEntry, opts: Options, r: Record) {
    IsWritten(e, opts) && Lists(e.supersedes, e.action.action, r)
  }

  predicate Keeps(e: StructuralEntry, opts: Options, r: Record) {
    IsWritten(e, opts) && Lists(e.keeps, e.action.action, r)
  }

  lemma {:induction false} NamesAre(list: seq<Selector>, a: StructuralAction, r: Record)
    ensures r.Id() in Names(list, a) <==> Lists(list, a, r)
  {
    forall sel | sel in list ensures NameOf(sel, a) == r.Id() <==> PointsAt(sel, a, r) {
    }
  }

  /** An item is an entry that is written, with the records its lists name. */
  ghost predicate IsItemOf(it: Item, e: StructuralEntry, opts: Options) {
    IsWritten(e, opts) && it == ItemFor(e, e.action.action)
  }

  lemma {:induction false} AdmitAdds(c: Curation, n: nat, opts: Options)
    requires n < |opts.structural| && Admit(c, opts.structural[n], n, opts).Success?
    ensures var d, e := Admit(c, opts.structural[n], n, opts).value, opts.structural[n];
            d.items == if IsWritten(e, opts) then c.items + [ItemFor(e, e.action.action)] else c.items
  {
    var e := opts.structural[n];
    if e.action.Structural? {
      WindowsAre(opts, e.action.action.Date());
    }
  }

  lemma {:induction false} AdmittedItems(opts: Options, n: nat, it: Item)
    requires n <= |opts.structural| && AdmitAll(opts, n).Success?
    ensures it in AdmitAll(opts, n).value.items <==> exists k :: 0 <= k < n && IsItemOf(it, opts.structural[k], opts)
    decreases n
  {
    if n > 0 {
      var c := AdmitAll(opts, n - 1).value;
      AdmittedItems(opts, n - 1, it);
      AdmitAdds(c, n - 1, opts);
      if IsItemOf(it, opts.structural[n - 1], opts) {
        assert it in AdmitAll(opts, n).value.items;
      }
    }
  }

  /** The items are exactly the entries that are written. */
  lemma {:induction false} ItemsAre(opts: Options, it: Item)
    requires Curate(opts).Success?
    ensures it in ItemsOf(opts) <==> exists e :: e in opts.structural && IsItemOf(it, e, opts)
  {
    AdmittedItems(opts, |opts.structural|, it);
    if e :| e in opts.structural && IsItemOf(it, e, opts) {
      var k :| 0 <= k < |opts.structural| && opts.structural[k] == e;
      assert IsItemOf(it, opts.structural[k], opts);
    }
  }

  lemma {:induction false} DaysAre(opts: Options, d: Day)
    requires Curate(opts).Success?
    ensures d in Days(ItemsOf(opts)) <==> exists e :: e in opts.structural && OnDay(e, opts, d)
  {
    if d in Days(ItemsOf(opts)) {
      var it :| it in ItemsOf(opts) && DayOf(it) == d;
      ItemsAre(opts, it);
      var e :| e in opts.structural && IsItemOf(it, e, opts);
      assert OnDay(e, opts, d);
    }
    if e :| e in opts.structural && OnDay(e, opts, d) {
      var it := ItemFor(e, e.action.action);
      ItemsAre(opts, it);
      assert IsItemOf(it, e, opts);
      assert DayOf(it) == d;
    }
  }

  lemma {:induction false} NamedIsMapped(items: seq<Item>, it: Item, id: RecordId)
    requires it in items
    ensures id in it.supersedes ==> id in SupersededBy(items)
    ensures id in it.keeps ==> id in KeptBy(items)
    decreases |items|
  {
    var front, last := items[..|items| - 1], items[|items| - 1];
    assert items == front + [last];
    if it != last {
      NamedIsMapped(front, it, id);
    }
  }

  lemma {:induction false} SupersededIff(opts: Options, r: Record)
    requires Curate(opts).Success?
    ensures r.Id() in SupersededBy(ItemsOf(opts)) <==> exists e :: e in opts.structural && Supersedes(e, opts, r)
  {
    var items := ItemsOf(opts);
    if r.Id() in SupersededBy(items) {
      SupersededOnADay(items, r.Id());
      var it :| it in items && r.Id() in it.supersedes;
      ItemsAre(opts, it);
      var e :| e in opts.structural && IsItemOf(it, e, opts);
      NamesAre(e.supersedes, e.action.action, r);
      assert Supersedes(e, opts, r);
    }
    if e :| e in opts.structural && Supersedes(e, opts, r) {
      var it := ItemFor(e, e.action.action);
      ItemsAre(opts, it);
      assert IsItemOf(it, e, opts);
      NamesAre(e.supersedes, e.action.action, r);
      NamedIsMapped(items, it, r.Id());
    }
  }

  lemma {:induction false} KeptIff(opts: Options, r: Record)
    requires Curate(opts).Success?
    ensures r.Id() in KeptBy(ItemsOf(opts)) <==> exists e :: e in opts.structural && Keeps(e, opts, r)
  {
    var items := ItemsOf(opts);
    if r.Id() in KeptBy(items) {
      KeptOnADay(items, r.Id());
      var it :| it in items && r.Id() in it.keeps;
      ItemsAre(opts, it);
      var e :| e in opts.structural && IsItemOf(it, e, opts);
      NamesAre(e.keeps, e.action.action, r);
      assert Keeps(e, opts, r);
    }
    if e :| e in opts.structural && Keeps(e, opts, r) {
      var it := ItemFor(e, e.action.action);
      ItemsAre(opts, it);
      assert IsItemOf(it, e, opts);
      NamesAre(e.keeps, e.action.action, r);
      NamedIsMapped(items, it, r.Id());
    }
  }

  // ---------------------------------------------------------------------------------------------
  // One series end per entity, and one day per name
  // ---------------------------------------------------------------------------------------------

  /** A merger or delisting of the entity, which is in scope; its own date need not be. */
  predicate Ends(e: StructuralEntry, opts: Options, entity: nat) {
    && e.action.Structural? && (e.action.action.Merger? || e.action.action.Delisting?)
    && entity in opts.entities && e.action.action.Entity() == entity
  }

  lemma {:induction false} EndStays(opts: Options, m: nat, n: nat, x: nat)
    requires m <= n <= |opts.structural| && AdmitAll(opts, n).Success?
    ensures AdmitAll(opts, m).Success? && (x in AdmitAll(opts, m).value.ends ==> x in AdmitAll(opts, n).value.ends)
    decreases n
  {
    if m < n {
      EndStays(opts, m, n - 1, x);
    }
  }

  /** An entity has one terminal entry at most: a second is refused. */
  lemma {:induction false} OneEndEach(opts: Options, m: nat, n: nat, x: nat)
    requires Curate(opts).Success? && m <= n < |opts.structural|
    requires Ends(opts.structural[m], opts, x) && Ends(opts.structural[n], opts, x)
    ensures m == n
  {
    if m < n {
      EndStays(opts, n + 1, |opts.structural|, x);
      EndStays(opts, m + 1, n, x);
      EndStays(opts, m, n, x);
      EndSet(opts, m, x);
    }
  }

  lemma {:induction false} EndSet(opts: Options, m: nat, x: nat)
    requires m < |opts.structural| && AdmitAll(opts, m + 1).Success? && Ends(opts.structural[m], opts, x)
    ensures x in AdmitAll(opts, m + 1).value.ends
  {
  }

  /** What admission promises of an entry that is written. */
  lemma {:induction false} WrittenIsSound(opts: Options, e: StructuralEntry)
    requires Curate(opts).Success? && e in opts.structural && IsWritten(e, opts)
    ensures var c, it := Curate(opts).value, ItemFor(e, e.action.action);
            it in c.items && ItemIsSound(it, opts) && !SpinoffIsLate(it, c.ends)
  {
    CuratedIsSound(opts);
    ItemsAre(opts, ItemFor(e, e.action.action));
    assert IsItemOf(ItemFor(e, e.action.action), e, opts);
  }

  /** A terminal entry's last date is its entity's series end, whether or not its action is written. */
  lemma {:induction false} EndIsRecorded(opts: Options, n: nat)
    requires Curate(opts).Success? && n < |opts.structural| && EndsHere(opts.structural[n], opts)
    ensures EndIs(Curate(opts).value.ends, opts.structural[n].action.action)
    ensures var a := opts.structural[n].action.action;
            Curate(opts).value.ends[a.Entity()].written == InAny(opts.windows, a.Date())
  {
    CuratedIsSound(opts);
    EndKept(opts, n, |opts.structural|);
  }

  lemma {:induction false} EndKept(opts: Options, n: nat, m: nat)
    requires n < m <= |opts.structural| && AdmitAll(opts, m).Success? && EndsHere(opts.structural[n], opts)
    ensures var a, ends := opts.structural[n].action.action, AdmitAll(opts, m).value.ends;
            a.Entity() in ends && ends[a.Entity()] == SeriesEnd(a.LastDate().value, InAny(opts.windows, a.Date()))
    decreases m
  {
    if n < m - 1 {
      EndKept(opts, n, m - 1);
    }
  }

  lemma {:induction false} EndIsGiven(opts: Options, n: nat, x: nat)
    requires n <= |opts.structural| && AdmitAll(opts, n).Success? && x in AdmitAll(opts, n).value.ends
    ensures exists k :: 0 <= k < n && Ends(opts.structural[k], opts, x)
    decreases n
  {
    if x in AdmitAll(opts, n - 1).value.ends {
      EndIsGiven(opts, n - 1, x);
    } else {
      assert Ends(opts.structural[n - 1], opts, x);
    }
  }

  /** An entry naming a record past an entity's series end is the entry that sets that end. */
  lemma {:induction false} NamedPastEnd(opts: Options, m: nat, n: nat, r: Record)
    requires Curate(opts).Success? && m < |opts.structural| && n < |opts.structural|
    requires Supersedes(opts.structural[m], opts, r) || Keeps(opts.structural[m], opts, r)
    requires Ends(opts.structural[n], opts, r.entity) && IsPastEndOf(r.exDate, opts.structural[n].action.action)
    ensures m == n
  {
    var e := opts.structural[m];
    var a := e.action.action;
    WrittenIsSound(opts, e);
    EndIsRecorded(opts, n);
    NamesAre(e.supersedes, a, r);
    NamesAre(e.keeps, a, r);
    assert IsNameOf(r.Id(), a);
    if a.LastDate().Some? {
      if m < n {
        OneEndEach(opts, m, n, r.entity);
      } else {
        OneEndEach(opts, n, m, r.entity);
      }
    }
  }

  /** Two entries naming one record are on one day. */
  lemma {:induction false} OneDayPerName(opts: Options, d: StructuralEntry, e: StructuralEntry, r: Record)
    requires Curate(opts).Success? && d in opts.structural && e in opts.structural
    requires Supersedes(d, opts, r) || Keeps(d, opts, r)
    requires Supersedes(e, opts, r) || Keeps(e, opts, r)
    ensures d.action.action.Date() == e.action.action.Date()
  {
    var m :| 0 <= m < |opts.structural| && opts.structural[m] == d;
    var n :| 0 <= n < |opts.structural| && opts.structural[n] == e;
    NamedWithin(opts, d, r);
    NamedWithin(opts, e, r);
    if Past(r.exDate, d.action.action.LastDate()) {
      NamedPastEnd(opts, n, m, r);
    } else if Past(r.exDate, e.action.action.LastDate()) {
      NamedPastEnd(opts, m, n, r);
    }
  }

  lemma {:induction false} NamedWithin(opts: Options, e: StructuralEntry, r: Record)
    requires Curate(opts).Success? && e in opts.structural && (Supersedes(e, opts, r) || Keeps(e, opts, r))
    ensures IsNameOf(r.Id(), e.action.action)
  {
    WrittenIsSound(opts, e);
    NamesAre(e.supersedes, e.action.action, r);
    NamesAre(e.keeps, e.action.action, r);
  }

  // ---------------------------------------------------------------------------------------------
  // What becomes of each record
  // ---------------------------------------------------------------------------------------------

  /** The record is on the day of an action that is written, or past its entity's series end. */
  predicate IsTouched(opts: Options, r: Record) {
    (exists e :: e in opts.structural && OnDay(e, opts, r.OnDay()))
    || (exists e :: e in opts.structural && Ends(e, opts, r.entity) && IsPastEndOf(r.exDate, e.action.action))
  }

  lemma {:induction false} PastEndIff(opts: Options, r: Record)
    requires Curate(opts).Success?
    ensures IsPastEnd(Curate(opts).value, r) <==>
      exists e :: e in opts.structural && Ends(e, opts, r.entity) && IsPastEndOf(r.exDate, e.action.action)
  {
    var ends := Curate(opts).value.ends;
    if r.entity in ends {
      EndIsGiven(opts, |opts.structural|, r.entity);
      var k :| 0 <= k < |opts.structural| && Ends(opts.structural[k], opts, r.entity);
      EndIsRecorded(opts, k);
    }
    if e :| e in opts.structural && Ends(e, opts, r.entity) && IsPastEndOf(r.exDate, e.action.action) {
      var k :| 0 <= k < |opts.structural| && opts.structural[k] == e;
      EndIsRecorded(opts, k);
    }
  }

  lemma {:induction false} TouchedIff(opts: Options, r: Record)
    requires Curate(opts).Success?
    ensures FateOf(Curate(opts).value, r).Open? <==> !IsTouched(opts, r)
  {
    PastEndIff(opts, r);
    DaysAre(opts, r.OnDay());
  }

  /** Only a record on the action's day, or past the series end it sets, is ever named. */
  lemma {:induction false} NamedIsTouched(opts: Options, e: StructuralEntry, r: Record)
    requires Curate(opts).Success? && e in opts.structural && (Supersedes(e, opts, r) || Keeps(e, opts, r))
    ensures IsTouched(opts, r)
  {
    NamedWithin(opts, e, r);
    if r.exDate == e.action.action.Date() {
      assert OnDay(e, opts, r.OnDay());
    } else {
      assert Ends(e, opts, r.entity);
    }
  }

  lemma {:induction false} SupersededFate(opts: Options, e: StructuralEntry, r: Record)
    requires Curate(opts).Success? && e in opts.structural && Supersedes(e, opts, r)
    ensures FateOf(Curate(opts).value, r) == SetAside(Day(r.entity, e.action.action.Date()))
  {
    NamedIsTouched(opts, e, r);
    TouchedIff(opts, r);
    SupersededIff(opts, r);
    var items := ItemsOf(opts);
    SupersededOnADay(items, r.Id());
    var it :| it in items && r.Id() in it.supersedes && DayOf(it) == SupersededBy(items)[r.Id()];
    ItemsAre(opts, it);
    var d :| d in opts.structural && IsItemOf(it, d, opts);
    NamesAre(d.supersedes, d.action.action, r);
    OneDayPerName(opts, d, e, r);
    assert d.action.action.Entity() == r.entity;
  }

  lemma {:induction false} KeptFate(opts: Options, e: StructuralEntry, r: Record)
    requires Curate(opts).Success? && !Contradicts(ItemsOf(opts))
    requires e in opts.structural && Keeps(e, opts, r)
    ensures FateOf(Curate(opts).value, r) == Kept(Day(r.entity, e.action.action.Date()))
  {
    NamedIsTouched(opts, e, r);
    TouchedIff(opts, r);
    KeptIff(opts, r);
    var items := ItemsOf(opts);
    assert r.Id() !in SupersededBy(items);
    KeptOnADay(items, r.Id());
    var it :| it in items && r.Id() in it.keeps && DayOf(it) == KeptBy(items)[r.Id()];
    ItemsAre(opts, it);
    var d :| d in opts.structural && IsItemOf(it, d, opts);
    NamesAre(d.keeps, d.action.action, r);
    OneDayPerName(opts, d, e, r);
    assert d.action.action.Entity() == r.entity;
  }

  lemma {:induction false} FateIsNamed(opts: Options, r: Record)
    requires Curate(opts).Success?
    ensures FateOf(Curate(opts).value, r).SetAside? ==> exists e :: e in opts.structural && Supersedes(e, opts, r)
    ensures FateOf(Curate(opts).value, r).Kept? ==> exists e :: e in opts.structural && Keeps(e, opts, r)
  {
    SupersededIff(opts, r);
    KeptIff(opts, r);
  }

  /** The report has a finding for exactly the days of the actions that are written. */
  lemma {:induction false} FindingDays(records: seq<Record>, opts: Options, d: Day)
    requires Reconciliation(records, opts).Success?
    ensures d in Reconciliation(records, opts).value.setAside <==> exists e :: e in opts.structural && OnDay(e, opts, d)
  {
    DaysAre(opts, d);
  }

  /** Under each day the report sets aside exactly the considered records that day's actions name as superseded. */
  lemma {:induction false} SupersededIsSetAside(records: seq<Record>, opts: Options, d: Day, r: Record)
    requires Reconciliation(records, opts).Success? && d in Reconciliation(records, opts).value.setAside
    ensures r in Reconciliation(records, opts).value.setAside[d].superseded <==>
      r in records && IsAsked(r, opts) && exists e :: e in opts.structural && OnDay(e, opts, d) && Supersedes(e, opts, r)
  {
    var c, s := Curate(opts).value, Considered(records, opts);
    assert Reconciliation(records, opts).value.setAside[d] == FindingAt(c, s, d);
    ConsideredMember(records, opts, r);
    AskedAreConsidered(r, opts);
    FateIsNamed(opts, r);
    if FateOf(c, r) == SetAside(d) {
      var e :| e in opts.structural && Supersedes(e, opts, r);
      SupersededFate(opts, e, r);
      assert OnDay(e, opts, d);
    }
    if e :| e in opts.structural && OnDay(e, opts, d) && Supersedes(e, opts, r) {
      SupersededFate(opts, e, r);
    }
  }

  /** And lists as kept exactly those they name under `keeps`. */
  lemma {:induction false} KeptIsListed(records: seq<Record>, opts: Options, d: Day, r: Record)
    requires Reconciliation(records, opts).Success? && d in Reconciliation(records, opts).value.setAside
    ensures r in Reconciliation(records, opts).value.setAside[d].kept <==>
      r in records && IsAsked(r, opts) && exists e :: e in opts.structural && OnDay(e, opts, d) && Keeps(e, opts, r)
  {
    var c, s := Curate(opts).value, Considered(records, opts);
    assert Reconciliation(records, opts).value.setAside[d] == FindingAt(c, s, d);
    ConsideredMember(records, opts, r);
    AskedAreConsidered(r, opts);
    FateIsNamed(opts, r);
    if FateOf(c, r) == Kept(d) {
      var e :| e in opts.structural && Keeps(e, opts, r);
      KeptFate(opts, e, r);
      assert OnDay(e, opts, d);
    }
    if e :| e in opts.structural && OnDay(e, opts, d) && Keeps(e, opts, r) {
      KeptFate(opts, e, r);
    }
  }

  /** A considered record goes on to be written exactly when no written action supersedes it. */
  lemma {:induction false} InScopeIff(records: seq<Record>, opts: Options, r: Record)
    requires Reconciliation(records, opts).Success? && r in records && IsAsked(r, opts)
    ensures IsInScope(records, opts, r) <==> !exists e :: e in opts.structural && Supersedes(e, opts, r)
  {
    ConsideredMember(records, opts, r);
    AskedAreConsidered(r, opts);
    FateIsNamed(opts, r);
    if e :| e in opts.structural && Supersedes(e, opts, r) {
      SupersededFate(opts, e, r);
    }
  }

  lemma {:induction false} SameIdSameRecord(s: seq<Record>, a: Record, b: Record)
    requires !Duplicated(s) && a in s && b in s && a.Id() == b.Id()
    ensures a == b
  {
    var i :| 0 <= i < |s| && s[i] == a;
    var j :| 0 <= j < |s| && s[j] == b;
  }

  lemma {:induction false} SourceIsGrouped(of: map<ActionKey, map<nat, Record>>, k: ActionKey, opts: Options, e: Entry, src: nat)
    requires GroupFits(of, k) && IsEntryFor(e, of, k, opts) && src in e.sources
    ensures src in of[k]
  {
    ChosenIsPresent(of[k], opts.preferred);
  }

  /** A source's record that an action supersedes stands behind no cash or split entry of the file. */
  lemma {:induction false} SupersededIsNotWritten(records: seq<Record>, opts: Options, e: StructuralEntry, r: Record, w: Entry)
    requires Reconciliation(records, opts).Success? && r in records && IsAsked(r, opts)
    requires e in opts.structural && Supersedes(e, opts, r)
    requires w in Reconciliation(records, opts).value.file && !w.action.CuratedWritten? && w.action.Key() == r.Key()
    ensures r.source !in w.sources
  {
    if r.source in w.sources {
      var k := EntryHasSource(records, opts, w);
      SourceIsGrouped(GroupsOf(records, opts).of, k, opts, w, r.source);
      GroupedIsInScope(records, opts, k, r.source);
      var x := GroupsOf(records, opts).of[k][r.source];
      ConsideredMember(records, opts, x);
      ConsideredMember(records, opts, r);
    AskedAreConsidered(r, opts);
      SameIdSameRecord(Considered(records, opts), x, r);
      InScopeIff(records, opts, r);
    }
  }

  lemma {:induction false} NoneUnnamed(records: seq<Record>, opts: Options, r: Record)
    requires Reconciliation(records, opts).Success? && r in records && IsAsked(r, opts)
    ensures !FateOf(Curate(opts).value, r).Unnamed?
  {
    ConsideredMember(records, opts, r);
    AskedAreConsidered(r, opts);
  }

  /** A run that succeeds leaves no record on a written structural action's day unnamed. */
  lemma {:induction false} OnDayIsNamed(records: seq<Record>, opts: Options, e: StructuralEntry, r: Record)
    requires Reconciliation(records, opts).Success? && r in records && IsAsked(r, opts)
    requires e in opts.structural && OnDay(e, opts, r.OnDay())
    ensures exists d :: d in opts.structural && (Supersedes(d, opts, r) || Keeps(d, opts, r))
  {
    NoneUnnamed(records, opts, r);
    FateIsNamed(opts, r);
    TouchedIff(opts, r);
  }

  /** A record past a series end is superseded by the very action that sets the end, which is then itself written. */
  lemma {:induction false} PastEndIsSuperseded(records: seq<Record>, opts: Options, e: StructuralEntry, r: Record)
    requires Reconciliation(records, opts).Success? && r in records && IsAsked(r, opts)
    requires e in opts.structural && Ends(e, opts, r.entity) && IsPastEndOf(r.exDate, e.action.action)
    ensures Supersedes(e, opts, r)
  {
    NoneUnnamed(records, opts, r);
    PastEndIff(opts, r);
    if IsInScope(records, opts, r) {
      InScopeBeforeEnd(records, opts, r);
    }
    FateIsNamed(opts, r);
    var d :| d in opts.structural && Supersedes(d, opts, r);
    var m :| 0 <= m < |opts.structural| && opts.structural[m] == d;
    var n :| 0 <= n < |opts.structural| && opts.structural[n] == e;
    NamedPastEnd(opts, m, n, r);
  }

  // ---------------------------------------------------------------------------------------------
  // What the report lists, and what the file writes
  // ---------------------------------------------------------------------------------------------

  /** Some source's in-scope record of the action does not carry the written value. */
  ghost predicate SomeDisagree(records: seq<Record>, opts: Options, w: Written) {
    exists r :: IsInScope(records, opts, r) && r.Key() == w.Key() && !Confirms(w, r, opts.tolerance)
  }

  /** Two sources at least report the action. */
  ghost predicate SeveralReport(records: seq<Record>, opts: Options, k: ActionKey) {
    exists a, b :: IsInScope(records, opts, a) && IsInScope(records, opts, b)
      && a.Key() == k && b.Key() == k && a.source != b.source
  }

  lemma {:induction false} DisputesOneMore(o: Output, k: ActionKey, bySource: map<nat, Record>, opts: Options, d: Dispute)
    ensures var more := WithKey(o, k, bySource, opts);
            var disputed := d.key == k && IsDispute(d, bySource, opts);
            && (d in more.disagreements <==> d in o.disagreements || (disputed && |bySource| >= 2))
            && (d in more.oneSided <==> d in o.oneSided || (disputed && |bySource| < 2))
  {
  }

  lemma {:induction false} DisputesAre(keys: seq<ActionKey>, of: map<ActionKey, map<nat, Record>>, opts: Options, d: Dispute)
    ensures var o := Outputs(keys, of, opts);
            (d in o.disagreements <==> d.key in keys && IsDispute(d, At(of, d.key), opts) && |At(of, d.key)| >= 2)
            && (d in o.oneSided <==> d.key in keys && IsDispute(d, At(of, d.key), opts) && |At(of, d.key)| < 2)
    decreases |keys|
  {
    if keys != [] {
      var front, last := keys[..|keys| - 1], keys[|keys| - 1];
      DisputesAre(front, of, opts, d);
      DisputesOneMore(Outputs(front, of, opts), last, At(of, last), opts, d);
      assert keys == front + [last];
    }
  }

  ghost predicate IsDispute(d: Dispute, bySource: map<nat, Record>, opts: Options) {
    var chosen := Chosen(bySource, opts.preferred);
    chosen.Some? && IsListed(bySource, chosen.value, opts) && d == Dispute(d.key, bySource, chosen.value.source)
  }

  lemma {:induction false} TwoMembers(s: set<nat>)
    ensures |s| >= 2 <==> exists x, y :: x in s && y in s && x != y
  {
    if s != {} {
      var x :| x in s;
      assert s == {x} + (s - {x});
      if |s| >= 2 {
        var y :| y in s - {x};
      }
      if a, b :| a in s && b in s && a != b {
        assert (if a != x then a else b) in s - {x};
      }
    }
  }

  lemma {:induction false} SeveralIff(records: seq<Record>, opts: Options, k: ActionKey)
    requires Reconciliation(records, opts).Success? && k in GroupsOf(records, opts).of
    ensures |GroupsOf(records, opts).of[k]| >= 2 <==> SeveralReport(records, opts, k)
  {
    var bySource := GroupsOf(records, opts).of[k];
    assert |bySource| == |bySource.Keys|;
    TwoMembers(bySource.Keys);
    if x, y :| x in bySource.Keys && y in bySource.Keys && x != y {
      GroupedIsInScope(records, opts, k, x);
      GroupedIsInScope(records, opts, k, y);
    }
    if a, b :| IsInScope(records, opts, a) && IsInScope(records, opts, b) && a.Key() == k && b.Key() == k && a.source != b.source {
      InScopeIsGrouped(records, opts, a);
      InScopeIsGrouped(records, opts, b);
    }
  }

  lemma {:induction false} DisagreeIff(records: seq<Record>, opts: Options, k: ActionKey, chosen: Record)
    requires Reconciliation(records, opts).Success? && k in GroupsOf(records, opts).of
    requires Chosen(GroupsOf(records, opts).of[k], opts.preferred) == Some(chosen) && chosen.Key() == k
    ensures var bySource := GroupsOf(records, opts).of[k];
            |Agreeing(bySource, chosen, opts.tolerance)| < |bySource| <==> SomeDisagree(records, opts, Stored(chosen))
  {
    var bySource := GroupsOf(records, opts).of[k];
    var agreeing := Agreeing(bySource, chosen, opts.tolerance);
    assert |bySource| == |bySource.Keys|;
    if r :| IsInScope(records, opts, r) && r.Key() == k && !Confirms(Stored(chosen), r, opts.tolerance) {
      InScopeIsGrouped(records, opts, r);
      AgreeIsConfirm(chosen, r, opts.tolerance);
      if |agreeing| >= |bySource| {
        FullSubset(agreeing, bySource.Keys);
      }
    }
    if |agreeing| < |bySource| {
      var src := Missing(agreeing, bySource.Keys);
      GroupedIsInScope(records, opts, k, src);
      AgreeIsConfirm(chosen, bySource[src], opts.tolerance);
    }
  }

  lemma {:induction false} Missing(a: set<nat>, b: set<nat>) returns (x: nat)
    requires a <= b && |a| < |b|
    ensures x in b && x !in a
  {
    if b <= a {
      FewerAgree(b, a);
    }
    x :| x in b && x !in a;
  }

  /**
   * For each entry the report lists its action among the disagreements exactly when several sources report it and one
   * does not carry the written value, and among the one-sided exactly when one source alone reports it.
   */
  lemma {:induction false} DisputedIff(records: seq<Record>, opts: Options, e: Entry)
    requires Reconciliation(records, opts).Success?
    requires e in Reconciliation(records, opts).value.file && !e.action.CuratedWritten?
    ensures var out, k := Reconciliation(records, opts).value, e.action.Key();
            ((exists d :: d in out.disagreements && d.key == k) <==>
               SeveralReport(records, opts, k) && SomeDisagree(records, opts, e.action))
            && ((exists d :: d in out.oneSided && d.key == k) <==> !SeveralReport(records, opts, k))
  {
    var g := GroupsOf(records, opts);
    var k := EntryHasSource(records, opts, e);
    var bySource := g.of[k];
    var chosen, src := ChosenOf(g.of, k, opts);
    GroupsFit(records, opts);
    SeveralIff(records, opts, k);
    DisagreeIff(records, opts, k, chosen);
    var d := Dispute(k, bySource, chosen.source);
    ReportedDisputes(records, opts, k);
    var agreeing := Agreeing(bySource, chosen, opts.tolerance);
    assert agreeing <= bySource.Keys;
    FewerAgree(agreeing, bySource.Keys);
    assert |bySource| == |bySource.Keys|;
    assert IsListed(bySource, chosen, opts) ==> IsDispute(d, bySource, opts);
  }

  lemma {:induction false} FewerAgree(a: set<nat>, b: set<nat>)
    requires a <= b
    ensures |a| <= |b|
  {
    assert b == a + (b - a);
  }

  lemma {:induction false} ReportedDisputes(records: seq<Record>, opts: Options, k: ActionKey)
    requires Reconciliation(records, opts).Success? && k in GroupsOf(records, opts).of
    ensures var out, bySource := Reconciliation(records, opts).value, GroupsOf(records, opts).of[k];
            forall d: Dispute :: d.key == k ==>
              (d in out.disagreements <==> IsDispute(d, bySource, opts) && |bySource| >= 2)
              && (d in out.oneSided <==> IsDispute(d, bySource, opts) && |bySource| < 2)
  {
    var g := GroupsOf(records, opts);
    assert k in SortedKeys(g) by {
      GroupsFit(records, opts);
    }
    forall d: Dispute | d.key == k
      ensures d in Reconciliation(records, opts).value.disagreements <==> IsDispute(d, g.of[k], opts) && |g.of[k]| >= 2
      ensures d in Reconciliation(records, opts).value.oneSided <==> IsDispute(d, g.of[k], opts) && |g.of[k]| < 2
    {
      DisputesAre(SortedKeys(g), g.of, opts, d);
    }
  }

  /** What is written of a source's record: its own terms, a missing pay date being the ex-date, and never malformed. */
  lemma {:induction false} WrittenAsReported(records: seq<Record>, opts: Options, e: Entry) returns (r: Record)
    requires Reconciliation(records, opts).Success?
    requires e in Reconciliation(records, opts).value.file && !e.action.CuratedWritten?
    ensures IsInScope(records, opts, r)
    ensures r.CashRecord? ==>
      && 0.0 <= r.amount
      && (match r.payDate
          case None => e.action == CashWritten(r.entity, r.amount, r.exDate, r.exDate)
          case Some(d) => r.exDate <= d && e.action == CashWritten(r.entity, r.amount, r.exDate, d))
    ensures r.SplitRecord? ==> 0.0 < r.ratio && e.action == SplitWritten(r.entity, r.ratio, r.exDate)
  {
    r := NothingIsInvented(records, opts, e);
  }

  // ---------------------------------------------------------------------------------------------
  // When the classification refuses
  // ---------------------------------------------------------------------------------------------

  /** What the curator must have done for a record: named it where it is touched, never twice, never kept past an end. */
  ghost predicate IsClassified(opts: Options, r: Record) {
    && (IsTouched(opts, r) ==> exists e :: e in opts.structural && (Supersedes(e, opts, r) || Keeps(e, opts, r)))
    && (forall e :: e in opts.structural && Ends(e, opts, r.entity) && IsPastEndOf(r.exDate, e.action.action) ==>
          IsWritten(e, opts))
  }

  /** Two entries that are written disagree on a record: one supersedes what the other keeps. */
  ghost predicate Disagree(d: StructuralEntry, e: StructuralEntry, opts: Options) {
    && IsWritten(d, opts) && IsWritten(e, opts) && d.action.action.Entity() == e.action.action.Entity()
    && exists x, y :: x in d.supersedes && y in e.keeps && x.source == y.source && x.kind == y.kind
         && Dated(x, d.action.action) == Dated(y, e.action.action)
  }

  lemma {:induction false} SupersededEntry(opts: Options, id: RecordId) returns (d: StructuralEntry, x: Selector)
    requires Curate(opts).Success? && id in SupersededBy(ItemsOf(opts))
    ensures d in opts.structural && IsWritten(d, opts) && x in d.supersedes && NameOf(x, d.action.action) == id
  {
    SupersededOnADay(ItemsOf(opts), id);
    var it :| it in ItemsOf(opts) && id in it.supersedes;
    ItemsAre(opts, it);
    d :| d in opts.structural && IsItemOf(it, d, opts);
    x :| x in d.supersedes && NameOf(x, d.action.action) == id;
  }

  lemma {:induction false} KeptEntry(opts: Options, id: RecordId) returns (e: StructuralEntry, y: Selector)
    requires Curate(opts).Success? && id in KeptBy(ItemsOf(opts))
    ensures e in opts.structural && IsWritten(e, opts) && y in e.keeps && NameOf(y, e.action.action) == id
  {
    KeptOnADay(ItemsOf(opts), id);
    var it :| it in ItemsOf(opts) && id in it.keeps;
    ItemsAre(opts, it);
    e :| e in opts.structural && IsItemOf(it, e, opts);
    y :| y in e.keeps && NameOf(y, e.action.action) == id;
  }

  lemma {:induction false} EntryIsItem(opts: Options, e: StructuralEntry) returns (it: Item)
    requires Curate(opts).Success? && e in opts.structural && IsWritten(e, opts)
    ensures it in ItemsOf(opts) && it == ItemFor(e, e.action.action)
  {
    it := ItemFor(e, e.action.action);
    ItemsAre(opts, it);
    assert IsItemOf(it, e, opts);
  }

  lemma {:induction false} ContradictsIff(opts: Options)
    requires Curate(opts).Success?
    ensures Contradicts(ItemsOf(opts)) <==> exists d, e :: d in opts.structural && e in opts.structural && Disagree(d, e, opts)
  {
    var items := ItemsOf(opts);
    if id :| id in SupersededBy(items) && id in KeptBy(items) {
      var d, x := SupersededEntry(opts, id);
      var e, y := KeptEntry(opts, id);
      assert Disagree(d, e, opts);
    }
    if d, e :| d in opts.structural && e in opts.structural && Disagree(d, e, opts) {
      var x, y :| x in d.supersedes && y in e.keeps && x.source == y.source && x.kind == y.kind
        && Dated(x, d.action.action) == Dated(y, e.action.action);
      var id := NameOf(x, d.action.action);
      var it := EntryIsItem(opts, d);
      var kt := EntryIsItem(opts, e);
      assert NameOf(y, e.action.action) == id;
      NamedIsMapped(items, it, id);
      NamedIsMapped(items, kt, id);
    }
  }

  lemma {:induction false} BeyondUnwrittenIff(opts: Options, r: Record)
    requires Curate(opts).Success?
    ensures IsBeyondUnwritten(Curate(opts).value, r) <==>
      exists e :: e in opts.structural && Ends(e, opts, r.entity) && IsPastEndOf(r.exDate, e.action.action) && !IsWritten(e, opts)
  {
    PastEndIff(opts, r);
    forall e | e in opts.structural && Ends(e, opts, r.entity)
      ensures EndIs(Curate(opts).value.ends, e.action.action)
      ensures Curate(opts).value.ends[r.entity].written == IsWritten(e, opts)
    {
      var k :| 0 <= k < |opts.structural| && opts.structural[k] == e;
      EndIsRecorded(opts, k);
    }
  }

  lemma {:induction false} ClassifiedIff(opts: Options, r: Record)
    requires Curate(opts).Success?
    ensures IsClassified(opts, r) <==>
      !FateOf(Curate(opts).value, r).Unnamed? && !IsBeyondUnwritten(Curate(opts).value, r)
  {
    BeyondUnwrittenIff(opts, r);
    TouchedIff(opts, r);
    SupersededIff(opts, r);
    KeptIff(opts, r);
  }

  /**
   * The records are refused as unclassified, contradicted, duplicated or past an unwritten end exactly when some two
   * considered records have one identity, two admitted actions disagree on a name, or a record is not classified.
   */
  lemma {:induction false} ClassificationAcceptsIff(records: seq<Record>, opts: Options)
    requires Curate(opts).Success?
    ensures var s := Considered(records, opts);
            var problem := RecordProblem(Curate(opts).value, s, opts);
            (problem.None? || problem == Some(MalformedAction)) <==>
              && (forall d, e :: d in opts.structural && e in opts.structural ==> !Disagree(d, e, opts))
              && (forall i, j :: 0 <= i < j < |s| ==> s[i].Id() != s[j].Id())
              && (forall r :: r in records && IsAsked(r, opts) ==> IsClassified(opts, r))
  {
    var c, s := Curate(opts).value, Considered(records, opts);
    ContradictsIff(opts);
    forall r ensures r in s <==> r in records && IsAsked(r, opts) {
      ConsideredMember(records, opts, r);
    AskedAreConsidered(r, opts);
    }
    forall r ensures IsClassified(opts, r) <==> !FateOf(c, r).Unnamed? && !IsBeyondUnwritten(c, r) {
      ClassifiedIff(opts, r);
    }
  }

  // ---------------------------------------------------------------------------------------------
  // When the curated entries are admitted
  // ---------------------------------------------------------------------------------------------

  predicate SameName(x: Selector, y: Selector, a: StructuralAction) {
    x.source == y.source && x.kind == y.kind && Dated(x, a) == Dated(y, a)
  }

  /** A selector's date is its action's own or past the end the action sets. */
  predicate IsWithinReach(sel: Selector, a: StructuralAction) {
    Dated(sel, a) == a.Date() || IsPastEndOf(Dated(sel, a), a)
  }

  ghost predicate ListsFit(e: StructuralEntry, a: StructuralAction) {
    && (forall sel :: sel in e.supersedes ==> IsWithinReach(sel, a))
    && (forall sel :: sel in e.keeps ==> IsWithinReach(sel, a) && !IsPastEndOf(Dated(sel, a), a))
    && (forall x, y :: x in e.supersedes && y in e.keeps ==> !SameName(x, y, a))
  }

  /** The return series can value it: a spun-off close, a merger without stock, a final price. */
  predicate HasValue(a: StructuralAction) {
    match a
    case Spinoff(_, _, close) => close != None
    case Merger(_, _, _, stock) => stock == None
    case Delisting(_, _, price) => price != None
  }

  /** Another entity in scope has the same upper-case spelling. */
  predicate IsMisspelled(entity: nat, opts: Options) {
    exists e :: e in opts.entities && opts.upper(entity) == opts.upper(e)
  }

  /** What an entry must be on its own. */
  ghost predicate EntryFitsAlone(e: StructuralEntry, opts: Options) {
    && e.action.Structural?
    && HasValue(e.action.action)
    && (e.action.action.Entity() in opts.entities || !IsMisspelled(e.action.action.Entity(), opts))
    && (IsWritten(e, opts) ==> ListsFit(e, e.action.action))
  }

  /** What two entries must not be together: two ends of one entity, or one action twice. */
  ghost predicate Clash(d: StructuralEntry, e: StructuralEntry, opts: Options)
    requires d.action.Structural? && e.action.Structural?
  {
    || (EndsHere(d, opts) && EndsHere(e, opts) && d.action.action.Entity() == e.action.action.Entity())
    || (IsWritten(d, opts) && IsWritten(e, opts) && d.action.action.Key() == e.action.action.Key())
  }

  lemma {:induction false} ReachIsMayName(list: seq<Selector>, a: StructuralAction)
    ensures (forall sel :: sel in list ==> IsWithinReach(sel, a)) <==> !exists sel :: sel in list && !MayName(sel, a)
  {
    forall sel ensures IsWithinReach(sel, a) <==> MayName(sel, a) {
    }
  }

  lemma {:induction false} SharedNameIff(xs: seq<Selector>, ys: seq<Selector>, a: StructuralAction)
    ensures (exists id :: id in Names(xs, a) && id in Names(ys, a)) <==> exists x, y :: x in xs && y in ys && SameName(x, y, a)
  {
    if x, y :| x in xs && y in ys && SameName(x, y, a) {
      assert NameOf(x, a) in Names(xs, a) && NameOf(y, a) in Names(ys, a);
    }
    if id :| id in Names(xs, a) && id in Names(ys, a) {
      var x :| x in xs && NameOf(x, a) == id;
      var y :| y in ys && NameOf(y, a) == id;
      assert SameName(x, y, a);
    }
  }

  lemma {:induction false} PastNameIff(ys: seq<Selector>, a: StructuralAction)
    ensures (exists id :: id in Names(ys, a) && Past(id.date, a.LastDate())) <==> exists y :: y in ys && Past(Dated(y, a), a.LastDate())
  {
    if y :| y in ys && Past(Dated(y, a), a.LastDate()) {
      assert NameOf(y, a) in Names(ys, a);
    }
    if id :| id in Names(ys, a) && Past(id.date, a.LastDate()) {
      var y :| y in ys && NameOf(y, a) == id;
      assert Past(Dated(y, a), a.LastDate());
    }
  }

  lemma {:induction false} ListsFitIff(e: StructuralEntry, a: StructuralAction, i: nat)
    ensures ListsFit(e, a) <==> ListProblem(e, a, i).None?
  {
    ReachIsMayName(e.supersedes, a);
    ReachIsMayName(e.keeps, a);
    SharedNameIff(e.supersedes, e.keeps, a);
    PastNameIff(e.keeps, a);
  }

  ghost predicate FitsBefore(opts: Options, n: nat)
    requires n < |opts.structural|
  {
    && EntryFitsAlone(opts.structural[n], opts)
    && forall m :: 0 <= m < n ==>
         opts.structural[m].action.Structural? && !Clash(opts.structural[m], opts.structural[n], opts)
  }

  lemma {:induction false} AdmitIff(opts: Options, n: nat)
    requires n < |opts.structural| && AdmitAll(opts, n).Success?
    requires forall m :: 0 <= m < n ==> opts.structural[m].action.Structural?
    ensures AdmitAll(opts, n + 1).Success? <==> FitsBefore(opts, n)
  {
    var c, e := AdmitAll(opts, n).value, opts.structural[n];
    if e.action.Structural? {
      var a := e.action.action;
      ListsFitIff(e, a, n);
      EndTaken(opts, n, a.Entity());
      KeyTaken(opts, n, a.Key());
    }
  }

  lemma {:induction false} EndTaken(opts: Options, n: nat, x: nat)
    requires n <= |opts.structural| && AdmitAll(opts, n).Success?
    ensures x in AdmitAll(opts, n).value.ends <==> exists m :: 0 <= m < n && Ends(opts.structural[m], opts, x)
  {
    if x in AdmitAll(opts, n).value.ends {
      EndIsGiven(opts, n, x);
    }
    if m :| 0 <= m < n && Ends(opts.structural[m], opts, x) {
      EndKept(opts, m, n);
    }
  }

  lemma {:induction false} KeyTaken(opts: Options, n: nat, k: ActionKey)
    requires n <= |opts.structural| && AdmitAll(opts, n).Success?
    ensures HasKey(AdmitAll(opts, n).value.items, k) <==>
      exists m :: 0 <= m < n && IsWritten(opts.structural[m], opts) && opts.structural[m].action.action.Key() == k
  {
    var items := AdmitAll(opts, n).value.items;
    if HasKey(items, k) {
      var it :| it in items && it.action.Key() == k;
      AdmittedItems(opts, n, it);
    }
    if m :| 0 <= m < n && IsWritten(opts.structural[m], opts) && opts.structural[m].action.action.Key() == k {
      var it := ItemFor(opts.structural[m], opts.structural[m].action.action);
      assert IsItemOf(it, opts.structural[m], opts);
      AdmittedItems(opts, n, it);
    }
  }

  lemma {:induction false} AdmitAllIff(opts: Options, n: nat)
    requires n <= |opts.structural|
    ensures AdmitAll(opts, n).Success? <==> forall k :: 0 <= k < n ==> FitsBefore(opts, k)
    decreases n
  {
    if n > 0 {
      AdmitAllIff(opts, n - 1);
      if AdmitAll(opts, n - 1).Success? {
        forall m | 0 <= m < n - 1 ensures opts.structural[m].action.Structural? {
          assert FitsBefore(opts, m);
        }
        AdmitIff(opts, n - 1);
      }
    }
  }

  ghost predicate SpinoffAfterEnd(d: StructuralEntry, e: StructuralEntry, opts: Options) {
    && IsWritten(d, opts) && d.action.action.Spinoff?
    && Ends(e, opts, d.action.action.Entity()) && IsPastEndOf(d.action.action.Date(), e.action.action)
  }

  /**
   * The curated entries are admitted exactly when each fits alone, no two clash, and no spin-off that is written is
   * dated after the end of its parent's series.
   */
  lemma {:induction false} CuratesIff(opts: Options)
    ensures Curate(opts).Success? <==>
      && (forall n :: 0 <= n < |opts.structural| ==> FitsBefore(opts, n))
      && (forall d, e :: d in opts.structural && e in opts.structural ==> !SpinoffAfterEnd(d, e, opts))
  {
    AdmitAllIff(opts, |opts.structural|);
    var all := AdmitAll(opts, |opts.structural|);
    if all.Success? {
      SomeLateIff(opts);
    }
  }

  lemma {:induction false} SomeLateIff(opts: Options)
    requires AdmitAll(opts, |opts.structural|).Success?
    ensures var c := AdmitAll(opts, |opts.structural|).value;
            (exists it :: it in c.items && SpinoffIsLate(it, c.ends)) <==>
              exists d, e :: d in opts.structural && e in opts.structural && SpinoffAfterEnd(d, e, opts)
  {
    var n := |opts.structural|;
    var c := AdmitAll(opts, n).value;
    if it :| it in c.items && SpinoffIsLate(it, c.ends) {
      AdmittedItems(opts, n, it);
      EndIsGiven(opts, n, it.action.Entity());
      var k :| 0 <= k < n && IsItemOf(it, opts.structural[k], opts);
      var m :| 0 <= m < n && Ends(opts.structural[m], opts, it.action.Entity());
      EndKept(opts, m, n);
      assert SpinoffAfterEnd(opts.structural[k], opts.structural[m], opts);
    }
    if d, e :| d in opts.structural && e in opts.structural && SpinoffAfterEnd(d, e, opts) {
      var k :| 0 <= k < n && opts.structural[k] == d;
      var m :| 0 <= m < n && opts.structural[m] == e;
      var it := ItemFor(d, d.action.action);
      assert IsItemOf(it, opts.structural[k], opts);
      AdmittedItems(opts, n, it);
      EndKept(opts, m, n);
    }
  }

  // ---------------------------------------------------------------------------------------------
  // When the whole reconciliation succeeds
  // ---------------------------------------------------------------------------------------------

  /** Two sources, a preferred one among them, and windows that do not end before they start. */
  ghost predicate OptionsFit(records: seq<Record>, opts: Options) {
    && (exists a, b :: a in records && b in records && a.source != b.source)
    && (exists r :: r in records && r.source in opts.preferred)
    && opts.windows != []
    && (forall w :: w in opts.windows ==> w.from <= w.to)
  }

  lemma {:induction false} SeveralSourcesIff(records: seq<Record>)
    ensures |Sources(records)| >= 2 <==> exists a, b :: a in records && b in records && a.source != b.source
  {
    TwoMembers(Sources(records));
    if x, y :| x in Sources(records) && y in Sources(records) && x != y {
      var a :| a in records && a.source == x;
      var b :| b in records && b.source == y;
    }
    if a, b :| a in records && b in records && a.source != b.source {
      assert a.source in Sources(records) && b.source in Sources(records);
    }
  }

  lemma {:induction false} OptionsFitIff(records: seq<Record>, opts: Options)
    ensures OptionProblem(Sources(records), opts).None? <==> OptionsFit(records, opts)
  {
    SeveralSourcesIff(records);
    if p :| p in opts.preferred && p in Sources(records) {
      var r :| r in records && r.source == p;
    }
    if r :| r in records && r.source in opts.preferred {
      assert r.source in Sources(records);
    }
  }

  /** A record the action parser refuses. */
  predicate IsMalformed(r: Record) {
    match r
    case CashRecord(_, _, exDate, _, amount, payDate) => amount < 0.0 || (payDate.Some? && payDate.value < exDate)
    case SplitRecord(_, _, _, _, ratio) => ratio <= 0.0
  }

  /** The record is the one of its action that no in-scope record of another source comes before. */
  ghost predicate IsFirst(scope: seq<Record>, preferred: seq<nat>, r: Record) {
    r in scope && forall x :: x in scope && x.Key() == r.Key() ==> Outranks(preferred, r.source, x.source)
  }

  lemma {:induction false} SamePrecedence(preferred: seq<nat>, a: nat, b: nat)
    requires Precedence(preferred, a) == Precedence(preferred, b) < |preferred|
    ensures a == b
  {
    if preferred[0] != a {
      SamePrecedence(preferred[1..], a, b);
    }
  }

  lemma {:induction false} OneOutranks(preferred: seq<nat>, a: nat, b: nat)
    requires Outranks(preferred, a, b) && Outranks(preferred, b, a)
    ensures a == b
  {
    if Precedence(preferred, a) < |preferred| {
      SamePrecedence(preferred, a, b);
    }
  }

  lemma {:induction false} GroupOf(scope: seq<Record>, k: ActionKey)
    requires UniqueIds(scope)
    ensures k in Grouped(scope).of ==> GroupFits(Grouped(scope).of, k)
    ensures forall r :: r in scope && r.Key() == k ==> Holds(Grouped(scope), r)
    ensures k in Grouped(scope).of ==> forall src :: src in Grouped(scope).of[k] ==> Grouped(scope).of[k][src] in scope
  {
    GroupedOrder(scope);
    forall r | r in scope && r.Key() == k ensures Holds(Grouped(scope), r) {
      GroupedHolds(scope, r);
    }
    if k in Grouped(scope).of {
      forall src | src in Grouped(scope).of[k]
        ensures Grouped(scope).of[k][src] in scope && Grouped(scope).of[k][src].Key() == k && Grouped(scope).of[k][src].source == src
      {
        GroupedHoldsOnly(scope, k, src);
      }
    }
  }

  lemma {:induction false} ChosenIsFirst(scope: seq<Record>, preferred: seq<nat>, k: ActionKey, r: Record)
    requires UniqueIds(scope) && k in Grouped(scope).of && Chosen(Grouped(scope).of[k], preferred) == Some(r)
    ensures IsFirst(scope, preferred, r) && r.Key() == k
  {
    GroupOf(scope, k);
    var bySource := Grouped(scope).of[k];
    ChosenIsPresent(bySource, preferred);
    forall x | x in scope && x.Key() == k ensures Outranks(preferred, r.source, x.source) {
      ChosenOutranks(bySource, preferred, r.source, x.source);
    }
  }

  lemma {:induction false} FirstIsChosen(scope: seq<Record>, preferred: seq<nat>, r: Record)
    requires UniqueIds(scope) && IsFirst(scope, preferred, r)
    ensures r.Key() in Grouped(scope).of && Chosen(Grouped(scope).of[r.Key()], preferred) == Some(r)
  {
    GroupOf(scope, r.Key());
    var bySource := Grouped(scope).of[r.Key()];
    ChosenIsPresent(bySource, preferred);
    var w := Chosen(bySource, preferred).value;
    ChosenIsFirst(scope, preferred, r.Key(), w);
    OneOutranks(preferred, r.source, w.source);
  }

  lemma {:induction false} StorableIff(r: Record)
    ensures IsStorable(r) <==> !IsMalformed(r)
  {
  }

  lemma {:induction false} BadIsMalformed(scope: seq<Record>, opts: Options, k: ActionKey) returns (r: Record)
    requires UniqueIds(scope) && k in Grouped(scope).of && IsBad(Grouped(scope).of[k], opts)
    ensures IsFirst(scope, opts.preferred, r) && IsMalformed(r)
  {
    r := Chosen(Grouped(scope).of[k], opts.preferred).value;
    ChosenIsFirst(scope, opts.preferred, k, r);
    StorableIff(r);
  }

  lemma {:induction false} MalformedIsBad(scope: seq<Record>, opts: Options, r: Record)
    requires UniqueIds(scope) && IsFirst(scope, opts.preferred, r) && IsMalformed(r)
    ensures r.Key() in Grouped(scope).of && IsBad(Grouped(scope).of[r.Key()], opts)
  {
    FirstIsChosen(scope, opts.preferred, r);
    StorableIff(r);
  }

  lemma {:induction false} MalformedIff(scope: seq<Record>, opts: Options)
    requires UniqueIds(scope)
    ensures SomeBad(SortedKeys(Grouped(scope)), Grouped(scope).of, opts) <==>
      exists r :: IsFirst(scope, opts.preferred, r) && IsMalformed(r)
  {
    var g := Grouped(scope);
    var keys := SortedKeys(g);
    GroupedOrder(scope);
    OrderDistinct(g);
    if SomeBad(keys, g.of, opts) {
      var k :| k in keys && IsBad(At(g.of, k), opts);
      var r := BadIsMalformed(scope, opts, k);
    }
    if r :| IsFirst(scope, opts.preferred, r) && IsMalformed(r) {
      MalformedIsBad(scope, opts, r);
      assert r.Key() in keys && At(g.of, r.Key()) == g.of[r.Key()];
    }
  }

  /** A considered record that no written action supersedes is the first of its action's and is malformed. */
  ghost predicate WritesMalformed(records: seq<Record>, opts: Options, r: Record) {
    && IsWritable(records, opts, r) && IsMalformed(r)
    && forall x :: IsWritable(records, opts, x) && x.Key() == r.Key() ==> Outranks(opts.preferred, r.source, x.source)
  }

  ghost predicate IsWritable(records: seq<Record>, opts: Options, r: Record) {
    r in records && IsAsked(r, opts) && !exists e :: e in opts.structural && Supersedes(e, opts, r)
  }

  lemma {:induction false} ScopeIs(records: seq<Record>, opts: Options, r: Record)
    requires Curate(opts).Success? && forall x :: x in Considered(records, opts) ==> !FateOf(Curate(opts).value, x).Unnamed?
    ensures r in Scope(Curate(opts).value, Considered(records, opts)) <==> IsWritable(records, opts, r)
  {
    var c := Curate(opts).value;
    ScopeMember(c, Considered(records, opts), r);
    ConsideredMember(records, opts, r);
    AskedAreConsidered(r, opts);
    FateIsNamed(opts, r);
    if e :| e in opts.structural && Supersedes(e, opts, r) {
      SupersededFate(opts, e, r);
    }
  }

  /** Where the scope is the writable records, the first malformed ones are the same. */
  lemma {:induction false} FirstMalformedIff(scope: seq<Record>, records: seq<Record>, opts: Options)
    requires forall r :: r in scope <==> IsWritable(records, opts, r)
    ensures (exists r :: IsFirst(scope, opts.preferred, r) && IsMalformed(r)) <==> exists r :: WritesMalformed(records, opts, r)
  {
    if r :| IsFirst(scope, opts.preferred, r) && IsMalformed(r) {
      assert WritesMalformed(records, opts, r);
    }
    if r :| WritesMalformed(records, opts, r) {
      assert IsFirst(scope, opts.preferred, r);
    }
  }

  lemma {:induction false} SomeBadIff(records: seq<Record>, opts: Options)
    requires Curate(opts).Success? && !Duplicated(Considered(records, opts))
    requires forall x :: x in Considered(records, opts) ==> !FateOf(Curate(opts).value, x).Unnamed?
    ensures var g := Grouped(Scope(Curate(opts).value, Considered(records, opts)));
            SomeBad(SortedKeys(g), g.of, opts) <==> exists r :: WritesMalformed(records, opts, r)
  {
    var c, s := Curate(opts).value, Considered(records, opts);
    var scope := Scope(c, s);
    NotDuplicated(s);
    ScopeUnique(c, s);
    MalformedIff(scope, opts);
    forall r ensures r in scope <==> IsWritable(records, opts, r) {
      ScopeIs(records, opts, r);
    }
    FirstMalformedIff(scope, records, opts);
  }

  lemma {:induction false} LastProblemIs(c: Curation, s: seq<Record>, opts: Options)
    requires RecordProblem(c, s, opts).None? || RecordProblem(c, s, opts) == Some(MalformedAction)
    ensures !Duplicated(s) && forall x :: x in s ==> !FateOf(c, x).Unnamed?
    ensures RecordProblem(c, s, opts).Some? <==> SomeBad(SortedKeys(Grouped(Scope(c, s))), Grouped(Scope(c, s)).of, opts)
  {
  }

  lemma {:induction false} MalformedActionIff(records: seq<Record>, opts: Options)
    requires Curate(opts).Success?
    requires var problem := RecordProblem(Curate(opts).value, Considered(records, opts), opts);
             problem.None? || problem == Some(MalformedAction)
    ensures RecordProblem(Curate(opts).value, Considered(records, opts), opts).Some? <==> exists r :: WritesMalformed(records, opts, r)
  {
    LastProblemIs(Curate(opts).value, Considered(records, opts), opts);
    SomeBadIff(records, opts);
  }

  /** The curated entries are admitted, as `CuratesIff` says. */
  ghost predicate CuratedFit(opts: Options) {
    && (forall n :: 0 <= n < |opts.structural| ==> FitsBefore(opts, n))
    && (forall d, e :: d in opts.structural && e in opts.structural ==> !SpinoffAfterEnd(d, e, opts))
  }

  ghost predicate RecordsFit(records: seq<Record>, opts: Options) {
    && (forall d, e :: d in opts.structural && e in opts.structural ==> !Disagree(d, e, opts))
    && (forall i, j :: 0 <= i < j < |Considered(records, opts)| ==> Considered(records, opts)[i].Id() != Considered(records, opts)[j].Id())
    && (forall r :: r in records && IsAsked(r, opts) ==> IsClassified(opts, r))
    && (forall r :: !WritesMalformed(records, opts, r))
  }

  /** A reconciliation succeeds exactly when its options, its curated entries and its records are all as they must be. */
  lemma {:induction false} SucceedsIff(records: seq<Record>, opts: Options)
    ensures Reconciliation(records, opts).Success? <==> OptionsFit(records, opts) && CuratedFit(opts) && RecordsFit(records, opts)
  {
    OptionsFitIff(records, opts);
    CuratesIff(opts);
    if Curate(opts).Success? {
      ClassificationAcceptsIff(records, opts);
      var problem := RecordProblem(Curate(opts).value, Considered(records, opts), opts);
      if problem.None? || problem == Some(MalformedAction) {
        MalformedActionIff(records, opts);
      }
    }
  }
}
