/** Reconciling several sources' cash and split records into one file: classify, group, choose, and write. */
module ActionReconciliation {
  import opened Wrappers
  import opened CorporateActions
  import StableSort

  // ---------------------------------------------------------------------------------------------
  // Classification
  // ---------------------------------------------------------------------------------------------

  predicate IsConsidered(r: Record, opts: Options) {
    r.entity in opts.entities && InAny(opts.windows, r.exDate)
  }

  /** The records of the entities in scope, in the windows. */
  function Considered(records: seq<Record>, opts: Options): seq<Record>
    decreases |records|
  {
    if records == [] then []
    else
      var front, r := Considered(records[..|records| - 1], opts), records[|records| - 1];
      if IsConsidered(r, opts) then front + [r] else front
  }

  function DayOf(it: Item): Day {
    Day(it.action.Entity(), it.action.Date())
  }

  function Days(items: seq<Item>): set<Day> {
    set it | it in items :: DayOf(it)
  }

  /** Which action, by its day, set aside each record it names. */
  function SupersededBy(items: seq<Item>): map<RecordId, Day>
    decreases |items|
  {
    if items == [] then map[]
    else
      var it := items[|items| - 1];
      SupersededBy(items[..|items| - 1]) + (map id | id in it.supersedes :: DayOf(it))
  }

  function KeptBy(items: seq<Item>): map<RecordId, Day>
    decreases |items|
  {
    if items == [] then map[]
    else
      var it := items[|items| - 1];
      KeptBy(items[..|items| - 1]) + (map id | id in it.keeps :: DayOf(it))
  }

  predicate Contradicts(items: seq<Item>) {
    exists id :: id in SupersededBy(items) && id in KeptBy(items)
  }

  predicate Duplicated(s: seq<Record>) {
    exists i, j :: 0 <= i < j < |s| && s[i].Id() == s[j].Id()
  }

  predicate IsPastEnd(c: Curation, r: Record) {
    r.entity in c.ends && r.exDate > c.ends[r.entity].lastDate
  }

  predicate IsBeyondUnwritten(c: Curation, r: Record) {
    IsPastEnd(c, r) && !c.ends[r.entity].written
  }

  datatype Fate = Open | SetAside(day: Day) | Kept(day: Day) | Unnamed

  /** A record on a structural action's date, or past its entity's series end, must be named by the curator. */
  function FateOf(c: Curation, r: Record): Fate {
    if !IsPastEnd(c, r) && r.OnDay() !in Days(c.items) then Open
    else if r.Id() in SupersededBy(c.items) then SetAside(SupersededBy(c.items)[r.Id()])
    else if r.Id() in KeptBy(c.items) then Kept(KeptBy(c.items)[r.Id()])
    else Unnamed
  }

  predicate SomeUnnamed(c: Curation, s: seq<Record>) {
    exists r :: r in s && FateOf(c, r).Unnamed?
  }

  predicate InScope(c: Curation, r: Record) {
    FateOf(c, r).Open? || FateOf(c, r).Kept?
  }

  function Scope(c: Curation, s: seq<Record>): seq<Record>
    decreases |s|
  {
    if s == [] then []
    else
      var front, r := Scope(c, s[..|s| - 1]), s[|s| - 1];
      if InScope(c, r) then front + [r] else front
  }

  /** What the report says of one day with a structural action. */
  datatype Finding = Finding(superseded: set<Record>, kept: set<Record>)

  function Findings(c: Curation, s: seq<Record>): map<Day, Finding> {
    map d | d in Days(c.items) :: FindingAt(c, s, d)
  }

  function FindingAt(c: Curation, s: seq<Record>, d: Day): Finding {
    Finding(set r | r in s && FateOf(c, r) == SetAside(d), set r | r in s && FateOf(c, r) == Kept(d))
  }

  // ---------------------------------------------------------------------------------------------
  // Groups, and what is written for each
  // ---------------------------------------------------------------------------------------------

  /** One action's records by source, under keys in the order they were first met. */
  datatype Groups = Groups(order: seq<ActionKey>, of: map<ActionKey, map<nat, Record>>)

  function At(of: map<ActionKey, map<nat, Record>>, k: ActionKey): map<nat, Record> {
    if k in of then of[k] else map[]
  }

  function WithRecord(g: Groups, r: Record): Groups {
    var k := r.Key();
    Groups(if k in g.of then g.order else g.order + [k], g.of[k := At(g.of, k)[r.source := r]])
  }

  function Grouped(scope: seq<Record>): Groups
    decreases |scope|
  {
    if scope == [] then Groups([], map[]) else WithRecord(Grouped(scope[..|scope| - 1]), scope[|scope| - 1])
  }

  function Rank(k: Kind): nat {
    match k
    case CASH_DIVIDEND => 0
    case DELISTING => 1
    case MERGER => 2
    case SPINOFF => 3
    case SPLIT => 4
  }

  function KeyOrder(k: ActionKey): StableSort.Key {
    StableSort.Key(k.entity, Rank(k.kind), k.date)
  }

  function SortedKeys(g: Groups): seq<ActionKey> {
    StableSort.Sort(g.order, KeyOrder)
  }

  function FirstPresent(preferred: seq<nat>, present: set<nat>): Option<nat> {
    if preferred == [] then None
    else if preferred[0] in present then Some(preferred[0])
    else FirstPresent(preferred[1..], present)
  }

  lemma {:induction false} LeastExists(s: set<nat>, x: nat)
    requires x in s
    ensures exists m :: m in s && forall y :: y in s ==> m <= y
    decreases x
  {
    if y :| y in s && y < x {
      LeastExists(s, y);
    }
  }

  function Least(s: set<nat>): (m: nat)
    requires s != {}
    ensures m in s && forall x :: x in s ==> m <= x
  {
    assert exists m :: m in s && forall y :: y in s ==> m <= y by {
      var x :| x in s;
      LeastExists(s, x);
    }
    var m :| m in s && forall x :: x in s ==> m <= x;
    m
  }

  /** The record whose value is written: the first preferred source's, or else the first source's. */
  function Chosen(bySource: map<nat, Record>, preferred: seq<nat>): Option<Record> {
    var first := FirstPresent(preferred, bySource.Keys);
    if first.Some? && first.value in bySource then Some(bySource[first.value])
    else if bySource.Keys != {} then Some(bySource[Least(bySource.Keys)])
    else None
  }

  function Distance(x: real, y: real): real {
    if x >= y then x - y else y - x
  }

  predicate Agrees(a: Record, b: Record, tolerance: real) {
    match (a, b)
    case (CashRecord(_, _, _, _, x, _), CashRecord(_, _, _, _, y, _)) => Distance(x, y) <= tolerance
    case (SplitRecord(_, _, _, _, x), SplitRecord(_, _, _, _, y)) => x == y
    case _ => false
  }

  function Agreeing(bySource: map<nat, Record>, chosen: Record, tolerance: real): set<nat> {
    set s | s in bySource && Agrees(chosen, bySource[s], tolerance)
  }

  datatype Written =
    | CashWritten(entity: nat, amount: real, exDate: int, payDate: int)
    | SplitWritten(entity: nat, ratio: real, exDate: int)
    | CuratedWritten(action: StructuralAction)
  {
    function Key(): ActionKey {
      match this
      case CashWritten(e, _, d, _) => ActionKey(e, CASH_DIVIDEND, d)
      case SplitWritten(e, _, d) => ActionKey(e, SPLIT, d)
      case CuratedWritten(a) => a.Key()
    }
  }

  datatype Entry = Entry(action: Written, sources: set<nat>, announcedAt: Option<nat>)

  /** What the action parser accepts of a record: a missing pay date is the ex-date. */
  predicate IsStorable(r: Record) {
    match r
    case CashRecord(_, _, exDate, _, amount, payDate) => amount >= 0.0 && exDate <= payDate.GetOr(exDate)
    case SplitRecord(_, _, _, _, ratio) => ratio > 0.0
  }

  function Stored(r: Record): Written {
    match r
    case CashRecord(_, e, exDate, _, amount, payDate) => CashWritten(e, amount, exDate, payDate.GetOr(exDate))
    case SplitRecord(_, e, exDate, _, ratio) => SplitWritten(e, ratio, exDate)
  }

  function EntryFor(bySource: map<nat, Record>, chosen: Record, opts: Options): Entry {
    var agreeing := Agreeing(bySource, chosen, opts.tolerance);
    Entry(Stored(chosen), if |agreeing| >= 2 then agreeing else {chosen.source}, chosen.announcedAt)
  }

  /** A key the sources do not all agree on, or that one source alone reports. */
  datatype Dispute = Dispute(key: ActionKey, values: map<nat, Record>, written: nat)

  predicate IsListed(bySource: map<nat, Record>, chosen: Record, opts: Options) {
    var agreeing := Agreeing(bySource, chosen, opts.tolerance);
    |agreeing| < 2 || |agreeing| < |bySource|
  }

  /** What the report and the file hold for some keys. */
  datatype Output = Output(entries: seq<Entry>, disagreements: seq<Dispute>, oneSided: seq<Dispute>)

  function WithKey(o: Output, k: ActionKey, bySource: map<nat, Record>, opts: Options): Output {
    var chosen := Chosen(bySource, opts.preferred);
    if chosen.None? then o
    else
      var d := Dispute(k, bySource, chosen.value.source);
      var listed := IsListed(bySource, chosen.value, opts);
      Output(o.entries + [EntryFor(bySource, chosen.value, opts)],
             if listed && |bySource| >= 2 then o.disagreements + [d] else o.disagreements,
             if listed && |bySource| < 2 then o.oneSided + [d] else o.oneSided)
  }

  function Outputs(keys: seq<ActionKey>, of: map<ActionKey, map<nat, Record>>, opts: Options): Output
    decreases |keys|
  {
    if keys == [] then Output([], [], [])
    else
      var k := keys[|keys| - 1];
      WithKey(Outputs(keys[..|keys| - 1], of, opts), k, At(of, k), opts)
  }

  predicate IsBad(bySource: map<nat, Record>, opts: Options) {
    var chosen := Chosen(bySource, opts.preferred);
    chosen.Some? && !IsStorable(chosen.value)
  }

  predicate SomeBad(keys: seq<ActionKey>, of: map<ActionKey, map<nat, Record>>, opts: Options) {
    exists k :: k in keys && IsBad(At(of, k), opts)
  }

  function StructuralEntries(items: seq<Item>): seq<Entry>
    decreases |items|
  {
    if items == [] then []
    else
      var it := items[|items| - 1];
      StructuralEntries(items[..|items| - 1]) + [Entry(CuratedWritten(it.action), it.sources, it.announcedAt)]
  }

  function EntryOrder(e: Entry): StableSort.Key {
    KeyOrder(e.action.Key())
  }

  // ---------------------------------------------------------------------------------------------
  // The whole reconciliation
  // ---------------------------------------------------------------------------------------------

  datatype Reconciled = Reconciled(
    file: seq<Entry>, setAside: map<Day, Finding>, disagreements: seq<Dispute>, oneSided: seq<Dispute>,
    skipped: seq<Skipped>)

  function Sources(records: seq<Record>): set<nat> {
    set r | r in records :: r.source
  }

  /** What is wrong with the options or the set of sources. */
  function OptionProblem(sources: set<nat>, opts: Options): Option<Problem> {
    if |sources| < 2 then Some(TooFewSources)
    else if opts.preferred == [] then Some(NoPreferredSource)
    else if !exists p :: p in opts.preferred && p in sources then Some(PreferredSilent)
    else if opts.windows == [] then Some(NoWindow)
    else if exists w :: w in opts.windows && w.to < w.from then Some(WindowReversed)
    else None
  }

  /** What is wrong with the considered records under the admitted structural actions. */
  function RecordProblem(c: Curation, s: seq<Record>, opts: Options): Option<Problem> {
    if Contradicts(c.items) then Some(Contradiction)
    else if Duplicated(s) then Some(DuplicateRecord)
    else if exists r :: r in s && IsBeyondUnwritten(c, r) then Some(BeyondUnwritten)
    else if SomeUnnamed(c, s) then Some(Unclassified)
    else if SomeBad(SortedKeys(Grouped(Scope(c, s))), Grouped(Scope(c, s)).of, opts) then Some(MalformedAction)
    else None
  }

  function Report(c: Curation, s: seq<Record>, opts: Options): Reconciled {
    var g := Grouped(Scope(c, s));
    var o := Outputs(SortedKeys(g), g.of, opts);
    Reconciled(StableSort.Sort(StructuralEntries(c.items) + o.entries, EntryOrder), Findings(c, s),
               o.disagreements, o.oneSided, c.skipped)
  }

  function Reconciliation(records: seq<Record>, opts: Options): Result<Reconciled, Problem> {
    var problem := OptionProblem(Sources(records), opts);
    if problem.Some? then Failure(problem.value)
    else
      var curated := Curate(opts);
      if curated.Failure? then Failure(curated.error)
      else
        var s := Considered(records, opts);
        var wrong := RecordProblem(curated.value, s, opts);
        if wrong.Some? then Failure(wrong.value) else Success(Report(curated.value, s, opts))
  }

  // ---------------------------------------------------------------------------------------------
  // The loops
  // ---------------------------------------------------------------------------------------------

  lemma {:induction false} Prefix<T>(s: seq<T>, i: nat)
    requires i < |s|
    ensures s[..i + 1][..|s[..i + 1]| - 1] == s[..i] && s[..i + 1][|s[..i + 1]| - 1] == s[i]
  {
  }

  method InWindow(records: seq<Record>, opts: Options) returns (s: seq<Record>)
    ensures s == Considered(records, opts)
  {
    s := [];
    var i := 0;
    while i < |records|
      invariant i <= |records| && s == Considered(records[..i], opts)
    {
      Prefix(records, i);
      if IsConsidered(records[i], opts) {
        s := s + [records[i]];
      }
      i := i + 1;
    }
    assert records[..i] == records;
  }

  method FindDuplicate(s: seq<Record>) returns (found: bool)
    ensures found == Duplicated(s)
  {
    var seen: set<RecordId> := {};
    var i := 0;
    while i < |s|
      invariant i <= |s|
      invariant forall k :: 0 <= k < i ==> s[k].Id() in seen
      invariant forall id :: id in seen ==> exists k :: 0 <= k < i && s[k].Id() == id
      invariant forall k, j :: 0 <= k < j < i ==> s[k].Id() != s[j].Id()
    {
      if s[i].Id() in seen {
        return true;
      }
      seen := seen + {s[i].Id()};
      i := i + 1;
    }
    return false;
  }

  /** The maps from each named record to the action that names it. */
  method Naming(items: seq<Item>) returns (superseded: map<RecordId, Day>, kept: map<RecordId, Day>, days: set<Day>)
    ensures superseded == SupersededBy(items) && kept == KeptBy(items) && days == Days(items)
  {
    superseded, kept, days := map[], map[], {};
    var i := 0;
    while i < |items|
      invariant i <= |items|
      invariant superseded == SupersededBy(items[..i]) && kept == KeptBy(items[..i]) && days == Days(items[..i])
    {
      var it := items[i];
      Prefix(items, i);
      assert items[..i + 1] == items[..i] + [it];
      superseded := superseded + (map id | id in it.supersedes :: DayOf(it));
      kept := kept + (map id | id in it.keeps :: DayOf(it));
      days := days + {DayOf(it)};
      i := i + 1;
    }
    assert items[..i] == items;
  }

  lemma {:induction false} SupersededOnADay(items: seq<Item>, id: RecordId)
    requires id in SupersededBy(items)
    ensures SupersededBy(items)[id] in Days(items)
    ensures exists it :: it in items && id in it.supersedes && DayOf(it) == SupersededBy(items)[id]
    decreases |items|
  {
    var front, last := items[..|items| - 1], items[|items| - 1];
    assert last in items && forall it :: it in front ==> it in items;
    if id !in last.supersedes {
      SupersededOnADay(front, id);
      var it :| it in front && id in it.supersedes && DayOf(it) == SupersededBy(items)[id];
      assert it in items;
    }
  }

  lemma {:induction false} KeptOnADay(items: seq<Item>, id: RecordId)
    requires id in KeptBy(items)
    ensures KeptBy(items)[id] in Days(items)
    ensures exists it :: it in items && id in it.keeps && DayOf(it) == KeptBy(items)[id]
    decreases |items|
  {
    var front, last := items[..|items| - 1], items[|items| - 1];
    assert last in items && forall it :: it in front ==> it in items;
    if id !in last.keeps {
      KeptOnADay(front, id);
      var it :| it in front && id in it.keeps && DayOf(it) == KeptBy(items)[id];
      assert it in items;
    }
  }

  /** Where a fate lists a record, there is a finding to list it under. */
  lemma {:induction false} FateHasAFinding(c: Curation, r: Record)
    ensures FateOf(c, r).SetAside? ==> FateOf(c, r).day in Days(c.items)
    ensures FateOf(c, r).Kept? ==> FateOf(c, r).day in Days(c.items)
  {
    if FateOf(c, r).SetAside? {
      SupersededOnADay(c.items, r.Id());
    } else if FateOf(c, r).Kept? {
      KeptOnADay(c.items, r.Id());
    }
  }

  function Listed(f: map<Day, Finding>, fate: Fate, r: Record): map<Day, Finding> {
    match fate
    case SetAside(d) => if d in f then f[d := f[d].(superseded := f[d].superseded + {r})] else f
    case Kept(d) => if d in f then f[d := f[d].(kept := f[d].kept + {r})] else f
    case _ => f
  }

  lemma {:induction false} FindingsGrow(c: Curation, s: seq<Record>, r: Record)
    ensures var f := Findings(c, s);
            Findings(c, s + [r]) == Listed(f, FateOf(c, r), r)
  {
    var f, g := Findings(c, s), Findings(c, s + [r]);
    FateHasAFinding(c, r);
    forall d | d in f
      ensures g[d].superseded == if FateOf(c, r) == SetAside(d) then f[d].superseded + {r} else f[d].superseded
      ensures g[d].kept == if FateOf(c, r) == Kept(d) then f[d].kept + {r} else f[d].kept
    {
      assert forall x :: x in s + [r] <==> x in s || x == r;
    }
  }

  lemma {:induction false} NoFindingsYet(c: Curation)
    ensures Findings(c, []) == map d | d in Days(c.items) :: Finding({}, {})
  {
    forall d | d in Days(c.items) ensures FindingAt(c, [], d) == Finding({}, {}) {
    }
  }

  lemma {:induction false} ClassifyStep(c: Curation, s: seq<Record>, i: nat)
    requires i < |s|
    ensures Scope(c, s[..i + 1]) == if InScope(c, s[i]) then Scope(c, s[..i]) + [s[i]] else Scope(c, s[..i])
    ensures Findings(c, s[..i + 1]) == Listed(Findings(c, s[..i]), FateOf(c, s[i]), s[i])
    ensures SomeUnnamed(c, s[..i + 1]) <==> SomeUnnamed(c, s[..i]) || FateOf(c, s[i]).Unnamed?
  {
    Prefix(s, i);
    assert s[..i + 1] == s[..i] + [s[i]];
    FindingsGrow(c, s[..i], s[i]);
  }

  /** Classify every considered record: into scope, under a finding, or unnamed. */
  method Classify(c: Curation, s: seq<Record>)
    returns (scope: seq<Record>, findings: map<Day, Finding>, unnamed: bool)
    ensures scope == Scope(c, s) && findings == Findings(c, s)
    ensures unnamed == SomeUnnamed(c, s)
  {
    var superseded, kept, days := Naming(c.items);
    scope, unnamed := [], false;
    findings := map d | d in days :: Finding({}, {});
    NoFindingsYet(c);
    var i := 0;
    while i < |s|
      invariant i <= |s|
      invariant scope == Scope(c, s[..i]) && findings == Findings(c, s[..i])
      invariant unnamed == SomeUnnamed(c, s[..i])
    {
      var r := s[i];
      ClassifyStep(c, s, i);
      var fate :=
        if !IsPastEnd(c, r) && r.OnDay() !in days then Open
        else if r.Id() in superseded then SetAside(superseded[r.Id()])
        else if r.Id() in kept then Kept(kept[r.Id()])
        else Unnamed;
      findings := Listed(findings, fate, r);
      if fate.Unnamed? {
        unnamed := true;
      } else if !fate.SetAside? {
        scope := scope + [r];
      }
      i := i + 1;
    }
    assert s[..i] == s;
  }

  method Group(scope: seq<Record>) returns (g: Groups)
    ensures g == Grouped(scope)
  {
    var order: seq<ActionKey>, of: map<ActionKey, map<nat, Record>> := [], map[];
    var i := 0;
    while i < |scope|
      invariant i <= |scope| && Groups(order, of) == Grouped(scope[..i])
    {
      var r := scope[i];
      Prefix(scope, i);
      var bySource := At(of, r.Key());
      if r.Key() !in of {
        order := order + [r.Key()];
      }
      of := of[r.Key() := bySource[r.source := r]];
      i := i + 1;
    }
    assert scope[..i] == scope;
    return Groups(order, of);
  }

  lemma {:induction false} OutputsStep(keys: seq<ActionKey>, i: nat, of: map<ActionKey, map<nat, Record>>, opts: Options)
    requires i < |keys|
    ensures Outputs(keys[..i + 1], of, opts) == WithKey(Outputs(keys[..i], of, opts), keys[i], At(of, keys[i]), opts)
  {
    Prefix(keys, i);
  }

  lemma {:induction false} SomeBadStep(keys: seq<ActionKey>, i: nat, of: map<ActionKey, map<nat, Record>>, opts: Options)
    requires i < |keys|
    ensures SomeBad(keys[..i + 1], of, opts) <==> SomeBad(keys[..i], of, opts) || IsBad(At(of, keys[i]), opts)
    ensures IsBad(At(of, keys[i]), opts) ==> SomeBad(keys, of, opts)
  {
  }

  method WriteEntry(o: Output, k: ActionKey, bySource: map<nat, Record>, opts: Options) returns (bad: bool, o': Output)
    ensures bad == IsBad(bySource, opts)
    ensures !bad ==> o' == WithKey(o, k, bySource, opts)
  {
    bad, o' := false, o;
    var chosen := Chosen(bySource, opts.preferred);
    if chosen.Some? {
      if !IsStorable(chosen.value) {
        return true, o;
      }
      o' := o'.(entries := o.entries + [EntryFor(bySource, chosen.value, opts)]);
      if IsListed(bySource, chosen.value, opts) {
        var d := Dispute(k, bySource, chosen.value.source);
        if |bySource| >= 2 {
          o' := o'.(disagreements := o.disagreements + [d]);
        } else {
          o' := o'.(oneSided := o.oneSided + [d]);
        }
      }
    }
  }

  /** Write an entry for each key, and list what the sources do not agree on. */
  method WriteEntries(keys: seq<ActionKey>, of: map<ActionKey, map<nat, Record>>, opts: Options)
    returns (bad: bool, o: Output)
    ensures bad == SomeBad(keys, of, opts)
    ensures !bad ==> o == Outputs(keys, of, opts)
  {
    o, bad := Output([], [], []), false;
    var i := 0;
    while i < |keys|
      invariant i <= |keys|
      invariant o == Outputs(keys[..i], of, opts) && !SomeBad(keys[..i], of, opts)
    {
      OutputsStep(keys, i, of, opts);
      SomeBadStep(keys, i, of, opts);
      bad, o := WriteEntry(o, keys[i], At(of, keys[i]), opts);
      if bad {
        return;
      }
      i := i + 1;
    }
    assert keys[..i] == keys;
  }

  method ReconcileCorporateActions(records: seq<Record>, opts: Options) returns (result: Result<Reconciled, Problem>)
    ensures result == Reconciliation(records, opts)
  {
    var problem := OptionProblem(Sources(records), opts);
    if problem.Some? {
      return Failure(problem.value);
    }
    var curated := StructuralInScope(opts);
    if curated.Failure? {
      return Failure(curated.error);
    }
    var c := curated.value;
    var superseded, kept, _ := Naming(c.items);
    if exists id :: id in superseded && id in kept {
      return Failure(Contradiction);
    }
    var s := InWindow(records, opts);
    var duplicated := FindDuplicate(s);
    if duplicated {
      return Failure(DuplicateRecord);
    }
    if exists r :: r in s && IsBeyondUnwritten(c, r) {
      return Failure(BeyondUnwritten);
    }
    var scope, findings, unnamed := Classify(c, s);
    if unnamed {
      return Failure(Unclassified);
    }
    var g := Group(scope);
    var keys := StableSort.Sort(g.order, KeyOrder);
    var bad, o := WriteEntries(keys, g.of, opts);
    if bad {
      return Failure(MalformedAction);
    }
    var file := StableSort.Sort(StructuralEntries(c.items) + o.entries, EntryOrder);
    return Success(Reconciled(file, findings, o.disagreements, o.oneSided, c.skipped));
  }
}
