/**
 * What a reconciled file promises: nothing is dropped or invented, nothing is written past a series end, an entry
 * names several sources only where they agree, and the listing order of the records is forgotten.
 */
module ActionReconciliationLaws {
  import opened Wrappers
  import opened CorporateActions
  import opened ActionReconciliation
  import StableSort

  // ---------------------------------------------------------------------------------------------
  // Filters
  // ---------------------------------------------------------------------------------------------

  lemma {:induction false} ConsideredMember(records: seq<Record>, opts: Options, r: Record)
    ensures r in Considered(records, opts) <==> r in records && IsConsidered(r, opts)
    decreases |records|
  {
    if records != [] {
      var front, last := records[..|records| - 1], records[|records| - 1];
      ConsideredMember(front, opts, r);
      assert records == front + [last];
    }
  }

  lemma {:induction false} ScopeMember(c: Curation, s: seq<Record>, r: Record)
    ensures r in Scope(c, s) <==> r in s && InScope(c, r)
    decreases |s|
  {
    if s != [] {
      var front, last := s[..|s| - 1], s[|s| - 1];
      ScopeMember(c, front, r);
      assert s == front + [last];
    }
  }

  /** No two records are one source's for one entity, kind and date. */
  ghost predicate UniqueIds(s: seq<Record>)
    decreases |s|
  {
    s == [] || ((forall x :: x in s[..|s| - 1] ==> x.Id() != s[|s| - 1].Id()) && UniqueIds(s[..|s| - 1]))
  }

  lemma {:induction false} NotDuplicated(s: seq<Record>)
    requires !Duplicated(s)
    ensures UniqueIds(s)
    decreases |s|
  {
    if s != [] {
      var front := s[..|s| - 1];
      NotDuplicated(front);
    }
  }

  lemma {:induction false} ScopeUnique(c: Curation, s: seq<Record>)
    requires UniqueIds(s)
    ensures UniqueIds(Scope(c, s))
    decreases |s|
  {
    if s != [] {
      var front, last := s[..|s| - 1], s[|s| - 1];
      ScopeUnique(c, front);
      forall x | x in Scope(c, front) ensures x.Id() != last.Id() {
        ScopeMember(c, front, x);
      }
      assert (Scope(c, front) + [last])[..|Scope(c, front)|] == Scope(c, front);
    }
  }

  // ---------------------------------------------------------------------------------------------
  // Groups
  // ---------------------------------------------------------------------------------------------

  ghost predicate Holds(g: Groups, r: Record) {
    r.Key() in g.of && r.source in g.of[r.Key()] && g.of[r.Key()][r.source] == r
  }

  ghost predicate HoldsOnly(g: Groups, scope: seq<Record>, k: ActionKey, src: nat) {
    k in g.of && src in g.of[k] ==>
      g.of[k][src] in scope && g.of[k][src].Key() == k && g.of[k][src].source == src
  }

  ghost predicate OrderFits(g: Groups) {
    && (forall k :: k in g.of <==> k in g.order)
    && (forall k :: k in g.of ==> g.of[k] != map[])
    && (forall i, j :: 0 <= i < j < |g.order| ==> g.order[i] != g.order[j])
  }

  lemma {:induction false} GroupedOrder(scope: seq<Record>)
    ensures OrderFits(Grouped(scope))
    decreases |scope|
  {
    if scope != [] {
      var before, r := Grouped(scope[..|scope| - 1]), scope[|scope| - 1];
      GroupedOrder(scope[..|scope| - 1]);
      var g := WithRecord(before, r);
      assert r.source in g.of[r.Key()];
      forall k ensures k in g.of <==> k in g.order {
      }
    }
  }

  lemma {:induction false} GroupedHolds(scope: seq<Record>, r: Record)
    requires UniqueIds(scope) && r in scope
    ensures Holds(Grouped(scope), r)
    decreases |scope|
  {
    var front, last := scope[..|scope| - 1], scope[|scope| - 1];
    assert scope == front + [last];
    if r != last {
      GroupedHolds(front, r);
      assert r.Id() != last.Id();
    }
  }

  lemma {:induction false} GroupedHoldsOnly(scope: seq<Record>, k: ActionKey, src: nat)
    ensures HoldsOnly(Grouped(scope), scope, k, src)
    decreases |scope|
  {
    if scope != [] {
      var front, last := scope[..|scope| - 1], scope[|scope| - 1];
      GroupedHoldsOnly(front, k, src);
      assert last in scope && forall x :: x in front ==> x in scope;
    }
  }

  lemma {:induction false} GroupsOfSameRecords(a: seq<Record>, b: seq<Record>)
    requires UniqueIds(a) && UniqueIds(b) && forall r :: r in a <==> r in b
    ensures Grouped(a).of == Grouped(b).of
  {
    forall k ensures (k in Grouped(a).of ==> k in Grouped(b).of && Grouped(a).of[k] == Grouped(b).of[k])
      && (k in Grouped(b).of ==> k in Grouped(a).of)
    {
      GroupWithin(a, b, k);
      GroupWithin(b, a, k);
    }
  }

  lemma {:induction false} GroupWithin(a: seq<Record>, b: seq<Record>, k: ActionKey)
    requires UniqueIds(b) && forall r :: r in a ==> r in b
    ensures var x, y := Grouped(a).of, Grouped(b).of;
            k in x ==> k in y && forall src :: src in x[k] ==> src in y[k] && y[k][src] == x[k][src]
  {
    var x, y := Grouped(a).of, Grouped(b).of;
    GroupedOrder(a);
    if k in x {
      forall src | src in x[k] ensures k in y && src in y[k] && y[k][src] == x[k][src] {
        GroupedHoldsOnly(a, k, src);
        GroupedHolds(b, x[k][src]);
      }
      assert x[k] != map[];
      var src :| src in x[k];
    }
  }

  lemma {:induction false} KeyOrderInjective(k: ActionKey, l: ActionKey)
    ensures KeyOrder(k) == KeyOrder(l) <==> k == l
  {
  }

  lemma {:induction false} OrderDistinct(g: Groups)
    requires OrderFits(g)
    ensures StableSort.Distinct(g.order, KeyOrder)
    ensures StableSort.Distinct(SortedKeys(g), KeyOrder)
    ensures forall k :: k in SortedKeys(g) <==> k in g.of
  {
    forall i, j | 0 <= i < j < |g.order| ensures KeyOrder(g.order[i]) != KeyOrder(g.order[j]) {
      KeyOrderInjective(g.order[i], g.order[j]);
    }
    StableSort.SortDistinct(g.order, KeyOrder);
    StableSort.SortContains(g.order, KeyOrder);
  }

  lemma {:induction false} SortedKeysOfSameRecords(a: seq<Record>, b: seq<Record>)
    requires Grouped(a).of == Grouped(b).of
    ensures SortedKeys(Grouped(a)) == SortedKeys(Grouped(b))
  {
    GroupedOrder(a);
    GroupedOrder(b);
    OrderDistinct(Grouped(a));
    OrderDistinct(Grouped(b));
    StableSort.SortOfSameElements(Grouped(a).order, Grouped(b).order, KeyOrder);
  }

  // ---------------------------------------------------------------------------------------------
  // The listing order of the records is forgotten
  // ---------------------------------------------------------------------------------------------

  lemma {:induction false} Occurrences(s: seq<Record>, i: nat, j: nat)
    requires i < j < |s| && s[i] == s[j]
    ensures multiset(s)[s[i]] >= 2
  {
    assert s == s[..j] + [s[j]] + s[j + 1..];
    assert s[..j][i] == s[i];
    assert s[i] in multiset(s[..j]);
  }

  lemma {:induction false} TwoPlaces(s: seq<Record>, r: Record)
    requires multiset(s)[r] >= 2
    ensures exists i, j :: 0 <= i < j < |s| && s[i] == r && s[j] == r
    decreases |s|
  {
    var front := s[..|s| - 1];
    assert s == front + [s[|s| - 1]];
    if s[|s| - 1] == r {
      assert r in multiset(front);
      var i :| 0 <= i < |front| && front[i] == r;
      assert s[i] == r;
    } else {
      TwoPlaces(front, r);
      var i, j :| 0 <= i < j < |front| && front[i] == r && front[j] == r;
      assert s[i] == r && s[j] == r;
    }
  }

  lemma {:induction false} DuplicatedEitherWay(a: seq<Record>, b: seq<Record>)
    requires multiset(a) == multiset(b) && Duplicated(a)
    ensures Duplicated(b)
  {
    var i, j :| 0 <= i < j < |a| && a[i].Id() == a[j].Id();
    if a[i] == a[j] {
      Occurrences(a, i, j);
      TwoPlaces(b, a[i]);
    } else {
      assert a[i] in multiset(a) && a[j] in multiset(a);
      var m :| 0 <= m < |b| && b[m] == a[i];
      var n :| 0 <= n < |b| && b[n] == a[j];
      if m < n {
        assert b[m].Id() == b[n].Id();
      } else {
        assert b[n].Id() == b[m].Id();
      }
    }
  }

  lemma {:induction false} ConsideredCounts(s: seq<Record>, opts: Options, r: Record)
    ensures multiset(Considered(s, opts))[r] == if IsConsidered(r, opts) then multiset(s)[r] else 0
    decreases |s|
  {
    if s != [] {
      var front, last := s[..|s| - 1], s[|s| - 1];
      ConsideredCounts(front, opts, r);
      assert s == front + [last];
    }
  }

  lemma {:induction false} ConsideredPermuted(a: seq<Record>, b: seq<Record>, opts: Options)
    requires multiset(a) == multiset(b)
    ensures multiset(Considered(a, opts)) == multiset(Considered(b, opts))
  {
    forall r ensures multiset(Considered(a, opts))[r] == multiset(Considered(b, opts))[r] {
      ConsideredCounts(a, opts, r);
      ConsideredCounts(b, opts, r);
    }
  }

  lemma {:induction false} SameMembers(a: seq<Record>, b: seq<Record>)
    requires multiset(a) == multiset(b)
    ensures forall r :: r in a <==> r in b
  {
    forall r ensures r in a <==> r in b {
      assert r in a <==> r in multiset(a);
      assert r in b <==> r in multiset(b);
    }
  }

  lemma {:induction false} GroupsPermuted(c: Curation, a: seq<Record>, b: seq<Record>)
    requires multiset(a) == multiset(b) && !Duplicated(a)
    ensures Grouped(Scope(c, a)).of == Grouped(Scope(c, b)).of
    ensures SortedKeys(Grouped(Scope(c, a))) == SortedKeys(Grouped(Scope(c, b)))
  {
    if Duplicated(b) {
      DuplicatedEitherWay(b, a);
    }
    NotDuplicated(a);
    NotDuplicated(b);
    ScopeUnique(c, a);
    ScopeUnique(c, b);
    SameMembers(a, b);
    forall r ensures r in Scope(c, a) <==> r in Scope(c, b) {
      ScopeMember(c, a, r);
      ScopeMember(c, b, r);
    }
    GroupsOfSameRecords(Scope(c, a), Scope(c, b));
    SortedKeysOfSameRecords(Scope(c, a), Scope(c, b));
  }

  lemma {:induction false} ProblemPermuted(c: Curation, a: seq<Record>, b: seq<Record>, opts: Options)
    requires multiset(a) == multiset(b)
    ensures RecordProblem(c, a, opts) == RecordProblem(c, b, opts)
  {
    SameMembers(a, b);
    if Duplicated(a) {
      DuplicatedEitherWay(a, b);
    } else {
      if Duplicated(b) {
        DuplicatedEitherWay(b, a);
      }
      GroupsPermuted(c, a, b);
    }
  }

  lemma {:induction false} FindingsPermuted(c: Curation, a: seq<Record>, b: seq<Record>)
    requires multiset(a) == multiset(b)
    ensures Findings(c, a) == Findings(c, b)
  {
    SameMembers(a, b);
    forall d | d in Days(c.items) ensures FindingAt(c, a, d) == FindingAt(c, b, d) {
      assert FindingAt(c, a, d).superseded == FindingAt(c, b, d).superseded;
      assert FindingAt(c, a, d).kept == FindingAt(c, b, d).kept;
    }
  }

  /** The file, the report and even the refusal are the same however the input records are listed. */
  lemma {:induction false} ListingOrderIsIrrelevant(a: seq<Record>, b: seq<Record>, opts: Options)
    requires multiset(a) == multiset(b)
    ensures Reconciliation(a, opts) == Reconciliation(b, opts)
  {
    SameMembers(a, b);
    assert Sources(a) == Sources(b);
    ConsideredPermuted(a, b, opts);
    if Curate(opts).Success? {
      var c := Curate(opts).value;
      var s, t := Considered(a, opts), Considered(b, opts);
      ProblemPermuted(c, s, t, opts);
      FindingsPermuted(c, s, t);
      if !Duplicated(s) {
        GroupsPermuted(c, s, t);
      }
    }
  }

  // ---------------------------------------------------------------------------------------------
  // Which entries the file holds
  // ---------------------------------------------------------------------------------------------

  /** The admitted structural actions, the considered records, and the groups behind a file. */
  function ItemsOf(opts: Options): seq<Item> {
    if Curate(opts).Success? then Curate(opts).value.items else []
  }

  function GroupsOf(records: seq<Record>, opts: Options): Groups {
    if Curate(opts).Success? then Grouped(Scope(Curate(opts).value, Considered(records, opts))) else Groups([], map[])
  }

  /** A considered record that the curator has not set aside. */
  predicate IsInScope(records: seq<Record>, opts: Options, r: Record) {
    Curate(opts).Success? && r in records && IsConsidered(r, opts) && InScope(Curate(opts).value, r)
  }

  function OutputsOf(records: seq<Record>, opts: Options): Output {
    Outputs(SortedKeys(GroupsOf(records, opts)), GroupsOf(records, opts).of, opts)
  }

  lemma {:induction false} InScopeIsGrouped(records: seq<Record>, opts: Options, r: Record)
    requires Reconciliation(records, opts).Success? && IsInScope(records, opts, r)
    ensures Holds(GroupsOf(records, opts), r)
  {
    var c, s := Curate(opts).value, Considered(records, opts);
    ConsideredMember(records, opts, r);
    ScopeMember(c, s, r);
    NotDuplicated(s);
    ScopeUnique(c, s);
    GroupedHolds(Scope(c, s), r);
  }

  lemma {:induction false} GroupedIsInScope(records: seq<Record>, opts: Options, k: ActionKey, src: nat)
    requires Reconciliation(records, opts).Success?
    requires var of := GroupsOf(records, opts).of; k in of && src in of[k]
    ensures var r := GroupsOf(records, opts).of[k][src];
            IsInScope(records, opts, r) && r.Key() == k && r.source == src
  {
    var c, s := Curate(opts).value, Considered(records, opts);
    var r := GroupsOf(records, opts).of[k][src];
    GroupedHoldsOnly(Scope(c, s), k, src);
    ScopeMember(c, s, r);
    ConsideredMember(records, opts, r);
  }

  ghost predicate GroupFits(of: map<ActionKey, map<nat, Record>>, k: ActionKey) {
    && k in of && of[k] != map[]
    && forall src :: src in of[k] ==> of[k][src].Key() == k && of[k][src].source == src
  }

  lemma {:induction false} GroupsFit(records: seq<Record>, opts: Options)
    requires Reconciliation(records, opts).Success?
    ensures var g := GroupsOf(records, opts);
            && (forall k :: k in SortedKeys(g) <==> k in g.of)
            && (forall k :: k in g.of ==> GroupFits(g.of, k))
            && StableSort.Distinct(SortedKeys(g), KeyOrder)
  {
    var g := GroupsOf(records, opts);
    GroupedOrder(Scope(Curate(opts).value, Considered(records, opts)));
    OrderDistinct(g);
    forall k | k in g.of ensures GroupFits(g.of, k) {
      forall src | src in g.of[k] ensures g.of[k][src].Key() == k && g.of[k][src].source == src {
        GroupedIsInScope(records, opts, k, src);
      }
    }
  }

  lemma {:induction false} ChosenIsPresent(bySource: map<nat, Record>, preferred: seq<nat>)
    requires bySource != map[]
    ensures var chosen := Chosen(bySource, preferred);
            chosen.Some? && exists src :: src in bySource && bySource[src] == chosen.value
  {
  }

  ghost predicate IsEntryFor(e: Entry, of: map<ActionKey, map<nat, Record>>, k: ActionKey, opts: Options) {
    && k in of && Chosen(of[k], opts.preferred).Some?
    && e == EntryFor(of[k], Chosen(of[k], opts.preferred).value, opts)
    && e.action.Key() == k
  }

  lemma {:induction false} EntryFits(of: map<ActionKey, map<nat, Record>>, k: ActionKey, opts: Options)
    requires GroupFits(of, k)
    ensures Chosen(of[k], opts.preferred).Some?
    ensures IsEntryFor(EntryFor(of[k], Chosen(of[k], opts.preferred).value, opts), of, k, opts)
  {
  }

  lemma {:induction false} OneMoreEntry(o: Output, k: ActionKey, of: map<ActionKey, map<nat, Record>>, opts: Options)
    requires k in of && Chosen(of[k], opts.preferred).Some?
    ensures WithKey(o, k, At(of, k), opts).entries == o.entries + [EntryFor(of[k], Chosen(of[k], opts.preferred).value, opts)]
  {
  }

  /** One entry for each key, in the order of the keys. */
  lemma {:induction false} OutputsAligned(keys: seq<ActionKey>, of: map<ActionKey, map<nat, Record>>, opts: Options)
    requires forall k :: k in keys ==> GroupFits(of, k)
    ensures var entries := Outputs(keys, of, opts).entries;
            |entries| == |keys| && forall i :: 0 <= i < |keys| ==> IsEntryFor(entries[i], of, keys[i], opts)
    decreases |keys|
  {
    if keys != [] {
      var front, k := keys[..|keys| - 1], keys[|keys| - 1];
      assert k in keys && forall x :: x in front ==> x in keys;
      OutputsAligned(front, of, opts);
      EntryFits(of, k, opts);
      OneMoreEntry(Outputs(front, of, opts), k, of, opts);
      assert forall i :: 0 <= i < |front| ==> front[i] == keys[i];
    }
  }

  lemma {:induction false} StructuralAligned(items: seq<Item>)
    ensures |StructuralEntries(items)| == |items|
    ensures forall i :: 0 <= i < |items| ==>
      StructuralEntries(items)[i] == Entry(CuratedWritten(items[i].action), items[i].sources, items[i].announcedAt)
    decreases |items|
  {
    if items != [] {
      StructuralAligned(items[..|items| - 1]);
    }
  }

  lemma {:induction false} EntriesDistinct(items: seq<Item>, keys: seq<ActionKey>, of: map<ActionKey, map<nat, Record>>, opts: Options)
    requires KeysDistinct(items) && StableSort.Distinct(keys, KeyOrder)
    requires forall k :: k in keys ==> GroupFits(of, k)
    ensures StableSort.Distinct(StructuralEntries(items) + Outputs(keys, of, opts).entries, EntryOrder)
  {
    StructuralAligned(items);
    OutputsAligned(keys, of, opts);
    var all := StructuralEntries(items) + Outputs(keys, of, opts).entries;
    var n := |items|;
    forall i, j | 0 <= i < j < |all| ensures EntryOrder(all[i]) != EntryOrder(all[j]) {
      KeyOrderInjective(all[i].action.Key(), all[j].action.Key());
      if j < n {
        assert items[i].action.Key() != items[j].action.Key();
      } else if i < n {
        GroupKind(of, keys[j - n]);
      } else {
        assert KeyOrder(keys[i - n]) != KeyOrder(keys[j - n]);
      }
    }
  }

  lemma {:induction false} GroupKind(of: map<ActionKey, map<nat, Record>>, k: ActionKey)
    requires GroupFits(of, k)
    ensures k.kind == CASH_DIVIDEND || k.kind == SPLIT
  {
  }

  /** The file's keys are distinct, and its entries are the curated ones and one for each group. */
  lemma {:induction false} FileHolds(records: seq<Record>, opts: Options)
    requires Reconciliation(records, opts).Success?
    ensures var file := Reconciliation(records, opts).value.file;
            && StableSort.Distinct(file, EntryOrder)
            && StableSort.IsSorted(file, EntryOrder)
            && forall e :: e in file <==> e in StructuralEntries(ItemsOf(opts)) || e in OutputsOf(records, opts).entries
  {
    CuratedIsSound(opts);
    GroupsFit(records, opts);
    var g := GroupsOf(records, opts);
    var all := StructuralEntries(ItemsOf(opts)) + Outputs(SortedKeys(g), g.of, opts).entries;
    EntriesDistinct(ItemsOf(opts), SortedKeys(g), g.of, opts);
    StableSort.SortDistinct(all, EntryOrder);
    StableSort.SortContains(all, EntryOrder);
    StableSort.SortSorted(all, EntryOrder);
  }

  lemma {:induction false} GroupHasEntry(records: seq<Record>, opts: Options, k: ActionKey) returns (i: nat)
    requires Reconciliation(records, opts).Success? && k in GroupsOf(records, opts).of
    ensures var file := Reconciliation(records, opts).value.file;
            i < |file| && IsEntryFor(file[i], GroupsOf(records, opts).of, k, opts)
  {
    var file := Reconciliation(records, opts).value.file;
    var g := GroupsOf(records, opts);
    FileHolds(records, opts);
    GroupsFit(records, opts);
    OutputsAligned(SortedKeys(g), g.of, opts);
    assert k in SortedKeys(g);
    var j :| 0 <= j < |SortedKeys(g)| && SortedKeys(g)[j] == k;
    var e := OutputsOf(records, opts).entries[j];
    assert e in OutputsOf(records, opts).entries;
    i :| 0 <= i < |file| && file[i] == e;
  }

  lemma {:induction false} EntryHasSource(records: seq<Record>, opts: Options, e: Entry) returns (k: ActionKey)
    requires Reconciliation(records, opts).Success?
    requires e in Reconciliation(records, opts).value.file && !e.action.CuratedWritten?
    ensures k in GroupsOf(records, opts).of && GroupFits(GroupsOf(records, opts).of, k)
    ensures IsEntryFor(e, GroupsOf(records, opts).of, k, opts)
  {
    var g := GroupsOf(records, opts);
    FileHolds(records, opts);
    GroupsFit(records, opts);
    StructuralAligned(ItemsOf(opts));
    OutputsAligned(SortedKeys(g), g.of, opts);
    var entries := OutputsOf(records, opts).entries;
    assert e in entries;
    var j :| 0 <= j < |entries| && entries[j] == e;
    k := SortedKeys(g)[j];
    assert k in SortedKeys(g);
  }

  // ---------------------------------------------------------------------------------------------
  // Nothing is dropped
  // ---------------------------------------------------------------------------------------------

  predicate IsSetAside(out: Reconciled, r: Record) {
    exists d :: d in out.setAside && r in out.setAside[d].superseded
  }

  /** Exactly one entry of the file is for the key. */
  ghost predicate OnlyEntry(file: seq<Entry>, k: ActionKey, i: nat) {
    i < |file| && file[i].action.Key() == k && forall j :: 0 <= j < |file| && j != i ==> file[j].action.Key() != k
  }

  predicate IsDisputed(out: Reconciled, r: Record) {
    exists d :: d in out.disagreements + out.oneSided && d.key == r.Key() && r.source in d.values && d.values[r.source] == r
  }

  lemma {:induction false} OnlyOne(file: seq<Entry>, k: ActionKey, i: nat)
    requires StableSort.Distinct(file, EntryOrder) && i < |file| && file[i].action.Key() == k
    ensures OnlyEntry(file, k, i)
  {
  }

  lemma {:induction false} ListedDisputes(keys: seq<ActionKey>, of: map<ActionKey, map<nat, Record>>, opts: Options, k: ActionKey)
    requires k in keys && Chosen(At(of, k), opts.preferred).Some?
    requires IsListed(At(of, k), Chosen(At(of, k), opts.preferred).value, opts)
    ensures var o := Outputs(keys, of, opts);
            Dispute(k, At(of, k), Chosen(At(of, k), opts.preferred).value.source) in o.disagreements + o.oneSided
    decreases |keys|
  {
    var front, last := keys[..|keys| - 1], keys[|keys| - 1];
    assert keys == front + [last];
    if k != last {
      ListedDisputes(front, of, opts, k);
    }
  }

  lemma {:induction false} FullSubset(a: set<nat>, b: set<nat>)
    requires a <= b && |a| >= |b|
    ensures a == b
  {
    assert b == a + (b - a);
    assert |b| == |a| + |b - a|;
  }

  lemma {:induction false} ListedIsReported(records: seq<Record>, opts: Options, k: ActionKey)
    requires Reconciliation(records, opts).Success? && k in GroupsOf(records, opts).of
    requires Chosen(GroupsOf(records, opts).of[k], opts.preferred).Some?
    requires IsListed(GroupsOf(records, opts).of[k], Chosen(GroupsOf(records, opts).of[k], opts.preferred).value, opts)
    ensures var out, bySource := Reconciliation(records, opts).value, GroupsOf(records, opts).of[k];
            Dispute(k, bySource, Chosen(bySource, opts.preferred).value.source) in out.disagreements + out.oneSided
  {
    var g := GroupsOf(records, opts);
    assert k in SortedKeys(g) by {
      GroupsFit(records, opts);
    }
    ListedDisputes(SortedKeys(g), g.of, opts, k);
  }

  lemma {:induction false} NamedOrDisputed(records: seq<Record>, opts: Options, r: Record, e: Entry)
    requires Reconciliation(records, opts).Success? && IsInScope(records, opts, r)
    requires Holds(GroupsOf(records, opts), r) && IsEntryFor(e, GroupsOf(records, opts).of, r.Key(), opts)
    ensures r.source in e.sources || IsDisputed(Reconciliation(records, opts).value, r)
  {
    var g := GroupsOf(records, opts);
    var bySource := g.of[r.Key()];
    var chosen := Chosen(bySource, opts.preferred).value;
    if IsListed(bySource, chosen, opts) {
      ListedIsReported(records, opts, r.Key());
      var d := Dispute(r.Key(), bySource, chosen.source);
      assert d.values[r.source] == r;
    } else {
      FullSubset(Agreeing(bySource, chosen, opts.tolerance), bySource.Keys);
      assert r.source in bySource.Keys;
    }
  }

  lemma {:induction false} SetAsideIff(records: seq<Record>, opts: Options, r: Record)
    requires Reconciliation(records, opts).Success? && r in records && IsConsidered(r, opts)
    ensures IsSetAside(Reconciliation(records, opts).value, r) <==> !IsInScope(records, opts, r)
  {
    var out := Reconciliation(records, opts).value;
    var c, s := Curate(opts).value, Considered(records, opts);
    ConsideredMember(records, opts, r);
    FateHasAFinding(c, r);
    assert !FateOf(c, r).Unnamed?;
    if FateOf(c, r).SetAside? {
      var d := FateOf(c, r).day;
      assert d in out.setAside && out.setAside[d] == FindingAt(c, s, d);
      assert r in out.setAside[d].superseded;
    }
  }

  /**
   * Nothing is dropped: a considered record is set aside, and not otherwise, or the file has exactly one entry for its
   * entity, kind and date, which names its source unless the report lists its value.
   */
  lemma {:induction false} NothingIsDropped(records: seq<Record>, opts: Options, r: Record)
    requires Reconciliation(records, opts).Success? && r in records && IsConsidered(r, opts)
    ensures var out := Reconciliation(records, opts).value;
            !IsSetAside(out, r) ==>
              exists i :: 0 <= i < |out.file| && OnlyEntry(out.file, r.Key(), i) && (r.source in out.file[i].sources || IsDisputed(out, r))
  {
    var out := Reconciliation(records, opts).value;
    SetAsideIff(records, opts, r);
    if !IsSetAside(out, r) {
      InScopeIsGrouped(records, opts, r);
      var i := GroupHasEntry(records, opts, r.Key());
      FileHolds(records, opts);
      OnlyOne(out.file, r.Key(), i);
      NamedOrDisputed(records, opts, r, out.file[i]);
    }
  }

  /** Setting aside is only ever on the owner's word: an admitted action names the record as superseded. */
  lemma {:induction false} SetAsideOnTheOwnersWord(records: seq<Record>, opts: Options, r: Record)
    requires Reconciliation(records, opts).Success? && IsSetAside(Reconciliation(records, opts).value, r)
    ensures r in records && exists it :: it in ItemsOf(opts) && r.Id() in it.supersedes
  {
    var out := Reconciliation(records, opts).value;
    var c, s := Curate(opts).value, Considered(records, opts);
    var d :| d in out.setAside && r in out.setAside[d].superseded;
    assert out.setAside[d] == FindingAt(c, s, d);
    ConsideredMember(records, opts, r);
    SupersededOnADay(c.items, r.Id());
  }

  // ---------------------------------------------------------------------------------------------
  // Nothing is invented, and several sources are named only where they agree
  // ---------------------------------------------------------------------------------------------

  /** The record carries the written value, within the tolerance on cash. */
  predicate Confirms(w: Written, r: Record, tolerance: real) {
    match (w, r)
    case (CashWritten(_, x, _, _), CashRecord(_, _, _, _, y, _)) => x - y <= tolerance && y - x <= tolerance
    case (SplitWritten(_, x, _), SplitRecord(_, _, _, _, y)) => x == y
    case _ => false
  }

  lemma {:induction false} AgreeIsConfirm(chosen: Record, r: Record, tolerance: real)
    ensures Agrees(chosen, r, tolerance) <==> Confirms(Stored(chosen), r, tolerance)
  {
  }

  /** Every cash or split entry carries a value some source reported for it, and names that source's like. */
  lemma {:induction false} NothingIsInvented(records: seq<Record>, opts: Options, e: Entry) returns (r: Record)
    requires Reconciliation(records, opts).Success?
    requires e in Reconciliation(records, opts).value.file && !e.action.CuratedWritten?
    ensures IsInScope(records, opts, r) && IsStorable(r) && e.action == Stored(r) && e.announcedAt == r.announcedAt
    ensures |e.sources| < 2 ==> e.sources == {r.source}
  {
    var k := EntryHasSource(records, opts, e);
    var src;
    r, src := ChosenOf(GroupsOf(records, opts).of, k, opts);
    GroupedIsInScope(records, opts, k, src);
    NoGroupIsBad(records, opts, k);
    SingleIsOne(r.source);
  }

  lemma {:induction false} ChosenOf(of: map<ActionKey, map<nat, Record>>, k: ActionKey, opts: Options) returns (r: Record, src: nat)
    requires GroupFits(of, k)
    ensures Chosen(of[k], opts.preferred) == Some(r) && src in of[k] && of[k][src] == r
  {
    ChosenIsPresent(of[k], opts.preferred);
    r := Chosen(of[k], opts.preferred).value;
    src :| src in of[k] && of[k][src] == r;
  }

  /** A source's place in the priority order; those not listed come last. */
  function Precedence(preferred: seq<nat>, source: nat): nat {
    if preferred == [] || preferred[0] == source then 0 else 1 + Precedence(preferred[1..], source)
  }

  lemma {:induction false} FirstPrecedes(preferred: seq<nat>, present: set<nat>, s: nat)
    requires s in present
    ensures var first := FirstPresent(preferred, present);
            if first.Some? then Precedence(preferred, first.value) <= Precedence(preferred, s)
            else Precedence(preferred, s) == |preferred|
  {
    if preferred != [] {
      FirstPrecedes(preferred[1..], present, s);
    }
  }

  lemma {:induction false} FirstIsPreferred(preferred: seq<nat>, present: set<nat>)
    ensures var first := FirstPresent(preferred, present);
            first.Some? ==> first.value in present && Precedence(preferred, first.value) < |preferred|
  {
    if preferred != [] {
      FirstIsPreferred(preferred[1..], present);
    }
  }

  /** Whether a source's value is written before another's. */
  predicate Outranks(preferred: seq<nat>, a: nat, b: nat) {
    Precedence(preferred, a) < Precedence(preferred, b)
    || (Precedence(preferred, a) == Precedence(preferred, b) && (Precedence(preferred, a) < |preferred| || a <= b))
  }

  lemma {:induction false} ChosenOutranks(bySource: map<nat, Record>, preferred: seq<nat>, src: nat, s: nat)
    requires Chosen(bySource, preferred).Some? && s in bySource
    requires src in bySource && bySource[src] == Chosen(bySource, preferred).value
    requires forall x :: x in bySource ==> bySource[x].source == x
    ensures Outranks(preferred, src, s)
  {
    FirstPrecedes(preferred, bySource.Keys, s);
    FirstPrecedes(preferred, bySource.Keys, src);
    FirstIsPreferred(preferred, bySource.Keys);
  }

  /** The value written is that of the highest-ranked source that reports the action. */
  lemma {:induction false} HighestRankedIsWritten(records: seq<Record>, opts: Options, e: Entry, r: Record) returns (w: Record)
    requires Reconciliation(records, opts).Success?
    requires e in Reconciliation(records, opts).value.file && !e.action.CuratedWritten?
    requires IsInScope(records, opts, r) && r.Key() == e.action.Key()
    ensures IsInScope(records, opts, w) && e.action == Stored(w) && Outranks(opts.preferred, w.source, r.source)
  {
    var k := EntryHasSource(records, opts, e);
    var src;
    w, src := ChosenOf(GroupsOf(records, opts).of, k, opts);
    GroupedIsInScope(records, opts, k, src);
    InScopeIsGrouped(records, opts, r);
    ChosenOutranks(GroupsOf(records, opts).of[k], opts.preferred, src, r.source);
  }

  lemma {:induction false} NoGroupIsBad(records: seq<Record>, opts: Options, k: ActionKey)
    requires Reconciliation(records, opts).Success? && k in GroupsOf(records, opts).of
    ensures !IsBad(GroupsOf(records, opts).of[k], opts)
  {
    var g := GroupsOf(records, opts);
    GroupsFit(records, opts);
    NoneBad(records, opts);
    NotBad(SortedKeys(g), g.of, opts, k);
  }

  lemma {:induction false} NoneBad(records: seq<Record>, opts: Options)
    requires Reconciliation(records, opts).Success?
    ensures !SomeBad(SortedKeys(GroupsOf(records, opts)), GroupsOf(records, opts).of, opts)
  {
  }

  lemma {:induction false} NotBad(keys: seq<ActionKey>, of: map<ActionKey, map<nat, Record>>, opts: Options, k: ActionKey)
    requires !SomeBad(keys, of, opts) && k in keys
    ensures !IsBad(At(of, k), opts)
  {
  }

  /**
   * An entry names several sources only where each of them reported it with the written value, and then it names
   * every source that did.
   */
  lemma {:induction false} SeveralSourcesAgree(records: seq<Record>, opts: Options, e: Entry)
    requires Reconciliation(records, opts).Success?
    requires e in Reconciliation(records, opts).value.file && !e.action.CuratedWritten? && |e.sources| >= 2
    ensures forall src :: src in e.sources <==>
      exists r :: IsInScope(records, opts, r) && r.source == src && r.Key() == e.action.Key() && Confirms(e.action, r, opts.tolerance)
  {
    var g := GroupsOf(records, opts);
    var k := EntryHasSource(records, opts, e);
    var bySource := g.of[k];
    var chosen := Chosen(bySource, opts.preferred).value;
    SingleIsOne(chosen.source);
    assert e.sources == Agreeing(bySource, chosen, opts.tolerance);
    forall src | src in e.sources
      ensures exists r :: IsInScope(records, opts, r) && r.source == src && r.Key() == e.action.Key() && Confirms(e.action, r, opts.tolerance)
    {
      GroupedIsInScope(records, opts, k, src);
      AgreeIsConfirm(chosen, bySource[src], opts.tolerance);
    }
    forall r | IsInScope(records, opts, r) && r.Key() == e.action.Key() && Confirms(e.action, r, opts.tolerance)
      ensures r.source in e.sources
    {
      InScopeIsGrouped(records, opts, r);
      AgreeIsConfirm(chosen, r, opts.tolerance);
    }
  }

  lemma {:induction false} SingleIsOne(x: nat)
    ensures |{x}| == 1
  {
  }

  // ---------------------------------------------------------------------------------------------
  // Nothing is written past a series end
  // ---------------------------------------------------------------------------------------------

  lemma {:induction false} InScopeBeforeEnd(records: seq<Record>, opts: Options, r: Record)
    requires IsInScope(records, opts, r)
    ensures !IsPastEnd(Curate(opts).value, r)
  {
    var c := Curate(opts).value;
    if FateOf(c, r).Kept? {
      KeptOnADay(c.items, r.Id());
      var it :| it in c.items && r.Id() in it.keeps;
      NothingKeptPastAnEnd(opts, it, r.Id());
    }
  }

  /**
   * No dividend, split or spin-off is dated after the end of its entity's series, for any curated merger or delisting
   * of an entity in scope, written or not.
   */
  lemma {:induction false} NothingPastASeriesEnd(records: seq<Record>, opts: Options, e: Entry, n: nat)
    requires Reconciliation(records, opts).Success? && e in Reconciliation(records, opts).value.file
    requires n < |opts.structural| && EndsHere(opts.structural[n], opts)
    requires var k := e.action.Key(); k.kind != MERGER && k.kind != DELISTING
    ensures var end := opts.structural[n].action.action;
            e.action.Key().entity == end.Entity() ==> e.action.Key().date <= end.LastDate().value
  {
    var end := opts.structural[n].action.action;
    var c := Curate(opts).value;
    CuratedIsSound(opts);
    assert EndIs(c.ends, end);
    FileHolds(records, opts);
    if e.action.CuratedWritten? {
      CuratedEntry(records, opts, e);
    } else {
      var r := NothingIsInvented(records, opts, e);
      InScopeBeforeEnd(records, opts, r);
    }
  }

  lemma {:induction false} CuratedEntry(records: seq<Record>, opts: Options, e: Entry)
    requires Reconciliation(records, opts).Success?
    requires e in Reconciliation(records, opts).value.file && e.action.CuratedWritten?
    ensures exists it :: it in ItemsOf(opts) && it.action == e.action.action && it.sources == e.sources
  {
    var g := GroupsOf(records, opts);
    FileHolds(records, opts);
    GroupsFit(records, opts);
    StructuralAligned(ItemsOf(opts));
    OutputsAligned(SortedKeys(g), g.of, opts);
    forall x | x in OutputsOf(records, opts).entries ensures !x.action.CuratedWritten? {
      var entries := OutputsOf(records, opts).entries;
      var j :| 0 <= j < |entries| && entries[j] == x;
      assert SortedKeys(g)[j] in SortedKeys(g);
      assert IsEntryFor(entries[j], g.of, SortedKeys(g)[j], opts);
    }
    assert e in StructuralEntries(ItemsOf(opts));
    var j :| 0 <= j < |StructuralEntries(ItemsOf(opts))| && StructuralEntries(ItemsOf(opts))[j] == e;
    assert ItemsOf(opts)[j] in ItemsOf(opts);
  }

  /** An entry is admitted as given, or listed as skipped. */
  ghost predicate IsAccountedFor(c: Curation, e: StructuralEntry, n: nat) {
    e.action.Structural? &&
    ((exists x :: x in c.skipped && x.index == n && x.key == e.action.action.Key()) || ItemFor(e, e.action.action) in c.items)
  }

  lemma {:induction false} AdmittedOrSkipped(opts: Options, m: nat, n: nat)
    requires n < m <= |opts.structural| && AdmitAll(opts, m).Success?
    ensures IsAccountedFor(AdmitAll(opts, m).value, opts.structural[n], n)
    decreases m
  {
    var e := opts.structural[m - 1];
    var c, d := AdmitAll(opts, m - 1).value, AdmitAll(opts, m).value;
    if n < m - 1 {
      AdmittedOrSkipped(opts, m - 1, n);
      AccountStays(c, m - 1, opts, opts.structural[n], n);
    } else {
      var a := e.action.action;
      if ItemFor(e, a) !in d.items {
        assert d.skipped[|d.skipped| - 1].index == n;
        assert d.skipped[|d.skipped| - 1] in d.skipped;
      }
    }
  }

  lemma {:induction false} AccountStays(c: Curation, i: nat, opts: Options, e: StructuralEntry, n: nat)
    requires i < |opts.structural| && Admit(c, opts.structural[i], i, opts).Success? && IsAccountedFor(c, e, n)
    ensures IsAccountedFor(Admit(c, opts.structural[i], i, opts).value, e, n)
  {
  }

  /** No curated action is silently left out: it is written with its own sources, or listed as out of scope. */
  lemma {:induction false} CuratedIsWrittenOrListed(records: seq<Record>, opts: Options, n: nat)
    requires Reconciliation(records, opts).Success? && n < |opts.structural|
    ensures var out, e := Reconciliation(records, opts).value, opts.structural[n];
            e.action.Structural?
            && ((exists x :: x in out.skipped && x.index == n)
                || Entry(CuratedWritten(e.action.action), e.sources, e.announcedAt) in out.file)
  {
    var e := opts.structural[n];
    var items := ItemsOf(opts);
    AdmittedOrSkipped(opts, |opts.structural|, n);
    FileHolds(records, opts);
    StructuralAligned(items);
    var it := ItemFor(e, e.action.action);
    if it in items {
      var j :| 0 <= j < |items| && items[j] == it;
      assert StructuralEntries(items)[j] in StructuralEntries(items);
    }
  }
}
