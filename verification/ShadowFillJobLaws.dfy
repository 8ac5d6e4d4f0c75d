/** What every completed run of the fill job leaves behind, and what a whole series of runs and sealings keeps. */
module ShadowFillJobLaws {
  import opened Wrappers
  import opened StableSort
  import opened ShadowCalendar
  import opened ShadowFillJob

  // ---------------------------------------------------------------------------------------------
  // Monotonicity in the decision instant
  // ---------------------------------------------------------------------------------------------

  lemma {:induction false} LaterDecisionIsDueLater(env: Env, a: Sealed, b: Sealed)
    requires env.Valid() && a.decisionAt <= b.decisionAt
    ensures Due(env, a).Some? && Due(env, b).Some? ==> Due(env, a).value <= Due(env, b).value
    ensures Owed(env, a).Some? && Owed(env, b).Some? ==> Owed(env, a).value <= Owed(env, b).value
    ensures Due(env, a).Some? && Owed(env, a).Some? ==> Due(env, a).value <= Owed(env, a).value
  {
    if SessionOf(env, a).Some? {
      PreviousSessionMonotone(env.cal, a.decisionAt - env.offset, b.decisionAt - env.offset);
      var sa, sb := SessionOf(env, a).value, SessionOf(env, b).value;
      if Due(env, a).Some? && Due(env, b).Some? {
        DueMonotone(env.cal, sa, sb, env.delayBars, env.delayBars);
      }
      if Owed(env, a).Some? {
        OwedMonotone(env.cal, sa, sa, env.delayBars, env.maxFillBars);
      }
      if Owed(env, a).Some? && Owed(env, b).Some? {
        OwedMonotone(env.cal, sa, sb, env.delayBars, env.maxFillBars);
      }
    }
  }

  // ---------------------------------------------------------------------------------------------
  // The processing loop
  // ---------------------------------------------------------------------------------------------

  ghost predicate Placed(env: Env, rows: seq<Sealed>)
    requires env.cal.Valid()
  {
    forall r :: r in rows ==> SessionOf(env, r).Some?
  }

  /** Decision instants never fall along the list. */
  predicate InOrder(rows: seq<Sealed>) {
    forall i, j :: 0 <= i < j < |rows| ==> rows[i].decisionAt <= rows[j].decisionAt
  }

  /** One record per arm and instant, as the ledger's unique index keeps it. */
  predicate NoDuplicates(sealed: seq<Sealed>) {
    forall i, j :: 0 <= i < j < |sealed| ==> sealed[i] != sealed[j]
  }

  lemma {:induction false} LastIsNew(rows: seq<Sealed>)
    requires NoDuplicates(rows) && rows != []
    ensures rows[|rows| - 1] !in rows[..|rows| - 1]
  {
  }

  lemma {:induction false} OneMoreRecord(fills: seq<FillRow>, f: FillRow, r: Sealed)
    ensures IsRecorded(fills + [f], r) <==> IsRecorded(fills, r) || (f.arm == r.arm && f.decisionAt == r.decisionAt)
  {
  }

  /** Nothing outside the list is recorded, and nothing recorded is lost. */
  lemma {:induction false} OnlyListedAreRecorded(env: Env, w: Work, rows: seq<Sealed>, r: Sealed)
    requires env.Valid() && Placed(env, rows) && ProcessAll(env, w, rows).Some?
    ensures IsRecorded(w.fills, r) ==> IsRecorded(ProcessAll(env, w, rows).value.fills, r)
    ensures IsRecorded(ProcessAll(env, w, rows).value.fills, r) ==> IsRecorded(w.fills, r) || r in rows
    decreases |rows|
  {
    if rows != [] {
      var earlier, last := rows[..|rows| - 1], rows[|rows| - 1];
      OnlyListedAreRecorded(env, w, earlier, r);
      var w1 := ProcessAll(env, w, earlier).value;
      OneMoreRecord(w1.fills, FillRow(last.arm, last.decisionAt, OutcomeOf(env, w1, last)), r);
    }
  }

  /** An arm is deferred only on account of a listed decision that is not owed yet. */
  lemma {:induction false} DeferredForAReason(env: Env, w: Work, rows: seq<Sealed>, arm: Arm)
    requires env.Valid() && Placed(env, rows) && ProcessAll(env, w, rows).Some? && arm !in w.deferred
    requires arm in ProcessAll(env, w, rows).value.deferred
    ensures exists d :: d in rows && d.arm == arm && Owed(env, d).Some? && Owed(env, d).value > env.session
    decreases |rows|
  {
    var earlier, last := rows[..|rows| - 1], rows[|rows| - 1];
    var w1 := ProcessAll(env, w, earlier).value;
    if arm in w1.deferred {
      DeferredForAReason(env, w, earlier, arm);
    } else {
      assert last in rows;
    }
  }

  /** A listed decision left unrecorded is not owed yet. */
  lemma {:induction false} UnrecordedIsNotOwed(env: Env, w: Work, rows: seq<Sealed>, r: Sealed)
    requires env.Valid() && Placed(env, rows) && InOrder(rows) && w.deferred == {}
    requires ProcessAll(env, w, rows).Some? && r in rows
    requires !IsRecorded(ProcessAll(env, w, rows).value.fills, r) && Owed(env, r).Some?
    ensures Owed(env, r).value > env.session
    decreases |rows|
  {
    var earlier, last := rows[..|rows| - 1], rows[|rows| - 1];
    var w1 := ProcessAll(env, w, earlier).value;
    OneMoreRecord(w1.fills, FillRow(last.arm, last.decisionAt, OutcomeOf(env, w1, last)), r);
    if r in earlier {
      UnrecordedIsNotOwed(env, w, earlier, r);
    } else if r.arm in w1.deferred {
      DeferredForAReason(env, w, earlier, r.arm);
      var d :| d in earlier && d.arm == r.arm && Owed(env, d).Some? && Owed(env, d).value > env.session;
      var i :| 0 <= i < |earlier| && earlier[i] == d;
      assert rows[i].decisionAt <= rows[|rows| - 1].decisionAt;
      LaterDecisionIsDueLater(env, d, r);
    }
  }

  /** Within an arm the newly recorded decisions come first: one left unrecorded defers every later one. */
  lemma {:induction false} RecordedFirst(env: Env, w: Work, rows: seq<Sealed>, i: nat, j: nat)
    requires env.Valid() && Placed(env, rows) && ProcessAll(env, w, rows).Some?
    requires i < j < |rows| && rows[i].arm == rows[j].arm && rows[i] != rows[j]
    requires NoDuplicates(rows)
    requires forall x :: 0 <= x < |rows| ==> !IsRecorded(w.fills, rows[x])
    ensures IsRecorded(ProcessAll(env, w, rows).value.fills, rows[j]) ==> IsRecorded(ProcessAll(env, w, rows).value.fills, rows[i])
    decreases |rows|
  {
    var n := |rows| - 1;
    var earlier, last := rows[..n], rows[n];
    var w1 := ProcessAll(env, w, earlier).value;
    var f := FillRow(last.arm, last.decisionAt, OutcomeOf(env, w1, last));
    OneMoreRecord(w1.fills, f, rows[i]);
    OneMoreRecord(w1.fills, f, rows[j]);
    if j < n {
      RecordedFirst(env, w, earlier, i, j);
    } else {
      RecordedOrDeferred(env, w, earlier, earlier[i]);
      OnlyListedAreRecorded(env, w, earlier, last);
      LastIsNew(rows);
    }
  }

  lemma {:induction false} RecordedOrDeferred(env: Env, w: Work, rows: seq<Sealed>, r: Sealed)
    requires env.Valid() && Placed(env, rows) && ProcessAll(env, w, rows).Some? && r in rows
    ensures IsRecorded(ProcessAll(env, w, rows).value.fills, r) || r.arm in ProcessAll(env, w, rows).value.deferred
    decreases |rows|
  {
    var earlier, last := rows[..|rows| - 1], rows[|rows| - 1];
    var w1 := ProcessAll(env, w, earlier).value;
    OneMoreRecord(w1.fills, FillRow(last.arm, last.decisionAt, OutcomeOf(env, w1, last)), r);
    if r in earlier {
      RecordedOrDeferred(env, w, earlier, r);
    }
  }

  // ---------------------------------------------------------------------------------------------
  // The worklist
  // ---------------------------------------------------------------------------------------------

  lemma {:induction false} WorklistInOrder(env: Env, fills: seq<FillRow>, sealed: seq<Sealed>)
    requires env.cal.Valid()
    ensures InOrder(Worklist(env, fills, sealed))
  {
    var rows := Worklist(env, fills, sealed);
    SortSorted(Pending(env, fills, sealed), DecisionKey);
    forall i, j | 0 <= i < j < |rows| ensures rows[i].decisionAt <= rows[j].decisionAt {
      SortedPair(rows, i, j);
    }
  }

  lemma {:induction false} SortedPair(rows: seq<Sealed>, i: nat, j: nat)
    requires IsSorted(rows, DecisionKey) && i < j < |rows|
    ensures rows[i].decisionAt <= rows[j].decisionAt
    decreases |rows|
  {
    if j == |rows| - 1 {
      LastIsGreatest(rows, i, DecisionKey);
    } else {
      SortedPair(rows[..|rows| - 1], i, j);
    }
  }

  /** A completed run, as the job's method promises it. */
  ghost predicate CompletedRun(env: Env, sealed: seq<Sealed>, before: seq<FillRow>, after: seq<FillRow>)
    requires env.cal.Valid()
  {
    var rows := Worklist(env, before, sealed);
    && Placed(env, rows) && AllDue(env, before, sealed) && AllPlaced(env, sealed, after)
    && ProcessAll(env, Work(before, {}), rows).Some?
    && ProcessAll(env, Work(before, {}), rows).value.fills == after
  }

  /** After every completed run its own reconcile reports no missing fill record: deferral never reads as a gap. */
  lemma {:induction false} NoFillRecordIsMissing(env: Env, sealed: seq<Sealed>, before: seq<FillRow>, after: seq<FillRow>, b: Break)
    requires env.Valid() && CompletedRun(env, sealed, before, after) && IsBreak(env, sealed, after, b)
    ensures !b.MissingFillRecord?
  {
    if b.MissingFillRecord? {
      var r := Sealed(b.arm, b.decisionAt);
      var rows := Worklist(env, before, sealed);
      WorklistListed(env, before, sealed);
      WorklistInOrder(env, before, sealed);
      OnlyListedAreRecorded(env, Work(before, {}), rows, r);
      if r in rows {
        UnrecordedIsNotOwed(env, Work(before, {}), rows, r);
      } else {
        LaterDecisionIsDueLater(env, r, r);
      }
    }
  }

  // ---------------------------------------------------------------------------------------------
  // Outcomes form a prefix
  // ---------------------------------------------------------------------------------------------

  /** Of each arm's sealed decisions, those recorded come before those not. */
  ghost predicate RecordedIsPrefix(sealed: seq<Sealed>, fills: seq<FillRow>) {
    forall a, b :: a in sealed && b in sealed && a.arm == b.arm && a.decisionAt < b.decisionAt && IsRecorded(fills, b) ==> IsRecorded(fills, a)
  }

  lemma {:induction false} PendingNoDuplicates(env: Env, fills: seq<FillRow>, sealed: seq<Sealed>)
    requires env.cal.Valid() && NoDuplicates(sealed)
    ensures NoDuplicates(Pending(env, fills, sealed))
    decreases |sealed|
  {
    if sealed != [] {
      var earlier, last := sealed[..|sealed| - 1], sealed[|sealed| - 1];
      PendingNoDuplicates(env, fills, earlier);
      PendingListed(env, fills, earlier);
      LastIsNew(sealed);
    }
  }

  lemma {:induction false} InsertNoDuplicates(rows: seq<Sealed>, r: Sealed)
    requires NoDuplicates(rows) && r !in rows
    ensures NoDuplicates(Insert(rows, r, DecisionKey))
    decreases |rows|
  {
    if rows != [] && !Leq(DecisionKey(rows[|rows| - 1]), DecisionKey(r)) {
      var front, last := rows[..|rows| - 1], rows[|rows| - 1];
      InsertNoDuplicates(front, r);
      InsertContains(front, r, DecisionKey);
      LastIsNew(rows);
    }
  }

  lemma {:induction false} SortNoDuplicates(rows: seq<Sealed>)
    requires NoDuplicates(rows)
    ensures NoDuplicates(Sort(rows, DecisionKey))
    decreases |rows|
  {
    if rows != [] {
      var front, last := rows[..|rows| - 1], rows[|rows| - 1];
      SortNoDuplicates(front);
      SortContains(front, DecisionKey);
      LastIsNew(rows);
      InsertNoDuplicates(Sort(front, DecisionKey), last);
    }
  }

  lemma {:induction false} EarlierStandsFirst(rows: seq<Sealed>, i: nat, j: nat)
    requires InOrder(rows) && i < |rows| && j < |rows| && rows[i].decisionAt < rows[j].decisionAt
    ensures i < j
  {
  }

  /** Two decisions of one arm, the later recorded by this run: the earlier one is recorded too. */
  lemma {:induction false} RunKeepsPair(env: Env, sealed: seq<Sealed>, before: seq<FillRow>, after: seq<FillRow>, a: Sealed, b: Sealed)
    requires env.Valid() && NoDuplicates(sealed) && CompletedRun(env, sealed, before, after)
    requires a in sealed && b in sealed && a.arm == b.arm && a.decisionAt < b.decisionAt
    requires IsRecorded(after, b) && !IsRecorded(before, b) && !IsRecorded(before, a)
    ensures IsRecorded(after, a)
  {
    var rows := Worklist(env, before, sealed);
    WorklistListed(env, before, sealed);
    WorklistInOrder(env, before, sealed);
    PendingNoDuplicates(env, before, sealed);
    SortNoDuplicates(Pending(env, before, sealed));
    OnlyListedAreRecorded(env, Work(before, {}), rows, b);
    LaterDecisionIsDueLater(env, a, b);
    var i :| 0 <= i < |rows| && rows[i] == a;
    var j :| 0 <= j < |rows| && rows[j] == b;
    EarlierStandsFirst(rows, i, j);
    forall x | 0 <= x < |rows| ensures !IsRecorded(before, rows[x]) {
      assert rows[x] in rows;
    }
    RecordedFirst(env, Work(before, {}), rows, i, j);
  }

  /** A completed run keeps each arm's recorded outcomes a prefix of its sealed decisions. */
  lemma {:induction false} RunKeepsPrefix(env: Env, sealed: seq<Sealed>, before: seq<FillRow>, after: seq<FillRow>)
    requires env.Valid() && NoDuplicates(sealed) && CompletedRun(env, sealed, before, after)
    requires RecordedIsPrefix(sealed, before)
    ensures RecordedIsPrefix(sealed, after)
  {
    var rows := Worklist(env, before, sealed);
    forall a, b | a in sealed && b in sealed && a.arm == b.arm && a.decisionAt < b.decisionAt && IsRecorded(after, b)
      ensures IsRecorded(after, a)
    {
      if IsRecorded(before, a) {
        OnlyListedAreRecorded(env, Work(before, {}), rows, a);
      } else {
        RunKeepsPair(env, sealed, before, after, a, b);
      }
    }
  }

  // ---------------------------------------------------------------------------------------------
  // Any series of sealings and runs
  // ---------------------------------------------------------------------------------------------

  datatype Ledgers = Ledgers(sealed: seq<Sealed>, fills: seq<FillRow>)

  /** A decision sealed after every one its arm has, a completed run, or a run that threw. */
  ghost predicate Step(a: Ledgers, b: Ledgers) {
    || (exists r :: b == Ledgers(a.sealed + [r], a.fills) && forall x :: x in a.sealed && x.arm == r.arm ==> x.decisionAt < r.decisionAt)
    || (b.sealed == a.sealed && exists env: Env :: env.Valid() && CompletedRun(env, a.sealed, a.fills, b.fills))
    || b == a
  }

  ghost predicate InOrderSoFar(s: Ledgers) {
    && NoDuplicates(s.sealed) && RecordedIsPrefix(s.sealed, s.fills)
    && (forall r :: IsRecorded(s.fills, r) ==> r in s.sealed)
  }

  lemma {:induction false} StepKeepsPrefix(a: Ledgers, b: Ledgers)
    requires InOrderSoFar(a) && Step(a, b)
    ensures InOrderSoFar(b)
  {
    if b.sealed == a.sealed && exists env: Env :: env.Valid() && CompletedRun(env, a.sealed, a.fills, b.fills) {
      var env: Env :| env.Valid() && CompletedRun(env, a.sealed, a.fills, b.fills);
      RunKeepsPrefix(env, a.sealed, a.fills, b.fills);
      WorklistListed(env, a.fills, a.sealed);
      forall r | IsRecorded(b.fills, r) ensures r in b.sealed {
        OnlyListedAreRecorded(env, Work(a.fills, {}), Worklist(env, a.fills, a.sealed), r);
      }
    }
  }

  /** While decisions are sealed in order, each arm's outcomes stay a prefix of its decisions, whatever the runs see. */
  lemma {:induction false} OutcomesStayAPrefix(trace: seq<Ledgers>)
    requires trace != [] && trace[0] == Ledgers([], [])
    requires forall i :: 0 < i < |trace| ==> Step(trace[i - 1], trace[i])
    ensures InOrderSoFar(trace[|trace| - 1])
    decreases |trace|
  {
    if |trace| > 1 {
      OutcomesStayAPrefix(trace[..|trace| - 1]);
      StepKeepsPrefix(trace[|trace| - 2], trace[|trace| - 1]);
    }
  }
}
