/**
 * Which decisions a run of the fill job records, in terms of the ledgers, the observed windows and the owed sessions:
 * what is recorded is final, and the first decision an arm leaves unrecorded is not.
 */
module ShadowFillJobOutcomes {
  import opened Wrappers
  import opened StableSort
  import opened ShadowCalendar
  import opened ShadowFillJob
  import opened ShadowFillJobLaws

  // ---------------------------------------------------------------------------------------------
  // The calendar and the windows by index
  // ---------------------------------------------------------------------------------------------

  /** The last session closed by an instant, or none. */
  lemma {:induction false} PreviousSessionIs(cal: Calendar, before: Instant, i: nat)
    requires cal.Valid()
    ensures i < |cal.sessions| && cal.closes[i] <= before && (i + 1 < |cal.sessions| ==> before < cal.closes[i + 1]) ==>
              PreviousSession(cal, before) == Some(cal.sessions[i])
    ensures (forall k :: 0 <= k < |cal.closes| ==> before < cal.closes[k]) ==> PreviousSession(cal, before).None?
    decreases |cal.sessions|
  {
    if cal.sessions != [] && before < cal.closes[|cal.sessions| - 1] {
      var n := |cal.sessions| - 1;
      PreviousSessionIs(Calendar(cal.sessions[..n], cal.closes[..n]), before, i);
    }
  }

  /** A decision's session is the last one closed by its instant less the charter's offset. */
  lemma {:induction false} SessionIs(env: Env, r: Sealed, i: nat)
    requires env.Valid() && i < |env.cal.sessions|
    requires env.cal.closes[i] + env.offset <= r.decisionAt
    requires i + 1 < |env.cal.sessions| ==> r.decisionAt < env.cal.closes[i + 1] + env.offset
    ensures SessionOf(env, r) == Some(env.cal.sessions[i])
  {
    PreviousSessionIs(env.cal, r.decisionAt - env.offset, i);
  }

  lemma {:induction false} DatesFrom(sessions: seq<Date>, i: nat, to: Date, k: nat)
    requires Ascending(sessions) && i < |sessions|
    ensures var dates := SessionDates(sessions, sessions[i], to);
            if i + k < |sessions| && sessions[i + k] <= to then k < |dates| && dates[k] == sessions[i + k] else k >= |dates|
    decreases |sessions|
  {
    var rest := sessions[1..];
    RestIsLater(sessions);
    if i > 0 {
      assert rest[i - 1] == sessions[i];
      DatesFrom(rest, i - 1, to, k);
    } else if sessions[0] > to {
      NothingAfter(rest, sessions[0], to);
      assert k > 0 ==> i + k < |sessions| ==> sessions[0] < sessions[k];
    } else if rest == [] {
      assert SessionDates(rest, sessions[0], to) == [];
    } else {
      assert forall s :: s in rest ==> s >= rest[0] by {
        RestIsLater(rest);
      }
      SameFrom(rest, sessions[0], rest[0], to);
      if k > 0 {
        DatesFrom(rest, 0, to, k - 1);
      }
    }
  }

  /** The due session is the `k`-th session after the decision's, if it lies within the horizon. */
  lemma {:induction false} DueIsKth(cal: Calendar, i: nat, k: nat)
    requires cal.Valid() && i < |cal.sessions|
    ensures FillDueSession(cal, cal.sessions[i], k)
            == if k == 0 then Some(cal.sessions[i])
               else if i + k < |cal.sessions| && cal.sessions[i + k] <= cal.sessions[i] + (k * 8 + 4) / 5 + 14 then Some(cal.sessions[i + k])
               else None
  {
    if k > 0 {
      DatesFrom(cal.sessions, i, cal.sessions[i] + (k * 8 + 4) / 5 + 14, k);
    }
  }

  /** The bar at `a` is the latest by the session, which it must be on when there is no delay. */
  predicate Anchors(bars: seq<Date>, a: nat, session: Date, delayBars: nat) {
    && a < |bars| && bars[a] <= session && (delayBars == 0 ==> bars[a] == session)
    && (a + 1 < |bars| ==> session < bars[a + 1])
  }

  lemma {:induction false} AnchorFound(bars: seq<Date>, a: nat, session: Date, delayBars: nat)
    requires Ascending(bars) && Anchors(bars, a, session, delayBars)
    ensures AnchorIndex(bars, session, delayBars) == Some(a)
    decreases |bars|
  {
    var n := |bars| - 1;
    if a < n {
      assert bars[a + 1] <= bars[n];
      assert Anchors(bars[..n], a, session, delayBars);
      AnchorFound(bars[..n], a, session, delayBars);
    }
  }

  lemma {:induction false} AnchorIsOne(bars: seq<Date>, session: Date, delayBars: nat)
    requires Ascending(bars) && AnchorIndex(bars, session, delayBars).Some?
    ensures Anchors(bars, AnchorIndex(bars, session, delayBars).value, session, delayBars)
  {
    AnchorIsLast(bars, session, delayBars);
    if delayBars == 0 {
      ZeroDelayAnchor(bars, session);
    }
  }

  /**
   * A window is observed exactly when the entity has an anchor bar and, after it, as many bars as the delay, at least
   * one, and the fill bars that follow the first attempt.
   */
  lemma {:induction false} ObservedIff(env: Env, entityId: EntityId, session: Date)
    requires entityId in env.bars ==> Ascending(env.bars[entityId])
    ensures WindowObserved(env, entityId, session) <==>
      entityId in env.bars
      && exists a: nat :: Anchors(env.bars[entityId], a, session, env.delayBars)
           && |env.bars[entityId]| - 1 - a >= (if env.delayBars == 0 then 1 else env.delayBars) + env.maxFillBars - 1
  {
    if entityId in env.bars {
      var bars := env.bars[entityId];
      if AnchorIndex(bars, session, env.delayBars).Some? {
        AnchorIsOne(bars, session, env.delayBars);
      }
      forall a: nat | Anchors(bars, a, session, env.delayBars) ensures AnchorIndex(bars, session, env.delayBars) == Some(a) {
        AnchorFound(bars, a, session, env.delayBars);
      }
    }
  }

  // ---------------------------------------------------------------------------------------------
  // Final outcomes
  // ---------------------------------------------------------------------------------------------

  /** No later bar can add to it: every remainder that is not for want of cash has its window observed. */
  predicate IsSettled(env: Env, r: Sealed, unfilled: seq<Unfilled>)
    requires env.cal.Valid()
  {
    SessionOf(env, r).Some?
    && forall u :: u in unfilled && u.reason != Cash ==> WindowObserved(env, u.entityId, SessionOf(env, r).value)
  }

  predicate IsOwed(env: Env, r: Sealed)
    requires env.cal.Valid()
  {
    Owed(env, r).Some? && Owed(env, r).value <= env.session
  }

  /** Row `i` of a run's ledger records a pending decision, after the arm's outcomes before it, and is final. */
  ghost predicate IsFinalRow(env: Env, sealed: seq<Sealed>, before: seq<FillRow>, after: seq<FillRow>, i: nat)
    requires env.cal.Valid() && i < |after|
  {
    var f := after[i];
    var r := Sealed(f.arm, f.decisionAt);
    && r in sealed && IsPending(env, before, r)
    && f.unfilled == env.outcome(r, OfArm(after[..i], f.arm))
    && (IsSettled(env, r, f.unfilled) || IsOwed(env, r))
  }

  /** The arm's rows, and no other. */
  lemma {:induction false} OfArmAre(fills: seq<FillRow>, arm: Arm, f: FillRow)
    ensures multiset(OfArm(fills, arm))[f] == if f.arm == arm then multiset(fills)[f] else 0
    decreases |fills|
  {
    if fills != [] {
      var front, last := fills[..|fills| - 1], fills[|fills| - 1];
      OfArmAre(front, arm, f);
      assert fills == front + [last];
    }
  }

  lemma {:induction false} OneMoreOfArm(fills: seq<FillRow>, f: FillRow, arm: Arm)
    ensures OfArm(fills + [f], arm) == if f.arm == arm then OfArm(fills, arm) + [f] else OfArm(fills, arm)
  {
    assert (fills + [f])[..|fills|] == fills;
  }

  lemma {:induction false} RunAppends(env: Env, w: Work, rows: seq<Sealed>)
    requires env.Valid() && Placed(env, rows) && ProcessAll(env, w, rows).Some?
    ensures w.fills <= ProcessAll(env, w, rows).value.fills
    decreases |rows|
  {
    if rows != [] {
      RunAppends(env, w, rows[..|rows| - 1]);
    }
  }

  /** What one listed decision does: it waits, it defers its arm and is not final, or it is recorded and final. */
  lemma {:induction false} ProcessedIs(env: Env, w: Work, r: Sealed)
    requires env.Valid() && SessionOf(env, r).Some? && Processed(env, w, r).Some?
    ensures var after := Processed(env, w, r).value;
            var unfilled := OutcomeOf(env, w, r);
            if r.arm in w.deferred then after == w
            else if IsSettled(env, r, unfilled) || IsOwed(env, r) then
              after == Work(w.fills + [FillRow(r.arm, r.decisionAt, unfilled)], w.deferred)
            else after == Work(w.fills, w.deferred + {r.arm})
  {
  }

  lemma {:induction false} AppendedRow(env: Env, w: Work, rows: seq<Sealed>, i: nat)
    requires env.Valid() && Placed(env, rows) && ProcessAll(env, w, rows).Some?
    requires |w.fills| <= i < |ProcessAll(env, w, rows).value.fills|
    ensures var after := ProcessAll(env, w, rows).value.fills;
            var r := Sealed(after[i].arm, after[i].decisionAt);
            && r in rows && after[i].unfilled == env.outcome(r, OfArm(after[..i], r.arm))
            && (IsSettled(env, r, after[i].unfilled) || IsOwed(env, r))
    decreases |rows|
  {
    var earlier, last := rows[..|rows| - 1], rows[|rows| - 1];
    var w1 := ProcessAll(env, w, earlier).value;
    var after := ProcessAll(env, w, rows).value.fills;
    ProcessedIs(env, w1, last);
    if i < |w1.fills| {
      AppendedRow(env, w, earlier, i);
      assert w1.fills[..i] == after[..i];
    } else {
      assert after[..i] == w1.fills;
    }
  }

  /** Every outcome a completed run newly records is final: settled by the bars it saw, or owed by its session. */
  lemma {:induction false} RecordedIsFinal(env: Env, sealed: seq<Sealed>, before: seq<FillRow>, after: seq<FillRow>, i: nat)
    requires env.Valid() && CompletedRun(env, sealed, before, after)
    requires |before| <= i < |after|
    ensures before <= after && IsFinalRow(env, sealed, before, after, i)
  {
    var rows := Worklist(env, before, sealed);
    RunAppends(env, Work(before, {}), rows);
    WorklistListed(env, before, sealed);
    AppendedRow(env, Work(before, {}), rows, i);
  }

  // ---------------------------------------------------------------------------------------------
  // What is left unrecorded
  // ---------------------------------------------------------------------------------------------

  /** The decision that deferred an arm: neither settled nor owed, unrecorded, and none of its arm before it is. */
  ghost predicate Defers(env: Env, after: seq<FillRow>, rows: seq<Sealed>, k: nat)
    requires env.cal.Valid() && k < |rows|
  {
    var d := rows[k];
    && !IsRecorded(after, d)
    && !IsSettled(env, d, env.outcome(d, OfArm(after, d.arm))) && !IsOwed(env, d)
    && forall x :: x in rows[..k] && x.arm == d.arm ==> IsRecorded(after, x)
  }

  lemma {:induction false} NotOfArm(env: Env, w: Work, rows: seq<Sealed>, arm: Arm, r: Sealed)
    requires env.Valid() && rows != [] && Placed(env, rows) && ProcessAll(env, w, rows).Some? && r.arm == arm
    requires arm in ProcessAll(env, w, rows[..|rows| - 1]).value.deferred
    ensures var w1, w2 := ProcessAll(env, w, rows[..|rows| - 1]).value, ProcessAll(env, w, rows).value;
            OfArm(w2.fills, arm) == OfArm(w1.fills, arm) && (IsRecorded(w2.fills, r) <==> IsRecorded(w1.fills, r))
  {
    var w1, last := ProcessAll(env, w, rows[..|rows| - 1]).value, rows[|rows| - 1];
    var f := FillRow(last.arm, last.decisionAt, OutcomeOf(env, w1, last));
    ProcessedIs(env, w1, last);
    OneMoreOfArm(w1.fills, f, arm);
    OneMoreRecord(w1.fills, f, r);
  }

  lemma {:induction false} DefersStill(env: Env, w: Work, rows: seq<Sealed>, k: nat)
    requires env.Valid() && rows != [] && Placed(env, rows) && ProcessAll(env, w, rows).Some? && k < |rows| - 1
    requires var w1 := ProcessAll(env, w, rows[..|rows| - 1]).value;
             rows[k].arm in w1.deferred && Defers(env, w1.fills, rows[..|rows| - 1], k)
    ensures Defers(env, ProcessAll(env, w, rows).value.fills, rows, k)
  {
    var front := rows[..|rows| - 1];
    var w1, w2 := ProcessAll(env, w, front).value, ProcessAll(env, w, rows).value;
    NotOfArm(env, w, rows, rows[k].arm, rows[k]);
    assert front[..k] == rows[..k];
    forall x | x in rows[..k] && x.arm == rows[k].arm ensures IsRecorded(w2.fills, x) {
      NotOfArm(env, w, rows, rows[k].arm, x);
    }
  }

  lemma {:induction false} DeferringDecision(env: Env, w: Work, rows: seq<Sealed>, arm: Arm) returns (k: nat)
    requires env.Valid() && Placed(env, rows) && ProcessAll(env, w, rows).Some? && NoDuplicates(rows)
    requires forall x :: x in rows ==> !IsRecorded(w.fills, x)
    requires arm !in w.deferred && arm in ProcessAll(env, w, rows).value.deferred
    ensures k < |rows| && rows[k].arm == arm && Defers(env, ProcessAll(env, w, rows).value.fills, rows, k)
    decreases |rows|
  {
    var front, last := rows[..|rows| - 1], rows[|rows| - 1];
    var w1 := ProcessAll(env, w, front).value;
    ProcessedIs(env, w1, last);
    if arm in w1.deferred {
      k := DeferringDecision(env, w, front, arm);
      DefersStill(env, w, rows, k);
    } else {
      k := |rows| - 1;
      LastIsNew(rows);
      OnlyListedAreRecorded(env, w, front, last);
      forall x | x in rows[..k] && x.arm == arm ensures IsRecorded(w1.fills, x) {
        RecordedOrDeferred(env, w, front, x);
      }
    }
  }

  /** Every earlier decision of its arm is recorded. */
  ghost predicate IsNext(sealed: seq<Sealed>, fills: seq<FillRow>, r: Sealed) {
    forall q :: q in sealed && q.arm == r.arm && q.decisionAt < r.decisionAt ==> IsRecorded(fills, q)
  }

  lemma {:induction false} RecordedRow(fills: seq<FillRow>, r: Sealed) returns (i: nat)
    requires IsRecorded(fills, r)
    ensures i < |fills| && fills[i].arm == r.arm && fills[i].decisionAt == r.decisionAt
  {
    var f :| f in fills && f.arm == r.arm && f.decisionAt == r.decisionAt;
    i :| 0 <= i < |fills| && fills[i] == f;
  }

  lemma {:induction false} RowIsRecorded(before: seq<FillRow>, after: seq<FillRow>, i: nat)
    requires before <= after && i < |after|
    ensures i < |before| ==> IsRecorded(before, Sealed(after[i].arm, after[i].decisionAt))
  {
    if i < |before| {
      assert before[i] in before;
    }
  }

  lemma {:induction false} StandsIn(rows: seq<Sealed>, j: nat, k: nat)
    requires j < |rows| && k <= |rows|
    ensures j < k ==> rows[j] in rows[..k]
  {
    if j < k {
      assert rows[..k][j] == rows[j];
    }
  }

  lemma {:induction false} StandsAfter(rows: seq<Sealed>, k: nat, j: nat)
    requires InOrder(rows) && k < |rows| && j < |rows|
    ensures k < j ==> rows[k].decisionAt <= rows[j].decisionAt
  {
  }

  /**
   * A pending decision whose arm has no earlier one left unrecorded is recorded, and with a final outcome; or it is left
   * because its outcome, after everything the arm has recorded, has a remainder whose window is not observed and it is
   * not owed yet.
   */
  lemma {:induction false} LeftOnlyWhenOpen(env: Env, sealed: seq<Sealed>, before: seq<FillRow>, after: seq<FillRow>, r: Sealed)
    requires env.Valid() && NoDuplicates(sealed) && CompletedRun(env, sealed, before, after)
    requires r in sealed && IsPending(env, before, r) && IsNext(sealed, after, r)
    ensures !IsRecorded(after, r) ==> !IsSettled(env, r, env.outcome(r, OfArm(after, r.arm))) && !IsOwed(env, r)
    ensures IsRecorded(after, r) ==>
      exists i :: |before| <= i < |after| && Sealed(after[i].arm, after[i].decisionAt) == r && IsFinalRow(env, sealed, before, after, i)
  {
    var rows := Worklist(env, before, sealed);
    WorklistListed(env, before, sealed);
    if IsRecorded(after, r) {
      RunAppends(env, Work(before, {}), rows);
      var i := RecordedRow(after, r);
      RowIsRecorded(before, after, i);
      RecordedIsFinal(env, sealed, before, after, i);
    } else {
      WorklistInOrder(env, before, sealed);
      PendingNoDuplicates(env, before, sealed);
      SortNoDuplicates(Pending(env, before, sealed));
      RecordedOrDeferred(env, Work(before, {}), rows, r);
      var k := DeferringDecision(env, Work(before, {}), rows, r.arm);
      assert rows[k] in rows;
      var j :| 0 <= j < |rows| && rows[j] == r;
      StandsIn(rows, j, k);
      StandsAfter(rows, k, j);
    }
  }

  /** So a decision whose outcome is settled or owed when the arm's earlier ones are recorded is recorded by the run. */
  lemma {:induction false} FinalIsRecorded(env: Env, sealed: seq<Sealed>, before: seq<FillRow>, after: seq<FillRow>, r: Sealed)
    requires env.Valid() && NoDuplicates(sealed) && CompletedRun(env, sealed, before, after)
    requires r in sealed && IsPending(env, before, r) && IsNext(sealed, after, r)
    requires IsOwed(env, r) || IsSettled(env, r, env.outcome(r, OfArm(after, r.arm)))
    ensures IsRecorded(after, r)
  {
    LeftOnlyWhenOpen(env, sealed, before, after, r);
  }

  // ---------------------------------------------------------------------------------------------
  // The order of the record
  // ---------------------------------------------------------------------------------------------

  lemma {:induction false} AppendedFrom(env: Env, w: Work, rows: seq<Sealed>, i: nat, j: nat) returns (m: nat, n: nat)
    requires env.Valid() && Placed(env, rows) && ProcessAll(env, w, rows).Some?
    requires |w.fills| <= i < j < |ProcessAll(env, w, rows).value.fills|
    ensures m < n < |rows|
    ensures var after := ProcessAll(env, w, rows).value.fills;
            rows[m] == Sealed(after[i].arm, after[i].decisionAt) && rows[n] == Sealed(after[j].arm, after[j].decisionAt)
    decreases |rows|
  {
    var front, last := rows[..|rows| - 1], rows[|rows| - 1];
    var w1 := ProcessAll(env, w, front).value;
    ProcessedIs(env, w1, last);
    if j < |w1.fills| {
      m, n := AppendedFrom(env, w, front, i, j);
    } else {
      AppendedRow(env, w, front, i);
      var r := Sealed(w1.fills[i].arm, w1.fills[i].decisionAt);
      m :| 0 <= m < |front| && front[m] == r;
      n := |rows| - 1;
    }
  }

  /** A run records by decision instant, and at one instant by arm. */
  lemma {:induction false} RecordedInOrder(env: Env, sealed: seq<Sealed>, before: seq<FillRow>, after: seq<FillRow>, i: nat, j: nat)
    requires env.Valid() && CompletedRun(env, sealed, before, after)
    requires |before| <= i < j < |after|
    ensures after[i].decisionAt < after[j].decisionAt || (after[i].decisionAt == after[j].decisionAt && after[i].arm <= after[j].arm)
  {
    var rows := Worklist(env, before, sealed);
    var m, n := AppendedFrom(env, Work(before, {}), rows, i, j);
    SortSorted(Pending(env, before, sealed), DecisionKey);
    SortedPairs(rows, m, n, DecisionKey);
  }

  /** A run never records a decision that is not due, or one already recorded, and never drops or changes a record. */
  lemma {:induction false} OnlyPendingIsRecorded(env: Env, sealed: seq<Sealed>, before: seq<FillRow>, after: seq<FillRow>, r: Sealed)
    requires env.Valid() && CompletedRun(env, sealed, before, after) && IsRecorded(after, r) && !IsRecorded(before, r)
    ensures r in sealed && Due(env, r).Some? && Due(env, r).value <= env.session
    ensures before <= after
  {
    var rows := Worklist(env, before, sealed);
    RunAppends(env, Work(before, {}), rows);
    WorklistListed(env, before, sealed);
    OnlyListedAreRecorded(env, Work(before, {}), rows, r);
  }

  // ---------------------------------------------------------------------------------------------
  // What the run reports
  // ---------------------------------------------------------------------------------------------

  /** After a completed run a sealed decision is recorded, or it is owed at a session still to come. */
  lemma {:induction false} RecordedOrOwedLater(env: Env, sealed: seq<Sealed>, before: seq<FillRow>, after: seq<FillRow>, r: Sealed)
    requires env.Valid() && CompletedRun(env, sealed, before, after) && r in sealed
    ensures IsRecorded(after, r) || (Owed(env, r).Some? && env.session < Owed(env, r).value)
  {
    if !IsRecorded(after, r) && Owed(env, r).Some? && Owed(env, r).value <= env.session {
      var b := MissingFillRecord(r.arm, r.decisionAt);
      assert Sealed(b.arm, b.decisionAt) == r;
      assert IsBreak(env, sealed, after, b);
      NoFillRecordIsMissing(env, sealed, before, after, b);
    }
  }

  /** The reconciler stops exactly at a decision that has no record and whose owed session the calendar does not reach. */
  lemma {:induction false} StopsIff(env: Env, sealed: seq<Sealed>, fills: seq<FillRow>)
    requires env.Valid()
    ensures !AllPlaced(env, sealed, fills) <==>
      exists i :: 0 <= i < |sealed| && Owed(env, sealed[i]).None? && !IsRecorded(fills, sealed[i])
  {
    if r :| r in sealed && !IsRecorded(fills, r) && Owed(env, r).None? {
      var i :| 0 <= i < |sealed| && sealed[i] == r;
    }
    if i :| 0 <= i < |sealed| && Owed(env, sealed[i]).None? && !IsRecorded(fills, sealed[i]) {
      assert sealed[i] in sealed;
    }
  }

  /** Every remainder a record lists that is not for want of cash is reported, under its own arm, instant and entity. */
  lemma {:induction false} RemainderIsReported(env: Env, sealed: seq<Sealed>, fills: seq<FillRow>, i: nat, k: nat)
    requires env.Valid() && i < |fills| && k < |fills[i].unfilled|
    ensures fills[i].unfilled[k].reason != Cash ==>
      IsBreak(env, sealed, fills, UnfilledRemainder(fills[i].arm, fills[i].decisionAt, fills[i].unfilled[k].entityId))
  {
    assert fills[i] in fills && fills[i].unfilled[k] in fills[i].unfilled;
  }

  /** No remainder is reported exactly when every one listed is for want of cash. */
  lemma {:induction false} NoRemainderIff(env: Env, sealed: seq<Sealed>, fills: seq<FillRow>)
    requires env.Valid()
    ensures (forall b: Break :: IsBreak(env, sealed, fills, b) ==> !b.UnfilledRemainder?) <==>
      forall i, k :: 0 <= i < |fills| && 0 <= k < |fills[i].unfilled| ==> fills[i].unfilled[k].reason == Cash
  {
    if i, k :| 0 <= i < |fills| && 0 <= k < |fills[i].unfilled| && fills[i].unfilled[k].reason != Cash {
      RemainderIsReported(env, sealed, fills, i, k);
    }
    if b: Break :| b.UnfilledRemainder? && IsBreak(env, sealed, fills, b) {
      var f, u :| f in fills && u in f.unfilled && u.entityId == b.entityId && u.reason != Cash;
      var i :| 0 <= i < |fills| && fills[i] == f;
      var k :| 0 <= k < |fills[i].unfilled| && fills[i].unfilled[k] == u;
    }
  }

  /** A session's negative cash is reported for an arm exactly when its replayed book lists such a session. */
  lemma {:induction false} CashIsReportedIff(env: Env, sealed: seq<Sealed>, fills: seq<FillRow>, arm: Arm, session: Date)
    requires env.Valid()
    ensures IsBreak(env, sealed, fills, NegativeCash(arm, session)) <==>
      arm in env.arms && exists i :: 0 <= i < |env.bookCash(arm, fills)| && env.bookCash(arm, fills)[i].0 == session && env.bookCash(arm, fills)[i].1 < 0.0
  {
    var points := env.bookCash(arm, fills);
    if p :| p in points && p.0 == session && p.1 < 0.0 {
      var i :| 0 <= i < |points| && points[i] == p;
    }
    if i :| 0 <= i < |points| && points[i].0 == session && points[i].1 < 0.0 {
      assert points[i] in points;
    }
  }

  /** Some decision of the arm, or of any arm, was sealed at the session. */
  ghost predicate WasSealed(env: Env, sealed: seq<Sealed>, arm: Option<Arm>, session: Date)
    requires env.cal.Valid()
  {
    exists i :: 0 <= i < |sealed| && SessionOf(env, sealed[i]) == Some(session) && (arm.Some? ==> sealed[i].arm == arm.value)
  }

  /**
   * From the first session with a sealed decision on, each weekly session through the run's at which an arm has none is
   * reported for that arm, and no other.
   */
  lemma {:induction false} MissingDecisionIff(env: Env, sealed: seq<Sealed>, fills: seq<FillRow>, arm: Arm, session: Date)
    requires env.Valid()
    ensures IsBreak(env, sealed, fills, MissingDecisionRecord(arm, session)) <==>
      && arm in env.arms && session in env.cal.sessions && env.isWeekly(session) && session <= env.session
      && (exists first: Date :: first <= session && WasSealed(env, sealed, None, first))
      && !WasSealed(env, sealed, Some(arm), session)
  {
    if IsSealedOn(env, sealed, arm, session) {
      var r :| r in sealed && r.arm == arm && SessionOf(env, r) == Some(session);
      var i :| 0 <= i < |sealed| && sealed[i] == r;
    }
    if r :| r in sealed && SessionOf(env, r).Some? && SessionOf(env, r).value <= session {
      var i :| 0 <= i < |sealed| && sealed[i] == r;
      assert WasSealed(env, sealed, None, SessionOf(env, r).value);
    }
    if first: Date :| first <= session && WasSealed(env, sealed, None, first) {
      var i :| 0 <= i < |sealed| && SessionOf(env, sealed[i]) == Some(first);
      assert sealed[i] in sealed;
    }
    if i :| 0 <= i < |sealed| && SessionOf(env, sealed[i]) == Some(session) && sealed[i].arm == arm {
      assert sealed[i] in sealed;
    }
  }
}
