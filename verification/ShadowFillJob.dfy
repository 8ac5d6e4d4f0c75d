/**
 * The fill job and the reconciler it ends with: which sealed decisions a run fills, which it defers, and what it
 * reports.  What one decision's fills come to is a function of the decision and of the arm's earlier outcomes.
 */
module ShadowFillJob {
  import opened Wrappers
  import opened StableSort
  import opened ShadowCalendar

  type Arm = nat
  type EntityId = nat

  datatype Sealed = Sealed(arm: Arm, decisionAt: Instant)

  datatype Remainder = Cash | Liquidity | NoBars
  datatype Unfilled = Unfilled(entityId: EntityId, reason: Remainder)
  datatype FillRow = FillRow(arm: Arm, decisionAt: Instant, unfilled: seq<Unfilled>)

  /** Everything one run reads besides the ledgers. */
  datatype Env = Env(
    cal: Calendar,
    /** Last completed session. */
    session: Date,
    /** Every decision instant's session: the calendar inverted by the charter's offset. */
    offset: Instant,
    delayBars: nat,
    maxFillBars: nat,
    arms: seq<Arm>,
    isWeekly: Date -> bool,
    /** Each entity's own bars, session-ordered. */
    bars: map<EntityId, seq<Date>>,
    /** The counterfactual outcome of a decision after the arm's earlier outcomes. */
    outcome: (Sealed, seq<FillRow>) -> seq<Unfilled>,
    /** Replayed cash of each arm, by session, after the given outcomes. */
    bookCash: (Arm, seq<FillRow>) -> seq<(Date, real)>)
  {
    ghost predicate Valid() {
      cal.Valid() && maxFillBars >= 1
    }
  }

  datatype JobError = NoSuchSession

  function SessionOf(env: Env, r: Sealed): Option<Date>
    requires env.cal.Valid()
  {
    if r.decisionAt < env.offset then None else PreviousSession(env.cal, r.decisionAt - env.offset)
  }

  function Due(env: Env, r: Sealed): Option<Date>
    requires env.cal.Valid()
  {
    match SessionOf(env, r)
    case None => None
    case Some(s) => FillDueSession(env.cal, s, env.delayBars)
  }

  function Owed(env: Env, r: Sealed): Option<Date>
    requires env.cal.Valid()
  {
    match SessionOf(env, r)
    case None => None
    case Some(s) => FillOwedSession(env.cal, s, env.delayBars, env.maxFillBars)
  }

  predicate IsRecorded(fills: seq<FillRow>, r: Sealed) {
    exists f :: f in fills && f.arm == r.arm && f.decisionAt == r.decisionAt
  }

  // ---------------------------------------------------------------------------------------------
  // When a simulator window has been observed
  // ---------------------------------------------------------------------------------------------

  /** The bar the simulator anchors on: the decision session's own, or with a delay the latest before it. */
  function AnchorIndex(bars: seq<Date>, decisionSession: Date, delayBars: nat): Option<nat>
    decreases |bars|
  {
    if bars == [] then None
    else
      var n := |bars| - 1;
      if bars[n] == decisionSession || (bars[n] < decisionSession && delayBars > 0) then Some(n)
      else AnchorIndex(bars[..n], decisionSession, delayBars)
  }

  /** The entity's own bars cover the simulator's whole window. */
  predicate WindowObserved(env: Env, entityId: EntityId, decisionSession: Date) {
    && entityId in env.bars
    && var anchor := AnchorIndex(env.bars[entityId], decisionSession, env.delayBars);
       && anchor.Some?
       && |env.bars[entityId]| > anchor.value + AtLeastOne(env.delayBars) + env.maxFillBars - 1
  }

  lemma {:induction false} LaterBarsKeepTheAnchor(bars: seq<Date>, more: seq<Date>, decisionSession: Date, delayBars: nat)
    requires forall d :: d in more ==> d > decisionSession
    ensures AnchorIndex(bars + more, decisionSession, delayBars) == AnchorIndex(bars, decisionSession, delayBars)
    decreases |more|
  {
    if more == [] {
      assert bars + more == bars;
    } else {
      var m := |more| - 1;
      var all := bars + more;
      assert all[..|all| - 1] == bars + more[..m];
      assert all[|all| - 1] == more[m] && more[m] in more && forall d :: d in more[..m] ==> d in more;
      LaterBarsKeepTheAnchor(bars, more[..m], decisionSession, delayBars);
    }
  }

  /** Bars that arrive later never reopen a window: an outcome sealed on an observed window stays final. */
  lemma {:induction false} ObservedStaysObserved(env: Env, entityId: EntityId, decisionSession: Date, more: seq<Date>)
    requires env.Valid() && WindowObserved(env, entityId, decisionSession)
    requires Ascending(env.bars[entityId] + more)
    ensures WindowObserved(env.(bars := env.bars[entityId := env.bars[entityId] + more]), entityId, decisionSession)
  {
    var bars := env.bars[entityId];
    var all := bars + more;
    forall i, j | 0 <= i < j < |bars| ensures bars[i] < bars[j] {
      assert all[i] == bars[i] && all[j] == bars[j];
    }
    AnchorIsLast(bars, decisionSession, env.delayBars);
    forall d | d in more ensures d > decisionSession {
      var i :| 0 <= i < |more| && more[i] == d;
      assert all[|bars| - 1] == bars[|bars| - 1] && all[|bars| + i] == d;
    }
    LaterBarsKeepTheAnchor(bars, more, decisionSession, env.delayBars);
  }

  /** An entity with a bar on every session has its window observed exactly when its bars reach the window's end session. */
  lemma {:induction false} EverySessionObservedIff(env: Env, entityId: EntityId, decisionSession: Date, first: Date, to: Date)
    requires env.Valid() && entityId in env.bars && env.bars[entityId] == SessionDates(env.cal.sessions, first, to)
    requires first <= decisionSession <= to && decisionSession in env.cal.sessions
    requires FillWindowEndSession(env.cal, decisionSession, env.delayBars, env.maxFillBars).Some?
    ensures WindowObserved(env, entityId, decisionSession)
            <==> FillWindowEndSession(env.cal, decisionSession, env.delayBars, env.maxFillBars).value <= to
  {
    var sessions := env.cal.sessions;
    var front := SessionsCutAt(sessions, first, decisionSession, to);
    var since := SessionDates(sessions, decisionSession, to);
    var upTo := front + [decisionSession];
    assert env.bars[entityId] == upTo + since[1..];
    LaterBarsKeepTheAnchor(upTo, since[1..], decisionSession, env.delayBars);
    var n := AtLeastOne(env.delayBars) + env.maxFillBars - 1;
    if n > 0 {
      KthWithin(sessions, decisionSession, to, decisionSession + (n * 8 + 4) / 5 + 14, n);
    }
  }

  lemma {:induction false} AnchorIsLast(bars: seq<Date>, decisionSession: Date, delayBars: nat)
    requires Ascending(bars) && AnchorIndex(bars, decisionSession, delayBars).Some?
    ensures var a := AnchorIndex(bars, decisionSession, delayBars).value;
            a < |bars| && bars[a] <= decisionSession && forall i :: a < i < |bars| ==> bars[i] > decisionSession
    decreases |bars|
  {
    var n := |bars| - 1;
    if !(bars[n] == decisionSession || (bars[n] < decisionSession && delayBars > 0)) {
      var a := AnchorIndex(bars[..n], decisionSession, delayBars).value;
      AnchorIsLast(bars[..n], decisionSession, delayBars);
      if bars[n] <= decisionSession {
        assert bars[..n][a] == bars[a];
        ZeroDelayAnchor(bars[..n], decisionSession);
      }
    }
  }

  lemma {:induction false} ZeroDelayAnchor(bars: seq<Date>, decisionSession: Date)
    ensures AnchorIndex(bars, decisionSession, 0).Some? ==>
              AnchorIndex(bars, decisionSession, 0).value < |bars| && bars[AnchorIndex(bars, decisionSession, 0).value] == decisionSession
    decreases |bars|
  {
    if bars != [] {
      ZeroDelayAnchor(bars[..|bars| - 1], decisionSession);
    }
  }

  // ---------------------------------------------------------------------------------------------
  // The reconciler
  // ---------------------------------------------------------------------------------------------

  datatype Break =
    | MissingDecisionRecord(arm: Arm, session: Date)
    | MissingFillRecord(arm: Arm, decisionAt: Instant)
    | UnfilledRemainder(arm: Arm, decisionAt: Instant, entityId: EntityId)
    | NegativeCash(arm: Arm, session: Date)

  predicate IsSealedOn(env: Env, sealed: seq<Sealed>, arm: Arm, session: Date)
    requires env.cal.Valid()
  {
    exists r :: r in sealed && r.arm == arm && SessionOf(env, r) == Some(session)
  }

  /** What each break code claims, as one condition on the ledgers. */
  ghost predicate IsBreak(env: Env, sealed: seq<Sealed>, fills: seq<FillRow>, b: Break)
    requires env.cal.Valid()
  {
    match b
    case MissingDecisionRecord(arm, session) =>
      && arm in env.arms && session in env.cal.sessions && session <= env.session && env.isWeekly(session)
      && (exists r :: r in sealed && SessionOf(env, r).Some? && SessionOf(env, r).value <= session)
      && !IsSealedOn(env, sealed, arm, session)
    case MissingFillRecord(arm, decisionAt) =>
      var r := Sealed(arm, decisionAt);
      r in sealed && !IsRecorded(fills, r) && Owed(env, r).Some? && Owed(env, r).value <= env.session
    case UnfilledRemainder(arm, decisionAt, entityId) =>
      exists f, u :: f in fills && f.arm == arm && f.decisionAt == decisionAt && u in f.unfilled && u.entityId == entityId && u.reason != Cash
    case NegativeCash(arm, session) =>
      arm in env.arms && exists p :: p in env.bookCash(arm, fills) && p.0 == session && p.1 < 0.0
  }

  /** An unrecorded decision whose owed session the calendar cannot place makes the reconciler throw. */
  ghost predicate AllPlaced(env: Env, sealed: seq<Sealed>, fills: seq<FillRow>)
    requires env.cal.Valid()
  {
    forall r :: r in sealed && !IsRecorded(fills, r) ==> Owed(env, r).Some?
  }

  method MissingDecisions(env: Env, sealed: seq<Sealed>) returns (breaks: set<Break>)
    requires env.Valid()
    ensures forall b :: b in breaks <==> b.MissingDecisionRecord? && IsBreak(env, sealed, [], b)
  {
    breaks := {};
    for i := 0 to |env.cal.sessions|
      invariant forall b :: b in breaks <==> b.MissingDecisionRecord? && b.session in env.cal.sessions[..i] && IsBreak(env, sealed, [], b)
    {
      var session := env.cal.sessions[i];
      assert env.cal.sessions[..i + 1] == env.cal.sessions[..i] + [session];
      if session <= env.session && env.isWeekly(session)
         && exists r :: r in sealed && SessionOf(env, r).Some? && SessionOf(env, r).value <= session {
        breaks := breaks + set arm | arm in env.arms && !IsSealedOn(env, sealed, arm, session) :: MissingDecisionRecord(arm, session);
      }
    }
    assert env.cal.sessions[..|env.cal.sessions|] == env.cal.sessions;
  }

  method MissingFills(env: Env, sealed: seq<Sealed>, fills: seq<FillRow>) returns (breaks: Result<set<Break>, JobError>)
    requires env.Valid()
    ensures breaks.Success? <==> AllPlaced(env, sealed, fills)
    ensures breaks.Success? ==> forall b :: b in breaks.value <==> b.MissingFillRecord? && IsBreak(env, sealed, fills, b)
  {
    var found: set<Break> := {};
    for i := 0 to |sealed|
      invariant forall r :: r in sealed[..i] && !IsRecorded(fills, r) ==> Owed(env, r).Some?
      invariant forall b :: b in found <==>
        b.MissingFillRecord? && Sealed(b.arm, b.decisionAt) in sealed[..i] && IsBreak(env, sealed, fills, b)
    {
      var r := sealed[i];
      assert sealed[..i + 1] == sealed[..i] + [r];
      if !IsRecorded(fills, r) {
        var owed := Owed(env, r);
        if owed.None? {
          assert r in sealed;
          return Failure(NoSuchSession);
        }
        if owed.value <= env.session {
          found := found + {MissingFillRecord(r.arm, r.decisionAt)};
        }
      }
    }
    assert sealed[..|sealed|] == sealed;
    return Success(found);
  }

  method Remainders(env: Env, sealed: seq<Sealed>, fills: seq<FillRow>) returns (breaks: set<Break>)
    requires env.Valid()
    ensures forall b :: b in breaks <==> b.UnfilledRemainder? && IsBreak(env, sealed, fills, b)
  {
    breaks := set f, u | f in fills && u in f.unfilled && u.reason != Cash :: UnfilledRemainder(f.arm, f.decisionAt, u.entityId);
  }

  method CashBreaks(env: Env, sealed: seq<Sealed>, fills: seq<FillRow>) returns (breaks: set<Break>)
    requires env.Valid()
    ensures forall b :: b in breaks <==> b.NegativeCash? && IsBreak(env, sealed, fills, b)
  {
    breaks := set arm, p | arm in env.arms && p in env.bookCash(arm, fills) && p.1 < 0.0 :: NegativeCash(arm, p.0);
  }

  /** Deterministic break detection: exactly the conditions the break codes name, or an error when a session cannot be placed. */
  method Reconcile(env: Env, sealed: seq<Sealed>, fills: seq<FillRow>) returns (r: Result<set<Break>, JobError>)
    requires env.Valid()
    ensures r.Success? <==> AllPlaced(env, sealed, fills)
    ensures r.Success? ==> forall b :: b in r.value <==> IsBreak(env, sealed, fills, b)
  {
    var missing := MissingFills(env, sealed, fills);
    if missing.Failure? {
      return missing;
    }
    var decisions := MissingDecisions(env, sealed);
    var remainders := Remainders(env, sealed, fills);
    var negative := CashBreaks(env, sealed, fills);
    return Success(decisions + missing.value + remainders + negative);
  }

  // ---------------------------------------------------------------------------------------------
  // One run of the job
  // ---------------------------------------------------------------------------------------------

  /** Selected, ordered by decision instant and then arm. */
  function DecisionKey(r: Sealed): Key {
    Key(r.decisionAt, r.arm, 0)
  }

  predicate IsPending(env: Env, fills: seq<FillRow>, r: Sealed)
    requires env.cal.Valid()
  {
    !IsRecorded(fills, r) && Due(env, r).Some? && Due(env, r).value <= env.session
  }

  function Pending(env: Env, fills: seq<FillRow>, sealed: seq<Sealed>): seq<Sealed>
    requires env.cal.Valid()
    decreases |sealed|
  {
    if sealed == [] then []
    else
      var earlier := Pending(env, fills, sealed[..|sealed| - 1]);
      if IsPending(env, fills, sealed[|sealed| - 1]) then earlier + [sealed[|sealed| - 1]] else earlier
  }

  function Worklist(env: Env, fills: seq<FillRow>, sealed: seq<Sealed>): seq<Sealed>
    requires env.cal.Valid()
  {
    Sort(Pending(env, fills, sealed), DecisionKey)
  }

  function OfArm(fills: seq<FillRow>, arm: Arm): seq<FillRow>
    decreases |fills|
  {
    if fills == [] then []
    else
      var earlier := OfArm(fills[..|fills| - 1], arm);
      if fills[|fills| - 1].arm == arm then earlier + [fills[|fills| - 1]] else earlier
  }

  datatype Work = Work(fills: seq<FillRow>, deferred: set<Arm>)

  function OutcomeOf(env: Env, w: Work, r: Sealed): seq<Unfilled> {
    env.outcome(r, OfArm(w.fills, r.arm))
  }

  /** A remainder that later bars could still fill. */
  predicate WindowOpen(env: Env, r: Sealed, unfilled: seq<Unfilled>)
    requires env.cal.Valid() && SessionOf(env, r).Some?
  {
    exists u :: u in unfilled && u.reason != Cash && !WindowObserved(env, u.entityId, SessionOf(env, r).value)
  }

  /** Deferred: its window is open and it is not owed yet.  Nothing is when the calendar cannot place the owed session. */
  function Defers(env: Env, r: Sealed, unfilled: seq<Unfilled>): Option<bool>
    requires env.cal.Valid() && SessionOf(env, r).Some?
  {
    if !WindowOpen(env, r, unfilled) then Some(false)
    else
      match Owed(env, r)
      case None => None
      case Some(owed) => Some(owed > env.session)
  }

  /** One decision of the worklist; once one of an arm's decisions is deferred, its later ones wait too. */
  function Processed(env: Env, w: Work, r: Sealed): Option<Work>
    requires env.cal.Valid() && SessionOf(env, r).Some?
  {
    if r.arm in w.deferred then Some(w)
    else
      var unfilled := OutcomeOf(env, w, r);
      match Defers(env, r, unfilled)
      case None => None
      case Some(true) => Some(w.(deferred := w.deferred + {r.arm}))
      case Some(false) => Some(w.(fills := w.fills + [FillRow(r.arm, r.decisionAt, unfilled)]))
  }

  predicate AllDue(env: Env, fills: seq<FillRow>, sealed: seq<Sealed>)
    requires env.cal.Valid()
  {
    forall r :: r in sealed && !IsRecorded(fills, r) ==> Due(env, r).Some?
  }

  function ProcessAll(env: Env, w: Work, rows: seq<Sealed>): Option<Work>
    requires env.cal.Valid() && forall r :: r in rows ==> SessionOf(env, r).Some?
    decreases |rows|
  {
    if rows == [] then Some(w)
    else
      match ProcessAll(env, w, rows[..|rows| - 1])
      case None => None
      case Some(w1) => Processed(env, w1, rows[|rows| - 1])
  }

  lemma {:induction false} PendingListed(env: Env, fills: seq<FillRow>, sealed: seq<Sealed>)
    requires env.cal.Valid()
    ensures forall r :: r in Pending(env, fills, sealed) <==> r in sealed && IsPending(env, fills, r)
    decreases |sealed|
  {
    if sealed != [] {
      PendingListed(env, fills, sealed[..|sealed| - 1]);
      assert sealed == sealed[..|sealed| - 1] + [sealed[|sealed| - 1]];
    }
  }

  lemma {:induction false} WorklistListed(env: Env, fills: seq<FillRow>, sealed: seq<Sealed>)
    requires env.cal.Valid()
    ensures forall r :: r in Worklist(env, fills, sealed) <==> r in sealed && IsPending(env, fills, r)
  {
    PendingListed(env, fills, sealed);
    SortContains(Pending(env, fills, sealed), DecisionKey);
  }

  class ShadowLedgers {
    var sealed: seq<Sealed>
    var fills: seq<FillRow>

    constructor ()
      ensures sealed == [] && fills == []
    {
      sealed, fills := [], [];
    }

    /** One run.  A run that throws rolls back and records nothing. */
    method RunFillJob(env: Env) returns (r: Result<set<Break>, JobError>)
      requires env.Valid()
      modifies this
      ensures sealed == old(sealed)
      ensures r.Failure? ==> fills == old(fills)
      ensures r.Success? ==> forall x :: x in Worklist(env, old(fills), sealed) ==> SessionOf(env, x).Some?
      ensures r.Success? ==> AllDue(env, old(fills), sealed) && AllPlaced(env, sealed, fills)
      ensures r.Success? ==>
                ProcessAll(env, Work(old(fills), {}), Worklist(env, old(fills), sealed)).Some?
                && ProcessAll(env, Work(old(fills), {}), Worklist(env, old(fills), sealed)).value.fills == fills
      ensures r.Success? ==> forall b :: b in r.value <==> IsBreak(env, sealed, fills, b)
    {
      if !AllDue(env, fills, sealed) {
        return Failure(NoSuchSession);
      }
      ghost var before := fills;
      var rows := Worklist(env, fills, sealed);
      WorklistListed(env, fills, sealed);
      var w := Work(fills, {});
      for i := 0 to |rows|
        invariant forall x :: x in rows[..i] ==> SessionOf(env, x).Some?
        invariant ProcessAll(env, Work(before, {}), rows[..i]) == Some(w)
      {
        var row := rows[i];
        assert row in rows;
        assert rows[..i + 1][..i] == rows[..i];
        if row.arm !in w.deferred {
          var unfilled := OutcomeOf(env, w, row);
          var windowOpen := WindowOpen(env, row, unfilled);
          var postpone := false;
          if windowOpen {
            var owed := Owed(env, row);
            if owed.None? {
              return Failure(NoSuchSession);
            }
            postpone := owed.value > env.session;
          }
          if postpone {
            w := w.(deferred := w.deferred + {row.arm});
          } else {
            w := w.(fills := w.fills + [FillRow(row.arm, row.decisionAt, unfilled)]);
          }
        }
      }
      assert rows[..|rows|] == rows;
      r := Reconcile(env, sealed, w.fills);
      if r.Success? {
        fills := w.fills;
      }
    }
  }
}
