/** What the halt inputs promise: every break stands one way, acknowledgements bind one occurrence, re-arms count once. */
module ShadowHaltLaws {
  import opened Wrappers
  import opened ShadowHalt
  import StableSort

  // ---------------------------------------------------------------------------------------------
  // Every reported break stands exactly one way
  // ---------------------------------------------------------------------------------------------

  /** The three lists partition the breaks the latest known reconcile reports. */
  lemma {:induction false} BreaksPartition(input: Input)
    ensures var c := ContextOf(input);
            && c.unresolved + c.recent + c.acknowledged == Reported(Known(input))
            && c.unresolved !! c.recent && c.unresolved !! c.acknowledged && c.recent !! c.acknowledged
  {
  }

  // ---------------------------------------------------------------------------------------------
  // Occurrences
  // ---------------------------------------------------------------------------------------------

  lemma {:induction false} KnownInOrder(input: Input, i: nat, j: nat)
    requires i <= j < |Known(input)|
    ensures Known(input)[i].at <= Known(input)[j].at
  {
    var s := ReconcilesBy(input.reconciles, input.decisionAt);
    StableSort.SortSorted(s, ByInstant);
    StableSort.SortedPairs(Known(input), i, j, ByInstant);
  }

  /**
   * An acknowledgement made before a reconcile that no longer reports the break never silences its recurrence, and
   * neither does one made before the break was ever reported.
   */
  lemma {:induction false} OldAcknowledgementsDoNotSilence(input: Input, code: nat, cleared: nat)
    requires code in Reported(Known(input)) && cleared < |Known(input)| && code !in Known(input)[cleared].breaks
    requires forall r :: r in KnownReArms(input) && code in r.acknowledged ==> r.at < Known(input)[cleared].at
    ensures code in ContextOf(input).unresolved + ContextOf(input).recent
  {
    var known := Known(input);
    var first := RunStart(known, code, |known| - 1);
    ClearedBeforeTheRun(known, code, cleared);
    KnownInOrder(input, cleared, first);
    assert !StandingOf(known, KnownReArms(input), code, input.decisionSession).Acknowledged?;
  }

  lemma {:induction false} ClearedBeforeTheRun(known: seq<Reconcile>, code: nat, cleared: nat)
    requires known != [] && code in known[|known| - 1].breaks && cleared < |known| && code !in known[cleared].breaks
    ensures cleared < RunStart(known, code, |known| - 1)
  {
  }

  lemma {:induction false} RunStartIs(known: seq<Reconcile>, code: nat, first: nat)
    requires first < |known| && (forall j :: first <= j < |known| ==> code in known[j].breaks)
    requires first > 0 ==> code !in known[first - 1].breaks
    ensures RunStart(known, code, |known| - 1) == first
  {
  }

  /** The reconciles known are those by the decision instant. */
  lemma {:induction false} KnownAre(input: Input, r: Reconcile)
    ensures multiset(Known(input))[r] == if r.at <= input.decisionAt then multiset(input.reconciles)[r] else 0
  {
    StableSort.SortMultiset(ReconcilesBy(input.reconciles, input.decisionAt), ByInstant);
    ByMultiset(input.reconciles, input.decisionAt, r);
  }

  lemma {:induction false} ByMultiset(s: seq<Reconcile>, t: int, r: Reconcile)
    ensures multiset(ReconcilesBy(s, t))[r] == if r.at <= t then multiset(s)[r] else 0
    decreases |s|
  {
    if s != [] {
      ByMultiset(s[..|s| - 1], t, r);
      assert s == s[..|s| - 1] + [s[|s| - 1]];
    }
  }

  /** An owner acknowledged the break at or after an instant, and it is known by the decision. */
  ghost predicate AcknowledgedSince(input: Input, code: nat, since: int) {
    exists r :: r in input.reArms && r.at <= input.decisionAt && code in r.acknowledged && r.at >= since
  }

  lemma {:induction false} AcknowledgedIff(input: Input, code: nat, since: int)
    ensures IsAcknowledged(KnownReArms(input), code, since) <==> AcknowledgedSince(input, code, since)
  {
    StableSort.SortContains(ReArmsIn(input.reArms, None, input.decisionAt), ReArmByInstant);
    forall r ensures r in KnownReArms(input) <==> r in input.reArms && r.at <= input.decisionAt {
      KnownMultiset(input.reArms, input.decisionAt, r);
      assert r in KnownReArms(input) <==> r in ReArmsIn(input.reArms, None, input.decisionAt);
      assert r in ReArmsIn(input.reArms, None, input.decisionAt) <==> multiset(ReArmsIn(input.reArms, None, input.decisionAt))[r] > 0;
      assert r in input.reArms <==> multiset(input.reArms)[r] > 0;
    }
  }

  /**
   * How a break the latest reconcile reports is listed depends on the first report of its unbroken run alone: as
   * acknowledged when an owner acknowledged it since, otherwise as unresolved when that report was of an earlier session
   * than the decision's, and as recent when not.
   */
  lemma {:induction false} StandingIs(input: Input, code: nat, first: nat)
    requires first < |Known(input)| && (forall j :: first <= j < |Known(input)| ==> code in Known(input)[j].breaks)
    requires first > 0 ==> code !in Known(input)[first - 1].breaks
    ensures var c, report := ContextOf(input), Known(input)[first];
            var acknowledged := AcknowledgedSince(input, code, report.at);
            && (code in c.acknowledged <==> acknowledged)
            && (code in c.unresolved <==> !acknowledged && report.session < input.decisionSession)
            && (code in c.recent <==> !acknowledged && input.decisionSession <= report.session)
  {
    RunStartIs(Known(input), code, first);
    AcknowledgedIff(input, code, Known(input)[first].at);
  }

  /** An arm's state as the decision reads it: an owner-only one freezes like HOLD_ONLY. */
  predicate Holds(input: Input, state: FaultState) {
    input.previous.Some?
    && (Fault(state) in input.previous.value.haltStates || (state == HOLD_ONLY && OwnerFlatten in input.previous.value.haltStates))
  }

  /** The decision starts from HOLD_ONLY if any arm was held or flattened, else from HALT_NEW_RISK if any was halted. */
  lemma {:induction false} StartsFromTheWorst(input: Input)
    ensures ContextOf(input).current
            == if Holds(input, HOLD_ONLY) then HOLD_ONLY else if Holds(input, HALT_NEW_RISK) then HALT_NEW_RISK else NORMAL
  {
    var states := States(input.previous);
    var worst := Worst(states);
    if worst != NORMAL {
      var s :| s in states && AsFaultState(s) == worst;
    }
    if Holds(input, HOLD_ONLY) {
      var s :| s in states && AsFaultState(s) == HOLD_ONLY;
      assert Rank(AsFaultState(s)) <= Rank(worst);
    }
    if Holds(input, HALT_NEW_RISK) {
      assert Fault(HALT_NEW_RISK) in states;
      assert Rank(AsFaultState(Fault(HALT_NEW_RISK))) <= Rank(worst);
    }
  }

  /** A break the latest known reconcile does not report is on none of the lists. */
  lemma {:induction false} OnlyReportedIsListed(input: Input, code: nat)
    requires Known(input) != [] ==> code !in Known(input)[|Known(input)| - 1].breaks
    ensures var c := ContextOf(input); code !in c.acknowledged && code !in c.unresolved && code !in c.recent
  {
  }

  lemma {:induction false} RunStartGrows(known: seq<Reconcile>, more: Reconcile, code: nat, n: nat)
    requires n < |known|
    ensures RunStart(known + [more], code, n) == RunStart(known, code, n)
  {
    if n > 0 && code in known[n - 1].breaks {
      RunStartGrows(known, more, code, n - 1);
    }
  }

  /** While every further reconcile goes on reporting it, a break keeps its first report, so it keeps its standing. */
  lemma {:induction false} StandingHoldsWhileReported(known: seq<Reconcile>, more: Reconcile, reArms: seq<ReArm>, code: nat, session: int)
    requires known != [] && code in Reported(known) && code in more.breaks
    ensures StandingOf(known + [more], reArms, code, session) == StandingOf(known, reArms, code, session)
  {
    RunStartGrows(known, more, code, |known| - 1);
  }

  // ---------------------------------------------------------------------------------------------
  // Later events, and listing order
  // ---------------------------------------------------------------------------------------------

  lemma {:induction false} ReconcilesByConcat(s: seq<Reconcile>, u: seq<Reconcile>, t: int)
    ensures ReconcilesBy(s + u, t) == ReconcilesBy(s, t) + ReconcilesBy(u, t)
    decreases |u|
  {
    if u == [] {
      assert s + u == s;
    } else {
      assert (s + u)[..|s + u| - 1] == s + u[..|u| - 1];
      ReconcilesByConcat(s, u[..|u| - 1], t);
    }
  }

  lemma {:induction false} ReArmsInConcat(s: seq<ReArm>, u: seq<ReArm>, after: Option<int>, t: int)
    ensures ReArmsIn(s + u, after, t) == ReArmsIn(s, after, t) + ReArmsIn(u, after, t)
    decreases |u|
  {
    if u == [] {
      assert s + u == s;
    } else {
      assert (s + u)[..|s + u| - 1] == s + u[..|u| - 1];
      ReArmsInConcat(s, u[..|u| - 1], after, t);
    }
  }

  lemma {:induction false} NoneByThen(u: seq<Reconcile>, t: int)
    requires forall r :: r in u ==> r.at > t
    ensures ReconcilesBy(u, t) == []
    decreases |u|
  {
    if u != [] {
      assert u[|u| - 1] in u && forall r :: r in u[..|u| - 1] ==> r in u;
      NoneByThen(u[..|u| - 1], t);
    }
  }

  lemma {:induction false} NoReArmByThen(u: seq<ReArm>, after: Option<int>, t: int)
    requires forall r :: r in u ==> r.at > t
    ensures ReArmsIn(u, after, t) == []
    decreases |u|
  {
    if u != [] {
      assert u[|u| - 1] in u && forall r :: r in u[..|u| - 1] ==> r in u;
      NoReArmByThen(u[..|u| - 1], after, t);
    }
  }

  lemma {:induction false} LaterReconcilesDrop(s: seq<Reconcile>, later: seq<Reconcile>, u: seq<Reconcile>, t: int)
    requires forall r :: r in later ==> r.at > t
    ensures ReconcilesBy(s + later + u, t) == ReconcilesBy(s + u, t)
  {
    ReconcilesByConcat(s + later, u, t);
    ReconcilesByConcat(s, later, t);
    ReconcilesByConcat(s, u, t);
    NoneByThen(later, t);
  }

  lemma {:induction false} LaterReArmsDrop(s: seq<ReArm>, later: seq<ReArm>, u: seq<ReArm>, t: int)
    requires forall r :: r in later ==> r.at > t
    ensures ReArmsIn(s + later + u, None, t) == ReArmsIn(s + u, None, t)
  {
    ReArmsInConcat(s + later, u, None, t);
    ReArmsInConcat(s, later, None, t);
    ReArmsInConcat(s, u, None, t);
    NoReArmByThen(later, None, t);
  }

  /** Events after the decision instant, wherever they are listed, never change the result. */
  lemma {:induction false} LaterEventsChangeNothing(input: Input, s: seq<Reconcile>, later: seq<Reconcile>, u: seq<Reconcile>,
                                 x: seq<ReArm>, laterReArms: seq<ReArm>, y: seq<ReArm>)
    requires input.reconciles == s + later + u && input.reArms == x + laterReArms + y
    requires forall r :: r in later ==> r.at > input.decisionAt
    requires forall r :: r in laterReArms ==> r.at > input.decisionAt
    ensures ContextOf(input) == ContextOf(input.(reconciles := s + u, reArms := x + y))
  {
    LaterReconcilesDrop(s, later, u, input.decisionAt);
    LaterReArmsDrop(x, laterReArms, y, input.decisionAt);
    ContextIsOfTheKnown(input, input.(reconciles := s + u, reArms := x + y));
  }

  lemma {:induction false} ContextIsOfTheKnown(a: Input, b: Input)
    requires a.previous == b.previous && a.decisionSession == b.decisionSession
    requires Known(a) == Known(b) && KnownReArms(a) == KnownReArms(b)
    ensures ContextOf(a) == ContextOf(b)
  {
  }

  lemma {:induction false} ByMember(s: seq<Reconcile>, t: int, r: Reconcile)
    ensures r in ReconcilesBy(s, t) <==> r in s && r.at <= t
    decreases |s|
  {
    if s != [] {
      ByMember(s[..|s| - 1], t, r);
      assert s == s[..|s| - 1] + [s[|s| - 1]];
    }
  }

  lemma {:induction false} ByDistinct(s: seq<Reconcile>, t: int)
    requires StableSort.Distinct(s, ByInstant)
    ensures StableSort.Distinct(ReconcilesBy(s, t), ByInstant)
    decreases |s|
  {
    if s != [] {
      var front, last := s[..|s| - 1], s[|s| - 1];
      ByDistinct(front, t);
      forall r | r in ReconcilesBy(front, t) ensures ByInstant(r) != ByInstant(last) {
        ByMember(front, t, r);
        var i :| 0 <= i < |front| && front[i] == r;
        assert ByInstant(s[i]) != ByInstant(last);
      }
      forall i, j | 0 <= i < j < |ReconcilesBy(s, t)|
        ensures ByInstant(ReconcilesBy(s, t)[i]) != ByInstant(ReconcilesBy(s, t)[j])
      {
        if j < |ReconcilesBy(front, t)| {
          assert ByInstant(ReconcilesBy(front, t)[i]) != ByInstant(ReconcilesBy(front, t)[j]);
        } else {
          assert ReconcilesBy(front, t)[i] in ReconcilesBy(front, t);
        }
      }
    }
  }

  /** The order in which reconciles at different instants are listed is forgotten. */
  lemma {:induction false} ListingOrderIsIrrelevant(a: Input, b: Input)
    requires b == a.(reconciles := b.reconciles) && forall r :: r in a.reconciles <==> r in b.reconciles
    requires StableSort.Distinct(a.reconciles, ByInstant) && StableSort.Distinct(b.reconciles, ByInstant)
    ensures ContextOf(a) == ContextOf(b)
  {
    var s, u := ReconcilesBy(a.reconciles, a.decisionAt), ReconcilesBy(b.reconciles, a.decisionAt);
    ByDistinct(a.reconciles, a.decisionAt);
    ByDistinct(b.reconciles, a.decisionAt);
    forall r ensures r in s <==> r in u {
      ByMember(a.reconciles, a.decisionAt, r);
      ByMember(b.reconciles, a.decisionAt, r);
    }
    StableSort.SortOfSameElements(s, u, ByInstant);
    ContextIsOfTheKnown(a, b);
  }

  // ---------------------------------------------------------------------------------------------
  // Re-arms over a chain of decisions
  // ---------------------------------------------------------------------------------------------

  /** A sealed decision: the instant it decides at, when it was sealed, and every arm's halt state. */
  datatype Decision = Decision(decisionAt: int, sealedAt: int, haltStates: seq<RiskState>)

  ghost predicate InOrder(ds: seq<Decision>) {
    forall i, j :: 0 <= i < j < |ds| ==> ds[i].decisionAt < ds[j].decisionAt
  }

  /** The latest of the first `n` decisions that precedes an instant and was sealed by it. */
  function LatestSealed(ds: seq<Decision>, n: nat, t: int): (found: Option<nat>)
    requires n <= |ds|
    ensures found.Some? ==> found.value < n && ds[found.value].decisionAt < t && ds[found.value].sealedAt <= t
    ensures forall j :: 0 <= j < n && ds[j].decisionAt < t && ds[j].sealedAt <= t ==> found.Some? && j <= found.value
  {
    if n == 0 then None
    else if ds[n - 1].decisionAt < t && ds[n - 1].sealedAt <= t then Some(n - 1)
    else LatestSealed(ds, n - 1, t)
  }

  /** The decision that the `i`-th takes as its previous one. */
  function PreviousOf(ds: seq<Decision>, i: nat): Option<Previous>
    requires i < |ds|
  {
    var p := LatestSealed(ds, |ds|, ds[i].decisionAt);
    if p.Some? then Some(Previous(ds[p.value].decisionAt, ds[p.value].haltStates)) else None
  }

  /** Whether the `i`-th decision consumes a re-arm issued at an instant. */
  predicate Consumes(ds: seq<Decision>, i: nat, at: int)
    requires i < |ds|
  {
    at <= ds[i].decisionAt && (PreviousOf(ds, i).Some? ==> at > PreviousOf(ds, i).value.decisionAt)
  }

  lemma {:induction false} AfterMultiset(s: seq<ReArm>, since: Option<int>, r: ReArm)
    ensures multiset(After(s, since))[r] == if since.Some? && r.at <= since.value then 0 else multiset(s)[r]
    decreases |s|
  {
    if s != [] {
      AfterMultiset(s[..|s| - 1], since, r);
      assert s == s[..|s| - 1] + [s[|s| - 1]];
    }
  }

  lemma {:induction false} KnownMultiset(s: seq<ReArm>, t: int, r: ReArm)
    ensures multiset(ReArmsIn(s, None, t))[r] == if r.at > t then 0 else multiset(s)[r]
    decreases |s|
  {
    if s != [] {
      KnownMultiset(s[..|s| - 1], t, r);
      assert s == s[..|s| - 1] + [s[|s| - 1]];
    }
  }

  /** A decision's context holds every occurrence of the re-arms it consumes, and no other. */
  lemma {:induction false} ContextHoldsWhatItConsumes(ds: seq<Decision>, i: nat, input: Input, r: ReArm)
    requires i < |ds| && input.previous == PreviousOf(ds, i) && input.decisionAt == ds[i].decisionAt
    ensures multiset(ContextOf(input).reArms)[r] == if Consumes(ds, i, r.at) then multiset(input.reArms)[r] else 0
  {
    var known := ReArmsIn(input.reArms, None, input.decisionAt);
    KnownMultiset(input.reArms, input.decisionAt, r);
    StableSort.SortMultiset(known, ReArmByInstant);
    AfterMultiset(KnownReArms(input), Since(input.previous), r);
  }

  ghost predicate SealedInTime(ds: seq<Decision>) {
    forall i :: 0 < i < |ds| ==> SealedBefore(ds, i)
  }

  /** The preceding decision is sealed by this one's instant. */
  predicate SealedBefore(ds: seq<Decision>, i: nat)
    requires 0 < i < |ds|
  {
    ds[i - 1].sealedAt <= ds[i].decisionAt
  }

  lemma {:induction false} PrecedingIsPrevious(ds: seq<Decision>, i: nat)
    requires InOrder(ds) && i < |ds|
    ensures i > 0 && SealedBefore(ds, i) ==>
      PreviousOf(ds, i) == Some(Previous(ds[i - 1].decisionAt, ds[i - 1].haltStates))
    ensures PreviousOf(ds, i).Some? ==> i > 0 && PreviousOf(ds, i).value.decisionAt <= ds[i - 1].decisionAt
    ensures i > 1 && !SealedBefore(ds, i) && PreviousOf(ds, i).Some? ==>
      PreviousOf(ds, i).value.decisionAt < ds[i - 1].decisionAt
    ensures i > 0 && !SealedBefore(ds, i) ==>
      (PreviousOf(ds, i).Some? ==> PreviousOf(ds, i).value.decisionAt < ds[i - 1].decisionAt)
  {
  }

  /** The first decision at or after an instant. */
  function FirstAtOrAfter(ds: seq<Decision>, at: int): (i: nat)
    requires ds != [] && at <= ds[|ds| - 1].decisionAt
    ensures i < |ds| && at <= ds[i].decisionAt && forall j :: 0 <= j < i ==> ds[j].decisionAt < at
  {
    FirstFrom(ds, at, 0)
  }

  function FirstFrom(ds: seq<Decision>, at: int, n: nat): (i: nat)
    requires n < |ds| && at <= ds[|ds| - 1].decisionAt
    requires forall j :: 0 <= j < n ==> ds[j].decisionAt < at
    ensures i < |ds| && at <= ds[i].decisionAt && forall j :: 0 <= j < i ==> ds[j].decisionAt < at
    decreases |ds| - n
  {
    if at <= ds[n].decisionAt then n else FirstFrom(ds, at, n + 1)
  }

  /** No re-arm up to the latest decision is lost: the first decision at or after it consumes it. */
  lemma {:induction false} EveryReArmIsConsumed(ds: seq<Decision>, at: int)
    requires InOrder(ds) && ds != [] && at <= ds[|ds| - 1].decisionAt
    ensures Consumes(ds, FirstAtOrAfter(ds, at), at)
  {
  }

  ghost predicate ConsumedOnce(ds: seq<Decision>, at: int) {
    forall i, j :: 0 <= i < |ds| && 0 <= j < |ds| && Consumes(ds, i, at) && Consumes(ds, j, at) ==> i == j
  }

  lemma {:induction false} LaterConsumeLater(ds: seq<Decision>, i: nat, j: nat, at: int)
    requires InOrder(ds) && SealedInTime(ds) && i < j < |ds| && Consumes(ds, i, at)
    ensures !Consumes(ds, j, at)
  {
    assert SealedBefore(ds, j);
    PrecedingIsPrevious(ds, j);
    assert i < j - 1 ==> ds[i].decisionAt < ds[j - 1].decisionAt;
  }

  /**
   * Every owner re-arm is consumed by one decision only, whenever it was issued, exactly when each decision is sealed
   * by the next one's instant.
   */
  lemma {:induction false} ConsumedOnceIff(ds: seq<Decision>)
    requires InOrder(ds)
    ensures (forall at :: ConsumedOnce(ds, at)) <==> SealedInTime(ds)
  {
    if SealedInTime(ds) {
      forall at, i, j | 0 <= i < |ds| && 0 <= j < |ds| && Consumes(ds, i, at) && Consumes(ds, j, at) ensures i == j {
        if i < j {
          LaterConsumeLater(ds, i, j, at);
        } else if j < i {
          LaterConsumeLater(ds, j, i, at);
        }
      }
    }
    if i :| 0 < i < |ds| && !SealedBefore(ds, i) {
      var at := ds[i - 1].decisionAt;
      PrecedingIsPrevious(ds, i - 1);
      PrecedingIsPrevious(ds, i);
      assert i > 1 ==> ds[i - 2].decisionAt < ds[i - 1].decisionAt;
      assert Consumes(ds, i - 1, at) && Consumes(ds, i, at);
      assert !ConsumedOnce(ds, at);
    }
  }

  /** Two decisions, the first sealed after the second's instant: a re-arm at the first one's instant counts for both. */
  lemma {:induction false} LateSealConsumesTwice()
    ensures var ds := [Decision(0, 15, []), Decision(10, 20, [])];
            InOrder(ds) && !SealedInTime(ds) && Consumes(ds, 0, 0) && Consumes(ds, 1, 0)
  {
    var ds := [Decision(0, 15, []), Decision(10, 20, [])];
    assert !SealedBefore(ds, 1);
    assert LatestSealed(ds, 0, 10).None? && LatestSealed(ds, 1, 10).None? && LatestSealed(ds, 2, 10).None?;
    assert LatestSealed(ds, 0, 0).None? && LatestSealed(ds, 1, 0).None? && LatestSealed(ds, 2, 0).None?;
  }
}
