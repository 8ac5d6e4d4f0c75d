/**
 * The halt inputs of a shadow decision: which reported breaks hold it, the state it starts from, and the owner
 * re-arms it may consume.
 */
module ShadowHalt {
  import opened Wrappers
  import StableSort

  datatype FaultState = NORMAL | HALT_NEW_RISK | HOLD_ONLY

  /** A recorded halt state; the owner-only flatten state is outside the three. */
  datatype RiskState = Fault(state: FaultState) | OwnerFlatten

  datatype Reconcile = Reconcile(session: int, at: int, breaks: set<nat>)

  datatype ReArm = ReArm(to: FaultState, actor: nat, at: int, acknowledged: set<nat>)

  datatype Previous = Previous(decisionAt: int, haltStates: seq<RiskState>)

  datatype Input = Input(
    previous: Option<Previous>, reconciles: seq<Reconcile>, reArms: seq<ReArm>, decisionAt: int, decisionSession: int)

  datatype Context = Context(
    current: FaultState, reArms: seq<ReArm>, unresolved: set<nat>, recent: set<nat>, acknowledged: set<nat>)

  // ---------------------------------------------------------------------------------------------
  // What is known at the instant
  // ---------------------------------------------------------------------------------------------

  function ByInstant(r: Reconcile): StableSort.Key {
    StableSort.Key(r.at, 0, 0)
  }

  function ReArmByInstant(r: ReArm): StableSort.Key {
    StableSort.Key(r.at, 0, 0)
  }

  function ReconcilesBy(s: seq<Reconcile>, t: int): seq<Reconcile>
    decreases |s|
  {
    if s == [] then []
    else
      var front, r := ReconcilesBy(s[..|s| - 1], t), s[|s| - 1];
      if r.at <= t then front + [r] else front
  }

  /** Re-arms after one instant, if any, and by another. */
  function ReArmsIn(s: seq<ReArm>, after: Option<int>, t: int): seq<ReArm>
    decreases |s|
  {
    if s == [] then []
    else
      var front, r := ReArmsIn(s[..|s| - 1], after, t), s[|s| - 1];
      if r.at <= t && (after.Some? ==> r.at > after.value) then front + [r] else front
  }

  function Known(input: Input): seq<Reconcile> {
    StableSort.Sort(ReconcilesBy(input.reconciles, input.decisionAt), ByInstant)
  }

  function KnownReArms(input: Input): seq<ReArm> {
    StableSort.Sort(ReArmsIn(input.reArms, None, input.decisionAt), ReArmByInstant)
  }

  // ---------------------------------------------------------------------------------------------
  // Occurrences and acknowledgements
  // ---------------------------------------------------------------------------------------------

  /** The start of the unbroken run of reconciles, ending at the `n`-th, that report a break. */
  function RunStart(known: seq<Reconcile>, code: nat, n: nat): (first: nat)
    requires n < |known|
    ensures first <= n
    ensures forall j :: first <= j < n ==> code in known[j].breaks
    ensures first > 0 ==> code !in known[first - 1].breaks
  {
    if n > 0 && code in known[n - 1].breaks then RunStart(known, code, n - 1) else n
  }

  function FirstReport(known: seq<Reconcile>, code: nat): Reconcile
    requires known != []
  {
    known[RunStart(known, code, |known| - 1)]
  }

  predicate IsAcknowledged(reArms: seq<ReArm>, code: nat, since: int) {
    exists r :: r in reArms && code in r.acknowledged && r.at >= since
  }

  datatype Standing = Acknowledged | Unresolved | Fresh

  /** How a break the latest reconcile reports stands at a decision session. */
  function StandingOf(known: seq<Reconcile>, reArms: seq<ReArm>, code: nat, session: int): Standing
    requires known != []
  {
    var first := FirstReport(known, code);
    if IsAcknowledged(reArms, code, first.at) then Acknowledged
    else if first.session < session then Unresolved
    else Fresh
  }

  function Reported(known: seq<Reconcile>): set<nat> {
    if known == [] then {} else known[|known| - 1].breaks
  }

  function WithIn(codes: set<nat>, known: seq<Reconcile>, reArms: seq<ReArm>, session: int, standing: Standing): set<nat>
    requires known != []
  {
    set code | code in codes && StandingOf(known, reArms, code, session) == standing
  }

  function With(known: seq<Reconcile>, reArms: seq<ReArm>, session: int, standing: Standing): set<nat> {
    if known == [] then {} else WithIn(Reported(known), known, reArms, session, standing)
  }

  // ---------------------------------------------------------------------------------------------
  // The state a decision starts from
  // ---------------------------------------------------------------------------------------------

  function Rank(s: FaultState): nat {
    match s
    case NORMAL => 0
    case HALT_NEW_RISK => 1
    case HOLD_ONLY => 2
  }

  function AsFaultState(s: RiskState): FaultState {
    match s
    case Fault(f) => f
    case OwnerFlatten => HOLD_ONLY
  }

  function Worst(states: seq<RiskState>): (worst: FaultState)
    ensures forall s :: s in states ==> Rank(AsFaultState(s)) <= Rank(worst)
    ensures worst == NORMAL || exists s :: s in states && AsFaultState(s) == worst
    decreases |states|
  {
    if states == [] then NORMAL
    else
      var acc, s := Worst(states[..|states| - 1]), AsFaultState(states[|states| - 1]);
      assert states == states[..|states| - 1] + [states[|states| - 1]];
      if Rank(s) > Rank(acc) then s else acc
  }

  function States(previous: Option<Previous>): seq<RiskState> {
    if previous.Some? then previous.value.haltStates else []
  }

  function Since(previous: Option<Previous>): Option<int> {
    if previous.Some? then Some(previous.value.decisionAt) else None
  }

  function After(s: seq<ReArm>, since: Option<int>): seq<ReArm>
    decreases |s|
  {
    if s == [] then []
    else
      var front, r := After(s[..|s| - 1], since), s[|s| - 1];
      if since.Some? ==> r.at > since.value then front + [r] else front
  }

  function ContextOf(input: Input): Context {
    var known, reArms := Known(input), KnownReArms(input);
    Context(Worst(States(input.previous)), After(reArms, Since(input.previous)),
            With(known, reArms, input.decisionSession, Unresolved),
            With(known, reArms, input.decisionSession, Fresh),
            With(known, reArms, input.decisionSession, Acknowledged))
  }

  // ---------------------------------------------------------------------------------------------
  // The loops
  // ---------------------------------------------------------------------------------------------

  /** Scan back from the latest reconcile to the first of the run that reports the break. */
  method FindRunStart(known: seq<Reconcile>, code: nat) returns (first: nat)
    requires known != []
    ensures first == RunStart(known, code, |known| - 1)
  {
    first := |known| - 1;
    while first > 0 && code in known[first - 1].breaks
      invariant first < |known| && RunStart(known, code, first) == RunStart(known, code, |known| - 1)
    {
      first := first - 1;
    }
  }

  method ClassifyBreak(known: seq<Reconcile>, reArms: seq<ReArm>, code: nat, session: int) returns (standing: Standing)
    requires known != []
    ensures standing == StandingOf(known, reArms, code, session)
  {
    var first := FindRunStart(known, code);
    var report := known[first];
    if exists r :: r in reArms && code in r.acknowledged && r.at >= report.at {
      return Acknowledged;
    }
    standing := if report.session < session then Unresolved else Fresh;
  }

  lemma {:induction false} WithOneMore(codes: set<nat>, code: nat, known: seq<Reconcile>, reArms: seq<ReArm>, session: int, standing: Standing)
    requires known != []
    ensures var more := WithIn(codes, known, reArms, session, standing);
            WithIn(codes + {code}, known, reArms, session, standing)
            == if StandingOf(known, reArms, code, session) == standing then more + {code} else more
  {
  }

  /** The three lists of the breaks placed so far. */
  datatype Lists = Lists(unresolved: set<nat>, recent: set<nat>, acknowledged: set<nat>)

  ghost predicate Place(lists: Lists, codes: set<nat>, known: seq<Reconcile>, reArms: seq<ReArm>, session: int)
    requires known != []
  {
    && lists.unresolved == WithIn(codes, known, reArms, session, Unresolved)
    && lists.recent == WithIn(codes, known, reArms, session, Fresh)
    && lists.acknowledged == WithIn(codes, known, reArms, session, Acknowledged)
  }

  function Placed(lists: Lists, code: nat, standing: Standing): Lists {
    match standing
    case Unresolved => lists.(unresolved := lists.unresolved + {code})
    case Fresh => lists.(recent := lists.recent + {code})
    case Acknowledged => lists.(acknowledged := lists.acknowledged + {code})
  }

  lemma {:induction false} PlacedOne(lists: Lists, codes: set<nat>, code: nat, known: seq<Reconcile>, reArms: seq<ReArm>, session: int)
    requires known != [] && Place(lists, codes, known, reArms, session)
    ensures Place(Placed(lists, code, StandingOf(known, reArms, code, session)), codes + {code}, known, reArms, session)
  {
    WithOneMore(codes, code, known, reArms, session, Unresolved);
    WithOneMore(codes, code, known, reArms, session, Fresh);
    WithOneMore(codes, code, known, reArms, session, Acknowledged);
  }

  method ClassifyBreaks(known: seq<Reconcile>, reArms: seq<ReArm>, session: int) returns (lists: Lists)
    ensures lists.unresolved == With(known, reArms, session, Unresolved)
    ensures lists.recent == With(known, reArms, session, Fresh)
    ensures lists.acknowledged == With(known, reArms, session, Acknowledged)
  {
    lists := Lists({}, {}, {});
    if known == [] {
      return;
    }
    var todo := known[|known| - 1].breaks;
    ghost var done: set<nat> := {};
    while todo != {}
      invariant todo + done == Reported(known) && todo !! done
      invariant Place(lists, done, known, reArms, session)
      decreases |todo|
    {
      var code :| code in todo;
      var standing := ClassifyBreak(known, reArms, code, session);
      PlacedOne(lists, done, code, known, reArms, session);
      lists := Placed(lists, code, standing);
      todo, done := todo - {code}, done + {code};
    }
    assert done == Reported(known);
  }

  method ShadowHaltContext(input: Input) returns (context: Context)
    ensures context == ContextOf(input)
  {
    var known := StableSort.Sort(ReconcilesBy(input.reconciles, input.decisionAt), ByInstant);
    var knownReArms := StableSort.Sort(ReArmsIn(input.reArms, None, input.decisionAt), ReArmByInstant);
    var lists := ClassifyBreaks(known, knownReArms, input.decisionSession);
    var current := Worst(States(input.previous));
    var reArms := After(knownReArms, Since(input.previous));
    context := Context(current, reArms, lists.unresolved, lists.recent, lists.acknowledged);
  }
}
