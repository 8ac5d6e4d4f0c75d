/**
 * The volatility-targeted comparator: a stream of weight activations merged with the return intervals two legs
 * share, and the constant-weight blend it generalizes.
 */
module VolTarget {
  import opened Wrappers
  import StableSort

  datatype Point = Point(session: int, trIndex: real, adjClose: real, distribution: real)

  datatype Bar = Bar(open: real, close: real)

  datatype Leg = Leg(points: seq<Point>, bars: map<int, Bar>)

  datatype Instant = AtOpen(session: int) | AtClose(session: int)

  datatype Activation = Activation(weight: real, acquiredAt: Instant)

  /** `expected` is the run's own calendar. */
  datatype Spec = Spec(equity: Leg, cash: Leg, activations: seq<Activation>, expected: set<int>)

  datatype IndexPoint = IndexPoint(session: int, value: real)

  datatype Reason =
    | InsideInterval(activation: Activation, prev: int, cur: int)
    | SkipsSessions(prev: int, cur: int)
    | NoUsableOpen(cur: int)
    | NeverApplied(activation: Activation)
    | NoCommonSessions

  datatype VolIndex = VolIndex(points: seq<IndexPoint>, reasons: seq<Reason>) {
    predicate Exact() {
      reasons == []
    }
  }

  datatype VolError = WeightOutside | NonPositiveIndex

  // ---------------------------------------------------------------------------------------------
  // Sessions and instants
  // ---------------------------------------------------------------------------------------------

  /** A series lists its points by session. */
  ghost predicate Ascending(points: seq<Point>) {
    forall i, j :: 0 <= i < j < |points| ==> points[i].session < points[j].session
  }

  function SessionSet(points: seq<Point>): set<int> {
    set p | p in points :: p.session
  }

  /** Sessions present in both series. */
  function CommonSessions(a: seq<Point>, b: seq<Point>): seq<int>
    decreases |a|
  {
    if a == [] then []
    else
      var front, s := CommonSessions(a[..|a| - 1], b), a[|a| - 1].session;
      if s in SessionSet(b) then front + [s] else front
  }

  function Shared(spec: Spec): seq<int> {
    CommonSessions(spec.equity.points, spec.cash.points)
  }

  function OpenKey(session: int): int {
    2 * session
  }

  function CloseKey(session: int): int {
    2 * session + 1
  }

  /** An open precedes the close of the same session. */
  function InstantKey(at: Instant): int {
    match at
    case AtOpen(s) => OpenKey(s)
    case AtClose(s) => CloseKey(s)
  }

  function ActivationKey(a: Activation): int {
    InstantKey(a.acquiredAt)
  }

  function ActivationOrder(a: Activation): StableSort.Key {
    StableSort.Key(ActivationKey(a), 0, 0)
  }

  function Acts(spec: Spec): seq<Activation> {
    StableSort.Sort(spec.activations, ActivationOrder)
  }

  /** The weight an activation follows. */
  function Before(acts: seq<Activation>, n: nat): real
    requires n <= |acts|
  {
    if n == 0 then 0.0 else acts[n - 1].weight
  }

  /** The weight in force just after an instant: the last one acquired by then. */
  function InForce(acts: seq<Activation>, key: int): real
    decreases |acts|
  {
    if acts == [] then 0.0
    else if ActivationKey(acts[|acts| - 1]) <= key then acts[|acts| - 1].weight
    else InForce(acts[..|acts| - 1], key)
  }

  // ---------------------------------------------------------------------------------------------
  // One leg over one interval
  // ---------------------------------------------------------------------------------------------

  function PositionOf(points: seq<Point>, session: int): Option<nat>
    ensures PositionOf(points, session).Some? ==> PositionOf(points, session).value < |points|
    decreases |points|
  {
    if points == [] then None
    else if points[|points| - 1].session == session then Some(|points| - 1)
    else PositionOf(points[..|points| - 1], session)
  }

  function PointAt(leg: Leg, session: int): Option<Point> {
    var i := PositionOf(leg.points, session);
    if i.Some? then Some(leg.points[i.value]) else None
  }

  function Ratio(x: real, y: real): real
    requires y != 0.0
  {
    x / y
  }

  function CloseToClose(leg: Leg, cur: int, prev: int): real {
    var now, before := PointAt(leg, cur), PointAt(leg, prev);
    if now.None? || before.None? || before.value.trIndex <= 0.0 then 0.0
    else Ratio(now.value.trIndex, before.value.trIndex) - 1.0
  }

  /** Value factors of one leg over the two halves of a rebalance session. */
  datatype Halves = Halves(overnight: real, intraday: real)

  /** The open in the index's share units. */
  function AdjustedOpen(bar: Bar, adjClose: real): real
    requires bar.close > 0.0
  {
    bar.open * adjClose / bar.close
  }

  function LegSplit(leg: Leg, cur: int, prev: int): Option<Halves> {
    var position := PositionOf(leg.points, cur);
    var atPrev := PointAt(leg, prev);
    if position.None? || atPrev.None? || cur !in leg.bars || position.value < 1 then None
    else
      var now, last, bar := leg.points[position.value], leg.points[position.value - 1], leg.bars[cur];
      if atPrev.value.trIndex <= 0.0 || last.trIndex <= 0.0 || last.adjClose <= 0.0 then None
      else if now.adjClose <= 0.0 || bar.close <= 0.0 || bar.open <= 0.0 then None
      else
        var adjOpen := AdjustedOpen(bar, now.adjClose);
        if adjOpen <= 0.0 then None
        else
          Some(Halves(Times(Ratio(last.trIndex, atPrev.value.trIndex), Ratio(adjOpen + now.distribution, last.adjClose)),
                      Ratio(now.adjClose, adjOpen)))
  }

  datatype SessionSplit = SessionSplit(equity: Halves, cash: Halves)

  function SplitAtOpen(spec: Spec, cur: int, prev: int): Option<SessionSplit> {
    var e, c := LegSplit(spec.equity, cur, prev), LegSplit(spec.cash, cur, prev);
    if e.None? || c.None? then None else Some(SessionSplit(e.value, c.value))
  }

  function Mix(weight: real, equity: real, cash: real): real {
    weight * equity + (1.0 - weight) * cash
  }

  function PlainStep(spec: Spec, weight: real, cur: int, prev: int): real {
    Mix(weight, CloseToClose(spec.equity, cur, prev), CloseToClose(spec.cash, cur, prev))
  }

  // ---------------------------------------------------------------------------------------------
  // What the index is
  // ---------------------------------------------------------------------------------------------

  function Times(x: real, y: real): real {
    x * y
  }

  /** One step's value factor, from the weights in force at the previous close and at this open. */
  function Step(spec: Spec, acts: seq<Activation>, cur: int, prev: int): real {
    var held, acquired := InForce(acts, CloseKey(prev)), InForce(acts, OpenKey(cur));
    var split := SplitAtOpen(spec, cur, prev);
    if held == acquired || split.None? then 1.0 + PlainStep(spec, held, cur, prev)
    else
      Times(Mix(held, split.value.equity.overnight, split.value.cash.overnight),
            Mix(acquired, split.value.equity.intraday, split.value.cash.intraday))
  }

  function Index(spec: Spec, acts: seq<Activation>, sessions: seq<int>, n: nat): real
    requires n < |sessions|
  {
    if n == 0 then 1.0
    else Times(Index(spec, acts, sessions, n - 1), Step(spec, acts, sessions[n], sessions[n - 1]))
  }

  function Union(spec: Spec): set<int> {
    SessionSet(spec.equity.points) + SessionSet(spec.cash.points) + spec.expected
  }

  predicate Skips(spec: Spec, cur: int, prev: int) {
    exists u :: u in Union(spec) && prev < u < cur
  }

  /** A step the index represents exactly. */
  predicate StepIsExact(spec: Spec, acts: seq<Activation>, cur: int, prev: int) {
    var held, acquired := InForce(acts, CloseKey(prev)), InForce(acts, OpenKey(cur));
    (Skips(spec, cur, prev) ==> held == 0.0 || held == 1.0) && (held != acquired ==> SplitAtOpen(spec, cur, prev).Some?)
  }

  /** An activation at an instant the index can place, or one that changes nothing. */
  predicate IsPlaced(acts: seq<Activation>, sessions: seq<int>, j: nat)
    requires j < |acts| && sessions != []
  {
    ActivationKey(acts[j]) <= CloseKey(sessions[0])
    || acts[j].acquiredAt.session in sessions
    || acts[j].weight == Before(acts, j)
  }

  ghost predicate IsExact(spec: Spec, acts: seq<Activation>, sessions: seq<int>)
    requires sessions != []
  {
    && (forall j :: 0 <= j < |acts| ==> IsPlaced(acts, sessions, j))
    && (forall i :: 1 <= i < |sessions| ==> ExactAt(spec, acts, sessions, i))
  }

  predicate ExactAt(spec: Spec, acts: seq<Activation>, sessions: seq<int>, i: nat)
    requires 1 <= i < |sessions|
  {
    StepIsExact(spec, acts, sessions[i], sessions[i - 1])
  }

  predicate WeightsInRange(activations: seq<Activation>) {
    forall a :: a in activations ==> 0.0 <= a.weight <= 1.0
  }

  // ---------------------------------------------------------------------------------------------
  // Where a cursor stands
  // ---------------------------------------------------------------------------------------------

  ghost predicate InOrder(acts: seq<Activation>) {
    forall i, j :: 0 <= i < j < |acts| ==> ActivationKey(acts[i]) <= ActivationKey(acts[j])
  }

  lemma {:induction false} SortedInOrder(acts: seq<Activation>)
    requires StableSort.IsSorted(acts, ActivationOrder)
    ensures InOrder(acts)
  {
    forall i, j | 0 <= i < j < |acts| ensures ActivationKey(acts[i]) <= ActivationKey(acts[j]) {
      StableSort.SortedPairs(acts, i, j, ActivationOrder);
    }
  }

  /** The first `n` activations are those up to an instant. */
  ghost predicate Cut(acts: seq<Activation>, n: nat, key: int) {
    && n <= |acts|
    && (forall j :: 0 <= j < n ==> ActivationKey(acts[j]) <= key)
    && (forall j :: n <= j < |acts| ==> ActivationKey(acts[j]) > key)
  }

  lemma {:induction false} CutInForce(acts: seq<Activation>, n: nat, key: int)
    requires Cut(acts, n, key)
    ensures InForce(acts, key) == Before(acts, n)
    decreases |acts|
  {
    if n < |acts| {
      CutInForce(acts[..|acts| - 1], n, key);
    }
  }

  lemma {:induction false} CommonMember(a: seq<Point>, b: seq<Point>, s: int)
    ensures s in CommonSessions(a, b) <==> s in SessionSet(a) && s in SessionSet(b)
    decreases |a|
  {
    if a != [] {
      CommonMember(a[..|a| - 1], b, s);
      assert a == a[..|a| - 1] + [a[|a| - 1]];
      assert SessionSet(a) == SessionSet(a[..|a| - 1]) + {a[|a| - 1].session};
    }
  }

  ghost predicate Increasing(sessions: seq<int>) {
    forall i, j :: 0 <= i < j < |sessions| ==> sessions[i] < sessions[j]
  }

  lemma {:induction false} CommonIncreasing(a: seq<Point>, b: seq<Point>)
    requires Ascending(a)
    ensures Increasing(CommonSessions(a, b))
    decreases |a|
  {
    if a != [] {
      var front := a[..|a| - 1];
      CommonIncreasing(front, b);
      forall s | s in CommonSessions(front, b) ensures s < a[|a| - 1].session {
        CommonMember(front, b, s);
        var p :| p in front && p.session == s;
      }
      var before := CommonSessions(front, b);
      forall i, j | 0 <= i < j < |CommonSessions(a, b)| ensures CommonSessions(a, b)[i] < CommonSessions(a, b)[j] {
        assert before[i] in before;
      }
    }
  }

  // ---------------------------------------------------------------------------------------------
  // The loops
  // ---------------------------------------------------------------------------------------------

  /** Every activation of `acts[from..to]` is at one of the two instants, or changes nothing. */
  ghost predicate Harmless(acts: seq<Activation>, from: nat, to: nat, openKey: int, closeKey: int)
    requires to <= |acts|
  {
    forall j :: from <= j < to ==>
      ActivationKey(acts[j]) == openKey || ActivationKey(acts[j]) == closeKey || acts[j].weight == Before(acts, j)
  }

  lemma {:induction false} HarmlessStep(acts: seq<Activation>, from: nat, to: nat, openKey: int, closeKey: int)
    requires from <= to < |acts|
    ensures Harmless(acts, from, to + 1, openKey, closeKey) <==>
      Harmless(acts, from, to, openKey, closeKey)
      && (ActivationKey(acts[to]) == openKey || ActivationKey(acts[to]) == closeKey || acts[to].weight == Before(acts, to))
  {
  }

  lemma {:induction false} NoLaterBefore(acts: seq<Activation>, from: nat, to: nat)
    requires InOrder(acts) && from <= to < |acts|
    ensures forall j :: from <= j < to ==> ActivationKey(acts[j]) <= ActivationKey(acts[to])
  {
  }

  /** Consume the activations of one interval, after the previous close and up to this one. */
  method Consume(acts: seq<Activation>, from: nat, weight: real, cur: int, prev: int)
    returns (cursor: nat, atOpen: Option<real>, atClose: Option<real>, inside: seq<Reason>)
    requires InOrder(acts) && prev < cur && Cut(acts, from, CloseKey(prev)) && weight == Before(acts, from)
    ensures from <= cursor && Cut(acts, cursor, CloseKey(cur))
    ensures atOpen.GetOr(weight) == InForce(acts, OpenKey(cur))
    ensures atClose.GetOr(atOpen.GetOr(weight)) == Before(acts, cursor)
    ensures inside == [] <==> Harmless(acts, from, cursor, OpenKey(cur), CloseKey(cur))
  {
    cursor, atOpen, atClose, inside := from, None, None, [];
    var running := weight;
    ghost var byOpen := from;
    while cursor < |acts| && ActivationKey(acts[cursor]) <= CloseKey(cur)
      invariant from <= byOpen <= cursor <= |acts|
      invariant running == Before(acts, cursor)
      invariant forall j :: 0 <= j < byOpen ==> ActivationKey(acts[j]) <= OpenKey(cur)
      invariant forall j :: byOpen <= j < cursor ==> ActivationKey(acts[j]) == CloseKey(cur)
      invariant atOpen.GetOr(weight) == Before(acts, byOpen)
      invariant if atClose.None? then byOpen == cursor else atClose.value == running
      invariant atClose.Some? ==> byOpen < cursor
      invariant inside == [] <==> Harmless(acts, from, cursor, OpenKey(cur), CloseKey(cur))
    {
      var a := acts[cursor];
      var k := ActivationKey(a);
      HarmlessStep(acts, from, cursor, OpenKey(cur), CloseKey(cur));
      if k == CloseKey(cur) {
        atClose := Some(a.weight);
      } else {
        NoLaterBefore(acts, byOpen, cursor);
        if k != OpenKey(cur) && a.weight != running {
          inside := inside + [InsideInterval(a, prev, cur)];
        }
        atOpen := Some(a.weight);
        byOpen := byOpen + 1;
      }
      running := a.weight;
      cursor := cursor + 1;
    }
    CutFromCursor(acts, cursor, CloseKey(cur));
    CutOpened(acts, byOpen, cursor, cur);
    CutInForce(acts, byOpen, OpenKey(cur));
  }

  lemma {:induction false} CutFromCursor(acts: seq<Activation>, n: nat, key: int)
    requires InOrder(acts) && n <= |acts|
    requires forall j :: 0 <= j < n ==> ActivationKey(acts[j]) <= key
    requires n < |acts| ==> ActivationKey(acts[n]) > key
    ensures Cut(acts, n, key)
  {
  }

  lemma {:induction false} CutOpened(acts: seq<Activation>, byOpen: nat, n: nat, cur: int)
    requires byOpen <= n && Cut(acts, n, CloseKey(cur))
    requires forall j :: 0 <= j < byOpen ==> ActivationKey(acts[j]) <= OpenKey(cur)
    requires forall j :: byOpen <= j < n ==> ActivationKey(acts[j]) == CloseKey(cur)
    ensures Cut(acts, byOpen, OpenKey(cur))
  {
  }

  /** The activations already in force at the base session's close. */
  method OpeningWeight(acts: seq<Activation>, first: int) returns (cursor: nat, weight: real)
    requires InOrder(acts)
    ensures Cut(acts, cursor, CloseKey(first)) && weight == Before(acts, cursor)
  {
    cursor, weight := 0, 0.0;
    while cursor < |acts| && ActivationKey(acts[cursor]) <= CloseKey(first)
      invariant cursor <= |acts| && weight == Before(acts, cursor)
      invariant forall j :: 0 <= j < cursor ==> ActivationKey(acts[j]) <= CloseKey(first)
    {
      weight := acts[cursor].weight;
      cursor := cursor + 1;
    }
    CutFromCursor(acts, cursor, CloseKey(first));
  }

  /** The activations after the last shared session: each that changes the weight was never applied. */
  method Leftover(acts: seq<Activation>, from: nat) returns (reasons: seq<Reason>)
    requires from <= |acts|
    ensures reasons == [] <==> forall j :: from <= j < |acts| ==> acts[j].weight == Before(acts, j)
  {
    reasons := [];
    var weight := Before(acts, from);
    var cursor := from;
    while cursor < |acts|
      invariant from <= cursor <= |acts| && weight == Before(acts, cursor)
      invariant reasons == [] <==> forall j :: from <= j < cursor ==> acts[j].weight == Before(acts, j)
    {
      if acts[cursor].weight != weight {
        reasons := reasons + [NeverApplied(acts[cursor])];
        weight := acts[cursor].weight;
      }
      cursor := cursor + 1;
    }
  }

  lemma {:induction false} TimesAssociates(x: real, y: real, z: real)
    ensures Times(Times(x, y), z) == Times(x, Times(y, z))
  {
  }

  /** Price one step at the weights before and after its open. */
  method PriceStep(spec: Spec, index: real, weight: real, atOpen: Option<real>, cur: int, prev: int, ghost acts: seq<Activation>)
    returns (next: real, reasons: seq<Reason>)
    requires weight == InForce(acts, CloseKey(prev)) && atOpen.GetOr(weight) == InForce(acts, OpenKey(cur))
    ensures next == Times(index, Step(spec, acts, cur, prev))
    ensures reasons == [] <==> StepIsExact(spec, acts, cur, prev)
  {
    reasons := [];
    if (exists u :: u in Union(spec) && prev < u < cur) && weight != 0.0 && weight != 1.0 {
      reasons := reasons + [SkipsSessions(prev, cur)];
    }
    if atOpen.None? || atOpen.value == weight {
      next := Times(index, 1.0 + PlainStep(spec, weight, cur, prev));
    } else {
      var split := SplitAtOpen(spec, cur, prev);
      if split.None? {
        reasons := reasons + [NoUsableOpen(cur)];
        next := Times(index, 1.0 + PlainStep(spec, weight, cur, prev));
      } else {
        var atOpenValue := Mix(weight, split.value.equity.overnight, split.value.cash.overnight);
        var toClose := Mix(atOpen.value, split.value.equity.intraday, split.value.cash.intraday);
        next := Times(Times(index, atOpenValue), toClose);
        TimesAssociates(index, atOpenValue, toClose);
      }
    }
  }

  ghost predicate PlacedTo(acts: seq<Activation>, sessions: seq<int>, n: nat)
    requires n <= |acts| && sessions != []
  {
    forall j :: 0 <= j < n ==> IsPlaced(acts, sessions, j)
  }

  ghost predicate ExactTo(spec: Spec, acts: seq<Activation>, sessions: seq<int>, n: nat)
    requires n <= |sessions|
  {
    forall i :: 1 <= i < n ==> ExactAt(spec, acts, sessions, i)
  }

  /** Inside one interval, an activation is placed exactly when it is harmless there. */
  lemma {:induction false} PlacedInInterval(acts: seq<Activation>, sessions: seq<int>, i: nat, j: nat)
    requires Increasing(sessions) && 1 <= i < |sessions| && j < |acts|
    requires CloseKey(sessions[i - 1]) < ActivationKey(acts[j]) <= CloseKey(sessions[i])
    ensures IsPlaced(acts, sessions, j) <==>
      ActivationKey(acts[j]) == OpenKey(sessions[i]) || ActivationKey(acts[j]) == CloseKey(sessions[i])
      || acts[j].weight == Before(acts, j)
  {
  }

  lemma {:induction false} PlacedStep(acts: seq<Activation>, sessions: seq<int>, i: nat, from: nat, to: nat)
    requires Increasing(sessions) && 1 <= i < |sessions| && from <= to
    requires Cut(acts, from, CloseKey(sessions[i - 1])) && Cut(acts, to, CloseKey(sessions[i]))
    ensures PlacedTo(acts, sessions, to) <==>
      PlacedTo(acts, sessions, from) && Harmless(acts, from, to, OpenKey(sessions[i]), CloseKey(sessions[i]))
  {
    forall j | from <= j < to ensures IsPlaced(acts, sessions, j) <==>
        ActivationKey(acts[j]) == OpenKey(sessions[i]) || ActivationKey(acts[j]) == CloseKey(sessions[i])
        || acts[j].weight == Before(acts, j)
    {
      PlacedInInterval(acts, sessions, i, j);
    }
  }

  lemma {:induction false} LastIsLatest(sessions: seq<int>)
    requires Increasing(sessions) && sessions != []
    ensures forall s :: s in sessions ==> s <= sessions[|sessions| - 1]
  {
  }

  lemma {:induction false} PlacedAfter(acts: seq<Activation>, sessions: seq<int>, from: nat)
    requires Increasing(sessions) && sessions != [] && Cut(acts, from, CloseKey(sessions[|sessions| - 1]))
    ensures PlacedTo(acts, sessions, |acts|) <==>
      PlacedTo(acts, sessions, from) && forall j :: from <= j < |acts| ==> acts[j].weight == Before(acts, j)
  {
    forall j | from <= j < |acts| ensures IsPlaced(acts, sessions, j) <==> acts[j].weight == Before(acts, j) {
      LastIsLatest(sessions);
      assert sessions[0] in sessions;
    }
  }

  /** The points the index gives the first `n` shared sessions. */
  ghost predicate PointsAre(points: seq<IndexPoint>, spec: Spec, acts: seq<Activation>, sessions: seq<int>, n: nat)
    requires n <= |sessions|
  {
    |points| == n && forall i :: 0 <= i < n ==> points[i] == IndexPoint(sessions[i], Index(spec, acts, sessions, i))
  }

  lemma {:induction false} ExactOneMore(spec: Spec, acts: seq<Activation>, sessions: seq<int>, i: nat)
    requires 1 <= i < |sessions|
    ensures ExactTo(spec, acts, sessions, i + 1) <==> ExactTo(spec, acts, sessions, i) && ExactAt(spec, acts, sessions, i)
  {
  }

  lemma {:induction false} PointsOneMore(points: seq<IndexPoint>, spec: Spec, acts: seq<Activation>, sessions: seq<int>, i: nat)
    requires i < |sessions| && PointsAre(points, spec, acts, sessions, i)
    ensures PointsAre(points + [IndexPoint(sessions[i], Index(spec, acts, sessions, i))], spec, acts, sessions, i + 1)
  {
    var more := points + [IndexPoint(sessions[i], Index(spec, acts, sessions, i))];
    forall j | 0 <= j < i + 1 ensures more[j] == IndexPoint(sessions[j], Index(spec, acts, sessions, j)) {
      if j < i {
        assert more[j] == points[j];
      }
    }
  }

  /** The index over non-empty shared sessions. */
  method BuildIndex(spec: Spec, sessions: seq<int>, acts: seq<Activation>) returns (out: VolIndex)
    requires sessions != [] && Increasing(sessions) && InOrder(acts)
    ensures PointsAre(out.points, spec, acts, sessions, |sessions|)
    ensures out.Exact() <==> IsExact(spec, acts, sessions)
  {
    var points := [IndexPoint(sessions[0], 1.0)];
    var index := 1.0;
    var reasons: seq<Reason> := [];
    var cursor, weight := OpeningWeight(acts, sessions[0]);
    var i := 1;
    while i < |sessions|
      invariant 1 <= i <= |sessions|
      invariant Cut(acts, cursor, CloseKey(sessions[i - 1])) && weight == Before(acts, cursor)
      invariant index == Index(spec, acts, sessions, i - 1)
      invariant PointsAre(points, spec, acts, sessions, i)
      invariant reasons == [] <==> PlacedTo(acts, sessions, cursor) && ExactTo(spec, acts, sessions, i)
    {
      var cur, prev := sessions[i], sessions[i - 1];
      CutInForce(acts, cursor, CloseKey(prev));
      ghost var from := cursor;
      var atOpen, atClose, inside, priced;
      cursor, atOpen, atClose, inside := Consume(acts, cursor, weight, cur, prev);
      index, priced := PriceStep(spec, index, weight, atOpen, cur, prev, acts);
      PlacedStep(acts, sessions, i, from, cursor);
      weight := atClose.GetOr(atOpen.GetOr(weight));
      ExactOneMore(spec, acts, sessions, i);
      PointsOneMore(points, spec, acts, sessions, i);
      reasons := reasons + inside + priced;
      points := points + [IndexPoint(cur, index)];
      i := i + 1;
    }
    var leftover := Leftover(acts, cursor);
    PlacedAfter(acts, sessions, cursor);
    out := VolIndex(points, reasons + leftover);
    assert out.Exact() <==> reasons == [] && leftover == [];
  }

  method VolatilityTargetedSeries(spec: Spec) returns (result: Result<VolIndex, VolError>)
    requires Ascending(spec.equity.points)
    ensures Shared(spec) == [] ==> result == Success(VolIndex([], [NoCommonSessions]))
    ensures Shared(spec) != [] ==> (result.Failure? <==> !WeightsInRange(spec.activations))
    ensures Shared(spec) != [] && result.Success? ==>
      && PointsAre(result.value.points, spec, Acts(spec), Shared(spec), |Shared(spec)|)
      && (result.value.Exact() <==> IsExact(spec, Acts(spec), Shared(spec)))
  {
    var sessions := CommonSessions(spec.equity.points, spec.cash.points);
    if sessions == [] {
      return Success(VolIndex([], [NoCommonSessions]));
    }
    if exists a :: a in spec.activations && (a.weight < 0.0 || a.weight > 1.0) {
      return Failure(WeightOutside);
    }
    CommonIncreasing(spec.equity.points, spec.cash.points);
    var acts := StableSort.Sort(spec.activations, ActivationOrder);
    StableSort.SortSorted(spec.activations, ActivationOrder);
    SortedInOrder(acts);
    var out := BuildIndex(spec, sessions, acts);
    return Success(out);
  }

  // ---------------------------------------------------------------------------------------------
  // The constant-weight blend
  // ---------------------------------------------------------------------------------------------

  /** A leg's simple return into the `n`-th shared session. */
  function SharedReturn(leg: Leg, sessions: seq<int>, n: nat): Option<real>
    requires 1 <= n < |sessions|
  {
    var now, before := PointAt(leg, sessions[n]), PointAt(leg, sessions[n - 1]);
    if now.None? || before.None? || before.value.trIndex <= 0.0 then None
    else Some(Ratio(now.value.trIndex, before.value.trIndex) - 1.0)
  }

  predicate HasReturns(spec: Spec, sessions: seq<int>, n: nat)
    requires 1 <= n < |sessions|
  {
    SharedReturn(spec.equity, sessions, n).Some? && SharedReturn(spec.cash, sessions, n).Some?
  }

  /** The blend's first `n` points: 1 at the base, then compounding the weighted simple returns. */
  ghost predicate IsBlend(points: seq<IndexPoint>, spec: Spec, sessions: seq<int>, weightAt: int -> real, n: nat)
    requires n <= |sessions|
  {
    && |points| == n
    && (n > 0 ==> points[0] == IndexPoint(sessions[0], 1.0))
    && forall m :: 1 <= m < n ==>
      && HasReturns(spec, sessions, m)
      && points[m] == IndexPoint(sessions[m],
           Times(points[m - 1].value, 1.0 + Mix(weightAt(sessions[m]), SharedReturn(spec.equity, sessions, m).value,
                                                SharedReturn(spec.cash, sessions, m).value)))
  }

  /** Both legs have a return into the session, and the weight held into it is a proportion. */
  predicate BlendsAt(spec: Spec, sessions: seq<int>, weightAt: int -> real, n: nat)
    requires 1 <= n < |sessions|
  {
    HasReturns(spec, sessions, n) && 0.0 <= weightAt(sessions[n]) <= 1.0
  }

  /** The daily-rebalanced blend of the legs' simple returns, at the weight held into each session. */
  method BlendSeries(spec: Spec, weightAt: int -> real) returns (result: Result<seq<IndexPoint>, VolError>)
    ensures result.Success? ==> IsBlend(result.value, spec, Shared(spec), weightAt, |Shared(spec)|)
    ensures result.Failure? <==>
      exists n :: 1 <= n < |Shared(spec)| && !BlendsAt(spec, Shared(spec), weightAt, n)
  {
    var sessions := CommonSessions(spec.equity.points, spec.cash.points);
    assert sessions == Shared(spec);
    if sessions == [] {
      return Success([]);
    }
    if exists n :: 1 <= n < |sessions| && !HasReturns(spec, sessions, n) {
      ghost var n :| 1 <= n < |sessions| && !HasReturns(spec, sessions, n);
      assert !BlendsAt(spec, sessions, weightAt, n);
      return Failure(NonPositiveIndex);
    }
    var points := [IndexPoint(sessions[0], 1.0)];
    var n := 1;
    while n < |sessions|
      invariant 1 <= n <= |sessions| && IsBlend(points, spec, sessions, weightAt, n)
      invariant forall m :: 1 <= m < n ==> BlendsAt(spec, sessions, weightAt, m)
    {
      assert HasReturns(spec, sessions, n);
      var weight := weightAt(sessions[n]);
      if weight < 0.0 || weight > 1.0 {
        assert !BlendsAt(spec, sessions, weightAt, n);
        return Failure(WeightOutside);
      }
      var r := Mix(weight, SharedReturn(spec.equity, sessions, n).value, SharedReturn(spec.cash, sessions, n).value);
      points := points + [IndexPoint(sessions[n], Times(points[n - 1].value, 1.0 + r))];
      n := n + 1;
    }
    return Success(points);
  }
}
