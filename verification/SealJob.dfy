/**
 * The daily seal job: it seals the whole backlog of days with events, up to a grace window behind the clock, and so
 * decides how stale an event's stamp may be before its append is refused.
 */
module SealJob {
  import opened Wrappers
  import opened Ledger

  /** Days left open beyond the current one. */
  const SEAL_GRACE_DAYS := 1

  /** The newest date the job may seal. */
  function SealThroughDate(now: Instant): int {
    DateOf(now) - (1 + SEAL_GRACE_DAYS)
  }

  function EventDates(events: seq<LedgerEvent>): set<Date> {
    set e | e in events :: DateOf(e.at)
  }

  /** Dates with events but no seal. */
  function UnsealedDates(s: LedgerState, through: int): set<Date> {
    set d | d in EventDates(s.events) && d <= through && d !in s.seals
  }

  /** The kind of the job's own event. */
  const LEDGER_SEALED: Kind := 1

  function WithSeals(s: LedgerState, dates: set<Date>): LedgerState {
    s.(seals := s.seals + SealsOf(s.events, dates))
  }

  function SealsOf(events: seq<LedgerEvent>, dates: set<Date>): map<Date, Seal> {
    map d | d in dates :: DailySeal(events, d)
  }

  lemma {:induction false} MapOneMore(base: map<Date, Seal>, more: map<Date, Seal>, date: Date, seal: Seal)
    ensures base + more[date := seal] == (base + more)[date := seal]
  {
  }

  lemma {:induction false} SealsOneMore(events: seq<LedgerEvent>, dates: set<Date>, date: Date)
    ensures SealsOf(events, dates + {date}) == SealsOf(events, dates)[date := DailySeal(events, date)]
  {
  }

  /** One run of the job; each seal is its own transaction, so a refused report leaves the seals. */
  function AfterJob(s: LedgerState, report: Payload, now: Instant): LedgerState {
    var pending := UnsealedDates(s, SealThroughDate(now));
    var sealed := WithSeals(s, pending);
    if pending == {} then s
    else
      match Append(sealed, LEDGER_SEALED, report, now)
      case Success(reported) => reported
      case Failure(_) => sealed
  }

  lemma {:induction false} NotYetSealed(base: map<Date, Seal>, more: map<Date, Seal>, date: Date)
    requires date !in base && date !in more
    ensures date !in base + more
  {
  }

  lemma {:induction false} WithOneSeal(s: LedgerState, sealed: set<Date>, date: Date)
    requires date !in s.seals && date !in sealed
    ensures SealDaily(WithSeals(s, sealed), date) == Success(WithSeals(s, sealed + {date}))
  {
    SealsOneMore(s.events, sealed, date);
    MapOneMore(s.seals, SealsOf(s.events, sealed), date, DailySeal(s.events, date));
    NotYetSealed(s.seals, SealsOf(s.events, sealed), date);
  }

  method SealDates(ledger: EventLedger, pending: set<Date>)
    requires forall d :: d in pending ==> d !in ledger.seals
    modifies ledger
    ensures ledger.Value() == WithSeals(old(ledger.Value()), pending)
  {
    ghost var s := ledger.Value();
    var todo := pending;
    ghost var sealed: set<Date> := {};
    assert WithSeals(s, {}).seals == s.seals;
    while todo != {}
      invariant todo !! sealed && todo + sealed == pending
      invariant ledger.Value() == WithSeals(s, sealed)
      decreases |todo|
    {
      var date :| date in todo;
      WithOneSeal(s, sealed, date);
      var _ := ledger.SealDay(date);
      todo, sealed := todo - {date}, sealed + {date};
    }
    assert sealed == pending;
  }

  method RunSealJob(ledger: EventLedger, report: Payload, now: Instant) returns (r: Result<set<Date>, LedgerError>)
    modifies ledger
    ensures ledger.Value() == AfterJob(old(ledger.Value()), report, now)
    ensures r.Success? ==> r.value == UnsealedDates(old(ledger.Value()), SealThroughDate(now))
    ensures r.Failure? ==> r.error == SealedDateAppend(DateOf(now))
  {
    var pending := UnsealedDates(ledger.Value(), SealThroughDate(now));
    SealDates(ledger, pending);
    if pending != {} {
      var reported := ledger.AppendEvent(LEDGER_SEALED, report, now);
      if reported.Failure? {
        return Failure(reported.error);
      }
    }
    return Success(pending);
  }

  // ---------------------------------------------------------------------------------------------
  // What a run of the job leaves
  // ---------------------------------------------------------------------------------------------

  /** The backlog is gone: nothing up to the grace window is left unsealed. */
  lemma {:induction false} NoBacklogIsLeft(s: LedgerState, report: Payload, now: Instant)
    ensures UnsealedDates(AfterJob(s, report, now), SealThroughDate(now)) == {}
  {
    var pending := UnsealedDates(s, SealThroughDate(now));
    var s' := AfterJob(s, report, now);
    forall d | d in EventDates(s'.events) && d <= SealThroughDate(now) ensures d in s'.seals {
      var e :| e in s'.events && DateOf(e.at) == d;
      assert e in s.events;
      assert d in EventDates(s.events);
      assert d in s.seals || d in pending;
    }
  }

  lemma {:induction false} JobKeepsSound(s: LedgerState, report: Payload, now: Instant)
    requires Sound(s)
    ensures Sound(AfterJob(s, report, now))
  {
    var sealed := WithSeals(s, UnsealedDates(s, SealThroughDate(now)));
    assert Sound(sealed);
    if Append(sealed, LEDGER_SEALED, report, now).Success? {
      AppendKeeps(sealed, LEDGER_SEALED, report, now);
    }
  }

  // ---------------------------------------------------------------------------------------------
  // How stale a stamp may be
  // ---------------------------------------------------------------------------------------------

  datatype Step = Stamped(kind: Kind, payload: Payload, at: Instant) | Job(report: Payload, now: Instant)

  function Taken(s: LedgerState, step: Step): LedgerState {
    match step
    case Stamped(kind, payload, at) => LedgerStep(s, AppendOp(kind, payload, at))
    case Job(report, now) => AfterJob(s, report, now)
  }

  function Run(steps: seq<Step>): LedgerState
    decreases |steps|
  {
    if steps == [] then EMPTY_LEDGER else Taken(Run(steps[..|steps| - 1]), steps[|steps| - 1])
  }

  /** Every job of the run ran by an instant. */
  ghost predicate JobsBy(steps: seq<Step>, now: Instant) {
    forall step :: step in steps && step.Job? ==> step.now <= now
  }

  /** In any run of appends with any stamps and of the job, every check of the ledger passes. */
  lemma {:induction false} RunIsSound(steps: seq<Step>)
    ensures Sound(Run(steps))
    decreases |steps|
  {
    if steps != [] {
      var s, step := Run(steps[..|steps| - 1]), steps[|steps| - 1];
      RunIsSound(steps[..|steps| - 1]);
      match step {
        case Stamped(kind, payload, at) =>
          if Append(s, kind, payload, at).Success? { AppendKeeps(s, kind, payload, at); }
        case Job(report, now) => JobKeepsSound(s, report, now);
      }
    }
  }

  lemma {:induction false} SealedStaysBehind(steps: seq<Step>, now: Instant, d: Date)
    requires JobsBy(steps, now) && d in Run(steps).seals
    ensures d <= SealThroughDate(now)
    decreases |steps|
  {
    var front, step := steps[..|steps| - 1], steps[|steps| - 1];
    var s := Run(front);
    assert step in steps && forall x :: x in front ==> x in steps;
    if d in s.seals {
      SealedStaysBehind(front, now, d);
    } else {
      assert step.Job? && d in UnsealedDates(s, SealThroughDate(step.now));
      LaterDate(step.now, now);
    }
  }

  lemma {:induction false} LaterDate(a: Instant, b: Instant)
    requires a <= b
    ensures DateOf(a) <= DateOf(b)
  {
  }

  ghost predicate AlwaysLands(kind: Kind, payload: Payload, at: Instant, now: Instant) {
    forall steps :: JobsBy(steps, now) ==> Append(Run(steps), kind, payload, at).Success?
  }

  /** The run that refuses it: one event of that day, and the job. */
  function Refusing(at: Instant, now: Instant): seq<Step> {
    [Stamped(LEDGER_SEALED, 0, at), Job(0, now)]
  }

  lemma {:induction false} OneEventRun(at: Instant)
    ensures var s := Run([Stamped(LEDGER_SEALED, 0, at)]); DateOf(at) in EventDates(s.events) && s.seals == map[]
  {
    var first := [Stamped(LEDGER_SEALED, 0, at)];
    RunOneMore([], first[0]);
    assert [] + first == first;
    var s := Run(first);
    assert s == LedgerStep(EMPTY_LEDGER, AppendOp(LEDGER_SEALED, 0, at));
    assert s.events[0] in s.events && DateOf(s.events[0].at) == DateOf(at);
  }

  lemma {:induction false} RunOneMore(steps: seq<Step>, step: Step)
    ensures Run(steps + [step]) == Taken(Run(steps), step)
  {
    assert (steps + [step])[..|steps|] == steps;
  }

  lemma {:induction false} JobSealsOldDates(s: LedgerState, report: Payload, now: Instant, d: Date)
    requires d in EventDates(s.events) && d <= SealThroughDate(now)
    ensures d in AfterJob(s, report, now).seals
  {
    assert d in s.seals || d in UnsealedDates(s, SealThroughDate(now));
  }

  lemma {:induction false} RefusingSeals(at: Instant, now: Instant)
    requires DateOf(at) <= SealThroughDate(now)
    ensures JobsBy(Refusing(at, now), now) && DateOf(at) in Run(Refusing(at, now)).seals
  {
    var first := [Stamped(LEDGER_SEALED, 0, at)];
    assert Refusing(at, now) == first + [Job(0, now)];
    OneEventRun(at);
    RunOneMore(first, Job(0, now));
    JobSealsOldDates(Run(first), 0, now, DateOf(at));
  }

  /**
   * An event stamped `at` and appended by `now` is accepted after every run exactly when its stamp is no staler than
   * one day and the time of day.  The comment on the grace window promises two days.
   */
  lemma {:induction false} AlwaysLandsIff(kind: Kind, payload: Payload, at: Instant, now: Instant)
    requires kind != EMPTY_KIND
    ensures AlwaysLands(kind, payload, at, now) <==> now - at <= DAY_MS + now % DAY_MS
  {
    StalenessByDate(at, now);
    if DateOf(at) <= SealThroughDate(now) {
      RefusingSeals(at, now);
      assert Append(Run(Refusing(at, now)), kind, payload, at).Failure?;
    } else {
      forall steps | JobsBy(steps, now) ensures Append(Run(steps), kind, payload, at).Success? {
        if DateOf(at) in Run(steps).seals {
          SealedStaysBehind(steps, now, DateOf(at));
        }
      }
    }
  }

  lemma {:induction false} StalenessByDate(at: Instant, now: Instant)
    ensures DateOf(at) > SealThroughDate(now) <==> now - at <= DAY_MS + now % DAY_MS
  {
    var m, n := DateOf(at), DateOf(now);
    assert at == m * DAY_MS + at % DAY_MS && now == n * DAY_MS + now % DAY_MS;
  }

  /** A stamp two days stale, less an hour, is refused just after the job at five past midnight. */
  lemma {:induction false} TwoDaysStaleIsRefused(kind: Kind, payload: Payload)
    requires kind != EMPTY_KIND
    ensures var now := 10 * DAY_MS + 300_000; var at := now - (2 * DAY_MS - 3_600_000);
            !AlwaysLands(kind, payload, at, now)
  {
    var now: Instant := 10 * DAY_MS + 300_000;
    AlwaysLandsIff(kind, payload, now - (2 * DAY_MS - 3_600_000), now);
  }
}
