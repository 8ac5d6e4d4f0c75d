/**
 * The append-only, hash-chained event ledger and its daily seals.  An event may carry any instant, so a day's
 * events need not be contiguous; a seal must stay valid for ever all the same.
 */
module Ledger {
  import opened Wrappers

  /** Milliseconds, and days, since the first instant an ISO text with a four-digit year can write. */
  type Instant = nat
  type Date = nat

  const DAY_MS := 86_400_000

  function DateOf(at: Instant): Date {
    at / DAY_MS
  }

  type Kind = nat
  type Payload = nat

  /**
   * Hash values, as an injective function of what is hashed whose range leaves out the genesis value: a hash is
   * the record it was computed from.  An event's hash covers its five other fields; a root covers a list of hashes.
   */
  datatype Hash =
    | Genesis
    | EventHash(seqNo: nat, at: Instant, kind: Kind, payload: Payload, prev: Hash)
    | RootHash(hashes: seq<Hash>)

  datatype LedgerEvent = LedgerEvent(seqNo: nat, at: Instant, kind: Kind, payload: Payload, prevHash: Hash, hash: Hash)

  function ComputeEventHash(e: LedgerEvent): Hash {
    EventHash(e.seqNo, e.at, e.kind, e.payload, e.prevHash)
  }

  datatype Seal = Seal(firstSeq: Option<nat>, lastSeq: Option<nat>, rootHash: Hash)

  /** The empty kind is written 0. */
  const EMPTY_KIND: Kind := 0

  datatype LedgerError = EmptyKind | SealedDateAppend(date: Date) | SealMismatch(date: Date)

  datatype BreakReason = SequenceGap | PrevHashMismatch | HashMismatch | AnchorMissing
  datatype Verdict = Intact | Broken(at: int, reason: BreakReason)

  // ---------------------------------------------------------------------------------------------
  // Verification, on any stored table
  // ---------------------------------------------------------------------------------------------

  /** The events table: its primary key orders it, and numbers start at 1. */
  predicate IsTable(events: seq<LedgerEvent>) {
    && (forall i :: 0 <= i < |events| ==> events[i].seqNo >= 1)
    && (forall i, j :: 0 <= i < j < |events| ==> events[i].seqNo < events[j].seqNo)
  }

  /** The verdict on a stretch that must start at `expected` and link to `prev`. */
  function VerdictFrom(events: seq<LedgerEvent>, prev: Hash, expected: int): Verdict
    decreases |events|
  {
    if events == [] then Intact
    else
      var e := events[0];
      if e.seqNo != expected then Broken(e.seqNo, SequenceGap)
      else if e.prevHash != prev then Broken(e.seqNo, PrevHashMismatch)
      else if ComputeEventHash(e) != e.hash then Broken(e.seqNo, HashMismatch)
      else VerdictFrom(events[1..], e.hash, expected + 1)
  }

  /** The verdict of the exported check: the expected number is taken from the first event itself. */
  function ChainVerdict(events: seq<LedgerEvent>, prev: Hash): Verdict {
    VerdictFrom(events, prev, if events == [] then 1 else events[0].seqNo)
  }

  method VerifyEventChain(events: seq<LedgerEvent>, expectedFirstPrev: Hash) returns (v: Verdict)
    ensures v == ChainVerdict(events, expectedFirstPrev)
  {
    var prev := expectedFirstPrev;
    var expectedSeq := if events == [] then 1 else events[0].seqNo;
    for i := 0 to |events|
      invariant VerdictFrom(events[i..], prev, expectedSeq) == ChainVerdict(events, expectedFirstPrev)
    {
      var e := events[i];
      if e.seqNo != expectedSeq {
        return Broken(e.seqNo, SequenceGap);
      }
      if e.prevHash != prev {
        return Broken(e.seqNo, PrevHashMismatch);
      }
      if ComputeEventHash(e) != e.hash {
        return Broken(e.seqNo, HashMismatch);
      }
      assert events[i..][1..] == events[i + 1..];
      prev := e.hash;
      expectedSeq := expectedSeq + 1;
    }
    return Intact;
  }

  /** Events with sequence numbers up to `n`, ascending. */
  function UpTo(events: seq<LedgerEvent>, n: nat): seq<LedgerEvent>
    decreases |events|
  {
    if events == [] then []
    else if events[0].seqNo <= n then [events[0]] + UpTo(events[1..], n)
    else UpTo(events[1..], n)
  }

  /** Events with sequence numbers above `n`, ascending. */
  function After(events: seq<LedgerEvent>, n: nat): seq<LedgerEvent>
    decreases |events|
  {
    if events == [] then []
    else if events[0].seqNo > n then [events[0]] + After(events[1..], n)
    else After(events[1..], n)
  }

  function FindEvent(events: seq<LedgerEvent>, seqNo: nat): Option<LedgerEvent>
    decreases |events|
  {
    if events == [] then None
    else if events[0].seqNo == seqNo then Some(events[0])
    else FindEvent(events[1..], seqNo)
  }

  /** The check of the unsealed tail, anchored on the stored hash of the last sealed event. */
  function TailVerdict(events: seq<LedgerEvent>, anchorSeq: Option<nat>): Verdict {
    if anchorSeq.None? then ChainVerdict(events, Genesis)
    else
      var anchor := FindEvent(events, anchorSeq.value);
      if anchor.None? then Broken(anchorSeq.value, AnchorMissing)
      else
        var tail := After(events, anchorSeq.value);
        if tail == [] then Intact
        else if tail[0].seqNo != anchorSeq.value + 1 then Broken(anchorSeq.value + 1, SequenceGap)
        else ChainVerdict(tail, anchor.value.hash)
  }

  lemma {:induction false} TableTail(events: seq<LedgerEvent>)
    requires IsTable(events) && events != []
    ensures IsTable(events[1..])
  {
  }

  lemma {:induction false} AllAfter(events: seq<LedgerEvent>, n: nat)
    requires forall e :: e in events ==> e.seqNo > n
    ensures After(events, n) == events && UpTo(events, n) == []
    decreases |events|
  {
    if events != [] {
      assert events[0] in events && forall e :: e in events[1..] ==> e in events;
      AllAfter(events[1..], n);
      assert events == [events[0]] + events[1..];
    }
  }

  lemma {:induction false} LaterNumbersAreHigher(events: seq<LedgerEvent>)
    requires IsTable(events) && events != []
    ensures forall e :: e in events[1..] ==> e.seqNo > events[0].seqNo
  {
  }

  /** Cutting a table at a number loses nothing. */
  lemma {:induction false} CutAt(events: seq<LedgerEvent>, n: nat)
    requires IsTable(events)
    ensures events == UpTo(events, n) + After(events, n)
    decreases |events|
  {
    if events != [] {
      LaterNumbersAreHigher(events);
      if events[0].seqNo <= n {
        TableTail(events);
        CutAt(events[1..], n);
        FirstBeforeCut(events, n);
      } else {
        AllAfter(events, n);
      }
    }
  }

  lemma {:induction false} FirstBeforeCut(events: seq<LedgerEvent>, n: nat)
    requires events != [] && events[0].seqNo <= n && events[1..] == UpTo(events[1..], n) + After(events[1..], n)
    ensures events == UpTo(events, n) + After(events, n)
  {
    assert UpTo(events, n) == [events[0]] + UpTo(events[1..], n);
    assert After(events, n) == After(events[1..], n);
    assert events == [events[0]] + events[1..];
  }

  /** The first part of a cut ends with the event of that number, if it is stored. */
  lemma {:induction false} CutEndsAt(events: seq<LedgerEvent>, n: nat)
    requires IsTable(events) && FindEvent(events, n).Some?
    ensures UpTo(events, n) != []
    ensures var last := UpTo(events, n)[|UpTo(events, n)| - 1];
            last == FindEvent(events, n).value && last.seqNo == n
    decreases |events|
  {
    TableTail(events);
    LaterNumbersAreHigher(events);
    if events[0].seqNo == n {
      AllAfter(events[1..], n);
    } else {
      CutEndsAt(events[1..], n);
      if events[0].seqNo > n {
        NotFound(events[1..], n);
      }
    }
  }

  lemma {:induction false} NotFound(events: seq<LedgerEvent>, n: nat)
    requires forall e :: e in events ==> e.seqNo != n
    ensures FindEvent(events, n).None?
    decreases |events|
  {
    if events != [] {
      assert events[0] in events;
      NotFound(events[1..], n);
    }
  }

  /** Checking a concatenation is checking the first part, then the second from where the first left off. */
  lemma {:induction false} VerdictConcat(a: seq<LedgerEvent>, b: seq<LedgerEvent>, prev: Hash, expected: int)
    ensures VerdictFrom(a + b, prev, expected)
            == if VerdictFrom(a, prev, expected) != Intact then VerdictFrom(a, prev, expected)
               else VerdictFrom(b, if a == [] then prev else a[|a| - 1].hash, expected + |a|)
    decreases |a|
  {
    if a == [] {
      assert a + b == b;
    } else {
      assert (a + b)[1..] == a[1..] + b;
      VerdictConcat(a[1..], b, a[0].hash, expected + 1);
    }
  }

  lemma {:induction false} LastNumber(a: seq<LedgerEvent>, prev: Hash, expected: int)
    requires a != [] && VerdictFrom(a, prev, expected) == Intact
    ensures a[|a| - 1].seqNo == expected + |a| - 1
    decreases |a|
  {
    if |a| > 1 {
      LastNumber(a[1..], a[0].hash, expected + 1);
    }
  }

  /**
   * On any stored table, sound or tampered with, whose anchor event is present: the full check passes exactly
   * when the sealed prefix and the tail check both do.  The boundary test makes the tail's own starting number safe.
   */
  lemma {:induction false} FullCheckIsPrefixAndTail(events: seq<LedgerEvent>, anchorSeq: nat)
    requires IsTable(events) && FindEvent(events, anchorSeq).Some?
    ensures ChainVerdict(events, Genesis) == Intact
            <==> ChainVerdict(UpTo(events, anchorSeq), Genesis) == Intact && TailVerdict(events, Some(anchorSeq)) == Intact
    ensures ChainVerdict(UpTo(events, anchorSeq), Genesis) == Intact
            && (After(events, anchorSeq) == [] || After(events, anchorSeq)[0].seqNo == anchorSeq + 1)
            ==> ChainVerdict(events, Genesis) == TailVerdict(events, Some(anchorSeq))
  {
    var prefix, tail := UpTo(events, anchorSeq), After(events, anchorSeq);
    CutAt(events, anchorSeq);
    CutEndsAt(events, anchorSeq);
    var first := events[0].seqNo;
    assert prefix[0] == events[0];
    VerdictConcat(prefix, tail, Genesis, first);
    if VerdictFrom(prefix, Genesis, first) == Intact {
      LastNumber(prefix, Genesis, first);
    }
  }

  /** A chain pins its whole past: two intact tables with the same last hash are the same table. */
  lemma {:induction false} HeadHashPinsTheLedger(a: seq<LedgerEvent>, b: seq<LedgerEvent>)
    requires a != [] && b != []
    requires ChainVerdict(a, Genesis) == Intact && ChainVerdict(b, Genesis) == Intact
    requires a[|a| - 1].hash == b[|b| - 1].hash
    ensures a == b
    decreases |a|
  {
    var a0, b0 := a[..|a| - 1], b[..|b| - 1];
    var x, y := a[|a| - 1], b[|b| - 1];
    assert a == a0 + [x] && b == b0 + [y];
    VerdictConcat(a0, [x], Genesis, a[0].seqNo);
    VerdictConcat(b0, [y], Genesis, b[0].seqNo);
    assert x == y;
    if a0 == [] || b0 == [] {
      PrevIsNotGenesis(a0, a[0].seqNo);
      PrevIsNotGenesis(b0, b[0].seqNo);
    } else {
      HeadHashPinsTheLedger(a0, b0);
    }
  }

  lemma {:induction false} PrevIsNotGenesis(a: seq<LedgerEvent>, first: int)
    requires VerdictFrom(a, Genesis, first) == Intact
    ensures a != [] ==> a[|a| - 1].hash != Genesis
  {
    if a != [] {
      assert a == a[..|a| - 1] + [a[|a| - 1]];
      VerdictConcat(a[..|a| - 1], [a[|a| - 1]], Genesis, first);
    }
  }

  // ---------------------------------------------------------------------------------------------
  // Daily roots and seals
  // ---------------------------------------------------------------------------------------------

  /** Events of one UTC date, ascending, wherever in the table they stand. */
  function EventsOn(events: seq<LedgerEvent>, date: Date): seq<LedgerEvent>
    decreases |events|
  {
    if events == [] then []
    else
      var n := |events| - 1;
      var earlier := EventsOn(events[..n], date);
      if date * DAY_MS <= events[n].at < (date + 1) * DAY_MS then earlier + [events[n]] else earlier
  }

  function HashesOf(events: seq<LedgerEvent>): seq<Hash> {
    seq(|events|, i requires 0 <= i < |events| => events[i].hash)
  }

  function DailySeal(events: seq<LedgerEvent>, date: Date): Seal {
    var day := EventsOn(events, date);
    Seal(if day == [] then None else Some(day[0].seqNo),
         if day == [] then None else Some(day[|day| - 1].seqNo),
         RootHash(HashesOf(day)))
  }

  datatype LedgerState = LedgerState(events: seq<LedgerEvent>, seals: map<Date, Seal>)

  const EMPTY_LEDGER := LedgerState([], map[])

  function Append(s: LedgerState, kind: Kind, payload: Payload, at: Instant): Result<LedgerState, LedgerError> {
    if kind == EMPTY_KIND then Failure(EmptyKind)
    else if DateOf(at) in s.seals then Failure(SealedDateAppend(DateOf(at)))
    else
      var n := |s.events|;
      var seqNo := if n == 0 then 1 else s.events[n - 1].seqNo + 1;
      var prev := if n == 0 then Genesis else s.events[n - 1].hash;
      Success(s.(events := s.events + [LedgerEvent(seqNo, at, kind, payload, prev, EventHash(seqNo, at, kind, payload, prev))]))
  }

  function SealDaily(s: LedgerState, date: Date): Result<LedgerState, LedgerError> {
    var computed := DailySeal(s.events, date);
    if date in s.seals then
      if s.seals[date].rootHash != computed.rootHash then Failure(SealMismatch(date)) else Success(s)
    else Success(s.(seals := s.seals[date := computed]))
  }

  /** The highest event number any seal covers. */
  ghost predicate IsMaxSealed(seals: map<Date, Seal>, n: Option<nat>) {
    match n
    case None => forall d :: d in seals ==> seals[d].lastSeq.None?
    case Some(m) =>
      && (exists d :: d in seals && seals[d].lastSeq == Some(m))
      && (forall d :: d in seals && seals[d].lastSeq.Some? ==> seals[d].lastSeq.value <= m)
  }

  lemma {:induction false} MaxOneMore(seals: map<Date, Seal>, date: Date, seal: Seal, n: Option<nat>)
    requires IsMaxSealed(seals, n) && date !in seals
    ensures IsMaxSealed(seals[date := seal],
                        if seal.lastSeq.Some? && (n.None? || seal.lastSeq.value > n.value) then seal.lastSeq else n)
  {
    var after := seals[date := seal];
    assert date in after && after[date] == seal;
    if n.Some? {
      var d :| d in seals && seals[d].lastSeq == n;
      assert d in after && after[d] == seals[d];
    }
  }

  // ---------------------------------------------------------------------------------------------
  // Whole runs
  // ---------------------------------------------------------------------------------------------

  datatype LedgerOp = AppendOp(kind: Kind, payload: Payload, at: Instant) | SealOp(date: Date)

  /** A refused operation throws and leaves both tables as they were. */
  function LedgerStep(s: LedgerState, op: LedgerOp): LedgerState {
    var r := match op
             case AppendOp(kind, payload, at) => Append(s, kind, payload, at)
             case SealOp(date) => SealDaily(s, date);
    if r.Success? then r.value else s
  }

  function LedgerRun(s: LedgerState, ops: seq<LedgerOp>): LedgerState
    decreases |ops|
  {
    if ops == [] then s else LedgerRun(LedgerStep(s, ops[0]), ops[1..])
  }

  /** Numbers run from 1 without a gap, the chain is intact, and every seal is the one its day still computes. */
  ghost predicate Sound(s: LedgerState) {
    && VerdictFrom(s.events, Genesis, 1) == Intact
    && (forall d :: d in s.seals ==> s.seals[d] == DailySeal(s.events, d))
  }

  lemma {:induction false} OneLink(e: LedgerEvent, prev: Hash, expected: int)
    requires e.seqNo == expected && e.prevHash == prev && e.hash == ComputeEventHash(e)
    ensures VerdictFrom([e], prev, expected) == Intact
  {
    assert [e][1..] == [];
    assert VerdictFrom([e][1..], e.hash, expected + 1) == Intact;
  }

  lemma {:induction false} LinkKeepsChain(events: seq<LedgerEvent>, e: LedgerEvent)
    requires VerdictFrom(events, Genesis, 1) == Intact && e.hash == ComputeEventHash(e)
    requires e.seqNo == if events == [] then 1 else events[|events| - 1].seqNo + 1
    requires e.prevHash == if events == [] then Genesis else events[|events| - 1].hash
    ensures VerdictFrom(events + [e], Genesis, 1) == Intact
  {
    VerdictConcat(events, [e], Genesis, 1);
    if events != [] {
      LastNumber(events, Genesis, 1);
    }
    OneLink(e, e.prevHash, 1 + |events|);
  }

  lemma {:induction false} OtherDaysKeepTheirEvents(events: seq<LedgerEvent>, e: LedgerEvent, date: Date)
    requires date != DateOf(e.at)
    ensures EventsOn(events + [e], date) == EventsOn(events, date)
  {
    assert (events + [e])[..|events|] == events;
  }

  lemma {:induction false} SoundOneMore(s: LedgerState, e: LedgerEvent)
    requires Sound(s) && e.hash == ComputeEventHash(e) && DateOf(e.at) !in s.seals
    requires e.seqNo == if s.events == [] then 1 else s.events[|s.events| - 1].seqNo + 1
    requires e.prevHash == if s.events == [] then Genesis else s.events[|s.events| - 1].hash
    ensures Sound(LedgerState(s.events + [e], s.seals))
  {
    LinkKeepsChain(s.events, e);
    forall d | d in s.seals ensures s.seals[d] == DailySeal(s.events + [e], d) {
      OtherDaysKeepTheirEvents(s.events, e, d);
    }
  }

  lemma {:induction false} AppendKeeps(s: LedgerState, kind: Kind, payload: Payload, at: Instant)
    requires Sound(s) && Append(s, kind, payload, at).Success?
    ensures Sound(Append(s, kind, payload, at).value)
  {
    var e := Append(s, kind, payload, at).value.events[|s.events|];
    SoundOneMore(s, e);
    assert Append(s, kind, payload, at).value == LedgerState(s.events + [e], s.seals);
  }

  lemma {:induction false} RunSound(s: LedgerState, ops: seq<LedgerOp>)
    requires Sound(s)
    ensures Sound(LedgerRun(s, ops))
    decreases |ops|
  {
    if ops != [] {
      match ops[0] {
        case AppendOp(kind, payload, at) =>
          if Append(s, kind, payload, at).Success? { AppendKeeps(s, kind, payload, at); }
        case SealOp(_) =>
      }
      RunSound(LedgerStep(s, ops[0]), ops[1..]);
    }
  }

  lemma {:induction false} NumbersFrom(events: seq<LedgerEvent>, prev: Hash, expected: nat)
    requires VerdictFrom(events, prev, expected) == Intact
    ensures forall i :: 0 <= i < |events| ==> events[i].seqNo == expected + i
    decreases |events|
  {
    if events != [] {
      NumbersFrom(events[1..], events[0].hash, expected + 1);
      forall i | 0 <= i < |events| ensures events[i].seqNo == expected + i {
        if i > 0 { assert events[i] == events[1..][i - 1]; }
      }
    }
  }

  lemma {:induction false} DayIsStored(events: seq<LedgerEvent>, date: Date, e: LedgerEvent)
    requires e in EventsOn(events, date)
    ensures e in events
    decreases |events|
  {
    var n := |events| - 1;
    if e in EventsOn(events[..n], date) {
      DayIsStored(events[..n], date, e);
    }
  }

  lemma {:induction false} FindStored(events: seq<LedgerEvent>, e: LedgerEvent)
    requires e in events
    ensures FindEvent(events, e.seqNo).Some?
    decreases |events|
  {
    if events[0].seqNo != e.seqNo {
      FindStored(events[1..], e);
    }
  }

  /** After any run of appends and seals, in any order and with any dates, every check passes. */
  lemma {:induction false} EveryCheckPasses(ops: seq<LedgerOp>, anchor: Option<nat>)
    requires IsMaxSealed(LedgerRun(EMPTY_LEDGER, ops).seals, anchor)
    ensures var s := LedgerRun(EMPTY_LEDGER, ops);
            && ChainVerdict(s.events, Genesis) == Intact
            && (forall d :: d in s.seals ==> s.seals[d] == DailySeal(s.events, d))
            && TailVerdict(s.events, anchor) == Intact
  {
    RunSound(EMPTY_LEDGER, ops);
    var s := LedgerRun(EMPTY_LEDGER, ops);
    NumbersFrom(s.events, Genesis, 1);
    if anchor.Some? {
      var d :| d in s.seals && s.seals[d].lastSeq == anchor;
      LastOfDayIsStored(s.events, d, anchor.value);
      FullCheckIsPrefixAndTail(s.events, anchor.value);
    }
  }

  lemma {:induction false} LastOfDayIsStored(events: seq<LedgerEvent>, d: Date, n: nat)
    requires DailySeal(events, d).lastSeq == Some(n)
    ensures FindEvent(events, n).Some?
  {
    var day := EventsOn(events, d);
    DayIsStored(events, d, day[|day| - 1]);
    FindStored(events, day[|day| - 1]);
  }

  /** Sealing never fails in a run, and sealing a sealed day again changes nothing. */
  lemma {:induction false} SealingNeverMismatches(ops: seq<LedgerOp>, date: Date)
    ensures var s := LedgerRun(EMPTY_LEDGER, ops);
            && SealDaily(s, date).Success?
            && SealDaily(SealDaily(s, date).value, date) == SealDaily(s, date)
  {
    RunSound(EMPTY_LEDGER, ops);
  }

  /** Whatever is appended later, a sealed day keeps exactly the events it was sealed with. */
  lemma {:induction false} SealedDayIsFrozen(s: LedgerState, ops: seq<LedgerOp>, date: Date)
    requires date in s.seals
    ensures var s' := LedgerRun(s, ops);
            && date in s'.seals && s'.seals[date] == s.seals[date]
            && EventsOn(s'.events, date) == EventsOn(s.events, date)
    decreases |ops|
  {
    if ops != [] {
      var s1 := LedgerStep(s, ops[0]);
      if s1.events != s.events {
        assert s1.events[..|s.events|] == s.events;
      }
      SealedDayIsFrozen(s1, ops[1..], date);
    }
  }

  lemma {:induction false} IntactHashes(events: seq<LedgerEvent>, prev: Hash, expected: int)
    requires VerdictFrom(events, prev, expected) == Intact
    ensures forall e :: e in events ==> e.hash == ComputeEventHash(e)
    decreases |events|
  {
    if events != [] {
      IntactHashes(events[1..], events[0].hash, expected + 1);
      assert events == [events[0]] + events[1..];
    }
  }

  lemma {:induction false} DayHashes(events: seq<LedgerEvent>, date: Date)
    requires ChainVerdict(events, Genesis) == Intact
    ensures forall i :: 0 <= i < |EventsOn(events, date)| ==>
      EventsOn(events, date)[i].hash == ComputeEventHash(EventsOn(events, date)[i])
  {
    IntactHashes(events, Genesis, if events == [] then 1 else events[0].seqNo);
    forall i | 0 <= i < |EventsOn(events, date)|
      ensures EventsOn(events, date)[i].hash == ComputeEventHash(EventsOn(events, date)[i])
    {
      DayIsStored(events, date, EventsOn(events, date)[i]);
    }
  }

  /** A seal is tamper evidence: two intact tables seal a date alike exactly when they hold the same events on it. */
  lemma {:induction false} SealPinsTheDay(a: seq<LedgerEvent>, b: seq<LedgerEvent>, date: Date)
    requires ChainVerdict(a, Genesis) == Intact && ChainVerdict(b, Genesis) == Intact
    ensures DailySeal(a, date).rootHash == DailySeal(b, date).rootHash <==> EventsOn(a, date) == EventsOn(b, date)
  {
    var x, y := EventsOn(a, date), EventsOn(b, date);
    DayHashes(a, date);
    DayHashes(b, date);
    if HashesOf(x) == HashesOf(y) {
      assert |x| == |HashesOf(x)| == |y|;
      forall i | 0 <= i < |x| ensures x[i] == y[i] {
        assert x[i].hash == HashesOf(x)[i] == HashesOf(y)[i] == y[i].hash;
      }
    }
  }

  /** So a table rewritten behind a run's seals that still passes both checks has every sealed day's events as they were. */
  lemma {:induction false} PassingChecksPinSealedDays(ops: seq<LedgerOp>, rewritten: seq<LedgerEvent>, date: Date)
    requires var s := LedgerRun(EMPTY_LEDGER, ops);
             date in s.seals && DailySeal(rewritten, date).rootHash == s.seals[date].rootHash
    requires ChainVerdict(rewritten, Genesis) == Intact
    ensures EventsOn(rewritten, date) == EventsOn(LedgerRun(EMPTY_LEDGER, ops).events, date)
  {
    var s := LedgerRun(EMPTY_LEDGER, ops);
    RunSound(EMPTY_LEDGER, ops);
    NumbersFrom(s.events, Genesis, 1);
    SealPinsTheDay(rewritten, s.events, date);
  }

  // ---------------------------------------------------------------------------------------------
  // The ledger itself
  // ---------------------------------------------------------------------------------------------

  class EventLedger {
    var events: seq<LedgerEvent>
    var seals: map<Date, Seal>

    function Value(): LedgerState
      reads this
    {
      LedgerState(events, seals)
    }

    constructor ()
      ensures Value() == EMPTY_LEDGER
    {
      events, seals := [], map[];
    }

    method AppendEvent(kind: Kind, payload: Payload, at: Instant) returns (r: Result<LedgerEvent, LedgerError>)
      modifies this
      ensures match Append(old(Value()), kind, payload, at)
              case Success(s) => Value() == s && r == Success(s.events[|s.events| - 1])
              case Failure(e) => Value() == old(Value()) && r == Failure(e)
    {
      if kind == EMPTY_KIND {
        return Failure(EmptyKind);
      }
      var date := DateOf(at);
      if date in seals {
        return Failure(SealedDateAppend(date));
      }
      var seqNo, prev := 1, Genesis;
      if |events| > 0 {
        var last := events[|events| - 1];
        seqNo, prev := last.seqNo + 1, last.hash;
      }
      var hash := EventHash(seqNo, at, kind, payload, prev);
      var e := LedgerEvent(seqNo, at, kind, payload, prev, hash);
      events := events + [e];
      return Success(e);
    }

    /** One scan for the day's events, wherever they stand. */
    method ComputeDailyRoot(date: Date) returns (computed: Seal)
      ensures computed == DailySeal(events, date)
    {
      var day: seq<LedgerEvent> := [];
      for i := 0 to |events|
        invariant day == EventsOn(events[..i], date)
      {
        if date * DAY_MS <= events[i].at && events[i].at < (date + 1) * DAY_MS {
          day := day + [events[i]];
        }
        assert events[..i + 1][..i] == events[..i];
      }
      assert events[..|events|] == events;
      computed := Seal(None, None, RootHash(HashesOf(day)));
      if day != [] {
        computed := computed.(firstSeq := Some(day[0].seqNo), lastSeq := Some(day[|day| - 1].seqNo));
      }
    }

    method SealDay(date: Date) returns (r: Result<Seal, LedgerError>)
      modifies this
      ensures match SealDaily(old(Value()), date)
              case Success(s) => Value() == s && date in seals && r == Success(seals[date])
              case Failure(e) => Value() == old(Value()) && r == Failure(e)
    {
      var computed := ComputeDailyRoot(date);
      if date in seals {
        if seals[date].rootHash != computed.rootHash {
          return Failure(SealMismatch(date));
        }
        return Success(seals[date]);
      }
      seals := seals[date := computed];
      return Success(computed);
    }

    method MaxSealedSeq() returns (n: Option<nat>)
      ensures IsMaxSealed(seals, n)
    {
      n := None;
      var todo := seals.Keys;
      ghost var done: map<Date, Seal> := map[];
      while todo != {}
        invariant todo <= seals.Keys && done.Keys == seals.Keys - todo
        invariant forall d :: d in done ==> done[d] == seals[d]
        invariant IsMaxSealed(done, n)
        decreases todo
      {
        var d :| d in todo;
        todo := todo - {d};
        var last := seals[d].lastSeq;
        MaxOneMore(done, d, seals[d], n);
        if last.Some? && (n.None? || last.value > n.value) {
          n := last;
        }
        done := done[d := seals[d]];
      }
      assert done == seals;
    }

    /** The health probe's check: only what follows the last sealed event. */
    method VerifyChainSinceLastSeal() returns (v: Verdict)
      ensures exists anchor :: IsMaxSealed(seals, anchor) && v == TailVerdict(events, anchor)
    {
      var anchorSeq := MaxSealedSeq();
      if anchorSeq.None? {
        v := VerifyEventChain(events, Genesis);
        return;
      }
      var anchor := FindEvent(events, anchorSeq.value);
      if anchor.None? {
        return Broken(anchorSeq.value, AnchorMissing);
      }
      var tail := After(events, anchorSeq.value);
      if |tail| == 0 {
        return Intact;
      }
      if tail[0].seqNo != anchorSeq.value + 1 {
        return Broken(anchorSeq.value + 1, SequenceGap);
      }
      v := VerifyEventChain(tail, anchor.value.hash);
    }

    /** Recompute every sealed day and list the days whose root no longer matches. */
    method VerifySeals() returns (mismatches: set<Date>)
      ensures mismatches == set d | d in seals && DailySeal(events, d).rootHash != seals[d].rootHash
    {
      mismatches := {};
      var todo := seals.Keys;
      while todo != {}
        invariant todo <= seals.Keys
        invariant mismatches == set d | d in seals.Keys - todo && DailySeal(events, d).rootHash != seals[d].rootHash
        decreases todo
      {
        var d :| d in todo;
        todo := todo - {d};
        var computed := ComputeDailyRoot(d);
        if computed.rootHash != seals[d].rootHash {
          mismatches := mismatches + {d};
        }
      }
    }
  }
}
