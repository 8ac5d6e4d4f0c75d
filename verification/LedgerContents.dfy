/** What the ledger's tables hold after any run: exactly the accepted appends, as given, and the seals of the days sealed. */
module LedgerContents {
  import opened Wrappers
  import opened Ledger

  /** A row's own content, as the append that made it. */
  function EntryOf(e: LedgerEvent): LedgerOp {
    AppendOp(e.kind, e.payload, e.at)
  }

  function Entries(events: seq<LedgerEvent>): seq<LedgerOp> {
    seq(|events|, i requires 0 <= i < |events| => EntryOf(events[i]))
  }

  /** An append is accepted unless its kind is empty or the day of its instant is sealed. */
  predicate IsAccepted(sealed: set<Date>, op: LedgerOp) {
    op.AppendOp? && op.kind != EMPTY_KIND
    && forall d :: d in sealed ==> !(d * DAY_MS <= op.at < (d + 1) * DAY_MS)
  }

  /** The appends accepted along a run, and the days sealed by then. */
  function Accepted(sealed: set<Date>, ops: seq<LedgerOp>): seq<LedgerOp>
    decreases |ops|
  {
    if ops == [] then []
    else
      match ops[0]
      case SealOp(date) => Accepted(sealed + {date}, ops[1..])
      case AppendOp(_, _, _) => (if IsAccepted(sealed, ops[0]) then [ops[0]] else []) + Accepted(sealed, ops[1..])
  }

  function SealedBy(sealed: set<Date>, ops: seq<LedgerOp>): set<Date> {
    sealed + set op | op in ops && op.SealOp? :: op.date
  }

  lemma {:induction false} DayOf(at: Instant, d: Date)
    ensures DateOf(at) == d <==> d * DAY_MS <= at < (d + 1) * DAY_MS
  {
  }

  lemma {:induction false} AcceptedIff(s: LedgerState, kind: Kind, payload: Payload, at: Instant)
    ensures Append(s, kind, payload, at).Success? <==> IsAccepted(s.seals.Keys, AppendOp(kind, payload, at))
  {
    forall d: Date ensures DateOf(at) == d <==> d * DAY_MS <= at < (d + 1) * DAY_MS {
      DayOf(at, d);
    }
  }

  /** An accepted append adds one row: the given kind, payload and instant, numbered and linked on from the row before. */
  lemma {:induction false} LastRowIsGiven(s: LedgerState, kind: Kind, payload: Payload, at: Instant)
    requires Append(s, kind, payload, at).Success?
    ensures var n, after := |s.events|, Append(s, kind, payload, at).value;
            && |after.events| == n + 1 && after.events[..n] == s.events && after.seals == s.seals
            && var e := after.events[n];
               && e.kind == kind && e.payload == payload && e.at == at
               && e.seqNo == (if n == 0 then 1 else s.events[n - 1].seqNo + 1)
               && e.prevHash == (if n == 0 then Genesis else s.events[n - 1].hash)
               && e.hash == EventHash(e.seqNo, e.at, e.kind, e.payload, e.prevHash)
  {
  }

  lemma {:induction false} EntriesOneMore(events: seq<LedgerEvent>, e: LedgerEvent)
    ensures Entries(events + [e]) == Entries(events) + [EntryOf(e)]
  {
  }

  function Taken(sealed: set<Date>, op: LedgerOp): seq<LedgerOp> {
    if IsAccepted(sealed, op) then [op] else []
  }

  function Closing(op: LedgerOp): set<Date> {
    if op.SealOp? then {op.date} else {}
  }

  lemma {:induction false} StepRecords(s: LedgerState, op: LedgerOp)
    requires Sound(s)
    ensures var after := LedgerStep(s, op);
            && Sound(after)
            && Entries(after.events) == Entries(s.events) + Taken(s.seals.Keys, op)
            && after.seals.Keys == s.seals.Keys + Closing(op)
  {
    match op {
      case AppendOp(kind, payload, at) =>
        AcceptedIff(s, kind, payload, at);
        if Append(s, kind, payload, at).Success? {
          AppendKeeps(s, kind, payload, at);
          LastRowIsGiven(s, kind, payload, at);
          var after := Append(s, kind, payload, at).value;
          assert after.events == s.events + [after.events[|s.events|]];
          EntriesOneMore(s.events, after.events[|s.events|]);
        }
      case SealOp(date) =>
    }
  }

  lemma {:induction false} AcceptedStep(sealed: set<Date>, ops: seq<LedgerOp>)
    requires ops != []
    ensures Accepted(sealed, ops) == Taken(sealed, ops[0]) + Accepted(sealed + Closing(ops[0]), ops[1..])
    ensures SealedBy(sealed, ops) == SealedBy(sealed + Closing(ops[0]), ops[1..])
  {
    assert ops == [ops[0]] + ops[1..];
    if !ops[0].SealOp? {
      assert sealed + Closing(ops[0]) == sealed;
    }
  }

  /** The rows after any run are those before it and then the accepted appends, in order and as given. */
  lemma {:induction false} RunRecordsAppends(s: LedgerState, ops: seq<LedgerOp>)
    requires Sound(s)
    ensures var after := LedgerRun(s, ops);
            && Entries(after.events) == Entries(s.events) + Accepted(s.seals.Keys, ops)
            && after.seals.Keys == SealedBy(s.seals.Keys, ops)
    decreases |ops|
  {
    if ops != [] {
      var s1 := LedgerStep(s, ops[0]);
      StepRecords(s, ops[0]);
      RunRecordsAppends(s1, ops[1..]);
      AcceptedStep(s.seals.Keys, ops);
      Regrouped(Entries(s.events), Taken(s.seals.Keys, ops[0]), Accepted(s1.seals.Keys, ops[1..]));
    }
  }

  lemma {:induction false} Regrouped(a: seq<LedgerOp>, b: seq<LedgerOp>, c: seq<LedgerOp>)
    ensures (a + b) + c == a + (b + c)
  {
  }

  // ---------------------------------------------------------------------------------------------
  // What a seal covers
  // ---------------------------------------------------------------------------------------------

  predicate IsOn(e: LedgerEvent, date: Date) {
    date * DAY_MS <= e.at < (date + 1) * DAY_MS
  }

  lemma {:induction false} DayHolds(events: seq<LedgerEvent>, date: Date, e: LedgerEvent)
    ensures e in EventsOn(events, date) <==> e in events && IsOn(e, date)
    decreases |events|
  {
    if events != [] {
      var front, last := events[..|events| - 1], events[|events| - 1];
      DayHolds(front, date, e);
      assert events == front + [last];
    }
  }

  lemma {:induction false} DayAscends(events: seq<LedgerEvent>, date: Date)
    requires IsTable(events)
    ensures IsTable(EventsOn(events, date))
    decreases |events|
  {
    if events != [] {
      var front, last := events[..|events| - 1], events[|events| - 1];
      DayAscends(front, date);
      forall e | e in EventsOn(front, date) ensures e.seqNo < last.seqNo {
        DayHolds(front, date, e);
      }
    }
  }

  /** A seal's range runs from the least to the greatest number of the day's events, and is absent on a day without any. */
  lemma {:induction false} SealRange(events: seq<LedgerEvent>, date: Date)
    requires IsTable(events)
    ensures var seal := DailySeal(events, date);
            && (seal.firstSeq.None? <==> forall e :: e in events ==> !IsOn(e, date))
            && (seal.lastSeq.None? <==> seal.firstSeq.None?)
            && (forall e :: e in events && IsOn(e, date) ==> seal.firstSeq.Some? && seal.firstSeq.value <= e.seqNo <= seal.lastSeq.value)
            && (seal.firstSeq.Some? ==> exists e :: e in events && IsOn(e, date) && e.seqNo == seal.firstSeq.value)
            && (seal.lastSeq.Some? ==> exists e :: e in events && IsOn(e, date) && e.seqNo == seal.lastSeq.value)
  {
    var day := EventsOn(events, date);
    DayAscends(events, date);
    forall e ensures e in day <==> e in events && IsOn(e, date) {
      DayHolds(events, date, e);
    }
    if day != [] {
      assert day[0] in day && day[|day| - 1] in day;
    }
  }
}
