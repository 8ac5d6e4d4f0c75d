/** The exchange calendar as the shadow jobs use it, and the sessions by which an outcome is due and owed. */
module ShadowCalendar {
  import opened Wrappers

  type Date = nat
  type Instant = nat

  /** The sessions in order, each with the instant its regular session closes. */
  datatype Calendar = Calendar(sessions: seq<Date>, closes: seq<Instant>) {
    ghost predicate Valid() {
      && |sessions| == |closes|
      && (forall i, j :: 0 <= i < j < |sessions| ==> sessions[i] < sessions[j])
      && (forall i, j :: 0 <= i < j < |closes| ==> closes[i] < closes[j])
    }
  }

  /** Sessions from `from` to `to`, both included, ascending. */
  function SessionDates(sessions: seq<Date>, from: Date, to: Date): seq<Date>
    decreases |sessions|
  {
    if sessions == [] then []
    else if from <= sessions[0] <= to then [sessions[0]] + SessionDates(sessions[1..], from, to)
    else SessionDates(sessions[1..], from, to)
  }

  /** The last session whose close is at or before the instant, if there is one. */
  function PreviousSession(cal: Calendar, before: Instant): Option<Date>
    requires cal.Valid()
    decreases |cal.sessions|
  {
    if cal.sessions == [] then None
    else
      var n := |cal.sessions| - 1;
      if cal.closes[n] <= before then Some(cal.sessions[n])
      else PreviousSession(Calendar(cal.sessions[..n], cal.closes[..n]), before)
  }

  /** The session `delayBars` sessions on, within a calendar-day margin; nothing stands for the range error. */
  function FillDueSession(cal: Calendar, decisionSession: Date, delayBars: int): Option<Date> {
    if delayBars <= 0 then Some(decisionSession)
    else
      var horizon := decisionSession + (delayBars * 8 + 4) / 5 + 14;
      var sessions := SessionDates(cal.sessions, decisionSession, horizon);
      if delayBars < |sessions| then Some(sessions[delayBars]) else None
  }

  function AtLeastOne(delayBars: nat): nat {
    if delayBars > 1 then delayBars else 1
  }

  /** The session of the simulator's last fill-window bar, when the entity trades every session. */
  function FillWindowEndSession(cal: Calendar, decisionSession: Date, delayBars: nat, maxFillBars: nat): Option<Date> {
    FillDueSession(cal, decisionSession, AtLeastOne(delayBars) + maxFillBars - 1)
  }

  /** The session by which an outcome is owed: one further full window. */
  function FillOwedSession(cal: Calendar, decisionSession: Date, delayBars: nat, maxFillBars: nat): Option<Date> {
    FillDueSession(cal, decisionSession, AtLeastOne(delayBars) + 2 * maxFillBars - 1)
  }

  // ---------------------------------------------------------------------------------------------
  // Everything is monotone in the decision
  // ---------------------------------------------------------------------------------------------

  lemma {:induction false} PreviousSessionIsSession(cal: Calendar, before: Instant)
    requires cal.Valid()
    ensures PreviousSession(cal, before).Some? ==> PreviousSession(cal, before).value in cal.sessions
    decreases |cal.sessions|
  {
    if cal.sessions != [] && cal.closes[|cal.sessions| - 1] > before {
      var n := |cal.sessions| - 1;
      PreviousSessionIsSession(Calendar(cal.sessions[..n], cal.closes[..n]), before);
    }
  }

  /** A later decision instant never belongs to an earlier session. */
  lemma {:induction false} PreviousSessionMonotone(cal: Calendar, a: Instant, b: Instant)
    requires cal.Valid() && a <= b && PreviousSession(cal, a).Some?
    ensures PreviousSession(cal, b).Some? && PreviousSession(cal, a).value <= PreviousSession(cal, b).value
    decreases |cal.sessions|
  {
    var n := |cal.sessions| - 1;
    var front := Calendar(cal.sessions[..n], cal.closes[..n]);
    if cal.closes[n] <= b {
      PreviousSessionIsSession(cal, a);
      var s := PreviousSession(cal, a).value;
      var i :| 0 <= i < |cal.sessions| && cal.sessions[i] == s;
    } else {
      PreviousSessionMonotone(front, a, b);
    }
  }

  predicate Ascending(sessions: seq<Date>) {
    forall i, j :: 0 <= i < j < |sessions| ==> sessions[i] < sessions[j]
  }

  lemma {:induction false} DatesInRange(sessions: seq<Date>, from: Date, to: Date)
    ensures forall d :: d in SessionDates(sessions, from, to) ==> from <= d <= to
    decreases |sessions|
  {
    if sessions != [] {
      DatesInRange(sessions[1..], from, to);
    }
  }

  lemma {:induction false} NothingAfter(sessions: seq<Date>, from: Date, to: Date)
    requires forall s :: s in sessions ==> s > to
    ensures SessionDates(sessions, from, to) == []
    decreases |sessions|
  {
    if sessions != [] {
      assert sessions[0] in sessions && forall s :: s in sessions[1..] ==> s in sessions;
      NothingAfter(sessions[1..], from, to);
    }
  }

  /** The k-th session on from a later date is no earlier than the k-th on from an earlier one. */
  lemma {:induction false} KthMonotone(sessions: seq<Date>, a: Date, toA: Date, b: Date, toB: Date, j: nat, k: nat)
    requires Ascending(sessions) && a <= b && j <= k
    requires j < |SessionDates(sessions, a, toA)| && k < |SessionDates(sessions, b, toB)|
    ensures SessionDates(sessions, a, toA)[j] <= SessionDates(sessions, b, toB)[k]
    decreases |sessions|
  {
    var s, rest := sessions[0], sessions[1..];
    var x, y := SessionDates(rest, a, toA), SessionDates(rest, b, toB);
    forall d | d in rest ensures d > s {
      var i :| 0 <= i < |rest| && rest[i] == d;
      assert d == sessions[i + 1];
    }
    if s > toA {
      NothingAfter(rest, a, toA);
      assert false;
    } else if s < a {
      KthMonotone(rest, a, toA, b, toB, j, k);
    } else if j == 0 {
      DatesInRange(sessions, b, toB);
      KthStored(sessions, b, toB, k);
      assert SessionDates(sessions, b, toB)[k] == s || SessionDates(sessions, b, toB)[k] in rest;
    } else if b <= s <= toB {
      KthMonotone(rest, a, toA, b, toB, j - 1, k - 1);
    } else if k >= 1 {
      KthMonotone(rest, a, toA, b, toB, j - 1, k);
    }
  }

  lemma {:induction false} KthStored(sessions: seq<Date>, from: Date, to: Date, k: nat)
    requires k < |SessionDates(sessions, from, to)|
    ensures SessionDates(sessions, from, to)[k] in sessions
    decreases |sessions|
  {
    if from <= sessions[0] <= to {
      if k > 0 { KthStored(sessions[1..], from, to, k - 1); }
    } else {
      KthStored(sessions[1..], from, to, k);
    }
  }

  lemma {:induction false} DueMonotone(cal: Calendar, a: Date, b: Date, j: int, k: int)
    requires cal.Valid() && a <= b && j <= k
    requires FillDueSession(cal, a, j).Some? && FillDueSession(cal, b, k).Some?
    ensures FillDueSession(cal, a, j).value <= FillDueSession(cal, b, k).value
  {
    if k > 0 {
      var toB := b + (k * 8 + 4) / 5 + 14;
      DatesInRange(cal.sessions, b, toB);
      assert SessionDates(cal.sessions, b, toB)[k] in SessionDates(cal.sessions, b, toB);
      if j > 0 {
        KthMonotone(cal.sessions, a, a + (j * 8 + 4) / 5 + 14, b, toB, j, k);
      }
    }
  }

  /** A later decision is never owed earlier, and nothing is owed before it is due. */
  lemma {:induction false} OwedMonotone(cal: Calendar, a: Date, b: Date, delayBars: nat, maxFillBars: nat)
    requires cal.Valid() && a <= b
    requires FillOwedSession(cal, a, delayBars, maxFillBars).Some? && FillOwedSession(cal, b, delayBars, maxFillBars).Some?
    ensures FillOwedSession(cal, a, delayBars, maxFillBars).value <= FillOwedSession(cal, b, delayBars, maxFillBars).value
    ensures maxFillBars >= 1 && FillDueSession(cal, a, delayBars).Some? ==>
              FillDueSession(cal, a, delayBars).value <= FillOwedSession(cal, a, delayBars, maxFillBars).value
  {
    var n := AtLeastOne(delayBars) + 2 * maxFillBars - 1;
    DueMonotone(cal, a, b, n, n);
    if maxFillBars >= 1 && FillDueSession(cal, a, delayBars).Some? {
      DueMonotone(cal, a, a, delayBars, n);
    }
  }

  /** The fill window ends between the session its first attempt is due and the one its outcome is owed. */
  lemma {:induction false} WindowEndsBetween(cal: Calendar, d: Date, delayBars: nat, maxFillBars: nat)
    requires cal.Valid() && maxFillBars >= 1
    requires FillDueSession(cal, d, delayBars).Some? && FillWindowEndSession(cal, d, delayBars, maxFillBars).Some?
    requires FillOwedSession(cal, d, delayBars, maxFillBars).Some?
    ensures FillDueSession(cal, d, delayBars).value
            <= FillWindowEndSession(cal, d, delayBars, maxFillBars).value
            <= FillOwedSession(cal, d, delayBars, maxFillBars).value
  {
    var n := AtLeastOne(delayBars) + maxFillBars - 1;
    DueMonotone(cal, d, d, delayBars, n);
    DueMonotone(cal, d, d, n, n + maxFillBars);
  }

  lemma {:induction false} RestIsLater(sessions: seq<Date>)
    requires Ascending(sessions) && sessions != []
    ensures Ascending(sessions[1..]) && forall d :: d in sessions[1..] ==> d > sessions[0]
  {
    forall d | d in sessions[1..] ensures d > sessions[0] {
      var i :| 0 <= i < |sessions[1..]| && sessions[1..][i] == d;
      assert d == sessions[i + 1];
    }
  }

  /** Counting sessions to a date reaches the n-th exactly when the n-th is not after the date. */
  lemma {:induction false} KthWithin(sessions: seq<Date>, from: Date, to: Date, horizon: Date, n: nat)
    requires Ascending(sessions) && n < |SessionDates(sessions, from, horizon)|
    ensures n < |SessionDates(sessions, from, to)| <==> SessionDates(sessions, from, horizon)[n] <= to
    decreases |sessions|
  {
    var s, rest := sessions[0], sessions[1..];
    RestIsLater(sessions);
    if s > horizon {
      NothingAfter(rest, from, horizon);
      assert false;
    } else if s < from {
      KthWithin(rest, from, to, horizon, n);
    } else if s > to {
      NothingAfter(rest, from, to);
      KthStored(sessions, from, horizon, n);
      assert SessionDates(sessions, from, horizon)[n] == s || SessionDates(sessions, from, horizon)[n] in rest;
    } else if n > 0 {
      KthWithin(rest, from, to, horizon, n - 1);
    }
  }

  lemma {:induction false} SameFrom(sessions: seq<Date>, from: Date, d: Date, to: Date)
    requires from <= d && forall s :: s in sessions ==> s >= d
    ensures SessionDates(sessions, from, to) == SessionDates(sessions, d, to)
    decreases |sessions|
  {
    if sessions != [] {
      assert sessions[0] in sessions && forall s :: s in sessions[1..] ==> s in sessions;
      SameFrom(sessions[1..], from, d, to);
    }
  }

  /** The sessions up to a later one are those before it, and then itself and those after it. */
  lemma {:induction false} SessionsCutAt(sessions: seq<Date>, from: Date, d: Date, to: Date) returns (front: seq<Date>)
    requires Ascending(sessions) && d in sessions && from <= d <= to
    ensures SessionDates(sessions, from, to) == front + SessionDates(sessions, d, to)
    ensures SessionDates(sessions, d, to) != [] && SessionDates(sessions, d, to)[0] == d
    ensures forall s :: s in SessionDates(sessions, d, to)[1..] ==> s > d
    decreases |sessions|
  {
    var s, rest := sessions[0], sessions[1..];
    RestIsLater(sessions);
    if s == d {
      front := [];
      SameFrom(sessions, from, d, to);
      forall x | x in SessionDates(rest, d, to) ensures x > d {
        var i :| 0 <= i < |SessionDates(rest, d, to)| && SessionDates(rest, d, to)[i] == x;
        KthStored(rest, d, to, i);
      }
    } else {
      front := SessionsCutAt(rest, from, d, to);
      if from <= s <= to {
        assert SessionDates(sessions, from, to) == [s] + front + SessionDates(sessions, d, to);
        front := [s] + front;
      }
    }
  }
}
