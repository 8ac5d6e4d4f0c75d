/** The per-host token bucket that paces outgoing requests. */
module TokenBucket {
  import opened Wrappers

  /** Milliseconds. */
  type Instant = int

  datatype Bucket = Bucket(tokens: real, lastRefillMs: Instant, perSecond: real)

  function NewBucket(perSecond: real, now: Instant): Bucket {
    Bucket(perSecond, now, perSecond)
  }

  /** Tokens a rate accrues between two instants. */
  function Accrued(rate: real, from: Instant, to: Instant): real {
    ((to - from) as real / 1000.0) * rate
  }

  function Refilled(b: Bucket, t: Instant): real {
    var refill := Accrued(b.perSecond, b.lastRefillMs, t);
    if b.perSecond <= b.tokens + refill then b.perSecond else b.tokens + refill
  }

  /** One pass of the waiter's loop at time `t`: refill, then take a token if a whole one is there. */
  function Attempt(b: Bucket, t: Instant): (Bucket, bool) {
    var tokens := Refilled(b, t);
    if tokens >= 1.0 then (b.(tokens := tokens - 1.0, lastRefillMs := t), true)
    else (b.(tokens := tokens, lastRefillMs := t), false)
  }

  function Ceil(x: real): int {
    -((-x).Floor)
  }

  /** How long a refused waiter sleeps. */
  function WaitMs(b: Bucket): int
    requires b.perSecond != 0.0
  {
    Ceil(((1.0 - b.tokens) / b.perSecond) * 1000.0)
  }

  /** The bucket after attempts at these times, by whichever waiters. */
  function After(b: Bucket, times: seq<Instant>): Bucket
    decreases |times|
  {
    if times == [] then b else Attempt(After(b, times[..|times| - 1]), times[|times| - 1]).0
  }

  /** How many of the attempts were granted. */
  function Grants(b: Bucket, times: seq<Instant>): nat
    decreases |times|
  {
    if times == [] then 0
    else
      var earlier := times[..|times| - 1];
      Grants(b, earlier) + if Attempt(After(b, earlier), times[|times| - 1]).1 then 1 else 0
  }

  predicate Nondecreasing(times: seq<Instant>) {
    forall i, j :: 0 <= i < j < |times| ==> times[i] <= times[j]
  }

  predicate Level(b: Bucket) {
    0.0 <= b.tokens <= b.perSecond
  }

  class Pacer {
    const perSecond: real
    var tokens: real
    var lastRefillMs: Instant

    function Value(): Bucket
      reads this
    {
      Bucket(tokens, lastRefillMs, perSecond)
    }

    constructor (perSecond: real, now: Instant)
      ensures Value() == NewBucket(perSecond, now)
    {
      this.perSecond, this.tokens, this.lastRefillMs := perSecond, perSecond, now;
    }

    /** One turn of the loop: either the token, or how long to sleep before the next turn. */
    method TryTake(t: Instant) returns (granted: bool, waitMs: int)
      requires perSecond != 0.0
      modifies this
      ensures (Value(), granted) == Attempt(old(Value()), t)
      ensures waitMs == if granted then 0 else WaitMs(Value())
    {
      var refill := ((t - lastRefillMs) as real / 1000.0) * perSecond;
      tokens := if perSecond <= tokens + refill then perSecond else tokens + refill;
      lastRefillMs := t;
      if tokens >= 1.0 {
        tokens := tokens - 1.0;
        return true, 0;
      }
      return false, Ceil(((1.0 - tokens) / perSecond) * 1000.0);
    }

    /**
     * A lone waiter's wait: the first `turns` turns of a loop that has no bound in the code.  `late` is how much
     * longer than asked each sleep lasts.  With a rate of at least one the second turn is the last; below one no
     * number of turns ends it.
     */
    method TakeToken(now: Instant, late: nat, turns: nat) returns (granted: bool, sleeps: nat)
      requires perSecond > 0.0 && Level(Value()) && lastRefillMs <= now
      modifies this
      ensures Level(Value())
      ensures granted ==> sleeps <= 1
      ensures !granted ==> sleeps == turns
      ensures turns >= 2 ==> (granted <==> perSecond >= 1.0)
      ensures granted && sleeps == 0 ==> Value() == Attempt(old(Value()), now).0
    {
      var t := now;
      sleeps, granted := 0, false;
      while sleeps < turns
        invariant Level(Value()) && lastRefillMs <= t && sleeps <= turns
        invariant sleeps == 0 ==> t == now && Value() == old(Value())
        invariant perSecond >= 1.0 && sleeps > 0 ==> sleeps == 1 && Attempt(Value(), t).1
      {
        ghost var before := Value();
        var waitMs;
        AttemptKeepsLevel(before, t);
        granted, waitMs := TryTake(t);
        if granted {
          return;
        }
        WaitIsForward(Value());
        if perSecond >= 1.0 {
          WaitIsEnough(Value(), t, late);
        }
        t := t + waitMs + late;
        sleeps := sleeps + 1;
      }
    }
  }

  lemma {:induction false} WaitIsForward(b: Bucket)
    requires b.perSecond > 0.0 && b.tokens < 1.0
    ensures WaitMs(b) >= 0
  {
    var x := (1.0 - b.tokens) / b.perSecond;
    assert x * b.perSecond == 1.0 - b.tokens;
    CeilAbove(x * 1000.0);
  }

  lemma {:induction false} AttemptKeepsLevel(b: Bucket, t: Instant)
    requires b.perSecond >= 0.0 && Level(b) && b.lastRefillMs <= t
    ensures Level(Attempt(b, t).0)
  {
  }

  lemma {:induction false} CeilAbove(x: real)
    ensures Ceil(x) as real >= x
  {
  }

  lemma {:induction false} Grow(wait: real, need: real, rate: real)
    requires rate > 0.0 && wait >= (need / rate) * 1000.0
    ensures (wait / 1000.0) * rate >= need
  {
  }

  /** One computed sleep, however much it overshoots, refills a whole token for a lone waiter. */
  lemma {:induction false} WaitIsEnough(b: Bucket, t: Instant, late: nat)
    requires b.perSecond >= 1.0 && Level(b) && b.lastRefillMs == t && b.tokens < 1.0
    ensures WaitMs(b) >= 0 && Attempt(b, t + WaitMs(b) + late).1
  {
    var need := 1.0 - b.tokens;
    CeilAbove((need / b.perSecond) * 1000.0);
    var waited := (WaitMs(b) + late) as real;
    Grow(waited, need, b.perSecond);
  }

  lemma {:induction false} AccruedIs(rate: real, from: Instant, ms: nat)
    ensures 1000.0 * Accrued(rate, from, from + ms) == rate * ms as real
  {
  }

  /** In thousandths of a token: each millisecond adds the rate, up to a full bucket, and a grant takes a thousand. */
  lemma {:induction false} LevelAfter(b: Bucket, ms: nat)
    ensures var level := 1000.0 * b.tokens + b.perSecond * ms as real;
            var full := 1000.0 * b.perSecond;
            var held := if full <= level then full else level;
            var r := Attempt(b, b.lastRefillMs + ms);
            && (r.1 <==> held >= 1000.0)
            && 1000.0 * r.0.tokens == (if held >= 1000.0 then held - 1000.0 else held)
            && r.0.lastRefillMs == b.lastRefillMs + ms
  {
    AccruedIs(b.perSecond, b.lastRefillMs, ms);
  }

  lemma {:induction false} CeilIsLeast(x: real, n: int)
    ensures x <= n as real <==> Ceil(x) <= n
  {
  }

  lemma {:induction false} NeedIs(tokens: real, rate: real, ms: int)
    requires rate > 0.0
    ensures ((1.0 - tokens) / rate) * 1000.0 <= ms as real <==> 1000.0 <= 1000.0 * tokens + rate * ms as real
  {
    var x := (1.0 - tokens) / rate;
    assert x * rate == 1.0 - tokens;
    var y := x * 1000.0;
    assert y * rate == 1000.0 - 1000.0 * tokens;
    Dearer(y, ms as real, rate);
  }

  lemma {:induction false} Dearer(x: real, y: real, rate: real)
    requires rate > 0.0
    ensures x <= y <==> x * rate <= y * rate
  {
    if x <= y {
      assert (y - x) * rate >= 0.0;
    } else {
      assert (x - y) * rate > 0.0;
    }
  }

  /**
   * The exact milliseconds to a whole token: a bucket drawn below one grants again from the first millisecond at which
   * what was left and what the rate has added come to a thousand thousandths, and the computed sleep is that one.
   */
  lemma {:induction false} GrantedFromExactly(b: Bucket, ms: nat)
    requires b.perSecond >= 1.0 && Level(b) && b.tokens < 1.0
    ensures Attempt(b, b.lastRefillMs + ms).1 <==> 1000.0 <= 1000.0 * b.tokens + b.perSecond * ms as real
    ensures Attempt(b, b.lastRefillMs + ms).1 <==> WaitMs(b) <= ms
  {
    LevelAfter(b, ms);
    NeedIs(b.tokens, b.perSecond, ms);
    CeilIsLeast(((1.0 - b.tokens) / b.perSecond) * 1000.0, ms);
  }

  /** The level never leaves zero to the rate, whoever tries and when. */
  lemma {:induction false} LevelStays(b: Bucket, times: seq<Instant>)
    requires b.perSecond >= 0.0 && Level(b) && Nondecreasing(times) && (times != [] ==> b.lastRefillMs <= times[0])
    ensures Level(After(b, times)) && After(b, times).perSecond == b.perSecond
    ensures After(b, times).lastRefillMs == if times == [] then b.lastRefillMs else times[|times| - 1]
    decreases |times|
  {
    if times != [] {
      var earlier, t := times[..|times| - 1], times[|times| - 1];
      LevelStays(b, earlier);
      AttemptKeepsLevel(After(b, earlier), t);
    }
  }

  lemma {:induction false} AccruedAdds(rate: real, a: Instant, b: Instant, c: Instant)
    ensures Accrued(rate, a, b) + Accrued(rate, b, c) == Accrued(rate, a, c)
  {
  }

  lemma {:induction false} AccruedMonotone(rate: real, a: Instant, b: Instant, c: Instant, d: Instant)
    requires rate >= 0.0 && a <= b && c <= d
    ensures Accrued(rate, b, c) <= Accrued(rate, a, d)
  {
  }

  lemma {:induction false} AttemptBudget(b: Bucket, t: Instant)
    ensures var r := Attempt(b, t);
            && r.0.tokens + (if r.1 then 1.0 else 0.0) <= b.tokens + Accrued(b.perSecond, b.lastRefillMs, t)
            && r.0.tokens + (if r.1 then 1.0 else 0.0) <= b.perSecond
  {
  }

  /** Tokens left and tokens granted together never exceed the rate and what accrued since the first attempt. */
  lemma {:induction false} GrantsAreBudgeted(b: Bucket, times: seq<Instant>)
    requires b.perSecond >= 0.0 && Level(b) && times != [] && Nondecreasing(times) && b.lastRefillMs <= times[0]
    ensures After(b, times).tokens + Grants(b, times) as real
            <= b.perSecond + Accrued(b.perSecond, times[0], times[|times| - 1])
    decreases |times|
  {
    var earlier, t := times[..|times| - 1], times[|times| - 1];
    AttemptBudget(After(b, earlier), t);
    if earlier == [] {
      AccruedMonotone(b.perSecond, t, t, t, t);
    } else {
      GrantsAreBudgeted(b, earlier);
      LevelStays(b, earlier);
      AccruedAdds(b.perSecond, times[0], earlier[|earlier| - 1], t);
    }
  }

  lemma {:induction false} RunSplits(b: Bucket, first: seq<Instant>, second: seq<Instant>)
    ensures After(b, first + second) == After(After(b, first), second)
    ensures Grants(b, first + second) == Grants(b, first) + Grants(After(b, first), second)
    decreases |second|
  {
    if second == [] {
      assert first + second == first;
    } else {
      assert (first + second)[..|first + second| - 1] == first + second[..|second| - 1];
      RunSplits(b, first, second[..|second| - 1]);
    }
  }

  /**
   * The rate bound over every window: of any run of attempts, those between two instants are granted at most
   * the rate plus the rate times the window's seconds.
   */
  lemma {:induction false} GrantsInEveryWindow(b: Bucket, before: seq<Instant>, inside: seq<Instant>, from: Instant, to: Instant)
    requires b.perSecond >= 0.0 && Level(b)
    requires Nondecreasing(before + inside) && (before + inside != [] ==> b.lastRefillMs <= (before + inside)[0])
    requires from <= to && forall t :: t in inside ==> from <= t <= to
    ensures (Grants(b, before + inside) - Grants(b, before)) as real <= b.perSecond + Accrued(b.perSecond, from, to)
  {
    RunSplits(b, before, inside);
    if inside == [] {
      AccruedMonotone(b.perSecond, from, to, to, to);
    } else {
      var all := before + inside;
      assert forall i :: 0 <= i < |before| ==> before[i] == all[i];
      assert forall i :: 0 <= i < |inside| ==> inside[i] == all[|before| + i];
      LevelStays(b, before);
      var mid := After(b, before);
      GrantsAreBudgeted(mid, inside);
      assert inside[0] in inside && inside[|inside| - 1] in inside;
      AccruedMonotone(b.perSecond, from, inside[0], inside[|inside| - 1], to);
      LevelStays(mid, inside);
    }
  }

  /** Exactly when anyone ever gets through: a rate below one never holds a whole token, and every waiter sleeps for ever. */
  lemma {:induction false} EverGrantedIff(perSecond: real, now: Instant)
    requires perSecond > 0.0
    ensures perSecond >= 1.0 <==>
            exists times :: Nondecreasing(times) && (times != [] ==> now <= times[0]) && Grants(NewBucket(perSecond, now), times) > 0
  {
    if perSecond >= 1.0 {
      var times := [now];
      assert After(NewBucket(perSecond, now), times[..0]) == NewBucket(perSecond, now);
      assert Grants(NewBucket(perSecond, now), times) > 0;
    } else {
      forall times: seq<Instant> | Nondecreasing(times) && (times != [] ==> now <= times[0])
        ensures Grants(NewBucket(perSecond, now), times) == 0
      {
        BelowOneGrantsNothing(NewBucket(perSecond, now), times);
      }
    }
  }

  lemma {:induction false} BelowOneGrantsNothing(b: Bucket, times: seq<Instant>)
    requires b.perSecond < 1.0
    ensures Grants(b, times) == 0 && After(b, times).perSecond == b.perSecond
    decreases |times|
  {
    if times != [] {
      BelowOneGrantsNothing(b, times[..|times| - 1]);
    }
  }

  /** One request every two seconds, a rate the options can name: no attempt is ever granted. */
  lemma {:induction false} HalfATokenIsNeverGranted(now: Instant, times: seq<Instant>)
    ensures Grants(NewBucket(0.5, now), times) == 0
  {
    BelowOneGrantsNothing(NewBucket(0.5, now), times);
  }
}
