/** AttemptWithBackoff: how often a failing reconnection is retried, and until when. */
module Backoff {

  const INITIAL_DELAY := 1.0
  const DELAY_JITTER := 0.1
  const DELAY_BACKOFF := 2.0

  function Jitter(value: real, minPc: real, maxPc: real, random: real): real {
    value * (1.0 + ((maxPc - minPc) * random) + minPc)
  }

  /** The first delay is one second, give or take ten per cent: random() is at least 0 and below 1. */
  lemma FirstDelayRange(random: real)
    requires 0.0 <= random < 1.0
    ensures Jitter(INITIAL_DELAY, -DELAY_JITTER, DELAY_JITTER, random) == 0.9 + 0.2 * random
    ensures 0.9 <= Jitter(INITIAL_DELAY, -DELAY_JITTER, DELAY_JITTER, random) < 1.1
  {
  }

  datatype Attempt = Attempt(timeout: real, delay: real, giveUpAt: real)

  function Fresh(timeout: real): Attempt { Attempt(timeout, 0.0, 0.0) }

  function Update(a: Attempt, now: real, random: real): Attempt {
    var b := if a.delay == 0.0
             then Attempt(a.timeout, Jitter(INITIAL_DELAY, -DELAY_JITTER, DELAY_JITTER, random), now + a.timeout)
             else a.(delay := a.delay * DELAY_BACKOFF);
    if b.delay + now > b.giveUpAt
    then b.(delay := if b.giveUpAt - now > 0.0 then b.giveUpAt - now else 0.0)
    else b
  }

  predicate TimeToGiveUp(a: Attempt, now: real) {
    a.giveUpAt > 0.0 && now >= a.giveUpAt
  }

  class AttemptWithBackoff {
    const timeout: real
    var delay: real
    var giveUpAt: real

    function View(): Attempt
      reads this
    {
      Attempt(timeout, delay, giveUpAt)
    }

    constructor (timeout: real)
      ensures View() == Fresh(timeout)
    {
      this.timeout := timeout;
      delay, giveUpAt := 0.0, 0.0;
    }

    method UpdateDelay(now: real, random: real)
      modifies this
      ensures View() == Update(old(View()), now, random)
    {
      if delay == 0.0 {
        giveUpAt := now + timeout;
        delay := Jitter(INITIAL_DELAY, -DELAY_JITTER, DELAY_JITTER, random);
      } else {
        delay := delay * DELAY_BACKOFF;
      }
      if delay + now > giveUpAt {
        delay := if giveUpAt - now > 0.0 then giveUpAt - now else 0.0;
      }
    }

    method ShouldGiveUp(now: real) returns (r: bool)
      ensures r == TimeToGiveUp(View(), now)
    {
      r := giveUpAt > 0.0 && now >= giveUpAt;
    }
  }

  // ---------- chains of failures ----------

  /** One failed attempt: when it started, how long connecting took, and the random number drawn for its delay. */
  datatype Failure = Failure(now: real, took: real, random: real)

  /** When the retry is due: the task is scheduled after connecting has failed. */
  function Due(f: Failure, delay: real): real { f.now + f.took + delay }

  /**
   Failures one after the other, none of them the last one: each is rescheduled, and the next
   attempt starts when its delay is over, or later.
   */
  ghost predicate Chain(a: Attempt, fs: seq<Failure>)
    decreases |fs|
  {
    fs != [] ==>
      && 0.0 <= fs[0].random < 1.0 && fs[0].took >= 0.0
      && !TimeToGiveUp(a, fs[0].now)
      && var b := Update(a, fs[0].now, fs[0].random);
         (|fs| > 1 ==> fs[1].now >= Due(fs[0], b.delay)) && Chain(b, fs[1..])
  }

  /** The state after a chain. */
  ghost function After(a: Attempt, fs: seq<Failure>): Attempt
    decreases |fs|
  {
    if fs == [] then a else After(Update(a, fs[0].now, fs[0].random), fs[1..])
  }

  function Pow2(n: nat): nat { if n == 0 then 1 else 2 * Pow2(n - 1) }

  /** Once the deadline is set, a chain of n failures takes at least twice the delay times 2^(n-1) - 1. */
  lemma {:induction false} ChainTakesTime(a: Attempt, fs: seq<Failure>)
    requires fs != [] && a.delay > 0.0 && a.giveUpAt > 0.0 && Chain(a, fs)
    ensures fs[|fs| - 1].now >= fs[0].now + 2.0 * a.delay * (Pow2(|fs| - 1) as real - 1.0)
    ensures fs[|fs| - 1].now < a.giveUpAt
    decreases |fs|
  {
    if |fs| > 1 {
      var b := Update(a, fs[0].now, fs[0].random);
      assert !TimeToGiveUp(b, fs[1].now);
      assert b.delay == 2.0 * a.delay;
      ChainTakesTime(b, fs[1..]);
      var p := Pow2(|fs| - 2) as real;
      assert Pow2(|fs| - 1) as real == 2.0 * p;
      calc {
        fs[0].now + 2.0 * a.delay + 2.0 * b.delay * (p - 1.0);
        fs[0].now + 2.0 * a.delay + 4.0 * a.delay * (p - 1.0);
        fs[0].now + 2.0 * a.delay * (2.0 * p - 1.0);
      }
    }
  }

  /**
   Backoff terminates: n failures without giving up fit only if 2^(n-1) < 1 + timeout / 0.9.
   The condition on the clock says that the deadline, when set, is after time zero.
   */
  lemma BackoffTerminates(timeout: real, fs: seq<Failure>)
    requires |fs| >= 2 && Chain(Fresh(timeout), fs) && fs[0].now + timeout > 0.0
    ensures Pow2(|fs| - 1) as real < 1.0 + timeout / 0.9
  {
    FirstDelayRange(fs[0].random);
    var j := Jitter(INITIAL_DELAY, -DELAY_JITTER, DELAY_JITTER, fs[0].random);
    var a := Update(Fresh(timeout), fs[0].now, fs[0].random);
    assert !TimeToGiveUp(a, fs[1].now);
    assert a.delay == j;
    ChainTakesTime(a, fs[1..]);
    var p := Pow2(|fs| - 2) as real;
    assert Pow2(|fs| - 1) as real == 2.0 * p;
    assert fs[|fs| - 1].now < fs[0].now + timeout;
    assert fs[1].now >= fs[0].now + j;
    assert fs[|fs| - 1].now >= fs[1].now + 2.0 * j * (p - 1.0);
    assert j * (2.0 * p - 1.0) < timeout;
    Pow2AtLeastOne(|fs| - 2);
    BelowQuotient(j, 2.0 * p - 1.0, timeout);
  }

  lemma BelowQuotient(j: real, x: real, timeout: real)
    requires 0.9 <= j && x >= 0.0 && j * x < timeout
    ensures x < timeout / 0.9
  {
    assert (j - 0.9) * x >= 0.0;
    assert j * x - 0.9 * x >= 0.0;
  }

  lemma {:induction false} Pow2AtLeastOne(n: nat)
    ensures Pow2(n) >= 1
  {
    if n > 0 { Pow2AtLeastOne(n - 1); }
  }

  /**
   The deadline is never moved. A retry is due no later than it, save for the time that connecting
   took, since the delay is reckoned from the clock read before; and later than the failure it follows.
   */
  lemma {:induction false} DeadlineKept(a: Attempt, fs: seq<Failure>)
    requires a.delay > 0.0 && a.giveUpAt > 0.0 && Chain(a, fs)
    ensures After(a, fs).giveUpAt == a.giveUpAt && After(a, fs).delay > 0.0
    ensures fs != [] ==>
              var last := fs[|fs| - 1]; last.now + last.took < Due(last, After(a, fs).delay) <= a.giveUpAt + last.took
    decreases |fs|
  {
    if fs != [] {
      var b := Update(a, fs[0].now, fs[0].random);
      DeadlineKept(b, fs[1..]);
      if |fs| == 1 {
        assert After(b, fs[1..]) == b;
      }
    }
  }

  /** The same from the first failure on, which sets the deadline. */
  lemma DeadlineNeverReset(timeout: real, fs: seq<Failure>)
    requires fs != [] && timeout >= 0.0 && Chain(Fresh(timeout), fs) && fs[0].now + timeout > 0.0
    ensures After(Fresh(timeout), fs).giveUpAt == fs[0].now + timeout
    ensures var last := fs[|fs| - 1]; Due(last, After(Fresh(timeout), fs).delay) <= fs[0].now + timeout + last.took
  {
    FirstDelayRange(fs[0].random);
    var a := Update(Fresh(timeout), fs[0].now, fs[0].random);
    if |fs| == 1 {
      assert After(a, fs[1..]) == a;
    } else {
      assert !TimeToGiveUp(a, fs[1].now);
      DeadlineKept(a, fs[1..]);
    }
  }

  function MinReal(a: real, b: real): real { if a <= b then a else b }

  /** A delay doubled n times. */
  function Doubled(delay: real, n: nat): real
    decreases n
  {
    if n == 0 then delay else Doubled(2.0 * delay, n - 1)
  }

  lemma {:induction false} DoubledIs(delay: real, n: nat)
    ensures Doubled(delay, n) == delay * Pow2(n) as real
    decreases n
  {
    if n > 0 {
      DoubledIs(2.0 * delay, n - 1);
      assert (2.0 * delay) * Pow2(n - 1) as real == delay * (2 * Pow2(n - 1)) as real;
    }
  }

  /** The delay doubles with each failure, until what is left to the deadline is less than that. */
  lemma {:induction false} DelayDoubles(a: Attempt, fs: seq<Failure>)
    requires a.delay > 0.0 && a.giveUpAt > 0.0 && Chain(a, fs) && fs != []
    ensures After(a, fs).delay == MinReal(Doubled(a.delay, |fs|), a.giveUpAt - fs[|fs| - 1].now)
    decreases |fs|
  {
    var b := Update(a, fs[0].now, fs[0].random);
    assert b.delay == MinReal(2.0 * a.delay, a.giveUpAt - fs[0].now);
    if |fs| == 1 {
      assert After(b, fs[1..]) == b;
      assert Doubled(2.0 * a.delay, 0) == 2.0 * a.delay;
    } else {
      assert !TimeToGiveUp(b, fs[1].now);
      assert b.delay == 2.0 * a.delay;
      DelayDoubles(b, fs[1..]);
    }
  }

  /** A chain can be given up at all exactly when the deadline is after time zero. */
  lemma GivesUpIff(a: Attempt)
    ensures (exists now :: TimeToGiveUp(a, now)) <==> a.giveUpAt > 0.0
  {
    if a.giveUpAt > 0.0 {
      assert TimeToGiveUp(a, a.giveUpAt);
    }
  }
}
