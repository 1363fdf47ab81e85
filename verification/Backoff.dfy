/** The sleeps between the attempts at one step. */
module Backoff {
  import opened Base
  import opened Workflow
  import opened Execution

  function Sleeps(trace: seq<Effect>): seq<int> {
    if trace == [] then []
    else (if trace[0].Sleep? then [trace[0].nanos] else []) + Sleeps(trace[1..])
  }

  function Calls(trace: seq<Effect>): nat {
    if trace == [] then 0 else (if trace[0].Call? then 1 else 0) + Calls(trace[1..])
  }

  /** The engine's backoff variable after j retries. */
  function BackoffAfter(step: StepDefinition, backoff: int, j: nat): int
    decreases j
  {
    if j == 0 then backoff else BackoffAfter(step, NextBackoff(step, backoff), j - 1)
  }

  lemma {:induction false} BackoffAfterNext(step: StepDefinition, backoff: int, j: nat)
    ensures BackoffAfter(step, backoff, j + 1) == NextBackoff(step, BackoffAfter(step, backoff, j))
    decreases j
  {
    if j > 0 {
      BackoffAfterNext(step, NextBackoff(step, backoff), j - 1);
    }
  }

  lemma {:induction false} SettleIsOneCall(step: StepDefinition, i: int, inst: Instance, current: Value, a: Attempt,
                                           attempt: nat, used: nat)
    ensures var run := Settle(step, i, inst, current, a, attempt, used);
            Sleeps(run.trace) == [] && Calls(run.trace) <= 1
  {
    var t := Settle(step, i, inst, current, a, attempt, used).trace;
    assert forall e | e in t[1..] :: !e.Sleep? && !e.Call?;
    NoneOfThese(t[1..]);
  }

  lemma {:induction false} NoneOfThese(t: seq<Effect>)
    requires forall e | e in t :: !e.Sleep? && !e.Call?
    ensures Sleeps(t) == [] && Calls(t) == 0
    decreases |t|
  {
    if t != [] {
      NoneOfThese(t[1..]);
    }
  }

  lemma CallThen(i: int, current: Value, rest: seq<Effect>)
    ensures Sleeps([Call(i, current)] + rest) == Sleeps(rest) && Calls([Call(i, current)] + rest) == Calls(rest) + 1
  {
    assert ([Call(i, current)] + rest)[1..] == rest;
  }

  lemma CallSleepThen(i: int, current: Value, delay: int, rest: seq<Effect>)
    ensures var t := [Call(i, current), Sleep(delay)] + rest;
            Sleeps(t) == [delay] + Sleeps(rest) && Calls(t) == Calls(rest) + 1
  {
    var t := [Call(i, current), Sleep(delay)] + rest;
    assert t[1..] == [Sleep(delay)] + rest && t[1..][1..] == rest;
  }

  /** At most MaxAttempts calls and one fewer sleeps; the j-th sleep is the capped j-th backoff. */
  lemma {:induction false} SleepsFollowBackoff(step: StepDefinition, i: int, inst: Instance, current: Value,
                                               env: Environment, used: nat, attempt: nat, backoff: int)
    requires 1 <= attempt <= MaxAttempts(step)
    ensures var t := AttemptsFrom(step, i, inst, current, env, used, attempt, backoff).trace;
            && Calls(t) <= MaxAttempts(step) - attempt + 1
            && |Sleeps(t)| <= MaxAttempts(step) - attempt
            && (backoff <= 0 ==> Sleeps(t) == [])
            && forall j | 0 <= j < |Sleeps(t)| :: Sleeps(t)[j] == Delay(step, BackoffAfter(step, backoff, j))
    decreases MaxAttempts(step) - attempt
  {
    if Retries(step, current, env(used), attempt, backoff) {
      var next := if backoff <= 0 then backoff else NextBackoff(step, backoff);
      var rest := AttemptsFrom(step, i, inst, current, env, used + 1, attempt + 1, next);
      SleepsFollowBackoff(step, i, inst, current, env, used + 1, attempt + 1, next);
      if backoff <= 0 {
        CallThen(i, current, rest.trace);
      } else {
        var delay := Delay(step, backoff);
        CallSleepThen(i, current, delay, rest.trace);
        forall j | 0 <= j <= |Sleeps(rest.trace)|
          ensures ([delay] + Sleeps(rest.trace))[j] == Delay(step, BackoffAfter(step, backoff, j))
        {
          assert j > 0 ==> BackoffAfter(step, backoff, j) == BackoffAfter(step, next, j - 1);
        }
      }
    } else {
      SettleIsOneCall(step, i, inst, current, env(used), attempt, used);
    }
  }

  // ---------- Closed form ----------

  function Pow(m: nat, k: nat): (r: nat)
    ensures m >= 1 ==> r >= 1
  {
    if k == 0 then 1 else m * Pow(m, k - 1)
  }

  /** min(cap, v), or v when there is no cap. */
  function Capped(cap: int, v: int): int {
    if cap > 0 then Min(cap, v) else v
  }

  lemma FloorOfProduct(b: int, m: int)
    ensures (b as real * m as real).Floor == b * m
  {
    assert b as real * m as real == (b * m) as real;
  }

  lemma {:induction false} PowGrows(b: int, m: nat, j: nat)
    requires b > 0 && m >= 1
    ensures b * Pow(m, j) >= b && b * Pow(m, j) * m == b * Pow(m, j + 1)
    ensures b * Pow(m, j) <= b * Pow(m, j + 1)
  {
    var p := Pow(m, j);
    assert b * p >= b;
    assert b * p * m == b * (m * p);
    assert b * p * m >= b * p;
  }

  /** For a whole multiplier m the backoff is b, then the capped b * m^j; the delay is the capped b * m^j throughout. */
  lemma {:induction false} ClosedForm(step: StepDefinition, b: int, m: nat, j: nat)
    requires b > 0 && m >= 1 && Multiplier(step) == m as real
    ensures var cap, v := MaxBackoff(step), b * Pow(m, j);
            && BackoffAfter(step, b, j) == (if j == 0 then b else Capped(cap, v))
            && Delay(step, BackoffAfter(step, b, j)) == Capped(cap, v)
  {
    if j == 0 {
      assert b * Pow(m, 0) == b;
    } else {
      var cap, v, v' := MaxBackoff(step), b * Pow(m, j - 1), b * Pow(m, j);
      ClosedForm(step, b, m, j - 1);
      var before, after := BackoffAfter(step, b, j - 1), BackoffAfter(step, b, j);
      assert after == Capped(cap, before * m) by {
        BackoffAfterNext(step, b, j - 1);
        NextBackoffWhole(step, before, m);
      }
      assert v > 0 && v' == v * m by {
        PowGrows(b, m, j - 1);
      }
      CapAgain(cap, before, v, m);
    }
  }

  lemma NextBackoffWhole(step: StepDefinition, backoff: int, m: nat)
    requires m >= 1 && Multiplier(step) == m as real
    ensures NextBackoff(step, backoff) == Capped(MaxBackoff(step), backoff * m)
  {
    FloorOfProduct(backoff, m);
  }

  /** Capping before multiplying changes nothing once the product is capped. */
  lemma CapAgain(cap: int, before: int, v: int, m: nat)
    requires v > 0 && m >= 1 && (before == v || before == Capped(cap, v))
    ensures Capped(cap, before * m) == Capped(cap, v * m)
  {
    if cap > 0 && cap < v {
      MulMonotone(cap, v, m);
      MulMonotone(1, m, cap);
    }
  }

  function Sum(s: seq<int>): int {
    if s == [] then 0 else s[0] + Sum(s[1..])
  }

  lemma {:induction false} SumBound(s: seq<int>, bound: int)
    requires bound >= 0 && forall j | 0 <= j < |s| :: s[j] <= bound
    ensures Sum(s) <= |s| * bound
  {
    if s != [] {
      SumBound(s[1..], bound);
    }
  }

  /** Backoff law for a step whose policy multiplies by the whole number m (two, if it names none): the sleeps are
      min(cap, b * m^j) in order, never shrink, are fewer than the attempts allowed, add up to at most that many times
      the cap, and no product the loop forms exceeds max(b, cap) * m. */
  lemma BackoffLaw(step: StepDefinition, i: int, inst: Instance, current: Value, env: Environment, used: nat, m: nat,
                   b: int)
    requires step.retry.Some? && b > 0 && m >= 1
    requires var p := step.retry.value;
             && b == (if p.initialBackoff > 0 then p.initialBackoff else p.backoff)
             && (if p.multiplier > 0.0 then p.multiplier == m as real else m == 2)
    ensures var p := step.retry.value;
            var cap, spare := p.maxBackoff, if p.maxAttempts > 0 then p.maxAttempts - 1 else 0;
            var s := Sleeps(RunStep(step, i, inst, current, env, used).trace);
            && |s| <= spare
            && (forall j | 0 <= j < |s| :: s[j] == Capped(cap, b * Pow(m, j)))
            && (forall j | 0 <= j < |s| - 1 :: s[j] <= s[j + 1])
            && (cap > 0 ==> Sum(s) <= spare * cap)
            && (cap > 0 ==> forall j: nat | j < |s| :: BackoffAfter(step, b, j) * m <= Max(b, cap) * m)
  {
    var cap := MaxBackoff(step);
    var s := Sleeps(RunStep(step, i, inst, current, env, used).trace);
    SleepsFollowBackoff(step, i, inst, current, env, used, 1, b);
    forall j | 0 <= j < |s|
      ensures s[j] == Capped(cap, b * Pow(m, j))
      ensures cap > 0 ==> BackoffAfter(step, b, j) * m <= Max(b, cap) * m
    {
      ClosedForm(step, b, m, j);
      if cap > 0 {
        assert BackoffAfter(step, b, j) <= Max(b, cap);
        MulMonotone(BackoffAfter(step, b, j), Max(b, cap), m);
      }
    }
    forall j | 0 <= j < |s| - 1 ensures s[j] <= s[j + 1] {
      PowGrows(b, m, j);
    }
    if cap > 0 {
      TotalBound(s, cap, MaxAttempts(step) - 1);
    }
  }

  lemma TotalBound(s: seq<int>, cap: int, spare: int)
    requires cap > 0 && |s| <= spare && forall j | 0 <= j < |s| :: s[j] <= cap
    ensures Sum(s) <= spare * cap
  {
    SumBound(s, cap);
    MulMonotone(|s|, spare, cap);
  }

  lemma MulMonotone(x: int, y: int, z: int)
    requires x <= y && z >= 0
    ensures x * z <= y * z
  {
  }
}
