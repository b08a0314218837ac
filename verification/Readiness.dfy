/** waitReady: polling the admin API with a growing backoff. Times are in milliseconds; a sleep takes
    exactly as long as it is asked to, and code between probes takes no time. */
module Readiness {
  const PROBE_LIMIT: nat := 2000
  const FIRST_BACKOFF: nat := 10
  const BACKOFF_CEILING: nat := 250
  const LAST_BACKOFF: nat := 320
  const DEFAULT_TIMEOUT: nat := 20000

  /** What the environment shows round n: whether the context is done, whether the child has exited,
      and how the probe goes if there is one. */
  datatype Round = Round(contextDone: bool, childExited: bool, ok: bool, took: nat)

  datatype Outcome = Ready | ContextDone | ChildExited | TimedOut

  /** The environment honours the probe context's two seconds. */
  ghost predicate Prompt(env: nat -> Round) { forall n: nat :: env(n).took <= PROBE_LIMIT }

  /** The n-th sleep, counting from one, by the rule in the code. */
  function Sleep(n: nat): nat {
    if n <= 1 then FIRST_BACKOFF
    else if Sleep(n - 1) < BACKOFF_CEILING then Sleep(n - 1) * 2 else Sleep(n - 1)
  }

  /** The time the first n sleeps take. */
  function Slept(n: nat): nat { if n == 0 then 0 else Slept(n - 1) + Sleep(n) }

  function Pow2(n: nat): nat { if n == 0 then 1 else 2 * Pow2(n - 1) }

  function Min(a: int, b: int): int { if a < b then a else b }

  /** The n-th sleep is min(10 * 2^(n-1), 320) ms. */
  lemma {:induction false} SleepClosedForm(n: nat)
    requires n >= 1
    ensures Sleep(n) == Min(10 * Pow2(n - 1), 320)
  {
    if n > 1 {
      SleepClosedForm(n - 1);
      if n <= 6 { FirstPowers(); } else { PowersGrow(n - 1); }
    }
  }

  lemma FirstPowers()
    ensures Pow2(0) == 1 && Pow2(1) == 2 && Pow2(2) == 4 && Pow2(3) == 8 && Pow2(4) == 16 && Pow2(5) == 32
  {
  }

  lemma {:induction false} PowersGrow(n: nat)
    requires n >= 6
    ensures Pow2(n) >= 64 && Pow2(n - 1) >= 32
  {
    if n == 6 { FirstPowers(); } else { PowersGrow(n - 1); }
  }

  /** The first six sleeps take 630 ms, every later one 320 ms. */
  lemma {:induction false} SleptClosedForm(n: nat)
    ensures n >= 6 ==> Slept(n) == 630 + 320 * (n - 6)
    ensures n < 6 ==> Slept(n) == 10 * (Pow2(n) - 1)
  {
    if n > 0 {
      SleptClosedForm(n - 1);
      SleepClosedForm(n);
      FirstPowers();
      if n >= 7 { PowersGrow(n - 1); }
    }
  }

  /** The number of probes a loop with this timeout can make. */
  function ProbeBound(timeout: int): nat {
    if timeout < 0 then 1
    else if timeout < 10 then 2
    else if timeout < 30 then 3
    else if timeout < 70 then 4
    else if timeout < 150 then 5
    else if timeout < 310 then 6
    else if timeout < 630 then 7
    else 8 + (timeout - 630) / LAST_BACKOFF
  }

  /** The bound is exact: it allows a last probe if and only if the sleeps before the probe ahead of it fit
      into the timeout. */
  lemma ProbesWithinBound(probes: nat, timeout: int)
    requires probes >= 2
    ensures probes <= ProbeBound(timeout) <==> Slept(probes - 2) <= timeout
  {
    SleptClosedForm(probes - 2);
    FirstPowers();
    if probes >= 8 {
      assert LAST_BACKOFF * (probes - 8) <= timeout - 630 <==> probes - 8 <= (timeout - 630) / LAST_BACKOFF;
    }
  }

  lemma DefaultMakesAtMost68()
    ensures DEFAULT_TIMEOUT == 20000 && ProbeBound(DEFAULT_TIMEOUT) == 68
  {
  }

  /** The time the first n probes take. */
  function Took(env: nat -> Round, n: nat): nat { if n == 0 then 0 else Took(env, n - 1) + env(n - 1).took }

  /** waitReady. start is the clock at the call, now the clock at the return, probes how many probes
      were made and sleeps the durations slept. */
  method WaitReady(env: nat -> Round, start: nat, timeout: int) returns (result: Outcome, now: nat, probes: nat, sleeps: seq<nat>)
    requires Prompt(env)
    ensures now <= start + (if timeout > 0 then timeout else 0) + 2320
    ensures probes <= ProbeBound(timeout)
    ensures forall n :: 0 <= n < |sleeps| ==> sleeps[n] == Min(10 * Pow2(n), 320)
    ensures result.Ready? ==> probes > 0 && env(probes - 1).ok
    ensures forall n: nat :: n < probes ==> !env(n).contextDone && !env(n).childExited && (env(n).ok ==> n == probes - 1 && result.Ready?)
    ensures |sleeps| == if result.Ready? || result.TimedOut? then probes - 1 else probes
    ensures now == start + Took(env, probes) + Slept(|sleeps|)
    ensures forall n: nat :: n < |sleeps| ==> Took(env, n + 1) + Slept(n) <= timeout
    ensures result.ContextDone? ==> env(probes).contextDone
    ensures result.ChildExited? ==> !env(probes).contextDone && env(probes).childExited
    ensures result.TimedOut? ==> probes > 0 && !env(probes - 1).ok && now > start + timeout
  {
    hide Sleep, Slept, Pow2, ProbeBound;
    assert PROBE_LIMIT + LAST_BACKOFF == 2320;
    var deadline := start + timeout;
    var backoff := FIRST_BACKOFF;
    now, probes, sleeps := start, 0, [];
    SleepRule(0);
    while true
      invariant |sleeps| == probes && backoff == Sleep(probes + 1)
      invariant now == start + Took(env, probes) + Slept(probes)
      invariant forall n: nat :: n < probes ==> Took(env, n + 1) + Slept(n) <= timeout
      invariant now <= start + (if timeout > 0 then timeout else 0) + LAST_BACKOFF
      invariant probes > 0 ==> Slept(probes - 1) <= timeout
      invariant forall n :: 0 <= n < |sleeps| ==> sleeps[n] == Sleep(n + 1)
      invariant forall n: nat :: n < probes ==> !env(n).ok && !env(n).contextDone && !env(n).childExited
      decreases deadline + LAST_BACKOFF + FIRST_BACKOFF - now
    {
      SleepRule(probes);
      SleepRule(probes + 1);
      var round := env(probes);
      if round.contextDone { result := ContextDone; break; }
      if round.childExited { result := ChildExited; break; }
      now := now + round.took;
      probes := probes + 1;
      if round.ok { result := Ready; break; }
      if now > deadline { result := TimedOut; break; }
      now := now + backoff;
      sleeps := sleeps + [backoff];
      if backoff < BACKOFF_CEILING { backoff := backoff * 2; }
    }
    if probes >= 2 { SleepRule(probes - 2); ProbesWithinBound(probes, timeout); } else { BoundAtLeastOne(timeout); }
    forall n | 0 <= n < |sleeps| ensures sleeps[n] == Min(10 * Pow2(n), 320) { SleepClosedForm(n + 1); }
  }

  lemma BoundAtLeastOne(timeout: int)
    ensures ProbeBound(timeout) >= 1
  {
  }

  /** The backoff rule and the range it stays in. */
  lemma SleepRule(n: nat)
    ensures FIRST_BACKOFF <= Sleep(n) <= LAST_BACKOFF && Sleep(1) == FIRST_BACKOFF && Slept(0) == 0
    ensures Slept(n + 1) == Slept(n) + Sleep(n + 1)
    ensures n >= 1 ==> Sleep(n + 1) == if Sleep(n) < BACKOFF_CEILING then Sleep(n) * 2 else Sleep(n)
  {
    if n >= 1 {
      SleepClosedForm(n);
      PowPositive(n - 1);
    }
  }

  lemma {:induction false} PowPositive(n: nat)
    ensures Pow2(n) >= 1
  {
    if n > 0 { PowPositive(n - 1); }
  }
}
