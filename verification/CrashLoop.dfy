/** pkg/disruptors/pod.go crashLoopPod: killing a container again and again, with a budget for failures in a row. */
module CrashLoop {
  import opened Common
  import PodWait

  const MAX_CONSECUTIVE_FAILURES := 5
  const DEFAULT_RESTART_TIMEOUT := 30_000_000_000

  /** `count` limits the crashes if positive. */
  datatype Fault = Fault(count: int, restartTimeout: int)

  /** What one iteration meets: the clock at its three readings and the answers of the helpers. */
  datatype Attempt = Attempt(
    cancelled: bool,
    top: int,                          // time.Now() at the top of the loop
    beforeWait: int,
    running: Option<bool>,             // WaitContainerRunning, None for an error
    restartsBefore: Option<int>,       // GetContainerRestartCount
    killed: bool,                      // Exec of kill
    afterKill: int,
    restart: Option<(int, bool)>)      // WaitContainerRestart

  /** How long a helper may wait: the restart timeout or its default, cut at the deadline. */
  function WaitTimeout(fault: Fault, remaining: int): (timeout: int)
    requires remaining > 0
    ensures 0 < timeout <= remaining
    ensures fault.restartTimeout > 0 ==> timeout <= fault.restartTimeout && timeout in {fault.restartTimeout, remaining}
    ensures fault.restartTimeout <= 0 ==> timeout <= 30_000_000_000 && timeout in {30_000_000_000, remaining}
  {
    var timeout := if fault.restartTimeout <= 0 then DEFAULT_RESTART_TIMEOUT else fault.restartTimeout;
    if remaining < timeout then remaining else timeout
  }

  /** A wait that begins at `now`: it gives up by the deadline, and within the restart timeout if there is one. */
  predicate Timely(fault: Fault, deadline: int, now: int, timeout: int) {
    0 < timeout && now + timeout <= deadline && (fault.restartTimeout > 0 ==> timeout <= fault.restartTimeout)
  }

  datatype Step = Stop | Failure | Crash

  /** What an attempt comes to after `crashes` crashes. */
  function Classify(fault: Fault, deadline: int, crashes: nat, a: Attempt): Step {
    if a.cancelled || a.top > deadline || (fault.count > 0 && crashes >= fault.count) then Stop
    else if a.beforeWait >= deadline then Stop
    else if a.running != Some(true) || a.restartsBefore.None? || !a.killed then Failure
    else if a.afterKill >= deadline then Stop
    else if a.restart.Some? && a.restart.value.1 then Crash
    else Failure
  }

  /** The crashes among the first n steps. */
  function Crashes(steps: seq<Step>, n: nat): nat
    requires n <= |steps|
  {
    if n == 0 then 0 else Crashes(steps, n - 1) + if steps[n - 1].Crash? then 1 else 0
  }

  /** The failures among the first n steps since the last crash. */
  function FailuresInARow(steps: seq<Step>, n: nat): nat
    requires n <= |steps|
  {
    if n == 0 || !steps[n - 1].Failure? then 0 else 1 + FailuresInARow(steps, n - 1)
  }

  /** The steps a loop with this fault and environment can have taken: each is what its attempt comes to, and none
      comes after five failures in a row. */
  ghost predicate LoopSteps(fault: Fault, deadline: int, env: nat -> Attempt, steps: seq<Step>) {
    forall i :: 0 <= i < |steps| ==> LoopStep(fault, deadline, env, steps, i)
  }

  predicate LoopStep(fault: Fault, deadline: int, env: nat -> Attempt, steps: seq<Step>, i: nat)
    requires i < |steps|
  {
    && steps[i] != Stop && FailuresInARow(steps, i) < MAX_CONSECUTIVE_FAILURES
    && steps[i] == Classify(fault, deadline, Crashes(steps, i), env(i))
  }

  /** `env(i)` is what iteration i meets. Without a positive count, the loop is ended by cancellation or by the
      clock, which stop it at some iteration. */
  method CrashLoopPod(fault: Fault, deadline: int, env: nat -> Attempt, ghost horizon: nat)
    returns (crashes: nat, failed: bool, steps: seq<Step>, waits: seq<(int, int)>)
    requires fault.count > 0 || env(horizon).cancelled || env(horizon).top > deadline
    ensures crashes == Crashes(steps, |steps|)
    ensures LoopSteps(fault, deadline, env, steps)
    ensures failed <==> FailuresInARow(steps, |steps|) == MAX_CONSECUTIVE_FAILURES
    ensures failed <==> |steps| >= 5 && forall i :: |steps| - 5 <= i < |steps| ==> steps[i] == Failure
    ensures !failed ==> FailuresInARow(steps, |steps|) < MAX_CONSECUTIVE_FAILURES
    ensures !failed ==> Classify(fault, deadline, crashes, env(|steps|)) == Stop
    ensures forall i :: 0 <= i < |waits| ==> Timely(fault, deadline, waits[i].0, waits[i].1)
    ensures |steps| + crashes <= |waits|
  {
    crashes := 0;
    steps, waits := [], [];
    FailuresAre(steps, 0);
    var consecutiveFailures := 0;
    var i := 0;
    while true
      invariant |steps| == i && crashes == Crashes(steps, i)
      invariant consecutiveFailures == FailuresInARow(steps, i) < MAX_CONSECUTIVE_FAILURES
      invariant LoopSteps(fault, deadline, env, steps)
      invariant forall k :: 0 <= k < |waits| ==> Timely(fault, deadline, waits[k].0, waits[k].1)
      invariant |steps| + crashes <= |waits|
      invariant !(i >= 5 && forall k :: i - 5 <= k < i ==> steps[k] == Failure)
      invariant fault.count > 0 ==> crashes <= fault.count
      invariant fault.count <= 0 ==> i <= horizon
      decreases if fault.count > 0 then fault.count - crashes else horizon - i,
                MAX_CONSECUTIVE_FAILURES - consecutiveFailures
    {
      var a := env(i);
      if a.cancelled {
        return crashes, false, steps, waits;
      }
      if a.top > deadline {
        return crashes, false, steps, waits;
      }
      if fault.count > 0 && crashes >= fault.count {
        return crashes, false, steps, waits;
      }
      var remaining := deadline - a.beforeWait;
      if remaining <= 0 {
        return crashes, false, steps, waits;
      }
      var waitTimeout := WaitTimeout(fault, remaining);
      waits := waits + [(a.beforeWait, waitTimeout)];
      var crashed := false;
      if a.running == Some(true) && a.restartsBefore.Some? && a.killed {
        remaining := deadline - a.afterKill;
        if remaining <= 0 {
          return crashes, false, steps, waits;
        }
        waitTimeout := WaitTimeout(fault, remaining);
        waits := waits + [(a.afterKill, waitTimeout)];
        crashed := a.restart.Some? && a.restart.value.1;
      }
      assert Classify(fault, deadline, crashes, a) == if crashed then Crash else Failure;
      Extended(fault, deadline, env, steps, if crashed then Crash else Failure);
      steps := steps + [if crashed then Crash else Failure];
      i := i + 1;
      FailuresAre(steps, i);
      if crashed {
        consecutiveFailures := 0;
        crashes := crashes + 1;
      } else {
        consecutiveFailures := consecutiveFailures + 1;
        if consecutiveFailures >= MAX_CONSECUTIVE_FAILURES {
          return crashes, true, steps, waits;
        }
      }
    }
  }

  /** The failures in a row are the last steps, up to one that is none. */
  lemma {:induction false} FailuresAre(steps: seq<Step>, n: nat)
    requires n <= |steps|
    ensures var k := FailuresInARow(steps, n);
            && k <= n && (forall i :: n - k <= i < n ==> steps[i] == Failure)
            && (k < n ==> steps[n - k - 1] != Failure)
  {
    if n > 0 && steps[n - 1].Failure? {
      FailuresAre(steps, n - 1);
    }
  }

  /** Whether the time for another attempt has run out, or a kill has been too late to be seen. */
  predicate OutOfTime(deadline: int, a: Attempt) {
    || a.top > deadline || a.beforeWait >= deadline
    || (KillWorks(a) && a.afterKill >= deadline)
  }

  predicate KillWorks(a: Attempt) { a.running == Some(true) && a.restartsBefore.Some? && a.killed }

  /** What an attempt comes to: the loop stops on cancellation, at the deadline or when the count is reached; a crash
      needs every helper to succeed and the restart to be seen; anything else is a failure. */
  lemma ClassifyIs(fault: Fault, deadline: int, crashes: nat, a: Attempt)
    ensures Classify(fault, deadline, crashes, a) == Stop <==>
              a.cancelled || OutOfTime(deadline, a) || 1 <= fault.count <= crashes
    ensures Classify(fault, deadline, crashes, a) == Crash ==>
              KillWorks(a) && a.restart.Some? && a.restart.value.1
    ensures KillWorks(a) && a.restart.Some? && a.restart.value.1 ==> Classify(fault, deadline, crashes, a) != Failure
    ensures !KillWorks(a) || a.restart.None? || !a.restart.value.1 ==> Classify(fault, deadline, crashes, a) != Crash
  {
  }

  /** A loop that ends without an error, not cancelled and with time left, has crashed the container as often as
      asked. */
  lemma ReachesCount(fault: Fault, deadline: int, env: nat -> Attempt, steps: seq<Step>)
    requires LoopSteps(fault, deadline, env, steps)
    requires Classify(fault, deadline, Crashes(steps, |steps|), env(|steps|)) == Stop
    requires !env(|steps|).cancelled && !OutOfTime(deadline, env(|steps|))
    ensures fault.count > 0 && Crashes(steps, |steps|) == fault.count
  {
    var n := |steps|;
    ClassifyIs(fault, deadline, Crashes(steps, n), env(n));
    if fault.count > 0 {
      IterationsBounded(fault, deadline, env, steps);
    }
  }

  lemma {:induction false} SamePrefix(steps: seq<Step>, step: Step, n: nat)
    requires n <= |steps|
    ensures Crashes(steps + [step], n) == Crashes(steps, n)
    ensures FailuresInARow(steps + [step], n) == FailuresInARow(steps, n)
  {
    if n > 0 {
      SamePrefix(steps, step, n - 1);
    }
  }

  lemma Extended(fault: Fault, deadline: int, env: nat -> Attempt, steps: seq<Step>, step: Step)
    requires LoopSteps(fault, deadline, env, steps) && FailuresInARow(steps, |steps|) < MAX_CONSECUTIVE_FAILURES
    requires step != Stop && step == Classify(fault, deadline, Crashes(steps, |steps|), env(|steps|))
    ensures LoopSteps(fault, deadline, env, steps + [step])
    ensures Crashes(steps + [step], |steps| + 1) == Crashes(steps, |steps|) + if step.Crash? then 1 else 0
    ensures FailuresInARow(steps + [step], |steps| + 1)
            == if step.Failure? then 1 + FailuresInARow(steps, |steps|) else 0
  {
    var longer := steps + [step];
    SamePrefix(steps, step, |steps|);
    forall i | 0 <= i < |longer| ensures LoopStep(fault, deadline, env, longer, i) {
      if i < |steps| {
        SamePrefix(steps, step, i);
        assert LoopStep(fault, deadline, env, steps, i);
      }
    }
  }

  /** At most four failures come before each crash. */
  lemma {:induction false} LengthBound(fault: Fault, deadline: int, env: nat -> Attempt, steps: seq<Step>, n: nat)
    requires n <= |steps| && LoopSteps(fault, deadline, env, steps)
    ensures n <= 5 * Crashes(steps, n) + FailuresInARow(steps, n)
    ensures FailuresInARow(steps, n) <= MAX_CONSECUTIVE_FAILURES
  {
    if n > 0 {
      LengthBound(fault, deadline, env, steps, n - 1);
      assert LoopStep(fault, deadline, env, steps, n - 1);
    }
  }

  /** With a positive count there are at most five times as many iterations, whatever the helpers answer, and never
      more crashes than asked for. */
  lemma IterationsBounded(fault: Fault, deadline: int, env: nat -> Attempt, steps: seq<Step>)
    requires fault.count > 0 && LoopSteps(fault, deadline, env, steps)
    ensures Crashes(steps, |steps|) <= fault.count && |steps| <= 5 * fault.count
  {
    LengthBound(fault, deadline, env, steps, |steps|);
    if steps != [] {
      var n := |steps| - 1;
      assert LoopStep(fault, deadline, env, steps, n);
      assert Crashes(steps, n) < fault.count;
    }
  }

  /** What the container's restart counter can show: it never goes back, and WaitContainerRestart reports a restart
      only with a count above the one read before the kill. */
  ghost predicate CounterGrows(env: nat -> Attempt, n: nat, first: int, last: int) {
    && (forall i :: 0 <= i < n && env(i).restartsBefore.Some? ==> first <= env(i).restartsBefore.value)
    && (forall i :: 0 <= i < n && Observed(env(i)) ==>
          env(i).restartsBefore.value < env(i).restart.value.0 <= last)
    && (forall i, j :: 0 <= i < j < n && Observed(env(i)) && env(j).restartsBefore.Some? ==>
          env(i).restart.value.0 <= env(j).restartsBefore.value)
  }

  /** An attempt whose restart was observed. */
  predicate Observed(a: Attempt) {
    a.restartsBefore.Some? && a.restart.Some? && a.restart.value.1
  }

  /** The crashes reported are at most the growth of the container's restart count. */
  lemma {:induction false} CrashesAreRestarts(
      fault: Fault, deadline: int, env: nat -> Attempt, steps: seq<Step>, n: nat, first: int, last: int)
    requires LoopSteps(fault, deadline, env, steps) && n <= |steps|
    requires first <= last && CounterGrows(env, n, first, last)
    ensures Crashes(steps, n) <= last - first
  {
    if n > 0 {
      assert LoopStep(fault, deadline, env, steps, n - 1);
      if steps[n - 1].Crash? {
        assert Observed(env(n - 1));
        CrashesAreRestarts(fault, deadline, env, steps, n - 1, first, env(n - 1).restartsBefore.value);
      } else {
        CrashesAreRestarts(fault, deadline, env, steps, n - 1, first, last);
      }
    }
  }

  // ---- The restart counter as the pod's versions show it

  /** The container's restart count never goes back from one version of the pod to a later one. */
  ghost predicate NeverGoesBack(history: seq<PodWait.Pod>, name: string) {
    forall u, v, a, b :: 0 <= u <= v < |history| ==>
      PodWait.ShowsCount(history[u], name, a) && PodWait.ShowsCount(history[v], name, b) ==> a <= b
  }

  /** The first n attempts read and saw versions of the pod in order: each reads its count from one version, and a
      restart is what WaitContainerRestart reports, a higher count that a version from then on shows. */
  ghost predicate Watches(
      history: seq<PodWait.Pod>, name: string, env: nat -> Attempt, n: nat, read: nat -> nat, seen: nat -> nat) {
    && (forall i :: 0 <= i < n ==> read(i) <= seen(i) < |history|)
    && (forall i, j :: 0 <= i < j < n ==> seen(i) <= read(j))
    && (forall i :: 0 <= i < n && env(i).restartsBefore.Some? ==>
          PodWait.ShowsCount(history[read(i)], name, env(i).restartsBefore.value))
    && (forall i :: 0 <= i < n && Observed(env(i)) ==>
          && PodWait.ShowsCount(history[seen(i)], name, env(i).restart.value.0)
          && env(i).restart.value.0 > env(i).restartsBefore.value)
  }

  lemma WatchedCounterGrows(
      history: seq<PodWait.Pod>, name: string, env: nat -> Attempt, n: nat, read: nat -> nat, seen: nat -> nat,
      first: int, last: int)
    requires NeverGoesBack(history, name) && Watches(history, name, env, n, read, seen) && history != []
    requires PodWait.ShowsCount(history[0], name, first) && PodWait.ShowsCount(history[|history| - 1], name, last)
    ensures first <= last && CounterGrows(env, n, first, last)
  {
  }

  /** For a pod whose restart count never goes back, the crashes reported are at most what the count grew by. */
  lemma CrashesArePodRestarts(
      fault: Fault, deadline: int, env: nat -> Attempt, steps: seq<Step>,
      history: seq<PodWait.Pod>, name: string, read: nat -> nat, seen: nat -> nat, first: int, last: int)
    requires LoopSteps(fault, deadline, env, steps) && history != []
    requires NeverGoesBack(history, name) && Watches(history, name, env, |steps|, read, seen)
    requires PodWait.ShowsCount(history[0], name, first) && PodWait.ShowsCount(history[|history| - 1], name, last)
    ensures Crashes(steps, |steps|) <= last - first
  {
    WatchedCounterGrows(history, name, env, |steps|, read, seen, first, last);
    CrashesAreRestarts(fault, deadline, env, steps, |steps|, first, last);
  }
}
