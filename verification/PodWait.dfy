/** pkg/kubernetes/helpers/pods.go: waiting for a pod to satisfy a condition by watching it. */
module PodWait {
  import opened Common

  datatype Container = Container(name: string, restartCount: int, running: bool)

  datatype Pod = Pod(containers: seq<Container>)

  /** What a checker says of a pod; `Fault` is an error. */
  datatype Answer = Yes | No | Fault

  /** What the select receives: the expiry of the timeout or an event of the watch. */
  datatype Input = Expired | Modified(pod: Pod) | Unknown | WatchError | OtherEvent

  datatype Outcome = Satisfied | TimedOut | Failed

  /** The loop on its own; the timer expires at the latest when the events end. */
  function Scan(inputs: seq<Input>, check: Pod -> Answer): Outcome {
    if inputs == [] then TimedOut
    else
      match inputs[0]
      case Expired => TimedOut
      case WatchError => Failed
      case Unknown => Failed
      case OtherEvent => Scan(inputs[1..], check)
      case Modified(pod) =>
        match check(pod)
        case Yes => Satisfied
        case Fault => Failed
        case No => Scan(inputs[1..], check)
  }

  function Wait(watching: bool, read: Option<Pod>, inputs: seq<Input>, check: Pod -> Answer): Outcome {
    if !watching || read.None? then Failed
    else match check(read.value)
      case Yes => Satisfied
      case Fault => Failed
      case No => Scan(inputs, check)
  }

  /** The pods of the modification events. */
  function Modifications(inputs: seq<Input>): seq<Pod> {
    if inputs == [] then []
    else (if inputs[0].Modified? then [inputs[0].pod] else []) + Modifications(inputs[1..])
  }

  /** The pods there are to be checked: the one read, then those of the modification events. */
  function Offered(watching: bool, read: Option<Pod>, inputs: seq<Input>): seq<Pod> {
    if watching && read.Some? then [read.value] + Modifications(inputs) else []
  }

  lemma {:induction false} NextModification(inputs: seq<Input>, n: nat)
    requires n < |inputs|
    ensures Modifications(inputs[..n + 1])
            == Modifications(inputs[..n]) + if inputs[n].Modified? then [inputs[n].pod] else []
  {
    assert inputs[..n + 1][1..] == inputs[1..][..n];
    if n > 0 {
      assert inputs[..n][1..] == inputs[1..][..n - 1];
      NextModification(inputs[1..], n - 1);
    } else {
      assert inputs[1..][..0] == [];
    }
  }

  lemma {:induction false} ModificationsPrefix(inputs: seq<Input>, n: nat)
    requires n <= |inputs|
    ensures Modifications(inputs[..n]) <= Modifications(inputs)
  {
    if n > 0 {
      assert inputs[..n][1..] == inputs[1..][..n - 1];
      ModificationsPrefix(inputs[1..], n - 1);
    }
  }

  /** The pods there are to be checked before input n. */
  function OfferedBy(read: Pod, inputs: seq<Input>, n: nat): seq<Pod>
    requires n <= |inputs|
  {
    [read] + Modifications(inputs[..n])
  }

  lemma NextOffered(read: Pod, inputs: seq<Input>, n: nat)
    requires n < |inputs|
    ensures OfferedBy(read, inputs, n + 1)
            == OfferedBy(read, inputs, n) + if inputs[n].Modified? then [inputs[n].pod] else []
    ensures OfferedBy(read, inputs, n + 1) <= Offered(true, Some(read), inputs)
  {
    NextModification(inputs, n);
    ModificationsPrefix(inputs, n + 1);
  }

  /** waitForCondition: `watching` and `read` are the results of opening the watch and reading the pod. `checked` are
      the pods the checker was applied to. */
  method WaitForCondition(watching: bool, read: Option<Pod>, inputs: seq<Input>, check: Pod -> Answer)
    returns (outcome: Outcome, checked: seq<Pod>)
    ensures outcome == Wait(watching, read, inputs, check)
    ensures checked <= Offered(watching, read, inputs)
    ensures forall i :: 0 <= i < |checked| - 1 ==> check(checked[i]) == No
    ensures outcome == Satisfied <==> checked != [] && check(checked[|checked| - 1]) == Yes
  {
    checked := [];
    if !watching {
      return Failed, checked;
    }
    if read.None? {
      return Failed, checked;
    }
    checked := [read.value];
    var answer := check(read.value);
    if answer != No {
      return if answer == Yes then Satisfied else Failed, checked;
    }
    var i := 0;
    while i < |inputs| && inputs[i] != Expired
      invariant i <= |inputs|
      invariant Scan(inputs, check) == Scan(inputs[i..], check)
      invariant checked == OfferedBy(read.value, inputs, i) <= Offered(watching, read, inputs)
      invariant forall j :: 0 <= j < |checked| ==> check(checked[j]) == No
      decreases |inputs| - i
    {
      assert inputs[i..][1..] == inputs[i + 1..];
      NextOffered(read.value, inputs, i);
      match inputs[i] {
        case Modified(pod) =>
          checked := checked + [pod];
          answer := check(pod);
          if answer != No {
            return if answer == Yes then Satisfied else Failed, checked;
          }
        case OtherEvent =>
        case _ => return Failed, checked;
      }
      i := i + 1;
    }
    return TimedOut, checked;
  }

  // ---- What decides the wait

  /** An input after which the loop goes on. */
  predicate Passes(input: Input, check: Pod -> Answer) {
    input.OtherEvent? || (input.Modified? && check(input.pod) == No)
  }

  /** The wait is decided by the first input, after the pod that was read, that does not pass: the expiry or the end
      of the events times it out, an error of the watch, of its object or of the checker fails it, a satisfied checker
      ends it well. */
  lemma {:induction false} ScanDecidedAt(inputs: seq<Input>, n: nat, check: Pod -> Answer)
    requires n <= |inputs| && forall i :: 0 <= i < n ==> Passes(inputs[i], check)
    ensures n == |inputs| || inputs[n] == Expired ==> Scan(inputs, check) == TimedOut
    ensures n < |inputs| && inputs[n] in {WatchError, Unknown} ==> Scan(inputs, check) == Failed
    ensures n < |inputs| && inputs[n].Modified? && check(inputs[n].pod) == Yes ==> Scan(inputs, check) == Satisfied
    ensures n < |inputs| && inputs[n].Modified? && check(inputs[n].pod) == Fault ==> Scan(inputs, check) == Failed
  {
    if n > 0 {
      assert Passes(inputs[0], check);
      ScanDecidedAt(inputs[1..], n - 1, check);
    }
  }

  lemma WaitDecided(watching: bool, read: Option<Pod>, inputs: seq<Input>, check: Pod -> Answer)
    ensures !watching || read == None ==> Wait(watching, read, inputs, check) == Failed
    ensures watching && read.Some? ==>
              Wait(watching, read, inputs, check) == match check(read.value)
                case Yes => Satisfied
                case Fault => Failed
                case No => Scan(inputs, check)
  {
  }

  // ---- No update is lost

  /** A watch opened at version `w` of the pod delivers the later versions one by one, in order. */
  ghost predicate Delivers(history: seq<Pod>, w: nat, inputs: seq<Input>) {
    w < |history| && Modifications(inputs) <= history[w + 1..]
  }

  /** Nothing among these inputs makes the loop end without the condition. */
  predicate Undisturbed(inputs: seq<Input>, check: Pod -> Answer) {
    forall i :: 0 <= i < |inputs| ==>
      (inputs[i].Modified? && check(inputs[i].pod) != Fault) || inputs[i].OtherEvent?
  }

  lemma {:induction false} ScanSatisfied(inputs: seq<Input>, n: nat, check: Pod -> Answer, k: nat)
    requires n <= |inputs| && Undisturbed(inputs[..n], check)
    requires k < |Modifications(inputs[..n])| && check(Modifications(inputs[..n])[k]) == Yes
    ensures Scan(inputs, check) == Satisfied
  {
    assert inputs[..n][0] == inputs[0];
    assert inputs[..n][1..] == inputs[1..][..n - 1];
    assert Undisturbed(inputs[1..][..n - 1], check) by {
      forall i | 0 <= i < n - 1
        ensures (inputs[1..][i].Modified? && check(inputs[1..][i].pod) != Fault) || inputs[1..][i].OtherEvent?
      {
        assert inputs[..n][i + 1] == inputs[1..][i];
      }
    }
    if !inputs[0].Modified? {
      ScanSatisfied(inputs[1..], n - 1, check, k);
    } else if check(inputs[0].pod) != Yes {
      assert k > 0;
      ScanSatisfied(inputs[1..], n - 1, check, k - 1);
    }
  }

  /** The watch is opened at version w, before the pod is read at version g: if version k, the one read or a later one,
      satisfies the condition and was delivered without an earlier error or timeout, the wait succeeds. */
  lemma NoLostUpdate(history: seq<Pod>, w: nat, g: nat, k: nat, inputs: seq<Input>, n: nat, check: Pod -> Answer)
    requires w <= g <= k < |history| && Delivers(history, w, inputs)
    requires check(history[k]) == Yes && check(history[g]) != Fault
    requires n <= |inputs| && Undisturbed(inputs[..n], check) && k - w <= |Modifications(inputs[..n])|
    ensures Wait(true, Some(history[g]), inputs, check) == Satisfied
  {
    if k > w {
      ModificationsPrefix(inputs, n);
      assert Modifications(inputs[..n])[k - w - 1] == history[w + 1..][k - w - 1] == history[k];
      ScanSatisfied(inputs, n, check, k - w - 1);
    }
  }

  lemma {:induction false} SatisfiedByModification(inputs: seq<Input>, check: Pod -> Answer) returns (k: nat)
    requires Scan(inputs, check) == Satisfied
    ensures k < |Modifications(inputs)| && check(Modifications(inputs)[k]) == Yes
  {
    if inputs[0].Modified? && check(inputs[0].pod) == Yes {
      k := 0;
    } else {
      k := SatisfiedByModification(inputs[1..], check);
      k := if inputs[0].Modified? then k + 1 else k;
    }
  }

  /** Success is never made up: some version of the pod that was read or delivered satisfied the condition. */
  lemma SatisfiedByVersion(history: seq<Pod>, w: nat, g: nat, inputs: seq<Input>, check: Pod -> Answer) returns (k: nat)
    requires g < |history| && Delivers(history, w, inputs)
    requires Wait(true, Some(history[g]), inputs, check) == Satisfied
    ensures k < |history| && check(history[k]) == Yes && (k == g || k > w)
  {
    if check(history[g]) == Yes {
      k := g;
    } else {
      k := SatisfiedByModification(inputs, check);
      k := w + 1 + k;
    }
  }

  /** Reading first and opening the watch afterwards would lose every update in between. */
  lemma ReadBeforeWatchLoses(history: seq<Pod>, g: nat, w: nat, inputs: seq<Input>, check: Pod -> Answer)
    requires g < w < |history| && Delivers(history, w, inputs)
    requires forall k :: 0 <= k < |history| && check(history[k]) == Yes ==> g < k <= w
    ensures Wait(true, Some(history[g]), inputs, check) != Satisfied
  {
    if Wait(true, Some(history[g]), inputs, check) == Satisfied {
      var k := SatisfiedByVersion(history, w, g, inputs, check);
      assert false;
    }
  }

  // ---- The conditions

  function Find(containers: seq<Container>, name: string): Option<Container> {
    if containers == [] then None
    else if containers[0].name == name then Some(containers[0]) else Find(containers[1..], name)
  }

  /** Find gives the first container with the name, if there is one. */
  lemma {:induction false} FindIs(containers: seq<Container>, name: string)
    ensures Find(containers, name).None? <==> forall i :: 0 <= i < |containers| ==> containers[i].name != name
    ensures Find(containers, name).Some? ==>
              exists i :: 0 <= i < |containers| && Find(containers, name) == Some(containers[i])
                  && containers[i].name == name
                          && forall j :: 0 <= j < i ==> containers[j].name != name
  {
    if containers != [] && containers[0].name != name {
      FindIs(containers[1..], name);
      if Find(containers, name).Some? {
        var i :| 0 <= i < |containers[1..]| && Find(containers[1..], name) == Some(containers[1..][i])
                 && containers[1..][i].name == name && forall j :: 0 <= j < i ==> containers[1..][j].name != name;
        assert containers[i + 1] == containers[1..][i];
        assert forall j :: 1 <= j < i + 1 ==> containers[j] == containers[1..][j - 1];
      } else {
        assert forall j :: 1 <= j < |containers| ==> containers[j] == containers[1..][j - 1];
      }
    }
  }

  function IsRunning(name: string): Pod -> Answer {
    (pod: Pod) => match Find(pod.containers, name)
      case Some(c) => if c.running then Yes else No
      case None => No
  }

  function Restarted(name: string, currentCount: int): Pod -> Answer {
    (pod: Pod) => match Find(pod.containers, name)
      case Some(c) => if c.restartCount > currentCount then Yes else No
      case None => No
  }

  predicate ShowsCount(pod: Pod, name: string, count: int) {
    var c := Find(pod.containers, name);
    c.Some? && c.value.restartCount == count
  }

  /** The two conditions are about the container with the name alone, and are never an error. */
  lemma ConditionsAre(name: string, currentCount: int, pod: Pod, c: Container)
    requires Find(pod.containers, name) == Some(c)
    ensures IsRunning(name)(pod) == (if c.running then Yes else No)
    ensures Restarted(name, currentCount)(pod) == (if c.restartCount >= currentCount + 1 then Yes else No)
  {
  }

  lemma ConditionsWithoutContainer(name: string, currentCount: int, pod: Pod)
    requires forall i :: 0 <= i < |pod.containers| ==> pod.containers[i].name != name
    ensures IsRunning(name)(pod) == Restarted(name, currentCount)(pod) == No
  {
    FindIs(pod.containers, name);
  }

  /** The last restart count the checker saw, 0 if it never saw the container. */
  function LastCount(pods: seq<Pod>, name: string): int {
    if pods == [] then 0
    else match Find(pods[|pods| - 1].containers, name)
      case Some(c) => c.restartCount
      case None => LastCount(pods[..|pods| - 1], name)
  }

  /** WaitContainerRunning: true exactly if some pod offered has the container running and no earlier end of the wait
      kept it from being checked; that pod is the last one checked. */
  method WaitContainerRunning(watching: bool, read: Option<Pod>, inputs: seq<Input>, name: string)
    returns (running: bool, failed: bool, ghost checked: seq<Pod>)
    ensures running <==> Wait(watching, read, inputs, IsRunning(name)) == Satisfied
    ensures failed <==> Wait(watching, read, inputs, IsRunning(name)) == Failed
    ensures checked <= Offered(watching, read, inputs)
    ensures running <==> checked != [] && Runs(checked[|checked| - 1], name)
    ensures forall i :: 0 <= i < |checked| - 1 ==> !Runs(checked[i], name)
  {
    var outcome, pods := WaitForCondition(watching, read, inputs, IsRunning(name));
    running, failed, checked := outcome == Satisfied, outcome == Failed, pods;
  }

  predicate Runs(pod: Pod, name: string) {
    var c := Find(pod.containers, name);
    c.Some? && c.value.running
  }

  /** WaitContainerRestart: a reported restart comes with a count above the given one; without one, no pod seen
      had such a count. */
  method WaitContainerRestart(watching: bool, read: Option<Pod>, inputs: seq<Input>, name: string, currentCount: int)
    returns (newCount: int, restarted: bool, failed: bool)
    ensures restarted ==> newCount > currentCount && !failed
    ensures restarted <==> Wait(watching, read, inputs, Restarted(name, currentCount)) == Satisfied
    ensures failed <==> Wait(watching, read, inputs, Restarted(name, currentCount)) == Failed
    ensures !restarted ==> newCount <= currentCount || newCount == 0
    ensures restarted ==> exists pod :: pod in Offered(watching, read, inputs) && ShowsCount(pod, name, newCount)
  {
    var outcome, checked := WaitForCondition(watching, read, inputs, Restarted(name, currentCount));
    newCount := 0;
    for i := 0 to |checked|
      invariant newCount == LastCount(checked[..i], name)
      invariant i < |checked| || outcome != Satisfied ==> newCount <= currentCount || newCount == 0
      invariant i == |checked| && outcome == Satisfied ==>
                  newCount > currentCount && ShowsCount(checked[|checked| - 1], name, newCount)
    {
      // what the checker's closure remembers
      assert checked[..i + 1][..i] == checked[..i];
      match Find(checked[i].containers, name)
      case Some(c) => newCount := c.restartCount;
      case None =>
    }
    restarted, failed := outcome == Satisfied, outcome == Failed;
    if restarted {
      var pod := checked[|checked| - 1];
      assert pod in Offered(watching, read, inputs) && ShowsCount(pod, name, newCount);
    }
  }
}
