/** Many goroutines that each send one result to a buffered channel, and one that collects them: PodController.Visit of
    pkg/disruptors/controller.go and IOStressor.Apply of pkg/agent/stressors/disk.go. */
module FanIn {
  import opened Common

  datatype Result = Success | Error(code: int)

  datatype Worker = Running | Sending(result: Result) | Sent(result: Result)

  /** What the collector does when the context is done first: Visit returns its error; Apply receives all results but
      one, without looking at them, and returns nil. */
  datatype Policy = ReturnContextError | DrainAllButOne

  datatype Outcome = Nil | Failed(code: int) | ContextDone

  datatype Collector = Receiving(pending: nat) | Draining(left: nat) | Returned(outcome: Outcome)

  /** `queue` holds the workers whose results are in the channel, `received` those whose results were taken; both in
      order. */
  datatype State = State(
    policy: Policy, workers: seq<Worker>, queue: seq<nat>, received: seq<nat>, done: bool, collector: Collector)

  datatype Action = Finish(i: nat, result: Result) | Send(i: nat) | Receive | ContextEnds | SeeContextDone

  ghost predicate Init(s: State) {
    && |s.workers| > 0
    && s == State(s.policy, seq(|s.workers|, _ => Running), [], [], false, Receiving(|s.workers|))
  }

  /** The channel has room for one result of each worker. */
  predicate Enabled(s: State, a: Action) {
    match a
    case Finish(i, _) => i < |s.workers| && s.workers[i].Running?
    case Send(i) => i < |s.workers| && s.workers[i].Sending? && |s.queue| < |s.workers|
    case Receive =>
      && !s.collector.Returned? && s.queue != [] && s.queue[0] < |s.workers| && !s.workers[s.queue[0]].Running?
      && (s.collector.Receiving? ==> s.collector.pending > 0)
      && (s.collector.Draining? ==> s.collector.left > 0)
    case ContextEnds => !s.done
    case SeeContextDone => s.collector.Receiving? && s.done && s.collector.pending > 0
  }

  function Next(s: State, a: Action): State
    requires Enabled(s, a)
  {
    match a
    case Finish(i, result) => s.(workers := s.workers[i := Sending(result)])
    case Send(i) => s.(workers := s.workers[i := Sent(s.workers[i].result)], queue := s.queue + [i])
    case Receive =>
      var t := s.(queue := s.queue[1..], received := s.received + [s.queue[0]]);
      var result := s.workers[s.queue[0]].result;
      (match s.collector
       case Receiving(pending) =>
         if result.Error? then t.(collector := Returned(Failed(result.code)))
         else t.(collector := if pending == 1 then Returned(Nil) else Receiving(pending - 1))
       case Draining(left) => t.(collector := if left == 1 then Returned(Nil) else Draining(left - 1)))
    case ContextEnds => s.(done := true)
    case SeeContextDone =>
      if s.policy == ReturnContextError then s.(collector := Returned(ContextDone))
      else s.(collector := if s.collector.pending == 1 then Returned(Nil) else Draining(s.collector.pending - 1))
  }

  /** A run: the states reached one after the other from the start, and the steps between them. */
  ghost predicate Run(run: seq<State>, steps: seq<Action>) {
    && |run| == |steps| + 1 && Init(run[0])
    && forall i :: 0 <= i < |steps| ==> Enabled(run[i], steps[i]) && run[i + 1] == Next(run[i], steps[i])
  }

  // ---- Counting

  predicate NoRepeats(xs: seq<nat>) {
    forall i, j :: 0 <= i < j < |xs| ==> xs[i] != xs[j]
  }

  function Elements(xs: seq<nat>): set<nat> { set x | x in xs }

  lemma {:induction false} SizeOfNoRepeats(xs: seq<nat>)
    requires NoRepeats(xs)
    ensures |Elements(xs)| == |xs|
  {
    if xs != [] {
      var front := xs[..|xs| - 1];
      SizeOfNoRepeats(front);
      assert xs == front + [xs[|xs| - 1]];
      assert Elements(xs) == Elements(front) + {xs[|xs| - 1]};
    }
  }

  lemma SubsetSize(a: set<nat>, b: set<nat>)
    requires a <= b
    ensures |a| <= |b| && (|a| == |b| ==> a == b)
  {
    if a != b {
      var x :| x in b && x !in a;
      assert |b - a| >= 1;
      assert b == a + (b - a);
    }
  }

  /** Distinct numbers below n are at most n many, and if there are n, they are all of them. */
  lemma Pigeonhole(xs: seq<nat>, n: nat)
    requires NoRepeats(xs) && forall x: nat :: x in xs ==> x < n
    ensures |xs| <= n && (|xs| == n ==> forall i: nat :: i < n ==> i in xs)
  {
    SizeOfNoRepeats(xs);
    var s := Elements(xs);
    SubsetSize(s, UpTo(n));
    if |xs| == n {
      forall i: nat | i < n ensures i in xs {
        assert i in UpTo(n);
      }
    }
  }

  // ---- Invariants

  /** Each sent result is exactly once in the channel or among the received ones. */
  ghost predicate SentOnce(s: State) {
    && NoRepeats(s.received + s.queue)
    && (forall x: nat :: x in s.received + s.queue <==> x < |s.workers| && s.workers[x].Sent?)
  }

  ghost predicate ReceivedSent(s: State) {
    forall i :: 0 <= i < |s.received| ==> s.received[i] < |s.workers| && s.workers[s.received[i]].Sent?
  }

  ghost predicate Successes(s: State, count: nat)
    requires ReceivedSent(s)
  {
    count <= |s.received| && forall i :: 0 <= i < count ==> s.workers[s.received[i]].result == Success
  }

  ghost predicate CollectorInv(s: State)
    requires ReceivedSent(s)
  {
    var n := |s.workers|;
    match s.collector
    case Receiving(pending) => pending == n - |s.received| && pending > 0 && Successes(s, |s.received|)
    case Draining(left) => s.policy == DrainAllButOne && s.done && left == n - 1 - |s.received| && left > 0
    case Returned(Nil) =>
      (|s.received| == n && Successes(s, n)) || (s.policy == DrainAllButOne && s.done && |s.received| == n - 1)
    case Returned(Failed(code)) =>
      && |s.received| > 0 && s.workers[s.received[|s.received| - 1]].result == Error(code)
      && Successes(s, |s.received| - 1)
    case Returned(ContextDone) => s.policy == ReturnContextError && s.done && |s.received| < n
  }

  ghost predicate Inv(s: State) {
    && SentOnce(s)
    && ReceivedSent(s)
    && CollectorInv(s)
  }

  lemma SendStep(s: State, i: nat)
    requires Inv(s) && Enabled(s, Send(i))
    ensures Inv(Next(s, Send(i)))
  {
    var t := Next(s, Send(i));
    assert t.received + t.queue == (s.received + s.queue) + [i];
    assert i !in s.received + s.queue;
  }

  lemma ReceiveStep(s: State)
    requires Inv(s) && Enabled(s, Receive)
    ensures Inv(Next(s, Receive))
  {
    var t := Next(s, Receive);
    assert t.received + t.queue == s.received + s.queue by {
      assert s.queue == [s.queue[0]] + s.queue[1..];
    }
    assert s.queue[0] in s.received + s.queue;
    assert forall i :: 0 <= i < |s.received| ==> t.received[i] == s.received[i];
  }

  lemma FinishKeeps(s: State, i: nat, result: Result)
    requires Inv(s) && Enabled(s, Finish(i, result))
    ensures Inv(Next(s, Finish(i, result)))
  {
    var t := Next(s, Finish(i, result));
    assert i !in s.received + s.queue;
    assert forall k :: 0 <= k < |s.received| ==> s.received[k] == (s.received + s.queue)[k] != i;
    assert t.received + t.queue == s.received + s.queue;
  }

  lemma ContextStep(s: State, a: Action)
    requires Inv(s) && Enabled(s, a) && (a.ContextEnds? || a.SeeContextDone?)
    ensures Inv(Next(s, a))
  {
    assert Next(s, a).workers == s.workers && Next(s, a).received == s.received && Next(s, a).queue == s.queue;
  }

  lemma InvStep(s: State, a: Action)
    requires Inv(s) && Enabled(s, a)
    ensures Inv(Next(s, a))
  {
    match a
    case Send(i) => SendStep(s, i);
    case Receive => ReceiveStep(s);
    case Finish(i, result) => FinishKeeps(s, i, result);
    case _ => ContextStep(s, a);
  }

  lemma {:induction false} RunInv(run: seq<State>, steps: seq<Action>, i: nat)
    requires Run(run, steps) && i < |run|
    ensures Inv(run[i]) && |run[i].workers| == |run[0].workers| && run[i].policy == run[0].policy
  {
    if i > 0 {
      RunInv(run, steps, i - 1);
      InvStep(run[i - 1], steps[i - 1]);
    }
  }

  // ---- Results

  predicate HasResult(w: Worker, r: Result) { w == Sending(r) || w == Sent(r) }

  lemma FinishStep(s: State, a: Action, w: nat, r: Result)
    requires Enabled(s, a) && w < |s.workers|
    ensures |Next(s, a).workers| == |s.workers|
    ensures HasResult(Next(s, a).workers[w], r) <==> HasResult(s.workers[w], r) || a == Finish(w, r)
  {
  }

  /** A worker's result is the one it finished with. */
  lemma {:induction false} ResultIsItsOwn(run: seq<State>, steps: seq<Action>, i: nat, w: nat, r: Result)
    requires Run(run, steps) && i < |run| && w < |run[0].workers|
    ensures |run[i].workers| == |run[0].workers|
    ensures HasResult(run[i].workers[w], r) <==> exists k :: 0 <= k < i && steps[k] == Finish(w, r)
  {
    if i > 0 {
      ResultIsItsOwn(run, steps, i - 1, w, r);
      FinishStep(run[i - 1], steps[i - 1], w, r);
    }
  }

  /** The visitor of target w has returned this before step i. */
  predicate Visited(steps: seq<Action>, i: nat, w: nat, r: Result) {
    exists k :: 0 <= k < i && k < |steps| && steps[k] == Finish(w, r)
  }

  /** Visit returns nil only after every visitor has returned nil, and does so when it has received that of all; any
      error but the context's is one that a visitor returned, and the context's comes only after the context has
      ended. */
  lemma VisitResult(run: seq<State>, steps: seq<Action>, i: nat)
    requires Run(run, steps) && i < |run| && run[0].policy == ReturnContextError
    ensures var s := run[i];
            && (s.collector == Returned(Nil) ==> forall w :: 0 <= w < |s.workers| ==> Visited(steps, i, w, Success))
            && (|s.received| == |s.workers| && (forall w :: 0 <= w < |s.workers| ==> s.workers[w] == Sent(Success)) ==>
                  s.collector == Returned(Nil))
            && (s.collector.Returned? && s.collector.outcome.Failed? ==>
                  exists w :: 0 <= w < |s.workers| && Visited(steps, i, w, Error(s.collector.outcome.code)))
            && (s.collector == Returned(ContextDone) ==> s.done)
  {
    RunInv(run, steps, i);
    var s := run[i];
    if s.collector == Returned(Nil) {
      AllReceived(s);
      forall w: nat | w < |s.workers| ensures Visited(steps, i, w, Success) {
        ResultIsItsOwn(run, steps, i, w, Success);
      }
    } else if s.collector.Returned? && s.collector.outcome.Failed? {
      var w := s.received[|s.received| - 1];
      assert w in s.received && w < |s.workers|;
      var r := Error(s.collector.outcome.code);
      assert HasResult(s.workers[w], r);
      ResultIsItsOwn(run, steps, i, w, r);
      assert Visited(steps, i, w, r);
    }
  }

  /** An error that the collector receives is what it returns, at once; a success of the last worker makes it return
      nil. */
  lemma ReceiveDecides(run: seq<State>, steps: seq<Action>, i: nat)
    requires Run(run, steps) && i < |steps| && steps[i] == Receive && run[i].collector.Receiving?
    ensures var w, t := run[i].queue[0], run[i + 1];
            w < |t.workers| && match t.workers[w]
            case Sent(Error(code)) => t.collector == Returned(Failed(code))
            case Sent(Success) =>
              if |t.received| == |t.workers| then t.collector == Returned(Nil) else t.collector.Receiving?
            case _ => false
  {
    RunInv(run, steps, i);
    assert run[i].queue[0] in run[i].received + run[i].queue;
  }

  lemma AllReceived(s: State)
    requires Inv(s) && |s.received| == |s.workers| && Successes(s, |s.workers|)
    ensures forall w :: 0 <= w < |s.workers| ==> s.workers[w] == Sent(Success)
  {
    assert forall x: nat :: x in s.received ==> x < |s.workers|;
    NoRepeatsReceived(s);
    Pigeonhole(s.received, |s.workers|);
    forall w: nat | w < |s.workers| ensures s.workers[w] == Sent(Success) {
      assert w in s.received;
      var k :| 0 <= k < |s.received| && s.received[k] == w;
    }
  }

  /** No sender blocks, also after an early return: the channel never holds more than one result per worker. */
  lemma SendersNeverBlock(run: seq<State>, steps: seq<Action>, i: nat, w: nat)
    requires Run(run, steps) && i < |run| && w < |run[i].workers| && run[i].workers[w].Sending?
    ensures Enabled(run[i], Send(w))
  {
    RunInv(run, steps, i);
    var s := run[i];
    var xs := s.received + s.queue;
    assert w !in xs;
    assert NoRepeats(xs + [w]);
    Pigeonhole(xs + [w], |s.workers|);
  }

  /** The collector is never left waiting for results that do not come: if it has not returned and the channel is empty,
      some worker still runs or can send. */
  lemma CollectorNotStuck(run: seq<State>, steps: seq<Action>, i: nat)
    requires Run(run, steps) && i < |run| && !run[i].collector.Returned?
    ensures var s := run[i];
            Enabled(s, Receive) || exists w :: 0 <= w < |s.workers| && !s.workers[w].Sent?
  {
    RunInv(run, steps, i);
    var s := run[i];
    if s.queue != [] {
      assert s.queue[0] in s.received + s.queue;
    } else if forall w :: 0 <= w < |s.workers| ==> s.workers[w].Sent? {
      assert s.received + s.queue == s.received;
      SubsetSize(UpTo(|s.workers|), Elements(s.received));
      SizeOfNoRepeats(s.received);
    }
  }

  /** A waiting collector can always answer the end of the context: Visit returns its error, Apply goes on to wait for
      all results but one. */
  lemma ContextIsSeen(run: seq<State>, steps: seq<Action>, i: nat)
    requires Run(run, steps) && i < |run| && run[i].done && run[i].collector.Receiving?
    ensures var s := run[i];
            && Enabled(s, SeeContextDone)
            && var t := Next(s, SeeContextDone);
               if s.policy == ReturnContextError then t.collector == Returned(ContextDone)
               else if |s.received| == |s.workers| - 1 then t.collector == Returned(Nil)
               else t.collector.Draining? && t.collector.left + |s.received| == |s.workers| - 1
  {
    RunInv(run, steps, i);
  }

  // ---- Every run ends

  function WorkersLeft(workers: seq<Worker>): nat {
    if workers == [] then 0
    else WorkersLeft(workers[..|workers| - 1])
         + WorkerLeft(workers[|workers| - 1])
  }

  function WorkerLeft(w: Worker): nat {
    match w case Running => 2 case Sending(_) => 1 case Sent(_) => 0
  }

  lemma {:induction false} OneWorkerOn(workers: seq<Worker>, i: nat, w: Worker)
    requires i < |workers|
    ensures WorkersLeft(workers[i := w]) == WorkersLeft(workers) - WorkerLeft(workers[i]) + WorkerLeft(w)
  {
    var n := |workers| - 1;
    if i == n {
      assert workers[i := w][..n] == workers[..n];
    } else {
      OneWorkerOn(workers[..n], i, w);
      assert workers[i := w][..n] == workers[..n][i := w];
    }
  }

  function CollectorLeft(s: State): int {
    |s.workers| - |s.received| + match s.collector case Receiving(_) => 1 case _ => 0
  }

  /** Every step lowers this bound on the steps to come. */
  function Bound(s: State): int {
    WorkersLeft(s.workers) + CollectorLeft(s) + if s.done then 0 else 1
  }

  lemma StepsAreBounded(s: State, a: Action)
    requires Enabled(s, a)
    ensures Bound(Next(s, a)) < Bound(s)
  {
    match a
    case Finish(i, result) => OneWorkerOn(s.workers, i, Sending(result));
    case Send(i) => OneWorkerOn(s.workers, i, Sent(s.workers[i].result));
    case _ =>
  }

  lemma {:induction false} AllRunning(n: nat)
    ensures WorkersLeft(seq(n, _ => Running)) == 2 * n
  {
    if n > 0 {
      AllRunning(n - 1);
      assert seq(n, _ => Running)[..n - 1] == seq(n - 1, _ => Running);
    }
  }

  lemma {:induction false} RunsAreBounded(run: seq<State>, steps: seq<Action>, i: nat)
    requires Run(run, steps) && i < |run|
    ensures Bound(run[i]) + i <= 3 * |run[0].workers| + 2
  {
    if i == 0 {
      AllRunning(|run[0].workers|);
    } else {
      RunsAreBounded(run, steps, i - 1);
      StepsAreBounded(run[i - 1], steps[i - 1]);
    }
  }

  /** A run has at most three steps for each worker and two more, and when all workers have finished and nothing can be
      sent or received any more, the collector has returned and no worker is left. */
  lemma AlwaysReturns(run: seq<State>, steps: seq<Action>, last: State)
    requires Run(run, steps) && last == run[|run| - 1]
    requires !Enabled(last, Receive)
    requires forall w :: 0 <= w < |last.workers| ==> !last.workers[w].Running? && !Enabled(last, Send(w))
    ensures |run| <= 3 * |run[0].workers| + 3
    ensures last.collector.Returned? && forall w :: 0 <= w < |last.workers| ==> last.workers[w].Sent?
  {
    RunsAreBounded(run, steps, |run| - 1);
    RunInv(run, steps, |run| - 1);
    BoundIsPositive(last);
    forall w | 0 <= w < |last.workers| ensures last.workers[w].Sent? {
      if last.workers[w].Sending? {
        SendersNeverBlock(run, steps, |run| - 1, w);
      }
    }
    if !last.collector.Returned? {
      CollectorNotStuck(run, steps, |run| - 1);
    }
  }

  lemma BoundIsPositive(s: State)
    requires Inv(s)
    ensures Bound(s) >= 0
  {
    NoRepeatsReceived(s);
    forall x: nat | x in s.received ensures x < |s.workers| {
      assert x in s.received + s.queue;
    }
    Pigeonhole(s.received, |s.workers|);
  }

  lemma NoRepeatsReceived(s: State)
    requires SentOnce(s)
    ensures NoRepeats(s.received)
  {
    forall i, j | 0 <= i < j < |s.received| ensures s.received[i] != s.received[j] {
      assert (s.received + s.queue)[i] == s.received[i] && (s.received + s.queue)[j] == s.received[j];
    }
  }

  function Reported(s: State): set<nat> { set w: nat | w < |s.workers| && s.workers[w].Sent? }

  /** IOStressor.Apply: nil means that every worker ended without error, or that the time was up and all workers
      but one have reported. */
  lemma StressorResult(run: seq<State>, steps: seq<Action>, i: nat)
    requires Run(run, steps) && i < |run| && run[0].policy == DrainAllButOne && run[i].collector == Returned(Nil)
    ensures var s := run[i];
            || (forall w :: 0 <= w < |s.workers| ==> Visited(steps, i, w, Success))
            || (s.done && |Reported(s)| >= |s.workers| - 1)
  {
    RunInv(run, steps, i);
    var s := run[i];
    if |s.received| == |s.workers| && Successes(s, |s.workers|) {
      AllReceived(s);
      forall w: nat | w < |s.workers| ensures Visited(steps, i, w, Success) {
        ResultIsItsOwn(run, steps, i, w, Success);
      }
    } else {
      NoRepeatsReceived(s);
      SizeOfNoRepeats(s.received);
      var reported := Reported(s);
      assert Elements(s.received) <= reported;
      SubsetSize(Elements(s.received), reported);
    }
  }
}
