/** pkg/agent/agent.go ApplyDisruption running pkg/agent/protocol/protocol.go Apply: the agent's goroutine, the
    goroutine of the disruption, the proxy's goroutine, unbuffered channels, cancellation, signals, deferred calls. */
module Lifetime {
  import opened Common

  const SECOND := 1_000_000_000

  datatype Result = Nil | TooShort | RedirectionFailed | ProxyFailed | NoRequests | ContextDone | Signalled

  /** ApplyDisruption: the select, then the deferred cancel and the deferred receive. */
  datatype Agent = Selecting | Cancelling(result: Result) | Draining(result: Result) | Returned(result: Result)

  /** The goroutine that runs the disruption and reports on the channel `cc`. */
  datatype Worker = Applying | Sending(result: Result) | Closing | Closed

  /** Apply of the protocol disruptor, with its deferred calls. */
  datatype Apply =
    | Checking
    | StartingRedirection
    | Waiting
    | StoppingRedirection(result: Result)
    | StoppingProxy(result: Result)
    | Ended(result: Result)

  /** The goroutine that runs proxy.Start and reports on the channel `wc`. */
  datatype Proxy = NotSpawned | Serving | Reporting(failed: bool) | Gone(failed: bool)

  datatype Event = RedirectionStarted | RedirectionNotStarted | RedirectionStopped | ProxyStopped

  datatype State = State(
    duration: int,
    agent: Agent, worker: Worker, apply: Apply, proxy: Proxy,
    cancelled: bool, signalled: bool,
    timers: nat,               // how often Apply began to wait for the duration
    events: seq<Event>)

  datatype Action =
    | ParentCancels | SignalArrives
    | SeeCancellation | TakeSignal | TakeResult | Cancel | DrainResult | DrainClosed    // agent
    | ReportResult | CloseChannel                                                        // worker
    | CheckDuration | StartRedirection(ok: bool) | TakeProxyReport
    | TimeUp(requests: Option<nat>)   // the proxy's count of requests, if it keeps one
    | SeeContextDone | StopRedirection | StopProxy                                       // Apply
    | ProxyReturns(failed: bool)

  function Initial(duration: int): State {
    State(duration, Selecting, Applying, Checking, NotSpawned, false, false, 0, [])
  }

  predicate Enabled(s: State, a: Action) {
    match a
    case ParentCancels => !s.cancelled
    case SignalArrives => !s.signalled
    case SeeCancellation => s.agent.Selecting? && s.cancelled
    case TakeSignal => s.agent.Selecting? && s.signalled
    case TakeResult => s.agent.Selecting? && s.worker.Sending?
    case Cancel => s.agent.Cancelling?
    case DrainResult => s.agent.Draining? && s.worker.Sending?
    case DrainClosed => s.agent.Draining? && s.worker.Closed?
    case ReportResult => s.worker.Applying? && s.apply.Ended?
    case CloseChannel => s.worker.Closing?
    case CheckDuration => s.apply.Checking?
    case StartRedirection(_) => s.apply.StartingRedirection?
    case TakeProxyReport => s.apply.Waiting? && s.proxy.Reporting?
    case TimeUp(_) => s.apply.Waiting?
    case SeeContextDone => s.apply.Waiting? && s.cancelled
    case StopRedirection => s.apply.StoppingRedirection?
    case StopProxy => s.apply.StoppingProxy?
    case ProxyReturns(_) => s.proxy.Serving?
  }

  function Next(s: State, a: Action): State
    requires Enabled(s, a)
  {
    match a
    case ParentCancels => s.(cancelled := true)
    case SignalArrives => s.(signalled := true)
    case SeeCancellation => s.(agent := Cancelling(ContextDone))
    case TakeSignal => s.(agent := Cancelling(Signalled))
    case TakeResult => s.(agent := Cancelling(s.worker.result), worker := Closing)
    case Cancel => s.(agent := Draining(s.agent.result), cancelled := true)
    case DrainResult => s.(agent := Returned(s.agent.result), worker := Closing)
    case DrainClosed => s.(agent := Returned(s.agent.result))
    case ReportResult => s.(worker := Sending(s.apply.result))
    case CloseChannel => s.(worker := Closed)
    case CheckDuration =>
      if s.duration >= SECOND then s.(apply := StartingRedirection, proxy := Serving) else s.(apply := Ended(TooShort))
    case StartRedirection(ok) =>
      if ok then s.(apply := Waiting, timers := s.timers + 1, events := s.events + [RedirectionStarted])
      else s.(apply := StoppingProxy(RedirectionFailed), events := s.events + [RedirectionNotStarted])
    case TakeProxyReport =>
      if s.proxy.failed then s.(apply := StoppingRedirection(ProxyFailed), proxy := Gone(true))
      else s.(timers := s.timers + 1, proxy := Gone(false))
    case TimeUp(requests) => s.(apply := StoppingRedirection(if requests == Some(0) then NoRequests else Nil))
    case SeeContextDone => s.(apply := StoppingRedirection(ContextDone))
    case StopRedirection => s.(apply := StoppingProxy(s.apply.result), events := s.events + [RedirectionStopped])
    case StopProxy => s.(apply := Ended(s.apply.result), events := s.events + [ProxyStopped])
    case ProxyReturns(failed) => s.(proxy := Reporting(failed))
  }

  /** A run: the states reached one after the other from the start of the call, and the steps between them. */
  predicate Run(run: seq<State>, steps: seq<Action>) {
    && |run| == |steps| + 1 && run[0] == Initial(run[0].duration)
    && forall i :: 0 <= i < |steps| ==> Enabled(run[i], steps[i]) && run[i + 1] == Next(run[i], steps[i])
  }

  ghost predicate ApplyInv(s: State) {
    && (s.proxy.NotSpawned? <==> s.apply.Checking? || s.apply == Ended(TooShort))
    && s.timers <= (if s.proxy == Gone(false) then 2 else 1)
    && (match s.apply
        case Checking => s.events == [] && s.timers == 0
        case StartingRedirection => s.events == [] && s.timers == 0 && !s.proxy.Gone?
        case Waiting => s.events == [RedirectionStarted] && s.timers >= 1
        case StoppingRedirection(r) => s.events == [RedirectionStarted] && r !in {TooShort, RedirectionFailed}
        case StoppingProxy(r) =>
          && s.events == (if r == RedirectionFailed then [RedirectionNotStarted]
                          else [RedirectionStarted, RedirectionStopped])
          && r != TooShort
        case Ended(r) =>
          s.events == match r
            case TooShort => []
            case RedirectionFailed => [RedirectionNotStarted, ProxyStopped]
            case _ => [RedirectionStarted, RedirectionStopped, ProxyStopped])
    && (s.apply.Ended? ==> s.apply.result != Signalled)
    && (s.apply.StoppingRedirection? || s.apply.StoppingProxy? ==> s.apply.result != Signalled)
  }

  ghost predicate AgentInv(s: State) {
    && (!s.worker.Applying? ==> s.apply.Ended?)
    && (s.worker.Sending? ==> s.worker.result == s.apply.result)
    && (s.agent.Selecting? ==> s.worker.Applying? || s.worker.Sending?)
    && (s.agent.Returned? ==> s.worker.Closing? || s.worker.Closed?)
    && (!s.agent.Selecting? ==>
          || s.agent.result in {ContextDone, Signalled}
          || (!s.worker.Applying? && !s.worker.Sending? && s.agent.result == s.apply.result))
    && (s.agent.Draining? || s.agent.Returned? ==> s.cancelled)
  }

  /** A step of the protocol's Apply or of the proxy. */
  predicate OfApply(a: Action) {
    a.CheckDuration? || a.StartRedirection? || a.TakeProxyReport? || a.TimeUp? || a.SeeContextDone?
    || a.StopRedirection? || a.StopProxy? || a.ProxyReturns?
  }

  lemma ApplyStep(s: State, a: Action)
    requires ApplyInv(s) && Enabled(s, a) && OfApply(a)
    ensures ApplyInv(Next(s, a))
  {
  }

  lemma ApplyUntouched(s: State, t: State)
    requires ApplyInv(s) && t.apply == s.apply && t.proxy == s.proxy && t.timers == s.timers && t.events == s.events
    ensures ApplyInv(t)
  {
  }

  lemma AgentStep(s: State, a: Action)
    requires ApplyInv(s) && AgentInv(s) && Enabled(s, a) && !OfApply(a)
    ensures AgentInv(Next(s, a))
  {
  }

  lemma AgentUntouched(s: State, a: Action)
    requires AgentInv(s) && Enabled(s, a) && OfApply(a)
    ensures AgentInv(Next(s, a))
  {
  }

  lemma InvStep(s: State, a: Action)
    requires ApplyInv(s) && AgentInv(s) && Enabled(s, a)
    ensures ApplyInv(Next(s, a)) && AgentInv(Next(s, a))
  {
    if OfApply(a) {
      ApplyStep(s, a);
      AgentUntouched(s, a);
    } else {
      ApplyUntouched(s, Next(s, a));
      AgentStep(s, a);
    }
  }

  lemma {:induction false} RunInv(run: seq<State>, steps: seq<Action>, i: nat)
    requires Run(run, steps) && i < |run|
    ensures ApplyInv(run[i]) && AgentInv(run[i])
  {
    if i > 0 {
      RunInv(run, steps, i - 1);
      InvStep(run[i - 1], steps[i - 1]);
    }
  }

  /** No disruption outlives the call: when ApplyDisruption has returned, Apply has too, and if the redirection had been
      started it was stopped, once, before the proxy was. The agent's answer is Apply's own result, unless it is
      that of a cancellation or a signal. */
  lemma NothingOutlivesTheCall(run: seq<State>, steps: seq<Action>, i: nat, r: Result)
    requires Run(run, steps) && i < |run| && run[i].agent == Returned(r)
    ensures var s := run[i];
            && s.apply.Ended? && s.worker in {Closing, Closed}
            && s.events == (match s.apply.result
                case TooShort => []
                case RedirectionFailed => [RedirectionNotStarted, ProxyStopped]
                case _ => [RedirectionStarted, RedirectionStopped, ProxyStopped])
            && (r == s.apply.result || r in {ContextDone, Signalled})
  {
    RunInv(run, steps, i);
  }

  /** The wait for the duration starts at most twice: once, and once more after a proxy that ended without error. */
  lemma AtMostTwoWaits(run: seq<State>, steps: seq<Action>, i: nat)
    requires Run(run, steps) && i < |run|
    ensures run[i].timers <= 2 && (run[i].timers == 2 ==> run[i].proxy == Gone(false))
  {
    RunInv(run, steps, i);
  }

  /** Nothing that is ready has to wait for something else: each cause can be the one that is taken. */
  lemma EveryCauseCanBeTaken(s: State, requests: Option<nat>, ok: bool)
    ensures s.agent.Selecting? ==>
              && (s.cancelled ==> Enabled(s, SeeCancellation)) && (s.signalled ==> Enabled(s, TakeSignal))
              && (s.worker.Sending? ==> Enabled(s, TakeResult))
    ensures s.apply.Waiting? ==>
              && Enabled(s, TimeUp(requests)) && (s.cancelled ==> Enabled(s, SeeContextDone))
              && (s.proxy.Reporting? ==> Enabled(s, TakeProxyReport))
    ensures s.apply.StartingRedirection? ==> Enabled(s, StartRedirection(ok))
    ensures s.proxy.Serving? ==> Enabled(s, ProxyReturns(ok))
    ensures (!s.cancelled ==> Enabled(s, ParentCancels)) && (!s.signalled ==> Enabled(s, SignalArrives))
  {
  }

  // ---- Which step decides the answer

  predicate Decided(a: Apply) { a.StoppingRedirection? || a.StoppingProxy? || a.Ended? }

  /** The step that makes Apply end, and its result. */
  predicate Decides(s: State, a: Action, r: Result) {
    match r
    case Nil => a.TimeUp? && (a.requests.None? || a.requests.value > 0)
    case NoRequests => a.TimeUp? && a.requests == Some(0)
    case ProxyFailed => a.TakeProxyReport? && s.proxy == Reporting(true)
    case ContextDone => a.SeeContextDone?
    case TooShort => a.CheckDuration? && s.duration < SECOND
    case RedirectionFailed => a == StartRedirection(false)
    case Signalled => false
  }

  lemma DecidingStep(s: State, a: Action, r: Result)
    requires ApplyInv(s) && Enabled(s, a)
    ensures Decided(Next(s, a).apply) && Next(s, a).apply.result == r
            <==> (Decided(s.apply) && s.apply.result == r) || Decides(s, a, r)
    ensures Decides(s, a, r) ==> !Decided(s.apply)
    ensures Next(s, a).duration == s.duration
  {
  }

  /** Apply returns nil exactly if the duration passed and the proxy saw requests or does not count them, and likewise
      for each error: the result is that of the one step that left the way to it. */
  lemma {:induction false} ApplyResultIff(run: seq<State>, steps: seq<Action>, i: nat, r: Result)
    requires Run(run, steps) && i < |run|
    ensures Decided(run[i].apply) && run[i].apply.result == r <==>
            exists k :: 0 <= k < i && Decides(run[k], steps[k], r)
    ensures run[i].duration == run[0].duration
  {
    if i > 0 {
      ApplyResultIff(run, steps, i - 1, r);
      RunInv(run, steps, i - 1);
      DecidingStep(run[i - 1], steps[i - 1], r);
    }
  }

  predicate ProxyEnded(proxy: Proxy, failed: bool) { proxy == Reporting(failed) || proxy == Gone(failed) }

  lemma ProxyStep(s: State, a: Action, failed: bool)
    requires ApplyInv(s) && Enabled(s, a)
    ensures ProxyEnded(Next(s, a).proxy, failed) <==> ProxyEnded(s.proxy, failed) || a == ProxyReturns(failed)
  {
  }

  /** The report that Apply takes is how the proxy ended. */
  lemma ProxyReportIff(run: seq<State>, steps: seq<Action>, i: nat, failed: bool)
    requires Run(run, steps) && i < |run|
    ensures ProxyEnded(run[i].proxy, failed) <==> exists k :: 0 <= k < i && steps[k] == ProxyReturns(failed)
  {
    var facts := seq(|run|, k requires 0 <= k < |run| => ProxyEnded(run[k].proxy, failed));
    var events := seq(|steps|, k requires 0 <= k < |steps| => steps[k] == ProxyReturns(failed));
    forall k | 0 <= k < |events| ensures facts[k + 1] == (facts[k] || events[k]) {
      RunInv(run, steps, k);
      ProxyStep(run[k], steps[k], failed);
    }
    ComesAndStays(facts, events, i);
    if exists k :: 0 <= k < i && events[k] {
      var k :| 0 <= k < i && events[k];
      assert steps[k] == ProxyReturns(failed);
    } else {
      forall k | 0 <= k < i ensures steps[k] != ProxyReturns(failed) {
        assert !events[k];
      }
    }
  }

  /** The step that makes ApplyDisruption leave its select, and its answer. */
  predicate Answers(s: State, a: Action, r: Result) {
    || (a.SeeCancellation? && r == ContextDone)
    || (a.TakeSignal? && r == Signalled)
    || (a.TakeResult? && s.apply == Ended(r))
  }

  lemma AnsweringStep(s: State, a: Action, r: Result)
    requires AgentInv(s) && Enabled(s, a)
    ensures !Next(s, a).agent.Selecting? && Next(s, a).agent.result == r
            <==> (!s.agent.Selecting? && s.agent.result == r) || Answers(s, a, r)
  {
  }

  /** ApplyDisruption answers with the context's error exactly if it saw the cancellation first, with the signal exactly
      if it took one first, and otherwise with the result of Apply. */
  lemma {:induction false} AnswerIff(run: seq<State>, steps: seq<Action>, i: nat, r: Result)
    requires Run(run, steps) && i < |run|
    ensures !run[i].agent.Selecting? && run[i].agent.result == r <==>
            exists k :: 0 <= k < i && Answers(run[k], steps[k], r)
  {
    if i > 0 {
      AnswerIff(run, steps, i - 1, r);
      RunInv(run, steps, i - 1);
      AnsweringStep(run[i - 1], steps[i - 1], r);
    }
  }

  /** The agent sees a cancellation only if its caller has cancelled, and a signal only if one has arrived. */
  lemma {:induction false} CausesFromOutside(run: seq<State>, steps: seq<Action>, i: nat)
    requires Run(run, steps) && i < |run|
    ensures run[i].signalled <==> exists k :: 0 <= k < i && steps[k].SignalArrives?
    ensures run[i].agent.Selecting? ==> (run[i].cancelled <==> exists k :: 0 <= k < i && steps[k].ParentCancels?)
  {
    if i > 0 {
      CausesFromOutside(run, steps, i - 1);
      assert run[i] == Next(run[i - 1], steps[i - 1]);
    }
  }

  // ---- Every run ends, and ends well

  function OutsideLeft(s: State): nat { (if s.cancelled then 0 else 1) + (if s.signalled then 0 else 1) }

  function AgentLeft(s: State): nat {
    match s.agent case Selecting => 3 case Cancelling(_) => 2 case Draining(_) => 1 case Returned(_) => 0
  }

  function WorkerLeft(s: State): nat {
    match s.worker case Applying => 3 case Sending(_) => 2 case Closing => 1 case Closed => 0
  }

  function ApplyLeft(s: State): nat {
    match s.apply
    case Checking => 8
    case StartingRedirection => 5
    case Waiting => 3
    case StoppingRedirection(_) => 2
    case StoppingProxy(_) => 1
    case Ended(_) => 0
  }

  function ProxyLeft(s: State): nat {
    match s.proxy case NotSpawned => 0 case Serving => 2 case Reporting(_) => 1 case Gone(_) => 0
  }

  const BOUND := 16

  /** Every step lowers this bound on the steps to come. */
  function Bound(s: State): nat {
    OutsideLeft(s) + AgentLeft(s) + WorkerLeft(s) + ApplyLeft(s) + ProxyLeft(s)
  }

  lemma StepsAreBounded(s: State, a: Action)
    requires Enabled(s, a)
    ensures Bound(Next(s, a)) < Bound(s)
  {
    var t := Next(s, a);
    if a.SeeCancellation? || a.TakeSignal? || a.TakeResult? || a.Cancel? || a.DrainResult? || a.DrainClosed? {
      assert AgentLeft(t) < AgentLeft(s) && WorkerLeft(t) <= WorkerLeft(s) && OutsideLeft(t) <= OutsideLeft(s);
    } else if a.CheckDuration? || a.StartRedirection? || a.TakeProxyReport? || a.ProxyReturns? {
      assert ApplyLeft(t) + ProxyLeft(t) < ApplyLeft(s) + ProxyLeft(s);
    }
  }

  lemma {:induction false} RunsAreBounded(run: seq<State>, steps: seq<Action>, i: nat)
    requires Run(run, steps) && i < |run|
    ensures Bound(run[i]) + i <= BOUND
  {
    if i > 0 {
      RunsAreBounded(run, steps, i - 1);
      StepsAreBounded(run[i - 1], steps[i - 1]);
    }
  }

  /** No step of the agent, the worker or Apply can be taken. */
  predicate Stuck(s: State) {
    && !Enabled(s, CheckDuration) && !Enabled(s, StartRedirection(true)) && !Enabled(s, TimeUp(None))
    && !Enabled(s, StopRedirection) && !Enabled(s, StopProxy) && !Enabled(s, ReportResult) && !Enabled(s, CloseChannel)
    && !Enabled(s, TakeResult) && !Enabled(s, Cancel) && !Enabled(s, DrainResult) && !Enabled(s, DrainClosed)
  }

  lemma StuckIsReturned(s: State)
    requires AgentInv(s) && Stuck(s)
    ensures s.apply.Ended? && s.worker.Closed? && s.agent.Returned?
  {
  }

  /** In every interleaving of completion, cancellation and signal, ApplyDisruption returns and the worker is never left
      blocked: a run has at most as many steps as Bound says, and one that cannot go on by itself has the agent
      returned and the channel closed. */
  lemma AlwaysReturns(run: seq<State>, steps: seq<Action>, last: State)
    requires Run(run, steps) && last == run[|run| - 1]
    requires Stuck(last)
    ensures |run| <= 1 + BOUND
    ensures last.agent.Returned? && last.worker.Closed? && last.apply.Ended?
  {
    RunInv(run, steps, |run| - 1);
    RunsAreBounded(run, steps, |run| - 1);
    StuckIsReturned(last);
  }

  /** The proxy's goroutine, on the other hand, ends only if its report is taken while Apply waits: once Apply has
      left its select, a report is never received. */
  lemma {:induction false} LateReportStaysBlocked(run: seq<State>, steps: seq<Action>, i: nat, j: nat)
    requires Run(run, steps) && i <= j < |run|
    requires !run[i].apply.Checking? && !run[i].apply.StartingRedirection? && !run[i].apply.Waiting?
    ensures run[j].proxy.Gone? <==> run[i].proxy.Gone?
    ensures !run[j].apply.Checking? && !run[j].apply.StartingRedirection? && !run[j].apply.Waiting?
    decreases j
  {
    if i < j {
      LateReportStaysBlocked(run, steps, i, j - 1);
      assert run[j] == Next(run[j - 1], steps[j - 1]);
    }
  }
}
