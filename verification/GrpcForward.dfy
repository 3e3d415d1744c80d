/** pkg/agent/protocol/grpc/handler.go: transparentForward with its two pumps, as three processes whose steps
    interleave freely with each other and with a client and a backend that send and close when they like. */
module GrpcForward {
  import opened Common

  type Message = string

  /** io.EOF can come from a receive, when the peer has finished, but also from a send to a finished stream. */
  datatype Error = EndOfReceive | EndOfSend | Failure(code: int) {
    predicate IsEof() { !Failure? }
  }

  datatype Down = Header | Response(m: Message)

  datatype RequestPump = ReceivingRequest | SendingRequest(m: Message) | RequestsReported(e: Error)

  datatype ResponsePump =
    | ReceivingResponse
    | ReadingHeader(m: Message)
    | SendingHeader(m: Message)
    | SendingResponse(m: Message)
    | ResponsesReported(e: Error)

  /** `Nil` remembers which end of stream was taken for success. */
  datatype Result = Nil(eof: Error) | RpcError(e: Error) | ForwardingFailed(e: Error) | NeverReached

  /** The select loop, in its first or second round, or past it. */
  datatype Main = Selecting(round: nat) | Returned(result: Result)

  datatype State = State(
    fromClient: seq<Message>, clientClosed: bool,      // what the client has sent so far
    toBackend: seq<Message>, sendClosed: Option<Error>, // what the backend has been sent, and why CloseSend was called
    fromBackend: seq<Message>, backendClosed: bool,
    toClient: seq<Down>, trailerSet: bool,
    received: nat,                                     // the counter i of the response pump
    requests: RequestPump, s2cErr: Option<Error>,
    responses: ResponsePump, c2sErr: Option<Error>,
    main: Main)

  datatype Action =
    | ClientSends(m: Message) | ClientCloses | BackendSends(m: Message) | BackendCloses
    | ReceiveRequest | ReceiveRequestFails(code: int) | SendRequest | SendRequestFails(e: Error)
    | ReceiveResponse | ReceiveResponseFails(code: int)
    | ReadHeader | ReadHeaderFails(e: Error) | SendHeader | SendHeaderFails(e: Error)
    | SendResponse | SendResponseFails(e: Error)
    | TakeS2cErr | TakeC2sErr

  const INITIAL := State([], false, [], None, [], false, [], false, 0,
                         ReceivingRequest, None, ReceivingResponse, None, Selecting(0))

  predicate Enabled(s: State, a: Action) {
    match a
    case ClientSends(_) => !s.clientClosed
    case ClientCloses => !s.clientClosed
    case BackendSends(_) => !s.backendClosed
    case BackendCloses => !s.backendClosed
    case ReceiveRequest => s.requests.ReceivingRequest? && (s.clientClosed || |s.toBackend| < |s.fromClient|)
    case ReceiveRequestFails(_) => s.requests.ReceivingRequest?
    case SendRequest => s.requests.SendingRequest?
    case SendRequestFails(e) => s.requests.SendingRequest? && e != EndOfReceive
    case ReceiveResponse => s.responses.ReceivingResponse? && (s.backendClosed || s.received < |s.fromBackend|)
    case ReceiveResponseFails(_) => s.responses.ReceivingResponse?
    case ReadHeader => s.responses.ReadingHeader?
    case ReadHeaderFails(e) => s.responses.ReadingHeader? && e != EndOfReceive
    case SendHeader => s.responses.SendingHeader?
    case SendHeaderFails(e) => s.responses.SendingHeader? && e != EndOfReceive
    case SendResponse => s.responses.SendingResponse?
    case SendResponseFails(e) => s.responses.SendingResponse? && e != EndOfReceive
    case TakeS2cErr => s.main.Selecting? && s.s2cErr.Some?
    case TakeC2sErr => s.main.Selecting? && s.c2sErr.Some?
  }

  /** The pump sends its error to its channel, which has room for one, and stops. */
  function ReportRequests(s: State, e: Error): State { s.(requests := RequestsReported(e), s2cErr := Some(e)) }

  function ReportResponses(s: State, e: Error): State { s.(responses := ResponsesReported(e), c2sErr := Some(e)) }

  function Next(s: State, a: Action): State
    requires Enabled(s, a)
  {
    match a
    case ClientSends(m) => s.(fromClient := s.fromClient + [m])
    case ClientCloses => s.(clientClosed := true)
    case BackendSends(m) => s.(fromBackend := s.fromBackend + [m])
    case BackendCloses => s.(backendClosed := true)
    case ReceiveRequest =>
      if |s.toBackend| < |s.fromClient| then s.(requests := SendingRequest(s.fromClient[|s.toBackend|]))
      else ReportRequests(s, EndOfReceive)
    case ReceiveRequestFails(code) => ReportRequests(s, Failure(code))
    case SendRequest => s.(toBackend := s.toBackend + [s.requests.m], requests := ReceivingRequest)
    case SendRequestFails(e) => ReportRequests(s, e)
    case ReceiveResponse =>
      if s.received < |s.fromBackend| then
        var m := s.fromBackend[s.received];
        s.(responses := if s.received == 0 then ReadingHeader(m) else SendingResponse(m))
      else ReportResponses(s, EndOfReceive)
    case ReceiveResponseFails(code) => ReportResponses(s, Failure(code))
    case ReadHeader => s.(responses := SendingHeader(s.responses.m))
    case ReadHeaderFails(e) => ReportResponses(s, e)
    case SendHeader => s.(toClient := s.toClient + [Header], responses := SendingResponse(s.responses.m))
    case SendHeaderFails(e) => ReportResponses(s, e)
    case SendResponse =>
      s.(toClient := s.toClient + [Response(s.responses.m)], received := s.received + 1, responses := ReceivingResponse)
    case SendResponseFails(e) => ReportResponses(s, e)
    case TakeS2cErr =>
      var e := s.s2cErr.value;
      var t := s.(s2cErr := None);
      if !e.IsEof() then t.(main := Returned(ForwardingFailed(e)))
      else t.(sendClosed := Some(e), main := if s.main.round == 0 then Selecting(1) else Returned(NeverReached))
    case TakeC2sErr =>
      var e := s.c2sErr.value;
      s.(c2sErr := None, trailerSet := true, main := Returned(if e.IsEof() then Nil(e) else RpcError(e)))
  }

  /** A run: the states reached one after the other from the start of the call, and the steps between them. */
  predicate Run(run: seq<State>, steps: seq<Action>) {
    && |run| == |steps| + 1 && run[0] == INITIAL
    && forall i :: 0 <= i < |steps| ==> Enabled(run[i], steps[i]) && run[i + 1] == Next(run[i], steps[i])
  }

  // ---- What holds in every state

  function Wrap(ms: seq<Message>): (ds: seq<Down>)
    ensures |ds| == |ms| && forall i :: 0 <= i < |ms| ==> ds[i] == Response(ms[i])
  {
    seq(|ms|, i requires 0 <= i < |ms| => Response(ms[i]))
  }

  /** The header, then the first `n` responses of the backend in order; nothing before the header. */
  ghost predicate InOrder(toClient: seq<Down>, fromBackend: seq<Message>, n: nat) {
    n <= |fromBackend| && (toClient == [Header] + Wrap(fromBackend[..n]) || (n == 0 && toClient == []))
  }

  ghost predicate RequestInv(s: State) {
    && s.toBackend <= s.fromClient
    && (s.requests.SendingRequest? ==> |s.toBackend| < |s.fromClient| && s.requests.m == s.fromClient[|s.toBackend|])
    && (s.s2cErr.Some? ==> s.requests == RequestsReported(s.s2cErr.value))
    && (s.s2cErr.Some? ==> S2cReport(s, s.s2cErr.value))
    && (s.sendClosed.Some? ==> s.sendClosed.value.IsEof() && S2cReport(s, s.sendClosed.value))
  }

  /** What the request pump's report says about the deliveries. */
  ghost predicate S2cReport(s: State, e: Error) {
    && s.requests == RequestsReported(e)
    && (e == EndOfReceive ==> s.clientClosed && s.toBackend == s.fromClient)
    && (e == EndOfSend ==> |s.toBackend| < |s.fromClient|)
  }

  ghost predicate ResponseInv(s: State) {
    && InOrder(s.toClient, s.fromBackend, s.received)
    && (s.toClient != [] ==> s.fromBackend != [])
    && (match s.responses
        case ReceivingResponse => s.received > 0 || s.toClient == []
        case ReadingHeader(m) => s.received == 0 < |s.fromBackend| && m == s.fromBackend[0] && s.toClient == []
        case SendingHeader(m) => s.received == 0 < |s.fromBackend| && m == s.fromBackend[0] && s.toClient == []
        case SendingResponse(m) => s.received < |s.fromBackend| && m == s.fromBackend[s.received] && s.toClient != []
        case ResponsesReported(_) => true)
    && (s.c2sErr.Some? ==> s.responses == ResponsesReported(s.c2sErr.value))
    && (s.c2sErr.Some? ==> C2sReport(s, s.c2sErr.value))
  }

  /** What the response pump's report says about the deliveries. */
  ghost predicate C2sReport(s: State, e: Error) {
    && s.responses == ResponsesReported(e)
    && (e == EndOfReceive ==> s.backendClosed && s.received == |s.fromBackend|)
    && (e == EndOfSend ==> s.received < |s.fromBackend|)
  }

  ghost predicate MainInv(s: State) {
    match s.main
    case Selecting(round) =>
      && round <= 1
      && (s.requests.RequestsReported? ==> s.s2cErr.Some? != (round == 1))
      && (round == 1 ==> s.requests.RequestsReported? && s.s2cErr.None?)
      && (s.sendClosed.Some? <==> round == 1)
      && (s.responses.ResponsesReported? ==> s.c2sErr.Some?)
      && !s.trailerSet
    case Returned(result) =>
      && result != NeverReached
      && (s.trailerSet <==> result.Nil? || result.RpcError?)
      && (s.trailerSet ==> s.responses.ResponsesReported? && s.c2sErr.None?)
      && (result.Nil? ==> result.eof.IsEof() && C2sReport(s, result.eof))
      && (result.ForwardingFailed? ==> s.requests.RequestsReported? && !result.e.IsEof() && s.sendClosed.None?)
      && (result.RpcError? ==> !result.e.IsEof())
  }

  ghost predicate Inv(s: State) { RequestInv(s) && ResponseInv(s) && MainInv(s) }

  /** A step of the request pump. */
  predicate OfRequestPump(a: Action) {
    a.ReceiveRequest? || a.ReceiveRequestFails? || a.SendRequest? || a.SendRequestFails?
  }

  lemma RequestPumpStep(s: State, a: Action)
    requires RequestInv(s) && Enabled(s, a) && OfRequestPump(a)
    ensures RequestInv(Next(s, a))
  {
  }

  lemma SameRequests(s: State, t: State)
    requires RequestInv(s)
    requires t.fromClient == s.fromClient && t.clientClosed == s.clientClosed && t.toBackend == s.toBackend
    requires t.requests == s.requests && t.s2cErr == s.s2cErr && t.sendClosed == s.sendClosed
    ensures RequestInv(t)
  {
  }

  lemma RequestStep(s: State, a: Action)
    requires RequestInv(s) && Enabled(s, a)
    ensures RequestInv(Next(s, a))
  {
    if OfRequestPump(a) {
      RequestPumpStep(s, a);
    } else if a.ClientSends? || a.ClientCloses? || a.TakeS2cErr? {
      assert a.ClientSends? ==> Next(s, a).requests == s.requests && s.fromClient <= Next(s, a).fromClient;
    } else {
      SameRequests(s, Next(s, a));
    }
  }

  /** A step of the response pump. */
  predicate OfResponsePump(a: Action) {
    || a.ReceiveResponse? || a.ReceiveResponseFails? || a.ReadHeader? || a.ReadHeaderFails?
    || a.SendHeader? || a.SendHeaderFails? || a.SendResponse? || a.SendResponseFails?
  }

  lemma ResponsePumpStep(s: State, a: Action)
    requires ResponseInv(s) && Enabled(s, a) && OfResponsePump(a)
    ensures ResponseInv(Next(s, a))
  {
    if a.SendResponse? {
      var n := s.received;
      assert s.fromBackend[..n + 1] == s.fromBackend[..n] + [s.fromBackend[n]];
      assert Wrap(s.fromBackend[..n + 1]) == Wrap(s.fromBackend[..n]) + [Response(s.fromBackend[n])];
    }
  }

  lemma SameResponses(s: State, t: State)
    requires ResponseInv(s)
    requires t.fromBackend == s.fromBackend && t.toClient == s.toClient && t.received == s.received
             && t.responses == s.responses
    requires (t.c2sErr == s.c2sErr || t.c2sErr.None?) && (t.backendClosed == s.backendClosed || t.backendClosed)
    ensures ResponseInv(t)
  {
  }

  lemma ResponseStep(s: State, a: Action)
    requires ResponseInv(s) && Enabled(s, a)
    ensures ResponseInv(Next(s, a))
  {
    if OfResponsePump(a) {
      ResponsePumpStep(s, a);
    } else if a.BackendSends? {
      assert (s.fromBackend + [a.m])[..s.received] == s.fromBackend[..s.received];
    } else {
      SameResponses(s, Next(s, a));
    }
  }

  lemma MainTakes(s: State, a: Action)
    requires Inv(s) && Enabled(s, a) && (a.TakeS2cErr? || a.TakeC2sErr?)
    ensures MainInv(Next(s, a))
  {
  }

  lemma MainSeesRequests(s: State, a: Action)
    requires RequestInv(s) && MainInv(s) && Enabled(s, a) && OfRequestPump(a)
    ensures MainInv(Next(s, a))
  {
  }

  lemma MainSeesResponses(s: State, a: Action)
    requires ResponseInv(s) && MainInv(s) && Enabled(s, a) && OfResponsePump(a)
    ensures MainInv(Next(s, a))
  {
  }

  lemma MainStep(s: State, a: Action)
    requires Inv(s) && Enabled(s, a)
    ensures MainInv(Next(s, a))
  {
    if a.TakeS2cErr? || a.TakeC2sErr? {
      MainTakes(s, a);
    } else if OfRequestPump(a) {
      MainSeesRequests(s, a);
    } else if OfResponsePump(a) {
      MainSeesResponses(s, a);
    }
  }

  lemma {:induction false} RunInv(run: seq<State>, steps: seq<Action>, i: nat)
    requires Run(run, steps) && i < |run|
    ensures Inv(run[i])
  {
    if i > 0 {
      RunInv(run, steps, i - 1);
      var a := steps[i - 1];
      RequestStep(run[i - 1], a);
      ResponseStep(run[i - 1], a);
      MainStep(run[i - 1], a);
    }
  }

  /** At every moment of every interleaving, each side has got an in-order prefix of what the other has sent, the
      client's behind exactly one header, which is there before the first response. */
  lemma PrefixesDelivered(run: seq<State>, steps: seq<Action>, i: nat)
    requires Run(run, steps) && i < |run|
    ensures var s := run[i];
            && s.toBackend <= s.fromClient
            && (s.toClient == []
                || exists n: nat :: n <= |s.fromBackend| && s.toClient == [Header] + Wrap(s.fromBackend[..n]))
  {
    RunInv(run, steps, i);
  }

  /** A nil result means that the backend had finished and all of its responses reached the client, exactly when
      the end of stream the result comes from was met by a receive; if it was met by a send to the client, the
      result is nil as well and a response is lost. */
  lemma NilResult(run: seq<State>, steps: seq<Action>, i: nat, eof: Error)
    requires Run(run, steps) && i < |run| && run[i].main == Returned(Nil(eof))
    ensures var s := run[i];
            && eof.IsEof()
            && (eof == EndOfReceive <==>
                  s.backendClosed && s.toClient == (if s.fromBackend == [] then [] else [Header] + Wrap(s.fromBackend)))
  {
    RunInv(run, steps, i);
    var s := run[i];
    if eof == EndOfReceive {
      assert s.fromBackend[..s.received] == s.fromBackend;
    } else {
      assert |[Header] + Wrap(s.fromBackend)| == 1 + |s.fromBackend|;
      assert |s.toClient| <= 1 + s.received;
    }
  }

  /** The backend's side of the stream is closed early only if it had already ended it itself: otherwise everything
      the client sent has been forwarded and the client has finished. */
  lemma CloseSendAfterLastRequest(run: seq<State>, steps: seq<Action>, i: nat)
    requires Run(run, steps) && i < |run| && run[i].sendClosed.Some?
    ensures var s := run[i];
            s.sendClosed == Some(EndOfReceive) <==> s.clientClosed && s.toBackend == s.fromClient
  {
    RunInv(run, steps, i);
  }

  /** The statement after the loop is not reached; once the response pump has ended the loop can always go on, and a
      pump that still runs finds room in its channel. */
  lemma LoopEnds(run: seq<State>, steps: seq<Action>, i: nat)
    requires Run(run, steps) && i < |run|
    ensures var s := run[i];
            && s.main != Returned(NeverReached)
            && (s.main.Selecting? && s.responses.ResponsesReported? ==> Enabled(s, TakeC2sErr))
            && (!s.requests.RequestsReported? ==> s.s2cErr.None?)
            && (!s.responses.ResponsesReported? ==> s.c2sErr.None?)
  {
    RunInv(run, steps, i);
  }

  /** At every point either pump can fail, and the loop can take either report that is there. */
  lemma AnyStepCanFail(s: State, code: int, e: Error)
    requires e != EndOfReceive
    ensures s.requests.ReceivingRequest? ==> Enabled(s, ReceiveRequestFails(code))
    ensures s.requests.SendingRequest? ==> Enabled(s, SendRequestFails(e))
    ensures s.responses.ReceivingResponse? ==> Enabled(s, ReceiveResponseFails(code))
    ensures s.responses.ReadingHeader? ==> Enabled(s, ReadHeaderFails(e))
    ensures s.responses.SendingHeader? ==> Enabled(s, SendHeaderFails(e))
    ensures s.responses.SendingResponse? ==> Enabled(s, SendResponseFails(e))
    ensures s.main.Selecting? && s.s2cErr.Some? ==> Enabled(s, TakeS2cErr)
    ensures s.main.Selecting? && s.c2sErr.Some? ==> Enabled(s, TakeC2sErr)
  {
  }

  // ---- What becomes of every message

  /** How many of the first n steps send a request, and how many a response, to the other side. */
  function RequestsSent(steps: seq<Action>, n: nat): nat
    requires n <= |steps|
  {
    if n == 0 then 0 else RequestsSent(steps, n - 1) + if steps[n - 1].SendRequest? then 1 else 0
  }

  function ResponsesSent(steps: seq<Action>, n: nat): nat
    requires n <= |steps|
  {
    if n == 0 then 0 else ResponsesSent(steps, n - 1) + if steps[n - 1].SendResponse? then 1 else 0
  }

  function Responses(ds: seq<Down>): nat {
    if ds == [] then 0 else Responses(ds[..|ds| - 1]) + if ds[|ds| - 1].Response? then 1 else 0
  }

  lemma SendingStep(s: State, a: Action)
    requires Enabled(s, a)
    ensures |Next(s, a).toBackend| == |s.toBackend| + if a.SendRequest? then 1 else 0
    ensures Next(s, a).received == s.received + if a.SendResponse? then 1 else 0
    ensures Responses(Next(s, a).toClient) == Responses(s.toClient) + if a.SendResponse? then 1 else 0
  {
    if a.SendHeader? || a.SendResponse? {
      var down := Next(s, a).toClient;
      assert down[..|down| - 1] == s.toClient;
    }
  }

  /** Nothing that was sent is lost on the way, and nothing is made up: each side has as many messages as were sent to
      it. */
  lemma {:induction false} SentIsDelivered(run: seq<State>, steps: seq<Action>, i: nat)
    requires Run(run, steps) && i < |run|
    ensures |run[i].toBackend| == RequestsSent(steps, i)
    ensures Responses(run[i].toClient) == ResponsesSent(steps, i) == run[i].received
  {
    if i > 0 {
      SentIsDelivered(run, steps, i - 1);
      SendingStep(run[i - 1], steps[i - 1]);
    }
  }

  // ---- Which step decides the result

  /** The step that ends the request pump, and the error it reports. */
  predicate EndsRequests(s: State, a: Action, e: Error) {
    || (a.ReceiveRequest? && s.clientClosed && |s.toBackend| == |s.fromClient| && e == EndOfReceive)
    || (a.ReceiveRequestFails? && e == Failure(a.code))
    || (a.SendRequestFails? && e == a.e)
  }

  predicate EndsResponses(s: State, a: Action, e: Error) {
    || (a.ReceiveResponse? && s.backendClosed && s.received == |s.fromBackend| && e == EndOfReceive)
    || (a.ReceiveResponseFails? && e == Failure(a.code))
    || ((a.ReadHeaderFails? || a.SendHeaderFails? || a.SendResponseFails?) && e == a.e)
  }

  /** The step that makes the select loop return. */
  predicate Returns(s: State, a: Action, r: Result) {
    || (a.TakeC2sErr? && s.responses.ResponsesReported?
        && r == if s.responses.e.Failure? then RpcError(s.responses.e) else Nil(s.responses.e))
    || (a.TakeS2cErr? && s.requests.RequestsReported? && s.requests.e.Failure? && r == ForwardingFailed(s.requests.e))
  }

  lemma PumpsStandStill(s: State, a: Action)
    requires Enabled(s, a)
    ensures !OfRequestPump(a) ==> Next(s, a).requests == s.requests
    ensures !OfResponsePump(a) ==> Next(s, a).responses == s.responses
  {
  }

  lemma RequestPumpReports(s: State, a: Action, e: Error)
    requires RequestInv(s) && Enabled(s, a) && OfRequestPump(a)
    ensures !s.requests.RequestsReported? && (Next(s, a).requests == RequestsReported(e) <==> EndsRequests(s, a, e))
  {
  }

  lemma ResponsePumpReports(s: State, a: Action, e: Error)
    requires ResponseInv(s) && Enabled(s, a) && OfResponsePump(a)
    ensures !s.responses.ResponsesReported?
    ensures Next(s, a).responses == ResponsesReported(e) <==> EndsResponses(s, a, e)
  {
  }

  lemma RequestsReportingStep(s: State, a: Action, e: Error)
    requires RequestInv(s) && Enabled(s, a)
    ensures Next(s, a).requests == RequestsReported(e) <==> s.requests == RequestsReported(e) || EndsRequests(s, a, e)
  {
    if OfRequestPump(a) {
      RequestPumpReports(s, a, e);
    } else {
      PumpsStandStill(s, a);
    }
  }

  lemma ResponsesReportingStep(s: State, a: Action, e: Error)
    requires ResponseInv(s) && Enabled(s, a)
    ensures Next(s, a).responses == ResponsesReported(e)
            <==> s.responses == ResponsesReported(e) || EndsResponses(s, a, e)
  {
    if OfResponsePump(a) {
      ResponsePumpReports(s, a, e);
    } else {
      PumpsStandStill(s, a);
    }
  }

  lemma ReturningStep(s: State, a: Action, r: Result)
    requires Inv(s) && Enabled(s, a)
    ensures Next(s, a).main == Returned(r) <==> s.main == Returned(r) || Returns(s, a, r)
  {
  }

  /** Each pump reports what the step that ended it met. */
  lemma RequestsReportedIff(run: seq<State>, steps: seq<Action>, i: nat, e: Error)
    requires Run(run, steps) && i < |run|
    ensures run[i].requests == RequestsReported(e) <==> exists k :: 0 <= k < i && EndsRequests(run[k], steps[k], e)
  {
    var facts := seq(|run|, k requires 0 <= k < |run| => run[k].requests == RequestsReported(e));
    var events := seq(|steps|, k requires 0 <= k < |steps| => EndsRequests(run[k], steps[k], e));
    forall k | 0 <= k < |events| ensures facts[k + 1] == (facts[k] || events[k]) {
      RunInv(run, steps, k);
      RequestsReportingStep(run[k], steps[k], e);
    }
    ComesAndStays(facts, events, i);
    if exists k :: 0 <= k < i && events[k] {
      var k :| 0 <= k < i && events[k];
      assert EndsRequests(run[k], steps[k], e);
    } else {
      forall k | 0 <= k < i ensures !EndsRequests(run[k], steps[k], e) {
        assert !events[k];
      }
    }
  }

  lemma ResponsesReportedIff(run: seq<State>, steps: seq<Action>, i: nat, e: Error)
    requires Run(run, steps) && i < |run|
    ensures run[i].responses == ResponsesReported(e) <==> exists k :: 0 <= k < i && EndsResponses(run[k], steps[k], e)
  {
    var facts := seq(|run|, k requires 0 <= k < |run| => run[k].responses == ResponsesReported(e));
    var events := seq(|steps|, k requires 0 <= k < |steps| => EndsResponses(run[k], steps[k], e));
    forall k | 0 <= k < |events| ensures facts[k + 1] == (facts[k] || events[k]) {
      RunInv(run, steps, k);
      ResponsesReportingStep(run[k], steps[k], e);
    }
    ComesAndStays(facts, events, i);
    if exists k :: 0 <= k < i && events[k] {
      var k :| 0 <= k < i && events[k];
      assert EndsResponses(run[k], steps[k], e);
    } else {
      forall k | 0 <= k < i ensures !EndsResponses(run[k], steps[k], e) {
        assert !events[k];
      }
    }
  }

  /** The call returns what the first report it takes, other than an end of the requests, says: nil for an end of
      stream of the responses, and each error as it came. */
  lemma ResultIff(run: seq<State>, steps: seq<Action>, i: nat, r: Result)
    requires Run(run, steps) && i < |run|
    ensures run[i].main == Returned(r) <==> exists k :: 0 <= k < i && Returns(run[k], steps[k], r)
  {
    var facts := seq(|run|, k requires 0 <= k < |run| => run[k].main == Returned(r));
    var events := seq(|steps|, k requires 0 <= k < |steps| => Returns(run[k], steps[k], r));
    forall k | 0 <= k < |events| ensures facts[k + 1] == (facts[k] || events[k]) {
      RunInv(run, steps, k);
      ReturningStep(run[k], steps[k], r);
    }
    ComesAndStays(facts, events, i);
    if exists k :: 0 <= k < i && events[k] {
      var k :| 0 <= k < i && events[k];
      assert Returns(run[k], steps[k], r);
    } else {
      forall k | 0 <= k < i ensures !Returns(run[k], steps[k], r) {
        assert !events[k];
      }
    }
  }

  // ---- Runs end

  predicate OfOutside(a: Action) {
    a.ClientSends? || a.ClientCloses? || a.BackendSends? || a.BackendCloses?
  }

  /** A bound on the steps the call itself can still take on what the two sides have sent so far. */
  function Work(s: State): int {
    RequestWork(s) + ResponseWork(s) + MainWork(s.main)
  }

  function RequestWork(s: State): int {
    2 * (|s.fromClient| - |s.toBackend|)
    + match s.requests case ReceivingRequest => 1 case SendingRequest(_) => 0 case RequestsReported(_) => -1
  }

  function ResponseWork(s: State): int {
    4 * (|s.fromBackend| - s.received)
    + match s.responses
      case ReceivingResponse => 1
      case ReadingHeader(_) => 0
      case SendingHeader(_) => -1
      case SendingResponse(_) => -2
      case ResponsesReported(_) => -3
  }

  function MainWork(main: Main): int {
    match main case Selecting(round) => 2 - round case Returned(_) => 0
  }

  lemma RequestsWorked(s: State, a: Action)
    requires Inv(s) && Enabled(s, a) && OfRequestPump(a)
    ensures Work(Next(s, a)) < Work(s)
  {
  }

  lemma ResponsesWorked(s: State, a: Action)
    requires Inv(s) && Enabled(s, a) && OfResponsePump(a)
    ensures Work(Next(s, a)) < Work(s)
  {
  }

  lemma MainWorked(s: State, a: Action)
    requires Inv(s) && Enabled(s, a) && (a.TakeS2cErr? || a.TakeC2sErr?)
    ensures Work(Next(s, a)) < Work(s)
  {
  }

  lemma OutsideAdds(s: State, a: Action)
    requires Enabled(s, a) && OfOutside(a)
    ensures Work(Next(s, a)) - 2 * |Next(s, a).fromClient| - 4 * |Next(s, a).fromBackend|
            == Work(s) - 2 * |s.fromClient| - 4 * |s.fromBackend|
  {
  }

  /** How many of the first n steps are the call's own. */
  function OwnSteps(steps: seq<Action>, n: nat): nat
    requires n <= |steps|
  {
    if n == 0 then 0 else OwnSteps(steps, n - 1) + if OfOutside(steps[n - 1]) then 0 else 1
  }

  lemma InputOnlyFromOutside(s: State, a: Action)
    requires Enabled(s, a) && !OfOutside(a)
    ensures Next(s, a).fromClient == s.fromClient && Next(s, a).fromBackend == s.fromBackend
  {
  }

  lemma WorkIsLeft(s: State)
    requires Inv(s)
    ensures Work(s) >= -4
  {
    assert s.responses.SendingResponse? || s.responses.SendingHeader? ==> s.received < |s.fromBackend|;
  }

  lemma {:induction false} OwnStepsBelow(run: seq<State>, steps: seq<Action>, i: nat)
    requires Run(run, steps) && i < |run|
    ensures OwnSteps(steps, i) + Work(run[i]) <= 4 + 2 * |run[i].fromClient| + 4 * |run[i].fromBackend|
  {
    if i > 0 {
      var s, a := run[i - 1], steps[i - 1];
      OwnStepsBelow(run, steps, i - 1);
      RunInv(run, steps, i - 1);
      if OfOutside(a) {
        OutsideAdds(s, a);
      } else {
        InputOnlyFromOutside(s, a);
        if OfRequestPump(a) {
          RequestsWorked(s, a);
        } else if OfResponsePump(a) {
          ResponsesWorked(s, a);
        } else {
          MainWorked(s, a);
        }
      }
    }
  }

  /** Whatever the interleaving, the call takes at most two steps for each request, four for each response, and eight
      more. */
  lemma OwnStepsAreBounded(run: seq<State>, steps: seq<Action>, i: nat)
    requires Run(run, steps) && i < |run|
    ensures OwnSteps(steps, i) <= 8 + 2 * |run[i].fromClient| + 4 * |run[i].fromBackend|
  {
    OwnStepsBelow(run, steps, i);
    RunInv(run, steps, i);
    WorkIsLeft(run[i]);
  }

  /** No step of the call is possible, not even without a failure. */
  predicate Stuck(s: State) {
    && !Enabled(s, ReceiveRequest) && !Enabled(s, SendRequest)
    && !Enabled(s, ReceiveResponse) && !Enabled(s, ReadHeader) && !Enabled(s, SendHeader) && !Enabled(s, SendResponse)
    && !Enabled(s, TakeS2cErr) && !Enabled(s, TakeC2sErr)
  }

  /** A call that has not returned and cannot go on waits for the backend, which has sent all it has, and has not
      finished; all requests so far are delivered unless the request pump has failed. */
  lemma StuckWaitsForBackend(run: seq<State>, steps: seq<Action>, i: nat)
    requires Run(run, steps) && i < |run| && Stuck(run[i]) && run[i].main.Selecting?
    ensures var s := run[i];
            && s.responses == ReceivingResponse && !s.backendClosed && s.received == |s.fromBackend|
            && (s.requests.ReceivingRequest? ==> s.toBackend == s.fromClient && !s.clientClosed)
  {
    RunInv(run, steps, i);
  }

  // ---- Runs that succeed

  lemma Extend(run: seq<State>, steps: seq<Action>, a: Action) returns (run': seq<State>, steps': seq<Action>)
    requires Run(run, steps) && Enabled(run[|steps|], a)
    ensures Run(run', steps') && |steps'| == |steps| + 1 && run'[|steps'|] == Next(run[|steps|], a)
  {
    run', steps' := run + [Next(run[|steps|], a)], steps + [a];
    forall i | 0 <= i < |steps'| ensures Enabled(run'[i], steps'[i]) && run'[i + 1] == Next(run'[i], steps'[i]) {
      if i < |steps| {
        assert run'[i] == run[i] && run'[i + 1] == run[i + 1];
      }
    }
  }

  /** The client sends its messages and closes. */
  lemma {:induction false} ClientSendsAll(run: seq<State>, steps: seq<Action>, ms: seq<Message>)
      returns (run': seq<State>, steps': seq<Action>)
    requires Run(run, steps) && !run[|steps|].clientClosed
    ensures Run(run', steps')
    ensures run'[|steps'|] == run[|steps|].(fromClient := run[|steps|].fromClient + ms, clientClosed := true)
    decreases |ms|
  {
    var s := run[|steps|];
    if ms == [] {
      run', steps' := Extend(run, steps, ClientCloses);
      assert s.fromClient + ms == s.fromClient;
    } else {
      run', steps' := Extend(run, steps, ClientSends(ms[0]));
      run', steps' := ClientSendsAll(run', steps', ms[1..]);
      assert s.fromClient + [ms[0]] + ms[1..] == s.fromClient + ms;
    }
  }

  lemma {:induction false} BackendSendsAll(run: seq<State>, steps: seq<Action>, ms: seq<Message>)
      returns (run': seq<State>, steps': seq<Action>)
    requires Run(run, steps) && !run[|steps|].backendClosed
    ensures Run(run', steps')
    ensures run'[|steps'|] == run[|steps|].(fromBackend := run[|steps|].fromBackend + ms, backendClosed := true)
    decreases |ms|
  {
    var s := run[|steps|];
    if ms == [] {
      run', steps' := Extend(run, steps, BackendCloses);
      assert s.fromBackend + ms == s.fromBackend;
    } else {
      run', steps' := Extend(run, steps, BackendSends(ms[0]));
      run', steps' := BackendSendsAll(run', steps', ms[1..]);
      assert s.fromBackend + [ms[0]] + ms[1..] == s.fromBackend + ms;
    }
  }

  /** The request pump forwards all there is, reports the end, and the loop closes the sending side. */
  lemma {:induction false} RequestsForwarded(run: seq<State>, steps: seq<Action>)
      returns (run': seq<State>, steps': seq<Action>)
    requires Run(run, steps)
    requires var s := run[|steps|];
             s.clientClosed && s.requests == ReceivingRequest && s.toBackend <= s.fromClient && s.main == Selecting(0)
    ensures Run(run', steps')
    ensures run'[|steps'|] == run[|steps|].(toBackend := run[|steps|].fromClient,
            requests := RequestsReported(EndOfReceive),
                                            s2cErr := None, sendClosed := Some(EndOfReceive), main := Selecting(1))
    decreases |run[|steps|].fromClient| - |run[|steps|].toBackend|
  {
    var s := run[|steps|];
    run', steps' := Extend(run, steps, ReceiveRequest);
    if |s.toBackend| == |s.fromClient| {
      run', steps' := Extend(run', steps', TakeS2cErr);
      assert s.toBackend == s.fromClient;
    } else {
      run', steps' := Extend(run', steps', SendRequest);
      run', steps' := RequestsForwarded(run', steps');
    }
  }

  /** One response is forwarded, behind the header if it is the first. */
  lemma ResponseForwarded(run: seq<State>, steps: seq<Action>) returns (run': seq<State>, steps': seq<Action>)
    requires Run(run, steps)
    requires run[|steps|].responses == ReceivingResponse && run[|steps|].received < |run[|steps|].fromBackend|
    ensures Run(run', steps')
    ensures var s := run[|steps|];
            var m := Response(s.fromBackend[s.received]);
            run'[|steps'|] == s.(received := s.received + 1,
                                 toClient := s.toClient + if s.received == 0 then [Header, m] else [m])
  {
    var s := run[|steps|];
    run', steps' := Extend(run, steps, ReceiveResponse);
    if s.received == 0 {
      run', steps' := Extend(run', steps', ReadHeader);
      run', steps' := Extend(run', steps', SendHeader);
    }
    run', steps' := Extend(run', steps', SendResponse);
    var m := Response(s.fromBackend[s.received]);
    assert s.toClient + [Header] + [m] == s.toClient + [Header, m];
  }

  /** What the client has got of the first n responses. */
  function Got(ms: seq<Message>, n: nat): seq<Down>
    requires n <= |ms|
  {
    if n == 0 then [] else [Header] + Wrap(ms[..n])
  }

  /** The response pump forwards all there is, reports the end, and the loop returns nil. */
  lemma {:induction false} ResponsesForwarded(run: seq<State>, steps: seq<Action>)
      returns (run': seq<State>, steps': seq<Action>)
    requires Run(run, steps)
    requires var s := run[|steps|];
             && s.backendClosed && s.responses == ReceivingResponse && s.received <= |s.fromBackend|
                && s.main.Selecting?
             && s.toClient == Got(s.fromBackend, s.received)
    ensures Run(run', steps')
    ensures run'[|steps'|] == run[|steps|].(received := |run[|steps|].fromBackend|,
                                            toClient := Got(run[|steps|].fromBackend, |run[|steps|].fromBackend|),
                                            responses := ResponsesReported(EndOfReceive), c2sErr := None,
                                            trailerSet := true, main := Returned(Nil(EndOfReceive)))
    decreases |run[|steps|].fromBackend| - run[|steps|].received
  {
    var s := run[|steps|];
    if s.received == |s.fromBackend| {
      run', steps' := Extend(run, steps, ReceiveResponse);
      run', steps' := Extend(run', steps', TakeC2sErr);
    } else {
      run', steps' := ResponseForwarded(run, steps);
      GotNext(s.fromBackend, s.received);
      run', steps' := ResponsesForwarded(run', steps');
    }
  }

  lemma GotNext(ms: seq<Message>, n: nat)
    requires n < |ms|
    ensures Got(ms, n + 1) == Got(ms, n) + if n == 0 then [Header, Response(ms[n])] else [Response(ms[n])]
  {
    assert ms[..n + 1] == ms[..n] + [ms[n]];
  }

  /** For any requests and any responses there is a run that delivers all of them and returns nil. */
  lemma AllCanBeDelivered(requests: seq<Message>, responses: seq<Message>) returns (run: seq<State>, steps: seq<Action>)
    ensures Run(run, steps)
    ensures var s := run[|steps|];
            && s.fromClient == requests == s.toBackend && s.sendClosed == Some(EndOfReceive)
            && s.fromBackend == responses
            && s.toClient == (if responses == [] then [] else [Header] + Wrap(responses))
            && s.main == Returned(Nil(EndOfReceive))
  {
    run, steps := [INITIAL], [];
    run, steps := ClientSendsAll(run, steps, requests);
    run, steps := BackendSendsAll(run, steps, responses);
    assert [] + requests == requests && [] + responses == responses;
    run, steps := RequestsForwarded(run, steps);
    run, steps := ResponsesForwarded(run, steps);
    assert responses[..|responses|] == responses;
  }

  /** The client has the header, and the first response is being sent. */
  lemma FirstResponse(m: Message) returns (run: seq<State>, steps: seq<Action>)
    ensures Run(run, steps)
    ensures run[|steps|] == INITIAL.(fromBackend := [m], toClient := [Header], responses := SendingResponse(m))
  {
    run, steps := Extend([INITIAL], [], BackendSends(m));
    run, steps := Extend(run, steps, ReceiveResponse);
    run, steps := Extend(run, steps, ReadHeader);
    run, steps := Extend(run, steps, SendHeader);
  }

  /** A lost response behind a nil result does happen: the client's side ends while a response is being sent. */
  lemma LostResponse(m: Message) returns (run: seq<State>, steps: seq<Action>)
    ensures Run(run, steps) && run[|steps|].main == Returned(Nil(EndOfSend))
    ensures run[|steps|].fromBackend == [m] && run[|steps|].toClient == [Header]
  {
    run, steps := FirstResponse(m);
    run, steps := Extend(run, steps, SendResponseFails(EndOfSend));
    run, steps := Extend(run, steps, TakeC2sErr);
  }
}
