/**
  * The relay task of one SOCKS5 UDP association: it forwards each datagram on a stream opened for the
  * datagram's target, keeping one stream open at a time.
  */
module Association {
  import opened Core
  import opened Socks5

  /** A datagram routed to the association. */
  datatype Inbound = Inbound(peer: SocketAddr, datagram: seq<byte>)

  /** What the relay waits for after sending a request. */
  datatype Reply =
    | ControlClosed
    | ControlByte
    | ControlFailed
    | NoResponse
    | Response(target: SocketAddr, payload: seq<byte>, delivered: bool)

  /** How the streams and the control connection behave while one datagram is relayed. */
  datatype Exchange = Exchange(finishes: bool, opens: bool, sends: bool, reply: Reply)

  /** What the relay loop selects next. */
  datatype Event =
    | Closed
    | Byte
    | Broken
    | ChannelEnded
    | Datagram(inbound: Inbound, exchange: Exchange)

  datatype Request = Request(peer: SocketAddr, target: Target, payload: seq<byte>)

  /** A request, and the response to it that was handed to the client. */
  datatype Answered = Answered(request: Request, from: SocketAddr, response: seq<byte>)

  datatype Stream = Stream(id: nat, target: Target)

  /** What one event makes of the loop. */
  datatype Step = Continue | Break | Fail(error: ClientError)

  /** What the relay has done to its streams, latest action outermost. */
  datatype Trace =
    | Start
    | Open(before: Trace, id: nat, target: Target)
    | Send(before: Trace, id: nat, request: Request)
    | Answer(before: Trace, answered: Answered)
    | Finish(before: Trace, id: nat)

  datatype Report = Report(
    controlPeer: SocketAddr,
    udpPeer: SocketAddr,
    remoteTarget: SocketAddr,
    bytesFromClient: nat,
    bytesFromTarget: nat)

  // ---------------------------------------------------------------- reading a trace

  function Opened(trace: Trace): nat {
    if trace.Start? then 0 else Opened(trace.before) + if trace.Open? then 1 else 0
  }

  function Finished(trace: Trace): nat {
    if trace.Start? then 0 else Finished(trace.before) + if trace.Finish? then 1 else 0
  }

  /** The stream that is open at the end of the trace. */
  function Live(trace: Trace): Option<Stream> {
    if trace.Start? || trace.Finish? then None
    else if trace.Open? then Some(Stream(trace.id, trace.target))
    else Live(trace.before)
  }

  /** The requests sent, in order. */
  function Sent(trace: Trace): seq<Request> {
    if trace.Start? then []
    else if trace.Send? then Sent(trace.before) + [trace.request]
    else Sent(trace.before)
  }

  /** The answers handed to the client, in order. */
  function Answers(trace: Trace): seq<Answered> {
    if trace.Start? then []
    else if trace.Answer? then Answers(trace.before) + [trace.answered]
    else Answers(trace.before)
  }

  function ClientBytes(answers: seq<Answered>): nat {
    if answers == [] then 0 else ClientBytes(answers[..|answers| - 1]) + |answers[|answers| - 1].request.payload|
  }

  function TargetBytes(answers: seq<Answered>): nat {
    if answers == [] then 0 else TargetBytes(answers[..|answers| - 1]) + |answers[|answers| - 1].response|
  }

  /** The number of maximal runs of consecutive requests for the same target. */
  function Runs(requests: seq<Request>): nat {
    if |requests| == 0 then 0
    else
      var n := |requests| - 1;
      Runs(requests[..n]) + if n > 0 && requests[n - 1].target == requests[n].target then 0 else 1
  }

  /**
    * The stream discipline: a stream is opened only when none is open and under a new number, a request
    * is sent only on the open stream and only if that stream was opened for its target, an answer
    * belongs to the request just sent, and only the open stream is finished.
    */
  ghost predicate Disciplined(trace: Trace) {
    match trace
    case Start => true
    case Open(before, id, _) => Disciplined(before) && Live(before).None? && id == Opened(before)
    case Send(before, id, request) => Disciplined(before) && Live(before) == Some(Stream(id, request.target))
    case Answer(before, answered) => Disciplined(before) && before.Send? && before.request == answered.request
    case Finish(before, id) => Disciplined(before) && Live(before).Some? && Live(before).value.id == id
  }

  /** Number `id` was finished somewhere in the trace. */
  ghost predicate WasFinished(trace: Trace, id: nat) {
    !trace.Start? && ((trace.Finish? && trace.id == id) || WasFinished(trace.before, id))
  }

  /** Under the discipline, the streams opened are those finished and the one still open. */
  lemma {:induction false} StreamsBalance(trace: Trace)
    requires Disciplined(trace)
    ensures Opened(trace) == Finished(trace) + if Live(trace).Some? then 1 else 0
    ensures Live(trace).Some? ==> Live(trace).value.id < Opened(trace)
  {
    if !trace.Start? {
      StreamsBalance(trace.before);
    }
  }

  /** Under the discipline all opened streams but the open one are finished, and none of them twice. */
  lemma {:induction false} FinishedOnce(trace: Trace, id: nat)
    requires Disciplined(trace)
    ensures WasFinished(trace, id) <==> id < Opened(trace) && !(Live(trace).Some? && Live(trace).value.id == id)
    ensures trace.Finish? && trace.id == id ==> !WasFinished(trace.before, id)
  {
    StreamsBalance(trace);
    if !trace.Start? {
      FinishedOnce(trace.before, id);
      StreamsBalance(trace.before);
    }
  }

  // ---------------------------------------------------------------- reading the events

  /** The sender of the first of the datagrams. */
  function FirstPeer(events: seq<Event>, n: nat): Option<SocketAddr>
    requires n <= |events|
  {
    if n == 0 then None
    else if FirstPeer(events, n - 1).Some? then FirstPeer(events, n - 1)
    else if events[n - 1].Datagram? then Some(events[n - 1].inbound.peer)
    else None
  }

  /** The well-formed requests that the first peer made in the first `n` events, in order. */
  function RequestsIn(events: seq<Event>, n: nat): seq<Request>
    requires n <= |events|
  {
    if n == 0 then []
    else if events[n - 1].Datagram? && FirstPeer(events, n) == Some(events[n - 1].inbound.peer) then
      RequestsIn(events, n - 1) + Requested(events[n - 1].inbound)
    else RequestsIn(events, n - 1)
  }

  function Requested(inbound: Inbound): seq<Request> {
    var decoded := DecodeUdp(inbound.datagram);
    if decoded.Ok? then [Request(inbound.peer, decoded.value.target, decoded.value.payload)] else []
  }

  /** The answers handed to the client in the first `n` events, in order. */
  function AnswersIn(events: seq<Event>, n: nat): seq<Answered>
    requires n <= |events|
  {
    if n == 0 then []
    else if events[n - 1].Datagram? && FirstPeer(events, n) == Some(events[n - 1].inbound.peer) then
      AnswersIn(events, n - 1) + AnswerTo(events[n - 1].inbound, events[n - 1].exchange.reply)
    else AnswersIn(events, n - 1)
  }

  function AnswerTo(inbound: Inbound, reply: Reply): seq<Answered> {
    if Requested(inbound) == [] then [] else AnswerFor(Requested(inbound)[0], reply)
  }

  function AnswerFor(request: Request, reply: Reply): seq<Answered> {
    if reply.Response? && reply.delivered then [Answered(request, reply.target, reply.payload)] else []
  }

  // ---------------------------------------------------------------- what stops the relay

  /** The request needs a stream of its own, because the one before it was for another target. */
  predicate NeedsStream(asked: seq<Request>, request: Request) {
    asked == [] || asked[|asked| - 1].target != request.target
  }

  /** The request cannot be sent, because the stream before it is not finished or its own is not opened. */
  predicate Unsendable(asked: seq<Request>, request: Request, exchange: Exchange) {
    NeedsStream(asked, request) && ((asked != [] && !exchange.finishes) || !exchange.opens)
  }

  /** What the wait for an answer makes of the loop. */
  function AfterReply(reply: Reply): Step {
    match reply
    case ControlClosed => Break
    case ControlByte => Fail(InvalidSocks5Request)
    case ControlFailed => Fail(Io)
    case NoResponse => Fail(Transport)
    case Response(_, _, delivered) => if delivered then Continue else Fail(Io)
  }

  function AfterRequest(asked: seq<Request>, request: Request, exchange: Exchange): Step {
    if Unsendable(asked, request, exchange) || !exchange.sends then Fail(Transport) else AfterReply(exchange.reply)
  }

  /** What a datagram makes of the loop when the first peer is this one and these requests came before. */
  function AfterDatagram(first: SocketAddr, asked: seq<Request>, inbound: Inbound, exchange: Exchange): Step {
    if first != inbound.peer then Continue
    else if Requested(inbound) == [] then Fail(InvalidSocks5Request)
    else AfterRequest(asked, Requested(inbound)[0], exchange)
  }

  /** What event `n` makes of the loop, by the events before it. */
  function StepAt(events: seq<Event>, n: nat): Step
    requires n < |events|
  {
    match events[n]
    case Closed => Break
    case ChannelEnded => Break
    case Byte => Fail(InvalidSocks5Request)
    case Broken => Fail(Io)
    case Datagram(inbound, exchange) =>
      AfterDatagram(OrElse(FirstPeer(events, n), inbound.peer), RequestsIn(events, n), inbound, exchange)
  }

  /** The loop goes on through the first `n` events. */
  predicate GoesOn(events: seq<Event>, n: nat)
    requires n <= |events|
  {
    n == 0 || (GoesOn(events, n - 1) && StepAt(events, n - 1).Continue?)
  }

  /** The step the loop ends with when it has handled so many events; their end is the control connection's. */
  function LastStep(events: seq<Event>, handled: nat): Step
    requires handled <= |events|
  {
    if handled == 0 || StepAt(events, handled - 1).Continue? then Break else StepAt(events, handled - 1)
  }

  /** The loop ends here: at the first event that does not let it go on, or at the end. */
  predicate EndsAt(events: seq<Event>, handled: nat)
    requires handled <= |events|
  {
    if handled == |events| && GoesOn(events, handled) then true
    else handled > 0 && GoesOn(events, handled - 1) && !StepAt(events, handled - 1).Continue?
  }

  // ---------------------------------------------------------------- the same by the events themselves

  /** No datagram comes before event `n`, or the first one that does has the same sender. */
  ghost predicate FromFirstPeer(events: seq<Event>, n: nat)
    requires n < |events|
  {
    && events[n].Datagram?
    && forall j :: 0 <= j < n && events[j].Datagram? && NoneBefore(events, j) ==>
         events[j].inbound.peer == events[n].inbound.peer
  }

  ghost predicate NoneBefore(events: seq<Event>, j: nat)
    requires j <= |events|
  {
    forall i :: 0 <= i < j ==> !events[i].Datagram?
  }

  lemma {:induction false} FirstPeerIs(events: seq<Event>, n: nat)
    requires n <= |events|
    ensures FirstPeer(events, n).None? <==> NoneBefore(events, n)
    ensures forall j :: 0 <= j < n && events[j].Datagram? && NoneBefore(events, j) ==>
      FirstPeer(events, n) == Some(events[j].inbound.peer)
  {
    if n > 0 {
      FirstPeerIs(events, n - 1);
    }
  }

  lemma {:induction false} FirstOfAll(events: seq<Event>, n: nat) returns (j: nat)
    requires n <= |events| && !NoneBefore(events, n)
    ensures j < n && events[j].Datagram? && NoneBefore(events, j)
  {
    j := n - 1;
    if !NoneBefore(events, n - 1) {
      j := FirstOfAll(events, n - 1);
    }
  }

  lemma {:induction false} PeerMeans(events: seq<Event>, n: nat)
    requires n < |events|
    ensures FromFirstPeer(events, n) <==>
      events[n].Datagram? && OrElse(FirstPeer(events, n), events[n].inbound.peer) == events[n].inbound.peer
  {
    FirstPeerIs(events, n);
    if !NoneBefore(events, n) {
      var j := FirstOfAll(events, n);
    }
  }

  /** Event `n` is a well-formed request of the first peer. */
  ghost predicate Requests(events: seq<Event>, n: nat)
    requires n < |events|
  {
    FromFirstPeer(events, n) && DecodeUdp(events[n].inbound.datagram).Ok?
  }

  /** The request of event `n` is for another target than the one before it, or there is none before it. */
  ghost predicate ChangesTarget(events: seq<Event>, n: nat)
    requires n < |events| && Requests(events, n)
  {
    var asked := RequestsIn(events, n);
    asked == [] || asked[|asked| - 1].target != DecodeUdp(events[n].inbound.datagram).value.target
  }

  /** The stream before it cannot be finished, its own cannot be opened, or it cannot be sent. */
  ghost predicate SendFails(events: seq<Event>, n: nat)
    requires n < |events| && Requests(events, n)
  {
    || (ChangesTarget(events, n) && RequestsIn(events, n) != [] && !events[n].exchange.finishes)
    || (ChangesTarget(events, n) && !events[n].exchange.opens)
    || !events[n].exchange.sends
  }

  /** A request that was sent, and what came back. */
  ghost predicate GetsReply(events: seq<Event>, n: nat)
    requires n < |events|
  {
    Requests(events, n) && !SendFails(events, n)
  }

  /** The loop goes on: a datagram of somebody else, or a request whose answer was handed to the client. */
  ghost predicate Passes(events: seq<Event>, n: nat)
    requires n < |events|
  {
    || (events[n].Datagram? && !FromFirstPeer(events, n))
    || (GetsReply(events, n) && events[n].exchange.reply.Response? && events[n].exchange.reply.delivered)
  }

  /** The client or the listener is done: the control connection closes, or the channel ends. */
  ghost predicate Leaves(events: seq<Event>, n: nat)
    requires n < |events|
  {
    events[n].Closed? || events[n].ChannelEnded? || (GetsReply(events, n) && events[n].exchange.reply.ControlClosed?)
  }

  /** The control connection breaks, or the answer cannot be handed to the client. */
  ghost predicate BreaksIo(events: seq<Event>, n: nat)
    requires n < |events|
  {
    || events[n].Broken?
    || (GetsReply(events, n) && events[n].exchange.reply.ControlFailed?)
    || (GetsReply(events, n) && events[n].exchange.reply.Response? && !events[n].exchange.reply.delivered)
  }

  /** The client says something on the control connection, or sends a malformed datagram. */
  ghost predicate Misbehaves(events: seq<Event>, n: nat)
    requires n < |events|
  {
    || events[n].Byte?
    || (GetsReply(events, n) && events[n].exchange.reply.ControlByte?)
    || (FromFirstPeer(events, n) && DecodeUdp(events[n].inbound.datagram).Err?)
  }

  /** A stream cannot be finished, opened or written, or brings no response. */
  ghost predicate LosesStream(events: seq<Event>, n: nat)
    requires n < |events|
  {
    || (Requests(events, n) && SendFails(events, n))
    || (GetsReply(events, n) && events[n].exchange.reply.NoResponse?)
  }

  /** What an event makes of the loop, by what it is. */
  lemma {:induction false} StepMeans(events: seq<Event>, n: nat)
    requires n < |events|
    ensures StepAt(events, n) == Continue <==> Passes(events, n)
    ensures StepAt(events, n) == Break <==> Leaves(events, n)
    ensures StepAt(events, n) == Fail(Io) <==> BreaksIo(events, n)
    ensures StepAt(events, n) == Fail(InvalidSocks5Request) <==> Misbehaves(events, n)
    ensures StepAt(events, n) == Fail(Transport) <==> LosesStream(events, n)
    ensures StepAt(events, n) != Fail(Join)
  {
    hide FromFirstPeer, DecodeUdp, RequestsIn, FirstPeer;
    PeerMeans(events, n);
  }

  /** What an event adds to the requests, and one that does not end in an error to the answers. */
  lemma {:induction false} ReadsOn(events: seq<Event>, n: nat)
    requires n < |events|
    ensures RequestsIn(events, n + 1)
         == RequestsIn(events, n) + if Requests(events, n) then [RequestOf(events, n)] else []
    ensures Passes(events, n) && FromFirstPeer(events, n) ==>
      var reply := events[n].exchange.reply;
      AnswersIn(events, n + 1) == AnswersIn(events, n) + [Answered(RequestOf(events, n), reply.target, reply.payload)]
    ensures (Passes(events, n) && !FromFirstPeer(events, n)) || Leaves(events, n) ==>
      AnswersIn(events, n + 1) == AnswersIn(events, n)
  {
    hide FromFirstPeer, DecodeUdp, SendFails;
    PeerMeans(events, n);
    ConcatEmpty(RequestsIn(events, n));
    ConcatEmpty(AnswersIn(events, n));
  }

  function RequestOf(events: seq<Event>, n: nat): Request
    requires n < |events| && events[n].Datagram? && DecodeUdp(events[n].inbound.datagram).Ok?
  {
    var decoded := DecodeUdp(events[n].inbound.datagram).value;
    Request(events[n].inbound.peer, decoded.target, decoded.payload)
  }

  /** The loop ends here: every event before passed, and this one does not, or there are no more. */
  ghost predicate StopsAt(events: seq<Event>, handled: nat)
    requires handled <= |events|
  {
    && (forall i :: 0 <= i < handled - 1 ==> Passes(events, i))
    && (handled > 0 && Passes(events, handled - 1) ==> handled == |events|)
    && (handled == 0 ==> events == [])
  }

  lemma {:induction false} GoesOnMeans(events: seq<Event>, n: nat)
    requires n <= |events|
    ensures GoesOn(events, n) <==> forall i :: 0 <= i < n ==> Passes(events, i)
  {
    hide StepAt, Passes;
    if n > 0 {
      GoesOnMeans(events, n - 1);
      StepMeans(events, n - 1);
    }
  }

  lemma {:induction false} EndMeans(events: seq<Event>, handled: nat)
    requires handled <= |events|
    ensures EndsAt(events, handled) <==> StopsAt(events, handled)
  {
    hide StepAt, GoesOn, Passes;
    GoesOnMeans(events, handled);
    if handled > 0 {
      GoesOnMeans(events, handled - 1);
      StepMeans(events, handled - 1);
    }
  }

  /** The loop ends in one place only. */
  lemma {:induction false} EndsOnce(events: seq<Event>, a: nat, b: nat)
    requires a <= |events| && b <= |events| && StopsAt(events, a) && StopsAt(events, b)
    ensures a == b
  {
    hide Passes;
  }

  /** The relay was left in an orderly way: by its last event, or because there are no more. */
  ghost predicate LeftAt(events: seq<Event>, handled: nat)
    requires handled <= |events|
  {
    handled == 0 || Leaves(events, handled - 1) || Passes(events, handled - 1)
  }

  /** The relay's result by the events: which of them each error comes from, and the report of an orderly end. */
  ghost predicate Reported(
    controlPeer: SocketAddr, events: seq<Event>, handled: nat, finishes: bool, result: Result<Report, ClientError>)
    requires handled <= |events|
  {
    var left, unfinished := LeftAt(events, handled), RequestsIn(events, handled) != [] && !finishes;
    var answers := AnswersIn(events, handled);
    && (result == Err(Io) <==> handled > 0 && BreaksIo(events, handled - 1))
    && (result == Err(Transport) <==> (handled > 0 && LosesStream(events, handled - 1)) || (left && unfinished))
    && (result == Err(InvalidSocks5Request) <==>
          (handled > 0 && Misbehaves(events, handled - 1)) || (left && !unfinished && answers == []))
    && (result.Ok? <==> left && !unfinished && answers != [])
    && (result.Ok? ==>
          && result.value.controlPeer == controlPeer
          && Some(result.value.udpPeer) == FirstPeer(events, handled)
          && result.value.remoteTarget == answers[0].from
          && result.value.bytesFromClient == ClientBytes(answers)
          && result.value.bytesFromTarget == TargetBytes(answers))
  }

  lemma {:induction false} LeftMeans(events: seq<Event>, handled: nat)
    requires handled <= |events|
    ensures LeftAt(events, handled) <==> !LastStep(events, handled).Fail?
  {
    hide StepAt, Passes, Leaves;
    if handled > 0 {
      StepMeans(events, handled - 1);
    }
  }

  lemma {:induction false} AnswersHavePeer(events: seq<Event>, n: nat)
    requires n <= |events| && FirstPeer(events, n).None?
    ensures AnswersIn(events, n) == []
  {
    if n > 0 {
      AnswersHavePeer(events, n - 1);
    }
  }

  lemma {:induction false} OutcomeMeans(controlPeer: SocketAddr, events: seq<Event>, handled: nat, finishes: bool)
    requires handled <= |events|
    ensures Reported(controlPeer, events, handled, finishes, Outcome(controlPeer, events, handled, finishes))
  {
    hide StepAt, Passes, Leaves, BreaksIo, Misbehaves, LosesStream, RequestsIn, AnswersIn, FirstPeer, ClientBytes,
      TargetBytes;
    if handled > 0 {
      StepMeans(events, handled - 1);
    }
    if FirstPeer(events, handled).None? {
      AnswersHavePeer(events, handled);
    }
  }

  /** The requests sent when event `n` makes the relay fail: its own too, unless it could not be sent. */
  function SentWhenFailed(events: seq<Event>, n: nat): seq<Request>
    requires n < |events|
  {
    if events[n].Datagram? && Requested(events[n].inbound) != [] &&
       Unsendable(RequestsIn(events, n), Requested(events[n].inbound)[0], events[n].exchange)
    then RequestsIn(events, n) else RequestsIn(events, n + 1)
  }

  /** The relay's answer to the listener. */
  function Outcome(controlPeer: SocketAddr, events: seq<Event>, handled: nat, finishes: bool): Result<Report, ClientError>
    requires handled <= |events|
  {
    var answers := AnswersIn(events, handled);
    if LastStep(events, handled).Fail? then Err(LastStep(events, handled).error)
    else if RequestsIn(events, handled) != [] && !finishes then Err(Transport)
    else if FirstPeer(events, handled).None? || answers == [] then Err(InvalidSocks5Request)
    else Ok(Report(controlPeer, FirstPeer(events, handled).value, answers[0].from,
                   ClientBytes(answers), TargetBytes(answers)))
  }

  /** The trace of these requests and answers: disciplined, with one stream for each run of equal targets. */
  ghost predicate Sound(trace: Trace, asked: seq<Request>, answers: seq<Answered>) {
    && Disciplined(trace)
    && Sent(trace) == asked
    && Answers(trace) == answers
    && Opened(trace) == Runs(asked)
  }

  /** What a disciplined trace amounts to. */
  ghost predicate Amounts(
    trace: Trace, asked: seq<Request>, answers: seq<Answered>, live: Option<Stream>, opens: nat)
  {
    && Disciplined(trace)
    && Sent(trace) == asked
    && Answers(trace) == answers
    && Live(trace) == live
    && Opened(trace) == opens
  }

  lemma {:induction false} AfterFinish(
    trace: Trace, asked: seq<Request>, answers: seq<Answered>, live: Stream, opens: nat)
    requires Amounts(trace, asked, answers, Some(live), opens)
    ensures Amounts(Finish(trace, live.id), asked, answers, None, opens)
  {
  }

  lemma {:induction false} AfterOpen(
    trace: Trace, asked: seq<Request>, answers: seq<Answered>, target: Target, opens: nat)
    requires Amounts(trace, asked, answers, None, opens)
    ensures Amounts(Open(trace, opens, target), asked, answers, Some(Stream(opens, target)), opens + 1)
  {
  }

  lemma {:induction false} AfterSend(
    trace: Trace, asked: seq<Request>, answers: seq<Answered>, live: Stream, request: Request, opens: nat)
    requires Amounts(trace, asked, answers, Some(live), opens) && live.target == request.target
    ensures Amounts(Send(trace, live.id, request), asked + [request], answers, Some(live), opens)
  {
  }

  lemma {:induction false} AfterAnswer(
    trace: Trace, asked: seq<Request>, answers: seq<Answered>, live: Option<Stream>, opens: nat, answered: Answered)
    requires Amounts(trace, asked, answers, live, opens) && trace.Send? && trace.request == answered.request
    ensures Amounts(Answer(trace, answered), asked, answers + [answered], live, opens)
  {
  }

  /** The totals the loop keeps are those of the answers. */
  ghost predicate Totals(answers: seq<Answered>, up: nat, down: nat, remote: Option<SocketAddr>) {
    && up == ClientBytes(answers)
    && down == TargetBytes(answers)
    && remote == if answers == [] then None else Some(answers[0].from)
  }

  lemma {:induction false} OneMoreAnswer(
    answers: seq<Answered>, answered: Answered, up: nat, down: nat, remote: Option<SocketAddr>)
    requires Totals(answers, up, down, remote)
    ensures Totals(answers + [answered], up + |answered.request.payload|, down + |answered.response|,
                   Some(OrElse(remote, answered.from)))
  {
    assert (answers + [answered])[..|answers|] == answers;
  }

  lemma {:induction false} RunsAppend(requests: seq<Request>, request: Request)
    ensures Runs(requests + [request]) == Runs(requests) +
              if requests != [] && requests[|requests| - 1].target == request.target then 0 else 1
  {
    assert (requests + [request])[..|requests|] == requests;
  }

  // ---------------------------------------------------------------- the relay loop

  /** The variables of the relay loop. */
  class Relay {
    var currentTarget: Option<Target>
    var stream: Option<Stream>
    var firstPeer: Option<SocketAddr>
    var firstRemote: Option<SocketAddr>
    var bytesFromClient: nat
    var bytesFromTarget: nat
    var nextId: nat
    var trace: Trace

    /** What holds between two events of a running relay that was asked and has answered this. */
    ghost predicate Valid(asked: seq<Request>, answers: seq<Answered>) reads this {
      && Amounts(trace, asked, answers, stream, nextId)
      && Totals(answers, bytesFromClient, bytesFromTarget, firstRemote)
      && nextId == Runs(asked)
      && (if asked == [] then currentTarget.None? && stream.None?
          else
            && currentTarget == Some(asked[|asked| - 1].target)
            && stream.Some? && Some(stream.value.target) == currentTarget)
    }

    constructor ()
      ensures Valid([], []) && firstPeer.None?
    {
      currentTarget, stream, firstPeer, firstRemote := None, None, None, None;
      bytesFromClient, bytesFromTarget, nextId, trace := 0, 0, 0, Start;
    }

    /** Makes the open stream the one for the request's target and sends the request on it. */
    method Forward(request: Request, exchange: Exchange, ghost asked: seq<Request>, ghost answers: seq<Answered>)
      returns (ok: bool)
      requires Valid(asked, answers)
      modifies this
      ensures firstPeer == old(firstPeer)
      ensures ok == (!Unsendable(asked, request, exchange) && exchange.sends)
      ensures ok ==> Valid(asked + [request], answers) && trace.Send? && trace.request == request
      ensures Sound(trace, if Unsendable(asked, request, exchange) then asked else asked + [request], answers)
    {
      RunsAppend(asked, request);
      if currentTarget != Some(request.target) {
        if stream.Some? {
          if !exchange.finishes {
            return false;
          }
          AfterFinish(trace, asked, answers, stream.value, nextId);
          trace := Finish(trace, stream.value.id);
          stream := None;
        }
        if !exchange.opens {
          return false;
        }
        AfterOpen(trace, asked, answers, request.target, nextId);
        trace := Open(trace, nextId, request.target);
        stream := Some(Stream(nextId, request.target));
        nextId := nextId + 1;
        currentTarget := Some(request.target);
      }
      AfterSend(trace, asked, answers, stream.value, request, nextId);
      trace := Send(trace, stream.value.id, request);
      ok := exchange.sends;
    }

    /** Waits for the answer to the request just sent, and hands it to the client. */
    method AwaitAnswer(request: Request, reply: Reply, ghost asked: seq<Request>, ghost answers: seq<Answered>)
      returns (step: Step)
      requires Valid(asked, answers) && trace.Send? && trace.request == request
      modifies this
      ensures firstPeer == old(firstPeer)
      ensures step == AfterReply(reply)
      ensures Valid(asked, answers + AnswerFor(request, reply))
      ensures !step.Continue? ==> trace == old(trace)
    {
      hide Amounts, Totals, Runs;
      ConcatEmpty(answers);
      match reply {
        case ControlClosed => return Break;
        case ControlByte => return Fail(InvalidSocks5Request);
        case ControlFailed => return Fail(Io);
        case NoResponse => return Fail(Transport);
        case Response(target, payload, delivered) =>
          if !delivered {
            return Fail(Io);
          }
          ghost var answered := Answered(request, target, payload);
          AfterAnswer(trace, asked, answers, stream, nextId, answered);
          OneMoreAnswer(answers, answered, bytesFromClient, bytesFromTarget, firstRemote);
          if firstRemote.None? {
            firstRemote := Some(target);
          }
          bytesFromClient := bytesFromClient + |request.payload|;
          bytesFromTarget := bytesFromTarget + |payload|;
          trace := Answer(trace, Answered(request, target, payload));
          return Continue;
      }
    }

    /** Forwards a request and waits for its answer. */
    method Serve(request: Request, exchange: Exchange, ghost asked: seq<Request>, ghost answers: seq<Answered>)
      returns (step: Step)
      requires Valid(asked, answers)
      modifies this
      ensures firstPeer == old(firstPeer)
      ensures step == AfterRequest(asked, request, exchange)
      ensures !step.Fail? ==> Valid(asked + [request], answers + AnswerFor(request, exchange.reply))
      ensures step.Fail? ==>
        Sound(trace, if Unsendable(asked, request, exchange) then asked else asked + [request], answers)
    {
      var sent := Forward(request, exchange, asked, answers);
      if !sent {
        return Fail(Transport);
      }
      step := AwaitAnswer(request, exchange.reply, asked + [request], answers);
      ConcatEmpty(answers);
    }

    /** Relays one datagram routed to the association. */
    method RelayDatagram(
      inbound: Inbound, exchange: Exchange, ghost asked: seq<Request>, ghost answers: seq<Answered>)
      returns (step: Step)
      requires Valid(asked, answers)
      modifies this
      ensures firstPeer == Some(OrElse(old(firstPeer), inbound.peer))
      ensures step == AfterDatagram(firstPeer.value, asked, inbound, exchange)
      ensures firstPeer.value != inbound.peer ==> Valid(asked, answers) && trace == old(trace)
      ensures firstPeer.value == inbound.peer && !step.Fail? ==>
        Valid(asked + Requested(inbound), answers + AnswerTo(inbound, exchange.reply))
      ensures step.Fail? && Requested(inbound) == [] ==> Sound(trace, asked, answers)
      ensures step.Fail? && Requested(inbound) != [] ==>
        Sound(trace,
              if Unsendable(asked, Requested(inbound)[0], exchange) then asked else asked + Requested(inbound),
              answers)
    {
      if firstPeer.Some? && firstPeer.value != inbound.peer {
        return Continue;
      }
      firstPeer := Some(inbound.peer);
      var decoded := DecodeUdp(inbound.datagram);
      if decoded.Err? {
        DecodeUdpError(inbound.datagram);
        return Fail(decoded.error);
      }
      step := Serve(Request(inbound.peer, decoded.value.target, decoded.value.payload), exchange, asked, answers);
    }

    /** One turn of the loop, on event number `n`. */
    method Turn(events: seq<Event>, n: nat) returns (step: Step)
      requires n < |events|
      requires Valid(RequestsIn(events, n), AnswersIn(events, n)) && firstPeer == FirstPeer(events, n)
      modifies this
      ensures step == StepAt(events, n)
      ensures firstPeer == FirstPeer(events, n + 1)
      ensures !step.Fail? ==> Valid(RequestsIn(events, n + 1), AnswersIn(events, n + 1))
      ensures step.Fail? ==> Sound(trace, SentWhenFailed(events, n), AnswersIn(events, n))
    {
      ConcatEmpty(RequestsIn(events, n));
      match events[n] {
        case Closed => step := Break;
        case ChannelEnded => step := Break;
        case Byte => step := Fail(InvalidSocks5Request);
        case Broken => step := Fail(Io);
        case Datagram(inbound, exchange) =>
          step := RelayDatagram(inbound, exchange, RequestsIn(events, n), AnswersIn(events, n));
      }
    }

    /** The loop, until an event ends it. */
    method Run(events: seq<Event>) returns (last: Step, handled: nat)
      requires Valid([], []) && firstPeer.None?
      modifies this
      ensures handled <= |events| && EndsAt(events, handled) && last == LastStep(events, handled)
      ensures firstPeer == FirstPeer(events, handled)
      ensures !last.Fail? ==> Valid(RequestsIn(events, handled), AnswersIn(events, handled))
      ensures last.Fail? ==>
        handled > 0 && Sound(trace, SentWhenFailed(events, handled - 1), AnswersIn(events, handled - 1))
    {
      hide StepAt, SentWhenFailed, Amounts, Totals, Sound;
      handled := 0;
      while handled < |events|
        invariant handled <= |events| && GoesOn(events, handled)
        invariant Valid(RequestsIn(events, handled), AnswersIn(events, handled))
        invariant firstPeer == FirstPeer(events, handled)
      {
        last := Turn(events, handled);
        handled := handled + 1;
        if !last.Continue? {
          return;
        }
      }
      last := Break;
    }

    /** Leaves the loop: finishes the open stream and reports, if anything was relayed at all. */
    method Close(controlPeer: SocketAddr, finishes: bool, ghost asked: seq<Request>, ghost answers: seq<Answered>)
      returns (result: Result<Report, ClientError>)
      requires Valid(asked, answers)
      modifies this`stream, this`trace
      ensures Sound(trace, asked, answers)
      ensures finishes || asked == [] ==> Opened(trace) == Finished(trace)
      ensures result ==
        if asked != [] && !finishes then Err(Transport)
        else if firstPeer.None? || answers == [] then Err(InvalidSocks5Request)
        else Ok(Report(controlPeer, firstPeer.value, answers[0].from, ClientBytes(answers), TargetBytes(answers)))
    {
      StreamsBalance(trace);
      if stream.Some? {
        if !finishes {
          return Err(Transport);
        }
        AfterFinish(trace, asked, answers, stream.value, nextId);
        trace := Finish(trace, stream.value.id);
        stream := None;
      }
      if firstPeer.None? || firstRemote.None? {
        return Err(InvalidSocks5Request);
      }
      return Ok(Report(controlPeer, firstPeer.value, firstRemote.value, bytesFromClient, bytesFromTarget));
    }
  }

  /**
    * The whole relay task. The end of the event list stands for the control connection closing;
    * `finishes` says whether the last stream can be finished.
    */
  method RelayAssociation(controlPeer: SocketAddr, connected: bool, events: seq<Event>, finishes: bool)
    returns (result: Result<Report, ClientError>, trace: Trace, handled: nat)
    ensures !connected ==> result == Err(Transport) && trace == Start && handled == 0
    ensures handled <= |events| && (connected ==> StopsAt(events, handled))
    ensures connected ==> Reported(controlPeer, events, handled, finishes, result)
    ensures connected && !LeftAt(events, handled) ==>
      handled > 0 && Sound(trace, SentWhenFailed(events, handled - 1), AnswersIn(events, handled - 1))
    ensures connected && LeftAt(events, handled) ==>
      && Sound(trace, RequestsIn(events, handled), AnswersIn(events, handled))
      && (finishes || RequestsIn(events, handled) == [] ==> Opened(trace) == Finished(trace))
  {
    hide EndsAt, StopsAt, Reported, LeftAt, LastStep, SentWhenFailed, RequestsIn, AnswersIn, FirstPeer,
      ClientBytes, TargetBytes, Amounts, Totals;
    if !connected {
      return Err(Transport), Start, 0;
    }
    var relay := new Relay();
    var last;
    last, handled := relay.Run(events);
    EndMeans(events, handled);
    OutcomeMeans(controlPeer, events, handled, finishes);
    LeftMeans(events, handled);
    if last.Fail? {
      return Err(last.error), relay.trace, handled;
    }
    result := relay.Close(controlPeer, finishes, RequestsIn(events, handled), AnswersIn(events, handled));
    trace := relay.trace;
  }

  /** A clean end finished every stream it opened, one for each run of equal targets. */
  lemma {:induction false} CleanEnd(
    controlPeer: SocketAddr, events: seq<Event>, handled: nat, finishes: bool, trace: Trace,
    result: Result<Report, ClientError>)
    requires handled <= |events| && Reported(controlPeer, events, handled, finishes, result) && result.Ok?
    requires Sound(trace, RequestsIn(events, handled), AnswersIn(events, handled))
    requires finishes || RequestsIn(events, handled) == [] ==> Opened(trace) == Finished(trace)
    ensures Live(trace).None? && Finished(trace) == Opened(trace) == Runs(RequestsIn(events, handled))
    ensures forall id: nat :: WasFinished(trace, id) <==> id < Opened(trace)
  {
    hide LeftAt, BreaksIo, LosesStream, Misbehaves;
    StreamsBalance(trace);
    forall id: nat ensures WasFinished(trace, id) <==> id < Opened(trace) {
      FinishedOnce(trace, id);
    }
  }
}
