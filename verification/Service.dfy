/** Calls and answers: where arguments travel, how a request is served, and what the caller
    receives (extensions/muxio-rpc-service-caller and extensions/muxio-rpc-service-endpoint). */
module Service {
  import opened Bytes
  import opened Sequences
  import opened FrameCodec
  import opened RpcStream
  import opened Routing
  import opened Inbox
  import opened Dispatcher
  import opened Ids
  import opened Lanes
  import Session
  import FrameEncoder

  const DEFAULT_SERVICE_MAX_CHUNK_SIZE: nat := 65536

  datatype Status = Success | Fail | SystemError | MethodNotFound

  datatype ErrorCode = CodeFail | CodeSystem | CodeNotFound

  /** What a user handler comes back with: a result, a structured error (with its encoding), or
      any other error (with its text). */
  datatype HandlerResult =
    | Returned(bytes: Bytes.Data)
    | Refused(code: ErrorCode, encoded: Bytes.Data)
    | Crashed(text: Bytes.Data)

  type Handler = Bytes.Data -> HandlerResult

  type Service = map<U64, Handler>

  function StatusByte(s: Status): Byte {
    match s
    case Success => 0
    case Fail => 1
    case SystemError => 2
    case MethodNotFound => 3
  }

  function StatusOf(b: Byte): Option<Status> {
    match b
    case 0 => Some(Success)
    case 1 => Some(Fail)
    case 2 => Some(SystemError)
    case 3 => Some(MethodNotFound)
    case _ => None
  }

  // ---------------------------------------------------------------- the caller's request

  /** Small arguments travel as parameters in the header, large ones as payload. */
  function PlaceArgs(methodId: U64, args: Bytes.Data): Request {
    if |args| >= DEFAULT_SERVICE_MAX_CHUNK_SIZE then Request(methodId, None, Some(args), true)
    else Request(methodId, Some(args), None, true)
  }

  /** Where the endpoint looks for them. */
  function ArgsOf(r: Request): Bytes.Data {
    var payload := PayloadOf(r.payload);
    if payload != [] then payload else PayloadOf(r.params)
  }

  /** For every argument string, of whatever length, the header has room for its metadata, and
      what the receiver rebuilds from the message yields the arguments. */
  lemma ArgsArrive(id: U32, methodId: U64, args: Bytes.Data)
    ensures var request := PlaceArgs(methodId, args);
            var h := CallHeader(id, request);
            && |h.metadata| < TWO_16
            && ArgsOf(RequestFrom(h, PayloadOf(request.payload), true)) == args
  {
  }

  /** Arguments travel as parameters exactly when the length field of the header can hold them. */
  lemma ArgsPlaced(methodId: U64, args: Bytes.Data)
    ensures var request := PlaceArgs(methodId, args);
            && request.methodId == methodId && request.isFinalized
            && (if |args| < TWO_16 then request.params == Some(args) && request.payload == None
                else request.params == None && request.payload == Some(args))
  {
  }

  /** Whatever a request carries, the trip through the wire does not change what its handler is given:
      the payload, or the parameters if there is none. */
  lemma ArgsSurvive(request: Request)
    ensures ArgsOf(Normal(request)) == ArgsOf(request)
    ensures ArgsOf(request) == if PayloadOf(request.payload) == [] then PayloadOf(request.params) else request.payload.value
  {
  }

  // ---------------------------------------------------------------- the endpoint's answer

  function StatusFor(code: ErrorCode): Status {
    match code
    case CodeFail => Fail
    case CodeSystem => SystemError
    case CodeNotFound => MethodNotFound
  }

  function Answer(service: Service, id: U32, request: Request): Reply {
    if request.methodId in service then
      match service[request.methodId](ArgsOf(request))
      case Returned(bytes) => Reply(id, request.methodId, Some(StatusByte(Success)), Some(bytes), true)
      case Refused(code, encoded) => Reply(id, request.methodId, Some(StatusByte(StatusFor(code))), Some(encoded), true)
      case Crashed(text) => Reply(id, request.methodId, Some(StatusByte(SystemError)), Some(text), true)
    else Reply(id, request.methodId, Some(StatusByte(MethodNotFound)), None, true)
  }

  /** An answer names the request and the method it answers, and goes out as a finalized response. */
  lemma AnswerNames(service: Service, id: U32, request: Request)
    ensures var h := ReplyHeader(Answer(service, id, request));
            && h.msgType == Response && h.requestId == id && h.methodId == request.methodId && |h.metadata| == 1
            && HeaderBytes(h)[0] == 1 && Answer(service, id, request).isFinalized
  {
  }

  /** Stage two of serving: one answer per request, in order. */
  method RunHandlers(service: Service, requests: seq<Entry>) returns (replies: seq<Reply>)
    ensures |replies| == |requests|
    ensures forall i | 0 <= i < |requests| :: replies[i] == Answer(service, requests[i].id, requests[i].request)
  {
    replies := [];
    for i := 0 to |requests|
      invariant |replies| == i
      invariant forall j | 0 <= j < i :: replies[j] == Answer(service, requests[j].id, requests[j].request)
    {
      replies := replies + [Answer(service, requests[i].id, requests[i].request)];
    }
  }

  /** Stage one of serving: read the bytes and take every finalized request out of the queue. */
  method DecodeBytes(dispatcher: RpcDispatcher, bytes: Bytes.Data)
    returns (ds: seq<Delivery>, r: Result<seq<Entry>, FrameDecodeError>)
    requires QueueInv(dispatcher.queue)
    modifies dispatcher`queue, dispatcher.respondable, dispatcher.respondable.session`decoders, dispatcher.respondable.session.mux
    ensures QueueInv(dispatcher.queue)
    ensures var (s, outs, err) := Session.Read(old(dispatcher.respondable.Abs()), bytes);
            var filled := RunQueue(old(dispatcher.queue), CatchAlls(ds));
            && dispatcher.respondable.Abs() == s
            && dispatcher.respondable.clock == old(dispatcher.respondable.clock) + |outs|
            && dispatcher.respondable.streaming == old(dispatcher.respondable.streaming)
            && (dispatcher.respondable.SlotMap(), ds)
               == Run(ROUTER, old(dispatcher.respondable.SlotMap()),
                      ArrivalsAt(Session.Events(outs), old(dispatcher.respondable.clock), dispatcher.respondable.streaming))
            && if err.Some? then r == Err(err.value) && dispatcher.queue == filled
               else r == Ok(Finalized(filled)) && dispatcher.queue == Unfinalized(filled)
  {
    var ids: Result<seq<U32>, FrameDecodeError>;
    ds, ids := dispatcher.ReadBytes(bytes);
    RunQueueKeeps(old(dispatcher.queue), CatchAlls(ds));
    match ids {
      case Err(e) => r := Err(e);
      case Ok(active) =>
        var out := HandOut(dispatcher, active);
        UnfinalizedKeeps(RunQueue(old(dispatcher.queue), CatchAlls(ds)));
        r := Ok(out);
    }
  }

  /** The loop over the active ids: exactly the finalized requests are handed out, each once and
      in order, and exactly the others stay. */
  method HandOut(dispatcher: RpcDispatcher, ids: seq<U32>) returns (out: seq<Entry>)
    requires QueueInv(dispatcher.queue) && |ids| == |dispatcher.queue|
    requires forall i | 0 <= i < |ids| :: ids[i] == dispatcher.queue[i].id
    modifies dispatcher`queue
    ensures out == Finalized(old(dispatcher.queue)) && dispatcher.queue == Unfinalized(old(dispatcher.queue))
  {
    out := [];
    ghost var start := dispatcher.queue;
    for i := 0 to |ids|
      invariant HandedOut(start, i, dispatcher.queue, out)
    {
      FindsOwn(start, i, dispatcher.queue, out);
      var ready := dispatcher.IsFinalized(ids[i]);
      if ready == Some(true) {
        HandOutReady(start, i, dispatcher.queue, out);
        var request := dispatcher.Delete(ids[i]);
        if request.Some? {
          out := out + [Entry(ids[i], request.value)];
        }
      } else {
        HandOutSkip(start, i, dispatcher.queue, out);
      }
    }
    assert start[..|start|] == start;
  }

  /** Stage three of serving: one complete stream per reply, on consecutively drawn stream ids. */
  method SendResponses(dispatcher: RpcDispatcher, replies: seq<Reply>, counter: IdCounter) returns (sent: seq<seq<Bytes.Data>>)
    requires counter.Valid()
    modifies dispatcher.respondable.session`nextStreamId, counter
    ensures counter.Valid() && counter.draws == old(counter.draws) + |replies|
    ensures |sent| == |replies|
    ensures var session := dispatcher.respondable.session;
            forall i | 0 <= i < |replies| ::
              sent[i] == FrameEncoder.EncodeEach(ReplyFrames(
                NthId(session.space, old(session.nextStreamId), old(counter.draws), i), replies[i]))
  {
    sent := [];
    var session := dispatcher.respondable.session;
    ghost var next, draws := session.nextStreamId, counter.draws;
    for i := 0 to |replies|
      invariant counter.Valid() && counter.draws == draws + i
      invariant Place(session.space, session.nextStreamId) == NthId(session.space, next, draws, i)
      invariant |sent| == i
      invariant forall j | 0 <= j < i ::
                  sent[j] == FrameEncoder.EncodeEach(ReplyFrames(NthId(session.space, next, draws, j), replies[j]))
    {
      var e := dispatcher.Respond(replies[i], DEFAULT_SERVICE_MAX_CHUNK_SIZE, counter);
      sent := sent + [e.encoder.emitted];
    }
  }

  function ReplyFrames(streamId: U32, reply: Reply): seq<Frame> {
    MessageRun(streamId, DEFAULT_SERVICE_MAX_CHUNK_SIZE, ReplyHeader(reply), reply.payload, reply.isFinalized).frames
  }

  // ---------------------------------------------------------------- what the caller receives

  /** The text of an error: the payload read as text, or what is put in its place. */
  datatype Text = Lossy(bytes: Bytes.Data) | StatusName(status: Status) | NoText

  datatype ServiceError = Transport(cause: FrameDecodeError) | Rpc(code: ErrorCode, message: Text)

  type ChannelItem = Result<Bytes.Data, ServiceError>

  /** The state of the receive closure and the channel it feeds. */
  datatype Receiver = Receiver(status: Option<Status>, errorBuffer: Bytes.Data, isOpen: bool, items: seq<ChannelItem>)

  const LISTENING := Receiver(None, [], true, [])

  function StatusIn(h: RpcHeader): Status {
    if h.metadata != [] && StatusOf(h.metadata[0]).Some? then StatusOf(h.metadata[0]).value else Success
  }

  /** A response counts as a success unless its first metadata byte says otherwise. */
  lemma SuccessIff(h: RpcHeader)
    ensures StatusIn(h) == Success <==> h.metadata == [] || h.metadata[0] !in {1, 2, 3}
    ensures h.metadata != [] ==>
              && (h.metadata[0] == 1 ==> StatusIn(h) == Fail) && (h.metadata[0] == 2 ==> StatusIn(h) == SystemError)
              && (h.metadata[0] == 3 ==> StatusIn(h) == MethodNotFound)
  {
  }

  function TextOr(payload: Bytes.Data, status: Status): Text {
    if payload == [] then StatusName(status) else Lossy(payload)
  }

  function FinalError(status: Status, payload: Bytes.Data): ServiceError
    requires status != Success
  {
    match status
    case MethodNotFound => Rpc(CodeNotFound, TextOr(payload, status))
    case Fail => Rpc(CodeFail, NoText)
    case SystemError => Rpc(CodeSystem, TextOr(payload, status))
  }

  function ReceiveStep(s: Receiver, e: RpcEvent): Receiver {
    match e
    case HeaderEvent(_, _, h) => s.(status := Some(StatusIn(h)))
    case PayloadChunk(_, _, _, bytes) =>
      if s.status == Some(Success) then (if s.isOpen then s.(items := s.items + [Ok(bytes)]) else s)
      else s.(errorBuffer := s.errorBuffer + bytes)
    case EndEvent(_, _, _) =>
      Receiver(None, [], false,
        if s.isOpen && s.status.Some? && s.status != Some(Success)
        then s.items + [Err(FinalError(s.status.value, s.errorBuffer))] else s.items)
    case ErrorEvent(_, _, _, cause) =>
      if s.isOpen then s.(isOpen := false, items := s.items + [Err(ServiceError.Transport(cause))]) else s
  }

  class CallReceiver {
    var status: Option<Status>
    var errorBuffer: Bytes.Data
    /** The sending half of the channel, until it is dropped. */
    var isOpen: bool
    /** What has been sent into the channel. */
    var items: seq<ChannelItem>

    ghost function Abs(): Receiver
      reads this
    {
      Receiver(status, errorBuffer, isOpen, items)
    }

    constructor ()
      ensures Abs() == LISTENING
    {
      status, errorBuffer, isOpen, items := None, [], true, [];
    }

    method OnEvent(evt: RpcEvent)
      modifies this
      ensures Abs() == ReceiveStep(old(Abs()), evt)
    {
      match evt {
        case HeaderEvent(_, _, header) =>
          var result := Success;
          if |header.metadata| > 0 {
            var known := StatusOf(header.metadata[0]);
            if known.Some? {
              result := known.value;
            }
          }
          status := Some(result);
        case PayloadChunk(_, _, _, bytes) =>
          if status == Some(Success) {
            if isOpen {
              items := items + [Ok(bytes)];
            }
          } else {
            errorBuffer := errorBuffer + bytes;
          }
        case EndEvent(_, _, _) =>
          var final := status;
          var payload := errorBuffer;
          status, errorBuffer := None, [];
          if isOpen && final.Some? {
            match final.value {
              case MethodNotFound => items := items + [Err(Rpc(CodeNotFound, TextOr(payload, MethodNotFound)))];
              case Fail => items := items + [Err(Rpc(CodeFail, NoText))];
              case SystemError => items := items + [Err(Rpc(CodeSystem, TextOr(payload, SystemError)))];
              case Success =>
            }
          }
          isOpen := false;
        case ErrorEvent(_, _, _, cause) =>
          if isOpen {
            isOpen := false;
            items := items + [Err(ServiceError.Transport(cause))];
          }
      }
    }
  }

  function Receive(s: Receiver, events: seq<RpcEvent>): Receiver {
    if events == [] then s else ReceiveStep(Receive(s, events[..|events| - 1]), events[|events| - 1])
  }

  /** One call of a handler feeds the channel of its own call. */
  method DeliverOne(d: Delivery, receivers: map<Token, CallReceiver>)
    requires Unshared(receivers)
    modifies set t | t in receivers :: receivers[t]
    ensures forall t | t in receivers ::
              receivers[t].Abs() == if DeliveryToken(d) == Some(t) then ReceiveStep(old(receivers[t].Abs()), d.event)
                                    else old(receivers[t].Abs())
  {
    if d.ToHandler? && d.token in receivers {
      receivers[d.token].OnEvent(d.event);
    }
  }

  /** The calls of the handlers of a batch, in order. */
  method Deliver(ds: seq<Delivery>, receivers: map<Token, CallReceiver>)
    requires Unshared(receivers)
    modifies set t | t in receivers :: receivers[t]
    ensures forall t | t in receivers ::
              receivers[t].Abs() == Receive(old(receivers[t].Abs()), HandlerCalls(Select(DeliveryToken, ds, t)))
  {
    ghost var start := map t | t in receivers :: receivers[t].Abs();
    for i := 0 to |ds|
      invariant forall t | t in receivers :: receivers[t].Abs() == Fed(start[t], ds[..i], t)
    {
      forall t | t in receivers
        ensures Fed(start[t], ds[..i + 1], t) == FedOne(Fed(start[t], ds[..i], t), ds[i], t)
      {
        FedNext(start[t], ds, i, t);
      }
      DeliverOne(ds[i], receivers);
    }
    assert ds[..|ds|] == ds;
  }

  ghost function Fed(s: Receiver, ds: seq<Delivery>, t: Token): Receiver {
    Receive(s, HandlerCalls(Select(DeliveryToken, ds, t)))
  }

  ghost function FedOne(s: Receiver, d: Delivery, t: Token): Receiver {
    if DeliveryToken(d) == Some(t) then ReceiveStep(s, d.event) else s
  }

  ghost predicate Unshared(receivers: map<Token, CallReceiver>) {
    forall s, t | s in receivers && t in receivers && s != t :: receivers[s] != receivers[t]
  }

  lemma FedNext(s: Receiver, ds: seq<Delivery>, i: nat, t: Token)
    requires i < |ds|
    ensures Fed(s, ds[..i + 1], t) == FedOne(Fed(s, ds[..i], t), ds[i], t)
  {
    assert ds[..i + 1] == ds[..i] + [ds[i]];
    SelectAppend(DeliveryToken, ds[..i], [ds[i]], t);
    SelectOne(DeliveryToken, ds[i], t);
    CallsAppend(Select(DeliveryToken, ds[..i], t), Select(DeliveryToken, [ds[i]], t));
    CallsOfOne(ds[i]);
    var calls := HandlerCalls(Select(DeliveryToken, ds[..i], t));
    if DeliveryToken(ds[i]) == Some(t) {
      ReceiveSnoc(s, calls, ds[i].event);
    } else {
      assert calls + [] == calls;
    }
  }

  lemma ReceiveSnoc(s: Receiver, events: seq<RpcEvent>, e: RpcEvent)
    ensures Receive(s, events + [e]) == ReceiveStep(Receive(s, events), e)
  {
    assert (events + [e])[..|events|] == events;
  }

  lemma {:induction false} ReceiveAppend(s: Receiver, a: seq<RpcEvent>, b: seq<RpcEvent>)
    ensures Receive(s, a + b) == Receive(Receive(s, a), b)
  {
    if b == [] {
      assert a + b == a;
    } else {
      var n := |b| - 1;
      ReceiveAppend(s, a, b[..n]);
      assert (a + b)[..|a + b| - 1] == a + b[..n];
    }
  }

  /** What comes before a header is held back, and without a header nothing reaches the channel. */
  lemma {:induction false} NothingWithoutHeader(h: RpcHeader, cs: seq<Bytes.Data>)
    ensures Receive(LISTENING, Chunks(h, cs)) == Receiver(None, Flatten(cs), true, [])
    ensures Receive(LISTENING, Chunks(h, cs) + [EndOf(h)]) == Receiver(None, [], false, [])
  {
    if cs != [] {
      var n := |cs| - 1;
      NothingWithoutHeader(h, cs[..n]);
      assert Chunks(h, cs)[..n] == Chunks(h, cs[..n]);
    }
    ReceiveSnoc(LISTENING, Chunks(h, cs), EndOf(h));
  }

  /** Whatever was heard before, the latest header decides whether a chunk is passed on. */
  lemma LatestHeaderDecides(events: seq<RpcEvent>, h: RpcHeader, c: Bytes.Data)
    ensures var before := Receive(LISTENING, events);
            var after := Receive(LISTENING, events + [HeaderOf(h)] + [ChunkOf(h, c)]);
            && after.isOpen == before.isOpen
            && after.items == if before.isOpen && StatusIn(h) == Success then before.items + [Ok(c)] else before.items
  {
    ReceiveSnoc(LISTENING, events, HeaderOf(h));
    ReceiveSnoc(LISTENING, events + [HeaderOf(h)], ChunkOf(h, c));
  }

  /** At most one error is ever sent, as the last item, and then the channel is closed. */
  ghost predicate ErrorClosesChannel(s: Receiver) {
    forall i | 0 <= i < |s.items| && s.items[i].Err? :: i == |s.items| - 1 && !s.isOpen
  }

  /** For every sequence of events whatsoever. */
  lemma {:induction false} OneErrorAtMost(events: seq<RpcEvent>)
    ensures ErrorClosesChannel(Receive(LISTENING, events))
    ensures forall k | 0 <= k <= |events| && !Receive(LISTENING, events[..k]).isOpen ::
              Receive(LISTENING, events).items == Receive(LISTENING, events[..k]).items && !Receive(LISTENING, events).isOpen
  {
    if events != [] {
      var n := |events| - 1;
      OneErrorAtMost(events[..n]);
      forall k | 0 <= k <= |events| && !Receive(LISTENING, events[..k]).isOpen
        ensures Receive(LISTENING, events).items == Receive(LISTENING, events[..k]).items && !Receive(LISTENING, events).isOpen
      {
        if k == |events| {
          assert events[..k] == events;
        } else {
          assert events[..n][..k] == events[..k];
        }
      }
    }
  }

  /** A transport error while the channel is open is its last item. */
  lemma DisconnectReported(events: seq<RpcEvent>, r: Option<U32>, cause: FrameDecodeError)
    ensures var before := Receive(LISTENING, events);
            var after := Receive(LISTENING, events + [ErrorEvent(None, r, None, cause)]);
            && !after.isOpen
            && after.items == if before.isOpen then before.items + [Err(ServiceError.Transport(cause))] else before.items
  {
    ReceiveSnoc(LISTENING, events, ErrorEvent(None, r, None, cause));
  }

  function OkItems(cs: seq<Bytes.Data>): (r: seq<ChannelItem>)
    ensures |r| == |cs| && forall i | 0 <= i < |cs| :: r[i] == Ok(cs[i])
  {
    seq(|cs|, i requires 0 <= i < |cs| => Ok(cs[i]))
  }

  /** The receiver after a response so far: chunks of a success are passed on as they come; those
      of a failure are held back, and one error is sent at the end. */
  function ReceiverAt(h: RpcHeader, cs: seq<Bytes.Data>, ended: bool): Receiver {
    var status := StatusIn(h);
    if status == Success then Receiver(if ended then None else Some(Success), [], !ended, OkItems(cs))
    else if ended then Receiver(None, [], false, [Err(FinalError(status, Flatten(cs)))])
    else Receiver(Some(status), Flatten(cs), true, [])
  }

  lemma {:induction false} ReceivesScript(h: RpcHeader, cs: seq<Bytes.Data>)
    ensures Receive(LISTENING, Script(h, cs, false)) == ReceiverAt(h, cs, false)
    ensures Receive(LISTENING, Script(h, cs, true)) == ReceiverAt(h, cs, true)
  {
    if cs == [] {
      var none: seq<RpcEvent> := [];
      ReceiveSnoc(LISTENING, none, HeaderOf(h));
      assert Script(h, cs, false) == none + [HeaderOf(h)];
      assert OkItems(cs) == [];
    } else {
      var n := |cs| - 1;
      var front, c := cs[..n], cs[n];
      assert cs == front + [c];
      ReceivesScript(h, front);
      ScriptExtend(h, front, c);
      FlattenSnoc(front, c);
      ReceiveSnoc(LISTENING, Script(h, front, false), ChunkOf(h, c));
      assert OkItems(cs) == OkItems(front) + [Ok(c)];
    }
    ScriptExtend(h, cs, []);
    ReceiveSnoc(LISTENING, Script(h, cs, false), EndOf(h));
    if StatusIn(h) != Success {
      var none: seq<ChannelItem>, x: ChannelItem := [], Err(FinalError(StatusIn(h), Flatten(cs)));
      assert none + [x] == [x];
    }
  }

  // ---------------------------------------------------------------- collecting

  /** The bytes of the leading successes, or the first error. */
  function Collected(items: seq<ChannelItem>): ChannelItem {
    if items == [] then Ok([])
    else
      var r := Collected(items[..|items| - 1]);
      var x := items[|items| - 1];
      if r.Err? then r else if x.Err? then x else Ok(r.value + x.value)
  }

  predicate AllOk(items: seq<ChannelItem>) {
    forall i | 0 <= i < |items| :: items[i].Ok?
  }

  function Values(items: seq<ChannelItem>): (r: seq<Bytes.Data>)
    requires AllOk(items)
    ensures |r| == |items| && forall i | 0 <= i < |items| :: Ok(r[i]) == items[i]
  {
    seq(|items|, i requires 0 <= i < |items| => items[i].value)
  }

  /** A channel without an error is collected to everything in it. */
  lemma {:induction false} CollectedAll(items: seq<ChannelItem>)
    requires AllOk(items)
    ensures Collected(items) == Ok(Flatten(Values(items)))
  {
    if items != [] {
      var n := |items| - 1;
      CollectedAll(items[..n]);
      assert Values(items)[..n] == Values(items[..n]);
    }
  }

  /** The first error in a channel is what is collected, whatever is around it. */
  lemma {:induction false} CollectedError(items: seq<ChannelItem>, i: nat)
    requires i < |items| && items[i].Err? && AllOk(items[..i])
    ensures Collected(items) == items[i]
  {
    var n := |items| - 1;
    if i == n {
      CollectedAll(items[..n]);
    } else {
      assert items[..n][..i] == items[..i];
      CollectedError(items[..n], i);
    }
  }

  /** The loop that drains the channel of a buffered call: all of a channel without an error, and
      otherwise the first error. */
  method Collect(items: seq<ChannelItem>) returns (r: ChannelItem)
    ensures AllOk(items) ==> r == Ok(Flatten(Values(items)))
    ensures forall i | 0 <= i < |items| && items[i].Err? && AllOk(items[..i]) :: r == items[i]
    ensures r == Collected(items)
  {
    var buffer: Bytes.Data := [];
    for i := 0 to |items|
      invariant AllOk(items[..i]) && Collected(items[..i]) == Ok(buffer)
    {
      assert items[..i + 1][..i] == items[..i];
      match items[i] {
        case Ok(chunk) =>
          buffer := buffer + chunk;
        case Err(e) =>
          CollectedError(items, i);
          FirstErrorOnly(items, i);
          return Err(e);
      }
    }
    assert items[..|items|] == items;
    CollectedAll(items);
    r := Ok(buffer);
  }

  lemma FirstErrorOnly(items: seq<ChannelItem>, i: nat)
    requires i < |items| && items[i].Err? && AllOk(items[..i])
    ensures forall j | 0 <= j < |items| && items[j].Err? && AllOk(items[..j]) :: j == i
  {
    assert forall j | 0 <= j < i :: items[..i][j] == items[j];
    forall j | i < j < |items|
      ensures !AllOk(items[..j])
    {
      assert items[..j][i] == items[i];
    }
  }

  lemma {:induction false} CollectsChunks(cs: seq<Bytes.Data>)
    ensures Collected(OkItems(cs)) == Ok(Flatten(cs))
  {
    if cs != [] {
      var n := |cs| - 1;
      CollectsChunks(cs[..n]);
      assert OkItems(cs)[..n] == OkItems(cs[..n]);
    }
  }

  /** What a call should come to: the handler applied to the arguments. A failure keeps the code of
      its cause; its text is what the handler said, or the name of the status if it said nothing, and
      is dropped for a plain failure. */
  function Expected(service: Service, methodId: U64, args: Bytes.Data): ChannelItem {
    if methodId !in service then Err(Rpc(CodeNotFound, StatusName(MethodNotFound)))
    else
      match service[methodId](args)
      case Returned(bytes) => Ok(bytes)
      case Refused(CodeFail, _) => Err(Rpc(CodeFail, NoText))
      case Refused(CodeSystem, text) => Err(Rpc(CodeSystem, if text == [] then StatusName(SystemError) else Lossy(text)))
      case Refused(CodeNotFound, text) =>
        Err(Rpc(CodeNotFound, if text == [] then StatusName(MethodNotFound) else Lossy(text)))
      case Crashed(text) => Err(Rpc(CodeSystem, if text == [] then StatusName(SystemError) else Lossy(text)))
  }

  /** A complete reply with a status, cut into any chunks: a success is collected whole, and a
      failure is a single error. */
  lemma ReplyCollected(reply: Reply, status: Status, cs: seq<Bytes.Data>)
    requires reply.status == Some(StatusByte(status))
    ensures var s := Receive(LISTENING, Script(ReplyHeader(reply), cs, true));
            && !s.isOpen
            && (if status == Success then Collected(s.items) == Ok(Flatten(cs))
                else s.items == [Err(FinalError(status, Flatten(cs)))] && Collected(s.items) == s.items[0])
  {
    ReceivesScript(ReplyHeader(reply), cs);
    assert StatusIn(ReplyHeader(reply)) == status;
    if status == Success {
      CollectsChunks(cs);
    } else {
      var items: seq<ChannelItem> := [Err(FinalError(status, Flatten(cs)))];
      assert items[..0] == [];
    }
  }

  /** The whole answer to a call, however it is cut into chunks, makes the caller's collected
      result exactly what the handler computed from the arguments, and closes the channel; a
      failure leaves exactly one item in it. */
  lemma AnswerCollected(service: Service, id: U32, request: Request, cs: seq<Bytes.Data>)
    requires Flatten(cs) == PayloadOf(Answer(service, id, request).payload)
    ensures var h := ReplyHeader(Answer(service, id, request));
            var s := Receive(LISTENING, Script(h, cs, true));
            && !s.isOpen
            && Collected(s.items) == Expected(service, request.methodId, ArgsOf(request))
            && (Collected(s.items).Err? ==> s.items == [Collected(s.items)])
  {
    ReplyCollected(Answer(service, id, request), AnswerStatus(service, request), cs);
  }

  function AnswerStatus(service: Service, request: Request): Status {
    if request.methodId in service then
      match service[request.methodId](ArgsOf(request))
      case Returned(_) => Success
      case Refused(code, _) => StatusFor(code)
      case Crashed(_) => SystemError
    else MethodNotFound
  }
}
