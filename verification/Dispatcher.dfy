/** The dispatcher and the respondable session below it
    (core/src/rpc/rpc_dispatcher.rs and core/src/rpc/rpc_internals/rpc_respondable_session.rs). */
module Dispatcher {
  import opened Bytes
  import opened Sequences
  import opened Lanes
  import opened FrameCodec
  import opened FrameEncoder
  import opened RpcStream
  import opened Ids
  import opened IdBits
  import opened Routing
  import opened Inbox
  import Lifecycle
  import Session

  // ---------------------------------------------------------------- outbound streams

  /** What is written to the stream of a call or a response: the header, a payload if there is
      one, and flush and end if the message is finalized. */
  function MessageOps(h: RpcHeader, payload: Option<Bytes.Data>, isFinalized: bool): seq<Op> {
    [Write(HeaderBytes(h))]
    + (if payload.Some? then [Write(payload.value)] else [])
    + (if isFinalized then [Flush] + [EndStream] else [])
  }

  function MessageRun(streamId: U32, maxChunkSize: nat, h: RpcHeader, payload: Option<Bytes.Data>, isFinalized: bool): Output
    requires maxChunkSize > 0
  {
    RunOps(New(streamId, maxChunkSize), MessageOps(h, payload, isFinalized))
  }

  function PayloadOf(payload: Option<Bytes.Data>): Bytes.Data {
    if payload.Some? then payload.value else []
  }

  /** A finalized call or response goes out as one complete stream that carries its header and
      payload. */
  lemma MessageCompletes(streamId: U32, maxChunkSize: nat, h: RpcHeader, payload: Option<Bytes.Data>)
    requires maxChunkSize > 0 && Fits(MessageRun(streamId, maxChunkSize, h, payload, true).frames)
    ensures Complete(streamId, MessageRun(streamId, maxChunkSize, h, payload, true).frames,
                     HeaderBytes(h) + PayloadOf(payload))
  {
    var first := [Write(HeaderBytes(h))];
    var ops := first + (if payload.Some? then [Write(payload.value)] else []);
    assert MessageOps(h, payload, true) == ops + [Flush] + [EndStream];
    FlushEndCompletes(streamId, maxChunkSize, ops);
    assert first[..0] == [] && Written(first) == [] + HeaderBytes(h);
    if payload.Some? {
      assert ops[..1] == first;
    } else {
      assert ops == first;
      assert HeaderBytes(h) + [] == HeaderBytes(h);
    }
  }

  lemma UnfinalizedWrites(h: RpcHeader, payload: Option<Bytes.Data>)
    ensures OnlyWrites(MessageOps(h, payload, false))
    ensures Written(MessageOps(h, payload, false)) == HeaderBytes(h) + PayloadOf(payload)
  {
    var first := [Write(HeaderBytes(h))];
    var none: seq<Op> := [];
    assert none + first == first;
    WrittenSnoc(none, first[0]);
    assert Written(first) == HeaderBytes(h);
    if payload.Some? {
      WrittenSnoc(first, Write(payload.value));
      assert MessageOps(h, payload, false) == first + [Write(payload.value)];
    } else {
      assert MessageOps(h, payload, false) == first;
      assert HeaderBytes(h) + [] == HeaderBytes(h);
    }
  }

  /** A call or response that is not finalized leaves its stream open, with nothing lost: what is not
      in frames yet is in the buffer of the encoder. */
  lemma UnfinalizedStaysOpen(streamId: U32, maxChunkSize: nat, h: RpcHeader, payload: Option<Bytes.Data>)
    requires maxChunkSize > 0
    ensures var r := MessageRun(streamId, maxChunkSize, h, payload, false);
            && !r.encoder.Closed() && (forall f | f in r.frames :: !Closing(f.kind))
            && Payloads(r.frames) + r.encoder.buffer == HeaderBytes(h) + PayloadOf(payload)
  {
    UnfinalizedWrites(h, payload);
    OpenLaw(streamId, maxChunkSize, MessageOps(h, payload, false));
  }

  /** Everything done to the encoder of a message that is sent on after the call, with writes and
      flushes, and then closed by flush and end. */
  function StreamedOps(h: RpcHeader, payload: Option<Bytes.Data>, more: seq<Op>): seq<Op> {
    MessageOps(h, payload, false) + more + [Flush] + [EndStream]
  }

  /** A message that is streamed goes out as one complete stream that carries its header, the payload
      of the call and everything written afterwards. */
  lemma StreamedCompletes(streamId: U32, maxChunkSize: nat, h: RpcHeader, payload: Option<Bytes.Data>, more: seq<Op>)
    requires maxChunkSize > 0 && OnlyWrites(more)
    requires Fits(RunOps(New(streamId, maxChunkSize), StreamedOps(h, payload, more)).frames)
    ensures Complete(streamId, RunOps(New(streamId, maxChunkSize), StreamedOps(h, payload, more)).frames,
                     HeaderBytes(h) + (PayloadOf(payload) + Written(more)))
  {
    StreamedWrites(h, payload, more);
    FlushEndCompletes(streamId, maxChunkSize, MessageOps(h, payload, false) + more);
  }

  lemma StreamedWrites(h: RpcHeader, payload: Option<Bytes.Data>, more: seq<Op>)
    requires OnlyWrites(more)
    ensures OnlyWrites(MessageOps(h, payload, false) + more)
    ensures Written(MessageOps(h, payload, false) + more) == HeaderBytes(h) + (PayloadOf(payload) + Written(more))
  {
    UnfinalizedWrites(h, payload);
    WrittenAppend(MessageOps(h, payload, false), more);
    Regroup(HeaderBytes(h), PayloadOf(payload), Written(more));
  }

  lemma Regroup(a: Bytes.Data, b: Bytes.Data, c: Bytes.Data)
    ensures (a + b) + c == a + (b + c)
  {
  }

  /** Completes an encoder that has been given the header. */
  method SendRest(e: RpcStreamEncoder, ghost start: Encoder, ghost h: RpcHeader, payload: Option<Bytes.Data>, isFinalized: bool)
    requires start.maxChunkSize > 0 && At(start, [Write(HeaderBytes(h))], e.encoder.Abs(), e.encoder.emitted)
    modifies e.encoder
    ensures At(start, MessageOps(h, payload, isFinalized), e.encoder.Abs(), e.encoder.emitted)
  {
    ghost var ops := [Write(HeaderBytes(h))];
    if payload.Some? {
      AtNext(start, ops, e.encoder.Abs(), e.encoder.emitted, Write(payload.value));
      ops := ops + [Write(payload.value)];
      var _ := e.WriteBytes(payload.value);
    } else {
      assert ops + [] == ops;
    }
    if isFinalized {
      AtNext(start, ops, e.encoder.Abs(), e.encoder.emitted, Flush);
      ops := ops + [Flush];
      var _ := e.FlushBuffer();
      AtNext(start, ops, e.encoder.Abs(), e.encoder.emitted, EndStream);
      assert ops + [EndStream] == MessageOps(h, payload, isFinalized);
      var _ := e.End();
    } else {
      assert ops + [] == ops;
    }
  }

  function CallHeader(id: U32, request: Request): RpcHeader {
    RpcHeader(Call, id, request.methodId, PayloadOf(request.params))
  }

  /** A call goes out as a call of its method, under its id, with its parameters as metadata. */
  lemma CallNames(id: U32, request: Request)
    ensures var h := CallHeader(id, request);
            && h.msgType == Call && HeaderBytes(h)[0] == 0 && h.requestId == id && h.methodId == request.methodId
            && HeaderBytes(h)[RPC_FRAME_FRAME_HEADER_SIZE..] == if request.params.Some? then request.params.value else []
  {
  }

  /** What a request looks like at the other end: empty parameters and payload are absent. */
  function Normal(request: Request): Request {
    request.(params := if PayloadOf(request.params) == [] then None else request.params,
             payload := if PayloadOf(request.payload) == [] then None else request.payload)
  }

  /** The request rebuilt from the message of a finalized call is the request that was made. */
  lemma RequestSurvives(id: U32, request: Request)
    requires request.isFinalized
    ensures RequestFrom(CallHeader(id, request), PayloadOf(request.payload), true) == Normal(request)
  {
  }

  datatype Reply = Reply(
    requestId: U32,
    methodId: U64,
    status: Option<Byte>,
    payload: Option<Bytes.Data>,
    isFinalized: bool)

  function ReplyHeader(reply: Reply): RpcHeader {
    RpcHeader(Response, reply.requestId, reply.methodId, if reply.status.Some? then [reply.status.value] else [])
  }

  // ---------------------------------------------------------------- routing tables

  /** The three tables of the respondable session, read as one slot per request. */
  function SlotsOf(handlers: map<U32, Token>, flags: map<U32, bool>, buffers: map<U32, Bytes.Data>): (s: Slots)
    ensures forall r: U32 :: Get(s, r) == Stored(Slot(Get(handlers, r), Get(flags, r), Get(buffers, r)))
  {
    map r | r in handlers.Keys + flags.Keys + buffers.Keys :: Slot(Get(handlers, r), Get(flags, r), Get(buffers, r))
  }

  lemma SlotsExtensional(s: Slots, t: Slots)
    requires forall r: U32 :: Get(s, r) == Get(t, r)
    ensures s == t
  {
    forall r: U32
      ensures r in s <==> r in t
      ensures r in s ==> s[r] == t[r]
    {
      assert Get(s, r) == Get(t, r);
    }
  }

  /** Tables that differ at one request id differ in one slot. */
  lemma SlotsChange(h: map<U32, Token>, f: map<U32, bool>, b: map<U32, Bytes.Data>,
                    h': map<U32, Token>, f': map<U32, bool>, b': map<U32, Bytes.Data>, r: U32)
    requires forall q: U32 | q != r :: Slot(Get(h', q), Get(f', q), Get(b', q)) == Slot(Get(h, q), Get(f, q), Get(b, q))
    ensures SlotsOf(h', f', b') == Put(SlotsOf(h, f, b), r, Stored(Slot(Get(h', r), Get(f', r), Get(b', r))))
  {
    SlotsExtensional(SlotsOf(h', f', b'), Put(SlotsOf(h, f, b), r, Stored(Slot(Get(h', r), Get(f', r), Get(b', r)))));
  }

  function ArrivalsAt(events: seq<RpcEvent>, clock: Token, streaming: set<U64>): (xs: seq<Input>)
    ensures |xs| == |events| && forall i | 0 <= i < |events| :: xs[i] == Arrive(events[i], clock + i, streaming)
  {
    seq(|events|, i requires 0 <= i < |events| => Arrive(events[i], clock + i, streaming))
  }

  class RpcRespondableSession {
    const session: Session.RpcSession
    var handlers: map<U32, Token>
    var flags: map<U32, bool>
    var buffers: map<U32, Bytes.Data>
    var streaming: set<U64>
    /** The token of the next handler. */
    var clock: Token

    ghost function SlotMap(): Slots
      reads this
    {
      SlotsOf(handlers, flags, buffers)
    }

    ghost function Abs(): Session.State
      reads session, session.mux
    {
      session.Abs()
    }

    constructor (space: IdSpace, counter: IdCounter)
      requires counter.Valid()
      modifies counter
      ensures counter.Valid() && counter.draws == old(counter.draws) + 1
      ensures fresh(session) && fresh(session.mux) && session.space == space && Abs() == Session.EMPTY
      ensures session.nextStreamId == Draw(old(counter.draws))
      ensures SlotMap() == map[] && clock == 0 && streaming == {}
    {
      session := new Session.RpcSession(space, counter);
      handlers, flags, buffers := map[], map[], map[];
      streaming, clock := {}, 0;
      new;
      SlotsExtensional(SlotMap(), map[]);
    }

    method InitRespondableRequest(header: RpcHeader, maxChunkSize: nat, hasHandler: bool, prebuffer: bool, counter: IdCounter)
      returns (e: RpcStreamEncoder)
      requires counter.Valid() && maxChunkSize > 0
      modifies this, session`nextStreamId, counter
      ensures counter.Valid() && counter.draws == old(counter.draws) + 1
      ensures session.nextStreamId == Draw(old(counter.draws))
      ensures clock == old(clock) + 1 && streaming == old(streaming)
      ensures SlotMap() == Step(ROUTER, old(SlotMap()), Register(header.requestId, old(clock), hasHandler, prebuffer)).0
      ensures fresh(e) && fresh(e.encoder)
      ensures At(New(Place(session.space, old(session.nextStreamId)), maxChunkSize), [Write(HeaderBytes(header))],
                 e.encoder.Abs(), e.encoder.emitted)
    {
      var id := header.requestId;
      flags := flags[id := prebuffer];
      if hasHandler {
        handlers := handlers[id := clock];
      }
      clock := clock + 1;
      SlotsChange(old(handlers), old(flags), old(buffers), handlers, flags, buffers, id);
      e := session.InitRequest(header, maxChunkSize, counter);
    }

    /** The routing closure, for one event. */
    method RouteEvent(evt: RpcEvent) returns (ds: seq<Delivery>)
      modifies this
      ensures clock == old(clock) + 1 && streaming == old(streaming)
      ensures (SlotMap(), ds) == Step(ROUTER, old(SlotMap()), Arrive(evt, old(clock), streaming))
    {
      var id := RequestOf(evt);
      if id.Some? {
        ds := RouteTo(id.value, evt);
        forall q: U32 | q != id.value
          ensures Slot(Get(handlers, q), Get(flags, q), Get(buffers, q))
                  == Slot(Get(old(handlers), q), Get(old(flags), q), Get(old(buffers), q))
        {
          assert SlotAt(q) == old(SlotAt(q));
        }
        SlotsChange(old(handlers), old(flags), old(buffers), handlers, flags, buffers, id.value);
      } else {
        ds := [ToCatchAll(evt)];
      }
      clock := clock + 1;
    }

    ghost function SlotAt(r: U32): Slot
      reads this
    {
      Slot(Get(handlers, r), Get(flags, r), Get(buffers, r))
    }

    method RouteTo(r: U32, evt: RpcEvent) returns (ds: seq<Delivery>)
      requires RequestOf(evt) == Some(r)
      modifies this`handlers, this`flags, this`buffers
      ensures (Stored(SlotAt(r)), ds) == SlotStep(Stored(old(SlotAt(r))), Arrive(evt, clock, streaming))
      ensures forall q: U32 | q != r :: SlotAt(q) == old(SlotAt(q))
    {
      if evt.HeaderEvent? && evt.methodId in streaming {
        handlers := handlers[evt.requestId := clock];
      }
      if r in flags && flags[r] {
        ds := PrebufferEvent(r, evt);
        ds := ds + [ToCatchAll(evt)];
      } else if r in handlers {
        ds := [ToHandler(r, handlers[r], evt)];
      } else {
        ds := [ToCatchAll(evt)];
      }
      if Terminal(evt) {
        handlers := handlers - {r};
        flags := flags - {r};
        buffers := buffers - {r};
      }
    }

    method PrebufferEvent(r: U32, evt: RpcEvent) returns (ds: seq<Delivery>)
      requires RequestOf(evt) == Some(r)
      modifies this`flags, this`buffers
      ensures var was := Slot(Get(handlers, r), Get(old(flags), r), Get(old(buffers), r));
              (Slot(Get(handlers, r), Get(flags, r), Get(buffers, r)), ds) == Prebuffer(was, r, evt)
      ensures forall q: U32 | q != r :: Get(flags, q) == Get(old(flags), q) && Get(buffers, q) == Get(old(buffers), q)
    {
      ds := [];
      var buffer := if r in buffers then buffers[r] else [];
      buffers := buffers[r := buffer];
      match evt {
        case HeaderEvent(_, _, _) =>
          if r in handlers {
            ds := [ToHandler(r, handlers[r], evt)];
          }
        case PayloadChunk(_, _, _, bytes) =>
          buffers := buffers[r := buffer + bytes];
        case EndEvent(_, methodId, header) =>
          if r in handlers {
            ds := [ToHandler(r, handlers[r], PayloadChunk(r, methodId, header, buffer)), ToHandler(r, handlers[r], evt)];
            buffers := buffers - {r};
            flags := flags - {r};
          }
        case ErrorEvent(_, _, _, _) =>
      }
    }

    method ReadBytes(bytes: Bytes.Data) returns (ds: seq<Delivery>, error: Option<FrameDecodeError>)
      modifies this, session`decoders, session.mux
      ensures var (s, outs, err) := Session.Read(old(Abs()), bytes);
              && Abs() == s && error == err && streaming == old(streaming) && clock == old(clock) + |outs|
              && (SlotMap(), ds) == Run(ROUTER, old(SlotMap()), ArrivalsAt(Session.Events(outs), old(clock), streaming))
    {
      var events, err := session.ReadBytes(bytes);
      error := err;
      ds := RouteEvents(events);
    }

    method RouteNext(evt: RpcEvent, ghost was: Slots, ghost xs: seq<Input>, ghost i: nat, ds: seq<Delivery>)
      returns (all: seq<Delivery>)
      requires i < |xs| && xs[i] == Arrive(evt, clock, streaming) && RoutedTo(was, xs[..i], SlotMap(), ds)
      modifies this
      ensures clock == old(clock) + 1 && streaming == old(streaming) && RoutedTo(was, xs[..i + 1], SlotMap(), all)
    {
      ghost var before := SlotMap();
      var more := RouteEvent(evt);
      RoutedNext(was, xs, i, before, ds, SlotMap(), more);
      all := ds + more;
    }

    method RouteEvents(events: seq<RpcEvent>) returns (ds: seq<Delivery>)
      modifies this
      ensures clock == old(clock) + |events| && streaming == old(streaming)
      ensures (SlotMap(), ds) == Run(ROUTER, old(SlotMap()), ArrivalsAt(events, old(clock), streaming))
    {
      ds := [];
      ghost var xs, was := ArrivalsAt(events, clock, streaming), SlotMap();
      for i := 0 to |events|
        invariant clock == old(clock) + i && streaming == old(streaming)
        invariant RoutedTo(was, xs[..i], SlotMap(), ds)
      {
        ds := RouteNext(events[i], was, xs, i, ds);
      }
      assert xs[..|events|] == xs;
    }
  }

  /** The tables and the calls of callbacks after the inputs `xs`. */
  ghost predicate RoutedTo(was: Slots, xs: seq<Input>, now: Slots, ds: seq<Delivery>) {
    (now, ds) == Run(ROUTER, was, xs)
  }

  lemma RoutedNext(was: Slots, xs: seq<Input>, i: nat, before: Slots, ds: seq<Delivery>, now: Slots, more: seq<Delivery>)
    requires i < |xs| && RoutedTo(was, xs[..i], before, ds) && (now, more) == Step(ROUTER, before, xs[i])
    ensures RoutedTo(was, xs[..i + 1], now, ds + more)
  {
    RunSnoc(ROUTER, was, xs[..i], xs[i]);
    assert xs[..i] + [xs[i]] == xs[..i + 1];
  }

  // ---------------------------------------------------------------- the dispatcher

  class RpcDispatcher {
    const space: IdSpace
    const respondable: RpcRespondableSession
    var nextRequestId: U32
    var queue: seq<Entry>

    constructor (space: IdSpace, counter: IdCounter)
      requires counter.Valid()
      modifies counter
      ensures counter.Valid() && counter.draws == old(counter.draws) + 2
      ensures fresh(respondable) && fresh(respondable.session) && fresh(respondable.session.mux)
      ensures this.space == space && respondable.session.space == space
      ensures respondable.Abs() == Session.EMPTY && respondable.SlotMap() == map[] && queue == []
      ensures respondable.clock == 0 && respondable.streaming == {}
      ensures respondable.session.nextStreamId == Draw(old(counter.draws)) && nextRequestId == Draw(old(counter.draws) + 1)
    {
      this.space := space;
      respondable := new RpcRespondableSession(space, counter);
      queue, nextRequestId := [], 0;
      new;
      nextRequestId := counter.Increment();
    }

    /** Initiates a request: draws the next request id, registers the handler, and sends header,
        payload and end. */
    method Call(request: Request, maxChunkSize: nat, hasHandler: bool, prebuffer: bool, counter: IdCounter)
      returns (e: RpcStreamEncoder, id: U32)
      requires counter.Valid() && maxChunkSize > 0
      modifies this`nextRequestId, respondable, respondable.session`nextStreamId, counter
      ensures counter.Valid() && counter.draws == old(counter.draws) + 2
      ensures id == Place(space, old(nextRequestId))
      ensures nextRequestId == Draw(old(counter.draws)) && respondable.session.nextStreamId == Draw(old(counter.draws) + 1)
      ensures respondable.clock == old(respondable.clock) + 1 && respondable.streaming == old(respondable.streaming)
      ensures respondable.SlotMap()
              == Step(ROUTER, old(respondable.SlotMap()), Register(id, old(respondable.clock), hasHandler, prebuffer)).0
      ensures fresh(e) && fresh(e.encoder)
      ensures At(New(Place(respondable.session.space, old(respondable.session.nextStreamId)), maxChunkSize),
                 MessageOps(CallHeader(id, request), request.payload, request.isFinalized), e.encoder.Abs(), e.encoder.emitted)
    {
      id := Place(space, nextRequestId);
      nextRequestId := counter.Increment();
      var header := CallHeader(id, request);
      ghost var streamId := Place(respondable.session.space, respondable.session.nextStreamId);
      e := respondable.InitRespondableRequest(header, maxChunkSize, hasHandler, prebuffer, counter);
      SendRest(e, New(streamId, maxChunkSize), header, request.payload, request.isFinalized);
    }

    /** Sends a reply on a new stream; no handler is registered. */
    method Respond(reply: Reply, maxChunkSize: nat, counter: IdCounter) returns (e: RpcStreamEncoder)
      requires counter.Valid() && maxChunkSize > 0
      modifies respondable.session`nextStreamId, counter
      ensures counter.Valid() && counter.draws == old(counter.draws) + 1
      ensures respondable.session.nextStreamId == Draw(old(counter.draws))
      ensures fresh(e) && fresh(e.encoder)
      ensures At(New(Place(respondable.session.space, old(respondable.session.nextStreamId)), maxChunkSize),
                 MessageOps(ReplyHeader(reply), reply.payload, reply.isFinalized), e.encoder.Abs(), e.encoder.emitted)
    {
      var header := ReplyHeader(reply);
      ghost var streamId := Place(respondable.session.space, respondable.session.nextStreamId);
      e := respondable.session.InitRequest(header, maxChunkSize, counter);
      SendRest(e, New(streamId, maxChunkSize), header, reply.payload, reply.isFinalized);
    }

    /** The position of the first entry with this id, as the queue is searched. */
    method Find(id: U32) returns (i: nat)
      ensures i == IndexOf(queue, id)
    {
      i := 0;
      while i < |queue| && queue[i].id != id
        invariant i <= |queue| && forall j | 0 <= j < i :: queue[j].id != id
      {
        i := i + 1;
      }
    }

    /** The catch-all handler. */
    method OnEvent(evt: RpcEvent)
      modifies this`queue
      ensures queue == QueueStep(old(queue), evt)
    {
      match evt {
        case HeaderEvent(id, _, header) =>
          var params := if |header.metadata| == 0 then None else Some(header.metadata);
          queue := queue + [Entry(id, Request(header.methodId, params, None, false))];
        case PayloadChunk(id, _, _, bytes) =>
          var i := Find(id);
          if i < |queue| {
            var request := queue[i].request;
            if request.payload.None? {
              request := request.(payload := Some([]));
            }
            request := request.(payload := Some(request.payload.value + bytes));
            queue := queue[i := Entry(id, request)];
          }
        case EndEvent(id, _, _) =>
          var i := Find(id);
          if i < |queue| {
            queue := queue[i := Entry(id, queue[i].request.(isFinalized := true))];
          }
        case ErrorEvent(_, _, _, _) =>
      }
    }

    /** Feeds bytes to the session, lets the catch-all handler fill the queue, and returns the ids
        in the queue unless the batch failed. */
    method ReadBytes(bytes: Bytes.Data) returns (ds: seq<Delivery>, r: Result<seq<U32>, FrameDecodeError>)
      modifies this`queue, respondable, respondable.session`decoders, respondable.session.mux
      ensures var (s, outs, err) := Session.Read(old(respondable.Abs()), bytes);
              && respondable.Abs() == s
              && respondable.clock == old(respondable.clock) + |outs| && respondable.streaming == old(respondable.streaming)
              && (respondable.SlotMap(), ds)
                 == Run(ROUTER, old(respondable.SlotMap()),
                        ArrivalsAt(Session.Events(outs), old(respondable.clock), respondable.streaming))
              && queue == RunQueue(old(queue), CatchAlls(ds))
              && (if err.Some? then r == Err(err.value)
                  else r.Ok? && |r.value| == |queue| && forall i | 0 <= i < |queue| :: r.value[i] == queue[i].id)
    {
      var err;
      ds, err := respondable.ReadBytes(bytes);
      Enqueue(ds);
      if err.Some? {
        r := Err(err.value);
      } else {
        var ids := ActiveIds();
        r := Ok(ids);
      }
    }

    /** The calls of the catch-all handler among all calls of a batch. */
    method Enqueue(ds: seq<Delivery>)
      modifies this`queue
      ensures queue == RunQueue(old(queue), CatchAlls(ds))
    {
      for i := 0 to |ds|
        invariant queue == RunQueue(old(queue), CatchAlls(ds[..i]))
      {
        assert ds[..i + 1][..i] == ds[..i];
        if ds[i].ToCatchAll? {
          RunQueueSnoc(old(queue), CatchAlls(ds[..i]), ds[i].event);
          OnEvent(ds[i].event);
        } else {
          assert CatchAlls(ds[..i]) + [] == CatchAlls(ds[..i]);
        }
      }
      assert ds[..|ds|] == ds;
    }

    method ActiveIds() returns (ids: seq<U32>)
      ensures |ids| == |queue| && forall i | 0 <= i < |queue| :: ids[i] == queue[i].id
    {
      ids := [];
      for i := 0 to |queue|
        invariant |ids| == i && forall j | 0 <= j < i :: ids[j] == queue[j].id
      {
        ids := ids + [queue[i].id];
      }
    }

    method IsFinalized(id: U32) returns (r: Option<bool>)
      ensures var i := IndexOf(queue, id);
              r == if i < |queue| then Some(queue[i].request.isFinalized) else None
    {
      var i := Find(id);
      r := if i < |queue| then Some(queue[i].request.isFinalized) else None;
    }

    method Delete(id: U32) returns (r: Option<Request>)
      modifies this`queue
      ensures var i := IndexOf(old(queue), id);
              if i < |old(queue)|
              then queue == old(queue)[..i] + old(queue)[i + 1..] && r == Some(old(queue)[i].request)
              else queue == old(queue) && r == None
    {
      var i := Find(id);
      if i < |queue| {
        r := Some(queue[i].request);
        queue := queue[..i] + queue[i + 1..];
      } else {
        r := None;
      }
    }

    /** Fails every pending request: the tables and the queue are emptied first, then each handler
        is called, in the arbitrary order of the hash map. */
    method FailAllPendingRequests(cause: FrameDecodeError) returns (ghost order: seq<U32>, ds: seq<Delivery>)
      modifies this`queue, respondable`handlers, respondable`flags, respondable`buffers
      ensures Lifecycle.Enumerates(old(respondable.SlotMap()), order)
      ensures ds == Lifecycle.Failures(old(respondable.SlotMap()), order, cause)
      ensures respondable.SlotMap() == map[] && queue == []
    {
      var taken := respondable.handlers;
      ghost var was := respondable.SlotMap();
      TakenHandlers(taken, respondable.flags, respondable.buffers);
      respondable.handlers, respondable.flags, respondable.buffers := map[], map[], map[];
      SlotsExtensional(respondable.SlotMap(), map[]);
      queue := [];
      order, ds := CallWithError(taken, cause);
    }
  }

  lemma TakenHandlers(handlers: map<U32, Token>, flags: map<U32, bool>, buffers: map<U32, Bytes.Data>)
    ensures forall r: U32 :: Lifecycle.HandlerAt(SlotsOf(handlers, flags, buffers), r) == Get(handlers, r)
  {
    var slots := SlotsOf(handlers, flags, buffers);
    forall r: U32
      ensures Lifecycle.HandlerAt(slots, r) == Get(handlers, r)
    {
      assert Get(slots, r) == Stored(Slot(Get(handlers, r), Get(flags, r), Get(buffers, r)));
    }
  }

  method CallWithError(taken: map<U32, Token>, cause: FrameDecodeError) returns (ghost order: seq<U32>, ds: seq<Delivery>)
    ensures forall r: U32 :: r in order <==> r in taken
    ensures forall i, j | 0 <= i < j < |order| :: order[i] != order[j]
    ensures |ds| == |order| && forall i | 0 <= i < |order| :: Notified(taken, cause, order[i], ds[i])
  {
    order, ds := [], [];
    var left := taken;
    while left != map[]
      invariant forall r: U32 :: r in taken <==> r in order || r in left
      invariant forall r | r in left :: r !in order && taken[r] == left[r]
      invariant forall i, j | 0 <= i < j < |order| :: order[i] != order[j]
      invariant |ds| == |order| && forall i | 0 <= i < |order| :: Notified(taken, cause, order[i], ds[i])
      decreases |left|
    {
      var r :| r in left;
      ds := ds + [ToHandler(r, left[r], ErrorEvent(None, Some(r), None, cause))];
      order := order + [r];
      assert (left - {r}).Keys == left.Keys - {r};
      left := left - {r};
    }
  }

  predicate Notified(taken: map<U32, Token>, cause: FrameDecodeError, r: U32, d: Delivery) {
    r in taken && d == ToHandler(r, taken[r], Lifecycle.ErrorFor(r, cause))
  }
}
