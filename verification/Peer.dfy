/** One end of a connection that both calls and serves: the dispatcher, the caller and the
    endpoint of a process, as values, with everything that they have sent and heard. */
module Peer {
  import opened Bytes
  import opened Sequences
  import opened Lanes
  import opened FrameCodec
  import opened RpcStream
  import opened Ids
  import opened IdBits
  import opened Routing
  import opened Inbox
  import opened Dispatcher
  import opened Service
  import opened Link
  import FrameEncoder
  import Session

  type Message = Session.Message

  /** A call that was made; it is kept under its request id. */
  datatype CallRecord = CallRecord(streamId: U32, token: Token, methodId: U64, args: Bytes.Data)

  datatype Peer = Peer(
    space: IdSpace,
    /** The draws of ids in this process: the first one that matters, the next one, and the two
        that the dispatcher has drawn ahead. */
    base: nat, draws: nat, nextRequest: nat, nextStream: nat,
    /** The calls made, and everything sent: the frames, and the messages by stream. */
    calls: map<U32, CallRecord>, sent: seq<Frame>, msgs: map<U32, Message>,
    /** The receiving side: session, routing tables, every handler and catch-all call so far,
        and the inbound queue. */
    session: Session.State, slots: Slots, clock: Token, log: seq<Delivery>, queue: seq<Entry>,
    /** The requests taken out of the queue so far, and the streams on which they were answered. */
    inbox: seq<Entry>, answered: map<nat, U32>)

  function Initial(space: IdSpace, base: nat): Peer {
    Peer(space, base, base + 2, base + 1, base, map[], [], map[], Session.EMPTY, map[], 0, [], [], [], map[])
  }

  // ---------------------------------------------------------------- what a peer does

  function CallMessage(r: U32, c: CallRecord): Message {
    var request := PlaceArgs(c.methodId, c.args);
    Session.Message(CallHeader(r, request), PayloadOf(request.payload))
  }

  function CallFrames(r: U32, c: CallRecord): seq<Frame> {
    var request := PlaceArgs(c.methodId, c.args);
    MessageRun(c.streamId, DEFAULT_SERVICE_MAX_CHUNK_SIZE, CallHeader(r, request), request.payload, true).frames
  }

  function ReplyMessage(service: Service, e: Entry): Message {
    var reply := Answer(service, e.id, e.request);
    Session.Message(ReplyHeader(reply), PayloadOf(reply.payload))
  }

  function NextRequestId(p: Peer): U32 {
    Place(p.space, Draw(p.nextRequest))
  }

  function NextStreamId(p: Peer): U32 {
    Place(p.space, Draw(p.nextStream))
  }

  function NextCall(p: Peer, methodId: U64, args: Bytes.Data): CallRecord {
    CallRecord(NextStreamId(p), p.clock, methodId, args)
  }

  /** A call: both ids were drawn ahead, the next two are drawn, a streaming handler is
      registered, and the request is sent as one complete stream. */
  function MakeCall(p: Peer, methodId: U64, args: Bytes.Data): Peer {
    var r, c := NextRequestId(p), NextCall(p, methodId, args);
    p.(draws := p.draws + 2, nextRequest := p.draws, nextStream := p.draws + 1,
       calls := p.calls[r := c],
       sent := p.sent + CallFrames(r, c),
       msgs := p.msgs[c.streamId := CallMessage(r, c)],
       slots := Step(ROUTER, p.slots, Register(r, p.clock, true, false)).0,
       clock := p.clock + 1)
  }

  /** The answer to one of the requests in the inbox, sent as one complete stream. */
  function SendAnswer(p: Peer, service: Service, i: nat): Peer
    requires i < |p.inbox|
  {
    var s, e := NextStreamId(p), p.inbox[i];
    p.(draws := p.draws + 1, nextStream := p.draws,
       sent := p.sent + ReplyFrames(s, Answer(service, e.id, e.request)),
       msgs := p.msgs[s := ReplyMessage(service, e)],
       answered := p.answered[i := s])
  }

  /** Reading bytes: the session, the router, the queue, and the hand-out of finalized requests. */
  function ReadBytes(p: Peer, bytes: Bytes.Data): Peer {
    var read := Session.Read(p.session, bytes);
    var routed := Run(ROUTER, p.slots, ArrivalsAt(Session.Events(read.1), p.clock, {}));
    var filled := RunQueue(p.queue, CatchAlls(routed.1));
    p.(session := read.0, slots := routed.0, clock := p.clock + |read.1|, log := p.log + routed.1,
       queue := if read.2.Some? then filled else Unfinalized(filled),
       inbox := if read.2.Some? then p.inbox else p.inbox + Finalized(filled))
  }

  // ---------------------------------------------------------------- ids

  /** A draw whose id is in use: neither of the two that are still ahead. */
  predicate Used(p: Peer, d: nat) {
    p.base <= d < p.draws && d != p.nextRequest && d != p.nextStream
  }

  ghost predicate UsedId(p: Peer, id: U32) {
    exists d :: Used(p, d) && id == Place(p.space, Draw(d))
  }

  /** Fewer than 2^31 draws so far, and every id in use was drawn. */
  ghost predicate IdsInv(p: Peer) {
    && p.base <= p.nextRequest < p.draws && p.base <= p.nextStream < p.draws && p.nextRequest != p.nextStream
    && p.draws <= p.base + TWO_31
    && (forall s | s in p.msgs :: UsedId(p, s))
    && (forall r | r in p.calls :: UsedId(p, r))
  }

  /** The ids drawn ahead are new, and lie in the half of their peer. */
  lemma NextIdsFresh(p: Peer)
    requires IdsInv(p)
    ensures NextStreamId(p) !in p.msgs && NextRequestId(p) !in p.calls
    ensures InHalf(p.space, NextRequestId(p))
  {
    IdsCollideOnlyAfterHalf(p.space, p.nextRequest, p.space, p.nextRequest);
    if NextStreamId(p) in p.msgs {
      var d :| Used(p, d) && NextStreamId(p) == Place(p.space, Draw(d));
      Apart(p, d, p.nextStream);
    }
    if NextRequestId(p) in p.calls {
      var d :| Used(p, d) && NextRequestId(p) == Place(p.space, Draw(d));
      Apart(p, d, p.nextRequest);
    }
  }

  lemma Apart(p: Peer, d: nat, e: nat)
    requires p.base <= d < p.draws <= p.base + TWO_31 && p.base <= e < p.draws && d != e
    ensures Place(p.space, Draw(d)) != Place(p.space, Draw(e))
  {
    if d < e {
      FreshWithinHalf(p.space, d, e);
    } else {
      FreshWithinHalf(p.space, e, d);
    }
  }

  // ---------------------------------------------------------------- what a peer has sent

  /** Where a message came from: a call of this peer, or the answer to a request in its inbox. */
  ghost predicate Origin(p: Peer, s: U32)
    requires s in p.msgs
  {
    var r := p.msgs[s].header.requestId;
    if InHalf(p.space, r) then r in p.calls && p.calls[r].streamId == s
    else exists i :: i in p.answered && p.answered[i] == s
  }

  ghost predicate CallSent(p: Peer, r: U32)
    requires r in p.calls
  {
    InHalf(p.space, r) && p.calls[r].streamId in p.msgs && p.msgs[p.calls[r].streamId] == CallMessage(r, p.calls[r])
  }

  ghost predicate AnswerSent(service: Service, p: Peer, i: nat)
    requires i in p.answered
  {
    && i < |p.inbox| && p.answered[i] in p.msgs
    && p.msgs[p.answered[i]] == ReplyMessage(service, p.inbox[i])
  }

  ghost predicate SenderInv(service: Service, p: Peer) {
    IdsInv(p) && Session.Carries(p.sent, p.msgs) && LedgerInv(service, p)
  }

  /** The messages, the calls and the answers account for each other. */
  ghost predicate LedgerInv(service: Service, p: Peer) {
    && OnePerRequest(p.msgs)
    && (forall s | s in p.msgs :: Origin(p, s))
    && (forall r | r in p.calls :: CallSent(p, r))
    && (forall i | i in p.answered :: AnswerSent(service, p, i))
  }

  // ---------------------------------------------------------------- what a peer has heard

  ghost predicate HasEnded(events: seq<RpcEvent>) {
    events != [] && events[|events| - 1].EndEvent?
  }

  /** The state of one request, given what has been heard of it. A call of this peer has its
      handler called with it and never reaches the queue. Any other request is collected in the
      queue until its end, and is then in the inbox. */
  ghost predicate View(p: Peer, r: U32, events: seq<RpcEvent>) {
    ViewParts(p, r, events, Get(p.slots, r), Select(DeliveryRequest, p.log, r), Of(p.queue, r), Of(p.inbox, r))
  }

  /** Every request is where what has been heard of it puts it. */
  ghost predicate Viewing(p: Peer, heard: seq<RpcEvent>) {
    forall r: U32 :: View(p, r, Select(RequestOf, heard, r))
  }

  /** The request that the peer rebuilds from a call, and the entry it makes of it. */
  function EntryFor(r: U32, c: CallRecord): Entry {
    var m := CallMessage(r, c);
    Entry(r, RequestFrom(m.header, m.payload, true))
  }

  /** Everything handed out at `p` is a call of `q`, as it was made. */
  ghost predicate Serves(p: Peer, q: Peer) {
    forall e | e in p.inbox :: e.id in q.calls && e == EntryFor(e.id, q.calls[e.id])
  }

  ghost predicate TablesInv(p: Peer) {
    AllLanes(p.slots, AnySlot) && TokensInv(p)
  }

  /** Every call has a handler of its own. */
  ghost predicate TokensInv(p: Peer) {
    && (forall r | r in p.calls :: p.calls[r].token < p.clock)
    && (forall r, q | r in p.calls && q in p.calls && p.calls[r].token == p.calls[q].token :: r == q)
  }

  /** A handler is called with the events of the call it was registered for, and of no other. */
  ghost predicate OwnCall(p: Peer, d: Delivery) {
    d.ToHandler? ==> d.requestId in p.calls && d.token == p.calls[d.requestId].token
  }

  /** What the caller of request `r` has received so far: the channel is fed by the handler that
      was registered for the call. */
  function ReceivedBy(p: Peer, r: U32): Receiver
    requires r in p.calls
  {
    Receive(LISTENING, HandlerCalls(Select(DeliveryToken, p.log, p.calls[r].token)))
  }

  lemma OwnDelivery(p: Peer, d: Delivery, r: U32)
    requires TokensInv(p) && r in p.calls && OwnCall(p, d)
    ensures HandlerCalls(Select(DeliveryRequest, [d], r)) == HandlerCalls(Select(DeliveryToken, [d], p.calls[r].token))
  {
    SelectOne(DeliveryRequest, d, r);
    SelectOne(DeliveryToken, d, p.calls[r].token);
    CallsOfOne(d);
  }

  /** What the handler of a call was called with is what was delivered to a handler for its request. */
  lemma {:induction false} CallsByToken(p: Peer, ds: seq<Delivery>, r: U32)
    requires TokensInv(p) && r in p.calls && forall d | d in ds :: OwnCall(p, d)
    ensures HandlerCalls(Select(DeliveryRequest, ds, r)) == HandlerCalls(Select(DeliveryToken, ds, p.calls[r].token))
  {
    if ds != [] {
      var front, d, t := ds[..|ds| - 1], ds[|ds| - 1], p.calls[r].token;
      assert ds == front + [d];
      CallsByToken(p, front, r);
      OwnDelivery(p, d, r);
      SelectAppend(DeliveryRequest, front, [d], r);
      SelectAppend(DeliveryToken, front, [d], t);
      CallsAppend(Select(DeliveryRequest, front, r), Select(DeliveryRequest, [d], r));
      CallsAppend(Select(DeliveryToken, front, t), Select(DeliveryToken, [d], t));
    }
  }

  lemma OwnedDelivery(p: Peer, d: Delivery, events: seq<RpcEvent>)
    requires d in p.log && d.ToHandler? && View(p, d.requestId, events)
    ensures OwnCall(p, d)
  {
    var own := Select(DeliveryRequest, p.log, d.requestId);
    SelectMember(DeliveryRequest, p.log, d, d.requestId);
    if d.requestId !in p.calls {
      NoHandlerCalls(own, d);
    }
  }

  lemma {:induction false} NoHandlerCalls(ds: seq<Delivery>, d: Delivery)
    requires d in ds && d.ToHandler?
    ensures HandlerCalls(ds) != []
  {
    var n := |ds| - 1;
    if ds[n] != d {
      assert d in ds[..n];
      NoHandlerCalls(ds[..n], d);
    }
  }

  // ---------------------------------------------------------------- hearing more

  lemma {:induction false} SelectArrivals(events: seq<RpcEvent>, clock: Token, r: U32)
    ensures Brings(Select(InputRequest, ArrivalsAt(events, clock, {}), r), Select(RequestOf, events, r))
  {
    if events != [] {
      var n := |events| - 1;
      SelectArrivals(events[..n], clock, r);
      var xs := ArrivalsAt(events, clock, {});
      assert xs[..n] == ArrivalsAt(events[..n], clock, {});
    }
  }

  lemma SelectCatchOne(d: Delivery, r: U32)
    ensures Select(RequestOf, CatchAlls([d]), r) == CatchAlls(Select(DeliveryRequest, [d], r))
  {
    CallsOfOne(d);
    SelectOne(DeliveryRequest, d, r);
    if d.ToCatchAll? {
      SelectOne(RequestOf, d.event, r);
    }
  }

  lemma {:induction false} SelectCatchAlls(ds: seq<Delivery>, r: U32)
    ensures Select(RequestOf, CatchAlls(ds), r) == CatchAlls(Select(DeliveryRequest, ds, r))
  {
    if ds != [] {
      var n := |ds| - 1;
      var front, d := ds[..n], ds[n];
      assert ds == front + [d];
      SelectCatchAlls(front, r);
      SelectCatchOne(d, r);
      CallsAppend(front, [d]);
      SelectAppend(RequestOf, CatchAlls(front), CatchAlls([d]), r);
      SelectAppend(DeliveryRequest, front, [d], r);
      CallsAppend(Select(DeliveryRequest, front, r), Select(DeliveryRequest, [d], r));
    }
  }

  /** The effect of a batch of events on one request. */
  lemma BatchEffect(p: Peer, r: U32, batch: seq<RpcEvent>)
    returns (own: seq<Input>, more: seq<Delivery>)
    requires TablesInv(p)
    ensures Brings(own, Select(RequestOf, batch, r))
    ensures var (slots, ds) := Run(ROUTER, p.slots, ArrivalsAt(batch, p.clock, {}));
            && (Get(slots, r), more) == RunLane(ROUTER, Get(p.slots, r), own)
            && Select(DeliveryRequest, p.log + ds, r) == Select(DeliveryRequest, p.log, r) + more
            && Of(RunQueue(p.queue, CatchAlls(ds)), r) == RunQueue(Of(p.queue, r), CatchAlls(more))
            && AllLanes(slots, AnySlot)
  {
    var xs := ArrivalsAt(batch, p.clock, {});
    own := Select(InputRequest, xs, r);
    SelectArrivals(batch, p.clock, r);
    RequestsDoNotInterfere(p.slots, xs, r);
    var ds := Run(ROUTER, p.slots, xs).1;
    more := Select(DeliveryRequest, ds, r);
    SelectAppend(DeliveryRequest, p.log, ds, r);
    QueueProjects(p.queue, CatchAlls(ds), r);
    SelectCatchAlls(ds, r);
  }

  /** One request in a peer, by its parts. */
  ghost predicate ViewParts(p: Peer, r: U32, events: seq<RpcEvent>, slot: Option<Slot>, calls: seq<Delivery>,
                            queued: seq<Entry>, handed: seq<Entry>) {
    if r in p.calls then
      Streaming(p.calls[r].token, events, slot, calls) && queued == [] && handed == []
    else
      Unclaimed(events, slot, calls) && Collecting(events, queued, handed)
  }

  /** What has been heard of request `r` is a message about it, told in part or in full. */
  ghost predicate Sensible(r: U32, events: seq<RpcEvent>) {
    events == [] || exists h, data :: About(r, h, data, events)
  }

  ghost predicate About(r: U32, h: RpcHeader, data: Bytes.Data, events: seq<RpcEvent>) {
    h.requestId == r && Telling(h, data, events)
  }

  lemma SensibleOrderly(r: U32, events: seq<RpcEvent>)
    requires Sensible(r, events)
    ensures OfRequest(r, events) && EndsOnce(events)
  {
    if events != [] {
      var h, data :| About(r, h, data, events);
      TellingIsOrderly(h, data, events);
    }
  }

  /** The queue entries of a sensible request: none or one, finalized exactly at the end. */
  lemma SensibleQueued(r: U32, events: seq<RpcEvent>)
    requires Sensible(r, events)
    ensures var q := RunQueue([], events);
            && Finalized(q) == (if HasEnded(events) then q else [])
            && Unfinalized(q) == (if HasEnded(events) then [] else q)
  {
    if events == [] {
      return;
    }
    var h, data :| About(r, h, data, events);
    var cs, ended :| Told(h, data, events, cs, ended);
    ScriptQueued(h, cs);
    ScriptRequests(h, cs, ended);
    ReadyOne(Entry(h.requestId, RequestFrom(h, Flatten(cs), ended)));
  }

  lemma EndedIsOver(before: seq<RpcEvent>, events: seq<RpcEvent>)
    requires HasEnded(before) && EndsOnce(before + events)
    ensures events == []
  {
    var last := |before| - 1;
    assert (before + events)[last] == before[last];
  }

  lemma OwnMore(p: Peer, r: U32, before: seq<RpcEvent>, events: seq<RpcEvent>, own: seq<Input>,
                slot: Option<Slot>, calls: seq<Delivery>)
    requires r in p.calls && ViewParts(p, r, before, slot, calls, [], [])
    requires Brings(own, events) && Sensible(r, before + events)
    ensures var (slot', more) := RunLane(ROUTER, slot, own);
            ViewParts(p, r, before + events, slot', calls + more, [], []) && CatchAlls(more) == []
  {
    SensibleOrderly(r, before + events);
    assert forall e | e in events :: e in before + events;
    StreamMore(r, p.calls[r].token, before, slot, calls, events, own);
    CallsAppend(calls, RunLane(ROUTER, slot, own).1);
  }

  /** The entries of a request that is not a call of this peer, as more of it is heard. */
  ghost predicate Collecting(events: seq<RpcEvent>, queued: seq<Entry>, handed: seq<Entry>) {
    if HasEnded(events) then queued == [] && handed == RunQueue([], events)
    else queued == RunQueue([], events) && handed == []
  }

  lemma CollectMore(r: U32, before: seq<RpcEvent>, events: seq<RpcEvent>, queued: seq<Entry>, handed: seq<Entry>)
    requires Collecting(before, queued, handed) && Sensible(r, before + events)
    ensures var filled := RunQueue(queued, events);
            Collecting(before + events, Unfinalized(filled), handed + Finalized(filled))
  {
    var filled := RunQueue(queued, events);
    if HasEnded(before) {
      SensibleOrderly(r, before + events);
      EndedIsOver(before, events);
      assert before + events == before && filled == [];
      assert handed + Finalized(filled) == handed;
    } else {
      RunQueueAppend([], before, events);
      SensibleQueued(r, before + events);
      assert handed + Finalized(filled) == Finalized(filled);
    }
  }

  lemma OtherMore(p: Peer, r: U32, before: seq<RpcEvent>, events: seq<RpcEvent>, own: seq<Input>,
                  slot: Option<Slot>, calls: seq<Delivery>, queued: seq<Entry>, handed: seq<Entry>)
    requires r !in p.calls && ViewParts(p, r, before, slot, calls, queued, handed)
    requires Brings(own, events) && Sensible(r, before + events)
    ensures var (slot', more) := RunLane(ROUTER, slot, own);
            var filled := RunQueue(queued, CatchAlls(more));
            ViewParts(p, r, before + events, slot', calls + more, Unfinalized(filled), handed + Finalized(filled))
  {
    SensibleOrderly(r, before + events);
    assert forall e | e in events :: e in before + events;
    UnclaimedMore(r, before, calls, events, own);
    CollectMore(r, before, events, queued, handed);
  }

  /** Reading keeps every request in step with what has been heard of it. */
  lemma ReadKeepsView(p: Peer, bytes: Bytes.Data, r: U32, before: seq<RpcEvent>)
    requires TablesInv(p) && View(p, r, before)
    requires var (_, outs, err) := Session.Read(p.session, bytes);
             err == None && Sensible(r, before + Select(RequestOf, Session.Events(outs), r))
    ensures var batch := Session.Events(Session.Read(p.session, bytes).1);
            View(ReadBytes(p, bytes), r, before + Select(RequestOf, batch, r))
    ensures TablesInv(ReadBytes(p, bytes))
  {
    var batch := Session.Events(Session.Read(p.session, bytes).1);
    var events := Select(RequestOf, batch, r);
    var own, more := BatchEffect(p, r, batch);
    var ds := Run(ROUTER, p.slots, ArrivalsAt(batch, p.clock, {})).1;
    var filled := RunQueue(p.queue, CatchAlls(ds));
    HandOutProjects(filled, r);
    SelectAppend(EntryId, p.inbox, Finalized(filled), r);
    var slot, calls := Get(p.slots, r), Select(DeliveryRequest, p.log, r);
    if r in p.calls {
      OwnMore(p, r, before, events, own, slot, calls);
      assert Of(filled, r) == [];
      assert Of(p.inbox, r) + [] == [];
    } else {
      OtherMore(p, r, before, events, own, slot, calls, Of(p.queue, r), Of(p.inbox, r));
    }
  }

  lemma HeardMakesSense(wire: seq<Frame>, msgs: map<U32, Message>, arrivals: seq<Frame>, n: nat, r: U32)
    requires Session.InTransit(wire, msgs, arrivals, n) && OnePerRequest(msgs)
    ensures Sensible(r, Select(RequestOf, Heard(arrivals, n), r))
  {
    if s :| s in msgs && msgs[s].header.requestId == r {
      HeardOfRequest(wire, msgs, arrivals, n, s);
      assert About(r, msgs[s].header, msgs[s].payload, Select(RequestOf, Heard(arrivals, n), r));
    } else {
      NothingHeard(wire, msgs, arrivals, n, r);
    }
  }

  ghost predicate AllSensible(heard: seq<RpcEvent>) {
    forall r: U32 :: Sensible(r, Select(RequestOf, heard, r))
  }

  lemma ViewsAt(p: Peer, bytes: Bytes.Data, heard: seq<RpcEvent>, heard': seq<RpcEvent>, r: U32)
    requires TablesInv(p) && Viewing(p, heard) && Session.Read(p.session, bytes).2 == None
    requires heard' == heard + Session.Events(Session.Read(p.session, bytes).1)
    requires Sensible(r, Select(RequestOf, heard', r))
    ensures TablesInv(ReadBytes(p, bytes)) && View(ReadBytes(p, bytes), r, Select(RequestOf, heard', r))
  {
    SelectAppend(RequestOf, heard, Session.Events(Session.Read(p.session, bytes).1), r);
    ReadKeepsView(p, bytes, r, Select(RequestOf, heard, r));
  }

  lemma ViewsOn(p: Peer, bytes: Bytes.Data, heard: seq<RpcEvent>, heard': seq<RpcEvent>)
    requires TablesInv(p) && Viewing(p, heard) && Session.Read(p.session, bytes).2 == None
    requires heard' == heard + Session.Events(Session.Read(p.session, bytes).1)
    requires AllSensible(heard')
    ensures TablesInv(ReadBytes(p, bytes)) && Viewing(ReadBytes(p, bytes), heard')
  {
    forall r: U32
      ensures View(ReadBytes(p, bytes), r, Select(RequestOf, heard', r))
    {
      assert Sensible(r, Select(RequestOf, heard', r));
      ViewsAt(p, bytes, heard, heard', r);
    }
    assert Sensible(0, Select(RequestOf, heard', 0));
    ViewsAt(p, bytes, heard, heard', 0);
  }

  /** A peer that is where `session` and what was heard put it. */
  ghost predicate InStep(p: Peer, session: Session.State, heard: seq<RpcEvent>) {
    p.session == session && TablesInv(p) && Viewing(p, heard)
  }

  lemma AllMakeSense(wire: seq<Frame>, msgs: map<U32, Message>, arrivals: seq<Frame>, n: nat, heard: seq<RpcEvent>)
    requires Session.InTransit(wire, msgs, arrivals, n) && OnePerRequest(msgs) && heard == Heard(arrivals, n)
    ensures AllSensible(heard)
  {
    forall r: U32
      ensures Sensible(r, Select(RequestOf, heard, r))
    {
      HeardMakesSense(wire, msgs, arrivals, n, r);
    }
  }

  lemma LaterMakesSense(wire: seq<Frame>, msgs: map<U32, Message>, arrivals: seq<Frame>, n: nat, k: nat)
    requires Session.InTransit(wire, msgs, arrivals, n) && OnePerRequest(msgs) && n + k <= |EncodeAll(arrivals)|
    ensures AllSensible(Heard(arrivals, n + k))
  {
    AllMakeSense(wire, msgs, arrivals, n + k, Heard(arrivals, n + k));
  }

  lemma SessionAfter(p: Peer, bytes: Bytes.Data)
    ensures ReadBytes(p, bytes).session == Session.Read(p.session, bytes).0
  {
  }

  lemma StepOn(p: Peer, bytes: Bytes.Data, s: Session.State, heard: seq<RpcEvent>, s': Session.State, heard': seq<RpcEvent>)
    requires InStep(p, s, heard) && Continues(s, bytes, heard, s', heard') && AllSensible(heard')
    ensures InStep(ReadBytes(p, bytes), s', heard')
  {
    ViewsOn(p, bytes, heard, heard');
    SessionAfter(p, bytes);
  }

  /** Reading the next bytes keeps a peer in step. */
  lemma ReadKeepsStep(wire: seq<Frame>, msgs: map<U32, Message>, arrivals: seq<Frame>, n: nat, k: nat, p: Peer,
                      bytes: Bytes.Data)
    requires Session.InTransit(wire, msgs, arrivals, n) && OnePerRequest(msgs) && n + k <= |EncodeAll(arrivals)|
    requires InStep(p, Session.Received(arrivals, n).0, Heard(arrivals, n)) && bytes == EncodeAll(arrivals)[n..n + k]
    ensures InStep(ReadBytes(p, bytes), Session.Received(arrivals, n + k).0, Heard(arrivals, n + k))
  {
    ReadContinues(wire, msgs, arrivals, n, k);
    LaterMakesSense(wire, msgs, arrivals, n, k);
    StepOn(p, bytes, Session.Received(arrivals, n).0, Heard(arrivals, n),
           Session.Received(arrivals, n + k).0, Heard(arrivals, n + k));
  }

  // ---------------------------------------------------------------- calling

  /** The stream of the call stays below 2^32 frames, and the ids do not run out. */
  predicate CanCall(p: Peer, methodId: U64, args: Bytes.Data) {
    |CallFrames(NextRequestId(p), NextCall(p, methodId, args))| < TWO_32 && p.draws + 2 <= p.base + TWO_31
  }

  lemma CallCompletes(r: U32, c: CallRecord)
    requires |CallFrames(r, c)| < TWO_32
    ensures Session.Sendable(CallMessage(r, c))
    ensures FrameEncoder.Complete(c.streamId, CallFrames(r, c), Session.MessageBytes(CallMessage(r, c)))
  {
    var request := PlaceArgs(c.methodId, c.args);
    var h := CallHeader(r, request);
    ArgsArrive(r, c.methodId, c.args);
    FrameEncoder.SmallChunksFit(c.streamId, DEFAULT_SERVICE_MAX_CHUNK_SIZE, MessageOps(h, request.payload, true));
    MessageCompletes(c.streamId, DEFAULT_SERVICE_MAX_CHUNK_SIZE, h, request.payload);
  }

  lemma StaysUsed(p: Peer, p': Peer, id: U32)
    requires UsedId(p, id) && p'.space == p.space && p'.base == p.base && p.draws <= p'.draws
    requires p'.nextRequest == p.nextRequest || p'.nextRequest >= p.draws
    requires p'.nextStream == p.nextStream || p'.nextStream >= p.draws
    ensures UsedId(p', id)
  {
    var d :| Used(p, d) && id == Place(p.space, Draw(d));
    assert Used(p', d);
  }

  lemma CallKeepsIds(p: Peer, methodId: U64, args: Bytes.Data)
    requires IdsInv(p) && CanCall(p, methodId, args)
    ensures IdsInv(MakeCall(p, methodId, args))
  {
    var p' := MakeCall(p, methodId, args);
    assert Used(p', p.nextRequest) && Used(p', p.nextStream);
    forall s | s in p'.msgs
      ensures UsedId(p', s)
    {
      if s != NextStreamId(p) { StaysUsed(p, p', s); }
    }
    forall r | r in p'.calls
      ensures UsedId(p', r)
    {
      if r != NextRequestId(p) { StaysUsed(p, p', r); }
    }
  }

  ghost predicate Calls(p: Peer, p': Peer, r: U32, c: CallRecord) {
    && InHalf(p.space, r) && r !in p.calls && c.streamId !in p.msgs
    && p'.space == p.space && p'.inbox == p.inbox && p'.answered == p.answered
    && p'.calls == p.calls[r := c] && p'.msgs == p.msgs[c.streamId := CallMessage(r, c)]
  }

  lemma CallIsNew(service: Service, p: Peer, p': Peer, r: U32, c: CallRecord)
    requires LedgerInv(service, p) && Calls(p, p', r, c)
    ensures OnePerRequest(p'.msgs)
  {
    forall s | s in p.msgs
      ensures p.msgs[s].header.requestId != r
    {
      assert Origin(p, s);
    }
    NewRequest(p.msgs, c.streamId, CallMessage(r, c));
  }

  lemma CallKeepsOrigins(service: Service, p: Peer, p': Peer, r: U32, c: CallRecord)
    requires LedgerInv(service, p) && Calls(p, p', r, c)
    ensures forall s | s in p'.msgs :: Origin(p', s)
  {
    forall s | s in p'.msgs
      ensures Origin(p', s)
    {
      if s != c.streamId { assert Origin(p, s); }
    }
  }

  lemma CallKeepsLedger(service: Service, p: Peer, p': Peer, r: U32, c: CallRecord)
    requires LedgerInv(service, p) && Calls(p, p', r, c)
    ensures LedgerInv(service, p')
  {
    CallIsNew(service, p, p', r, c);
    CallKeepsOrigins(service, p, p', r, c);
    KeepsSent(service, p, p');
    assert CallSent(p', r);
  }

  lemma CallKeepsSender(service: Service, p: Peer, methodId: U64, args: Bytes.Data)
    requires SenderInv(service, p) && CanCall(p, methodId, args)
    ensures SenderInv(service, MakeCall(p, methodId, args))
  {
    var r, c := NextRequestId(p), NextCall(p, methodId, args);
    NextIdsFresh(p);
    CallCompletes(r, c);
    CarriesMore(p.sent, p.msgs, c.streamId, CallFrames(r, c), CallMessage(r, c));
    CallKeepsIds(p, methodId, args);
    CallKeepsLedger(service, p, MakeCall(p, methodId, args), r, c);
  }

  lemma NoCallsAtAll(ds: seq<Delivery>)
    requires HandlerCalls(ds) == [] && CatchAlls(ds) == []
    ensures ds == []
  {
  }

  /** A call starts a view of its own and leaves the others alone. */
  lemma CallKeepsView(p: Peer, methodId: U64, args: Bytes.Data, r: U32, events: seq<RpcEvent>)
    requires TablesInv(p) && View(p, r, events) && NextRequestId(p) !in p.calls
    requires r == NextRequestId(p) ==> events == []
    ensures View(MakeCall(p, methodId, args), r, events) && TablesInv(MakeCall(p, methodId, args))
  {
    var p' := MakeCall(p, methodId, args);
    var x := Register(NextRequestId(p), p.clock, true, false);
    RouterKeepsKeys();
    StepKeepsLanes(ROUTER, AnySlot, p.slots, x);
    if r == NextRequestId(p) {
      NoCallsAtAll(Select(DeliveryRequest, p.log, r));
      assert Get(p'.slots, r) == Some(Slot(Some(p.clock), Some(false), None));
    } else {
      assert Get(p'.slots, r) == Get(p.slots, r);
    }
  }

  // ---------------------------------------------------------------- answering

  predicate CanAnswer(p: Peer, service: Service, i: nat) {
    && i < |p.inbox| && i !in p.answered
    && |ReplyFrames(NextStreamId(p), Answer(service, p.inbox[i].id, p.inbox[i].request))| < TWO_32
    && p.draws + 1 <= p.base + TWO_31
  }

  lemma ReplyCompletes(service: Service, e: Entry, s: U32)
    requires |ReplyFrames(s, Answer(service, e.id, e.request))| < TWO_32
    ensures Session.Sendable(ReplyMessage(service, e))
    ensures FrameEncoder.Complete(s, ReplyFrames(s, Answer(service, e.id, e.request)),
                                  Session.MessageBytes(ReplyMessage(service, e)))
  {
    var reply := Answer(service, e.id, e.request);
    FrameEncoder.SmallChunksFit(s, DEFAULT_SERVICE_MAX_CHUNK_SIZE, MessageOps(ReplyHeader(reply), reply.payload, true));
    MessageCompletes(s, DEFAULT_SERVICE_MAX_CHUNK_SIZE, ReplyHeader(reply), reply.payload);
  }

  /** The inbox holds requests of the other half, each once. */
  ghost predicate InboxInv(p: Peer) {
    && (forall e | e in p.inbox :: !InHalf(p.space, e.id))
    && (forall i, j | 0 <= i < j < |p.inbox| :: p.inbox[i].id != p.inbox[j].id)
  }

  lemma AnswerKeepsIds(service: Service, p: Peer, i: nat)
    requires IdsInv(p) && CanAnswer(p, service, i)
    ensures IdsInv(SendAnswer(p, service, i))
  {
    var p' := SendAnswer(p, service, i);
    assert Used(p', p.nextStream);
    forall s | s in p'.msgs
      ensures UsedId(p', s)
    {
      if s != NextStreamId(p) { StaysUsed(p, p', s); }
    }
    forall r | r in p'.calls
      ensures UsedId(p', r)
    {
      StaysUsed(p, p', r);
    }
  }

  lemma ReplyIsAbout(service: Service, e: Entry)
    ensures ReplyMessage(service, e).header.requestId == e.id
  {
  }

  lemma AnswerIsAbout(service: Service, p: Peer, j: nat)
    requires LedgerInv(service, p) && j in p.answered
    ensures var s := p.answered[j];
            j < |p.inbox| && s in p.msgs && p.msgs[s].header.requestId == p.inbox[j].id
  {
    assert AnswerSent(service, p, j);
    ReplyIsAbout(service, p.inbox[j]);
  }

  lemma OriginIsOther(p: Peer, i: nat, s: U32, j: nat)
    requires InboxInv(p) && i < |p.inbox| && j < |p.inbox| && i != j && s in p.msgs
    requires p.msgs[s].header.requestId == p.inbox[j].id
    ensures p.msgs[s].header.requestId != p.inbox[i].id
  {
  }

  lemma AnsweredOnce(service: Service, p: Peer, i: nat, s: U32)
    requires LedgerInv(service, p) && InboxInv(p) && i < |p.inbox| && i !in p.answered && s in p.msgs
    ensures p.msgs[s].header.requestId != p.inbox[i].id
  {
    if InHalf(p.space, p.msgs[s].header.requestId) {
      assert p.inbox[i] in p.inbox;
    } else {
      assert Origin(p, s);
      var j :| j in p.answered && p.answered[j] == s;
      AnswerIsAbout(service, p, j);
      OriginIsOther(p, i, s, j);
    }
  }

  ghost predicate Answers(service: Service, p: Peer, p': Peer, i: nat, s: U32) {
    && i < |p.inbox| && i !in p.answered && s !in p.msgs
    && p'.space == p.space && p'.inbox == p.inbox && p'.calls == p.calls
    && p'.answered == p.answered[i := s] && p'.msgs == p.msgs[s := ReplyMessage(service, p.inbox[i])]
  }

  lemma AnswerIsNew(service: Service, p: Peer, p': Peer, i: nat, s: U32)
    requires LedgerInv(service, p) && InboxInv(p) && Answers(service, p, p', i, s)
    ensures OnePerRequest(p'.msgs)
  {
    var m := ReplyMessage(service, p.inbox[i]);
    ReplyIsAbout(service, p.inbox[i]);
    forall t | t in p.msgs
      ensures p.msgs[t].header.requestId != m.header.requestId
    {
      AnsweredOnce(service, p, i, t);
    }
    NewRequest(p.msgs, s, m);
  }

  lemma AnswerKeepsOrigins(service: Service, p: Peer, p': Peer, i: nat, s: U32)
    requires LedgerInv(service, p) && InboxInv(p) && Answers(service, p, p', i, s)
    ensures forall t | t in p'.msgs :: Origin(p', t)
  {
    ReplyIsAbout(service, p.inbox[i]);
    forall t | t in p'.msgs
      ensures Origin(p', t)
    {
      AnswerKeepsOrigin(p, p', i, s, t);
    }
  }

  lemma AnswerKeepsLedger(service: Service, p: Peer, p': Peer, i: nat, s: U32)
    requires LedgerInv(service, p) && InboxInv(p) && Answers(service, p, p', i, s)
    ensures LedgerInv(service, p')
  {
    AnswerIsNew(service, p, p', i, s);
    AnswerKeepsOrigins(service, p, p', i, s);
    AnswerKeepsSent(service, p, p', i, s);
  }

  lemma AnswerKeepsSent(service: Service, p: Peer, p': Peer, i: nat, s: U32)
    requires LedgerInv(service, p) && Answers(service, p, p', i, s)
    ensures forall r | r in p'.calls :: CallSent(p', r)
    ensures forall j | j in p'.answered :: AnswerSent(service, p', j)
  {
    KeepsSent(service, p, p');
    assert AnswerSent(service, p', i);
  }

  lemma NewRequest(msgs: map<U32, Message>, s: U32, m: Message)
    requires OnePerRequest(msgs) && forall t | t in msgs :: msgs[t].header.requestId != m.header.requestId
    ensures OnePerRequest(msgs[s := m])
  {
  }

  /** Messages that are already sent stay accounted for. */
  lemma KeepsSent(service: Service, p: Peer, p': Peer)
    requires LedgerInv(service, p) && p'.space == p.space && p'.inbox == p.inbox
    requires forall t | t in p.msgs :: t in p'.msgs && p'.msgs[t] == p.msgs[t]
    ensures forall r | r in p'.calls && r in p.calls && p'.calls[r] == p.calls[r] :: CallSent(p', r)
    ensures forall j | j in p'.answered && j in p.answered && p'.answered[j] == p.answered[j] :: AnswerSent(service, p', j)
  {
    forall r | r in p'.calls && r in p.calls && p'.calls[r] == p.calls[r]
      ensures CallSent(p', r)
    {
      assert CallSent(p, r);
    }
    forall j | j in p'.answered && j in p.answered && p'.answered[j] == p.answered[j]
      ensures AnswerSent(service, p', j)
    {
      assert AnswerSent(service, p, j);
    }
  }

  lemma AnswerKeepsOrigin(p: Peer, p': Peer, i: nat, s: U32, t: U32)
    requires InboxInv(p) && i < |p.inbox| && i !in p.answered && s !in p.msgs && t in p'.msgs
    requires p'.space == p.space && p'.calls == p.calls && p'.answered == p.answered[i := s]
    requires p'.msgs.Keys == p.msgs.Keys + {s} && forall u | u in p.msgs :: p'.msgs[u] == p.msgs[u]
    requires p'.msgs[s].header.requestId == p.inbox[i].id
    requires t in p.msgs ==> Origin(p, t)
    ensures Origin(p', t)
  {
    if t == s {
      assert p.inbox[i] in p.inbox;
      assert i in p'.answered && p'.answered[i] == s;
    } else if !InHalf(p.space, p.msgs[t].header.requestId) {
      var j :| j in p.answered && p.answered[j] == t;
      assert j in p'.answered && p'.answered[j] == t;
    }
  }

  lemma AnswerKeepsSender(service: Service, p: Peer, i: nat)
    requires SenderInv(service, p) && InboxInv(p) && CanAnswer(p, service, i)
    ensures SenderInv(service, SendAnswer(p, service, i))
  {
    var s, e := NextStreamId(p), p.inbox[i];
    NextIdsFresh(p);
    ReplyCompletes(service, e, s);
    CarriesMore(p.sent, p.msgs, s, ReplyFrames(s, Answer(service, e.id, e.request)), ReplyMessage(service, e));
    AnswerKeepsIds(service, p, i);
    AnswerKeepsLedger(service, p, SendAnswer(p, service, i), i, s);
  }
}
