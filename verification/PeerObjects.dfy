/** The dispatcher objects do what the peers of the network do: calling, serving and answering on
    an object that stands for a peer leaves it standing for the peer's next state. */
module PeerObjects {
  import opened Bytes
  import opened Sequences
  import opened FrameCodec
  import opened Ids
  import opened IdBits
  import opened Routing
  import opened Inbox
  import opened Dispatcher
  import opened Service
  import opened Peer
  import opened Disconnection
  import FrameEncoder
  import Lifecycle

  ghost predicate StandsFor(d: RpcDispatcher, p: Peer)
    reads d, d.respondable, d.respondable.session, d.respondable.session.mux
  {
    && d.space == p.space == d.respondable.session.space
    && d.nextRequestId == Draw(p.nextRequest) && d.respondable.session.nextStreamId == Draw(p.nextStream)
    && d.respondable.Abs() == p.session && d.respondable.SlotMap() == p.slots
    && d.respondable.clock == p.clock && d.respondable.streaming == {}
    && d.queue == p.queue && QueueInv(d.queue)
  }

  /** The bytes that a stream of frames is emitted as, frame by frame. */
  ghost function Emission(frames: seq<Frame>): seq<Bytes.Data> {
    FrameEncoder.EncodeEach(frames)
  }

  method NewPeer(space: IdSpace, counter: IdCounter) returns (d: RpcDispatcher, ghost p: Peer)
    requires counter.Valid()
    modifies counter
    ensures fresh(d) && fresh(d.respondable) && fresh(d.respondable.session) && fresh(d.respondable.session.mux)
    ensures counter.Valid() && counter.draws == p.draws
    ensures p == Initial(space, old(counter.draws)) && StandsFor(d, p)
  {
    p := Initial(space, counter.draws);
    d := new RpcDispatcher(space, counter);
  }

  /** The receivers of all calls of a peer, each of which stands for what its call has received. */
  ghost predicate Listening(p: Peer, receivers: map<Token, CallReceiver>)
    reads set t | t in receivers :: receivers[t]
  {
    && Unshared(receivers)
    && (forall t | t in receivers :: t < p.clock)
    && forall r | r in p.calls :: p.calls[r].token in receivers && receivers[p.calls[r].token].Abs() == ReceivedBy(p, r)
  }

  /** Every handler that was called belongs to a call. */
  ghost predicate Orderly(p: Peer) {
    TokensInv(p) && forall d | d in p.log :: OwnCall(p, d)
  }

  lemma NothingReceivedYet(p: Peer)
    requires Orderly(p)
    ensures Select(DeliveryToken, p.log, p.clock) == []
  {
    forall d | d in p.log
      ensures DeliveryToken(d) != Some(p.clock)
    {
      assert OwnCall(p, d);
    }
    SelectNone(DeliveryToken, p.log, p.clock);
  }

  /** A prebuffered call of the service caller. */
  method CallOn(d: RpcDispatcher, counter: IdCounter, ghost p: Peer, methodId: U64, args: Bytes.Data)
    returns (emitted: seq<Bytes.Data>, id: U32)
    requires counter.Valid() && counter.draws == p.draws && StandsFor(d, p)
    modifies d`nextRequestId, d.respondable, d.respondable.session`nextStreamId, counter
    ensures var p' := MakeCall(p, methodId, args);
            counter.Valid() && counter.draws == p'.draws && StandsFor(d, p')
    ensures id == NextRequestId(p)
    ensures emitted == Emission(CallFrames(NextRequestId(p), NextCall(p, methodId, args)))
  {
    var e;
    e, id := d.Call(PlaceArgs(methodId, args), DEFAULT_SERVICE_MAX_CHUNK_SIZE, true, false, counter);
    emitted := e.encoder.emitted;
  }

  /** A new call comes with a receiver of its own. */
  method NewReceiver(ghost p: Peer, ghost methodId: U64, ghost args: Bytes.Data, token: Token,
                     receivers: map<Token, CallReceiver>) returns (all: map<Token, CallReceiver>)
    requires Orderly(p) && NextRequestId(p) !in p.calls && Listening(p, receivers) && token == p.clock
    ensures token in all && fresh(all[token]) && all == receivers[token := all[token]]
    ensures Listening(MakeCall(p, methodId, args), all)
  {
    var receiver := new CallReceiver();
    all := receivers[token := receiver];
    Joins(p, MakeCall(p, methodId, args), NextRequestId(p), receivers, receiver);
  }

  lemma Joins(p: Peer, p': Peer, r: U32, receivers: map<Token, CallReceiver>, receiver: CallReceiver)
    requires Orderly(p) && Listening(p, receivers) && r !in p.calls && receiver.Abs() == LISTENING
    requires forall t | t in receivers :: receivers[t] != receiver
    requires r in p'.calls && p'.calls == p.calls[r := p'.calls[r]] && p'.calls[r].token == p.clock
    requires p'.log == p.log && p'.clock == p.clock + 1
    ensures Listening(p', receivers[p.clock := receiver])
  {
    NothingReceivedYet(p);
  }

  /** The first stage of serving. */
  method ReadOn(d: RpcDispatcher, ghost p: Peer, bytes: Bytes.Data)
    returns (ds: seq<Delivery>, r: Result<seq<Entry>, FrameDecodeError>)
    requires StandsFor(d, p)
    modifies d`queue, d.respondable, d.respondable.session`decoders, d.respondable.session.mux
    ensures StandsFor(d, ReadBytes(p, bytes)) && ReadBytes(p, bytes).log == p.log + ds
    ensures r.Ok? ==> ReadBytes(p, bytes).inbox == p.inbox + r.value
    ensures r.Err? ==> ReadBytes(p, bytes).inbox == p.inbox
  {
    ds, r := DecodeBytes(d, bytes);
  }

  /** The handlers that a batch calls feed the receivers of their calls. */
  method DeliverOn(ghost p: Peer, ghost p': Peer, ds: seq<Delivery>, receivers: map<Token, CallReceiver>)
    requires Listening(p, receivers)
    requires p'.calls == p.calls && p.clock <= p'.clock && p'.log == p.log + ds
    modifies set t | t in receivers :: receivers[t]
    ensures Listening(p', receivers)
  {
    Deliver(ds, receivers);
    forall r | r in p.calls
      ensures receivers[p.calls[r].token].Abs() == ReceivedBy(p', r)
    {
      ReceivedMore(p, p', ds, r);
    }
  }

  /** Reading: the object stands for the next state of the peer, and every receiver for what its
      call has received by then. */
  method ListenOn(d: RpcDispatcher, ghost p: Peer, bytes: Bytes.Data, receivers: map<Token, CallReceiver>)
    returns (r: Result<seq<Entry>, FrameDecodeError>)
    requires StandsFor(d, p) && Listening(p, receivers)
    modifies d`queue, d.respondable, d.respondable.session`decoders, d.respondable.session.mux
    modifies set t | t in receivers :: receivers[t]
    ensures StandsFor(d, ReadBytes(p, bytes)) && Listening(ReadBytes(p, bytes), receivers)
    ensures ReadBytes(p, bytes).inbox == p.inbox + if r.Ok? then r.value else []
  {
    var ds;
    ds, r := ReadOn(d, p, bytes);
    assert p.inbox + [] == p.inbox;
    DeliverOn(p, ReadBytes(p, bytes), ds, receivers);
  }

  lemma ReceivedMore(p: Peer, p': Peer, ds: seq<Delivery>, r: U32)
    requires r in p.calls && p'.calls == p.calls && p'.log == p.log + ds
    ensures ReceivedBy(p', r) == Receive(ReceivedBy(p, r), HandlerCalls(Select(DeliveryToken, ds, p.calls[r].token)))
  {
    var t := p.calls[r].token;
    SelectAppend(DeliveryToken, p.log, ds, t);
    CallsAppend(Select(DeliveryToken, p.log, t), Select(DeliveryToken, ds, t));
    ReceiveAppend(LISTENING, HandlerCalls(Select(DeliveryToken, p.log, t)), HandlerCalls(Select(DeliveryToken, ds, t)));
  }

  /** The other two stages, for one request. */
  method AnswerOn(d: RpcDispatcher, counter: IdCounter, ghost p: Peer, service: Service, ghost i: nat, e: Entry)
    returns (emitted: seq<Bytes.Data>)
    requires counter.Valid() && counter.draws == p.draws && StandsFor(d, p)
    requires i < |p.inbox| && e == p.inbox[i]
    modifies d.respondable.session`nextStreamId, counter
    ensures var p' := SendAnswer(p, service, i);
            counter.Valid() && counter.draws == p'.draws && StandsFor(d, p')
    ensures emitted == Emission(ReplyFrames(NextStreamId(p), Answer(service, e.id, e.request)))
  {
    var replies := RunHandlers(service, [e]);
    var sent := d.Respond(replies[0], DEFAULT_SERVICE_MAX_CHUNK_SIZE, counter);
    emitted := sent.encoder.emitted;
  }

  /** Losing the connection: every pending handler is called, and feeds its receiver. */
  method DisconnectOn(d: RpcDispatcher, ghost p: Peer, cause: FrameDecodeError, receivers: map<Token, CallReceiver>)
    returns (ghost order: seq<U32>)
    requires StandsFor(d, p) && Listening(p, receivers)
    modifies d`queue, d.respondable`handlers, d.respondable`flags, d.respondable`buffers
    modifies set t | t in receivers :: receivers[t]
    ensures Lifecycle.Enumerates(p.slots, order)
    ensures StandsFor(d, Disconnect(p, cause, order)) && Listening(Disconnect(p, cause, order), receivers)
  {
    var ds;
    order, ds := d.FailAllPendingRequests(cause);
    DeliverOn(p, Disconnect(p, cause, order), ds, receivers);
  }
}
