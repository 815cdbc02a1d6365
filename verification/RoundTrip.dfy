/** Requests from dispatcher to dispatcher: any number of calls, finalized or streamed, with any
    parameters, payloads and chunk sizes, their frames permuted and the bytes read in any slices, are
    handed out exactly once each and as they were made. */
module RoundTrip {
  import opened Bytes
  import opened Sequences
  import opened FrameCodec
  import opened RpcStream
  import opened IdBits
  import opened Routing
  import opened Inbox
  import opened Dispatcher
  import opened Link
  import opened Peer
  import opened PeerObjects
  import FrameEncoder
  import InOrder
  import Session

  /** A call, and what is written to its stream after the call if it is not finalized. */
  datatype Sent = Sent(id: U32, request: Request, maxChunkSize: nat, more: seq<FrameEncoder.Op>)

  function FramesOf(s: U32, c: Sent): seq<Frame>
    requires c.maxChunkSize > 0
  {
    var h := CallHeader(c.id, c.request);
    if c.request.isFinalized then MessageRun(s, c.maxChunkSize, h, c.request.payload, true).frames
    else FrameEncoder.RunOps(FrameEncoder.New(s, c.maxChunkSize), StreamedOps(h, c.request.payload, c.more)).frames
  }

  /** The request that is made in the end: a streamed one has everything written as its payload. */
  function Whole(c: Sent): Request {
    if c.request.isFinalized then c.request
    else c.request.(payload := Some(PayloadOf(c.request.payload) + FrameEncoder.Written(c.more)), isFinalized := true)
  }

  function MessageOf(c: Sent): Session.Message {
    Session.Message(CallHeader(c.id, Whole(c)), PayloadOf(Whole(c).payload))
  }

  /** A call whose parameters, payload and frames the fields of the wire format can hold. */
  ghost predicate Holds(s: U32, c: Sent) {
    && c.maxChunkSize > 0 && FrameEncoder.OnlyWrites(c.more)
    && |CallHeader(c.id, c.request).metadata| < TWO_16 && FrameEncoder.Fits(FramesOf(s, c))
  }

  /** `wire` carries the calls `calls`, each on a stream of its own and with an id of its own. */
  ghost predicate SentOn(wire: seq<Frame>, calls: map<U32, Sent>) {
    && (forall s: U32 :: if s in calls then Holds(s, calls[s]) && InOrder.Own(wire, s) == FramesOf(s, calls[s])
                         else InOrder.Own(wire, s) == [])
    && (forall s, t | s in calls && t in calls && calls[s].id == calls[t].id :: s == t)
  }

  function Messages(calls: map<U32, Sent>): map<U32, Session.Message> {
    map s | s in calls :: MessageOf(calls[s])
  }

  lemma CallsCarried(wire: seq<Frame>, calls: map<U32, Sent>)
    requires SentOn(wire, calls)
    ensures Session.Carries(wire, Messages(calls)) && OnePerRequest(Messages(calls))
  {
    forall s: U32 | s in calls
      ensures Session.Sendable(MessageOf(calls[s]))
      ensures FrameEncoder.Complete(s, InOrder.Own(wire, s), Session.MessageBytes(MessageOf(calls[s])))
    {
      var c := calls[s];
      if c.request.isFinalized {
        MessageCompletes(s, c.maxChunkSize, CallHeader(c.id, c.request), c.request.payload);
      } else {
        StreamedCompletes(s, c.maxChunkSize, CallHeader(c.id, c.request), c.request.payload, c.more);
      }
    }
  }

  // ---------------------------------------------------------------- listening

  /** A peer that reads slices one after the other, each with a hand-out behind it. */
  function Hear(p: Peer, slices: seq<Bytes.Data>): Peer {
    if slices == [] then p else ReadBytes(Hear(p, slices[..|slices| - 1]), slices[|slices| - 1])
  }

  /** A peer without calls of its own that has read the first `n` bytes of `arrivals`. */
  ghost predicate Heeds(p: Peer, arrivals: seq<Frame>, n: nat)
    requires n <= |EncodeAll(arrivals)|
  {
    p.calls == map[] && InStep(p, Session.Received(arrivals, n).0, Heard(arrivals, n))
  }

  lemma HeedsNothing(space: IdSpace, base: nat, arrivals: seq<Frame>)
    ensures Heeds(Initial(space, base), arrivals, 0)
  {
    NothingRead(arrivals);
  }

  lemma {:induction false} HeedsSlices(wire: seq<Frame>, msgs: map<U32, Session.Message>, arrivals: seq<Frame>, n: nat,
                                       slices: seq<Bytes.Data>, space: IdSpace, base: nat)
    requires Session.InTransit(wire, msgs, arrivals, n) && OnePerRequest(msgs)
    requires Flatten(slices) == EncodeAll(arrivals)[..n]
    ensures Heeds(Hear(Initial(space, base), slices), arrivals, n)
    decreases |slices|
  {
    if slices == [] {
      HeedsNothing(space, base, arrivals);
    } else {
      var front, last, bytes := slices[..|slices| - 1], slices[|slices| - 1], EncodeAll(arrivals);
      var k := |Flatten(front)|;
      assert bytes[..n] == Flatten(front) + last;
      assert bytes[..n][..k] == bytes[..k] && bytes[..n][k..] == bytes[k..n];
      HeedsSlices(wire, msgs, arrivals, k, front, space, base);
      ReadKeepsStep(wire, msgs, arrivals, k, n - k, Hear(Initial(space, base), front), last);
    }
  }

  // ---------------------------------------------------------------- what is handed out

  lemma HandedOutOf(calls: map<U32, Sent>, wire: seq<Frame>, arrivals: seq<Frame>, n: nat, p: Peer, s: U32)
    requires Session.InTransit(wire, Messages(calls), arrivals, n) && Session.AllDelivered(wire, arrivals, n)
    requires OnePerRequest(Messages(calls)) && Heeds(p, arrivals, n)
    requires s in calls
    ensures var c := calls[s]; Of(p.inbox, c.id) == [Entry(c.id, Normal(Whole(c)))] && Of(p.queue, c.id) == []
  {
    var c := calls[s];
    var m, events := MessageOf(c), Select(RequestOf, Heard(arrivals, n), c.id);
    HeardOfRequest(wire, Messages(calls), arrivals, n, s);
    var cs :| Told(m.header, m.payload, events, cs, true);
    ScriptRequests(m.header, cs, true);
    ScriptQueued(m.header, cs);
    assert View(p, c.id, events);
    RequestSurvives(c.id, Whole(c));
  }

  lemma NothingHandedOutOf(calls: map<U32, Sent>, wire: seq<Frame>, arrivals: seq<Frame>, n: nat, p: Peer, r: U32)
    requires Session.InTransit(wire, Messages(calls), arrivals, n) && Heeds(p, arrivals, n)
    requires forall s | s in calls :: calls[s].id != r
    ensures Of(p.inbox, r) == [] && Of(p.queue, r) == []
  {
    NothingHeard(wire, Messages(calls), arrivals, n, r);
    assert View(p, r, Select(RequestOf, Heard(arrivals, n), r));
  }

  lemma EmptyQueue(q: seq<Entry>)
    requires forall r: U32 :: Of(q, r) == []
    ensures q == []
  {
    if q != [] {
      assert Of(q, q[0].id) == [];
      SelectMember(EntryId, q, q[0], q[0].id);
    }
  }

  /** What is handed out of `calls`: one entry each, as it was made, and nothing else. */
  ghost predicate HandedOutAll(calls: map<U32, Sent>, out: seq<Entry>) {
    && (forall s | s in calls :: Of(out, calls[s].id) == [Entry(calls[s].id, Normal(Whole(calls[s])))])
    && (forall r: U32 | (forall s | s in calls :: calls[s].id != r) :: Of(out, r) == [])
  }

  lemma HandedOutEach(calls: map<U32, Sent>, wire: seq<Frame>, arrivals: seq<Frame>, n: nat, p: Peer)
    requires Session.InTransit(wire, Messages(calls), arrivals, n) && Session.AllDelivered(wire, arrivals, n)
    requires OnePerRequest(Messages(calls)) && Heeds(p, arrivals, n)
    ensures HandedOutAll(calls, p.inbox) && p.queue == []
  {
    forall s | s in calls
      ensures Of(p.inbox, calls[s].id) == [Entry(calls[s].id, Normal(Whole(calls[s])))]
    {
      HandedOutOf(calls, wire, arrivals, n, p, s);
    }
    forall r: U32
      ensures Of(p.queue, r) == [] && ((forall s | s in calls :: calls[s].id != r) ==> Of(p.inbox, r) == [])
    {
      if s :| s in calls && calls[s].id == r {
        HandedOutOf(calls, wire, arrivals, n, p, s);
      } else {
        NothingHandedOutOf(calls, wire, arrivals, n, p, r);
      }
    }
    EmptyQueue(p.queue);
  }

  /** Dispatcher round trip: once all bytes have been read, in whatever slices and with a hand-out
      after each, every call has been handed out exactly once, as it was made, nothing else has
      been handed out, and the queue is empty. */
  lemma CallsHandedOut(wire: seq<Frame>, calls: map<U32, Sent>, arrivals: seq<Frame>, slices: seq<Bytes.Data>,
                       space: IdSpace, base: nat)
    requires SentOn(wire, calls) && multiset(arrivals) == multiset(wire) && Flatten(slices) == EncodeAll(arrivals)
    ensures var p := Hear(Initial(space, base), slices);
            HandedOutAll(calls, p.inbox) && p.queue == []
  {
    var msgs, n, p := Messages(calls), |EncodeAll(arrivals)|, Hear(Initial(space, base), slices);
    CallsCarried(wire, calls);
    assert EncodeAll(arrivals)[..n] == EncodeAll(arrivals);
    HeedsSlices(wire, msgs, arrivals, n, slices, space, base);
    HandedOutEach(calls, wire, arrivals, n, p);
  }

  /** The loop of a serving end over the slices of its transport. */
  method ServeSlices(d: RpcDispatcher, slices: seq<Bytes.Data>, ghost space: IdSpace, ghost base: nat,
                     ghost wire: seq<Frame>, ghost calls: map<U32, Sent>, ghost arrivals: seq<Frame>)
    returns (out: seq<Entry>)
    requires StandsFor(d, Initial(space, base))
    requires SentOn(wire, calls) && multiset(arrivals) == multiset(wire) && Flatten(slices) == EncodeAll(arrivals)
    modifies d`queue, d.respondable, d.respondable.session`decoders, d.respondable.session.mux
    ensures HandedOutAll(calls, out) && d.queue == []
  {
    out := [];
    for i := 0 to |slices|
      invariant StandsFor(d, Hear(Initial(space, base), slices[..i])) && out == Hear(Initial(space, base), slices[..i]).inbox
    {
      assert slices[..i + 1][..i] == slices[..i];
      var ds, r := PeerObjects.ReadOn(d, Hear(Initial(space, base), slices[..i]), slices[i]);
      if r.Ok? {
        out := out + r.value;
      }
    }
    assert slices[..|slices|] == slices;
    CallsHandedOut(wire, calls, arrivals, slices, space, base);
  }
}
