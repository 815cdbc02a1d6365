/** One direction of a connection, request by request: the messages of a sender, in transit, as
    the events of a receiver. */
module Link {
  import opened Bytes
  import opened Sequences
  import opened Lanes
  import opened FrameCodec
  import opened RpcStream
  import opened Routing
  import opened Session
  import FrameMux
  import FrameEncoder
  import InOrder

  /** What the receiver has heard. */
  function Heard(arrivals: seq<Frame>, n: nat): seq<RpcEvent>
    requires n <= |EncodeAll(arrivals)|
  {
    Events(Session.Received(arrivals, n).1)
  }

  function OutRequest(o: Out): Option<U32> {
    RequestOf(o.event)
  }

  /** No two messages of the sender are about the same request. */
  ghost predicate OnePerRequest(msgs: map<U32, Message>) {
    forall s, t | s in msgs && t in msgs && msgs[s].header.requestId == msgs[t].header.requestId :: s == t
  }

  lemma {:induction false} SelectEvents(outs: seq<Out>, r: U32)
    ensures Select(RequestOf, Events(outs), r) == Events(Select(OutRequest, outs, r))
  {
    if outs != [] {
      var n := |outs| - 1;
      SelectEvents(outs[..n], r);
      assert Events(outs)[..n] == Events(outs[..n]);
    }
  }

  /** What is told of a message is about its request, and does not go on after the end. */
  lemma TellingIsOrderly(h: RpcHeader, data: Bytes.Data, events: seq<RpcEvent>)
    requires Telling(h, data, events)
    ensures OfRequest(h.requestId, events) && EndsOnce(events)
  {
    if events != [] {
      var cs, ended :| Told(h, data, events, cs, ended);
      ScriptRequests(h, cs, ended);
    }
  }

  lemma HeardStream(wire: seq<Frame>, msgs: map<U32, Message>, arrivals: seq<Frame>, n: nat, o: Out)
    requires InTransit(wire, msgs, arrivals, n) && o in Session.Received(arrivals, n).1
    ensures o.stream.Some? && o.stream.value in msgs
            && RequestOf(o.event) == Some(msgs[o.stream.value].header.requestId)
  {
    var items := FrameMux.Read(FrameMux.EMPTY, EncodeAll(arrivals)[..n]).1;
    PipeClean(wire, msgs, arrivals, n);
    ProcessIsRun(map[], items);
    var outs := Session.Received(arrivals, n).1;
    assert outs == Run(SESSION, map[], items).1;
    var s := o.stream.value;
    PipeTells(wire, msgs, arrivals, n, s);
    var own := Select(OutStream, outs, s);
    TellingIsOrderly(msgs[s].header, msgs[s].payload, Events(own));
    SelectMember(OutStream, outs, o, s);
    var i :| 0 <= i < |own| && own[i] == o;
    assert Events(own)[i] in Events(own);
  }

  /** The events of a request are those of the stream that carries its message. */
  lemma HeardOfStream(wire: seq<Frame>, msgs: map<U32, Message>, arrivals: seq<Frame>, n: nat, s: U32)
    requires InTransit(wire, msgs, arrivals, n) && OnePerRequest(msgs) && s in msgs
    ensures Select(RequestOf, Heard(arrivals, n), msgs[s].header.requestId)
            == Events(Select(OutStream, Session.Received(arrivals, n).1, s))
  {
    var outs, r := Session.Received(arrivals, n).1, msgs[s].header.requestId;
    forall o | o in outs
      ensures OutRequest(o) == Some(r) <==> OutStream(o) == Some(s)
    {
      HeardStream(wire, msgs, arrivals, n, o);
    }
    SelectSame(OutRequest, OutStream, outs, r, s);
    SelectEvents(outs, r);
  }

  /** At every moment, what has been heard of a request is a part of its message told in order,
      and once everything is delivered it is all of it. */
  lemma HeardOfRequest(wire: seq<Frame>, msgs: map<U32, Message>, arrivals: seq<Frame>, n: nat, s: U32)
    requires InTransit(wire, msgs, arrivals, n) && OnePerRequest(msgs) && s in msgs
    ensures var m := msgs[s];
            var events := Select(RequestOf, Heard(arrivals, n), m.header.requestId);
            && Telling(m.header, m.payload, events)
            && (AllDelivered(wire, arrivals, n) ==> exists cs :: Told(m.header, m.payload, events, cs, true))
  {
    HeardOfStream(wire, msgs, arrivals, n, s);
    PipeTells(wire, msgs, arrivals, n, s);
  }

  /** Nothing is heard of a request that no message is about. */
  lemma NothingHeard(wire: seq<Frame>, msgs: map<U32, Message>, arrivals: seq<Frame>, n: nat, r: U32)
    requires InTransit(wire, msgs, arrivals, n)
    requires forall s | s in msgs :: msgs[s].header.requestId != r
    ensures Select(RequestOf, Heard(arrivals, n), r) == []
  {
    var outs := Session.Received(arrivals, n).1;
    forall e | e in Heard(arrivals, n)
      ensures RequestOf(e) != Some(r)
    {
      var i :| 0 <= i < |outs| && outs[i].event == e;
      HeardStream(wire, msgs, arrivals, n, outs[i]);
    }
    SelectNone(RequestOf, Heard(arrivals, n), r);
  }

  // ---------------------------------------------------------------- progress of the link

  lemma ContinueRead(a: Bytes.Data, b: Bytes.Data)
    requires Read(EMPTY, a).2 == None
    ensures var (s, outs, _) := Read(EMPTY, a);
            var (s', more, err) := Read(s, b);
            Read(EMPTY, a + b) == (s', outs + more, err)
  {
    SplitAfterSuccess(EMPTY, a, b);
  }

  lemma NoFailure(wire: seq<Frame>, msgs: map<U32, Message>, arrivals: seq<Frame>, n: nat)
    requires InTransit(wire, msgs, arrivals, n)
    ensures Session.Received(arrivals, n).2 == None
  {
    PipeTells(wire, msgs, arrivals, n, 0);
  }

  /** Reading `k` more bytes, where nothing fails, continues the session where it stands. */
  lemma ReadOn(arrivals: seq<Frame>, n: nat, k: nat)
    requires n + k <= |EncodeAll(arrivals)| && Session.Received(arrivals, n).2 == None
    ensures var now, later := Session.Received(arrivals, n), Session.Received(arrivals, n + k);
            var more := Read(now.0, EncodeAll(arrivals)[n..n + k]);
            later.0 == more.0 && later.1 == now.1 + more.1 && later.2 == more.2
  {
    var bytes := EncodeAll(arrivals);
    assert bytes[..n + k] == bytes[..n] + bytes[n..n + k];
    ContinueRead(bytes[..n], bytes[n..n + k]);
  }

  lemma NothingRead(arrivals: seq<Frame>)
    ensures Session.Received(arrivals, 0) == (EMPTY, [], None)
  {
    var none: Bytes.Data := [];
    assert EncodeAll(arrivals)[..0] == none;
    FrameMux.ReadNothing(FrameMux.EMPTY);
  }

  lemma ReadAllNext(slices: seq<Bytes.Data>, arrivals: seq<Frame>, n: nat, k: nat)
    requires slices != [] && n + k <= |EncodeAll(arrivals)|
    requires ReadAll(EMPTY, slices[..|slices| - 1]) == Session.Received(arrivals, n)
    requires slices[|slices| - 1] == EncodeAll(arrivals)[n..n + k]
    requires Session.Received(arrivals, n).2 == None
    ensures ReadAll(EMPTY, slices) == Session.Received(arrivals, n + k)
  {
    ReadOn(arrivals, n, k);
  }

  /** Complete messages in transit, read in any slices: every read succeeds, and the events and the
      state are those of one read of all the bytes. */
  lemma {:induction false} SlicesAreOne(wire: seq<Frame>, msgs: map<U32, Message>, arrivals: seq<Frame>, n: nat,
                                        slices: seq<Bytes.Data>)
    requires InTransit(wire, msgs, arrivals, n) && Flatten(slices) == EncodeAll(arrivals)[..n]
    ensures ReadAll(EMPTY, slices) == Session.Received(arrivals, n) && ReadAll(EMPTY, slices).2 == None
    decreases |slices|
  {
    NoFailure(wire, msgs, arrivals, n);
    if slices == [] {
      NothingRead(arrivals);
    } else {
      var front, last, bytes := slices[..|slices| - 1], slices[|slices| - 1], EncodeAll(arrivals);
      var k := |Flatten(front)|;
      assert bytes[..n] == Flatten(front) + last;
      assert bytes[..n][..k] == bytes[..k] && bytes[..n][k..] == bytes[k..n];
      SlicesAreOne(wire, msgs, arrivals, k, front);
      ReadAllNext(slices, arrivals, k, n - k);
    }
  }

  /** The pipe, stream by stream and read in any slices: at every moment the session has told a
      prefix of each message and nothing else; it keeps an RPC decoder only for a stream that the
      frame decoder keeps; and once everything is delivered each message is told to its end and the
      session is back in its initial state. */
  lemma SlicesTell(wire: seq<Frame>, msgs: map<U32, Message>, arrivals: seq<Frame>, n: nat, slices: seq<Bytes.Data>, id: U32)
    requires InTransit(wire, msgs, arrivals, n) && Flatten(slices) == EncodeAll(arrivals)[..n]
    ensures var (s, outs, err) := ReadAll(EMPTY, slices);
            && err == None
            && LaneTold(id, msgs, Get(s.decoders, id), Select(OutStream, outs, id))
            && (id in s.decoders ==> id in s.mux.streams)
            && (AllDelivered(wire, arrivals, n) ==>
                  s == EMPTY && (id in msgs ==> ToldAll(id, msgs[id], Select(OutStream, outs, id))))
  {
    SlicesAreOne(wire, msgs, arrivals, n, slices);
    PipeTells(wire, msgs, arrivals, n, id);
    if AllDelivered(wire, arrivals, n) {
      PipeQuiescent(wire, msgs, arrivals, n);
    }
  }

  lemma HeardOn(arrivals: seq<Frame>, n: nat, k: nat)
    requires n + k <= |EncodeAll(arrivals)| && Session.Received(arrivals, n).2 == None
    ensures var more := Read(Session.Received(arrivals, n).0, EncodeAll(arrivals)[n..n + k]).1;
            Heard(arrivals, n + k) == Heard(arrivals, n) + Events(more)
  {
    ReadOn(arrivals, n, k);
    var now := Session.Received(arrivals, n);
    EventsAppend(now.1, Read(now.0, EncodeAll(arrivals)[n..n + k]).1);
  }

  /** Reading `bytes` in the state `s` succeeds, leads to `s'`, and makes `heard'` out of `heard`. */
  ghost predicate Continues(s: State, bytes: Bytes.Data, heard: seq<RpcEvent>, s': State, heard': seq<RpcEvent>) {
    && Read(s, bytes).2 == None && s' == Read(s, bytes).0
    && heard' == heard + Events(Read(s, bytes).1)
  }

  /** What reading the next `k` bytes brings. */
  lemma ReadContinues(wire: seq<Frame>, msgs: map<U32, Message>, arrivals: seq<Frame>, n: nat, k: nat)
    requires InTransit(wire, msgs, arrivals, n) && n + k <= |EncodeAll(arrivals)|
    ensures Continues(Session.Received(arrivals, n).0, EncodeAll(arrivals)[n..n + k], Heard(arrivals, n),
                      Session.Received(arrivals, n + k).0, Heard(arrivals, n + k))
  {
    NoFailure(wire, msgs, arrivals, n);
    NoFailure(wire, msgs, arrivals, n + k);
    ReadOn(arrivals, n, k);
    HeardOn(arrivals, n, k);
  }

  /** A frame coming out of the transport changes nothing until it is read. */
  lemma ArrivalUnread(wire: seq<Frame>, msgs: map<U32, Message>, arrivals: seq<Frame>, n: nat, f: Frame)
    requires InTransit(wire, msgs, arrivals, n) && multiset(arrivals + [f]) <= multiset(wire)
    ensures InTransit(wire, msgs, arrivals + [f], n)
    ensures Session.Received(arrivals + [f], n) == Session.Received(arrivals, n)
  {
    assert (arrivals + [f])[..|arrivals|] == arrivals;
    assert EncodeAll(arrivals + [f]) == EncodeAll(arrivals) + Encode(f);
    assert EncodeAll(arrivals + [f])[..n] == EncodeAll(arrivals)[..n];
  }

  /** Another message on the wire changes nothing for what is in transit. */
  lemma MoreSent(wire: seq<Frame>, msgs: map<U32, Message>, arrivals: seq<Frame>, n: nat,
                 s: U32, fs: seq<Frame>, m: Message)
    requires InTransit(wire, msgs, arrivals, n)
    requires s !in msgs && Sendable(m) && FrameEncoder.Complete(s, fs, MessageBytes(m))
    ensures InTransit(wire + fs, msgs[s := m], arrivals, n)
  {
    CarriesMore(wire, msgs, s, fs, m);
    assert multiset(wire + fs) == multiset(wire) + multiset(fs);
  }

  lemma CarriesMore(wire: seq<Frame>, msgs: map<U32, Message>, s: U32, fs: seq<Frame>, m: Message)
    requires Carries(wire, msgs) && s !in msgs && Sendable(m)
    requires FrameEncoder.Complete(s, fs, MessageBytes(m))
    ensures Carries(wire + fs, msgs[s := m])
  {
    forall id: U32
      ensures InOrder.Own(wire + fs, id) == if id == s then fs else InOrder.Own(wire, id)
    {
      SelectAppend(InOrder.FrameStream, wire, fs, id);
      if id == s {
        SelectAll(InOrder.FrameStream, fs, s);
        assert [] + fs == fs;
      } else {
        SelectNone(InOrder.FrameStream, fs, id);
      }
    }
  }
}
