/** The session: the frame decoder feeding one RPC decoder per stream
    (core/src/rpc/rpc_internals/rpc_session.rs). */
module Session {
  import opened Bytes
  import opened Sequences
  import opened Lanes
  import opened FrameCodec
  import opened RpcStream
  import opened InOrder
  import FrameMux
  import FrameEncoder
  import opened Ids
  import opened IdBits

  type Item = FrameMux.Item

  /** An event, the stream it comes from, and whether it reports a failure that ends the batch. */
  datatype Out = Out(stream: Option<U32>, event: RpcEvent, fatal: bool)

  function ErrorOf(e: FrameDecodeError): RpcEvent {
    ErrorEvent(None, None, None, e)
  }

  function Outs(id: U32, events: seq<RpcEvent>): (r: seq<Out>)
    ensures |r| == |events| && forall i | 0 <= i < |events| :: r[i] == Out(Some(id), events[i], false)
  {
    seq(|events|, i requires 0 <= i < |events| => Out(Some(id), events[i], false))
  }

  predicate HasEnd(events: seq<RpcEvent>) {
    exists e :: e in events && e.EndEvent?
  }

  predicate Closes(kind: FrameKind) {
    kind == Cancel || kind == FrameKind.End
  }

  /** One frame against the decoder of its stream. */
  function LaneStep(lane: Option<Decoder>, x: Item): (Option<Decoder>, seq<Out>) {
    match x
    case Err(_) => (lane, [])
    case Ok(frame) =>
      var (d, r) := DecodeFrame(if lane.Some? then lane.value else NEW_DECODER, frame);
      match r
      case Err(e) => (None, [Out(Some(frame.inner.streamId), ErrorOf(e), true)])
      case Ok(events) =>
        (if HasEnd(events) || Closes(frame.inner.kind) then None else Some(d),
         Outs(frame.inner.streamId, events))
  }

  function StrayStep(x: Item): seq<Out> {
    if x.Err? then [Out(None, ErrorOf(x.error), false)] else []
  }

  function OutStream(o: Out): Option<U32> {
    o.stream
  }

  const SESSION: Machine<U32, Decoder, Item, Out> := Machine(FrameMux.StreamOf, OutStream, LaneStep, StrayStep)

  /** The batch of results of one read, processed up to and including the first failure. */
  datatype Batch = Batch(decoders: map<U32, Decoder>, outs: seq<Out>, error: Option<FrameDecodeError>)

  function Failure(outs: seq<Out>): Option<FrameDecodeError> {
    if |outs| == 1 && outs[0].fatal && outs[0].event.ErrorEvent? then Some(outs[0].event.error) else None
  }

  function Process(decoders: map<U32, Decoder>, items: seq<Item>): Batch {
    if items == [] then Batch(decoders, [], None)
    else ProcessNext(Process(decoders, items[..|items| - 1]), items[|items| - 1])
  }

  function ProcessNext(b: Batch, x: Item): Batch {
    if b.error.Some? then b
    else
      var (m, outs) := Step(SESSION, b.decoders, x);
      Batch(m, b.outs + outs, Failure(outs))
  }

  function Events(outs: seq<Out>): (r: seq<RpcEvent>)
    ensures |r| == |outs| && forall i | 0 <= i < |outs| :: r[i] == outs[i].event
  {
    seq(|outs|, i requires 0 <= i < |outs| => outs[i].event)
  }

  datatype State = State(mux: FrameMux.State, decoders: map<U32, Decoder>)

  const EMPTY := State(FrameMux.EMPTY, map[])

  /** One call of `read_bytes`: the new state, the events in order, and the error that cut the
      batch short, if any. */
  function Read(s: State, bytes: Bytes.Data): (State, seq<Out>, Option<FrameDecodeError>) {
    var (mux, items) := FrameMux.Read(s.mux, bytes);
    var b := Process(s.decoders, items);
    (State(mux, b.decoders), b.outs, b.error)
  }

  /** Any number of reads: the final state, all events, and the first error, if any. */
  function ReadAll(s: State, slices: seq<Bytes.Data>): (State, seq<Out>, Option<FrameDecodeError>) {
    if slices == [] then (s, [], None)
    else
      var before := ReadAll(s, slices[..|slices| - 1]);
      var last := Read(before.0, slices[|slices| - 1]);
      (last.0, before.1 + last.1, if before.2.Some? then before.2 else last.2)
  }

  // ---------------------------------------------------------------- invariant

  /** No stored decoder is done, one that awaits payload has its header and an empty buffer, and
      one that awaits the header is determined by the bytes it holds back. */
  predicate LaneInv(id: U32, lane: Option<Decoder>) {
    lane.Some? ==>
      && DecoderInv(lane.value) && lane.value.phase != Done
      && (lane.value.phase == AwaitHeader ==> lane.value == Awaiting(lane.value.buffer))
  }

  lemma LaneStepKeeps(id: U32, lane: Option<Decoder>, x: Item)
    requires LaneInv(id, lane) && FrameMux.StreamOf(x) == Some(id)
    ensures LaneInv(id, LaneStep(lane, x).0)
    ensures forall y | y in LaneStep(lane, x).1 :: OutStream(y) == Some(id)
  {
    var d := if lane.Some? then lane.value else NEW_DECODER;
    StepInv(d, x.value);
    SilentIff(d, x.value);
    var (d', r) := DecodeFrame(d, x.value);
    if r.Ok? && d'.phase == Done {
      assert r.value[0].EndEvent? && r.value[0] in r.value;
    }
  }

  /** In any state: a frame that its decoder refuses is reported once, without naming a request but with
      the cause, ends the batch, and drops the decoder; and any frame that closes its stream drops it. */
  lemma DroppedDecoders(decoders: map<U32, Decoder>, x: Item)
    requires AllLanes(decoders, LaneInv) && x.Ok?
    ensures var id, d := x.value.inner.streamId, x.value;
            var decoder := if id in decoders then decoders[id] else NEW_DECODER;
            var (m, outs) := Step(SESSION, decoders, x);
            && (FailsOn(decoder, d) ==>
                  && id !in m
                  && outs == [Out(Some(id), ErrorOf(if decoder.phase == AwaitHeader then FrameDecodeError.CorruptFrame
                                                    else ReadAfterCancel), true)])
            && (Closes(d.inner.kind) ==> id !in m)
  {
    var id := x.value.inner.streamId;
    assert LaneInv(id, Get(decoders, id));
    StepInv(if id in decoders then decoders[id] else NEW_DECODER, x.value);
  }

  lemma SessionKeepsKeys()
    ensures KeepsKeys(SESSION, LaneInv)
  {
    forall k: U32, o, x | LaneInv(k, o) && SESSION.inKey(x) == Some(k)
      ensures LaneInv(k, SESSION.step(o, x).0) && forall y | y in SESSION.step(o, x).1 :: SESSION.outKey(y) == Some(k)
    {
      LaneStepKeeps(k, o, x);
    }
  }

  ghost predicate Valid(s: State) {
    FrameMux.Valid(s.mux) && AllLanes(s.decoders, LaneInv)
  }

  lemma {:induction false} ProcessKeeps(decoders: map<U32, Decoder>, items: seq<Item>)
    requires AllLanes(decoders, LaneInv)
    ensures AllLanes(Process(decoders, items).decoders, LaneInv)
  {
    if items != [] {
      var n := |items| - 1;
      ProcessKeeps(decoders, items[..n]);
      SessionKeepsKeys();
      StepKeepsLanes(SESSION, LaneInv, Process(decoders, items[..n]).decoders, items[n]);
    }
  }

  /** The invariant holds after any reads whatsoever. */
  lemma ReadKeepsValid(s: State, bytes: Bytes.Data)
    requires Valid(s)
    ensures Valid(Read(s, bytes).0)
  {
    FrameMux.ReadKeepsValid(s.mux, bytes);
    ProcessKeeps(s.decoders, FrameMux.Read(s.mux, bytes).1);
  }

  predicate Anonymous(o: Out) {
    o.event.ErrorEvent? ==> o.event == ErrorOf(o.event.error)
  }

  lemma StepAnonymous(decoders: map<U32, Decoder>, x: Item)
    ensures forall o | o in Step(SESSION, decoders, x).1 :: Anonymous(o)
  {
  }

  /** Errors reported by a session never name a request. */
  lemma {:induction false} ErrorsAreAnonymous(decoders: map<U32, Decoder>, items: seq<Item>)
    ensures forall o | o in Process(decoders, items).outs :: Anonymous(o)
  {
    if items != [] {
      var n := |items| - 1;
      ErrorsAreAnonymous(decoders, items[..n]);
      StepAnonymous(Process(decoders, items[..n]).decoders, items[n]);
    }
  }

  // ---------------------------------------------------------------- byte splits

  /** A batch continued from where another one, without a failure, left off. */
  function Continue(b1: Batch, b2: Batch): Batch {
    if b1.error.Some? then b1 else Batch(b2.decoders, b1.outs + b2.outs, b2.error)
  }

  lemma ContinueNext(b1: Batch, b2: Batch, x: Item)
    ensures ProcessNext(Continue(b1, b2), x) == Continue(b1, ProcessNext(b2, x))
  {
    var outs := Step(SESSION, b2.decoders, x).1;
    assert (b1.outs + b2.outs) + outs == b1.outs + (b2.outs + outs);
  }

  lemma ProcessSnoc(decoders: map<U32, Decoder>, xs: seq<Item>, x: Item)
    ensures Process(decoders, xs + [x]) == ProcessNext(Process(decoders, xs), x)
  {
    assert (xs + [x])[..|xs|] == xs;
  }

  lemma {:induction false} ProcessAppend(decoders: map<U32, Decoder>, xs: seq<Item>, ys: seq<Item>)
    ensures var b1 := Process(decoders, xs);
            Process(decoders, xs + ys) == Continue(b1, Process(b1.decoders, ys))
  {
    var b1 := Process(decoders, xs);
    if ys == [] {
      assert xs + ys == xs && b1.outs + [] == b1.outs;
    } else {
      var n := |ys| - 1;
      ProcessAppend(decoders, xs, ys[..n]);
      ContinueNext(b1, Process(b1.decoders, ys[..n]), ys[n]);
      ProcessSnoc(decoders, xs + ys[..n], ys[n]);
      assert xs + ys == (xs + ys[..n]) + [ys[n]];
    }
  }

  /** From any state, if reading `a` succeeds then reading `a` and then `b` gives the events, the
      state and the outcome of reading `a + b`. If it fails, reading `a + b` gives just the events
      of `a`: whatever `b` holds is consumed and dropped. */
  lemma SplitAfterSuccess(s: State, a: Bytes.Data, b: Bytes.Data)
    ensures var (s1, outs1, err1) := Read(s, a);
            var (s2, outs2, err2) := Read(s1, b);
            var (s', outs, err) := Read(s, a + b);
            && s'.mux == s2.mux
            && if err1.None? then s' == s2 && outs == outs1 + outs2 && err == err2
               else s'.decoders == s1.decoders && outs == outs1 && err == err1
  {
    FrameMux.SplitInvariance(s.mux, a, b);
    var (m1, items1) := FrameMux.Read(s.mux, a);
    ProcessAppend(s.decoders, items1, FrameMux.Read(m1, b).1);
  }

  // ---------------------------------------------------------------- one message

  /** A message: the header and payload of one complete RPC stream. */
  datatype Message = Message(header: RpcHeader, payload: Bytes.Data)

  predicate Sendable(m: Message) {
    |m.header.metadata| < TWO_16
  }

  function MessageBytes(m: Message): Bytes.Data {
    HeaderBytes(m.header) + m.payload
  }

  function FramePayloads(fs: seq<Frame>): Bytes.Data {
    FrameEncoder.Payloads(fs)
  }

  lemma EventsOuts(id: U32, events: seq<RpcEvent>)
    ensures Events(Outs(id, events)) == events
  {
  }

  lemma EventsAppend(a: seq<Out>, b: seq<Out>)
    ensures Events(a + b) == Events(a) + Events(b)
  {
  }

  /** The lane of a message after the bytes `got` of it. */
  ghost predicate LaneAt(id: U32, m: Message, got: Bytes.Data, lane: Option<Decoder>, outs: seq<Out>) {
    && got <= MessageBytes(m)
    && lane == (if got == [] then None else Some(StateAt(m.header, got)))
    && Progress(m.header, got, Events(outs))
    && (forall o | o in outs :: !o.fatal && o.stream == Some(id))
  }

  lemma LaneMore(id: U32, m: Message, got: Bytes.Data, lane: Option<Decoder>, outs: seq<Out>, f: Frame)
    requires Sendable(m) && LaneAt(id, m, got, lane, outs)
    requires got + f.payload <= MessageBytes(m) && f.payload != [] && f.streamId == id && !Closes(f.kind)
    ensures var (lane', more) := LaneStep(lane, Intact(f));
            LaneAt(id, m, got + f.payload, lane', outs + more)
  {
    var h := m.header;
    assert StateAt(h, []) == NEW_DECODER;
    DecodeMore(h, m.payload, got, DecodedFrame(f, None));
    var events := Delta(h, got, f.payload);
    assert !HasEnd(events);
    ProgressMore(h, got, Events(outs), f.payload);
    EventsOuts(id, events);
    EventsAppend(outs, Outs(id, events));
  }

  /** A prefix of the frames of a message, short of its end frame, tells its header and the
      payload received so far. */
  lemma {:induction false} LaneTells(id: U32, fs: seq<Frame>, m: Message, k: nat)
    requires Sendable(m) && FrameEncoder.Complete(id, fs, MessageBytes(m)) && k < |fs|
    ensures var (lane, outs) := RunLane(SESSION, None, Items(fs[..k]));
            LaneAt(id, m, FramePayloads(fs[..k]), lane, outs)
  {
    if k > 0 {
      LaneTells(id, fs, m, k - 1);
      var front, f := fs[..k - 1], fs[k - 1];
      var (lane, outs) := RunLane(SESSION, None, Items(front));
      DataFrame(id, fs, MessageBytes(m), k - 1);
      LaneMore(id, m, FramePayloads(front), lane, outs, f);
      ItemsSnoc(front, f);
      RunLaneSnoc(SESSION, None, Items(front), Intact(f));
    }
  }

  /** A frame of a complete stream before its end frame. */
  lemma DataFrame(id: U32, fs: seq<Frame>, bytes: Bytes.Data, i: nat)
    requires FrameEncoder.Complete(id, fs, bytes) && i + 1 < |fs|
    ensures fs[..i + 1] == fs[..i] + [fs[i]]
    ensures FramePayloads(fs[..i + 1]) == FramePayloads(fs[..i]) + fs[i].payload <= bytes
    ensures fs[i].payload != [] && fs[i].streamId == id && !Closes(fs[i].kind)
  {
    PayloadsPrefix(fs, i + 1);
    FrameEncoder.Snoc(fs[..i], fs[i]);
    assert fs[..i + 1] == fs[..i] + [fs[i]];
  }

  lemma {:induction false} PayloadsPrefix(fs: seq<Frame>, k: nat)
    requires k <= |fs|
    ensures FramePayloads(fs[..k]) <= FramePayloads(fs)
    decreases |fs| - k
  {
    if k < |fs| {
      PayloadsPrefix(fs, k + 1);
      assert fs[..k + 1][..k] == fs[..k];
    } else {
      assert fs[..k] == fs;
    }
  }

  lemma ProgressTelling(m: Message, got: Bytes.Data, events: seq<RpcEvent>)
    requires got <= MessageBytes(m) && Progress(m.header, got, events)
    ensures Telling(m.header, m.payload, events)
  {
    var size := |HeaderBytes(m.header)|;
    if |got| >= size {
      var cs :| ProgressBy(m.header, got, events, cs);
      assert MessageBytes(m)[size..] == m.payload;
      assert got[size..] == m.payload[..|got| - size];
      assert Told(m.header, m.payload, events, cs, false);
    }
  }

  ghost predicate ToldAll(id: U32, m: Message, outs: seq<Out>) {
    && (exists cs :: Told(m.header, m.payload, Events(outs), cs, true))
    && (forall o | o in outs :: !o.fatal && o.stream == Some(id))
  }

  lemma LaneEnd(id: U32, m: Message, lane: Option<Decoder>, outs: seq<Out>, f: Frame)
    requires LaneAt(id, m, MessageBytes(m), lane, outs) && f.streamId == id && f.kind == FrameKind.End
    ensures LaneStep(lane, Intact(f)) == (None, Outs(id, [EndOf(m.header)]))
    ensures ToldAll(id, m, outs + Outs(id, [EndOf(m.header)]))
  {
    var h, got := m.header, MessageBytes(m);
    var events := [EndOf(h)];
    EventsOuts(id, events);
    EventsAppend(outs, Outs(id, events));
    assert events[0] in events && HasEnd(events);
    var cs :| ProgressBy(h, got, Events(outs), cs);
    ScriptExtend(h, cs, []);
    assert got[|HeaderBytes(h)|..] == m.payload;
    assert Told(h, m.payload, Events(outs + Outs(id, events)), cs, true);
  }

  /** All frames of a message: header, chunks that make up the payload, end; and the decoder is
      forgotten. */
  lemma LaneTellsAll(id: U32, fs: seq<Frame>, m: Message)
    requires Sendable(m) && FrameEncoder.Complete(id, fs, MessageBytes(m))
    ensures var (lane, outs) := RunLane(SESSION, None, Items(fs));
            lane == None && ToldAll(id, m, outs)
  {
    var k := |fs| - 1;
    LaneTells(id, fs, m, k);
    var f := fs[k];
    FrameEncoder.Snoc(fs[..k], f);
    assert fs == fs[..k] + [f] && FramePayloads(fs[..k]) + [] == FramePayloads(fs[..k]);
    var (lane, outs) := RunLane(SESSION, None, Items(fs[..k]));
    LaneEnd(id, m, lane, outs, f);
    ItemsSnoc(fs[..k], f);
    RunLaneSnoc(SESSION, None, Items(fs[..k]), Intact(f));
  }

  /** RPC stream round trip: a header, then any series of writes and flushes, closed by flush and
      end, cut into frames of any positive size: the decoder tells exactly one header equal to the
      one sent, chunks that make up the data written, and one end. */
  lemma RpcStreamRoundTrip(id: U32, maxChunkSize: nat, h: RpcHeader, ops: seq<FrameEncoder.Op>)
    requires |h.metadata| < TWO_16 && maxChunkSize > 0
    requires forall op | op in ops :: op.Write? || op.Flush?
    requires FrameEncoder.Fits(RpcFrames(id, maxChunkSize, h, ops))
    ensures var (lane, outs) := RunLane(SESSION, None, Items(RpcFrames(id, maxChunkSize, h, ops)));
            lane == None && ToldAll(id, Message(h, FrameEncoder.Written(ops)), outs)
  {
    var all := [FrameEncoder.Write(HeaderBytes(h))] + ops;
    FrameEncoder.FlushEndCompletes(id, maxChunkSize, all);
    FrameEncoder.WrittenFirst(HeaderBytes(h), ops);
    LaneTellsAll(id, RpcFrames(id, maxChunkSize, h, ops), Message(h, FrameEncoder.Written(ops)));
  }

  function RpcFrames(id: U32, maxChunkSize: nat, h: RpcHeader, ops: seq<FrameEncoder.Op>): seq<Frame>
    requires maxChunkSize > 0
  {
    FrameEncoder.RunOps(FrameEncoder.New(id, maxChunkSize),
      ([FrameEncoder.Write(HeaderBytes(h))] + ops) + [FrameEncoder.Flush] + [FrameEncoder.EndStream]).frames
  }

  // ---------------------------------------------------------------- many messages on one wire

  /** `wire` carries, on distinct streams, exactly the messages `msgs`. */
  ghost predicate Carries(wire: seq<Frame>, msgs: map<U32, Message>) {
    forall id: U32 ::
      if id in msgs then Sendable(msgs[id]) && FrameEncoder.Complete(id, Own(wire, id), MessageBytes(msgs[id]))
      else Own(wire, id) == []
  }

  lemma CarriesWellSent(wire: seq<Frame>, msgs: map<U32, Message>)
    requires Carries(wire, msgs)
    ensures WellSent(wire)
  {
  }

  lemma {:induction false} ProcessIsRun(decoders: map<U32, Decoder>, items: seq<Item>)
    requires forall o | o in Run(SESSION, decoders, items).1 :: !o.fatal
    ensures Process(decoders, items) == Batch(Run(SESSION, decoders, items).0, Run(SESSION, decoders, items).1, None)
  {
    if items != [] {
      var n := |items| - 1;
      var (m1, outs1) := Run(SESSION, decoders, items[..n]);
      var outs2 := Step(SESSION, m1, items[n]).1;
      assert Run(SESSION, decoders, items).1 == outs1 + outs2;
      forall o | o in outs1 ensures !o.fatal { assert o in outs1 + outs2; }
      ProcessIsRun(decoders, items[..n]);
      if |outs2| == 1 { assert outs2[0] in outs1 + outs2; }
    }
  }

  /** What the session does with the decoded items of a wire, stream by stream. */
  lemma SessionLane(items: seq<Item>, id: U32)
    ensures var (m, outs) := Run(SESSION, map[], items);
            var own := RunLane(SESSION, None, Select(FrameMux.StreamOf, items, id));
            Get(m, id) == own.0 && Select(OutStream, outs, id) == own.1
  {
    SessionKeepsKeys();
    assert AllLanes<U32, Decoder>(map[], LaneInv);
    NonInterference(SESSION, LaneInv, map[], items, id);
  }

  lemma {:induction false} NoStrays(decoders: map<U32, Decoder>, items: seq<Item>)
    requires forall x | x in items :: x.Ok?
    ensures forall o | o in Run(SESSION, decoders, items).1 :: o.stream.Some?
  {
    if items != [] {
      var n := |items| - 1;
      NoStrays(decoders, items[..n]);
      var (m1, outs1) := Run(SESSION, decoders, items[..n]);
      forall o | o in Step(SESSION, m1, items[n]).1
        ensures o.stream.Some?
      {
        assert items[n].Ok?;
      }
    }
  }

  // ---------------------------------------------------------------- the pipe

  /** A state of a transport: `arrivals` are the frames that have come out of it, in any order,
      out of those of `wire` that went in; the receiver has read the first `n` bytes of them. */
  ghost predicate InTransit(wire: seq<Frame>, msgs: map<U32, Message>, arrivals: seq<Frame>, n: nat) {
    Carries(wire, msgs) && multiset(arrivals) <= multiset(wire) && n <= |EncodeAll(arrivals)|
  }

  ghost predicate AllDelivered(wire: seq<Frame>, arrivals: seq<Frame>, n: nat) {
    multiset(arrivals) == multiset(wire) && n == |EncodeAll(arrivals)|
  }

  function Received(arrivals: seq<Frame>, n: nat): (State, seq<Out>, Option<FrameDecodeError>)
    requires n <= |EncodeAll(arrivals)|
  {
    Read(EMPTY, EncodeAll(arrivals)[..n])
  }

  /** The frames among `arrivals` that have been read completely, and what the frame decoder made
      of them. */
  lemma Came(wire: seq<Frame>, msgs: map<U32, Message>, arrivals: seq<Frame>, n: nat) returns (came: seq<Frame>)
    requires InTransit(wire, msgs, arrivals, n)
    ensures WellSent(wire) && multiset(came) <= multiset(wire)
    ensures var (mux, items) := FrameMux.Read(FrameMux.EMPTY, EncodeAll(arrivals)[..n]);
            && (mux.streams, items) == Run(FrameMux.MUX, map[], Items(came))
            && (forall x | x in items :: x.Ok?)
            && (AllDelivered(wire, arrivals, n) ==> multiset(came) == multiset(wire) && mux.buffer == [])
  {
    CarriesWellSent(wire, msgs);
    ArrivalsPlain(wire, arrivals);
    var j := ParsePrefix(arrivals, n);
    came := arrivals[..j];
    assert [] + EncodeAll(arrivals)[..n] == EncodeAll(arrivals)[..n];
    assert arrivals == came + arrivals[j..];
    var items := Run(FrameMux.MUX, map[], Items(came)).1;
    FrameMux.RunErrors(map[], Items(came));
    forall x | x in items
      ensures x.Ok?
    {
      if x.Err? { assert x in Items(came); }
    }
    if AllDelivered(wire, arrivals, n) {
      assert came == arrivals;
    }
  }

  /** How far a stream has come: how many of its frames the frame decoder has handed on. */
  lemma StreamProgress(wire: seq<Frame>, msgs: map<U32, Message>, arrivals: seq<Frame>, n: nat, id: U32)
    returns (k: nat, items: seq<Item>)
    requires InTransit(wire, msgs, arrivals, n)
    ensures var (mux, out) := FrameMux.Read(FrameMux.EMPTY, EncodeAll(arrivals)[..n]);
            && items == out && (forall x | x in items :: x.Ok?)
            && k <= |Own(wire, id)|
            && Select(FrameMux.StreamOf, items, id) == Items(Own(wire, id)[..k])
            && (k < |Own(wire, id)| && k > 0 ==> id in mux.streams)
            && (AllDelivered(wire, arrivals, n) ==> k == |Own(wire, id)| && id !in mux.streams && mux.buffer == [])
  {
    var came := Came(wire, msgs, arrivals, n);
    items := Run(FrameMux.MUX, map[], Items(came)).1;
    ArrivalOf(wire, came, id);
    var fs := Own(wire, id);
    k := FirstGap(Indices(Own(came, id)), 0, |fs|);
    if AllDelivered(wire, arrivals, n) {
      SelectSubset(FrameStream, came, wire, id);
      SelectSubset(FrameStream, wire, came, id);
      AllArrived(id, fs, Own(came, id));
    }
  }

  /** One stream of the session, when the first `k` of its frames have been handed on. */
  ghost predicate LaneTold(id: U32, msgs: map<U32, Message>, lane: Option<Decoder>, outs: seq<Out>) {
    && (forall o | o in outs :: !o.fatal && o.stream == Some(id))
    && if id in msgs then Telling(msgs[id].header, msgs[id].payload, Events(outs)) else outs == []
  }

  lemma LaneProgress(wire: seq<Frame>, msgs: map<U32, Message>, id: U32, k: nat)
    requires Carries(wire, msgs) && k <= |Own(wire, id)|
    ensures var fs := Own(wire, id);
            var (lane, outs) := RunLane(SESSION, None, Items(fs[..k]));
            && LaneTold(id, msgs, lane, outs)
            && (lane.Some? ==> 0 < k < |fs|)
            && (k == |fs| && id in msgs ==> ToldAll(id, msgs[id], outs))
  {
    var fs := Own(wire, id);
    if id !in msgs {
      assert Items(fs[..k]) == [];
    } else {
      var m := msgs[id];
      if k < |fs| {
        LaneTells(id, fs, m, k);
        var (lane, outs) := RunLane(SESSION, None, Items(fs[..k]));
        ProgressTelling(m, FramePayloads(fs[..k]), Events(outs));
        if k == 0 { assert fs[..k] == []; }
      } else {
        assert fs[..k] == fs;
        LaneTellsAll(id, fs, m);
        var outs := RunLane(SESSION, None, Items(fs)).1;
        var cs :| Told(m.header, m.payload, Events(outs), cs, true);
      }
    }
  }

  /** The pipe, stream by stream: at every moment the session has told a prefix of each message
      and nothing else; it keeps an RPC decoder only for a stream that the frame decoder keeps;
      and once everything is delivered each message is told to its end and nothing is kept. */
  lemma PipeTells(wire: seq<Frame>, msgs: map<U32, Message>, arrivals: seq<Frame>, n: nat, id: U32)
    requires InTransit(wire, msgs, arrivals, n)
    ensures var (s, outs, err) := Received(arrivals, n);
            && err == None
            && LaneTold(id, msgs, Get(s.decoders, id), Select(OutStream, outs, id))
            && (id in s.decoders ==> id in s.mux.streams)
            && (AllDelivered(wire, arrivals, n) ==>
                  && id !in s.decoders && id !in s.mux.streams && s.mux.buffer == []
                  && (id in msgs ==> ToldAll(id, msgs[id], Select(OutStream, outs, id))))
  {
    var k, items := StreamProgress(wire, msgs, arrivals, n, id);
    PipeClean(wire, msgs, arrivals, n);
    ProcessIsRun(map[], items);
    SessionLane(items, id);
    LaneProgress(wire, msgs, id, k);
  }

  lemma PipeClean(wire: seq<Frame>, msgs: map<U32, Message>, arrivals: seq<Frame>, n: nat)
    requires InTransit(wire, msgs, arrivals, n)
    ensures var items := FrameMux.Read(FrameMux.EMPTY, EncodeAll(arrivals)[..n]).1;
            forall o | o in Run(SESSION, map[], items).1 :: !o.fatal && o.stream.Some? && o.stream.value in msgs
  {
    var items := FrameMux.Read(FrameMux.EMPTY, EncodeAll(arrivals)[..n]).1;
    var outs := Run(SESSION, map[], items).1;
    forall o | o in outs
      ensures !o.fatal && o.stream.Some? && o.stream.value in msgs
    {
      var _, _ := StreamProgress(wire, msgs, arrivals, n, 0);
      NoStrays(map[], items);
      var id := o.stream.value;
      var k, _ := StreamProgress(wire, msgs, arrivals, n, id);
      SessionLane(items, id);
      LaneProgress(wire, msgs, id, k);
      SelectMember(OutStream, outs, o, id);
    }
  }

  /** Quiescence: a session that was sent only complete messages and has received all of it is
      back in its initial state. */
  lemma PipeQuiescent(wire: seq<Frame>, msgs: map<U32, Message>, arrivals: seq<Frame>, n: nat)
    requires InTransit(wire, msgs, arrivals, n) && AllDelivered(wire, arrivals, n)
    ensures Received(arrivals, n).0 == EMPTY
  {
    var s := Received(arrivals, n).0;
    forall id: U32
      ensures id !in s.decoders && id !in s.mux.streams && s.mux.buffer == []
    {
      PipeTells(wire, msgs, arrivals, n, id);
    }
    PipeTells(wire, msgs, arrivals, n, 0);
    assert s.mux.streams.Keys == {} && s.decoders.Keys == {};
    assert s.mux.streams == map[] && s.decoders == map[];
  }

  // ---------------------------------------------------------------- the session object

  /** The loop over the results of a read after the results `done`. */
  ghost predicate SoFar(start: map<U32, Decoder>, done: seq<Item>, now: map<U32, Decoder>, events: seq<RpcEvent>,
                        error: Option<FrameDecodeError>) {
    var b := Process(start, done);
    b.decoders == now && Events(b.outs) == events && b.error == error
  }

  lemma SoFarNext(start: map<U32, Decoder>, done: seq<Item>, now: map<U32, Decoder>, events: seq<RpcEvent>, x: Item)
    requires SoFar(start, done, now, events, None)
    ensures var (m, outs) := Step(SESSION, now, x);
            SoFar(start, done + [x], m, events + Events(outs), Failure(outs))
  {
    ProcessSnoc(start, done, x);
    EventsAppend(Process(start, done).outs, Step(SESSION, now, x).1);
  }

  lemma SoFarStops(start: map<U32, Decoder>, items: seq<Item>, i: nat, now: map<U32, Decoder>, events: seq<RpcEvent>,
                   error: Option<FrameDecodeError>)
    requires i <= |items| && SoFar(start, items[..i], now, events, error) && error.Some?
    ensures SoFar(start, items, now, events, error)
  {
    ProcessAppend(start, items[..i], items[i..]);
    assert items == items[..i] + items[i..];
  }

  class RpcSession {
    const space: IdSpace
    const mux: FrameMux.FrameMuxStreamDecoder
    var nextStreamId: U32
    var decoders: map<U32, Decoder>

    ghost function Abs(): State
      reads this, mux
    {
      State(mux.Abs(), decoders)
    }

    constructor (space: IdSpace, counter: IdCounter)
      requires counter.Valid()
      modifies counter
      ensures counter.Valid() && counter.draws == old(counter.draws) + 1
      ensures Abs() == EMPTY && fresh(mux) && this.space == space && nextStreamId == Draw(old(counter.draws))
    {
      this.space := space;
      mux := new FrameMux.FrameMuxStreamDecoder();
      decoders := map[];
      nextStreamId := 0;
      new;
      nextStreamId := counter.Increment();
    }

    /** Starts a stream: the id was drawn one step ahead, and the next one is drawn now. */
    method InitRequest(header: RpcHeader, maxChunkSize: nat, counter: IdCounter) returns (e: RpcStreamEncoder)
      requires counter.Valid() && maxChunkSize > 0
      modifies this`nextStreamId, counter
      ensures counter.Valid() && counter.draws == old(counter.draws) + 1
      ensures nextStreamId == Draw(old(counter.draws))
      ensures fresh(e) && fresh(e.encoder)
      ensures FrameEncoder.At(FrameEncoder.New(Place(space, old(nextStreamId)), maxChunkSize),
                              [FrameEncoder.Write(HeaderBytes(header))], e.encoder.Abs(), e.encoder.emitted)
    {
      var streamId := Place(space, nextStreamId);
      nextStreamId := counter.Increment();
      e := new RpcStreamEncoder(streamId, maxChunkSize, header);
    }

    method ReadBytes(input: Bytes.Data) returns (events: seq<RpcEvent>, error: Option<FrameDecodeError>)
      modifies this`decoders, mux
      ensures var (s, outs, err) := Read(old(Abs()), input);
              Abs() == s && events == Events(outs) && error == err
    {
      var frames := mux.ReadBytes(input);
      events, error := ProcessResults(frames);
    }

    method ProcessResults(frames: seq<Item>) returns (events: seq<RpcEvent>, error: Option<FrameDecodeError>)
      modifies this`decoders
      ensures SoFar(old(decoders), frames, decoders, events, error)
    {
      events, error := [], None;
      for i := 0 to |frames|
        invariant error == None && SoFar(old(decoders), frames[..i], decoders, events, error)
      {
        SoFarNext(old(decoders), frames[..i], decoders, events, frames[i]);
        assert frames[..i] + [frames[i]] == frames[..i + 1];
        var es, err := OneResult(frames[i]);
        events, error := events + es, err;
        if error.Some? {
          SoFarStops(old(decoders), frames, i + 1, decoders, events, error);
          return;
        }
      }
      assert frames[..|frames|] == frames;
    }

    method OneResult(x: Item) returns (events: seq<RpcEvent>, error: Option<FrameDecodeError>)
      modifies this`decoders
      ensures var (m, outs) := Step(SESSION, old(decoders), x);
              decoders == m && events == Events(outs) && error == Failure(outs)
    {
      match x {
        case Err(e) =>
          events, error := [ErrorOf(e)], None;
        case Ok(frame) =>
          var id := frame.inner.streamId;
          var decoder := new RpcStreamDecoder(if id in decoders then decoders[id] else NEW_DECODER);
          var r := decoder.DecodeRpcFrame(frame);
          var d := decoder.Value();
          decoders := decoders[id := d];
          match r {
            case Err(e) =>
              decoders := decoders - {id};
              assert decoders == old(decoders) - {id};
              events, error := [ErrorOf(e)], Some(e);
            case Ok(es) =>
              var j := 0;
              while j < |es|
                invariant 0 <= j <= |es|
                invariant decoders == if HasEnd(es[..j]) then old(decoders) - {id} else old(decoders)[id := d]
              {
                EndSoFar(es, j);
                if es[j].EndEvent? {
                  decoders := decoders - {id};
                  assert decoders == old(decoders) - {id};
                }
                j := j + 1;
              }
              assert es[..j] == es;
              events, error := es, None;
              if Closes(frame.inner.kind) {
                decoders := decoders - {id};
                assert decoders == old(decoders) - {id};
              }
              EventsOuts(id, es);
          }
      }
    }
  }

  lemma EndSoFar(es: seq<RpcEvent>, j: nat)
    requires j < |es|
    ensures HasEnd(es[..j + 1]) <==> HasEnd(es[..j]) || es[j].EndEvent?
  {
    assert es[..j + 1] == es[..j] + [es[j]];
    if HasEnd(es[..j]) {
      var e :| e in es[..j] && e.EndEvent?;
      assert e in es[..j + 1];
    }
    if es[j].EndEvent? {
      assert es[j] in es[..j + 1];
    }
  }
}
