/** A stream that is cancelled in the middle of its message, from the encoder to the events of the
    peer. */
module Cancellation {
  import opened Bytes
  import opened Sequences
  import opened Lanes
  import opened FrameCodec
  import opened RpcStream
  import opened InOrder
  import opened Session
  import FrameEncoder
  import FrameMux

  /** Everything done to the encoder: the header, any writes and flushes, and the cancel. */
  function WrittenOps(h: RpcHeader, ops: seq<FrameEncoder.Op>): seq<FrameEncoder.Op> {
    [FrameEncoder.Write(HeaderBytes(h))] + ops
  }

  function Before(id: U32, maxChunkSize: nat, h: RpcHeader, ops: seq<FrameEncoder.Op>): seq<Frame>
    requires maxChunkSize > 0
  {
    FrameEncoder.RunOps(FrameEncoder.New(id, maxChunkSize), WrittenOps(h, ops)).frames
  }

  function CancelledFrames(id: U32, maxChunkSize: nat, h: RpcHeader, ops: seq<FrameEncoder.Op>): seq<Frame>
    requires maxChunkSize > 0
  {
    FrameEncoder.RunOps(FrameEncoder.New(id, maxChunkSize), WrittenOps(h, ops) + [FrameEncoder.CancelStream]).frames
  }

  /** A frame that carries a part of the message. */
  predicate Carrier(id: U32, f: Frame) {
    f.streamId == id && f.payload != [] && !Closes(f.kind)
  }

  /** What the encoder emits: frames that carry a prefix of the message, and then one cancel frame; what
      was still in its buffer is lost. */
  lemma EncoderCancels(id: U32, maxChunkSize: nat, h: RpcHeader, ops: seq<FrameEncoder.Op>) returns (last: Frame)
    requires maxChunkSize > 0 && FrameEncoder.OnlyWrites(ops)
    ensures CancelledFrames(id, maxChunkSize, h, ops) == Before(id, maxChunkSize, h, ops) + [last]
    ensures last.streamId == id && last.kind == Cancel && last.payload == []
    ensures forall f | f in Before(id, maxChunkSize, h, ops) :: Carrier(id, f)
    ensures FramePayloads(Before(id, maxChunkSize, h, ops)) <= HeaderBytes(h) + FrameEncoder.Written(ops)
  {
    var all, e := WrittenOps(h, ops), FrameEncoder.New(id, maxChunkSize);
    var r := FrameEncoder.RunOps(e, all);
    FrameEncoder.OpenLaw(id, maxChunkSize, all);
    FrameEncoder.WrittenFirst(HeaderBytes(h), ops);
    FrameEncoder.RunLaw(id, maxChunkSize, all);
    FrameEncoder.RunOpsSnoc(e, all, FrameEncoder.CancelStream);
    FrameEncoder.CloseFrames(r.encoder);
    last := FrameEncoder.Apply(r.encoder, FrameEncoder.CancelStream).1[0];
    forall f | f in r.frames
      ensures Carrier(id, f)
    {
      var i :| 0 <= i < |r.frames| && r.frames[i] == f;
      assert FrameEncoder.LawfulAt(id, maxChunkSize, r.frames[i], i, i == |r.frames| - 1);
    }
  }

  /** The cancel frame as the frame decoder hands it on. */
  function Marked(f: Frame): Item {
    Ok(DecodedFrame(f, Some(ReadAfterCancel)))
  }

  /** The frame decoder: the frames in whatever order, and then the cancel. The frames come out in their
      order, the cancel behind them, and the stream is forgotten. */
  lemma MuxCancels(id: U32, fs: seq<Frame>, arrivals: seq<Frame>, last: Frame)
    requires Sequenced(id, fs) && multiset(arrivals) == multiset(fs) && last.kind == Cancel && last.streamId == id
    ensures RunLane(FrameMux.MUX, None, Items(arrivals) + [Intact(last)]) == (None, Items(fs) + [Marked(last)])
  {
    AllArrived(id, fs, arrivals);
    RunLaneSnoc(FrameMux.MUX, None, Items(arrivals), Intact(last));
    LaneValid(id, fs, arrivals);
    FrameMux.CancelAccepted(id, RunLane(FrameMux.MUX, None, Items(arrivals)).0, DecodedFrame(last, None));
  }

  lemma {:induction false} LaneValid(id: U32, fs: seq<Frame>, arrivals: seq<Frame>)
    requires Sequenced(id, fs) && multiset(arrivals) <= multiset(fs)
    ensures FrameMux.LaneInv(id, RunLane(FrameMux.MUX, None, Items(arrivals)).0)
  {
    MaximalPrefix(id, fs, arrivals);
  }

  /** A prefix of the message in frames tells its header and the payload received so far. */
  lemma {:induction false} LanePrefix(id: U32, m: Message, fs: seq<Frame>)
    requires Sendable(m) && FramePayloads(fs) <= MessageBytes(m) && forall f | f in fs :: Carrier(id, f)
    ensures var (lane, outs) := RunLane(SESSION, None, Items(fs));
            LaneAt(id, m, FramePayloads(fs), lane, outs)
  {
    if fs != [] {
      var n := |fs| - 1;
      var front, f := fs[..n], fs[n];
      assert fs == front + [f];
      assert f in fs;
      FrameEncoder.Snoc(front, f);
      LanePrefix(id, m, front);
      var (lane, outs) := RunLane(SESSION, None, Items(front));
      LaneMore(id, m, FramePayloads(front), lane, outs, f);
      ItemsSnoc(front, f);
      RunLaneSnoc(SESSION, None, Items(front), Intact(f));
    }
  }

  /** What a session tells of the cancel: an error that ends the batch if the header was complete, and
      nothing otherwise. */
  function CancelOuts(id: U32, headerComplete: bool): seq<Out> {
    if headerComplete then [Out(Some(id), ErrorOf(ReadAfterCancel), true)] else []
  }

  lemma LaneCancels(id: U32, m: Message, got: Bytes.Data, lane: Option<Decoder>, outs: seq<Out>, last: Frame)
    requires Sendable(m) && LaneAt(id, m, got, lane, outs)
    requires last.streamId == id && last.kind == Cancel && last.payload == []
    ensures LaneStep(lane, Marked(last)) == (None, CancelOuts(id, |got| >= |HeaderBytes(m.header)|))
  {
    var d, f := if lane.Some? then lane.value else NEW_DECODER, DecodedFrame(last, Some(ReadAfterCancel));
    assert d == StateAt(m.header, got);
    assert got + last.payload == got;
    if |got| >= |HeaderBytes(m.header)| {
      assert DecodeFrame(d, f) == (d, Err(ReadAfterCancel));
    } else {
      IncompletePart(m, got);
      assert DecodeFrame(d, f).1 == Ok([]);
      assert Outs(id, []) == [];
    }
  }

  lemma IncompletePart(m: Message, got: Bytes.Data)
    requires Sendable(m) && got <= MessageBytes(m) && |got| < |HeaderBytes(m.header)|
    ensures |got| >= RPC_FRAME_FRAME_HEADER_SIZE ==> TypeOf(got[0]).Some? && |got| < HeaderEnd(got)
    ensures |got| >= RPC_FRAME_FRAME_HEADER_SIZE ==> MethodField(got) == m.header.methodId
  {
    if |got| >= RPC_FRAME_FRAME_HEADER_SIZE {
      FixedPart(m.header, got, m.payload);
    }
  }

  /** In its own lane, hence among any other traffic, a stream whose frames arrive in whatever order and
      are then cancelled is told as far as it came, never to an end; the cancel is an error exactly if the header was
      complete; and neither a decoder nor a reassembly is left. */
  lemma CancelledLane(id: U32, maxChunkSize: nat, h: RpcHeader, ops: seq<FrameEncoder.Op>, arrivals: seq<Frame>)
      returns (last: Frame)
    requires maxChunkSize > 0 && FrameEncoder.OnlyWrites(ops) && |h.metadata| < TWO_16
    requires var fs := Before(id, maxChunkSize, h, ops); FrameEncoder.Fits(fs) && multiset(arrivals) == multiset(fs)
    ensures CancelledFrames(id, maxChunkSize, h, ops) == Before(id, maxChunkSize, h, ops) + [last] && last.kind == Cancel
    ensures last.streamId == id && last.payload == []
    ensures var fs := Before(id, maxChunkSize, h, ops);
            var (reassembly, items) := RunLane(FrameMux.MUX, None, Items(arrivals) + [Intact(last)]);
            var (decoder, outs) := RunLane(SESSION, None, items);
            && reassembly == None && decoder == None
            && exists told :: && outs == told + CancelOuts(id, |FramePayloads(fs)| >= |HeaderBytes(h)|)
                              && Telling(h, FrameEncoder.Written(ops), Events(told)) && NoEnd(told)
                              && forall o | o in told :: !o.fatal && o.stream == Some(id)
  {
    var m, fs := Message(h, FrameEncoder.Written(ops)), Before(id, maxChunkSize, h, ops);
    last := EncoderCancels(id, maxChunkSize, h, ops);
    FramesSequenced(id, maxChunkSize, h, ops);
    MuxCancels(id, fs, arrivals, last);
    LanePrefix(id, m, fs);
    var (lane, told) := RunLane(SESSION, None, Items(fs));
    LaneCancels(id, m, FramePayloads(fs), lane, told, last);
    RunLaneSnoc(SESSION, None, Items(fs), Marked(last));
    ProgressTelling(m, FramePayloads(fs), Events(told));
    ProgressHasNoEnd(h, FramePayloads(fs), told);
  }

  predicate NoEnd(outs: seq<Out>) {
    forall o | o in outs :: !o.event.EndEvent?
  }

  lemma ProgressHasNoEnd(h: RpcHeader, got: Bytes.Data, outs: seq<Out>)
    requires Progress(h, got, Events(outs))
    ensures NoEnd(outs)
  {
    forall o | o in outs
      ensures !o.event.EndEvent?
    {
      var i :| 0 <= i < |outs| && outs[i] == o;
      assert Events(outs)[i] == o.event;
    }
  }

  lemma FramesSequenced(id: U32, maxChunkSize: nat, h: RpcHeader, ops: seq<FrameEncoder.Op>)
    requires maxChunkSize > 0 && FrameEncoder.OnlyWrites(ops) && FrameEncoder.Fits(Before(id, maxChunkSize, h, ops))
    ensures Sequenced(id, Before(id, maxChunkSize, h, ops))
  {
    var fs := Before(id, maxChunkSize, h, ops);
    FrameEncoder.RunLaw(id, maxChunkSize, WrittenOps(h, ops));
    FrameEncoder.OpenLaw(id, maxChunkSize, WrittenOps(h, ops));
    assert |fs| > 0 ==> fs[|fs| - 1] in fs;
    FrameEncoder.LawfulIsSequenced(id, maxChunkSize, fs);
  }

  // ---------------------------------------------------------------- a session that reads it

  lemma ParseCancelled(arrivals: seq<Frame>, last: Frame)
    requires Plain(arrivals) && last.kind == Cancel && last.payload == []
    ensures FrameMux.Parse(EncodeAll(arrivals + [last])) == (Items(arrivals) + [Intact(last)], [])
  {
    ParseEncoded(arrivals);
    ParseSnoc(EncodeAll(arrivals), Items(arrivals), last);
    assert (arrivals + [last])[..|arrivals|] == arrivals;
  }

  lemma AllOfStream(id: U32, items: seq<Item>, arrivals: seq<Frame>, last: Frame)
    requires items == Items(arrivals) + [Intact(last)] && last.streamId == id && forall f | f in arrivals :: f.streamId == id
    ensures forall i | 0 <= i < |items| :: FrameMux.MUX.inKey(items[i]) == Some(id)
  {
    forall i | 0 <= i < |items|
      ensures FrameMux.MUX.inKey(items[i]) == Some(id)
    {
      if i < |arrivals| { assert arrivals[i] in arrivals; }
    }
  }

  /** The frame decoder reads the frames of one cancelled stream, and is empty again. */
  lemma MuxReads(id: U32, fs: seq<Frame>, arrivals: seq<Frame>, last: Frame)
    requires Sequenced(id, fs) && multiset(arrivals) == multiset(fs) && Plain(arrivals)
    requires last.kind == Cancel && last.streamId == id && last.payload == []
    ensures FrameMux.Read(FrameMux.EMPTY, EncodeAll(arrivals + [last])) == (FrameMux.EMPTY, Items(fs) + [Marked(last)])
  {
    var items := Items(arrivals) + [Intact(last)];
    ParseCancelled(arrivals, last);
    assert [] + EncodeAll(arrivals + [last]) == EncodeAll(arrivals + [last]);
    forall f | f in arrivals
      ensures f.streamId == id
    {
      assert f in multiset(arrivals);
      assert f in multiset(fs);
    }
    AllOfStream(id, items, arrivals, last);
    RunOneKey(FrameMux.MUX, map[], items, id);
    MuxCancels(id, fs, arrivals, last);
    assert Put<U32, FrameMux.Reassembly>(map[], id, None) == map[];
  }

  lemma SessionProcesses(id: U32, m: Message, fs: seq<Frame>, last: Frame)
    requires Sendable(m) && FramePayloads(fs) <= MessageBytes(m) && forall f | f in fs :: Carrier(id, f)
    requires last.streamId == id && last.kind == Cancel && last.payload == []
    ensures var complete := |FramePayloads(fs)| >= |HeaderBytes(m.header)|;
            var told := RunLane(SESSION, None, Items(fs)).1;
            Process(map[], Items(fs) + [Marked(last)])
            == Batch(map[], told + CancelOuts(id, complete), if complete then Some(ReadAfterCancel) else None)
  {
    var (lane, told) := RunLane(SESSION, None, Items(fs));
    LanePrefix(id, m, fs);
    forall i | 0 <= i < |Items(fs)|
      ensures SESSION.inKey(Items(fs)[i]) == Some(id)
    {
      assert fs[i] in fs;
    }
    RunOneKey(SESSION, map[], Items(fs), id);
    ProcessIsRun(map[], Items(fs));
    ProcessSnoc(map[], Items(fs), Marked(last));
    LaneCancels(id, m, FramePayloads(fs), lane, told, last);
    var now := Put<U32, Decoder>(map[], id, lane);
    assert Get(now, id) == lane;
    assert Put(now, id, None) == map[];
  }

  /** A session that reads a cancelled stream fails with the cancel exactly if the header was complete,
      never tells an end, and is back in its initial state. */
  lemma CancelledStream(id: U32, maxChunkSize: nat, h: RpcHeader, ops: seq<FrameEncoder.Op>, arrivals: seq<Frame>)
      returns (last: Frame)
    requires maxChunkSize > 0 && FrameEncoder.OnlyWrites(ops) && |h.metadata| < TWO_16
    requires var fs := Before(id, maxChunkSize, h, ops); FrameEncoder.Fits(fs) && multiset(arrivals) == multiset(fs)
    ensures CancelledFrames(id, maxChunkSize, h, ops) == Before(id, maxChunkSize, h, ops) + [last]
    ensures var complete := |FramePayloads(Before(id, maxChunkSize, h, ops))| >= |HeaderBytes(h)|;
            var (s, outs, err) := Read(EMPTY, EncodeAll(arrivals + [last]));
            && s == EMPTY && NoEnd(outs)
            && err == (if complete then Some(ReadAfterCancel) else None)
            && (complete ==> outs != [] && outs[|outs| - 1].event == ErrorOf(ReadAfterCancel))
  {
    var m, fs := Message(h, FrameEncoder.Written(ops)), Before(id, maxChunkSize, h, ops);
    last := EncoderCancels(id, maxChunkSize, h, ops);
    FramesSequenced(id, maxChunkSize, h, ops);
    forall f | f in arrivals
      ensures |f.payload| < TWO_32 && f.kind != Cancel
    {
      assert f in multiset(arrivals);
      assert f in multiset(fs);
      assert f in fs;
    }
    MuxReads(id, fs, arrivals, last);
    SessionProcesses(id, m, fs, last);
    LanePrefix(id, m, fs);
    ProgressHasNoEnd(h, FramePayloads(fs), RunLane(SESSION, None, Items(fs)).1);
  }
}
