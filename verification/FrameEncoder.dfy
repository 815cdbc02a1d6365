/** The frame encoder of one stream (core/src/frame/frame_stream_encoder.rs). */
module FrameEncoder {
  import opened Bytes
  import opened Sequences
  import opened FrameCodec
  import InOrder

  datatype FrameEncodeError = CorruptFrame | WriteAfterEnd | WriteAfterCancel

  type Outcome = Result<nat, FrameEncodeError>

  datatype Encoder = Encoder(
    streamId: U32,
    maxChunkSize: nat,
    nextSeqId: U32,
    nextKind: FrameKind,
    buffer: Bytes.Data,
    isCanceled: bool,
    isEnded: bool)
  {
    predicate Closed() {
      isCanceled || isEnded
    }

    function Refusal(): FrameEncodeError {
      if isCanceled then WriteAfterCancel else WriteAfterEnd
    }
  }

  datatype Op = Write(data: Bytes.Data) | Flush | EndStream | CancelStream

  function New(streamId: U32, maxChunkSize: nat): Encoder {
    Encoder(streamId, maxChunkSize, 0, Open, [], false, false)
  }

  /** Cut full chunks off the buffer for as long as there are any. */
  function Chop(e: Encoder): (r: (Encoder, seq<Frame>))
    requires e.maxChunkSize > 0
    ensures r.0.maxChunkSize == e.maxChunkSize && |r.0.buffer| < e.maxChunkSize
    ensures r.0.isCanceled == e.isCanceled && r.0.isEnded == e.isEnded
    decreases |e.buffer|
  {
    if |e.buffer| >= e.maxChunkSize then
      var (e', fs) := Chop(Emitted(e, e.buffer[e.maxChunkSize..]));
      (e', [NextFrame(e, e.buffer[..e.maxChunkSize])] + fs)
    else (e, [])
  }

  function NextFrame(e: Encoder, payload: Bytes.Data): Frame {
    Frame(e.streamId, e.nextSeqId, e.nextKind, payload)
  }

  function Emitted(e: Encoder, buffer: Bytes.Data): Encoder {
    e.(buffer := buffer, nextSeqId := Succ32(e.nextSeqId), nextKind := Data)
  }

  function WireSize(fs: seq<Frame>): nat {
    if fs == [] then 0 else WireSize(fs[..|fs| - 1]) + FRAME_HEADER_SIZE + |fs[|fs| - 1].payload|
  }

  /** The state after an operation and the frames it emits. */
  function Apply(e: Encoder, op: Op): (r: (Encoder, seq<Frame>))
    requires op.Write? ==> e.maxChunkSize > 0
    ensures r.0.maxChunkSize == e.maxChunkSize
  {
    if e.Closed() then (e, [])
    else match op
      case Write(data) => Chop(e.(buffer := e.buffer + data))
      case Flush => if e.buffer == [] then (e, []) else (Emitted(e, []), [NextFrame(e, e.buffer)])
      case EndStream => (e.(buffer := [], isEnded := true), [NextFrame(e, e.buffer).(kind := End)])
      case CancelStream => (e.(isCanceled := true), [NextFrame(e, []).(kind := Cancel)])
  }

  /** What the operation returns: the bytes it put on the wire, or a refusal. */
  function Returns(e: Encoder, op: Op): Outcome
    requires op.Write? ==> e.maxChunkSize > 0
  {
    if e.Closed() then Err(e.Refusal()) else Ok(WireSize(Apply(e, op).1))
  }

  /** A run of operations: the final state, the frames, the bytes accepted, and the sum of the
      returned counts. */
  datatype Output = Output(encoder: Encoder, frames: seq<Frame>, accepted: Bytes.Data, counted: nat)

  function RunOps(e: Encoder, ops: seq<Op>): (r: Output)
    requires e.maxChunkSize > 0
    ensures r.encoder.maxChunkSize == e.maxChunkSize
  {
    if ops == [] then Output(e, [], [], 0)
    else
      var r := RunOps(e, ops[..|ops| - 1]);
      var op := ops[|ops| - 1];
      var (e', fs) := Apply(r.encoder, op);
      var ret := Returns(r.encoder, op);
      Output(e', r.frames + fs,
          r.accepted + (if op.Write? && ret.Ok? then op.data else []),
          r.counted + (if ret.Ok? then ret.value else 0))
  }

  // ---------------------------------------------------------------- canonical form

  lemma {:induction false} ChopAppend(e: Encoder, b: Bytes.Data)
    requires e.maxChunkSize > 0
    ensures var (e1, fs1) := Chop(e);
            var (e2, fs2) := Chop(e1.(buffer := e1.buffer + b));
            Chop(e.(buffer := e.buffer + b)) == (e2, fs1 + fs2)
    decreases |e.buffer|
  {
    var n := e.maxChunkSize;
    if |e.buffer| >= n {
      assert (e.buffer + b)[..n] == e.buffer[..n] && (e.buffer + b)[n..] == e.buffer[n..] + b;
      var e' := Emitted(e, e.buffer[n..]);
      ChopAppend(e', b);
      var (e1, fs1) := Chop(e');
      var fs2 := Chop(e1.(buffer := e1.buffer + b)).1;
      var f := NextFrame(e, e.buffer[..n]);
      assert [f] + (fs1 + fs2) == ([f] + fs1) + fs2;
    } else {
      assert [] + Chop(e.(buffer := e.buffer + b)).1 == Chop(e.(buffer := e.buffer + b)).1;
    }
  }

  lemma {:induction false} WireSizeAppend(fs: seq<Frame>, gs: seq<Frame>)
    ensures WireSize(fs + gs) == WireSize(fs) + WireSize(gs)
  {
    if gs == [] {
      assert fs + gs == fs;
    } else {
      var n := |gs| - 1;
      WireSizeAppend(fs, gs[..n]);
      assert (fs + gs)[..|fs + gs| - 1] == fs + gs[..n];
    }
  }

  /** However the data is cut into writes, the same frames come out, the same state is left and
      the same number of bytes is reported. */
  lemma WriteCanonical(e: Encoder, a: Bytes.Data, b: Bytes.Data)
    requires e.maxChunkSize > 0
    ensures var (e1, fs1) := Apply(e, Write(a));
            var (e2, fs2) := Apply(e1, Write(b));
            && Apply(e, Write(a + b)) == (e2, fs1 + fs2)
            && (!e.Closed() ==> Returns(e, Write(a + b)) == Ok(WireSize(fs1) + WireSize(fs2)))
  {
    if !e.Closed() {
      var e' := e.(buffer := e.buffer + a);
      ChopAppend(e', b);
      assert e'.buffer + b == e.buffer + (a + b);
      var (e1, fs1) := Chop(e');
      WireSizeAppend(fs1, Chop(e1.(buffer := e1.buffer + b)).1);
    } else {
      var none: seq<Frame> := [];
      assert none + none == none;
    }
  }

  // ---------------------------------------------------------------- whole runs

  function Payloads(fs: seq<Frame>): Bytes.Data {
    if fs == [] then [] else Payloads(fs[..|fs| - 1]) + fs[|fs| - 1].payload
  }

  /** The frames of a stream so far: numbered in order, open before data, chunks within the limit,
      and at most one terminal frame, at the end. */
  predicate Lawful(streamId: U32, maxChunkSize: nat, fs: seq<Frame>) {
    forall i | 0 <= i < |fs| :: LawfulAt(streamId, maxChunkSize, fs[i], i, i == |fs| - 1)
  }

  predicate LawfulAt(streamId: U32, maxChunkSize: nat, f: Frame, i: nat, last: bool) {
    && f.streamId == streamId && f.seqId == Wrap32(i)
    && |f.payload| <= maxChunkSize
    && (f.kind == Cancel ==> f.payload == [])
    && (if Closing(f.kind) then last
        else f.payload != [] && f.kind == if i == 0 then Open else Data)
  }

  predicate Closing(kind: FrameKind) {
    kind == End || kind == Cancel
  }

  /** The encoder state that goes with the frames emitted so far. */
  predicate Consistent(e: Encoder, fs: seq<Frame>) {
    && e.isEnded == (|fs| > 0 && fs[|fs| - 1].kind == End)
    && e.isCanceled == (|fs| > 0 && fs[|fs| - 1].kind == Cancel)
    && |e.buffer| < e.maxChunkSize
    && (e.isEnded ==> e.buffer == [])
    && (!e.Closed() ==> e.nextSeqId == Wrap32(|fs|) && e.nextKind == if fs == [] then Open else Data)
  }

  /** An open encoder at the chunk loop: `total` is everything written so far. */
  predicate Filling(e: Encoder, fs: seq<Frame>, total: Bytes.Data) {
    && !e.Closed() && e.maxChunkSize > 0
    && Lawful(e.streamId, e.maxChunkSize, fs)
    && (|fs| > 0 ==> !Closing(fs[|fs| - 1].kind))
    && e.nextSeqId == Wrap32(|fs|) && e.nextKind == (if fs == [] then Open else Data)
    && Payloads(fs) + e.buffer == total
  }

  /** An encoder between two operations. */
  predicate Settled(e: Encoder, fs: seq<Frame>, total: Bytes.Data) {
    && e.maxChunkSize > 0
    && Lawful(e.streamId, e.maxChunkSize, fs) && Consistent(e, fs)
    && Payloads(fs) + e.buffer == total
  }

  lemma Snoc(fs: seq<Frame>, f: Frame)
    ensures Payloads(fs + [f]) == Payloads(fs) + f.payload
  {
    assert (fs + [f])[..|fs|] == fs;
  }

  lemma LawfulSnoc(streamId: U32, maxChunkSize: nat, fs: seq<Frame>, f: Frame)
    requires Lawful(streamId, maxChunkSize, fs)
    requires |fs| > 0 ==> !Closing(fs[|fs| - 1].kind)
    requires LawfulAt(streamId, maxChunkSize, f, |fs|, true)
    ensures Lawful(streamId, maxChunkSize, fs + [f])
  {
  }

  /** Emitting the first `n` bytes of the buffer as a data frame. */
  lemma EmitLaw(e: Encoder, fs: seq<Frame>, total: Bytes.Data, n: nat)
    requires Filling(e, fs, total) && 0 < n <= |e.buffer| && n <= e.maxChunkSize
    ensures Filling(Emitted(e, e.buffer[n..]), fs + [NextFrame(e, e.buffer[..n])], total)
  {
    var f := NextFrame(e, e.buffer[..n]);
    LawfulSnoc(e.streamId, e.maxChunkSize, fs, f);
    Snoc(fs, f);
    assert (Payloads(fs) + e.buffer[..n]) + e.buffer[n..] == Payloads(fs) + e.buffer;
  }

  lemma {:induction false} ChopLaw(e: Encoder, fs: seq<Frame>, total: Bytes.Data)
    requires Filling(e, fs, total)
    ensures Filling(Chop(e).0, fs + Chop(e).1, total) && Chop(e).0.streamId == e.streamId
    decreases |e.buffer|
  {
    var n := e.maxChunkSize;
    if |e.buffer| >= n {
      var f := NextFrame(e, e.buffer[..n]);
      var e1 := Emitted(e, e.buffer[n..]);
      EmitLaw(e, fs, total, n);
      ChopLaw(e1, fs + [f], total);
      assert (fs + [f]) + Chop(e1).1 == fs + ([f] + Chop(e1).1);
    } else {
      assert fs + [] == fs;
    }
  }

  lemma FillingSettled(e: Encoder, fs: seq<Frame>, total: Bytes.Data)
    requires Filling(e, fs, total) && |e.buffer| < e.maxChunkSize
    ensures Settled(e, fs, total)
  {
  }

  lemma SettledFilling(e: Encoder, fs: seq<Frame>, total: Bytes.Data)
    requires Settled(e, fs, total) && !e.Closed()
    ensures Filling(e, fs, total)
  {
  }

  lemma WriteLaw(e: Encoder, fs: seq<Frame>, total: Bytes.Data, data: Bytes.Data)
    requires Settled(e, fs, total) && !e.Closed()
    ensures var (e', gs) := Apply(e, Write(data));
            Settled(e', fs + gs, total + data) && e'.streamId == e.streamId
  {
    assert Payloads(fs) + (e.buffer + data) == Payloads(fs) + e.buffer + data;
    var filled := e.(buffer := e.buffer + data);
    ChopLaw(filled, fs, total + data);
    FillingSettled(Chop(filled).0, fs + Chop(filled).1, total + data);
  }

  lemma FlushLaw(e: Encoder, fs: seq<Frame>, total: Bytes.Data)
    requires Settled(e, fs, total) && !e.Closed()
    ensures var (e', gs) := Apply(e, Flush);
            Settled(e', fs + gs, total) && e'.streamId == e.streamId
  {
    if e.buffer == [] {
      assert fs + [] == fs;
    } else {
      var n := |e.buffer|;
      assert e.buffer[..n] == e.buffer && e.buffer[n..] == [];
      SettledFilling(e, fs, total);
      EmitLaw(e, fs, total, n);
      FillingSettled(Emitted(e, []), fs + [NextFrame(e, e.buffer)], total);
    }
  }

  lemma CloseLaw(e: Encoder, fs: seq<Frame>, total: Bytes.Data, op: Op)
    requires Settled(e, fs, total) && !e.Closed() && (op.EndStream? || op.CancelStream?)
    ensures var (e', gs) := Apply(e, op);
            Settled(e', fs + gs, total) && e'.streamId == e.streamId
  {
    var f := Apply(e, op).1[0];
    LawfulSnoc(e.streamId, e.maxChunkSize, fs, f);
    Snoc(fs, f);
    assert Payloads(fs) + [] == Payloads(fs);
  }

  lemma ApplyLaw(e: Encoder, fs: seq<Frame>, total: Bytes.Data, op: Op)
    requires Settled(e, fs, total)
    ensures var (e', gs) := Apply(e, op);
            && Settled(e', fs + gs, total + if op.Write? && !e.Closed() then op.data else [])
            && e'.streamId == e.streamId
  {
    if e.Closed() {
      assert fs + [] == fs && total + [] == total;
    } else if op.Write? {
      WriteLaw(e, fs, total, op.data);
    } else {
      assert total + [] == total;
      if op.Flush? {
        FlushLaw(e, fs, total);
      } else {
        CloseLaw(e, fs, total, op);
      }
    }
  }

  /** Conservation over any run of operations: the frames are lawful, their payloads and the
      buffer are together exactly the bytes accepted, and the returned counts add up to the
      bytes put on the wire. */
  lemma {:induction false} RunLaw(streamId: U32, maxChunkSize: nat, ops: seq<Op>)
    requires maxChunkSize > 0
    ensures var r := RunOps(New(streamId, maxChunkSize), ops);
            && r.encoder.streamId == streamId
            && Settled(r.encoder, r.frames, r.accepted)
            && r.counted == WireSize(r.frames)
  {
    if ops != [] {
      var n := |ops| - 1;
      RunLaw(streamId, maxChunkSize, ops[..n]);
      var r := RunOps(New(streamId, maxChunkSize), ops[..n]);
      ApplyLaw(r.encoder, r.frames, r.accepted, ops[n]);
      WireSizeAppend(r.frames, Apply(r.encoder, ops[n]).1);
    }
  }

  lemma RunOpsSnoc(e: Encoder, ops: seq<Op>, op: Op)
    requires e.maxChunkSize > 0
    ensures var r, r' := RunOps(e, ops), RunOps(e, ops + [op]);
            && r'.encoder == Apply(r.encoder, op).0 && r'.frames == r.frames + Apply(r.encoder, op).1
            && r'.accepted == r.accepted + (if op.Write? && !r.encoder.Closed() then op.data else [])
  {
    assert (ops + [op])[..|ops|] == ops;
  }

  /** Frames whose number and payload lengths 32 bits can hold. */
  predicate Fits(fs: seq<Frame>) {
    |fs| < TWO_32 && forall f | f in fs :: |f.payload| < TWO_32
  }

  /** With chunks below 2^32 bytes only the number of frames matters. */
  lemma SmallChunksFit(streamId: U32, maxChunkSize: nat, ops: seq<Op>)
    requires 0 < maxChunkSize < TWO_32 && |RunOps(New(streamId, maxChunkSize), ops).frames| < TWO_32
    ensures Fits(RunOps(New(streamId, maxChunkSize), ops).frames)
  {
    var fs := RunOps(New(streamId, maxChunkSize), ops).frames;
    RunLaw(streamId, maxChunkSize, ops);
    forall f | f in fs
      ensures |f.payload| < TWO_32
    {
      var i :| 0 <= i < |fs| && fs[i] == f;
      assert LawfulAt(streamId, maxChunkSize, fs[i], i, i == |fs| - 1);
    }
  }

  /** What a stream closed by flush and end looks like on the wire. */
  predicate Complete(streamId: U32, fs: seq<Frame>, bytes: Bytes.Data) {
    && InOrder.Sequenced(streamId, fs) && InOrder.Ended(fs)
    && (forall i | 0 <= i < |fs| :: fs[i].payload == [] <==> i == |fs| - 1)
    && Payloads(fs) == bytes
  }

  /** Any series of writes and flushes, closed by flush and end, puts a complete sequenced stream
      on the wire that carries exactly the bytes written. */
  lemma FlushEndCompletes(streamId: U32, maxChunkSize: nat, ops: seq<Op>)
    requires maxChunkSize > 0 && OnlyWrites(ops)
    requires Fits(RunOps(New(streamId, maxChunkSize), ops + [Flush] + [EndStream]).frames)
    ensures var r := RunOps(New(streamId, maxChunkSize), ops + [Flush] + [EndStream]);
            Complete(streamId, r.frames, Written(ops)) && r.encoder.isEnded
  {
    var e0 := New(streamId, maxChunkSize);
    var r0 := RunOps(e0, ops);
    StaysOpen(e0, ops);
    RunOpsSnoc(e0, ops, Flush);
    RunOpsSnoc(e0, ops + [Flush], EndStream);
    FlushEnd(r0.encoder);
    var r := RunOps(e0, ops + [Flush] + [EndStream]);
    RunLaw(streamId, maxChunkSize, ops + [Flush] + [EndStream]);
    LawfulIsSequenced(streamId, maxChunkSize, r.frames);
    assert r.accepted == Written(ops);
    forall i | 0 <= i < |r.frames|
      ensures r.frames[i].payload == [] <==> i == |r.frames| - 1
    {
      assert LawfulAt(streamId, maxChunkSize, r.frames[i], i, i == |r.frames| - 1);
    }
    assert Payloads(r.frames) + [] == Payloads(r.frames);
  }

  lemma FlushEnd(e: Encoder)
    requires !e.Closed()
    ensures var e1 := Apply(e, Flush).0;
            var (e2, fs) := Apply(e1, EndStream);
            !e1.Closed() && e2.isEnded && e2.buffer == [] && |fs| == 1 && fs[0].payload == [] && fs[0].kind == End
  {
  }

  lemma LawfulIsSequenced(streamId: U32, maxChunkSize: nat, fs: seq<Frame>)
    requires Lawful(streamId, maxChunkSize, fs) && Fits(fs)
    requires |fs| > 0 ==> fs[|fs| - 1].kind != Cancel
    ensures InOrder.Sequenced(streamId, fs)
  {
    forall i | 0 <= i < |fs|
      ensures fs[i].seqId == i && fs[i].kind != Cancel && (fs[i].kind == End ==> i == |fs| - 1)
    {
      Wrap32Small(i);
      assert LawfulAt(streamId, maxChunkSize, fs[i], i, i == |fs| - 1);
    }
  }

  function Written(ops: seq<Op>): Bytes.Data {
    if ops == [] then []
    else
      var op := ops[|ops| - 1];
      Written(ops[..|ops| - 1]) + (if op.Write? then op.data else [])
  }

  ghost predicate OnlyWrites(ops: seq<Op>) {
    forall op | op in ops :: op.Write? || op.Flush?
  }

  lemma WrittenSnoc(ops: seq<Op>, op: Op)
    ensures Written(ops + [op]) == Written(ops) + if op.Write? then op.data else []
  {
    assert (ops + [op])[..|ops|] == ops;
  }

  lemma {:induction false} WrittenAppend(a: seq<Op>, b: seq<Op>)
    ensures Written(a + b) == Written(a) + Written(b)
  {
    if b == [] {
      assert a + b == a;
    } else {
      var n := |b| - 1;
      WrittenAppend(a, b[..n]);
      WrittenSnoc(a + b[..n], b[n]);
      assert a + b == (a + b[..n]) + [b[n]];
      var last := if b[n].Write? then b[n].data else [];
      assert (Written(a) + Written(b[..n])) + last == Written(a) + (Written(b[..n]) + last);
    }
  }

  /** Writes and flushes leave a stream open: no frame ends or cancels it, and what is not in frames
      yet is in the buffer. */
  lemma OpenLaw(streamId: U32, maxChunkSize: nat, ops: seq<Op>)
    requires maxChunkSize > 0 && OnlyWrites(ops)
    ensures var r := RunOps(New(streamId, maxChunkSize), ops);
            && !r.encoder.Closed() && (forall f | f in r.frames :: !Closing(f.kind))
            && Payloads(r.frames) + r.encoder.buffer == Written(ops)
  {
    var r := RunOps(New(streamId, maxChunkSize), ops);
    RunLaw(streamId, maxChunkSize, ops);
    StaysOpen(New(streamId, maxChunkSize), ops);
    forall f | f in r.frames
      ensures !Closing(f.kind)
    {
      var i :| 0 <= i < |r.frames| && r.frames[i] == f;
      assert LawfulAt(streamId, maxChunkSize, r.frames[i], i, i == |r.frames| - 1);
    }
  }

  /** What closes a stream: an end puts what is left in the buffer into one end frame, and a cancel
      puts one empty cancel frame on the wire and drops what is left. */
  lemma CloseFrames(e: Encoder)
    requires !e.Closed()
    ensures var (e', fs) := Apply(e, EndStream);
            && e'.isEnded && !e'.isCanceled && e'.buffer == []
            && fs == [Frame(e.streamId, e.nextSeqId, End, e.buffer)]
    ensures var (e', fs) := Apply(e, CancelStream);
            e'.isCanceled && !e'.isEnded && fs == [Frame(e.streamId, e.nextSeqId, Cancel, [])]
  {
  }

  /** Over any run, an operation is refused exactly when the stream has its terminal frame, with the
      reason that the frame gives, and then it changes nothing. */
  lemma RefusedIff(streamId: U32, maxChunkSize: nat, ops: seq<Op>, op: Op)
    requires maxChunkSize > 0
    ensures var r := RunOps(New(streamId, maxChunkSize), ops);
            var last := if r.frames == [] then Open else r.frames[|r.frames| - 1].kind;
            && (Returns(r.encoder, op).Err? <==> Closing(last))
            && (Closing(last) ==>
                  && Returns(r.encoder, op) == Err(if last == Cancel then WriteAfterCancel else WriteAfterEnd)
                  && Apply(r.encoder, op) == (r.encoder, []))
  {
    RunLaw(streamId, maxChunkSize, ops);
  }

  lemma {:induction false} WrittenFirst(data: Bytes.Data, ops: seq<Op>)
    ensures Written([Write(data)] + ops) == data + Written(ops)
  {
    var w := Write(data);
    if ops == [] {
      assert [w] + ops == [w] && [w][..0] == [];
      assert [] + data == data + [];
    } else {
      var n := |ops| - 1;
      WrittenFirst(data, ops[..n]);
      assert ([w] + ops)[..|ops|] == [w] + ops[..n];
      var last := if ops[n].Write? then ops[n].data else [];
      assert (data + Written(ops[..n])) + last == data + (Written(ops[..n]) + last);
    }
  }

  lemma {:induction false} StaysOpen(e: Encoder, ops: seq<Op>)
    requires e.maxChunkSize > 0 && !e.Closed()
    requires OnlyWrites(ops)
    ensures !RunOps(e, ops).encoder.Closed()
    ensures RunOps(e, ops).accepted == Written(ops)
  {
    if ops != [] {
      var n := |ops| - 1;
      StaysOpen(e, ops[..n]);
    }
  }

  // ---------------------------------------------------------------- the encoder

  function EncodeEach(fs: seq<Frame>): (r: seq<Bytes.Data>)
    ensures |r| == |fs| && forall i | 0 <= i < |fs| :: r[i] == Encode(fs[i])
  {
    seq(|fs|, i requires 0 <= i < |fs| => Encode(fs[i]))
  }

  /** An encoder object that started as `start` and has been through `ops`. */
  ghost predicate At(start: Encoder, ops: seq<Op>, now: Encoder, emitted: seq<Bytes.Data>)
    requires start.maxChunkSize > 0
  {
    now == RunOps(start, ops).encoder && emitted == EncodeEach(RunOps(start, ops).frames)
  }

  lemma AtNext(start: Encoder, ops: seq<Op>, now: Encoder, emitted: seq<Bytes.Data>, op: Op)
    requires start.maxChunkSize > 0 && At(start, ops, now, emitted)
    ensures now.maxChunkSize > 0
    ensures At(start, ops + [op], Apply(now, op).0, emitted + EncodeEach(Apply(now, op).1))
  {
    RunOpsSnoc(start, ops, op);
  }

  class FrameStreamEncoder {
    const streamId: U32
    const maxChunkSize: nat
    var nextSeqId: U32
    var nextKind: FrameKind
    var buffer: Bytes.Data
    var isCanceled: bool
    var isEnded: bool
    /** Every byte string handed to the `on_emit` callback, in order. */
    var emitted: seq<Bytes.Data>

    ghost function Abs(): Encoder
      reads this
    {
      Encoder(streamId, maxChunkSize, nextSeqId, nextKind, buffer, isCanceled, isEnded)
    }

    constructor (streamId: U32, maxChunkSize: nat)
      ensures Abs() == New(streamId, maxChunkSize) && emitted == []
    {
      this.streamId, this.maxChunkSize := streamId, maxChunkSize;
      nextSeqId, nextKind, buffer := 0, Open, [];
      isCanceled, isEnded, emitted := false, false, [];
    }

    method EmitFrame(frame: Frame) returns (r: Outcome)
      modifies this`emitted
      ensures if Abs().Closed() then r == Err(Abs().Refusal()) && emitted == old(emitted)
              else r == Ok(FRAME_HEADER_SIZE + |frame.payload|) && emitted == old(emitted) + [Encode(frame)]
    {
      if isCanceled {
        return Err(WriteAfterCancel);
      } else if isEnded {
        return Err(WriteAfterEnd);
      }
      var bytes := EncodeFrame(frame);
      emitted := emitted + [bytes];
      r := Ok(|bytes|);
    }

    method WriteBytes(data: Bytes.Data) returns (r: Outcome)
      requires maxChunkSize > 0
      modifies this
      ensures Abs() == Apply(old(Abs()), Write(data)).0
      ensures emitted == old(emitted) + EncodeEach(Apply(old(Abs()), Write(data)).1)
      ensures r == Returns(old(Abs()), Write(data))
    {
      if isCanceled {
        return Err(WriteAfterCancel);
      } else if isEnded {
        return Err(WriteAfterEnd);
      }
      buffer := buffer + data;
      var written := 0;
      ghost var start := Abs();
      ghost var fs: seq<Frame> := [];
      while |buffer| >= maxChunkSize
        invariant Chopped(start, fs, Abs())
        invariant emitted == old(emitted) + EncodeEach(fs)
        invariant written == WireSize(fs)
        decreases |buffer|
      {
        ghost var before := Abs();
        ChoppedStep(start, fs, before);
        var chunk := buffer[..maxChunkSize];
        buffer := buffer[maxChunkSize..];
        var frame := Frame(streamId, nextSeqId, nextKind, chunk);
        var n := EmitFrame(frame);
        written := written + n.value;
        WireSizeAppend(fs, [frame]);
        assert WireSize([frame]) == WireSize([]) + FRAME_HEADER_SIZE + |chunk|;
        fs := fs + [frame];
        nextSeqId := Succ32(nextSeqId);
        nextKind := Data;
      }
      assert Chop(Abs()) == (Abs(), []);
      assert fs + [] == fs;
      r := Ok(written);
    }

    method FlushBuffer() returns (r: Outcome)
      modifies this
      ensures Abs() == Apply(old(Abs()), Flush).0
      ensures emitted == old(emitted) + EncodeEach(Apply(old(Abs()), Flush).1)
      ensures r == Returns(old(Abs()), Flush)
    {
      if isCanceled {
        return Err(WriteAfterCancel);
      } else if isEnded {
        return Err(WriteAfterEnd);
      }
      if buffer == [] {
        return Ok(0);
      }
      var frame := Frame(streamId, nextSeqId, nextKind, buffer);
      buffer := [];
      r := EmitFrame(frame);
      nextSeqId := Succ32(nextSeqId);
      nextKind := Data;
      WireSizeOne(frame);
    }

    method End() returns (r: Outcome)
      modifies this
      ensures Abs() == Apply(old(Abs()), EndStream).0
      ensures emitted == old(emitted) + EncodeEach(Apply(old(Abs()), EndStream).1)
      ensures r == Returns(old(Abs()), EndStream)
    {
      if isCanceled {
        return Err(WriteAfterCancel);
      } else if isEnded {
        return Err(WriteAfterEnd);
      }
      var frame := Frame(streamId, nextSeqId, FrameKind.End, buffer);
      buffer := [];
      r := EmitFrame(frame);
      isEnded := true;
      WireSizeOne(frame);
    }

    method Cancel() returns (r: Outcome)
      modifies this
      ensures Abs() == Apply(old(Abs()), CancelStream).0
      ensures emitted == old(emitted) + EncodeEach(Apply(old(Abs()), CancelStream).1)
      ensures r == Returns(old(Abs()), CancelStream)
    {
      if isCanceled {
        return Err(WriteAfterCancel);
      } else if isEnded {
        return Err(WriteAfterEnd);
      }
      var frame := Frame(streamId, nextSeqId, FrameKind.Cancel, []);
      r := EmitFrame(frame);
      isCanceled := true;
      WireSizeOne(frame);
    }
  }

  lemma WireSizeOne(f: Frame)
    ensures WireSize([f]) == FRAME_HEADER_SIZE + |f.payload|
  {
    assert [f][..0] == [];
  }

  /** `fs` are the chunks emitted so far and `now` the encoder left with the rest. */
  ghost predicate Chopped(start: Encoder, fs: seq<Frame>, now: Encoder) {
    && start.maxChunkSize == now.maxChunkSize > 0
    && !now.Closed()
    && Chop(start).0 == Chop(now).0 && Chop(start).1 == fs + Chop(now).1
  }

  lemma ChoppedStep(start: Encoder, fs: seq<Frame>, now: Encoder)
    requires Chopped(start, fs, now) && |now.buffer| >= now.maxChunkSize
    ensures var n := now.maxChunkSize;
            Chopped(start, fs + [NextFrame(now, now.buffer[..n])], Emitted(now, now.buffer[n..]))
  {
    var n := now.maxChunkSize;
    var f, rest := NextFrame(now, now.buffer[..n]), Chop(Emitted(now, now.buffer[n..])).1;
    assert fs + ([f] + rest) == (fs + [f]) + rest;
  }
}
