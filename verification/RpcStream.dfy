/** RPC messages on one stream: the 15-byte header with metadata in front of the payload, its
    encoder and its decoder (core/src/rpc/rpc_internals/rpc_stream_encoder.rs and
    rpc_stream_decoder.rs). */
module RpcStream {
  import opened Bytes
  import opened Sequences
  import opened FrameCodec
  import opened FrameEncoder

  const RPC_FRAME_METADATA_LENGTH_OFFSET: nat := 13
  const RPC_FRAME_METHOD_ID_OFFSET: nat := 5
  const RPC_FRAME_ID_OFFSET: nat := 1
  const RPC_FRAME_FRAME_HEADER_SIZE: nat := 15

  datatype MessageType = Call | Response | Event

  datatype RpcHeader = RpcHeader(msgType: MessageType, requestId: U32, methodId: U64, metadata: Bytes.Data)

  datatype RpcEvent =
    | HeaderEvent(requestId: U32, methodId: U64, header: RpcHeader)
    | PayloadChunk(requestId: U32, methodId: U64, header: RpcHeader, bytes: Bytes.Data)
    | EndEvent(requestId: U32, methodId: U64, header: RpcHeader)
    | ErrorEvent(errHeader: Option<RpcHeader>, errRequestId: Option<U32>, errMethodId: Option<U64>,
                 error: FrameDecodeError)

  function TypeByte(t: MessageType): Byte {
    match t
    case Call => 0
    case Response => 1
    case Event => 2
  }

  function TypeOf(b: Byte): Option<MessageType> {
    match b
    case 0 => Some(Call)
    case 1 => Some(Response)
    case 2 => Some(Event)
    case _ => None
  }

  /** The bytes in front of the payload; the metadata length is cast to 16 bits. */
  function HeaderBytes(h: RpcHeader): (bs: Bytes.Data)
    ensures |bs| == RPC_FRAME_FRAME_HEADER_SIZE + |h.metadata|
  {
    [TypeByte(h.msgType)] + ToLE(h.requestId, 4) + ToLE(h.methodId, 8) + ToLE(|h.metadata|, 2) + h.metadata
  }

  // ---------------------------------------------------------------- the encoder

  class RpcStreamEncoder {
    const encoder: FrameStreamEncoder

    constructor (streamId: U32, maxChunkSize: nat, header: RpcHeader)
      requires maxChunkSize > 0
      ensures fresh(encoder)
      ensures At(New(streamId, maxChunkSize), [Write(HeaderBytes(header))], encoder.Abs(), encoder.emitted)
    {
      encoder := new FrameStreamEncoder(streamId, maxChunkSize);
      new;
      var metaBuf: Bytes.Data := [TypeByte(header.msgType)];
      metaBuf := metaBuf + ToLE(header.requestId, 4);
      metaBuf := metaBuf + ToLE(header.methodId, 8);
      metaBuf := metaBuf + ToLE(|header.metadata|, 2);
      metaBuf := metaBuf + header.metadata;
      ghost var none: seq<Op> := [];
      AtNext(encoder.Abs(), none, encoder.Abs(), [], Write(metaBuf));
      assert none + [Write(metaBuf)] == [Write(metaBuf)];
      var r := encoder.WriteBytes(metaBuf);
    }

    method WriteBytes(data: Bytes.Data) returns (r: Outcome)
      requires encoder.maxChunkSize > 0
      modifies encoder
      ensures encoder.Abs() == Apply(old(encoder.Abs()), Write(data)).0
      ensures encoder.emitted == old(encoder.emitted) + EncodeEach(Apply(old(encoder.Abs()), Write(data)).1)
      ensures r == Returns(old(encoder.Abs()), Write(data))
    {
      r := encoder.WriteBytes(data);
    }

    method FlushBuffer() returns (r: Outcome)
      modifies encoder
      ensures encoder.Abs() == Apply(old(encoder.Abs()), Flush).0
      ensures encoder.emitted == old(encoder.emitted) + EncodeEach(Apply(old(encoder.Abs()), Flush).1)
      ensures r == Returns(old(encoder.Abs()), Flush)
    {
      r := encoder.FlushBuffer();
    }

    method End() returns (r: Outcome)
      modifies encoder
      ensures encoder.Abs() == Apply(old(encoder.Abs()), EndStream).0
      ensures encoder.emitted == old(encoder.emitted) + EncodeEach(Apply(old(encoder.Abs()), EndStream).1)
      ensures r == Returns(old(encoder.Abs()), EndStream)
    {
      r := encoder.End();
    }
  }

  // ---------------------------------------------------------------- the decoder

  datatype Phase = AwaitHeader | AwaitPayload | Done

  datatype Decoder = Decoder(
    phase: Phase,
    header: Option<RpcHeader>,
    requestId: Option<U32>,
    methodId: Option<U64>,
    buffer: Bytes.Data)

  const NEW_DECODER := Decoder(AwaitHeader, None, None, None, [])

  /** Where the metadata ends. */
  function HeaderEnd(buf: Bytes.Data): nat
    requires |buf| >= RPC_FRAME_FRAME_HEADER_SIZE
  {
    RPC_FRAME_FRAME_HEADER_SIZE + FromLE(buf[RPC_FRAME_METADATA_LENGTH_OFFSET..RPC_FRAME_FRAME_HEADER_SIZE])
  }

  function MethodField(buf: Bytes.Data): U64
    requires |buf| >= RPC_FRAME_FRAME_HEADER_SIZE
  {
    PowersOf256();
    FromLE(buf[RPC_FRAME_METHOD_ID_OFFSET..RPC_FRAME_METADATA_LENGTH_OFFSET])
  }

  function DecodeHeader(d: Decoder, payload: Bytes.Data): (Decoder, Result<seq<RpcEvent>, FrameDecodeError>) {
    var d1 := d.(buffer := d.buffer + payload);
    var buf := d1.buffer;
    if |buf| < RPC_FRAME_FRAME_HEADER_SIZE then (d1, Ok([]))
    else
      match TypeOf(buf[0])
      case None => (d1, Err(FrameDecodeError.CorruptFrame))
      case Some(msgType) =>
        var requestId := Field32(buf, RPC_FRAME_ID_OFFSET);
        var methodId := MethodField(buf);
        var end := HeaderEnd(buf);
        if |buf| < end then (d1.(methodId := Some(methodId)), Ok([]))
        else
          var h := RpcHeader(msgType, requestId, methodId, buf[RPC_FRAME_FRAME_HEADER_SIZE..end]);
          (Decoder(AwaitPayload, Some(h), Some(requestId), Some(methodId), []),
           Ok([HeaderEvent(requestId, methodId, h)]
              + if |buf| > end then [PayloadChunk(requestId, methodId, h, buf[end..])] else []))
  }

  /** One frame; while the header is awaited its kind is not looked at, and the payload of an end
      frame is dropped. */
  function DecodeFrame(d: Decoder, f: DecodedFrame): (Decoder, Result<seq<RpcEvent>, FrameDecodeError>) {
    match d.phase
    case AwaitHeader => DecodeHeader(d, f.inner.payload)
    case AwaitPayload =>
      if d.header.None? then (d, Err(FrameDecodeError.CorruptFrame))
      else if f.inner.kind == FrameKind.End then
        (d.(phase := Done),
         if d.requestId.None? || d.methodId.None? then Err(FrameDecodeError.CorruptFrame)
         else Ok([EndEvent(d.requestId.value, d.methodId.value, d.header.value)]))
      else if f.inner.kind == Cancel then (d, Err(ReadAfterCancel))
      else if d.requestId.None? || d.methodId.None? then (d, Err(FrameDecodeError.CorruptFrame))
      else (d, Ok([PayloadChunk(d.requestId.value, d.methodId.value, d.header.value, f.inner.payload)]))
    case Done => (d, Ok([]))
  }

  class RpcStreamDecoder {
    var phase: Phase
    var header: Option<RpcHeader>
    var requestId: Option<U32>
    var methodId: Option<U64>
    var buffer: Bytes.Data

    ghost function Abs(): Decoder
      reads this
    {
      Decoder(phase, header, requestId, methodId, buffer)
    }

    constructor (d: Decoder)
      ensures Abs() == d
    {
      phase, header, requestId, methodId, buffer := d.phase, d.header, d.requestId, d.methodId, d.buffer;
    }

    method Value() returns (d: Decoder)
      ensures d == Abs()
    {
      d := Decoder(phase, header, requestId, methodId, buffer);
    }

    method DecodeRpcFrame(frame: DecodedFrame) returns (r: Result<seq<RpcEvent>, FrameDecodeError>)
      modifies this
      ensures (Abs(), r) == DecodeFrame(old(Abs()), frame)
    {
      var events: seq<RpcEvent> := [];
      match phase {
        case AwaitHeader =>
          buffer := buffer + frame.inner.payload;
          if |buffer| < RPC_FRAME_FRAME_HEADER_SIZE {
            return Ok(events);
          }
          var msgType := TypeOf(buffer[0]);
          if msgType.None? {
            return Err(FrameDecodeError.CorruptFrame);
          }
          var id := Field32(buffer, RPC_FRAME_ID_OFFSET);
          var method' := MethodField(buffer);
          methodId := Some(method');
          var end := HeaderEnd(buffer);
          if |buffer| < end {
            return Ok(events);
          }
          var h := RpcHeader(msgType.value, id, method', buffer[RPC_FRAME_FRAME_HEADER_SIZE..end]);
          header := Some(h);
          phase := AwaitPayload;
          buffer := buffer[end..];
          requestId := Some(h.requestId);
          events := [HeaderEvent(id, method', h)];
          if buffer != [] {
            events := events + [PayloadChunk(id, method', h, buffer)];
            buffer := [];
          } else {
            assert events + [] == events;
          }
        case AwaitPayload =>
          if header.None? {
            return Err(FrameDecodeError.CorruptFrame);
          }
          if frame.inner.kind == FrameKind.End {
            phase := Done;
            if requestId.None? || methodId.None? {
              return Err(FrameDecodeError.CorruptFrame);
            }
            events := [EndEvent(requestId.value, methodId.value, header.value)];
          } else if frame.inner.kind == Cancel {
            return Err(ReadAfterCancel);
          } else {
            if requestId.None? || methodId.None? {
              return Err(FrameDecodeError.CorruptFrame);
            }
            events := [PayloadChunk(requestId.value, methodId.value, header.value, frame.inner.payload)];
          }
        case Done =>
      }
      r := Ok(events);
    }
  }

  // ---------------------------------------------------------------- any input

  /** What every decoder looks like, whatever it was fed. */
  predicate DecoderInv(d: Decoder) {
    if d.phase == AwaitHeader then d.header.None? && d.requestId.None?
    else
      && d.header.Some? && d.buffer == []
      && d.requestId == Some(d.header.value.requestId) && d.methodId == Some(d.header.value.methodId)
  }

  function HeaderOf(h: RpcHeader): RpcEvent {
    HeaderEvent(h.requestId, h.methodId, h)
  }

  function ChunkOf(h: RpcHeader, bytes: Bytes.Data): RpcEvent {
    PayloadChunk(h.requestId, h.methodId, h, bytes)
  }

  function EndOf(h: RpcHeader): RpcEvent {
    EndEvent(h.requestId, h.methodId, h)
  }

  function Chunks(h: RpcHeader, cs: seq<Bytes.Data>): (r: seq<RpcEvent>)
    ensures |r| == |cs| && forall i | 0 <= i < |cs| :: r[i] == ChunkOf(h, cs[i])
  {
    seq(|cs|, i requires 0 <= i < |cs| => ChunkOf(h, cs[i]))
  }

  /** The events of one message: its header, its chunks, and the end once it has come. */
  function Script(h: RpcHeader, cs: seq<Bytes.Data>, ended: bool): seq<RpcEvent> {
    [HeaderOf(h)] + Chunks(h, cs) + if ended then [EndOf(h)] else []
  }

  ghost predicate Scripted(d: Decoder, cs: seq<Bytes.Data>, events: seq<RpcEvent>)
    requires d.header.Some?
  {
    events == Script(d.header.value, cs, d.phase == Done)
  }

  /** The events of a decoder lifetime: nothing yet, or a script. */
  ghost predicate Grammatical(d: Decoder, events: seq<RpcEvent>) {
    if d.phase == AwaitHeader then events == []
    else d.header.Some? && exists cs :: Scripted(d, cs, events)
  }

  function RunDecoder(d: Decoder, fs: seq<DecodedFrame>): (Decoder, Result<seq<RpcEvent>, FrameDecodeError>) {
    if fs == [] then (d, Ok([]))
    else
      var (d1, r1) := RunDecoder(d, fs[..|fs| - 1]);
      if r1.Err? then (d1, r1)
      else
        var (d2, r2) := DecodeFrame(d1, fs[|fs| - 1]);
        if r2.Err? then (d2, r2) else (d2, Ok(r1.value + r2.value))
  }

  /** What a decoder refuses: a cancel frame in the middle of a message, and a header with an
      unknown message type. */
  predicate FailsOn(d: Decoder, f: DecodedFrame) {
    || (d.phase == AwaitPayload && f.inner.kind == Cancel)
    || (d.phase == AwaitHeader && BadHeader(d.buffer + f.inner.payload))
  }

  predicate BadHeader(buf: Bytes.Data) {
    |buf| >= RPC_FRAME_FRAME_HEADER_SIZE && TypeOf(buf[0]).None?
  }

  /** A decoder in a state it can be in fails exactly on what it refuses: the branches that report
      a missing header or id are unreachable. */
  lemma StepInv(d: Decoder, f: DecodedFrame)
    requires DecoderInv(d)
    ensures DecoderInv(DecodeFrame(d, f).0)
    ensures DecodeFrame(d, f).1.Err? <==> FailsOn(d, f)
    ensures FailsOn(d, f) ==>
              DecodeFrame(d, f).1.error == if d.phase == AwaitHeader then FrameDecodeError.CorruptFrame else ReadAfterCancel
  {
  }

  /** In the middle of a message an end frame tells the end and nothing else, whatever its payload; any
      other frame but a cancel tells its payload as it is. */
  lemma PayloadFrames(d: Decoder, f: DecodedFrame)
    requires DecoderInv(d) && d.phase == AwaitPayload && f.inner.kind != Cancel
    ensures DecodeFrame(d, f) == if f.inner.kind == FrameKind.End then (d.(phase := Done), Ok([EndOf(d.header.value)]))
                                 else (d, Ok([ChunkOf(d.header.value, f.inner.payload)]))
  {
  }

  /** Bytes in front of which there is no complete header yet. */
  predicate Incomplete(buf: Bytes.Data) {
    |buf| < RPC_FRAME_FRAME_HEADER_SIZE || (TypeOf(buf[0]).Some? && |buf| < HeaderEnd(buf))
  }

  /** The decoder that holds back the bytes `buf` of a header. */
  function Awaiting(buf: Bytes.Data): Decoder {
    Decoder(AwaitHeader, None, None, if |buf| < RPC_FRAME_FRAME_HEADER_SIZE then None else Some(MethodField(buf)), buf)
  }

  /** A decoder that goes on says nothing exactly as long as the header is incomplete, and then it
      has only taken the bytes in. */
  lemma SilentIff(d: Decoder, f: DecodedFrame)
    requires DecoderInv(d) && d.phase != Done && (d.phase == AwaitHeader ==> d == Awaiting(d.buffer))
    ensures DecodeFrame(d, f).1 == Ok([]) <==> d.phase == AwaitHeader && Incomplete(d.buffer + f.inner.payload)
    ensures DecodeFrame(d, f).1 == Ok([]) ==> DecodeFrame(d, f).0 == Awaiting(d.buffer + f.inner.payload)
    ensures var d' := DecodeFrame(d, f).0;
            DecodeFrame(d, f).1.Ok? && d'.phase == AwaitHeader ==> d' == Awaiting(d'.buffer)
  {
  }

  lemma ScriptExtend(h: RpcHeader, cs: seq<Bytes.Data>, c: Bytes.Data)
    ensures Script(h, cs, false) + [ChunkOf(h, c)] == Script(h, cs + [c], false)
    ensures Script(h, cs, false) + [EndOf(h)] == Script(h, cs, true)
  {
    assert Chunks(h, cs + [c]) == Chunks(h, cs) + [ChunkOf(h, c)];
  }

  lemma HeaderStepGrammar(d: Decoder, f: DecodedFrame)
    requires DecoderInv(d) && d.phase == AwaitHeader && DecodeFrame(d, f).1.Ok?
    ensures Grammatical(DecodeFrame(d, f).0, DecodeFrame(d, f).1.value)
  {
    var (d', r) := DecodeFrame(d, f);
    if d'.phase == AwaitPayload {
      var cs := if |r.value| == 2 then [r.value[1].bytes] else [];
      assert Scripted(d', cs, r.value);
    }
  }

  lemma StepGrammar(d: Decoder, events: seq<RpcEvent>, f: DecodedFrame)
    requires DecoderInv(d) && Grammatical(d, events) && DecodeFrame(d, f).1.Ok?
    ensures Grammatical(DecodeFrame(d, f).0, events + DecodeFrame(d, f).1.value)
  {
    var (d', r) := DecodeFrame(d, f);
    match d.phase
    case AwaitHeader =>
      HeaderStepGrammar(d, f);
      assert events + r.value == r.value;
    case AwaitPayload =>
      var h := d.header.value;
      var cs :| Scripted(d, cs, events);
      ScriptExtend(h, cs, f.inner.payload);
      var more := if f.inner.kind == FrameKind.End then cs else cs + [f.inner.payload];
      assert Scripted(d', more, events + r.value);
    case Done =>
      assert events + [] == events;
  }

  /** Event grammar for every input: whatever frames a decoder is fed, its events are a prefix of
      one header, chunks and one end, all carrying the same header and its ids. */
  lemma {:induction false} EventGrammar(fs: seq<DecodedFrame>)
    ensures var (d, r) := RunDecoder(NEW_DECODER, fs);
            DecoderInv(d) && (r.Ok? ==> Grammatical(d, r.value))
  {
    if fs != [] {
      var n := |fs| - 1;
      EventGrammar(fs[..n]);
      var (d, r) := RunDecoder(NEW_DECODER, fs[..n]);
      StepInv(d, fs[n]);
      if r.Ok? && DecodeFrame(d, fs[n]).1.Ok? {
        StepGrammar(d, r.value, fs[n]);
      }
    }
  }

  // ---------------------------------------------------------------- round trip

  lemma HeaderLayout(h: RpcHeader, rest: Bytes.Data)
    requires |h.metadata| < TWO_16
    ensures var buf := HeaderBytes(h) + rest;
            && buf[0] == TypeByte(h.msgType) && TypeOf(buf[0]) == Some(h.msgType)
            && Field32(buf, RPC_FRAME_ID_OFFSET) == h.requestId && MethodField(buf) == h.methodId
            && HeaderEnd(buf) == |HeaderBytes(h)|
            && buf[RPC_FRAME_FRAME_HEADER_SIZE..|HeaderBytes(h)|] == h.metadata
            && buf[|HeaderBytes(h)|..] == rest
  {
    PowersOf256();
    var buf := HeaderBytes(h) + rest;
    LERoundTrip(h.requestId, 4);
    LERoundTrip(h.methodId, 8);
    LERoundTrip(|h.metadata|, 2);
    assert buf[1..5] == ToLE(h.requestId, 4);
    assert buf[5..13] == ToLE(h.methodId, 8);
    assert buf[13..15] == ToLE(|h.metadata|, 2);
  }

  lemma LengthCut(h: RpcHeader, rest: Bytes.Data)
    ensures HeaderEnd(HeaderBytes(h) + rest) < RPC_FRAME_FRAME_HEADER_SIZE + TWO_16
  {
    PowersOf256();
  }

  lemma HeaderRead(buf: Bytes.Data, h: RpcHeader)
    requires |buf| >= RPC_FRAME_FRAME_HEADER_SIZE
    ensures DecodeHeader(NEW_DECODER, buf).0.header == Some(h)
            <==> && TypeOf(buf[0]) == Some(h.msgType) && HeaderEnd(buf) <= |buf|
                 && Field32(buf, RPC_FRAME_ID_OFFSET) == h.requestId && MethodField(buf) == h.methodId
                 && buf[RPC_FRAME_FRAME_HEADER_SIZE..HeaderEnd(buf)] == h.metadata
  {
    var none: Bytes.Data := [];
    assert none + buf == buf;
  }

  /** A header, with any bytes behind it, is decoded as it was sent exactly when the cast of its
      metadata length to 16 bits loses nothing. */
  lemma HeaderRoundTrip(h: RpcHeader, rest: Bytes.Data)
    ensures DecodeHeader(NEW_DECODER, HeaderBytes(h) + rest).0.header == Some(h) <==> |h.metadata| < TWO_16
  {
    HeaderRead(HeaderBytes(h) + rest, h);
    if |h.metadata| < TWO_16 {
      HeaderLayout(h, rest);
    } else {
      LengthCut(h, rest);
    }
  }

  /** The header on the wire, byte by byte: message type, request id, method id and metadata length, the
      numbers with the least significant byte first, and the metadata. */
  lemma HeaderWire(h: RpcHeader, i: nat)
    requires i < 8
    ensures var buf := HeaderBytes(h);
            && |buf| == 15 + |h.metadata| && buf[15..] == h.metadata
            && buf[0] == (match h.msgType case Call => 0 case Response => 1 case Event => 2)
            && (i < 4 ==> buf[1 + i] == (h.requestId / Pow256(i)) % 256)
            && buf[5 + i] == (h.methodId / Pow256(i)) % 256
            && (i < 2 ==> buf[13 + i] == (|h.metadata| / Pow256(i)) % 256)
  {
    if i < 4 { LEDigit(h.requestId, 4, i); }
    LEDigit(h.methodId, 8, i);
    if i < 2 { LEDigit(|h.metadata|, 2, i); }
  }

  lemma FixedPart(h: RpcHeader, buf: Bytes.Data, rest: Bytes.Data)
    requires |h.metadata| < TWO_16 && |buf| >= RPC_FRAME_FRAME_HEADER_SIZE && buf <= HeaderBytes(h) + rest
    ensures TypeOf(buf[0]) == Some(h.msgType) && MethodField(buf) == h.methodId
            && HeaderEnd(buf) == |HeaderBytes(h)|
  {
    HeaderLayout(h, rest);
    var all := HeaderBytes(h) + rest;
    assert buf == all[..|buf|];
    assert buf[5..13] == all[5..13] && buf[13..15] == all[13..15];
  }

  /** The decoder after the bytes `got` of a message. */
  function StateAt(h: RpcHeader, got: Bytes.Data): Decoder {
    if |got| < |HeaderBytes(h)| then
      Decoder(AwaitHeader, None, None, if |got| < RPC_FRAME_FRAME_HEADER_SIZE then None else Some(h.methodId), got)
    else Decoder(AwaitPayload, Some(h), Some(h.requestId), Some(h.methodId), [])
  }

  /** The events that the next `p` bytes of a message cause. */
  function Delta(h: RpcHeader, got: Bytes.Data, p: Bytes.Data): seq<RpcEvent> {
    var size, now := |HeaderBytes(h)|, got + p;
    if |now| < size then []
    else if |got| >= size then [ChunkOf(h, p)]
    else [HeaderOf(h)] + if |now| > size then [ChunkOf(h, now[size..])] else []
  }

  lemma DecodeMore(h: RpcHeader, data: Bytes.Data, got: Bytes.Data, f: DecodedFrame)
    requires |h.metadata| < TWO_16 && got + f.inner.payload <= HeaderBytes(h) + data
    requires f.inner.kind != FrameKind.End && f.inner.kind != Cancel
    ensures DecodeFrame(StateAt(h, got), f)
            == (StateAt(h, got + f.inner.payload), Ok(Delta(h, got, f.inner.payload)))
  {
    var now := got + f.inner.payload;
    var size := |HeaderBytes(h)|;
    if |got| < size && |now| >= RPC_FRAME_FRAME_HEADER_SIZE {
      FixedPart(h, now, data);
      if |now| >= size {
        var all := HeaderBytes(h) + data;
        var rest := now[size..];
        assert now[..size] == all[..size] == HeaderBytes(h);
        assert now == HeaderBytes(h) + rest;
        HeaderLayout(h, rest);
      }
    }
  }

  /** What has been told of a message with header `h` and payload `data`: nothing, or its header
      and chunks that make up a prefix of the payload - all of it if the end was told. */
  ghost predicate Telling(h: RpcHeader, data: Bytes.Data, events: seq<RpcEvent>) {
    events == [] || exists cs, ended :: Told(h, data, events, cs, ended)
  }

  ghost predicate Told(h: RpcHeader, data: Bytes.Data, events: seq<RpcEvent>, cs: seq<Bytes.Data>, ended: bool) {
    && events == Script(h, cs, ended)
    && Flatten(cs) <= data && (ended ==> Flatten(cs) == data)
    && (forall c | c in cs :: c != [])
  }

  /** The events told after exactly the bytes `got`, with no end yet. */
  ghost predicate Progress(h: RpcHeader, got: Bytes.Data, events: seq<RpcEvent>) {
    if |got| < |HeaderBytes(h)| then events == []
    else exists cs :: ProgressBy(h, got, events, cs)
  }

  ghost predicate ProgressBy(h: RpcHeader, got: Bytes.Data, events: seq<RpcEvent>, cs: seq<Bytes.Data>)
    requires |got| >= |HeaderBytes(h)|
  {
    && events == Script(h, cs, false) && Flatten(cs) == got[|HeaderBytes(h)|..]
    && (forall c | c in cs :: c != [])
  }

  lemma ProgressMore(h: RpcHeader, got: Bytes.Data, events: seq<RpcEvent>, p: Bytes.Data)
    requires Progress(h, got, events) && p != []
    ensures Progress(h, got + p, events + Delta(h, got, p))
  {
    var size, now := |HeaderBytes(h)|, got + p;
    if |got| >= size {
      var cs :| ProgressBy(h, got, events, cs);
      ScriptExtend(h, cs, p);
      FlattenSnoc(cs, p);
      assert now[size..] == got[size..] + p;
      assert ProgressBy(h, now, events + Delta(h, got, p), cs + [p]);
    } else if |now| >= size {
      var none: seq<Bytes.Data> := [];
      var cs := if |now| > size then [now[size..]] else none;
      FlattenSnoc(none, now[size..]);
      assert none + [now[size..]] == [now[size..]];
      assert events + Delta(h, got, p) == Script(h, cs, false);
      assert ProgressBy(h, now, events + Delta(h, got, p), cs);
    } else {
      assert events + Delta(h, got, p) == [];
    }
  }
}
