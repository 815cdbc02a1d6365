/** Frames and their wire format: a 13-byte little-endian header and the payload
    (core/src/frame/frame_codec.rs). */
module FrameCodec {
  import opened Bytes
  import opened Sequences

  const FRAME_LENGTH_FIELD_SIZE: nat := 4
  const FRAME_STREAM_ID_OFFSET: nat := 4
  const FRAME_SEQ_ID_OFFSET: nat := 8
  const FRAME_KIND_OFFSET: nat := 12
  const FRAME_HEADER_SIZE: nat := 13

  datatype FrameKind = Open | Data | End | Cancel | Pong | Ping

  datatype Frame = Frame(streamId: U32, seqId: U32, kind: FrameKind, payload: Bytes.Data)

  datatype FrameDecodeError =
    | CorruptFrame | ReadAfterEnd | ReadAfterCancel | IncompleteHeader
    | Transport(message: string)

  datatype DecodedFrame = DecodedFrame(inner: Frame, decodeError: Option<FrameDecodeError>)

  function KindByte(kind: FrameKind): Byte {
    match kind
    case Open => 0
    case Data => 1
    case End => 2
    case Cancel => 3
    case Pong => 4
    case Ping => 5
  }

  function KindOf(b: Byte): Option<FrameKind> {
    match b
    case 0 => Some(Open)
    case 1 => Some(Data)
    case 2 => Some(End)
    case 3 => Some(Cancel)
    case 4 => Some(Pong)
    case 5 => Some(Ping)
    case _ => None
  }

  function Header(f: Frame): (h: Bytes.Data)
    ensures |h| == FRAME_HEADER_SIZE
  {
    ToLE(|f.payload|, 4) + ToLE(f.streamId, 4) + ToLE(f.seqId, 4) + [KindByte(f.kind)]
  }

  function Encode(f: Frame): Bytes.Data {
    Header(f) + f.payload
  }

  /** The encoder as it is written: one field appended to the buffer after the other. */
  method EncodeFrame(f: Frame) returns (buf: Bytes.Data)
    ensures buf == Encode(f)
    ensures |buf| == FRAME_HEADER_SIZE + |f.payload|
    ensures Decode(buf) == Ok(Canonical(f)) <==> |f.payload| < TWO_32 || f.kind == Cancel
  {
    buf := ToLE(|f.payload|, 4);
    buf := buf + ToLE(f.streamId, 4);
    buf := buf + ToLE(f.seqId, 4);
    buf := buf + [KindByte(f.kind)];
    buf := buf + f.payload;
    DecodeEncode(f, []);
    assert buf + [] == buf;
  }

  /** The payload length announced by the first four bytes. */
  function LengthField(buf: Bytes.Data): (n: nat)
    requires |buf| >= FRAME_LENGTH_FIELD_SIZE
    ensures n < TWO_32
  {
    PowersOf256();
    FromLE(buf[..FRAME_LENGTH_FIELD_SIZE])
  }

  function Field32(buf: Bytes.Data, at: nat): U32
    requires at + 4 <= |buf|
  {
    PowersOf256();
    FromLE(buf[at..at + 4])
  }

  function Decode(buf: Bytes.Data): Result<DecodedFrame, FrameDecodeError> {
    if |buf| < FRAME_HEADER_SIZE then Err(IncompleteHeader)
    else
      var len := LengthField(buf);
      if |buf| < FRAME_HEADER_SIZE + len then Err(IncompleteHeader)
      else
        var streamId := Field32(buf, FRAME_STREAM_ID_OFFSET);
        var seqId := Field32(buf, FRAME_SEQ_ID_OFFSET);
        match KindOf(buf[FRAME_KIND_OFFSET])
        case None => Err(CorruptFrame)
        case Some(kind) =>
          // The payload of a cancel frame is discarded.
          var payload := if kind == Cancel then [] else buf[FRAME_HEADER_SIZE..FRAME_HEADER_SIZE + len];
          Ok(DecodedFrame(Frame(streamId, seqId, kind, payload), None))
  }

  /** What the decoder makes of an encoded frame. */
  function Canonical(f: Frame): DecodedFrame {
    DecodedFrame(if f.kind == Cancel then f.(payload := []) else f, None)
  }

  lemma KindRoundTrip(kind: FrameKind, b: Byte)
    ensures KindOf(KindByte(kind)) == Some(kind)
    ensures KindOf(b).Some? ==> KindByte(KindOf(b).value) == b
    ensures KindOf(b).Some? <==> b < 6
  {
  }

  lemma FixedFields(f: Frame, rest: Bytes.Data)
    ensures var buf := Encode(f) + rest;
            && |buf| >= FRAME_HEADER_SIZE + |f.payload|
            && buf[..FRAME_LENGTH_FIELD_SIZE] == ToLE(|f.payload|, 4)
            && Field32(buf, FRAME_STREAM_ID_OFFSET) == f.streamId
            && Field32(buf, FRAME_SEQ_ID_OFFSET) == f.seqId
            && buf[FRAME_KIND_OFFSET] == KindByte(f.kind)
            && buf[FRAME_HEADER_SIZE..FRAME_HEADER_SIZE + |f.payload|] == f.payload
  {
    PowersOf256();
    var buf := Encode(f) + rest;
    LERoundTrip(f.streamId, 4);
    LERoundTrip(f.seqId, 4);
    assert buf[4..8] == ToLE(f.streamId, 4);
    assert buf[8..12] == ToLE(f.seqId, 4);
  }

  lemma HeaderFields(f: Frame, rest: Bytes.Data)
    requires |f.payload| < TWO_32
    ensures var buf := Encode(f) + rest;
            && |buf| >= FRAME_HEADER_SIZE
            && LengthField(buf) == |f.payload|
            && Field32(buf, FRAME_STREAM_ID_OFFSET) == f.streamId
            && Field32(buf, FRAME_SEQ_ID_OFFSET) == f.seqId
            && buf[FRAME_KIND_OFFSET] == KindByte(f.kind)
            && buf[FRAME_HEADER_SIZE..FRAME_HEADER_SIZE + |f.payload|] == f.payload
  {
    PowersOf256();
    FixedFields(f, rest);
    LERoundTrip(|f.payload|, 4);
  }

  /** Decoding an encoded frame, with any bytes behind it, gives the frame back exactly when the
      cast of its payload length to 32 bits loses nothing, or the payload does not matter. */
  lemma DecodeEncode(f: Frame, rest: Bytes.Data)
    ensures Decode(Encode(f) + rest) == Ok(Canonical(f)) <==> |f.payload| < TWO_32 || f.kind == Cancel
  {
    if |f.payload| < TWO_32 {
      HeaderFields(f, rest);
    } else {
      FixedFields(f, rest);
    }
  }

  /** Exactly what cannot be decoded: a buffer that ends before its frame does, and a frame with an
      unknown kind. */
  lemma DecodeFailsIff(buf: Bytes.Data)
    ensures var short := |buf| < 13 || |buf| < 13 + FromLE(buf[..4]);
            Decode(buf).Err? <==> short || buf[12] >= 6
    ensures Decode(buf).Err? ==>
              Decode(buf).error == if |buf| >= 13 && |buf| >= 13 + FromLE(buf[..4]) then CorruptFrame else IncompleteHeader
  {
  }

  /** The frame on the wire, byte by byte: payload length, stream id and sequence id, each in four bytes
      with the least significant first, the kind, and the payload. */
  lemma WireLayout(f: Frame, i: nat)
    requires i < 4
    ensures var buf := Encode(f);
            && |buf| == 13 + |f.payload| && buf[13..] == f.payload
            && buf[i] == (|f.payload| / Pow256(i)) % 256
            && buf[4 + i] == (f.streamId / Pow256(i)) % 256
            && buf[8 + i] == (f.seqId / Pow256(i)) % 256
            && buf[12] == match f.kind case Open => 0 case Data => 1 case End => 2 case Cancel => 3 case Pong => 4 case Ping => 5
  {
    LEDigit(|f.payload|, 4, i);
    LEDigit(f.streamId, 4, i);
    LEDigit(f.seqId, 4, i);
  }

  lemma Fields(buf: Bytes.Data)
    requires |buf| >= FRAME_HEADER_SIZE
    ensures buf == ToLE(LengthField(buf), 4) + ToLE(Field32(buf, FRAME_STREAM_ID_OFFSET), 4)
                   + ToLE(Field32(buf, FRAME_SEQ_ID_OFFSET), 4) + [buf[FRAME_KIND_OFFSET]] + buf[FRAME_HEADER_SIZE..]
  {
    LECanonical(buf[..4]);
    LECanonical(buf[4..8]);
    LECanonical(buf[8..12]);
    assert buf == buf[..4] + buf[4..8] + buf[8..12] + [buf[12]] + buf[13..];
  }

  /** The converse: a buffer that decodes is the encoding of its frame exactly when it ends with
      the frame and no payload of a cancel frame is lost. */
  lemma EncodeDecode(buf: Bytes.Data)
    requires Decode(buf).Ok?
    ensures Encode(Decode(buf).value.inner) == buf
            <==> |buf| == FRAME_HEADER_SIZE + LengthField(buf)
                 && (KindOf(buf[FRAME_KIND_OFFSET]) != Some(Cancel) || LengthField(buf) == 0)
  {
    var f := Decode(buf).value.inner;
    KindRoundTrip(f.kind, buf[FRAME_KIND_OFFSET]);
    assert |Encode(f)| == FRAME_HEADER_SIZE + |f.payload|;
    if |buf| == FRAME_HEADER_SIZE + LengthField(buf) && |f.payload| == LengthField(buf) {
      assert f.payload == buf[FRAME_HEADER_SIZE..];
      Fields(buf);
    }
  }

  function EncodeAll(fs: seq<Frame>): Bytes.Data {
    if fs == [] then [] else EncodeAll(fs[..|fs| - 1]) + Encode(fs[|fs| - 1])
  }
}
