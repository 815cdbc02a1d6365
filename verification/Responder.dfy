/** Streaming responses: the responder that buffers until its writer arrives, and the writer that
    frames every chunk (extensions/muxio-rpc-service-endpoint/src/endpoint.rs and
    core/src/rpc/rpc_dispatcher.rs). */
module Responder {
  import opened Bytes
  import opened Sequences
  import opened FrameCodec
  import opened FrameEncoder
  import opened RpcStream
  import opened InOrder
  import opened Ids
  import opened Link
  import opened Routing
  import opened Service
  import Session

  /** One call of `respond`. */
  datatype Piece = Piece(chunk: Bytes.Data, isFinalized: bool)

  function SuccessHeader(requestId: U32): RpcHeader {
    RpcHeader(Response, requestId, 0, [0])
  }

  function PieceOps(p: Piece): seq<Op> {
    [Write(p.chunk)] + [Flush] + (if p.isFinalized then [EndStream] else [])
  }

  /** Everything done to the encoder of a writer: the header, then each piece. */
  function WriterOps(head: Bytes.Data, ps: seq<Piece>): seq<Op> {
    if ps == [] then [Write(head)] else WriterOps(head, ps[..|ps| - 1]) + PieceOps(ps[|ps| - 1])
  }

  function Head(requestId: U32): Bytes.Data {
    HeaderBytes(SuccessHeader(requestId))
  }

  /** The frames that a writer has emitted after the pieces `ps`. */
  function WriterFrames(streamId: U32, maxChunkSize: nat, head: Bytes.Data, ps: seq<Piece>): seq<Frame>
    requires maxChunkSize > 0
  {
    RunOps(New(streamId, maxChunkSize), WriterOps(head, ps)).frames
  }

  // ---------------------------------------------------------------- objects

  class ResponseWriter {
    const streamId: U32
    const maxChunkSize: nat
    const requestId: U32
    const encoder: RpcStreamEncoder
    /** The calls of the writer so far. */
    ghost var written: seq<Piece>

    ghost predicate Valid()
      reads this, encoder.encoder
    {
      && maxChunkSize > 0
      && At(New(streamId, maxChunkSize), WriterOps(Head(requestId), written), encoder.encoder.Abs(), encoder.encoder.emitted)
    }

    /** Starts the response on a new stream of the session, whose id was drawn one step ahead, with
        the header of a success. */
    constructor (session: Session.RpcSession, maxChunkSize: nat, requestId: U32, counter: IdCounter)
      requires counter.Valid() && maxChunkSize > 0
      modifies session`nextStreamId, counter
      ensures counter.Valid() && counter.draws == old(counter.draws) + 1
      ensures session.nextStreamId == Draw(old(counter.draws))
      ensures Valid() && written == [] && fresh(encoder) && fresh(encoder.encoder)
      ensures streamId == Place(session.space, old(session.nextStreamId))
      ensures this.maxChunkSize == maxChunkSize && this.requestId == requestId
    {
      this.streamId := Place(session.space, session.nextStreamId);
      this.maxChunkSize, this.requestId := maxChunkSize, requestId;
      var e := session.InitRequest(SuccessHeader(requestId), maxChunkSize, counter);
      encoder := e;
      written := [];
    }

    /** Writes, flushes and, on the last piece, ends; errors are ignored. */
    method Put(p: Piece)
      requires Valid()
      modifies this`written, encoder.encoder
      ensures Valid() && written == old(written) + [p]
    {
      WritePiece(encoder, p, New(streamId, maxChunkSize), WriterOps(Head(requestId), written));
      WriterOpsSnoc(Head(requestId), written, p);
      written := written + [p];
    }

    method PutAll(ps: seq<Piece>)
      requires Valid()
      modifies this`written, encoder.encoder
      ensures Valid() && written == old(written) + ps
    {
      for i := 0 to |ps|
        invariant Valid() && written == old(written) + ps[..i]
      {
        TakeNext(old(written), ps, i);
        Put(ps[i]);
      }
      assert ps[..|ps|] == ps;
    }
  }

  method WritePiece(e: RpcStreamEncoder, p: Piece, ghost start: Encoder, ghost ops: seq<Op>)
    requires start.maxChunkSize > 0 && At(start, ops, e.encoder.Abs(), e.encoder.emitted)
    modifies e.encoder
    ensures At(start, ops + PieceOps(p), e.encoder.Abs(), e.encoder.emitted)
  {
    AtNext(start, ops, e.encoder.Abs(), e.encoder.emitted, Write(p.chunk));
    ghost var ops1 := ops + [Write(p.chunk)];
    var _ := e.WriteBytes(p.chunk);
    AtNext(start, ops1, e.encoder.Abs(), e.encoder.emitted, Flush);
    ghost var ops2 := ops1 + [Flush];
    var _ := e.FlushBuffer();
    if p.isFinalized {
      AtNext(start, ops2, e.encoder.Abs(), e.encoder.emitted, EndStream);
      var _ := e.End();
      assert ops2 + [EndStream] == ops + PieceOps(p);
    } else {
      assert ops2 == ops + PieceOps(p);
    }
  }

  lemma WriterOpsSnoc(head: Bytes.Data, ps: seq<Piece>, p: Piece)
    ensures WriterOps(head, ps + [p]) == WriterOps(head, ps) + PieceOps(p)
  {
    assert (ps + [p])[..|ps|] == ps;
  }

  class StreamResponder {
    const requestId: U32
    var writer: ResponseWriter?
    var buffer: seq<Piece>
    /** Every call of `respond` so far, in order, and those that went to a writer that has been
        replaced since. */
    ghost var calls: seq<Piece>
    ghost var earlier: seq<Piece>

    /** Before a writer is there the calls are in the buffer; from then on they are exactly what the
        writers have been called with. */
    ghost predicate Valid()
      reads this, writer, if writer == null then {} else {writer.encoder.encoder}
    {
      if writer == null then buffer == calls && earlier == []
      else buffer == [] && writer.Valid() && calls == earlier + writer.written
    }

    constructor (requestId: U32)
      ensures Valid() && calls == [] && writer == null && this.requestId == requestId
    {
      this.requestId := requestId;
      writer, buffer, calls, earlier := null, [], [], [];
    }

    method Respond(p: Piece)
      requires Valid()
      modifies this`buffer, this`calls, writer, if writer == null then {} else {writer.encoder.encoder}
      ensures Valid() && writer == old(writer) && earlier == old(earlier) && calls == old(calls) + [p]
    {
      if writer != null {
        AppendLast(earlier, writer.written, p);
        writer.Put(p);
      } else {
        buffer := buffer + [p];
      }
      calls := calls + [p];
    }

    /** Installs a new writer, in place of the one that may be there, and hands it what was buffered,
        in order. */
    method SetWriter(w: ResponseWriter)
      requires Valid() && w.Valid() && w.written == []
      modifies this`writer, this`buffer, this`earlier, w`written, w.encoder.encoder
      ensures Valid() && writer == w && calls == old(calls)
      ensures if old(writer) == null then w.written == calls else w.written == [] && earlier == calls
    {
      earlier := if writer == null then [] else calls;
      writer := w;
      var buffered := buffer;
      buffer := [];
      w.PutAll(buffered);
      assert [] + buffered == buffered && calls + [] == calls;
    }
  }

  /** A responder that waits for its writer. */
  ghost predicate Waiting(r: StreamResponder, calls: seq<Piece>)
    reads r, r.writer, if r.writer == null then {} else {r.writer.encoder.encoder}
  {
    r.Valid() && r.writer == null && r.calls == calls
  }

  /** A responder whose writer, on stream `s`, has seen exactly the calls made so far. */
  ghost predicate Writing(r: StreamResponder, calls: seq<Piece>, s: U32)
    reads r, r.writer, if r.writer == null then {} else {r.writer.encoder.encoder}
  {
    && r.Valid() && r.writer != null && r.calls == calls
    && r.writer.written == calls && r.writer.requestId == r.requestId && r.writer.streamId == s
  }

  /** `i` ids have been drawn for streams since the counter stood at `draws` and `next` was ahead. */
  ghost predicate Drawing(session: Session.RpcSession, counter: IdCounter, next: U32, draws: nat, i: nat)
    reads session, counter
  {
    && counter.Valid() && counter.draws == draws + i
    && Place(session.space, session.nextStreamId) == NthId(session.space, next, draws, i)
  }

  method InstallNext(session: Session.RpcSession, r: StreamResponder, maxChunkSize: nat, counter: IdCounter,
                     ghost calls: seq<Piece>, ghost next: U32, ghost draws: nat, ghost i: nat)
    requires Drawing(session, counter, next, draws, i) && maxChunkSize > 0 && Waiting(r, calls)
    modifies session`nextStreamId, counter, r
    ensures Drawing(session, counter, next, draws, i + 1)
    ensures Writing(r, calls, NthId(session.space, next, draws, i))
  {
    NextId(session.space, next, draws, i);
    var writer := new ResponseWriter(session, maxChunkSize, r.requestId, counter);
    r.SetWriter(writer);
  }

  /** The first `i` responders have their writers, and the others wait. */
  ghost predicate InstalledTo(session: Session.RpcSession, responders: seq<StreamResponder>, calls: seq<seq<Piece>>,
                              next: U32, draws: nat, i: nat)
    requires i <= |responders| == |calls|
    reads responders, set r | r in responders && r.writer != null :: r.writer,
          set r | r in responders && r.writer != null :: r.writer.encoder.encoder
  {
    && (forall j | i <= j < |responders| :: Waiting(responders[j], calls[j]))
    && (forall j | 0 <= j < i :: Writing(responders[j], calls[j], NthId(session.space, next, draws, j)))
  }

  method InstallAt(session: Session.RpcSession, responders: seq<StreamResponder>, maxChunkSize: nat, counter: IdCounter,
                   ghost calls: seq<seq<Piece>>, ghost next: U32, ghost draws: nat, i: nat)
    requires i < |responders| == |calls| && maxChunkSize > 0 && Drawing(session, counter, next, draws, i)
    requires InstalledTo(session, responders, calls, next, draws, i)
    requires forall j, k | 0 <= j < k < |responders| :: responders[j] != responders[k]
    modifies session`nextStreamId, counter, responders[i]
    ensures Drawing(session, counter, next, draws, i + 1)
    ensures InstalledTo(session, responders, calls, next, draws, i + 1)
  {
    InstallNext(session, responders[i], maxChunkSize, counter, calls[i], next, draws, i);
  }

  /** After a read, every responder that a stream router has made gets its writer. */
  method InstallWriters(session: Session.RpcSession, responders: seq<StreamResponder>, maxChunkSize: nat, counter: IdCounter,
                        ghost calls: seq<seq<Piece>>)
    requires counter.Valid() && maxChunkSize > 0 && |calls| == |responders|
    requires forall i | 0 <= i < |responders| :: Waiting(responders[i], calls[i])
    requires forall i, j | 0 <= i < j < |responders| :: responders[i] != responders[j]
    modifies session`nextStreamId, counter, set r | r in responders
    ensures counter.Valid() && counter.draws == old(counter.draws) + |responders|
    ensures forall i | 0 <= i < |responders| ::
              Writing(responders[i], calls[i], NthId(session.space, old(session.nextStreamId), old(counter.draws), i))
  {
    ghost var next, draws := session.nextStreamId, counter.draws;
    for i := 0 to |responders|
      invariant Drawing(session, counter, next, draws, i)
      invariant InstalledTo(session, responders, calls, next, draws, i)
    {
      InstallAt(session, responders, maxChunkSize, counter, calls, next, draws, i);
    }
  }

  // ---------------------------------------------------------------- what the peer decodes

  /** The number of pieces up to and including the first finalized one, or all of them. */
  function Effective(ps: seq<Piece>): (k: nat)
    ensures k <= |ps|
  {
    if ps == [] then 0
    else
      var k := Effective(ps[..|ps| - 1]);
      if k > 0 && ps[k - 1].isFinalized then k else |ps|
  }

  function Contents(ps: seq<Piece>): Bytes.Data {
    if ps == [] then [] else Contents(ps[..|ps| - 1]) + ps[|ps| - 1].chunk
  }

  predicate Finished(ps: seq<Piece>) {
    exists i :: 0 <= i < |ps| && ps[i].isFinalized
  }

  lemma {:induction false} ClosedForGood(e: Encoder, a: seq<Op>, b: seq<Op>)
    requires e.maxChunkSize > 0 && RunOps(e, a).encoder.Closed()
    ensures RunOps(e, a + b).frames == RunOps(e, a).frames && RunOps(e, a + b).encoder == RunOps(e, a).encoder
  {
    if b == [] {
      assert a + b == a;
    } else {
      var n := |b| - 1;
      ClosedForGood(e, a, b[..n]);
      RunOpsSnoc(e, a + b[..n], b[n]);
      assert a + b == (a + b[..n]) + [b[n]];
    }
  }

  lemma OpenPiece(ops: seq<Op>, p: Piece)
    requires OnlyWrites(ops) && !p.isFinalized
    ensures OnlyWrites(ops + PieceOps(p)) && Written(ops + PieceOps(p)) == Written(ops) + p.chunk
  {
    var w := Write(p.chunk);
    WrittenSnoc(ops, w);
    WrittenSnoc(ops + [w], Flush);
    assert ops + PieceOps(p) == (ops + [w]) + [Flush];
    assert Written(ops) + p.chunk + [] == Written(ops) + p.chunk;
  }

  lemma {:induction false} OpenPieces(head: Bytes.Data, ps: seq<Piece>)
    requires forall p | p in ps :: !p.isFinalized
    ensures OnlyWrites(WriterOps(head, ps)) && Written(WriterOps(head, ps)) == head + Contents(ps)
  {
    if ps == [] {
      assert [Write(head)][..0] == [];
      assert [] + head == head == head + [];
    } else {
      var n := |ps| - 1;
      OpenPieces(head, ps[..n]);
      assert ps[n] in ps;
      OpenPiece(WriterOps(head, ps[..n]), ps[n]);
      assert (head + Contents(ps[..n])) + ps[n].chunk == head + (Contents(ps[..n]) + ps[n].chunk);
    }
  }

  lemma LastPieceOps(head: Bytes.Data, front: seq<Piece>, p: Piece) returns (ops: seq<Op>)
    requires p.isFinalized && forall q | q in front :: !q.isFinalized
    ensures OnlyWrites(ops) && WriterOps(head, front + [p]) == ops + [Flush] + [EndStream]
    ensures Written(ops) == head + Contents(front + [p])
  {
    OpenPieces(head, front);
    WriterOpsSnoc(head, front, p);
    ops := WriterOps(head, front) + [Write(p.chunk)];
    WrittenSnoc(WriterOps(head, front), Write(p.chunk));
    assert (front + [p])[..|front|] == front;
    assert (head + Contents(front)) + p.chunk == head + (Contents(front) + p.chunk);
    assert WriterOps(head, front) + PieceOps(p) == ops + [Flush] + [EndStream];
  }

  lemma LastPieceCloses(streamId: U32, maxChunkSize: nat, head: Bytes.Data, front: seq<Piece>, p: Piece)
    requires maxChunkSize > 0 && p.isFinalized && forall q | q in front :: !q.isFinalized
    ensures RunOps(New(streamId, maxChunkSize), WriterOps(head, front + [p])).encoder.Closed()
  {
    var ops := LastPieceOps(head, front, p);
    RunOpsSnoc(New(streamId, maxChunkSize), ops + [Flush], EndStream);
  }

  /** Pieces of which exactly the last is finalized go out as one complete stream. */
  lemma LastPieceCompletes(streamId: U32, maxChunkSize: nat, head: Bytes.Data, front: seq<Piece>, p: Piece)
    requires maxChunkSize > 0 && p.isFinalized && forall q | q in front :: !q.isFinalized
    requires Fits(WriterFrames(streamId, maxChunkSize, head, front + [p]))
    ensures Complete(streamId, WriterFrames(streamId, maxChunkSize, head, front + [p]), head + Contents(front + [p]))
  {
    var ops := LastPieceOps(head, front, p);
    FlushEndCompletes(streamId, maxChunkSize, ops);
  }

  lemma {:induction false} EffectivePrefix(ps: seq<Piece>)
    ensures var k := Effective(ps);
            && (forall i | 0 <= i < k - 1 :: !ps[i].isFinalized)
            && (Finished(ps) ==> k > 0 && ps[k - 1].isFinalized)
            && (!Finished(ps) ==> k == |ps|)
  {
    if ps != [] {
      var n := |ps| - 1;
      EffectivePrefix(ps[..n]);
      var k := Effective(ps[..n]);
      if Finished(ps[..n]) {
        assert ps[k - 1] == ps[..n][k - 1];
      } else {
        forall i | 0 <= i < n
          ensures !ps[i].isFinalized
        {
          assert ps[i] == ps[..n][i];
        }
      }
    }
  }

  lemma {:induction false} OpsPrefix(head: Bytes.Data, ps: seq<Piece>, k: nat) returns (rest: seq<Op>)
    requires k <= |ps|
    ensures WriterOps(head, ps) == WriterOps(head, ps[..k]) + rest
    decreases |ps| - k
  {
    if k < |ps| {
      rest := OpsPrefix(head, ps, k + 1);
      assert ps[..k + 1][..k] == ps[..k];
      var more := PieceOps(ps[k]);
      assert (WriterOps(head, ps[..k]) + more) + rest == WriterOps(head, ps[..k]) + (more + rest);
      rest := more + rest;
    } else {
      assert ps[..k] == ps;
      rest := [];
    }
  }

  /** Once a piece is finalized the stream is complete, and later pieces have no effect. */
  lemma EffectivePieces(streamId: U32, maxChunkSize: nat, head: Bytes.Data, ps: seq<Piece>)
    requires maxChunkSize > 0 && Finished(ps) && Fits(WriterFrames(streamId, maxChunkSize, head, ps))
    ensures var heard := ps[..Effective(ps)];
            && WriterFrames(streamId, maxChunkSize, head, ps) == WriterFrames(streamId, maxChunkSize, head, heard)
            && Complete(streamId, WriterFrames(streamId, maxChunkSize, head, ps), head + Contents(heard))
  {
    var k := Effective(ps);
    EffectivePrefix(ps);
    var front, p := ps[..k - 1], ps[k - 1];
    assert ps[..k] == front + [p];
    var rest := OpsPrefix(head, ps, k);
    LastPieceCloses(streamId, maxChunkSize, head, front, p);
    ClosedForGood(New(streamId, maxChunkSize), WriterOps(head, ps[..k]), rest);
    LastPieceCompletes(streamId, maxChunkSize, head, front, p);
  }

  /** A wire that carries the response among other messages. */
  lemma ResponseCarried(wire: seq<Frame>, others: seq<Frame>, msgs: map<U32, Session.Message>, streamId: U32,
                        maxChunkSize: nat, requestId: U32, ps: seq<Piece>)
    requires Session.Carries(others, msgs) && streamId !in msgs
    requires forall id: U32 | id != streamId :: Own(wire, id) == Own(others, id)
    requires maxChunkSize > 0 && Finished(ps) && Fits(Own(wire, streamId))
    requires Own(wire, streamId) == WriterFrames(streamId, maxChunkSize, Head(requestId), ps)
    ensures var m := Session.Message(SuccessHeader(requestId), Contents(ps[..Effective(ps)]));
            Session.Carries(wire, msgs[streamId := m])
  {
    EffectivePieces(streamId, maxChunkSize, Head(requestId), ps);
  }

  /** Whatever is responded in whatever number of pieces, in the middle of any other messages, the
      frames permuted and the bytes read in any slices: once a piece is finalized the peer has at
      every moment been told a prefix of the response - a success header, chunks that make up
      everything up to and including the first finalized piece, and the end - and all of it once
      everything is delivered. Then the caller's channel is closed and collects to exactly what was
      responded, and the session is back in its initial state. */
  lemma ResponseArrives(wire: seq<Frame>, others: seq<Frame>, msgs: map<U32, Session.Message>, streamId: U32,
                        maxChunkSize: nat, requestId: U32, ps: seq<Piece>,
                        arrivals: seq<Frame>, n: nat, slices: seq<Bytes.Data>)
    requires Session.Carries(others, msgs) && streamId !in msgs
    requires forall id: U32 | id != streamId :: Own(wire, id) == Own(others, id)
    requires maxChunkSize > 0 && Finished(ps) && Fits(Own(wire, streamId))
    requires Own(wire, streamId) == WriterFrames(streamId, maxChunkSize, Head(requestId), ps)
    requires multiset(arrivals) <= multiset(wire) && n <= |EncodeAll(arrivals)|
    requires Flatten(slices) == EncodeAll(arrivals)[..n]
    ensures var contents := Contents(ps[..Effective(ps)]);
            var (s, outs, err) := Session.ReadAll(Session.EMPTY, slices);
            var told := Session.Events(Select(Session.OutStream, outs, streamId));
            && err == None && Telling(RpcHeader(Response, requestId, 0, [0]), contents, told)
            && (forall e | e in told :: RequestOf(e) == Some(requestId))
            && (Session.AllDelivered(wire, arrivals, n) ==>
                  && s == Session.EMPTY
                  && !Receive(LISTENING, told).isOpen && Collected(Receive(LISTENING, told).items) == Ok(contents))
  {
    var contents := Contents(ps[..Effective(ps)]);
    var m := Session.Message(SuccessHeader(requestId), contents);
    ResponseCarried(wire, others, msgs, streamId, maxChunkSize, requestId, ps);
    SlicesTell(wire, msgs[streamId := m], arrivals, n, slices, streamId);
    var told := Session.Events(Select(Session.OutStream, Session.ReadAll(Session.EMPTY, slices).1, streamId));
    TellingIsOrderly(m.header, contents, told);
    if Session.AllDelivered(wire, arrivals, n) {
      var cs :| Told(m.header, contents, told, cs, true);
      ResponseCollected(requestId, cs);
    }
  }

  /** The caller's receiver collects a response of this kind whole. */
  lemma ResponseCollected(requestId: U32, cs: seq<Bytes.Data>)
    ensures var s := Receive(LISTENING, Script(SuccessHeader(requestId), cs, true));
            !s.isOpen && Collected(s.items) == Ok(Flatten(cs))
  {
    ReceivesScript(SuccessHeader(requestId), cs);
    CollectsChunks(cs);
  }

  // ---------------------------------------------------------------- pieces that are not the last

  lemma FlushedEmpty(e: Encoder)
    requires !e.Closed()
    ensures Apply(e, Flush).0.buffer == [] && !Apply(e, Flush).0.Closed()
  {
  }

  lemma UnfinishedFlushed(streamId: U32, maxChunkSize: nat, head: Bytes.Data, ps: seq<Piece>)
    requires maxChunkSize > 0 && ps != [] && forall p | p in ps :: !p.isFinalized
    ensures var r := RunOps(New(streamId, maxChunkSize), WriterOps(head, ps));
            r.encoder.buffer == [] && Payloads(r.frames) == head + Contents(ps)
  {
    var e, n := New(streamId, maxChunkSize), |ps| - 1;
    var before := WriterOps(head, ps[..n]) + [Write(ps[n].chunk)];
    assert ps[n] in ps;
    assert WriterOps(head, ps) == before + [Flush];
    OpenPieces(head, ps);
    OpenLaw(streamId, maxChunkSize, WriterOps(head, ps));
    assert forall op | op in before :: op in WriterOps(head, ps);
    OpenLaw(streamId, maxChunkSize, before);
    RunOpsSnoc(e, before, Flush);
    FlushedEmpty(RunOps(e, before).encoder);
    var frames := RunOps(e, WriterOps(head, ps)).frames;
    assert Payloads(frames) + [] == Payloads(frames);
  }

  /** After any pieces, whether one of them is finalized or not, nothing waits in the encoder: the
      frames emitted carry the header and every piece that has an effect. */
  lemma PiecesFlushed(streamId: U32, maxChunkSize: nat, head: Bytes.Data, ps: seq<Piece>)
    requires maxChunkSize > 0 && ps != []
    ensures var r := RunOps(New(streamId, maxChunkSize), WriterOps(head, ps));
            && r.encoder.buffer == [] && Payloads(r.frames) == head + Contents(ps[..Effective(ps)])
            && (r.encoder.Closed() <==> Finished(ps))
  {
    EffectivePrefix(ps);
    if Finished(ps) {
      FinishedFlushed(streamId, maxChunkSize, head, ps);
    } else {
      assert ps[..|ps|] == ps;
      forall p | p in ps
        ensures !p.isFinalized
      {
        var i :| 0 <= i < |ps| && ps[i] == p;
      }
      UnfinishedFlushed(streamId, maxChunkSize, head, ps);
      OpenPieces(head, ps);
      OpenLaw(streamId, maxChunkSize, WriterOps(head, ps));
    }
  }

  lemma {:induction false} FinishedFlushed(streamId: U32, maxChunkSize: nat, head: Bytes.Data, ps: seq<Piece>)
    requires maxChunkSize > 0 && Finished(ps)
    ensures var r := RunOps(New(streamId, maxChunkSize), WriterOps(head, ps));
            r.encoder.buffer == [] && Payloads(r.frames) == head + Contents(ps[..Effective(ps)]) && r.encoder.Closed()
  {
    var k, e := Effective(ps), New(streamId, maxChunkSize);
    EffectivePrefix(ps);
    var front, p := ps[..k - 1], ps[k - 1];
    assert ps[..k] == front + [p];
    var rest := OpsPrefix(head, ps, k);
    LastPieceContents(streamId, maxChunkSize, head, front, p);
    ClosedForGood(e, WriterOps(head, ps[..k]), rest);
  }

  lemma LastPieceContents(streamId: U32, maxChunkSize: nat, head: Bytes.Data, front: seq<Piece>, p: Piece)
    requires maxChunkSize > 0 && p.isFinalized && forall q | q in front :: !q.isFinalized
    ensures var r := RunOps(New(streamId, maxChunkSize), WriterOps(head, front + [p]));
            r.encoder.buffer == [] && r.encoder.Closed() && Payloads(r.frames) == head + Contents(front + [p])
  {
    var ops := LastPieceOps(head, front, p);
    EndedContents(streamId, maxChunkSize, ops);
  }

  lemma EndedContents(streamId: U32, maxChunkSize: nat, ops: seq<Op>)
    requires maxChunkSize > 0 && OnlyWrites(ops)
    ensures var r := RunOps(New(streamId, maxChunkSize), ops + [Flush] + [EndStream]);
            r.encoder.buffer == [] && r.encoder.Closed() && Payloads(r.frames) == Written(ops)
  {
    var e := New(streamId, maxChunkSize);
    StaysOpen(e, ops);
    RunOpsSnoc(e, ops, Flush);
    RunOpsSnoc(e, ops + [Flush], EndStream);
    FlushEnd(RunOps(e, ops).encoder);
    RunLaw(streamId, maxChunkSize, ops + [Flush] + [EndStream]);
    var frames := RunOps(e, ops + [Flush] + [EndStream]).frames;
    assert Payloads(frames) + [] == Payloads(frames);
  }
}
