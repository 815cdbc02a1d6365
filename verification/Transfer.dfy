/** Whole streams from encoders to decoder: what is written on one side, through any permutation
    of the frames and any slicing of their bytes, is what is decoded on the other. */
module Transfer {
  import opened Bytes
  import opened Sequences
  import opened FrameCodec
  import opened FrameEncoder
  import opened InOrder
  import FrameMux

  /** An encoder and everything that is done to it. */
  datatype Writer = Writer(maxChunkSize: nat, ops: seq<Op>)

  function RunOf(id: U32, w: Writer): Output
    requires w.maxChunkSize > 0
  {
    RunOps(New(id, w.maxChunkSize), w.ops)
  }

  /** A stream that was ended, in whatever way it was written before and used afterwards. */
  predicate Finished(id: U32, w: Writer) {
    w.maxChunkSize > 0 && RunOf(id, w).encoder.isEnded && Fits(RunOf(id, w).frames)
  }

  /** `wire` carries the frames of the encoders `writers`, interleaved anyhow. */
  ghost predicate SentBy(wire: seq<Frame>, writers: map<U32, Writer>) {
    forall id: U32 ::
      if id in writers then Finished(id, writers[id]) && Own(wire, id) == RunOf(id, writers[id]).frames
      else Own(wire, id) == []
  }

  /** A finished stream is sequenced, ended, and carries exactly the bytes accepted. */
  lemma FinishedStream(id: U32, w: Writer)
    requires Finished(id, w)
    ensures var r := RunOf(id, w);
            Sequenced(id, r.frames) && Ended(r.frames) && Payloads(r.frames) == r.accepted
  {
    var r := RunOf(id, w);
    RunLaw(id, w.maxChunkSize, w.ops);
    LawfulIsSequenced(id, w.maxChunkSize, r.frames);
    assert Payloads(r.frames) + [] == Payloads(r.frames);
  }

  lemma WritersWellSent(wire: seq<Frame>, writers: map<U32, Writer>)
    requires SentBy(wire, writers)
    ensures WellSent(wire) && forall id: U32 :: Ended(Own(wire, id)) || Own(wire, id) == []
  {
    forall id: U32
      ensures Sequenced(id, Own(wire, id)) && (Ended(Own(wire, id)) || Own(wire, id) == [])
    {
      if id in writers { FinishedStream(id, writers[id]); }
    }
  }

  /** The payloads of decoded frames. */
  function Contents(items: seq<FrameMux.Item>): Bytes.Data {
    if items == [] then []
    else Contents(items[..|items| - 1])
         + match items[|items| - 1] case Ok(d) => d.inner.payload case Err(_) => []
  }

  lemma {:induction false} ContentsOfItems(fs: seq<Frame>)
    ensures Contents(Items(fs)) == Payloads(fs)
  {
    if fs != [] {
      var n := |fs| - 1;
      ContentsOfItems(fs[..n]);
      assert Items(fs)[..n] == Items(fs[..n]);
    }
  }

  /** Transfer: encoders with distinct stream ids that each ended, their frames permuted and the
      bytes cut anyhow: the decoder hands out, per stream, the frames that the encoder emitted, in
      order and once, whose payloads are the bytes the encoder accepted; and it is left empty. */
  lemma StreamsTransfer(wire: seq<Frame>, writers: map<U32, Writer>, arrivals: seq<Frame>, slices: seq<Bytes.Data>, id: U32)
    requires SentBy(wire, writers) && multiset(arrivals) == multiset(wire) && Flatten(slices) == EncodeAll(arrivals)
    ensures FrameMux.ReadAll(FrameMux.EMPTY, slices).0 == FrameMux.EMPTY
    ensures var items := Select(FrameMux.StreamOf, FrameMux.ReadAll(FrameMux.EMPTY, slices).1, id);
            if id in writers
            then items == Items(RunOf(id, writers[id]).frames) && Contents(items) == RunOf(id, writers[id]).accepted
            else items == []
  {
    WritersWellSent(wire, writers);
    SlicesReassemble(wire, arrivals, slices);
    if id in writers {
      FinishedStream(id, writers[id]);
      ContentsOfItems(RunOf(id, writers[id]).frames);
    }
  }
}
