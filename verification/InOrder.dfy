/** Reassembly of sequenced streams that arrive out of order. */
module InOrder {
  import opened Bytes
  import opened Sequences
  import opened Lanes
  import opened FrameCodec
  import opened FrameMux

  /** The frames of one stream as an encoder emits them: numbered from zero, not cancelled,
      and with nothing behind an end frame. */
  predicate Sequenced(id: U32, fs: seq<Frame>) {
    && |fs| < TWO_32
    && forall i | 0 <= i < |fs| ::
         && fs[i].streamId == id && fs[i].seqId == i && |fs[i].payload| < TWO_32
         && fs[i].kind != Cancel && (fs[i].kind == End ==> i == |fs| - 1)
  }

  predicate Ended(fs: seq<Frame>) {
    |fs| > 0 && fs[|fs| - 1].kind == End
  }

  function Intact(f: Frame): Item {
    Ok(DecodedFrame(f, None))
  }

  function Items(fs: seq<Frame>): (r: seq<Item>)
    ensures |r| == |fs| && forall i | 0 <= i < |fs| :: r[i] == Intact(fs[i])
  {
    seq(|fs|, i requires 0 <= i < |fs| => Intact(fs[i]))
  }

  lemma ItemsSnoc(fs: seq<Frame>, f: Frame)
    ensures Items(fs + [f]) == Items(fs) + [Intact(f)]
  {
  }

  lemma ItemsSplit(fs: seq<Frame>, i: nat, j: nat)
    requires i <= j <= |fs|
    ensures Items(fs[..i]) + Items(fs[i..j]) == Items(fs[..j])
  {
  }

  /** The least index from `i` on that is not in `got`. */
  function FirstGap(got: set<nat>, i: nat, n: nat): (k: nat)
    requires i <= n
    ensures i <= k <= n
    ensures forall j | i <= j < k :: j in got
    ensures k < n ==> k !in got
    decreases n - i
  {
    if i < n && i in got then FirstGap(got, i + 1, n) else i
  }

  lemma FirstGapUnique(got: set<nat>, i: nat, n: nat, k: nat)
    requires i <= k <= n && (forall j | i <= j < k :: j in got) && (k < n ==> k !in got)
    ensures FirstGap(got, i, n) == k
  {
  }

  /** The reorder buffer that holds what was received from index `k` on. */
  function Held(fs: seq<Frame>, got: set<nat>, k: nat): map<U32, DecodedFrame>
    requires |fs| < TWO_32
  {
    map q: U32 | q in got && k <= q < |fs| :: DecodedFrame(fs[q], None)
  }

  /** The state of a stream as a function of which of its frames were received: the order in
      which they came leaves no trace. */
  function LaneOf(fs: seq<Frame>, got: set<nat>): Option<Reassembly>
    requires |fs| < TWO_32
  {
    var k := FirstGap(got, 0, |fs|);
    if got == {} || (k == |fs| && Ended(fs)) then None
    else Some(Reassembly(k, Held(fs, got, k), false, Ended(fs) && |fs| - 1 in got))
  }

  function Decoded(fs: seq<Frame>): (r: seq<DecodedFrame>)
    ensures |r| == |fs| && forall i | 0 <= i < |fs| :: r[i] == DecodedFrame(fs[i], None)
  {
    seq(|fs|, i requires 0 <= i < |fs| => DecodedFrame(fs[i], None))
  }

  lemma {:induction false} FlushHeld(fs: seq<Frame>, got: set<nat>, k: nat)
    requires |fs| < TWO_32 && k <= |fs|
    ensures var k' := FirstGap(got, k, |fs|);
            Flush(k, Held(fs, got, k)) == (k', Held(fs, got, k'), Decoded(fs[k..k']))
    decreases |fs| - k
  {
    var held: map<U32, DecodedFrame> := Held(fs, got, k);
    var k' := FirstGap(got, k, |fs|);
    if k < |fs| && k in got {
      var now: set<U32> := {k};
      assert held - now == Held(fs, got, k + 1);
      FlushHeld(fs, got, k + 1);
      assert Decoded(fs[k..k']) == [held[k]] + Decoded(fs[k + 1..k']);
    } else {
      assert k' == k;
      assert Decoded(fs[k..k]) == [];
    }
  }

  ghost predicate Received(fs: seq<Frame>, got: set<nat>, lane: Option<Reassembly>, out: seq<Item>)
    requires |fs| < TWO_32
  {
    lane == LaneOf(fs, got) && out == Items(fs[..FirstGap(got, 0, |fs|)])
  }

  lemma HeldMore(id: U32, fs: seq<Frame>, got: set<nat>, a: nat)
    requires Sequenced(id, fs) && a < |fs| && a !in got
    ensures var k := FirstGap(got, 0, |fs|);
            && k <= a && Held(fs, got, k)[a := DecodedFrame(fs[a], None)] == Held(fs, got + {a}, k)
            && FirstGap(got + {a}, 0, |fs|) == FirstGap(got + {a}, k, |fs|)
  {
    FirstGapUnique(got + {a}, 0, |fs|, FirstGap(got + {a}, FirstGap(got, 0, |fs|), |fs|));
  }

  /** A stream is forgotten exactly when it has ended and nothing is held back. */
  lemma HeldEmpty(id: U32, fs: seq<Frame>, got: set<nat>)
    requires Sequenced(id, fs) && forall q | q in got :: q < |fs|
    ensures var k := FirstGap(got, 0, |fs|);
            Ended(fs) && |fs| - 1 in got ==> (Held(fs, got, k) == map[] <==> k == |fs|)
  {
    var k, n := FirstGap(got, 0, |fs|), |fs|;
    if n - 1 in got && k < n {
      assert n - 1 in Held(fs, got, k);
    }
  }

  lemma ReceiveOne(id: U32, fs: seq<Frame>, got: set<nat>, a: nat)
    requires Sequenced(id, fs) && a < |fs| && a !in got && forall q | q in got :: q < |fs|
    ensures var k := FirstGap(got, 0, |fs|);
            var k' := FirstGap(got + {a}, 0, |fs|);
            k <= k' && StreamStep(LaneOf(fs, got), Intact(fs[a])) == (LaneOf(fs, got + {a}), Items(fs[k..k']))
  {
    var k := FirstGap(got, 0, |fs|);
    var k' := FirstGap(got + {a}, 0, |fs|);
    HeldMore(id, fs, got, a);
    assert got == {} ==> Held(fs, got, k) == map[];
    FlushHeld(fs, got + {a}, k);
    HeldEmpty(id, fs, got + {a});
    assert Oks(Decoded(fs[k..k'])) == Items(fs[k..k']);
  }

  lemma ReceiveNext(id: U32, fs: seq<Frame>, front: seq<Frame>, f: Frame)
    requires Sequenced(id, fs) && multiset(front + [f]) <= multiset(fs)
    requires forall q | q in Indices(front) :: q < |fs|
    requires Received(fs, Indices(front), RunLane(MUX, None, Items(front)).0, RunLane(MUX, None, Items(front)).1)
    ensures var lane := RunLane(MUX, None, Items(front + [f]));
            Received(fs, Indices(front) + {f.seqId}, lane.0, lane.1)
    ensures f.seqId < |fs|
  {
    var n, got := |fs|, Indices(front);
    ArrivesOnce(id, fs, front, f);
    ReceiveOne(id, fs, got, f.seqId);
    ItemsSnoc(front, f);
    RunLaneSnoc(MUX, None, Items(front), Intact(f));
    ItemsSplit(fs, FirstGap(got, 0, n), FirstGap(got + {f.seqId}, 0, n));
  }

  /** Maximal prefix: whatever frames of a stream have arrived, each once and in whatever order,
      the decoder has emitted exactly the frames before the first missing one, and its reorder
      buffer holds exactly the other ones. */
  lemma {:induction false} MaximalPrefix(id: U32, fs: seq<Frame>, arrivals: seq<Frame>)
    requires Sequenced(id, fs) && multiset(arrivals) <= multiset(fs)
    ensures forall q | q in Indices(arrivals) :: q < |fs|
    ensures var lane := RunLane(MUX, None, Items(arrivals));
            Received(fs, Indices(arrivals), lane.0, lane.1)
  {
    if arrivals == [] {
      assert Indices(arrivals) == {};
      assert FirstGap({}, 0, |fs|) == 0;
    } else {
      var last := |arrivals| - 1;
      var front, f := arrivals[..last], arrivals[last];
      assert arrivals == front + [f];
      MaximalPrefix(id, fs, front);
      ReceiveNext(id, fs, front, f);
      IndicesSnoc(front, f);
    }
  }

  function Indices(fs: seq<Frame>): set<nat> {
    set i | 0 <= i < |fs| :: fs[i].seqId
  }

  lemma IndicesSnoc(fs: seq<Frame>, f: Frame)
    ensures Indices(fs + [f]) == Indices(fs) + {f.seqId}
  {
    forall q | q in Indices(fs) + {f.seqId}
      ensures q in Indices(fs + [f])
    {
      if q == f.seqId {
        assert (fs + [f])[|fs|].seqId == q;
      } else {
        var i :| 0 <= i < |fs| && fs[i].seqId == q;
        assert (fs + [f])[i].seqId == q;
      }
    }
  }

  /** A frame that arrives is the one its sequence number says, and is new. */
  lemma ArrivesOnce(id: U32, fs: seq<Frame>, front: seq<Frame>, f: Frame)
    requires Sequenced(id, fs) && multiset(front + [f]) <= multiset(fs)
    ensures f.seqId < |fs| && fs[f.seqId] == f && f.seqId !in Indices(front)
  {
    assert f in multiset(fs);
    var i :| 0 <= i < |fs| && fs[i] == f;
    assert fs == fs[..i] + [f] + fs[i + 1..];
    assert f !in fs[..i] && f !in fs[i + 1..];
    assert multiset(fs)[f] == 1;
    assert f !in front by {
      assert multiset(front + [f])[f] == multiset(front)[f] + 1;
    }
    forall j | 0 <= j < |front|
      ensures front[j].seqId != f.seqId
    {
      assert front[j] in multiset(front + [f]);
      assert front[j] in multiset(fs);
    }
  }

  /** Once all frames of the stream have arrived the whole stream has been emitted, and an ended
      stream has been forgotten. */
  lemma AllArrived(id: U32, fs: seq<Frame>, arrivals: seq<Frame>)
    requires Sequenced(id, fs) && multiset(arrivals) == multiset(fs)
    ensures FirstGap(Indices(arrivals), 0, |fs|) == |fs|
    ensures RunLane(MUX, None, Items(arrivals)).1 == Items(fs)
    ensures Ended(fs) || fs == [] ==> RunLane(MUX, None, Items(arrivals)).0 == None
  {
    MaximalPrefix(id, fs, arrivals);
    forall j: nat | j < |fs|
      ensures j in Indices(arrivals)
    {
      assert fs[j] in multiset(arrivals);
      var i :| 0 <= i < |arrivals| && arrivals[i] == fs[j];
    }
    FirstGapUnique(Indices(arrivals), 0, |fs|, |fs|);
    assert fs[..|fs|] == fs;
    if fs == [] {
      assert |multiset(arrivals)| == 0;
      assert arrivals == [];
    }
  }

  // ---------------------------------------------------------------- many streams on one wire

  function FrameStream(f: Frame): Option<U32> {
    Some(f.streamId)
  }

  /** The frames of stream `id` on a wire. */
  function Own(wire: seq<Frame>, id: U32): seq<Frame> {
    Select(FrameStream, wire, id)
  }

  /** A wire that carries sequenced streams, interleaved anyhow. */
  ghost predicate WellSent(wire: seq<Frame>) {
    forall id :: Sequenced(id, Own(wire, id))
  }

  lemma {:induction false} SelectItems(fs: seq<Frame>, id: U32)
    ensures Select(StreamOf, Items(fs), id) == Items(Own(fs, id))
  {
    if fs != [] {
      var n := |fs| - 1;
      SelectItems(fs[..n], id);
      assert Items(fs)[..n] == Items(fs[..n]);
      if fs[n].streamId == id {
        assert Items(Own(fs, id)) == Items(Own(fs[..n], id)) + [Intact(fs[n])];
      }
    }
  }

  lemma NoStreamsValid()
    ensures AllLanes<U32, Reassembly>(map[], LaneInv)
  {
  }

  /** Stream by stream, a wire whose frames arrive in any order and any part is decoded to the
      maximal in-order prefix of each stream. */
  lemma ArrivalOf(wire: seq<Frame>, arrivals: seq<Frame>, id: U32)
    requires WellSent(wire) && multiset(arrivals) <= multiset(wire)
    ensures var got := Indices(Own(arrivals, id));
            var (streams, out) := Run(MUX, map[], Items(arrivals));
            Received(Own(wire, id), got, Get(streams, id), Select(StreamOf, out, id))
  {
    NoStreamsValid();
    StreamsDoNotInterfere(map[], Items(arrivals), id);
    SelectItems(arrivals, id);
    SelectSubset(FrameStream, arrivals, wire, id);
    MaximalPrefix(id, Own(wire, id), Own(arrivals, id));
  }

  /** Reassembly: every permutation of the frames of ended streams makes the decoder emit each
      stream exactly once and in order, and leaves no stream behind. */
  lemma PermutationReassembles(wire: seq<Frame>, arrivals: seq<Frame>)
    requires WellSent(wire) && multiset(arrivals) == multiset(wire)
    requires forall id :: Ended(Own(wire, id)) || Own(wire, id) == []
    ensures forall id :: Select(StreamOf, Run(MUX, map[], Items(arrivals)).1, id) == Items(Own(wire, id))
    ensures Run(MUX, map[], Items(arrivals)).0 == map[]
  {
    var (streams, out) := Run(MUX, map[], Items(arrivals));
    forall id
      ensures Select(StreamOf, out, id) == Items(Own(wire, id)) && Get(streams, id) == None
    {
      ArrivalOf(wire, arrivals, id);
      SelectSubset(FrameStream, arrivals, wire, id);
      SelectSubset(FrameStream, wire, arrivals, id);
      AllArrived(id, Own(wire, id), Own(arrivals, id));
      MaximalPrefix(id, Own(wire, id), Own(arrivals, id));
    }
    assert forall id :: id !in streams by {
      forall id ensures id !in streams { assert Get(streams, id) == None; }
    }
  }

  // ---------------------------------------------------------------- the wire as bytes

  lemma ParseOne(f: Frame)
    requires |f.payload| < TWO_32
    ensures Parse(Encode(f)) == ([Ok(Canonical(f))], [])
  {
    HeaderFields(f, []);
    DecodeEncode(f, []);
    var buf := Encode(f);
    assert buf + [] == buf;
    assert buf[..FrameSize(buf)] == buf && buf[FrameSize(buf)..] == [];
    assert Parse([]) == ([], []);
    assert [Decode(buf)] + [] == [Decode(buf)];
  }

  ghost predicate Plain(fs: seq<Frame>) {
    forall f | f in fs :: |f.payload| < TWO_32 && f.kind != Cancel
  }

  lemma ParseSnoc(bytes: Bytes.Data, items: seq<Item>, f: Frame)
    requires Parse(bytes) == (items, []) && |f.payload| < TWO_32
    ensures Parse(bytes + Encode(f)) == (items + [Ok(Canonical(f))], [])
  {
    ParseOne(f);
    ParseAppend(bytes, Encode(f));
    assert [] + Encode(f) == Encode(f);
  }

  lemma {:induction false} ParseEncoded(fs: seq<Frame>)
    requires Plain(fs)
    ensures Parse(EncodeAll(fs)) == (Items(fs), [])
  {
    if fs != [] {
      var n := |fs| - 1;
      ParseEncoded(fs[..n]);
      ParseSnoc(EncodeAll(fs[..n]), Items(fs[..n]), fs[n]);
      ItemsSnoc(fs[..n], fs[n]);
      assert fs == fs[..n] + [fs[n]];
    }
  }

  /** What has been read of an encoded wire, cut at any byte, is a prefix of its frames. */
  lemma ParsePrefix(fs: seq<Frame>, n: nat) returns (j: nat)
    requires Plain(fs) && n <= |EncodeAll(fs)|
    ensures j <= |fs| && Parse(EncodeAll(fs)[..n]).0 == Items(fs[..j])
    ensures n == |EncodeAll(fs)| ==> j == |fs| && Parse(EncodeAll(fs)[..n]).1 == []
  {
    var a, b := EncodeAll(fs)[..n], EncodeAll(fs)[n..];
    assert a + b == EncodeAll(fs);
    ParseEncoded(fs);
    ParseAppend(a, b);
    var items := Parse(a).0;
    j := |items|;
    assert items == Items(fs)[..j] == Items(fs[..j]);
    if n == |EncodeAll(fs)| {
      assert a == EncodeAll(fs);
    }
  }

  lemma ArrivalsPlain(wire: seq<Frame>, arrivals: seq<Frame>)
    requires WellSent(wire) && multiset(arrivals) <= multiset(wire)
    ensures Plain(arrivals)
  {
    forall f | f in arrivals
      ensures |f.payload| < TWO_32 && f.kind != Cancel
    {
      assert f in multiset(arrivals);
      assert f in multiset(wire);
      SelectMember(FrameStream, wire, f, f.streamId);
      assert Sequenced(f.streamId, Own(wire, f.streamId));
    }
  }

  /** Reassembly from bytes: however the encoded frames are permuted and their bytes sliced, every
      stream comes out once and in order, and the decoder is left empty. */
  lemma SlicesReassemble(wire: seq<Frame>, arrivals: seq<Frame>, slices: seq<Bytes.Data>)
    requires WellSent(wire) && multiset(arrivals) == multiset(wire)
    requires forall id :: Ended(Own(wire, id)) || Own(wire, id) == []
    requires Flatten(slices) == EncodeAll(arrivals)
    ensures ReadAll(EMPTY, slices).0 == EMPTY
    ensures forall id :: Select(StreamOf, ReadAll(EMPTY, slices).1, id) == Items(Own(wire, id))
  {
    SlicesInvariance(EMPTY, slices);
    ArrivalsPlain(wire, arrivals);
    ParseEncoded(arrivals);
    assert [] + EncodeAll(arrivals) == EncodeAll(arrivals);
    PermutationReassembles(wire, arrivals);
  }
}
