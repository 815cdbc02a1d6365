/** When it can be seen how the bytes of a session were cut into reads. A read that fails drops the
    rest of its slice; this module says which reads fail, and when that goes unnoticed. */
module Splits {
  import opened Bytes
  import opened Sequences
  import opened Lanes
  import opened FrameCodec
  import opened RpcStream
  import opened InOrder
  import opened Session
  import FrameMux

  // ---------------------------------------------------------------- which reads fail

  function DecoderAt(decoders: map<U32, Decoder>, id: U32): Decoder {
    if id in decoders then decoders[id] else NEW_DECODER
  }

  /** The `i`-th item is a frame that is refused by the decoder that the items before it leave to
      its stream. */
  predicate BadAt(decoders: map<U32, Decoder>, items: seq<Item>, i: nat)
    requires i < |items|
  {
    items[i].Ok? &&
    FailsOn(DecoderAt(Run(SESSION, decoders, items[..i]).0, items[i].value.inner.streamId), items[i].value)
  }

  predicate FirstBad(decoders: map<U32, Decoder>, items: seq<Item>, i: nat) {
    i < |items| && BadAt(decoders, items, i) && forall j | 0 <= j < i :: !BadAt(decoders, items, j)
  }

  predicate NoneBad(decoders: map<U32, Decoder>, items: seq<Item>) {
    forall i | 0 <= i < |items| :: !BadAt(decoders, items, i)
  }

  lemma StepFails(decoders: map<U32, Decoder>, x: Item)
    requires AllLanes(decoders, LaneInv)
    ensures Failure(Step(SESSION, decoders, x).1).Some?
            <==> x.Ok? && FailsOn(DecoderAt(decoders, x.value.inner.streamId), x.value)
  {
    if x.Ok? {
      var id := x.value.inner.streamId;
      assert LaneInv(id, Get(decoders, id));
      StepInv(DecoderAt(decoders, id), x.value);
    }
  }

  /** Processing stops behind the first refused frame. */
  ghost predicate StopsAt(decoders: map<U32, Decoder>, items: seq<Item>, i: nat) {
    && FirstBad(decoders, items, i)
    && Process(decoders, items).error.Some?
    && Process(decoders, items).decoders == Run(SESSION, decoders, items[..i + 1]).0
  }

  ghost predicate GoesOn(decoders: map<U32, Decoder>, items: seq<Item>) {
    && NoneBad(decoders, items)
    && Process(decoders, items).error == None
    && Process(decoders, items).decoders == Run(SESSION, decoders, items).0
  }

  lemma SameFront(decoders: map<U32, Decoder>, front: seq<Item>, x: Item, i: nat)
    requires i < |front|
    ensures BadAt(decoders, front + [x], i) <==> BadAt(decoders, front, i)
  {
    assert (front + [x])[..i] == front[..i];
  }

  lemma NextItem(decoders: map<U32, Decoder>, front: seq<Item>, x: Item)
    requires AllLanes(decoders, LaneInv) && GoesOn(decoders, front)
    ensures GoesOn(decoders, front + [x]) || StopsAt(decoders, front + [x], |front|)
  {
    var items, n := front + [x], |front|;
    assert items[..n] == front && items[..n + 1] == items;
    forall i | 0 <= i < n
      ensures !BadAt(decoders, items, i)
    {
      SameFront(decoders, front, x, i);
    }
    ProcessSnoc(decoders, front, x);
    RunSnoc(SESSION, decoders, front, x);
    SessionKeepsKeys();
    RunKeepsLanes(SESSION, LaneInv, decoders, front);
    StepFails(Run(SESSION, decoders, front).0, x);
  }

  lemma StaysStopped(decoders: map<U32, Decoder>, front: seq<Item>, x: Item, i: nat)
    requires StopsAt(decoders, front, i)
    ensures StopsAt(decoders, front + [x], i)
  {
    ProcessSnoc(decoders, front, x);
    assert front[..i + 1] == (front + [x])[..i + 1];
    forall j | 0 <= j <= i
      ensures BadAt(decoders, front + [x], j) <==> BadAt(decoders, front, j)
    {
      SameFront(decoders, front, x, j);
    }
  }

  /** A batch without a refused frame is processed to its end, and any other one up to and including
      the first refused frame. */
  lemma {:induction false} ProcessFailsIff(decoders: map<U32, Decoder>, items: seq<Item>)
    requires AllLanes(decoders, LaneInv)
    ensures GoesOn(decoders, items) || exists i :: StopsAt(decoders, items, i)
  {
    if items != [] {
      var n := |items| - 1;
      ProcessFailsIff(decoders, items[..n]);
      assert items == items[..n] + [items[n]];
      if GoesOn(decoders, items[..n]) {
        NextItem(decoders, items[..n], items[n]);
      } else {
        var i :| StopsAt(decoders, items[..n], i);
        StaysStopped(decoders, items[..n], items[n], i);
      }
    }
  }

  /** From any reachable state, a read fails exactly when one of its frames is refused. */
  lemma ReadFailsIff(s: State, bytes: Bytes.Data)
    requires Valid(s)
    ensures var items := FrameMux.Read(s.mux, bytes).1;
            Read(s, bytes).2.Some? <==> exists i :: 0 <= i < |items| && BadAt(s.decoders, items, i)
  {
    ProcessFailsIff(s.decoders, FrameMux.Read(s.mux, bytes).1);
  }

  // ---------------------------------------------------------------- what goes unnoticed

  /** The bytes of an unfinished header that a stream holds back after the frames `own`: a frame
      that closes the stream drops them. */
  function HeldBack(lane: Option<Decoder>, own: seq<Item>): Option<Bytes.Data> {
    if own == [] then if lane.Some? then Some(lane.value.buffer) else None
    else
      match own[|own| - 1]
      case Err(_) => HeldBack(lane, own[..|own| - 1])
      case Ok(f) =>
        if Closes(f.inner.kind) then None else Some(Held(HeldBack(lane, own[..|own| - 1])) + f.inner.payload)
  }

  function Held(bytes: Option<Bytes.Data>): Bytes.Data {
    if bytes.Some? then bytes.value else []
  }

  /** The `i`-th item is a frame with which the header of its stream is still incomplete. */
  predicate MuteAt(decoders: map<U32, Decoder>, items: seq<Item>, i: nat)
    requires i < |items|
  {
    items[i].Ok? &&
    var f := items[i].value.inner;
    var lane := Get(decoders, f.streamId);
    && (lane.Some? ==> lane.value.phase == AwaitHeader)
    && Incomplete(Held(HeldBack(lane, Select(FrameMux.StreamOf, items[..i], f.streamId))) + f.payload)
  }

  predicate Mute(decoders: map<U32, Decoder>, items: seq<Item>) {
    forall i | 0 <= i < |items| :: MuteAt(decoders, items, i)
  }

  /** The items tell nothing, and every stream holds back what it held back before. */
  ghost predicate Unnoticed(decoders: map<U32, Decoder>, items: seq<Item>) {
    && Mute(decoders, items)
    && forall id: U32 ::
         HeldBack(Get(decoders, id), Select(FrameMux.StreamOf, items, id)) == HeldBack(Get(decoders, id), [])
  }

  /** The decoder of a stream after mute frames. */
  function LaneAfter(lane: Option<Decoder>, own: seq<Item>): Option<Decoder> {
    if own == [] then lane
    else
      match HeldBack(lane, own)
      case None => None
      case Some(bytes) => Some(Awaiting(bytes))
  }

  lemma MuteFront(decoders: map<U32, Decoder>, items: seq<Item>, n: nat, i: nat)
    requires i < n <= |items|
    ensures MuteAt(decoders, items[..n], i) <==> MuteAt(decoders, items, i)
  {
    assert items[..n][..i] == items[..i];
  }

  lemma MuteLane(id: U32, lane: Option<Decoder>, own: seq<Item>, x: Item)
    requires LaneInv(id, lane) && x.Ok? && (own != [] && lane.Some? ==> lane.value.phase == AwaitHeader)
    ensures var now := LaneAfter(lane, own);
            var mute := (lane.Some? ==> lane.value.phase == AwaitHeader)
                        && Incomplete(Held(HeldBack(lane, own)) + x.value.inner.payload);
            && (LaneStep(now, x).1 == [] <==> mute)
            && (mute ==> LaneStep(now, x).0 == LaneAfter(lane, own + [x]))
  {
    var now := LaneAfter(lane, own);
    var d := if now.Some? then now.value else NEW_DECODER;
    assert (own + [x])[..|own|] == own;
    SilentIff(d, x.value);
    StepInv(d, x.value);
  }

  ghost predicate HeldEverywhere(decoders: map<U32, Decoder>, items: seq<Item>, now: map<U32, Decoder>) {
    forall id: U32 :: Get(now, id) == LaneAfter(Get(decoders, id), Select(FrameMux.StreamOf, items, id))
  }

  /** The items have told nothing, and every stream just holds back bytes. */
  ghost predicate Quiet(decoders: map<U32, Decoder>, items: seq<Item>) {
    var b := Process(decoders, items);
    Mute(decoders, items) && b.outs == [] && b.error == None && HeldEverywhere(decoders, items, b.decoders)
  }

  lemma OwnAwaits(decoders: map<U32, Decoder>, items: seq<Item>, id: U32)
    requires Mute(decoders, items) && Select(FrameMux.StreamOf, items, id) != [] && id in decoders
    ensures decoders[id].phase == AwaitHeader
  {
    var own := Select(FrameMux.StreamOf, items, id);
    assert own[0] in own;
    SelectedFrom(FrameMux.StreamOf, items, id);
    var i :| 0 <= i < |items| && items[i] == own[0];
    assert MuteAt(decoders, items, i);
  }

  lemma SelectNext(items: seq<Item>, x: Item, id: U32)
    ensures Select(FrameMux.StreamOf, items + [x], id)
            == Select(FrameMux.StreamOf, items, id) + if FrameMux.StreamOf(x) == Some(id) then [x] else []
  {
    assert (items + [x])[..|items|] == items;
  }

  lemma HeldNext(decoders: map<U32, Decoder>, front: seq<Item>, now: map<U32, Decoder>, x: Item)
    requires HeldEverywhere(decoders, front, now) && x.Ok?
    requires var id := x.value.inner.streamId;
             LaneStep(Get(now, id), x).0 == LaneAfter(Get(decoders, id), Select(FrameMux.StreamOf, front, id) + [x])
    ensures HeldEverywhere(decoders, front + [x], Step(SESSION, now, x).0)
  {
    forall id: U32
      ensures Get(Step(SESSION, now, x).0, id)
              == LaneAfter(Get(decoders, id), Select(FrameMux.StreamOf, front + [x], id))
    {
      SelectNext(front, x, id);
      if id != x.value.inner.streamId {
        var own := Select(FrameMux.StreamOf, front, id);
        assert own + [] == own;
        assert Get(now, id) == LaneAfter(Get(decoders, id), own);
      }
    }
  }

  lemma MuteNext(decoders: map<U32, Decoder>, front: seq<Item>, x: Item)
    requires Mute(decoders, front)
    ensures Mute(decoders, front + [x]) <==> MuteAt(decoders, front + [x], |front|)
  {
    var items := front + [x];
    assert items[..|front|] == front;
    forall i | 0 <= i < |front|
      ensures MuteAt(decoders, items, i)
    {
      MuteFront(decoders, items, |front|, i);
    }
  }

  lemma QuietFrame(decoders: map<U32, Decoder>, front: seq<Item>, x: Item)
    requires AllLanes(decoders, LaneInv) && Quiet(decoders, front) && x.Ok?
    ensures var (m, outs) := Step(SESSION, Process(decoders, front).decoders, x);
            && (outs == [] <==> MuteAt(decoders, front + [x], |front|))
            && (outs == [] ==> HeldEverywhere(decoders, front + [x], m))
  {
    var id, now := x.value.inner.streamId, Process(decoders, front).decoders;
    var lane, own := Get(decoders, id), Select(FrameMux.StreamOf, front, id);
    assert (front + [x])[..|front|] == front;
    assert LaneInv(id, lane);
    if own != [] && lane.Some? {
      OwnAwaits(decoders, front, id);
    }
    MuteLane(id, lane, own, x);
    assert Get(now, id) == LaneAfter(lane, own);
    if Step(SESSION, now, x).1 == [] {
      HeldNext(decoders, front, now, x);
    }
  }

  lemma QuietNext(decoders: map<U32, Decoder>, front: seq<Item>, x: Item)
    requires AllLanes(decoders, LaneInv) && Quiet(decoders, front)
    ensures Mute(decoders, front + [x]) <==> Process(decoders, front + [x]).outs == []
    ensures Mute(decoders, front + [x]) ==> Quiet(decoders, front + [x])
  {
    ProcessSnoc(decoders, front, x);
    MuteNext(decoders, front, x);
    if x.Ok? {
      QuietFrame(decoders, front, x);
    }
  }

  lemma {:induction false} QuietIff(decoders: map<U32, Decoder>, items: seq<Item>)
    requires AllLanes(decoders, LaneInv)
    ensures Mute(decoders, items) <==> Process(decoders, items).outs == []
    ensures Mute(decoders, items) ==> Quiet(decoders, items)
  {
    if items != [] {
      var n := |items| - 1;
      QuietIff(decoders, items[..n]);
      assert items == items[..n] + [items[n]];
      if Mute(decoders, items[..n]) {
        QuietNext(decoders, items[..n], items[n]);
      } else {
        NotMute(decoders, items, n);
      }
    }
  }

  lemma NotMute(decoders: map<U32, Decoder>, items: seq<Item>, n: nat)
    requires n < |items| && !Mute(decoders, items[..n])
    ensures !Mute(decoders, items)
  {
    var i :| 0 <= i < n && !MuteAt(decoders, items[..n], i);
    MuteFront(decoders, items, n, i);
  }

  lemma LaneSame(id: U32, lane: Option<Decoder>, own: seq<Item>)
    requires LaneInv(id, lane) && (own != [] && lane.Some? ==> lane.value.phase == AwaitHeader)
    ensures LaneAfter(lane, own) == lane <==> HeldBack(lane, own) == HeldBack(lane, [])
  {
  }

  /** A batch tells nothing and leaves all decoders as they are exactly when its frames are mute and
      every stream ends up holding back the bytes it held back before. */
  lemma UnnoticedIff(decoders: map<U32, Decoder>, items: seq<Item>)
    requires AllLanes(decoders, LaneInv)
    ensures Process(decoders, items).outs == [] && Process(decoders, items).decoders == decoders
            <==> Unnoticed(decoders, items)
  {
    QuietIff(decoders, items);
    if Mute(decoders, items) {
      var now := Process(decoders, items).decoders;
      forall id: U32
        ensures Get(now, id) == Get(decoders, id)
                <==> HeldBack(Get(decoders, id), Select(FrameMux.StreamOf, items, id)) == HeldBack(Get(decoders, id), [])
      {
        var own := Select(FrameMux.StreamOf, items, id);
        if own != [] && id in decoders {
          OwnAwaits(decoders, items, id);
        }
        assert LaneInv(id, Get(decoders, id));
        LaneSame(id, Get(decoders, id), own);
      }
      if forall id: U32 :: Get(now, id) == Get(decoders, id) {
        SameDecoders(now, decoders);
      }
    }
  }

  lemma SameDecoders(a: map<U32, Decoder>, b: map<U32, Decoder>)
    requires forall id: U32 :: Get(a, id) == Get(b, id)
    ensures a == b
  {
    forall id: U32
      ensures id in a <==> id in b
      ensures id in a ==> a[id] == b[id]
    {
      assert Get(a, id) == Get(b, id);
    }
  }

  // ---------------------------------------------------------------- when a split shows

  /** Behind the first refused frame of one batch, nobody would notice another one. */
  ghost predicate UnnoticedBehind(decoders: map<U32, Decoder>, first: seq<Item>, second: seq<Item>, i: nat) {
    FirstBad(decoders, first, i) && Unnoticed(Run(SESSION, decoders, first[..i + 1]).0, second)
  }

  lemma OneFirstBad(decoders: map<U32, Decoder>, items: seq<Item>, i: nat, j: nat)
    requires FirstBad(decoders, items, i) && FirstBad(decoders, items, j)
    ensures i == j
  {
  }

  lemma UnnoticedBehindIff(decoders: map<U32, Decoder>, first: seq<Item>, second: seq<Item>)
    requires AllLanes(decoders, LaneInv)
    ensures var b := Process(decoders, first);
            var c := Process(b.decoders, second);
            b.error.None? || (c.outs == [] && c.decoders == b.decoders)
            <==> NoneBad(decoders, first) || exists i :: UnnoticedBehind(decoders, first, second, i)
  {
    ProcessFailsIff(decoders, first);
    if !GoesOn(decoders, first) {
      var i :| StopsAt(decoders, first, i);
      ProcessKeeps(decoders, first);
      UnnoticedIff(Process(decoders, first).decoders, second);
      forall j | UnnoticedBehind(decoders, first, second, j)
        ensures j == i
      {
        OneFirstBad(decoders, first, i, j);
      }
      assert Unnoticed(Process(decoders, first).decoders, second) <==> UnnoticedBehind(decoders, first, second, i);
    }
  }

  lemma SplitInvisible(s: State, a: Bytes.Data, b: Bytes.Data)
    ensures var (s1, outs1, err1) := Read(s, a);
            var (s2, outs2, _) := Read(s1, b);
            var (s', outs, _) := Read(s, a + b);
            s' == s2 && outs == outs1 + outs2 <==> err1.None? || (outs2 == [] && s2.decoders == s1.decoders)
  {
    SplitAfterSuccess(s, a, b);
    var (s1, outs1, _) := Read(s, a);
    var outs2 := Read(s1, b).1;
    assert |outs1 + outs2| == |outs1| + |outs2|;
    assert outs2 == [] ==> outs1 + outs2 == outs1;
  }

  /** From any reachable state, it does not show that bytes were read as `a` and then `b` instead of
      in one piece, exactly when no frame of `a` is refused, or nobody would notice what `b` brings
      behind the first refused frame. */
  lemma SplitInvisibleIff(s: State, a: Bytes.Data, b: Bytes.Data)
    requires Valid(s)
    ensures var (s1, outs1, _) := Read(s, a);
            var (s2, outs2, _) := Read(s1, b);
            var (s', outs, _) := Read(s, a + b);
            var (mux, first) := FrameMux.Read(s.mux, a);
            var second := FrameMux.Read(mux, b).1;
            s' == s2 && outs == outs1 + outs2
            <==> NoneBad(s.decoders, first) || exists i :: UnnoticedBehind(s.decoders, first, second, i)
  {
    SplitInvisible(s, a, b);
    var (mux, first) := FrameMux.Read(s.mux, a);
    UnnoticedBehindIff(s.decoders, first, FrameMux.Read(mux, b).1);
  }

  /** A frame whose payload starts like a header but with an unknown message type. */
  function BadHeaderFrame(): Frame {
    Frame(1, 0, Open, [9, 0, 0, 0, 0, 0, 0, 0, 0, 0, 0, 0, 0, 0, 0])
  }

  /** A frame with an unknown kind. */
  function BadKindBytes(): Bytes.Data {
    [0, 0, 0, 0, 1, 0, 0, 0, 0, 0, 0, 0, 9]
  }

  /** The split does show: after a failed read the rest of the same slice is lost, but the same
      bytes in a slice of their own are not. */
  lemma SplitCanShow()
    ensures var a, b := Encode(BadHeaderFrame()), BadKindBytes();
            var (s1, outs1, err1) := Read(EMPTY, a);
            err1 == Some(FrameDecodeError.CorruptFrame) && Read(s1, b).1 == [Out(None, ErrorOf(FrameDecodeError.CorruptFrame), false)]
            && Read(EMPTY, a + b).1 == outs1
  {
    var a, b := Encode(BadHeaderFrame()), BadKindBytes();
    BadHeaderFails();
    var s1 := Read(EMPTY, a).0;
    BadKindReported(s1);
    SplitAfterSuccess(EMPTY, a, b);
  }

  lemma BadHeaderFails()
    ensures var (s, outs, err) := Read(EMPTY, Encode(BadHeaderFrame()));
            s.mux.buffer == [] && err == Some(FrameDecodeError.CorruptFrame)
  {
    var f := BadHeaderFrame();
    ParseOne(f);
    assert [] + Encode(f) == Encode(f);
    OneItem(f);
    var none: seq<Item> := [];
    ProcessSnoc(map[], none, Intact(f));
    assert none + [Intact(f)] == [Intact(f)];
    assert DecodeFrame(NEW_DECODER, DecodedFrame(f, None)).1 == Err(FrameDecodeError.CorruptFrame);
  }

  lemma OneItem(f: Frame)
    requires f == BadHeaderFrame()
    ensures Run(FrameMux.MUX, map[], [Intact(f)]).1 == [Intact(f)]
  {
    var none: seq<Item> := [];
    RunSnoc(FrameMux.MUX, map[], none, Intact(f));
    assert none + [Intact(f)] == [Intact(f)];
    var d := DecodedFrame(f, None);
    var start: map<U32, DecodedFrame> := map[0 := d];
    assert FrameMux.FRESH.buffer[f.seqId := d] == start;
    var zero: set<U32> := {0};
    assert start - zero == map[];
    assert FrameMux.Flush(1, start - zero).2 == [];
    assert FrameMux.Flush(0, start).2 == [d];
    assert FrameMux.Oks([d]) == [Intact(f)];
  }

  lemma BadKindIsBad()
    ensures FrameMux.BadFrame(BadKindBytes())
  {
    ZeroField();
    assert BadKindBytes()[..4] == [0, 0, 0, 0];
  }

  lemma OneStray(decoders: map<U32, Decoder>, e: FrameDecodeError)
    ensures Process(decoders, [Err(e)]).outs == [Out(None, ErrorOf(e), false)]
  {
    var none: seq<Item>, x: Item := [], Err(e);
    assert none + [x] == [x];
    ProcessSnoc(decoders, none, x);
  }

  lemma BadKindReported(s: State)
    requires s.mux.buffer == []
    ensures Read(s, BadKindBytes()).1 == [Out(None, ErrorOf(FrameDecodeError.CorruptFrame), false)]
  {
    var b, none: Bytes.Data := BadKindBytes(), [];
    assert b + none == b;
    BadKindIsBad();
    FrameMux.ReadBadFrame(s.mux, b, none);
    FrameMux.ReadNothing(s.mux);
    var x: Item := Err(FrameDecodeError.CorruptFrame);
    assert [x] + [] == [x];
    OneStray(s.decoders, FrameDecodeError.CorruptFrame);
  }

  lemma ZeroField()
    ensures FromLE([0, 0, 0, 0]) == 0
  {
    LERoundTrip(0, 4);
    assert ToLE(0, 4) == [0] + ToLE(0, 3) && ToLE(0, 3) == [0] + ToLE(0, 2) && ToLE(0, 2) == [0] + ToLE(0, 1);
    assert ToLE(0, 1) == [0] + ToLE(0, 0);
    assert ToLE(0, 4) == [0, 0, 0, 0];
  }
}
