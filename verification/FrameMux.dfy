/** The multiplexing frame decoder (core/src/frame/frame_mux_stream_decoder.rs): arbitrary byte
    slices in, per-stream in-order frames out. */
module FrameMux {
  import opened Bytes
  import opened Sequences
  import opened Lanes
  import opened FrameCodec

  type Item = Result<DecodedFrame, FrameDecodeError>

  datatype Reassembly = Reassembly(
    nextExpected: U32,
    buffer: map<U32, DecodedFrame>,
    isCanceled: bool,
    isEnded: bool)

  const FRESH := Reassembly(0, map[], false, false)

  // ---------------------------------------------------------------- bytes to frames

  /** The buffer starts with a complete frame. */
  predicate HasFrame(buf: Bytes.Data) {
    |buf| >= FRAME_LENGTH_FIELD_SIZE && |buf| >= FRAME_HEADER_SIZE + LengthField(buf)
  }

  function FrameSize(buf: Bytes.Data): (n: nat)
    requires HasFrame(buf)
    ensures FRAME_HEADER_SIZE <= n <= |buf|
  {
    FRAME_HEADER_SIZE + LengthField(buf)
  }

  /** All complete frames at the front of the buffer, and the bytes behind them. */
  function Parse(buf: Bytes.Data): (r: (seq<Item>, Bytes.Data))
    decreases |buf|
  {
    if HasFrame(buf) then
      var total := FrameSize(buf);
      var (items, rest) := Parse(buf[total..]);
      ([Decode(buf[..total])] + items, rest)
    else ([], buf)
  }

  // ---------------------------------------------------------------- frames of one stream

  /** Hand out buffered frames for as long as the expected one is there. */
  function Flush(next: U32, buffer: map<U32, DecodedFrame>): (U32, map<U32, DecodedFrame>, seq<DecodedFrame>)
    decreases |buffer|
  {
    if next in buffer then
      assert (buffer - {next}).Keys == buffer.Keys - {next};
      var (n, b, out) := Flush(Succ32(next), buffer - {next});
      (n, b, [buffer[next]] + out)
    else (next, buffer, [])
  }

  function Oks(ds: seq<DecodedFrame>): (r: seq<Item>)
    ensures |r| == |ds| && forall i | 0 <= i < |ds| :: r[i] == Ok(ds[i])
  {
    seq(|ds|, i requires 0 <= i < |ds| => Ok(ds[i]))
  }

  /** One decoded frame against the reassembly state of its stream. */
  function StreamStep(lane: Option<Reassembly>, x: Item): (Option<Reassembly>, seq<Item>) {
    match x
    case Err(_) => (lane, [])
    case Ok(d) =>
      if lane.Some? && lane.value.isCanceled then
        (lane, [Ok(d.(decodeError := Some(ReadAfterCancel)))])
      else if d.inner.kind == Cancel then
        (None, [Ok(d.(decodeError := Some(ReadAfterCancel)))])
      else
        var r := if lane.Some? then lane.value else FRESH;
        var ended := r.isEnded || d.inner.kind == End;
        var (n, b, out) := Flush(r.nextExpected, r.buffer[d.inner.seqId := d]);
        (if ended && b == map[] then None else Some(Reassembly(n, b, r.isCanceled, ended)), Oks(out))
  }

  // ---------------------------------------------------------------- all streams

  function StreamOf(x: Item): Option<U32> {
    if x.Ok? then Some(x.value.inner.streamId) else None
  }

  /** An undecodable frame is reported where it stood and touches no stream. */
  function PassError(x: Item): seq<Item> {
    [x]
  }

  const MUX: Machine<U32, Reassembly, Item, Item> := Machine(StreamOf, StreamOf, StreamStep, PassError)

  datatype State = State(buffer: Bytes.Data, streams: map<U32, Reassembly>)

  const EMPTY := State([], map[])

  /** One call of `read_bytes`. */
  function Read(s: State, data: Bytes.Data): (State, seq<Item>) {
    var (items, rest) := Parse(s.buffer + data);
    var (streams, out) := Run(MUX, s.streams, items);
    (State(rest, streams), out)
  }

  // ---------------------------------------------------------------- invariant

  /** What a stored stream looks like: never cancelled, and every buffered frame is filed
      under its own sequence id and carries the id of the stream. */
  predicate LaneInv(id: U32, lane: Option<Reassembly>) {
    lane.Some? ==>
      && !lane.value.isCanceled
      && forall q | q in lane.value.buffer :: Filed(id, q, lane.value.buffer[q])
  }

  predicate Filed(id: U32, q: U32, d: DecodedFrame) {
    d.inner.streamId == id && d.inner.seqId == q
  }

  ghost predicate Valid(s: State) {
    AllLanes(s.streams, LaneInv)
  }

  lemma {:induction false} FlushKeeps(id: U32, next: U32, buffer: map<U32, DecodedFrame>)
    requires forall q | q in buffer :: Filed(id, q, buffer[q])
    ensures var (n, b, out) := Flush(next, buffer);
            && (forall q | q in b :: q in buffer && b[q] == buffer[q])
            && n !in b
            && (forall d | d in out :: d.inner.streamId == id)
    decreases |buffer|
  {
    if next in buffer {
      assert (buffer - {next}).Keys == buffer.Keys - {next};
      FlushKeeps(id, Succ32(next), buffer - {next});
    }
  }

  /** The `i`-th sequence id from `next` on. */
  function SeqFrom(next: U32, i: nat): U32 {
    if i == 0 then next else Succ32(SeqFrom(next, i - 1))
  }

  lemma {:induction false} SeqFromNext(next: U32, i: nat)
    ensures SeqFrom(Succ32(next), i) == SeqFrom(next, i + 1)
  {
    if i > 0 {
      SeqFromNext(next, i - 1);
    }
  }

  /** `out` is the run of frames in `buffer` from `next` on. */
  ghost predicate IsRun(next: U32, buffer: map<U32, DecodedFrame>, out: seq<DecodedFrame>) {
    && (forall i | 0 <= i < |out| :: SeqFrom(next, i) in buffer && out[i] == buffer[SeqFrom(next, i)])
    && (forall i, j | 0 <= i < j < |out| :: SeqFrom(next, i) != SeqFrom(next, j))
  }

  /** The buffer without the first `k` frames from `next` on. */
  ghost function Without(buffer: map<U32, DecodedFrame>, next: U32, k: nat): map<U32, DecodedFrame> {
    map q | q in buffer && !Among(q, next, k) :: buffer[q]
  }

  /** The drain hands out exactly the run of frames from the expected one on, keeps exactly the
      others, and stops where the next one is missing. */
  lemma {:induction false} FlushExact(next: U32, buffer: map<U32, DecodedFrame>)
    ensures var (n, b, out) := Flush(next, buffer);
            && IsRun(next, buffer, out) && n == SeqFrom(next, |out|)
            && b == Without(buffer, next, |out|) && n !in b
    decreases |buffer|
  {
    if next in buffer {
      var rest := buffer - {next};
      assert rest.Keys == buffer.Keys - {next};
      FlushExact(Succ32(next), rest);
      var out := Flush(Succ32(next), rest).2;
      RunFirst(next, buffer, out);
      WithoutFirst(next, buffer, |out|);
      SeqFromNext(next, |out|);
    }
  }

  lemma RunFirst(next: U32, buffer: map<U32, DecodedFrame>, out: seq<DecodedFrame>)
    requires next in buffer && IsRun(Succ32(next), buffer - {next}, out)
    ensures IsRun(next, buffer, [buffer[next]] + out)
  {
    var all := [buffer[next]] + out;
    forall i | 0 < i < |all|
      ensures SeqFrom(next, i) == SeqFrom(Succ32(next), i - 1) && SeqFrom(next, i) in buffer - {next}
      ensures all[i] == buffer[SeqFrom(next, i)]
    {
      SeqFromNext(next, i - 1);
      assert all[i] == out[i - 1];
    }
  }

  predicate Among(q: U32, next: U32, k: nat) {
    exists i :: 0 <= i < k && SeqFrom(next, i) == q
  }

  lemma AmongFirst(q: U32, next: U32, k: nat)
    ensures Among(q, next, k + 1) <==> q == next || Among(q, Succ32(next), k)
  {
    if q == next {
      assert SeqFrom(next, 0) == q;
    }
    if i :| 0 < i < k + 1 && SeqFrom(next, i) == q {
      SeqFromNext(next, i - 1);
      assert SeqFrom(Succ32(next), i - 1) == q;
    }
    if i :| 0 <= i < k && SeqFrom(Succ32(next), i) == q {
      SeqFromNext(next, i);
      assert SeqFrom(next, i + 1) == q;
    }
  }

  lemma WithoutFirst(next: U32, buffer: map<U32, DecodedFrame>, k: nat)
    ensures Without(buffer, next, k + 1) == Without(buffer - {next}, Succ32(next), k)
  {
    forall q | q in buffer
      ensures Among(q, next, k + 1) <==> q == next || Among(q, Succ32(next), k)
    {
      AmongFirst(q, next, k);
    }
  }

  /** Any frame but a cancel, in any state of its stream: it is filed under its sequence id, in place
      of one that may be there; then the run from the expected frame on is handed out, the rest stays,
      and the stream is forgotten exactly when an end frame has come and nothing is left. */
  lemma FrameAccepted(id: U32, lane: Option<Reassembly>, d: DecodedFrame)
    requires LaneInv(id, lane) && d.inner.kind != Cancel
    ensures var r := if lane.Some? then lane.value else FRESH;
            var buffer := r.buffer[d.inner.seqId := d];
            var (lane', out) := StreamStep(lane, Ok(d));
            exists run: seq<DecodedFrame> ::
              && out == Oks(run) && IsRun(r.nextExpected, buffer, run)
              && var left := Without(buffer, r.nextExpected, |run|);
                 var ended := r.isEnded || d.inner.kind == End;
                 && SeqFrom(r.nextExpected, |run|) !in left
                 && lane' == if ended && left == map[] then None
                             else Some(Reassembly(SeqFrom(r.nextExpected, |run|), left, false, ended))
  {
    var r := if lane.Some? then lane.value else FRESH;
    FlushExact(r.nextExpected, r.buffer[d.inner.seqId := d]);
  }

  /** A cancel frame, in any state of its stream: it is handed out at once, marked as a cancel, and the
      stream is forgotten with everything it held. */
  lemma CancelAccepted(id: U32, lane: Option<Reassembly>, d: DecodedFrame)
    requires LaneInv(id, lane) && d.inner.kind == Cancel
    ensures StreamStep(lane, Ok(d)) == (None, [Ok(DecodedFrame(d.inner, Some(ReadAfterCancel)))])
  {
  }

  lemma StreamStepKeeps(id: U32, lane: Option<Reassembly>, x: Item)
    requires LaneInv(id, lane) && StreamOf(x) == Some(id)
    ensures LaneInv(id, StreamStep(lane, x).0)
    ensures forall y | y in StreamStep(lane, x).1 :: StreamOf(y) == Some(id)
  {
    var d := x.value;
    if d.inner.kind != Cancel {
      var r := if lane.Some? then lane.value else FRESH;
      FlushKeeps(id, r.nextExpected, r.buffer[d.inner.seqId := d]);
      var (n, b, out) := Flush(r.nextExpected, r.buffer[d.inner.seqId := d]);
      forall y | y in Oks(out)
        ensures StreamOf(y) == Some(id)
      {
        var i :| 0 <= i < |out| && Oks(out)[i] == y;
        assert out[i] in out;
      }
    }
  }

  lemma MuxKeepsKeys()
    ensures KeepsKeys(MUX, LaneInv)
  {
    forall k: U32, o, x | LaneInv(k, o) && MUX.inKey(x) == Some(k)
      ensures LaneInv(k, MUX.step(o, x).0) && forall y | y in MUX.step(o, x).1 :: MUX.outKey(y) == Some(k)
    {
      StreamStepKeeps(k, o, x);
    }
  }

  /** The invariant holds of every state reachable by reading, so the `is_canceled` flag of a
      stored stream is never set and the branch that tests it is never taken. */
  lemma ReadKeepsValid(s: State, data: Bytes.Data)
    requires Valid(s)
    ensures Valid(Read(s, data).0)
  {
    MuxKeepsKeys();
    RunKeepsLanes(MUX, LaneInv, s.streams, Parse(s.buffer + data).0);
  }

  // ---------------------------------------------------------------- non-interference

  /** For every frame sequence - cancels, duplicates and malformed orders included - the output
      for a stream and the state kept for it are those of a decoder fed that stream alone. */
  lemma StreamsDoNotInterfere(streams: map<U32, Reassembly>, items: seq<Item>, id: U32)
    requires AllLanes(streams, LaneInv)
    ensures var own := RunLane(MUX, Get(streams, id), Select(StreamOf, items, id));
            && Get(Run(MUX, streams, items).0, id) == own.0
            && Select(StreamOf, Run(MUX, streams, items).1, id) == own.1
  {
    MuxKeepsKeys();
    NonInterference(MUX, LaneInv, streams, items, id);
  }

  // ---------------------------------------------------------------- byte splits

  /** Parsing in two slices finds the same frames and leaves the same bytes. */
  lemma {:induction false} ParseAppend(a: Bytes.Data, b: Bytes.Data)
    ensures var (items1, rest1) := Parse(a);
            var (items2, rest2) := Parse(rest1 + b);
            Parse(a + b) == (items1 + items2, rest2)
    decreases |a|
  {
    if HasFrame(a) {
      var total := FrameSize(a);
      assert (a + b)[..4] == a[..4];
      assert (a + b)[..total] == a[..total] && (a + b)[total..] == a[total..] + b;
      ParseAppend(a[total..], b);
      var (items1, rest1) := Parse(a[total..]);
      var items2 := Parse(rest1 + b).0;
      assert [Decode(a[..total])] + (items1 + items2) == ([Decode(a[..total])] + items1) + items2;
    } else {
      assert [] + Parse(a + b).0 == Parse(a + b).0;
    }
  }

  lemma {:induction false} ParseComplete(buf: Bytes.Data)
    ensures !HasFrame(Parse(buf).1)
    ensures Parse(Parse(buf).1) == ([], Parse(buf).1)
    ensures Err(IncompleteHeader) !in Parse(buf).0
    ensures forall x | x in Parse(buf).0 && x.Err? :: x.error == CorruptFrame
    decreases |buf|
  {
    if HasFrame(buf) {
      var total := FrameSize(buf);
      ParseComplete(buf[total..]);
      assert buf[..total][..4] == buf[..4];
    }
  }

  /** Reading `a` and then `b` gives the results and the state of reading `a + b`,
      and never leaves a complete frame behind. */
  lemma SplitInvariance(s: State, a: Bytes.Data, b: Bytes.Data)
    ensures var (s1, out1) := Read(s, a);
            var (s2, out2) := Read(s1, b);
            Read(s, a + b) == (s2, out1 + out2) && !HasFrame(s2.buffer)
  {
    ParseAppend(s.buffer + a, b);
    assert (s.buffer + a) + b == s.buffer + (a + b);
    RunAppend(MUX, s.streams, Parse(s.buffer + a).0, Parse(Parse(s.buffer + a).1 + b).0);
    ParseComplete(s.buffer + (a + b));
  }

  function ReadAll(s: State, slices: seq<Bytes.Data>): (State, seq<Item>) {
    if slices == [] then (s, [])
    else
      var (s1, out1) := ReadAll(s, slices[..|slices| - 1]);
      var (s2, out2) := Read(s1, slices[|slices| - 1]);
      (s2, out1 + out2)
  }

  lemma ReadNothing(s: State)
    requires !HasFrame(s.buffer)
    ensures Read(s, []) == (s, [])
  {
    assert s.buffer + [] == s.buffer;
  }

  /** Any slicing of a byte string is as good as reading it in one piece. */
  lemma {:induction false} SlicesInvariance(s: State, slices: seq<Bytes.Data>)
    requires !HasFrame(s.buffer)
    ensures ReadAll(s, slices) == Read(s, Flatten(slices))
  {
    if slices == [] {
      ReadNothing(s);
    } else {
      var n := |slices| - 1;
      SlicesInvariance(s, slices[..n]);
      SplitInvariance(s, Flatten(slices[..n]), slices[n]);
    }
  }

  // ---------------------------------------------------------------- resynchronisation

  /** A complete frame with an unknown kind byte. */
  predicate BadFrame(bad: Bytes.Data) {
    && |bad| >= FRAME_HEADER_SIZE
    && |bad| == FRAME_HEADER_SIZE + LengthField(bad)
    && KindOf(bad[FRAME_KIND_OFFSET]).None?
  }

  lemma ParseBadFrame(bad: Bytes.Data, rest: Bytes.Data)
    requires BadFrame(bad)
    ensures Parse(bad + rest) == ([Err(CorruptFrame)] + Parse(rest).0, Parse(rest).1)
  {
    var buf := bad + rest;
    assert buf[..4] == bad[..4];
    assert buf[..FrameSize(buf)] == bad && buf[FrameSize(buf)..] == rest;
    assert Decode(bad) == Err(CorruptFrame);
  }

  lemma ReadBadFrame(s: State, bad: Bytes.Data, b: Bytes.Data)
    requires BadFrame(bad) && s.buffer == []
    ensures Read(s, bad + b) == (Read(s, b).0, [Err(CorruptFrame)] + Read(s, b).1)
  {
    ParseBadFrame(bad, b);
    assert s.buffer + (bad + b) == bad + b && s.buffer + b == b;
    var one: seq<Item> := [Err(CorruptFrame)];
    RunSnoc(MUX, s.streams, [], one[0]);
    assert [] + one == one;
    RunAppend(MUX, s.streams, one, Parse(b).0);
  }

  /** From any state at a frame boundary, a bad frame costs exactly one error and changes
      nothing else: state and all other results are those of the input without it. */
  lemma Resynchronisation(s: State, a: Bytes.Data, bad: Bytes.Data, b: Bytes.Data)
    requires BadFrame(bad) && Parse(s.buffer + a).1 == []
    ensures var (s1, out1) := Read(s, a);
            var (s2, out2) := Read(s1, b);
            && Read(s, a + b) == (s2, out1 + out2)
            && Read(s, a + (bad + b)) == (s2, out1 + ([Err(CorruptFrame)] + out2))
  {
    SplitInvariance(s, a, b);
    var (s1, out1) := Read(s, a);
    ReadBadFrame(s1, bad, b);
    SplitInvariance(s, a, bad + b);
  }

  lemma {:induction false} RunErrors(streams: map<U32, Reassembly>, items: seq<Item>)
    ensures forall y | y in Run(MUX, streams, items).1 && y.Err? :: y in items
  {
    if items != [] {
      var n := |items| - 1;
      RunErrors(streams, items[..n]);
      var m1 := Run(MUX, streams, items[..n]).0;
      forall y | y in Step(MUX, m1, items[n]).1 && y.Err?
        ensures y == items[n]
      {
      }
    }
  }

  /** The only error this decoder reports is a corrupt frame. */
  lemma NoIncompleteHeader(s: State, data: Bytes.Data)
    ensures forall y | y in Read(s, data).1 && y.Err? :: y.error == CorruptFrame
  {
    ParseComplete(s.buffer + data);
    RunErrors(s.streams, Parse(s.buffer + data).0);
  }

  // ---------------------------------------------------------------- the decoder

  function NextItem(buf: Bytes.Data): Item
    requires HasFrame(buf)
  {
    Decode(buf[..FrameSize(buf)])
  }

  /** One turn of the reading loop. */
  function ReadOne(s: State): (State, seq<Item>)
    requires HasFrame(s.buffer)
  {
    var (streams, out) := Step(MUX, s.streams, NextItem(s.buffer));
    (State(s.buffer[FrameSize(s.buffer)..], streams), out)
  }

  /** The reading loop: the frames `done` have been parsed and run through the streams, and
      `now` is what remains. */
  ghost predicate Reading(start: State, done: seq<Item>, now: State, out: seq<Item>) {
    && Parse(start.buffer).0 == done + Parse(now.buffer).0 && Parse(start.buffer).1 == Parse(now.buffer).1
    && Run(MUX, start.streams, done) == (now.streams, out)
  }

  lemma ReadingStep(start: State, done: seq<Item>, now: State, out: seq<Item>)
    requires Reading(start, done, now, out) && HasFrame(now.buffer)
    ensures var (next, more) := ReadOne(now);
            Reading(start, done + [NextItem(now.buffer)], next, out + more)
  {
    var total := FrameSize(now.buffer);
    var x, rest := Decode(now.buffer[..total]), Parse(now.buffer[total..]).0;
    assert done + ([x] + rest) == (done + [x]) + rest;
    RunSnoc(MUX, start.streams, done, x);
  }

  lemma ReadingDone(start: State, done: seq<Item>, now: State, out: seq<Item>)
    requires Reading(start, done, now, out) && !HasFrame(now.buffer)
    ensures Run(MUX, start.streams, Parse(start.buffer).0) == (now.streams, out)
    ensures Parse(start.buffer).1 == now.buffer
  {
    assert done + [] == done;
  }

  /** `flushed` are the frames handed out so far, `next` and `buffer` what remains to drain. */
  ghost predicate Flushed(all: (U32, map<U32, DecodedFrame>, seq<DecodedFrame>), flushed: seq<DecodedFrame>,
                          next: U32, buffer: map<U32, DecodedFrame>) {
    var (n, b, out) := Flush(next, buffer);
    all.0 == n && all.1 == b && all.2 == flushed + out
  }

  lemma FlushedStep(all: (U32, map<U32, DecodedFrame>, seq<DecodedFrame>), flushed: seq<DecodedFrame>,
                    next: U32, buffer: map<U32, DecodedFrame>)
    requires Flushed(all, flushed, next, buffer) && next in buffer
    ensures Flushed(all, flushed + [buffer[next]], Succ32(next), buffer - {next})
    ensures |buffer - {next}| < |buffer|
  {
    assert (buffer - {next}).Keys == buffer.Keys - {next};
    var out := Flush(Succ32(next), buffer - {next}).2;
    assert flushed + ([buffer[next]] + out) == (flushed + [buffer[next]]) + out;
  }

  class FrameMuxStreamDecoder {
    var buffer: Bytes.Data
    var streams: map<U32, Reassembly>

    ghost function Abs(): State
      reads this
    {
      State(buffer, streams)
    }

    constructor ()
      ensures Abs() == EMPTY
    {
      buffer, streams := [], map[];
    }

    method ReadBytes(data: Bytes.Data) returns (queue: seq<Item>)
      modifies this
      ensures (Abs(), queue) == Read(old(Abs()), data)
    {
      buffer := buffer + data;
      queue := [];
      ghost var start, done: seq<Item> := Abs(), [];
      while |buffer| >= FRAME_LENGTH_FIELD_SIZE
        invariant Reading(start, done, Abs(), queue)
        decreases |buffer|
      {
        var len := LengthField(buffer);
        var total := FRAME_HEADER_SIZE + len;
        if |buffer| < total {
          break;
        }
        ReadingStep(start, done, Abs(), queue);
        done := done + [NextItem(buffer)];
        var out := TakeFrame(total);
        queue := queue + out;
      }
      ReadingDone(start, done, Abs(), queue);
    }

    method TakeFrame(total: nat) returns (out: seq<Item>)
      requires HasFrame(buffer) && total == FrameSize(buffer)
      modifies this
      ensures (Abs(), out) == ReadOne(old(Abs()))
    {
      match Decode(buffer[..total]) {
        case Err(e) =>
          buffer := buffer[total..];
          out := [Err(e)];
        case Ok(frame) =>
          buffer := buffer[total..];
          out := Accept(frame);
      }
    }

    /** The part of the loop body that handles a decoded frame. */
    method Accept(frame: DecodedFrame) returns (out: seq<Item>)
      modifies this
      ensures buffer == old(buffer)
      ensures (streams, out) == Step(MUX, old(streams), Ok(frame))
    {
      var id := frame.inner.streamId;
      if id in streams && streams[id].isCanceled {
        out := [Ok(frame.(decodeError := Some(ReadAfterCancel)))];
        assert streams == streams[id := streams[id]];
        return;
      }
      if frame.inner.kind == Cancel {
        if id in streams {
          streams := streams[id := streams[id].(isCanceled := true)];
        }
        out := [Ok(frame.(decodeError := Some(ReadAfterCancel)))];
        streams := streams - {id};
        assert streams == old(streams) - {id};
        return;
      }
      var stream := if id in streams then streams[id] else FRESH;
      if frame.inner.kind == End {
        stream := stream.(isEnded := true);
      }
      stream := stream.(buffer := stream.buffer[frame.inner.seqId := frame]);
      stream, out := DrainInOrder(stream);
      streams := streams[id := stream];
      if stream.isEnded && stream.buffer == map[] {
        streams := streams - {id};
        assert streams == old(streams) - {id};
      }
    }

    static method DrainInOrder(start: Reassembly) returns (stream: Reassembly, out: seq<Item>)
      ensures var (n, b, flushed) := Flush(start.nextExpected, start.buffer);
              stream == start.(nextExpected := n, buffer := b) && out == Oks(flushed)
      ensures stream.nextExpected !in stream.buffer
    {
      stream := start;
      out := [];
      ghost var flushed: seq<DecodedFrame> := [];
      ghost var all := Flush(start.nextExpected, start.buffer);
      while stream.nextExpected in stream.buffer
        invariant stream == start.(nextExpected := stream.nextExpected, buffer := stream.buffer)
        invariant out == Oks(flushed)
        invariant Flushed(all, flushed, stream.nextExpected, stream.buffer)
        decreases |stream.buffer|
      {
        var next := stream.nextExpected;
        FlushedStep(all, flushed, next, stream.buffer);
        out := out + [Ok(stream.buffer[next])];
        flushed := flushed + [stream.buffer[next]];
        stream := stream.(buffer := stream.buffer - {next}, nextExpected := Succ32(next));
      }
      assert flushed + [] == flushed;
    }
  }
}
