/** Routing of events to response handlers, the prebuffering accumulator and the catch-all
    (core/src/rpc/rpc_internals/rpc_respondable_session.rs).

    A handler is a closure; the model gives each one a token when it is registered and records
    what it is called with. */
module Routing {
  import opened Bytes
  import opened Sequences
  import opened Lanes
  import opened RpcStream

  type Token = nat

  /** What is kept under a request id. */
  datatype Slot = Slot(handler: Option<Token>, flag: Option<bool>, buffer: Option<Bytes.Data>)

  const NO_SLOT := Slot(None, None, None)

  type Slots = map<U32, Slot>

  /** A call of a callback: of the handler `token` registered for a request, or of the catch-all. */
  datatype Delivery = ToHandler(requestId: U32, token: Token, event: RpcEvent) | ToCatchAll(event: RpcEvent)

  /** What happens to a request id: a request is initiated, or an event arrives while the methods
      `streaming` have a stream router. A handler that is registered gets `token`. */
  datatype Input =
    | Register(id: U32, token: Token, hasHandler: bool, prebuffer: bool)
    | Arrive(event: RpcEvent, token: Token, streaming: set<U64>)

  function RequestOf(e: RpcEvent): Option<U32> {
    match e
    case HeaderEvent(r, _, _) => Some(r)
    case PayloadChunk(r, _, _, _) => Some(r)
    case EndEvent(r, _, _) => Some(r)
    case ErrorEvent(_, r, _, _) => r
  }

  predicate Terminal(e: RpcEvent) {
    e.EndEvent? || e.ErrorEvent?
  }

  function InputRequest(x: Input): Option<U32> {
    match x
    case Register(id, _, _, _) => Some(id)
    case Arrive(e, _, _) => RequestOf(e)
  }

  function DeliveryRequest(d: Delivery): Option<U32> {
    match d
    case ToHandler(r, _, _) => Some(r)
    case ToCatchAll(e) => RequestOf(e)
  }

  /** The handler that is called. */
  function DeliveryToken(d: Delivery): Option<Token> {
    if d.ToHandler? then Some(d.token) else None
  }

  function Stored(s: Slot): Option<Slot> {
    if s == NO_SLOT then None else Some(s)
  }

  function Routed(x: Input): bool
    requires x.Arrive?
  {
    x.event.HeaderEvent? && x.event.methodId in x.streaming
  }

  /** An event for a request that is being prebuffered; returns the slot and the handler calls. */
  function Prebuffer(s: Slot, r: U32, e: RpcEvent): (Slot, seq<Delivery>) {
    var so_far := if s.buffer.Some? then s.buffer.value else [];
    var kept := s.(buffer := Some(so_far));
    match e
    case HeaderEvent(_, _, _) =>
      (kept, if s.handler.Some? then [ToHandler(r, s.handler.value, e)] else [])
    case PayloadChunk(_, _, _, bytes) =>
      (s.(buffer := Some(so_far + bytes)), [])
    case EndEvent(_, m, h) =>
      if s.handler.Some? then
        (kept.(flag := None, buffer := None),
         [ToHandler(r, s.handler.value, PayloadChunk(r, m, h, so_far)), ToHandler(r, s.handler.value, e)])
      else (kept, [])
    case ErrorEvent(_, _, _, _) => (kept, [])
  }

  function SlotStep(o: Option<Slot>, x: Input): (Option<Slot>, seq<Delivery>) {
    var s := if o.Some? then o.value else NO_SLOT;
    match x
    case Register(_, token, hasHandler, prebuffer) =>
      (Stored(s.(flag := Some(prebuffer), handler := if hasHandler then Some(token) else s.handler)), [])
    case Arrive(e, token, _) =>
      if RequestOf(e).None? then (o, [])
      else
        var r := RequestOf(e).value;
        var s1 := if Routed(x) then s.(handler := Some(token)) else s;
        if s1.flag == Some(true) then
          var (s2, calls) := Prebuffer(s1, r, e);
          (if Terminal(e) then None else Stored(s2), calls + [ToCatchAll(e)])
        else
          (if Terminal(e) then None else Stored(s1),
           if s1.handler.Some? then [ToHandler(r, s1.handler.value, e)] else [ToCatchAll(e)])
  }

  /** An event that names no request goes to the catch-all. */
  function StrayEvent(x: Input): seq<Delivery> {
    if x.Arrive? then [ToCatchAll(x.event)] else []
  }

  const ROUTER: Machine<U32, Slot, Input, Delivery> := Machine(InputRequest, DeliveryRequest, SlotStep, StrayEvent)

  predicate AnySlot(id: U32, o: Option<Slot>) {
    o.Some? ==> o.value != NO_SLOT
  }

  lemma RouterKeepsKeys()
    ensures KeepsKeys(ROUTER, AnySlot)
  {
  }

  /** What a request's slot becomes and who is called for it depends on that request alone. */
  lemma RequestsDoNotInterfere(slots: Slots, xs: seq<Input>, r: U32)
    requires AllLanes(slots, AnySlot)
    ensures var own := RunLane(ROUTER, Get(slots, r), Select(InputRequest, xs, r));
            && Get(Run(ROUTER, slots, xs).0, r) == own.0
            && Select(DeliveryRequest, Run(ROUTER, slots, xs).1, r) == own.1
            && AllLanes(Run(ROUTER, slots, xs).0, AnySlot)
  {
    RouterKeepsKeys();
    NonInterference(ROUTER, AnySlot, slots, xs, r);
    RunKeepsLanes(ROUTER, AnySlot, slots, xs);
  }

  // ---------------------------------------------------------------- prebuffering

  /** `xs` brings `events`, none of which a stream router claims. */
  ghost predicate Brings(xs: seq<Input>, events: seq<RpcEvent>) {
    |xs| == |events| && forall i | 0 <= i < |xs| :: BringsOne(xs[i], events[i])
  }

  predicate BringsOne(x: Input, e: RpcEvent) {
    x.Arrive? && x.event == e && !Routed(x)
  }

  lemma BringsFront(xs: seq<Input>, events: seq<RpcEvent>)
    requires Brings(xs, events) && xs != []
    ensures var n := |xs| - 1;
            && Brings(xs[..n], events[..n]) && BringsOne(xs[n], events[n])
            && xs == xs[..n] + [xs[n]] && events == events[..n] + [events[n]]
  {
  }

  /** Events that all belong to request `r`. */
  predicate OfRequest(r: U32, events: seq<RpcEvent>) {
    forall e | e in events :: RequestOf(e) == Some(r)
  }

  /** No event follows a terminal one. */
  predicate EndsOnce(events: seq<RpcEvent>) {
    forall i | 0 <= i < |events| - 1 :: !Terminal(events[i])
  }

  /** The calls of handlers, in order. */
  function HandlerCalls(ds: seq<Delivery>): seq<RpcEvent> {
    if ds == [] then []
    else HandlerCalls(ds[..|ds| - 1]) + (if ds[|ds| - 1].ToHandler? then [ds[|ds| - 1].event] else [])
  }

  function CatchAlls(ds: seq<Delivery>): seq<RpcEvent> {
    if ds == [] then []
    else CatchAlls(ds[..|ds| - 1]) + (if ds[|ds| - 1].ToCatchAll? then [ds[|ds| - 1].event] else [])
  }

  lemma {:induction false} CallsAppend(a: seq<Delivery>, b: seq<Delivery>)
    ensures HandlerCalls(a + b) == HandlerCalls(a) + HandlerCalls(b)
    ensures CatchAlls(a + b) == CatchAlls(a) + CatchAlls(b)
  {
    if b == [] {
      assert a + b == a;
    } else {
      var n := |b| - 1;
      CallsAppend(a, b[..n]);
      assert (a + b)[..|a + b| - 1] == a + b[..n];
      var h, c := if b[n].ToHandler? then [b[n].event] else [], if b[n].ToCatchAll? then [b[n].event] else [];
      assert (HandlerCalls(a) + HandlerCalls(b[..n])) + h == HandlerCalls(a) + (HandlerCalls(b[..n]) + h);
      assert (CatchAlls(a) + CatchAlls(b[..n])) + c == CatchAlls(a) + (CatchAlls(b[..n]) + c);
    }
  }

  /** Header and chunks of a prebuffered response: the handler has seen the header, the chunks are
      in the buffer, and the catch-all has seen everything. */
  ghost predicate Buffering(h: RpcHeader, stale: Bytes.Data, cs: seq<Bytes.Data>, token: Token, slot: Option<Slot>,
                            ds: seq<Delivery>) {
    && slot == Some(Slot(Some(token), Some(true), Some(stale + Flatten(cs))))
    && HandlerCalls(ds) == [HeaderOf(h)] && CatchAlls(ds) == Script(h, cs, false)
  }

  lemma BufferHeader(h: RpcHeader, buffer: Option<Bytes.Data>, token: Token, x: Input)
    requires BringsOne(x, HeaderOf(h))
    ensures var (s, ds) := SlotStep(Some(Slot(Some(token), Some(true), buffer)), x);
            Buffering(h, Kept(buffer), [], token, s, ds)
  {
    var c, d := ToHandler(h.requestId, token, HeaderOf(h)), ToCatchAll(HeaderOf(h));
    assert SlotStep(Some(Slot(Some(token), Some(true), buffer)), x).1 == [c] + [d];
    assert Kept(buffer) + [] == Kept(buffer);
    CallsAppend([c], [d]);
    CallsOfOne(c);
    CallsOfOne(d);
  }

  function Kept(buffer: Option<Bytes.Data>): Bytes.Data {
    if buffer.Some? then buffer.value else []
  }

  lemma CallsOfOne(d: Delivery)
    ensures HandlerCalls([d]) == if d.ToHandler? then [d.event] else []
    ensures CatchAlls([d]) == if d.ToCatchAll? then [d.event] else []
  {
    assert [d][..0] == [];
  }

  lemma ChunkStep(slot: Slot, h: RpcHeader, c: Bytes.Data, x: Input)
    requires slot.flag == Some(true) && slot.buffer.Some? && BringsOne(x, ChunkOf(h, c))
    ensures SlotStep(Some(slot), x) == (Some(slot.(buffer := Some(slot.buffer.value + c))), [ToCatchAll(ChunkOf(h, c))])
  {
    var d := ToCatchAll(ChunkOf(h, c));
    assert [] + [d] == [d];
  }

  lemma BufferChunk(h: RpcHeader, stale: Bytes.Data, cs: seq<Bytes.Data>, c: Bytes.Data, token: Token, slot: Option<Slot>,
                    ds: seq<Delivery>, x: Input)
    requires Buffering(h, stale, cs, token, slot, ds) && BringsOne(x, ChunkOf(h, c))
    ensures var (s, more) := SlotStep(slot, x);
            Buffering(h, stale, cs + [c], token, s, ds + more)
  {
    FlattenSnoc(cs, c);
    ScriptExtend(h, cs, c);
    assert (stale + Flatten(cs)) + c == stale + (Flatten(cs) + c);
    var d := ToCatchAll(ChunkOf(h, c));
    ChunkStep(slot.value, h, c, x);
    CallsOfOne(d);
    CallsAppend(ds, [d]);
    assert [HeaderOf(h)] + [] == [HeaderOf(h)];
  }

  ghost predicate Buffered(h: RpcHeader, stale: Bytes.Data, cs: seq<Bytes.Data>, slot: Option<Slot>, ds: seq<Delivery>) {
    slot == None && HandlerCalls(ds) == Script(h, [stale + Flatten(cs)], true) && CatchAlls(ds) == Script(h, cs, true)
  }

  lemma BufferEnd(h: RpcHeader, stale: Bytes.Data, cs: seq<Bytes.Data>, token: Token, slot: Option<Slot>, ds: seq<Delivery>,
                  x: Input)
    requires Buffering(h, stale, cs, token, slot, ds) && BringsOne(x, EndOf(h))
    ensures var (s, more) := SlotStep(slot, x);
            Buffered(h, stale, cs, s, ds + more)
  {
    var whole := ChunkOf(h, stale + Flatten(cs));
    var c, e, d := ToHandler(h.requestId, token, whole), ToHandler(h.requestId, token, EndOf(h)), ToCatchAll(EndOf(h));
    assert SlotStep(slot, x).1 == [c, e] + [d] == [c, e, d];
    CallsOfEnd(c, e, d);
    CallsAppend(ds, [c, e, d]);
    ScriptExtend(h, cs, []);
    assert Script(h, [stale + Flatten(cs)], true) == [HeaderOf(h)] + [whole, EndOf(h)];
  }

  lemma CallsOfEnd(c: Delivery, e: Delivery, d: Delivery)
    requires c.ToHandler? && e.ToHandler? && d.ToCatchAll?
    ensures HandlerCalls([c, e, d]) == [c.event, e.event] && CatchAlls([c, e, d]) == [d.event]
  {
    assert [c, e, d][..2] == [c, e] && [c, e][..1] == [c];
    CallsOfOne(c);
  }

  lemma {:induction false} BufferScript(h: RpcHeader, buffer: Option<Bytes.Data>, cs: seq<Bytes.Data>, token: Token,
                                        xs: seq<Input>)
    requires Brings(xs, Script(h, cs, false))
    ensures var (s, ds) := RunLane(ROUTER, Some(Slot(Some(token), Some(true), buffer)), xs);
            Buffering(h, Kept(buffer), cs, token, s, ds)
  {
    var start := Some(Slot(Some(token), Some(true), buffer));
    BringsFront(xs, Script(h, cs, false));
    if cs == [] {
      assert xs == [xs[0]];
      BufferHeader(h, buffer, token, xs[0]);
      RunLaneOne(ROUTER, start, xs[0]);
    } else {
      var n, last := |cs| - 1, |xs| - 1;
      assert cs == cs[..n] + [cs[n]];
      ScriptExtend(h, cs[..n], cs[n]);
      BufferScript(h, buffer, cs[..n], token, xs[..last]);
      var (s, ds) := RunLane(ROUTER, start, xs[..last]);
      BufferChunk(h, Kept(buffer), cs[..n], cs[n], token, s, ds, xs[last]);
    }
  }

  /** A streaming handler that has been called with `events`, and whose slot is `slot`. */
  ghost predicate Streaming(token: Token, events: seq<RpcEvent>, slot: Option<Slot>, ds: seq<Delivery>) {
    && slot == (if events != [] && Terminal(events[|events| - 1]) then None else Some(Slot(Some(token), Some(false), None)))
    && HandlerCalls(ds) == events && CatchAlls(ds) == []
    && (forall d | d in ds :: d.ToHandler? && d.token == token)
  }

  lemma StreamOne(r: U32, token: Token, events: seq<RpcEvent>, slot: Option<Slot>, ds: seq<Delivery>, e: RpcEvent, x: Input)
    requires Streaming(token, events, slot, ds) && slot.Some? && RequestOf(e) == Some(r) && BringsOne(x, e)
    ensures var (s, more) := SlotStep(slot, x);
            Streaming(token, events + [e], s, ds + more)
  {
    var d := ToHandler(r, token, e);
    CallsAppend(ds, [d]);
    CallsOfOne(d);
  }

  /** A streaming handler is called with the events as they come, and the catch-all is not. */
  lemma {:induction false} StreamMore(
    r: U32, token: Token, before: seq<RpcEvent>, slot: Option<Slot>, ds: seq<Delivery>, events: seq<RpcEvent>, xs: seq<Input>)
    requires Streaming(token, before, slot, ds)
    requires OfRequest(r, events) && EndsOnce(before + events) && Brings(xs, events)
    ensures var (s, more) := RunLane(ROUTER, slot, xs);
            Streaming(token, before + events, s, ds + more)
  {
    if events == [] {
      assert before + events == before && ds + [] == ds;
    } else {
      var n := |events| - 1;
      var front, e := events[..n], events[n];
      BringsFront(xs, events);
      EndsOnceFront(before, events);
      StreamMore(r, token, before, slot, ds, front, xs[..n]);
      var (s, more) := RunLane(ROUTER, slot, xs[..n]);
      StreamJoin(r, token, before, front, s, ds, more, e, xs[n]);
      RunLaneSnoc(ROUTER, slot, xs[..n], xs[n]);
    }
  }

  lemma StreamJoin(r: U32, token: Token, before: seq<RpcEvent>, front: seq<RpcEvent>, slot: Option<Slot>,
                   ds: seq<Delivery>, more: seq<Delivery>, e: RpcEvent, x: Input)
    requires Streaming(token, before + front, slot, ds + more) && slot.Some?
    requires RequestOf(e) == Some(r) && BringsOne(x, e)
    ensures var (s, last) := SlotStep(slot, x);
            Streaming(token, before + (front + [e]), s, ds + (more + last))
  {
    StreamOne(r, token, before + front, slot, ds + more, e, x);
    assert before + (front + [e]) == (before + front) + [e];
    assert (ds + more) + SlotStep(slot, x).1 == ds + (more + SlotStep(slot, x).1);
  }

  lemma EndsOnceFront(before: seq<RpcEvent>, events: seq<RpcEvent>)
    requires events != [] && EndsOnce(before + events)
    ensures var front := before + events[..|events| - 1];
            EndsOnce(front) && (front != [] ==> !Terminal(front[|front| - 1]))
  {
    var all, front := before + events, before + events[..|events| - 1];
    assert forall i | 0 <= i < |front| :: front[i] == all[i];
  }

  lemma StreamEvents(r: U32, token: Token, events: seq<RpcEvent>, xs: seq<Input>)
    requires OfRequest(r, events) && EndsOnce(events) && Brings(xs, events)
    ensures var (s, ds) := RunLane(ROUTER, Some(Slot(Some(token), Some(false), None)), xs);
            Streaming(token, events, s, ds)
  {
    var none: seq<RpcEvent> := [];
    assert none + events == events;
    StreamMore(r, token, none, Some(Slot(Some(token), Some(false), None)), [], events, xs);
    var ds := RunLane(ROUTER, Some(Slot(Some(token), Some(false), None)), xs).1;
    assert [] + ds == ds;
  }

  ghost predicate Unclaimed(events: seq<RpcEvent>, slot: Option<Slot>, ds: seq<Delivery>) {
    slot == None && HandlerCalls(ds) == [] && CatchAlls(ds) == events
  }

  lemma UnclaimedOne(r: U32, events: seq<RpcEvent>, ds: seq<Delivery>, e: RpcEvent, x: Input)
    requires Unclaimed(events, None, ds) && RequestOf(e) == Some(r) && BringsOne(x, e)
    ensures var (s, more) := SlotStep(None, x);
            Unclaimed(events + [e], s, ds + more)
  {
    CallsAppend(ds, [ToCatchAll(e)]);
    CallsOfOne(ToCatchAll(e));
  }

  /** Events of a request with nothing kept under its id go to the catch-all alone. */
  lemma {:induction false} UnclaimedMore(
    r: U32, before: seq<RpcEvent>, ds: seq<Delivery>, events: seq<RpcEvent>, xs: seq<Input>)
    requires Unclaimed(before, None, ds) && OfRequest(r, events) && Brings(xs, events)
    ensures var (s, more) := RunLane(ROUTER, None, xs);
            Unclaimed(before + events, s, ds + more) && CatchAlls(more) == events
  {
    if events == [] {
      assert before + events == before && ds + [] == ds;
    } else {
      var n := |events| - 1;
      var front, e := events[..n], events[n];
      BringsFront(xs, events);
      UnclaimedMore(r, before, ds, front, xs[..n]);
      var more := RunLane(ROUTER, None, xs[..n]).1;
      UnclaimedOne(r, before + front, ds + more, e, xs[n]);
      assert before + events == (before + front) + [e];
      assert (ds + more) + [ToCatchAll(e)] == ds + (more + [ToCatchAll(e)]);
      CallsAppend(more, [ToCatchAll(e)]);
      CallsOfOne(ToCatchAll(e));
    }
  }

  lemma ScriptRequests(h: RpcHeader, cs: seq<Bytes.Data>, ended: bool)
    ensures var es := Script(h, cs, ended);
            OfRequest(h.requestId, es) && EndsOnce(es) && (Terminal(es[|es| - 1]) <==> ended)
  {
  }

  /** What is left of a request that is initiated again: its buffer. */
  function Leftover(slots: Slots, r: U32): Option<Bytes.Data> {
    if r in slots then slots[r].buffer else None
  }

  /** Prebuffering refines streaming: fed one complete response, in the middle of any other
      traffic, a prebuffering handler is called with the header, one chunk and the end, where the
      chunk is the concatenation of the chunks a streaming handler is called with, behind whatever
      was left under a request id that is used again; and nothing stays behind under the request id
      in either case. */
  lemma PrebufferingRefinesStreaming(
    slots: Slots, xs: seq<Input>, ys: seq<Input>, h: RpcHeader, cs: seq<Bytes.Data>, token: Token)
    requires AllLanes(slots, AnySlot)
    requires Answered(xs, h, cs, token, true) && Answered(ys, h, cs, token, false)
    ensures var (buffered, bs) := Run(ROUTER, slots, xs);
            var (streamed, ss) := Run(ROUTER, slots, ys);
            && h.requestId !in buffered && h.requestId !in streamed
            && HandlerCalls(Select(DeliveryRequest, ss, h.requestId)) == Script(h, cs, true)
            && HandlerCalls(Select(DeliveryRequest, bs, h.requestId))
               == Script(h, [Kept(Leftover(slots, h.requestId)) + Flatten(cs)], true)
  {
    PrebufferedCalls(slots, xs, h, cs, token);
    StreamedCalls(slots, ys, h, cs, token);
  }

  /** Among the inputs `xs`, the request is initiated once and then answered completely. */
  ghost predicate Answered(xs: seq<Input>, h: RpcHeader, cs: seq<Bytes.Data>, token: Token, prebuffer: bool) {
    var own := Select(InputRequest, xs, h.requestId);
    |own| > 0 && own[0] == Register(h.requestId, token, true, prebuffer) && Brings(own[1..], Script(h, cs, true))
  }

  lemma StreamedCalls(slots: Slots, xs: seq<Input>, h: RpcHeader, cs: seq<Bytes.Data>, token: Token)
    requires AllLanes(slots, AnySlot) && Answered(xs, h, cs, token, false)
    ensures var (streamed, ds) := Run(ROUTER, slots, xs);
            && h.requestId !in streamed
            && HandlerCalls(Select(DeliveryRequest, ds, h.requestId)) == Script(h, cs, true)
            && CatchAlls(Select(DeliveryRequest, ds, h.requestId)) == []
  {
    var own, r := Select(InputRequest, xs, h.requestId), h.requestId;
    RequestsDoNotInterfere(slots, xs, r);
    assert own == [own[0]] + own[1..];
    RegisterThen(r, Get(slots, r), token, false, own[1..]);
    ScriptRequests(h, cs, true);
    StreamEvents(r, token, Script(h, cs, true), own[1..]);
    IgnoresRest(token, Some(false), Leftover(slots, r), Script(h, cs, true), own[1..]);
  }

  /** A handler that does not prebuffer is called whatever else is kept. */
  lemma {:induction false} IgnoresRest(token: Token, flag: Option<bool>, buffer: Option<Bytes.Data>, events: seq<RpcEvent>,
                                       xs: seq<Input>)
    requires Brings(xs, events) && flag != Some(true)
    ensures var (s, ds) := RunLane(ROUTER, Some(Slot(Some(token), Some(false), None)), xs);
            var (s', ds') := RunLane(ROUTER, Some(Slot(Some(token), flag, buffer)), xs);
            ds' == ds && SameHandler(s, s')
  {
    if xs != [] {
      var n := |xs| - 1;
      BringsFront(xs, events);
      IgnoresRest(token, flag, buffer, events[..n], xs[..n]);
    }
  }

  predicate SameHandler(s: Option<Slot>, s': Option<Slot>) {
    if s.None? then s'.None?
    else
      && s.value.handler.Some? && s.value.flag != Some(true)
      && s'.Some? && s'.value.handler == s.value.handler && s'.value.flag != Some(true)
  }

  lemma PrebufferedCalls(slots: Slots, xs: seq<Input>, h: RpcHeader, cs: seq<Bytes.Data>, token: Token)
    requires AllLanes(slots, AnySlot) && Answered(xs, h, cs, token, true)
    ensures var (buffered, ds) := Run(ROUTER, slots, xs);
            && h.requestId !in buffered
            && HandlerCalls(Select(DeliveryRequest, ds, h.requestId))
               == Script(h, [Kept(Leftover(slots, h.requestId)) + Flatten(cs)], true)
            && CatchAlls(Select(DeliveryRequest, ds, h.requestId)) == Script(h, cs, true)
  {
    var own, r := Select(InputRequest, xs, h.requestId), h.requestId;
    RequestsDoNotInterfere(slots, xs, r);
    assert own == [own[0]] + own[1..];
    RegisterThen(r, Get(slots, r), token, true, own[1..]);
    BufferWhole(h, Leftover(slots, r), cs, token, own[1..]);
  }

  lemma BufferWhole(h: RpcHeader, buffer: Option<Bytes.Data>, cs: seq<Bytes.Data>, token: Token, xs: seq<Input>)
    requires Brings(xs, Script(h, cs, true))
    ensures var (s, ds) := RunLane(ROUTER, Some(Slot(Some(token), Some(true), buffer)), xs);
            Buffered(h, Kept(buffer), cs, s, ds)
  {
    var start := Some(Slot(Some(token), Some(true), buffer));
    var n := |xs| - 1;
    BringsFront(xs, Script(h, cs, true));
    ScriptExtend(h, cs, []);
    assert Script(h, cs, true)[..n] == Script(h, cs, false);
    BufferScript(h, buffer, cs, token, xs[..n]);
    var (s, ds) := RunLane(ROUTER, start, xs[..n]);
    BufferEnd(h, Kept(buffer), cs, token, s, ds, xs[n]);
  }

  /** Registering a handler, and then any inputs for it: of what was there only the buffer stays. */
  lemma RegisterThen(r: U32, slot: Option<Slot>, token: Token, prebuffer: bool, xs: seq<Input>)
    ensures var buffer := if slot.Some? then slot.value.buffer else None;
            RunLane(ROUTER, slot, [Register(r, token, true, prebuffer)] + xs)
            == RunLane(ROUTER, Some(Slot(Some(token), Some(prebuffer), buffer)), xs)
  {
    var reg, buffer := Register(r, token, true, prebuffer), if slot.Some? then slot.value.buffer else None;
    RunLaneAppend(ROUTER, slot, [reg], xs);
    RunLaneOne(ROUTER, slot, reg);
    var out := RunLane(ROUTER, Some(Slot(Some(token), Some(prebuffer), buffer)), xs).1;
    assert [] + out == out;
  }

  // ---------------------------------------------------------------- requests claimed by a stream router

  /** Among the inputs `xs`, a request arrives completely, and a stream router claims its header and
      gives it the handler `token`. */
  ghost predicate Claimed(xs: seq<Input>, h: RpcHeader, cs: seq<Bytes.Data>, token: Token) {
    var own := Select(InputRequest, xs, h.requestId);
    && |own| > 0 && own[0].Arrive? && own[0].event == HeaderOf(h) && own[0].token == token
    && h.methodId in own[0].streaming && Brings(own[1..], Script(h, cs, true)[1..])
  }

  /** What a slot is once its request is claimed: the handler is replaced, and the rest stays. */
  function ClaimedSlot(slot: Option<Slot>, token: Token): Slot {
    (if slot.Some? then slot.value else NO_SLOT).(handler := Some(token))
  }

  /** A claimed request goes on as if its handler had been there when the header came. */
  lemma ClaimedRun(slot: Option<Slot>, own: seq<Input>, h: RpcHeader, cs: seq<Bytes.Data>, token: Token) returns (xs: seq<Input>)
    requires |own| > 0 && own[0].Arrive? && own[0].event == HeaderOf(h) && own[0].token == token
    requires h.methodId in own[0].streaming && Brings(own[1..], Script(h, cs, true)[1..])
    ensures Brings(xs, Script(h, cs, true))
    ensures RunLane(ROUTER, slot, own) == RunLane(ROUTER, Some(ClaimedSlot(slot, token)), xs)
  {
    var first := Arrive(HeaderOf(h), token, {});
    xs := [first] + own[1..];
    assert own == [own[0]] + own[1..];
    RunLaneAppend(ROUTER, slot, [own[0]], own[1..]);
    RunLaneAppend(ROUTER, Some(ClaimedSlot(slot, token)), [first], own[1..]);
    RunLaneOne(ROUTER, slot, own[0]);
    RunLaneOne(ROUTER, Some(ClaimedSlot(slot, token)), first);
  }

  /** Among any traffic, whatever was kept under its id short of a flag to prebuffer, the handler that
      a stream router gives to a request is called with every event of it, nobody else is, and nothing
      stays behind. */
  lemma ClaimedCalls(slots: Slots, xs: seq<Input>, h: RpcHeader, cs: seq<Bytes.Data>, token: Token)
    requires AllLanes(slots, AnySlot) && Claimed(xs, h, cs, token)
    requires h.requestId in slots ==> slots[h.requestId].flag != Some(true)
    ensures var (claimed, ds) := Run(ROUTER, slots, xs);
            var own := Select(DeliveryRequest, ds, h.requestId);
            && h.requestId !in claimed
            && HandlerCalls(own) == Script(h, cs, true) && CatchAlls(own) == []
            && (forall d | d in own :: d.ToHandler? && d.token == token)
  {
    var own, r := Select(InputRequest, xs, h.requestId), h.requestId;
    RequestsDoNotInterfere(slots, xs, r);
    var ys := ClaimedRun(Get(slots, r), own, h, cs, token);
    var slot := ClaimedSlot(Get(slots, r), token);
    ScriptRequests(h, cs, true);
    StreamEvents(r, token, Script(h, cs, true), ys);
    IgnoresRest(token, slot.flag, slot.buffer, Script(h, cs, true), ys);
  }

  /** With a flag to prebuffer under its id, the handler given by the router gets one chunk, behind
      what was left, and the catch-all sees every event. */
  lemma ClaimedWhilePrebuffering(slots: Slots, xs: seq<Input>, h: RpcHeader, cs: seq<Bytes.Data>, token: Token)
    requires AllLanes(slots, AnySlot) && Claimed(xs, h, cs, token)
    requires h.requestId in slots && slots[h.requestId].flag == Some(true)
    ensures var (claimed, ds) := Run(ROUTER, slots, xs);
            var own := Select(DeliveryRequest, ds, h.requestId);
            && h.requestId !in claimed
            && HandlerCalls(own) == Script(h, [Kept(Leftover(slots, h.requestId)) + Flatten(cs)], true)
            && CatchAlls(own) == Script(h, cs, true)
  {
    var own, r := Select(InputRequest, xs, h.requestId), h.requestId;
    RequestsDoNotInterfere(slots, xs, r);
    var ys := ClaimedRun(Get(slots, r), own, h, cs, token);
    BufferWhole(h, Leftover(slots, r), cs, token, ys);
  }

  // ---------------------------------------------------------------- requests without a handler

  /** Nobody waits for the request: the catch-all has been called with its events, and nobody else. */
  ghost predicate Unhandled(events: seq<RpcEvent>, slot: Option<Slot>, ds: seq<Delivery>) {
    && (slot.Some? ==> slot.value.handler.None?)
    && (events != [] && Terminal(events[|events| - 1]) ==> slot == None)
    && HandlerCalls(ds) == [] && CatchAlls(ds) == events
  }

  lemma UnhandledOne(r: U32, events: seq<RpcEvent>, slot: Option<Slot>, ds: seq<Delivery>, e: RpcEvent, x: Input)
    requires Unhandled(events, slot, ds) && RequestOf(e) == Some(r) && BringsOne(x, e)
    ensures var (s, more) := SlotStep(slot, x);
            Unhandled(events + [e], s, ds + more)
  {
    assert [] + [ToCatchAll(e)] == [ToCatchAll(e)];
    CallsAppend(ds, [ToCatchAll(e)]);
    CallsOfOne(ToCatchAll(e));
    assert SlotStep(slot, x).1 == [ToCatchAll(e)];
  }

  lemma {:induction false} UnhandledRun(r: U32, slot: Option<Slot>, events: seq<RpcEvent>, xs: seq<Input>)
    requires (slot.Some? ==> slot.value.handler.None?) && OfRequest(r, events) && Brings(xs, events)
    ensures var (s, ds) := RunLane(ROUTER, slot, xs);
            Unhandled(events, s, ds)
  {
    if events != [] {
      var n := |events| - 1;
      BringsFront(xs, events);
      UnhandledRun(r, slot, events[..n], xs[..n]);
      var (s, ds) := RunLane(ROUTER, slot, xs[..n]);
      UnhandledOne(r, events[..n], s, ds, events[n], xs[n]);
      RunLaneSnoc(ROUTER, slot, xs[..n], xs[n]);
    }
  }

  /** A request that is initiated without a handler, to be prebuffered or not, has its response told
      to the catch-all alone, and nothing stays behind. */
  lemma UnhandledResponse(slots: Slots, xs: seq<Input>, h: RpcHeader, cs: seq<Bytes.Data>, token: Token, prebuffer: bool)
    requires AllLanes(slots, AnySlot) && h.requestId !in slots
    requires var own := Select(InputRequest, xs, h.requestId);
             |own| > 0 && own[0] == Register(h.requestId, token, false, prebuffer) && Brings(own[1..], Script(h, cs, true))
    ensures var (left, ds) := Run(ROUTER, slots, xs);
            var own := Select(DeliveryRequest, ds, h.requestId);
            h.requestId !in left && HandlerCalls(own) == [] && CatchAlls(own) == Script(h, cs, true)
  {
    var own, r := Select(InputRequest, xs, h.requestId), h.requestId;
    RequestsDoNotInterfere(slots, xs, r);
    assert own == [own[0]] + own[1..];
    RunLaneAppend(ROUTER, None, [own[0]], own[1..]);
    RunLaneOne(ROUTER, None, own[0]);
    var slot := Some(Slot(None, Some(prebuffer), None));
    ScriptRequests(h, cs, true);
    UnhandledRun(r, slot, Script(h, cs, true), own[1..]);
    assert [] + RunLane(ROUTER, slot, own[1..]).1 == RunLane(ROUTER, slot, own[1..]).1;
  }

  /** A request that is initiated again without a handler, under an id whose handler is still there, has
      its response told to that handler. */
  lemma EarlierHandlerCalled(slots: Slots, xs: seq<Input>, h: RpcHeader, cs: seq<Bytes.Data>, token: Token, earlier: Token)
    requires AllLanes(slots, AnySlot) && h.requestId in slots && slots[h.requestId].handler == Some(earlier)
    requires var own := Select(InputRequest, xs, h.requestId);
             |own| > 0 && own[0] == Register(h.requestId, token, false, false) && Brings(own[1..], Script(h, cs, true))
    ensures var (left, ds) := Run(ROUTER, slots, xs);
            var own := Select(DeliveryRequest, ds, h.requestId);
            && h.requestId !in left && HandlerCalls(own) == Script(h, cs, true) && CatchAlls(own) == []
            && (forall d | d in own :: d.ToHandler? && d.token == earlier)
  {
    var own, r := Select(InputRequest, xs, h.requestId), h.requestId;
    RequestsDoNotInterfere(slots, xs, r);
    assert own == [own[0]] + own[1..];
    RunLaneAppend(ROUTER, Get(slots, r), [own[0]], own[1..]);
    RunLaneOne(ROUTER, Get(slots, r), own[0]);
    var slot := Some(Slot(Some(earlier), Some(false), slots[r].buffer));
    ScriptRequests(h, cs, true);
    StreamEvents(r, earlier, Script(h, cs, true), own[1..]);
    IgnoresRest(earlier, Some(false), slots[r].buffer, Script(h, cs, true), own[1..]);
    assert [] + RunLane(ROUTER, slot, own[1..]).1 == RunLane(ROUTER, slot, own[1..]).1;
  }

  /** A prebuffering handler is not told of an error that names its request: the request is dropped,
      and only the catch-all hears of it. Any other handler is told. */
  lemma ErrorsReach(slot: Slot, x: Input, r: U32)
    requires x.Arrive? && x.event.ErrorEvent? && x.event.errRequestId == Some(r)
    ensures SlotStep(Some(slot), x).0 == None
    ensures SlotStep(Some(slot), x).1
            == if slot.handler.Some? && slot.flag != Some(true) then [ToHandler(r, slot.handler.value, x.event)]
               else [ToCatchAll(x.event)]
  {
  }
}
