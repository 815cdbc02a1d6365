/** The life of a response handler over whole runs of a dispatcher: requests initiated, events
    read, and every pending request failed on a disconnect
    (core/src/rpc/rpc_internals/rpc_respondable_session.rs and core/src/rpc/rpc_dispatcher.rs). */
module Lifecycle {
  import opened Bytes
  import opened Sequences
  import opened Lanes
  import opened FrameCodec
  import opened RpcStream
  import opened Routing

  datatype Action =
    | Initiate(id: U32, hasHandler: bool, prebuffer: bool)
    | Receive(event: RpcEvent, streaming: set<U64>)
    | FailAll(cause: FrameDecodeError, order: seq<U32>)

  /** The routing state, the next token, the handlers registered so far, and every call made. */
  datatype History = History(slots: Slots, clock: Token, registered: set<Token>, log: seq<Delivery>)

  const START := History(map[], 0, {}, [])

  function HandlerAt(slots: Slots, r: U32): Option<Token> {
    if r in slots then slots[r].handler else None
  }

  /** The order in which a hash map hands out its entries is arbitrary, but complete. */
  ghost predicate Enumerates(slots: Slots, order: seq<U32>) {
    && (forall r: U32 :: r in order <==> HandlerAt(slots, r).Some?)
    && (forall i, j | 0 <= i < j < |order| :: order[i] != order[j])
  }

  function ErrorFor(r: U32, cause: FrameDecodeError): RpcEvent {
    ErrorEvent(None, Some(r), None, cause)
  }

  function Failures(slots: Slots, order: seq<U32>, cause: FrameDecodeError): (ds: seq<Delivery>)
    requires forall r | r in order :: HandlerAt(slots, r).Some?
    ensures |ds| == |order|
    ensures forall i | 0 <= i < |order| ::
              ds[i] == ToHandler(order[i], HandlerAt(slots, order[i]).value, ErrorFor(order[i], cause))
  {
    seq(|order|, i requires 0 <= i < |order| =>
      ToHandler(order[i], HandlerAt(slots, order[i]).value, ErrorFor(order[i], cause)))
  }

  function InputOf(clock: Token, a: Action): Input
    requires !a.FailAll?
  {
    match a
    case Initiate(id, hasHandler, prebuffer) => Register(id, clock, hasHandler, prebuffer)
    case Receive(e, streaming) => Arrive(e, clock, streaming)
  }

  predicate Registers(x: Input) {
    if x.Register? then x.hasHandler else Routed(x)
  }

  ghost predicate Enabled(h: History, a: Action) {
    a.FailAll? ==> Enumerates(h.slots, a.order)
  }

  ghost function Act(h: History, a: Action): History
    requires Enabled(h, a)
  {
    if a.FailAll? then
      History(map[], h.clock, h.registered, h.log + Failures(h.slots, a.order, a.cause))
    else
      var x := InputOf(h.clock, a);
      var (slots, ds) := Step(ROUTER, h.slots, x);
      History(slots, h.clock + 1, h.registered + (if Registers(x) then {h.clock} else {}), h.log + ds)
  }

  // ---------------------------------------------------------------- at most one terminal event

  predicate Calls(d: Delivery, t: Token) {
    d.ToHandler? && d.token == t
  }

  /** Nothing is delivered to a handler after a terminal event. */
  ghost predicate TerminalIsLast(log: seq<Delivery>) {
    forall i, j | 0 <= i < j < |log| && log[i].ToHandler? && Calls(log[j], log[i].token) :: !Terminal(log[i].event)
  }

  ghost predicate Unfinished(log: seq<Delivery>, t: Token) {
    forall d | d in log && Calls(d, t) :: !Terminal(d.event)
  }

  ghost predicate Below(h: History) {
    && (forall r | HandlerAt(h.slots, r).Some? :: HandlerAt(h.slots, r).value < h.clock)
    && (forall d | d in h.log && d.ToHandler? :: d.token < h.clock)
  }

  ghost predicate OneOwner(slots: Slots) {
    forall r1, r2 | HandlerAt(slots, r1).Some? && HandlerAt(slots, r2) == HandlerAt(slots, r1) :: r1 == r2
  }

  ghost predicate PendingUnfinished(h: History) {
    forall r | HandlerAt(h.slots, r).Some? :: Unfinished(h.log, HandlerAt(h.slots, r).value)
  }

  ghost predicate Orderly(h: History) {
    && AllLanes(h.slots, AnySlot)
    && Below(h) && OneOwner(h.slots) && TerminalIsLast(h.log) && PendingUnfinished(h)
  }

  /** Deliveries to the single handler `t`, ending with the only terminal one if there is one. */
  ghost predicate Burst(ds: seq<Delivery>, t: Option<Token>) {
    && (forall d | d in ds && d.ToHandler? :: t == Some(d.token))
    && TerminalIsLast(ds)
  }

  /** The handler that an input calls: the one it registers, or the one already there. */
  function Called(o: Option<Slot>, x: Input): Option<Token> {
    if Registers(x) then Some(x.token) else if o.Some? then o.value.handler else None
  }

  lemma SlotStepBurst(o: Option<Slot>, x: Input)
    ensures var (o', ds) := SlotStep(o, x);
            && Burst(ds, Called(o, x))
            && (o'.Some? && o'.value.handler.Some? ==>
                  o'.value.handler == Called(o, x) && forall d | d in ds && d.ToHandler? :: !Terminal(d.event))
  {
  }

  lemma AppendBurst(log: seq<Delivery>, ds: seq<Delivery>, t: Option<Token>)
    requires TerminalIsLast(log) && Burst(ds, t) && (t.Some? ==> Unfinished(log, t.value))
    ensures TerminalIsLast(log + ds)
  {
    var all := log + ds;
    forall i, j | 0 <= i < j < |all| && all[i].ToHandler? && Calls(all[j], all[i].token)
      ensures !Terminal(all[i].event)
    {
      if j < |log| {
        assert log[i] == all[i] && log[j] == all[j];
      } else if i < |log| {
        assert all[i] in log && all[j] == ds[j - |log|] && all[j] in ds;
      } else {
        assert all[i] == ds[i - |log|] && all[j] == ds[j - |log|];
      }
    }
  }

  lemma CalledUnfinished(h: History, x: Input, r: U32)
    requires Orderly(h) && x.token == h.clock
    ensures var t := Called(Get(h.slots, r), x);
            t.Some? ==> Unfinished(h.log, t.value)
  {
    var t := Called(Get(h.slots, r), x);
    if t.Some? && !Registers(x) {
      assert HandlerAt(h.slots, r) == t;
    }
  }

  lemma StrayOrderly(h: History, a: Action)
    requires Orderly(h) && !a.FailAll? && InputRequest(InputOf(h.clock, a)) == None
    ensures Orderly(Act(h, a))
  {
    var d := ToCatchAll(a.event);
    var h' := Act(h, a);
    assert h'.log == h.log + [d];
    AppendBurst(h.log, [d], None);
  }

  lemma {:induction false} StepOrderly(h: History, a: Action)
    requires Orderly(h) && !a.FailAll?
    ensures Orderly(Act(h, a))
  {
    var x := InputOf(h.clock, a);
    if InputRequest(x).None? {
      StrayOrderly(h, a);
      return;
    }
    var r := InputRequest(x).value;
    var o := Get(h.slots, r);
    var (o', ds) := SlotStep(o, x);
    var h' := Act(h, a);
    RouterKeepsKeys();
    StepKeepsLanes(ROUTER, AnySlot, h.slots, x);
    SlotStepBurst(o, x);
    CalledUnfinished(h, x, r);
    AppendBurst(h.log, ds, Called(o, x));
    StepTokens(h, a, r);
    StepPending(h, a, r);
  }

  lemma StepTokens(h: History, a: Action, r: U32)
    requires Orderly(h) && !a.FailAll? && InputRequest(InputOf(h.clock, a)) == Some(r)
    ensures Below(Act(h, a)) && OneOwner(Act(h, a).slots)
  {
    var x := InputOf(h.clock, a);
    var o := Get(h.slots, r);
    var h' := Act(h, a);
    SlotStepBurst(o, x);
    assert forall q | q != r :: HandlerAt(h'.slots, q) == HandlerAt(h.slots, q) by {
      forall q | q != r ensures HandlerAt(h'.slots, q) == HandlerAt(h.slots, q) {
        assert Get(h'.slots, q) == Get(h.slots, q);
      }
    }
    assert Get(h'.slots, r) == SlotStep(o, x).0;
    var now := HandlerAt(h'.slots, r);
    assert now.Some? ==> now == Called(o, x);
    assert Called(o, x) == Some(h.clock) || Called(o, x) == HandlerAt(h.slots, r);
  }

  lemma StepPending(h: History, a: Action, r: U32)
    requires Orderly(h) && !a.FailAll? && InputRequest(InputOf(h.clock, a)) == Some(r)
    ensures PendingUnfinished(Act(h, a))
  {
    var x := InputOf(h.clock, a);
    var o := Get(h.slots, r);
    var (o', ds) := SlotStep(o, x);
    var h' := Act(h, a);
    SlotStepBurst(o, x);
    CalledUnfinished(h, x, r);
    assert Get(h'.slots, r) == o';
    forall q | HandlerAt(h'.slots, q).Some?
      ensures Unfinished(h'.log, HandlerAt(h'.slots, q).value)
    {
      var t := HandlerAt(h'.slots, q).value;
      assert Get(h'.slots, q) == if q == r then o' else Get(h.slots, q);
      forall d | d in h'.log && Calls(d, t)
        ensures !Terminal(d.event)
      {
        if q == r {
          assert Called(o, x) == Some(t);
        } else {
          // A delivery to the handler of another request would make it owned twice.
          assert HandlerAt(h.slots, q) == Some(t) && t < h.clock;
          assert Called(o, x) == Some(t) ==> HandlerAt(h.slots, r) == Some(t);
          assert d !in ds;
        }
        assert d in h.log || d in ds;
      }
    }
  }

  lemma FailAllOrderly(h: History, a: Action)
    requires Orderly(h) && a.FailAll? && Enabled(h, a)
    ensures Orderly(Act(h, a))
  {
    var ds := Failures(h.slots, a.order, a.cause);
    var all := h.log + ds;
    forall i, j | 0 <= i < j < |all| && all[i].ToHandler? && Calls(all[j], all[i].token)
      ensures !Terminal(all[i].event)
    {
      if j < |h.log| {
        assert h.log[i] == all[i] && h.log[j] == all[j];
      } else {
        FailuresDistinct(h, a);
        assert all[j] == ds[j - |h.log|] && a.order[j - |h.log|] in a.order;
        assert HandlerAt(h.slots, a.order[j - |h.log|]) == Some(all[j].token);
        assert all[i] in h.log;
      }
    }
  }

  lemma FailuresDistinct(h: History, a: Action)
    requires Orderly(h) && a.FailAll? && Enabled(h, a)
    ensures var ds := Failures(h.slots, a.order, a.cause);
            forall i, j | 0 <= i < j < |ds| :: ds[i].token != ds[j].token
  {
    var ds := Failures(h.slots, a.order, a.cause);
    forall i, j | 0 <= i < j < |ds|
      ensures ds[i].token != ds[j].token
    {
      var q, r := a.order[i], a.order[j];
      assert q in a.order && r in a.order;
      assert HandlerAt(h.slots, q).Some? && HandlerAt(h.slots, r).Some?;
    }
  }

  ghost predicate Possible(h: History, actions: seq<Action>)
    decreases |actions|, 0
  {
    actions == [] ||
    (Possible(h, actions[..|actions| - 1])
     && Enabled(After(h, actions[..|actions| - 1]), actions[|actions| - 1]))
  }

  ghost function After(h: History, actions: seq<Action>): History
    requires Possible(h, actions)
    decreases |actions|, 1
  {
    if actions == [] then h else Act(After(h, actions[..|actions| - 1]), actions[|actions| - 1])
  }

  /** Over any run - ids reused, routers matching, malformed events and all - every handler is
      called with at most one terminal event and with nothing after it. */
  lemma {:induction false} HandlersEndOnce(actions: seq<Action>)
    requires Possible(START, actions)
    ensures Orderly(After(START, actions))
  {
    if actions != [] {
      var n := |actions| - 1;
      HandlersEndOnce(actions[..n]);
      var h := After(START, actions[..n]);
      if actions[n].FailAll? {
        FailAllOrderly(h, actions[n]);
      } else {
        StepOrderly(h, actions[n]);
      }
    }
  }

  /** A disconnect calls every pending handler exactly once, with the given cause, and leaves
      nothing pending. */
  lemma FailAllNotifies(h: History, a: Action)
    requires a.FailAll? && Enabled(h, a)
    ensures Act(h, a).slots == map[]
    ensures forall r | HandlerAt(h.slots, r).Some? ::
              Select(DeliveryRequest, Act(h, a).log, r)
              == Select(DeliveryRequest, h.log, r) + [ToHandler(r, HandlerAt(h.slots, r).value, ErrorFor(r, a.cause))]
  {
    var ds := Failures(h.slots, a.order, a.cause);
    forall r | HandlerAt(h.slots, r).Some?
      ensures Select(DeliveryRequest, h.log + ds, r)
              == Select(DeliveryRequest, h.log, r) + [ToHandler(r, HandlerAt(h.slots, r).value, ErrorFor(r, a.cause))]
    {
      assert r in a.order;
      var i :| 0 <= i < |a.order| && a.order[i] == r;
      SelectAppend(DeliveryRequest, h.log, ds, r);
      assert forall j | 0 <= j < |ds| :: ds[j].requestId == a.order[j];
      SelectSingle(ds, i, r);
    }
  }

  lemma SelectSingle(ds: seq<Delivery>, i: nat, r: U32)
    requires i < |ds| && forall j | 0 <= j < |ds| :: DeliveryRequest(ds[j]) == Some(r) <==> j == i
    ensures Select(DeliveryRequest, ds, r) == [ds[i]]
  {
    var front, back := ds[..i], ds[i + 1..];
    assert ds == (front + [ds[i]]) + back;
    SelectAppend(DeliveryRequest, front + [ds[i]], back, r);
    SelectAppend(DeliveryRequest, front, [ds[i]], r);
    SelectNone(DeliveryRequest, front, r);
    SelectNone(DeliveryRequest, back, r);
    SelectAll(DeliveryRequest, [ds[i]], r);
  }

  // ---------------------------------------------------------------- conservation

  ghost function Pending(slots: Slots): set<Token> {
    set r | r in slots && slots[r].handler.Some? :: slots[r].handler.value
  }

  ghost function Finished(log: seq<Delivery>): set<Token> {
    set d | d in log && d.ToHandler? && Terminal(d.event) :: d.token
  }

  /** An action that a dispatcher with fresh ids can take: a request id is not reused while
      anything is kept under it, and errors read from the transport name no request. */
  predicate FreshAction(h: History, a: Action) {
    match a
    case Initiate(id, _, _) => id !in h.slots
    case Receive(e, streaming) =>
      && (e.ErrorEvent? ==> e.errRequestId.None?)
      && (e.HeaderEvent? && e.methodId in streaming ==> e.requestId !in h.slots)
    case FailAll(_, _) => true
  }

  ghost predicate FlaggedBuffers(slots: Slots) {
    forall r | r in slots && slots[r].buffer.Some? :: slots[r].flag == Some(true)
  }

  /** Every registered handler is pending or finished, and a buffer is kept only for a request
      that prebuffers. */
  ghost predicate Accounted(h: History) {
    && h.registered == Pending(h.slots) + Finished(h.log)
    && FlaggedBuffers(h.slots)
  }

  lemma FinishedAppend(log: seq<Delivery>, ds: seq<Delivery>)
    ensures Finished(log + ds) == Finished(log) + Finished(ds)
  {
  }

  lemma PendingPut(slots: Slots, r: U32, o: Option<Slot>)
    requires OneOwner(slots)
    ensures var old' := HandlerAt(slots, r);
            var now := if o.Some? then o.value.handler else None;
            Pending(Put(slots, r, o))
            == Pending(slots) - (if old'.Some? then {old'.value} else {}) + (if now.Some? then {now.value} else {})
  {
    var slots' := Put(slots, r, o);
    var old' := HandlerAt(slots, r);
    var now := if o.Some? then o.value.handler else None;
    forall t | t in Pending(slots')
      ensures (t in Pending(slots) && old' != Some(t)) || now == Some(t)
    {
      var q :| q in slots' && slots'[q].handler == Some(t);
      assert q != r ==> Get(slots', q) == Get(slots, q) && HandlerAt(slots, q) == Some(t);
    }
    forall t | (t in Pending(slots) && old' != Some(t)) || now == Some(t)
      ensures t in Pending(slots')
    {
      if now == Some(t) {
        assert Get(slots', r) == o;
      } else {
        var q :| q in slots && slots[q].handler == Some(t);
        assert Get(slots', q) == Get(slots, q);
      }
    }
  }

  /** What one input does to the handler of its request: keeps it, or finishes it. */
  lemma SlotStepAccounts(o: Option<Slot>, x: Input)
    requires o.Some? ==> (o.value.buffer.Some? ==> o.value.flag == Some(true))
    requires Registers(x) || x.Register? ==> o.None?
    requires x.Arrive? && x.event.ErrorEvent? ==> x.event.errRequestId.None?
    ensures var (o', ds) := SlotStep(o, x);
            && (o'.Some? && o'.value.buffer.Some? ==> o'.value.flag == Some(true))
            && (match Called(o, x)
                case None => Finished(ds) == {} && (o'.Some? ==> o'.value.handler.None?)
                case Some(t) =>
                  if o'.Some? then Finished(ds) == {} && o'.value.handler == Some(t) else Finished(ds) == {t})
  {
    var (o', ds) := SlotStep(o, x);
    if o'.None? && Called(o, x).Some? {
      var t := Called(o, x).value;
      assert exists d :: d in ds && d.ToHandler? && d.token == t && Terminal(d.event) by {
        var i := if ds[0].event == x.event then 0 else 1;
        assert ds[i] in ds && Calls(ds[i], t) && Terminal(ds[i].event);
      }
    }
  }

  lemma StepAccounts(h: History, a: Action)
    requires Orderly(h) && Accounted(h) && FreshAction(h, a) && !a.FailAll?
    ensures Accounted(Act(h, a))
  {
    var x := InputOf(h.clock, a);
    var ds := Step(ROUTER, h.slots, x).1;
    FinishedAppend(h.log, ds);
    if InputRequest(x).Some? {
      var r := InputRequest(x).value;
      var o := Get(h.slots, r);
      SlotStepAccounts(o, x);
      var o' := SlotStep(o, x).0;
      PendingPut(h.slots, r, o');
      var h' := Act(h, a);
      assert h'.slots == Put(h.slots, r, o');
      forall q | q in h'.slots && h'.slots[q].buffer.Some?
        ensures h'.slots[q].flag == Some(true)
      {
        assert Get(h'.slots, q) == if q == r then o' else Get(h.slots, q);
      }
      if o.Some? && o.value.handler.Some? {
        assert o.value.handler.value in Pending(h.slots);
      }
    }
  }

  lemma FailAllAccounts(h: History, a: Action)
    requires Accounted(h) && a.FailAll? && Enabled(h, a)
    ensures Accounted(Act(h, a))
  {
    var ds := Failures(h.slots, a.order, a.cause);
    FinishedAppend(h.log, ds);
    forall t | t in Pending(h.slots)
      ensures t in Finished(ds)
    {
      var r :| r in h.slots && h.slots[r].handler == Some(t);
      assert HandlerAt(h.slots, r).Some?;
      var i :| 0 <= i < |a.order| && a.order[i] == r;
      assert ds[i] in ds && Calls(ds[i], t);
    }
    forall t | t in Finished(ds)
      ensures t in Pending(h.slots)
    {
      var d :| d in ds && d.ToHandler? && Terminal(d.event) && d.token == t;
      var i :| 0 <= i < |ds| && ds[i] == d;
      assert a.order[i] in a.order;
    }
  }

  ghost predicate AllFresh(h: History, actions: seq<Action>)
    requires Possible(h, actions)
  {
    actions == [] ||
    (AllFresh(h, actions[..|actions| - 1])
     && FreshAction(After(h, actions[..|actions| - 1]), actions[|actions| - 1]))
  }

  /** Conservation: over any run with fresh ids, the handlers registered are exactly those pending
      and those finished, and no handler is both. */
  lemma {:induction false} HandlersAccounted(actions: seq<Action>)
    requires Possible(START, actions) && AllFresh(START, actions)
    ensures var h := After(START, actions);
            Accounted(h) && Pending(h.slots) !! Finished(h.log)
  {
    HandlersEndOnce(actions);
    if actions != [] {
      var n := |actions| - 1;
      HandlersAccounted(actions[..n]);
      HandlersEndOnce(actions[..n]);
      var h := After(START, actions[..n]);
      if actions[n].FailAll? {
        FailAllAccounts(h, actions[n]);
      } else {
        StepAccounts(h, actions[n]);
      }
    }
    PendingNotFinished(After(START, actions));
  }

  lemma PendingNotFinished(h: History)
    requires Orderly(h)
    ensures Pending(h.slots) !! Finished(h.log)
  {
    forall t | t in Pending(h.slots)
      ensures t !in Finished(h.log)
    {
      var r :| r in h.slots && h.slots[r].handler == Some(t);
      assert HandlerAt(h.slots, r) == Some(t) && Unfinished(h.log, t);
    }
  }
}
