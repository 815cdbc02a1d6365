/** Losing the connection in the middle of a run: every call that is still open fails with the
    cause, exactly once and for good (core/src/rpc/rpc_dispatcher.rs). */
module Disconnection {
  import opened Bytes
  import opened Sequences
  import opened Lanes
  import opened FrameCodec
  import opened RpcStream
  import opened Ids
  import opened IdBits
  import opened Routing
  import opened Dispatcher
  import opened Service
  import opened Peer
  import Lifecycle
  import Network
  import Session

  /** The peer after `fail_all_pending_requests`, which calls the handlers in the order `order`. */
  ghost function Disconnect(p: Peer, cause: FrameDecodeError, order: seq<U32>): Peer
    requires Lifecycle.Enumerates(p.slots, order)
  {
    p.(slots := map[], queue := [], log := p.log + Lifecycle.Failures(p.slots, order, cause))
  }

  // ---------------------------------------------------------------- who is still waiting

  /** Every handler that is registered is that of an open call. */
  ghost predicate SlotsOfCalls(p: Peer) {
    forall r: U32 | Lifecycle.HandlerAt(p.slots, r).Some? ::
      r in p.calls && Lifecycle.HandlerAt(p.slots, r) == Some(p.calls[r].token)
  }

  lemma ViewedSlot(p: Peer, r: U32, events: seq<RpcEvent>)
    requires View(p, r, events)
    ensures Lifecycle.HandlerAt(p.slots, r).Some? ==>
              r in p.calls && Lifecycle.HandlerAt(p.slots, r) == Some(p.calls[r].token)
    ensures r in p.calls ==>
              (Lifecycle.HandlerAt(p.slots, r).Some? <==> events == [] || !Terminal(events[|events| - 1]))
  {
  }

  lemma ViewedSlots(p: Peer, heard: seq<RpcEvent>)
    requires Viewing(p, heard)
    ensures SlotsOfCalls(p)
  {
    forall r: U32 | Lifecycle.HandlerAt(p.slots, r).Some?
      ensures r in p.calls && Lifecycle.HandlerAt(p.slots, r) == Some(p.calls[r].token)
    {
      assert View(p, r, Select(RequestOf, heard, r));
      ViewedSlot(p, r, Select(RequestOf, heard, r));
    }
  }

  /** The handlers called on a disconnect, seen by one call. */
  lemma FailuresFor(p: Peer, cause: FrameDecodeError, order: seq<U32>, r: U32)
    requires Lifecycle.Enumerates(p.slots, order) && TokensInv(p) && SlotsOfCalls(p) && r in p.calls
    ensures HandlerCalls(Select(DeliveryToken, Lifecycle.Failures(p.slots, order, cause), p.calls[r].token))
            == if Lifecycle.HandlerAt(p.slots, r).Some? then [Lifecycle.ErrorFor(r, cause)] else []
  {
    var ds, t := Lifecycle.Failures(p.slots, order, cause), p.calls[r].token;
    forall i | 0 <= i < |ds|
      ensures ds[i].ToHandler? && (ds[i].token == t <==> order[i] == r)
    {
      assert order[i] in order;
    }
    if r in order {
      var i :| 0 <= i < |order| && order[i] == r;
      SelectSingle(ds, i, t);
      CallsOfOne(ds[i]);
    } else {
      forall d | d in ds
        ensures DeliveryToken(d) != Some(t)
      {
        var i :| 0 <= i < |ds| && ds[i] == d;
        assert order[i] in order;
      }
      SelectNone(DeliveryToken, ds, t);
    }
  }

  lemma SelectSingle(ds: seq<Delivery>, i: nat, t: Token)
    requires i < |ds| && forall j | 0 <= j < |ds| :: DeliveryToken(ds[j]) == Some(t) <==> j == i
    ensures Select(DeliveryToken, ds, t) == [ds[i]]
  {
    var front, back := ds[..i], ds[i + 1..];
    assert ds == front + ([ds[i]] + back);
    SelectAppend(DeliveryToken, front, [ds[i]] + back, t);
    SelectAppend(DeliveryToken, [ds[i]], back, t);
    SelectOne(DeliveryToken, ds[i], t);
    forall d | d in front ensures DeliveryToken(d) != Some(t) { var j :| 0 <= j < i && ds[j] == d; }
    forall d | d in back ensures DeliveryToken(d) != Some(t) { var j :| i < j < |ds| && ds[j] == d; }
    SelectNone(DeliveryToken, front, t);
    SelectNone(DeliveryToken, back, t);
  }

  lemma CallsOnDisconnect(p: Peer, cause: FrameDecodeError, order: seq<U32>, r: U32)
    requires Lifecycle.Enumerates(p.slots, order) && TokensInv(p) && SlotsOfCalls(p) && r in p.calls
    ensures var t := p.calls[r].token;
            HandlerCalls(Select(DeliveryToken, Disconnect(p, cause, order).log, t))
            == HandlerCalls(Select(DeliveryToken, p.log, t))
               + if Lifecycle.HandlerAt(p.slots, r).Some? then [Lifecycle.ErrorFor(r, cause)] else []
  {
    var ds, t := Lifecycle.Failures(p.slots, order, cause), p.calls[r].token;
    FailuresFor(p, cause, order, r);
    SelectAppend(DeliveryToken, p.log, ds, t);
    CallsAppend(Select(DeliveryToken, p.log, t), Select(DeliveryToken, ds, t));
  }

  /** The channel `after` is that of `before`, failed with `cause` if it was still open. */
  predicate FailedWith(before: Receiver, after: Receiver, cause: FrameDecodeError) {
    && !after.isOpen
    && after.items == (if before.isOpen then before.items + [Err(ServiceError.Transport(cause))] else before.items)
    && Collected(after.items) == if before.isOpen then Err(ServiceError.Transport(cause)) else Collected(before.items)
  }

  lemma FailedCall(p: Peer, cause: FrameDecodeError, order: seq<U32>, r: U32)
    requires Lifecycle.Enumerates(p.slots, order) && TokensInv(p) && SlotsOfCalls(p) && r in p.calls
    requires ReceivedBy(p, r).isOpen <==> Lifecycle.HandlerAt(p.slots, r).Some?
    ensures FailedWith(ReceivedBy(p, r), ReceivedBy(Disconnect(p, cause, order), r), cause)
  {
    var calls := HandlerCalls(Select(DeliveryToken, p.log, p.calls[r].token));
    CallsOnDisconnect(p, cause, order, r);
    DisconnectReported(calls, Some(r), cause);
    assert calls + [] == calls;
    OneErrorAtMost(calls);
    if ReceivedBy(p, r).isOpen {
      CollectedAfter(ReceivedBy(p, r), cause);
    }
  }

  /** Whatever a call had received by then, losing the connection is what it is collected to. */
  lemma CollectedAfter(before: Receiver, cause: FrameDecodeError)
    requires ErrorClosesChannel(before) && before.isOpen
    ensures Collected(before.items + [Err(ServiceError.Transport(cause))]) == Err(ServiceError.Transport(cause))
  {
    var items := before.items + [Err(ServiceError.Transport(cause))];
    assert items[..|before.items|] == before.items;
    CollectedError(items, |before.items|);
  }

  /** A connection lost at any point of any run: every call of the side that notices it has a closed
      channel, to which exactly one error with the cause was added if it was still open. */
  lemma DisconnectEndsCalls(services: Network.Services, clientBase: nat, serverBase: nat, run: seq<Network.Action>,
                            side: IdSpace, cause: FrameDecodeError, order: seq<U32>, r: U32)
    requires Network.Possible(services, Network.Start(clientBase, serverBase), run)
    requires var p := Network.PeerAt(Network.After(services, Network.Start(clientBase, serverBase), run), side);
             Lifecycle.Enumerates(p.slots, order) && r in p.calls
    ensures var p := Network.PeerAt(Network.After(services, Network.Start(clientBase, serverBase), run), side);
            && FailedWith(ReceivedBy(p, r), ReceivedBy(Disconnect(p, cause, order), r), cause)
            && Disconnect(p, cause, order).slots == map[] && Disconnect(p, cause, order).queue == []
  {
    Network.RunKeepsInv(services, clientBase, serverBase, run);
    var w := Network.After(services, Network.Start(clientBase, serverBase), run);
    Network.TakeApart(services, w, side);
    var p, q, pipe := Network.PeerAt(w, side), Network.PeerAt(w, Other(side)), Network.PipeFrom(w, Other(side));
    OpenIffPending(services(Other(side)), p, q, pipe, r);
    ViewedSlots(p, Network.HeardBy(pipe));
    FailedCall(p, cause, order, r);
  }

  lemma OpenIffPending(service: Service, p: Peer, q: Peer, pipe: Network.Pipe, r: U32)
    requires p.space == Other(q.space) && SenderInv(service, q) && Network.Receiving(p, q, pipe) && Serves(q, p)
    requires r in p.calls && CallSent(p, r)
    ensures ReceivedBy(p, r).isOpen <==> Lifecycle.HandlerAt(p.slots, r).Some?
  {
    var events := Select(RequestOf, Network.HeardBy(pipe), r);
    assert View(p, r, events);
    ViewedSlot(p, r, events);
    Network.SideSafety(service, p, q, pipe, r);
    Network.HeardSensible(service, q, pipe, r);
    EndedIffTerminal(r, events);
  }

  lemma EndedIffTerminal(r: U32, events: seq<RpcEvent>)
    requires Sensible(r, events)
    ensures HasEnded(events) <==> events != [] && Terminal(events[|events| - 1])
  {
    if events != [] {
      var h, data :| About(r, h, data, events);
      var cs, ended :| Told(h, data, events, cs, ended);
      ScriptRequests(h, cs, ended);
    }
  }

  // ---------------------------------------------------------------- nothing afterwards

  /** Whatever happens to a dispatcher after the disconnect. */
  datatype Later =
    | Hear(bytes: Bytes.Data)
    | CallAgain(methodId: U64, args: Bytes.Data)
    | FailAgain(cause: FrameDecodeError, order: seq<U32>)

  ghost predicate Enabled(p: Peer, a: Later) {
    a.FailAgain? ==> Lifecycle.Enumerates(p.slots, a.order)
  }

  ghost function Act(p: Peer, a: Later): Peer
    requires Enabled(p, a)
  {
    match a
    case Hear(bytes) => ReadBytes(p, bytes)
    case CallAgain(methodId, args) => MakeCall(p, methodId, args)
    case FailAgain(cause, order) => Disconnect(p, cause, order)
  }

  ghost predicate Possible(p: Peer, later: seq<Later>)
    decreases |later|, 0
  {
    later == [] ||
    (Possible(p, later[..|later| - 1]) && Enabled(After(p, later[..|later| - 1]), later[|later| - 1]))
  }

  ghost function After(p: Peer, later: seq<Later>): Peer
    requires Possible(p, later)
    decreases |later|, 1
  {
    if later == [] then p else Act(After(p, later[..|later| - 1]), later[|later| - 1])
  }

  /** The handler `t` is not registered any more. */
  ghost predicate Gone(slots: Slots, t: Token) {
    forall r: U32 :: Lifecycle.HandlerAt(slots, r) != Some(t)
  }

  predicate Spares(d: Delivery, t: Token) {
    DeliveryToken(d) != Some(t)
  }

  lemma StepSpares(slots: Slots, x: Input, t: Token)
    requires Gone(slots, t) && x.token != t
    ensures Gone(Step(ROUTER, slots, x).0, t) && forall d | d in Step(ROUTER, slots, x).1 :: Spares(d, t)
  {
    if InputRequest(x).Some? {
      var r := InputRequest(x).value;
      Lifecycle.SlotStepBurst(Get(slots, r), x);
      assert Lifecycle.HandlerAt(slots, r) != Some(t);
      var slots' := Step(ROUTER, slots, x).0;
      forall q: U32
        ensures Lifecycle.HandlerAt(slots', q) != Some(t)
      {
        if q != r { assert Get(slots', q) == Get(slots, q) && Lifecycle.HandlerAt(slots, q) != Some(t); }
      }
    }
  }

  lemma {:induction false} RunSpares(slots: Slots, xs: seq<Input>, t: Token)
    requires Gone(slots, t) && forall x | x in xs :: x.token != t
    ensures Gone(Run(ROUTER, slots, xs).0, t) && forall d | d in Run(ROUTER, slots, xs).1 :: Spares(d, t)
  {
    if xs != [] {
      var n := |xs| - 1;
      RunSpares(slots, xs[..n], t);
      StepSpares(Run(ROUTER, slots, xs[..n]).0, xs[n], t);
    }
  }

  /** A handler that is gone has been called with `calls`, and will not be called again. */
  ghost predicate Silent(p: Peer, t: Token, calls: seq<Delivery>) {
    t < p.clock && Gone(p.slots, t) && Select(DeliveryToken, p.log, t) == calls
  }

  lemma MoreSpares(log: seq<Delivery>, ds: seq<Delivery>, t: Token)
    requires forall d | d in ds :: Spares(d, t)
    ensures Select(DeliveryToken, log + ds, t) == Select(DeliveryToken, log, t)
  {
    SelectAppend(DeliveryToken, log, ds, t);
    SelectNone(DeliveryToken, ds, t);
  }

  lemma HearKeepsSilent(p: Peer, bytes: Bytes.Data, t: Token, calls: seq<Delivery>)
    requires Silent(p, t, calls)
    ensures Silent(ReadBytes(p, bytes), t, calls)
  {
    var xs := ArrivalsAt(Session.Events(Session.Read(p.session, bytes).1), p.clock, {});
    RunSpares(p.slots, xs, t);
    MoreSpares(p.log, Run(ROUTER, p.slots, xs).1, t);
  }

  lemma FailKeepsSilent(p: Peer, cause: FrameDecodeError, order: seq<U32>, t: Token, calls: seq<Delivery>)
    requires Silent(p, t, calls) && Lifecycle.Enumerates(p.slots, order)
    ensures Silent(Disconnect(p, cause, order), t, calls)
  {
    var ds := Lifecycle.Failures(p.slots, order, cause);
    forall d | d in ds
      ensures Spares(d, t)
    {
      var i :| 0 <= i < |ds| && ds[i] == d;
      assert Lifecycle.HandlerAt(p.slots, order[i]) != Some(t);
    }
    MoreSpares(p.log, ds, t);
  }

  lemma ActKeepsSilent(p: Peer, a: Later, t: Token, calls: seq<Delivery>)
    requires Silent(p, t, calls) && Enabled(p, a)
    ensures Silent(Act(p, a), t, calls)
  {
    match a
    case Hear(bytes) => HearKeepsSilent(p, bytes, t, calls);
    case CallAgain(methodId, args) =>
      StepSpares(p.slots, Register(NextRequestId(p), p.clock, true, false), t);
    case FailAgain(cause, order) => FailKeepsSilent(p, cause, order, t, calls);
  }

  lemma {:induction false} RunKeepsSilent(p: Peer, later: seq<Later>, t: Token, calls: seq<Delivery>)
    requires Silent(p, t, calls) && Possible(p, later)
    ensures Silent(After(p, later), t, calls)
  {
    if later != [] {
      var n := |later| - 1;
      RunKeepsSilent(p, later[..n], t, calls);
      ActKeepsSilent(After(p, later[..n]), later[n], t, calls);
    }
  }

  /** After the disconnect of any peer, whatever bytes still come in, whatever is called and however
      often the connection is lost again, no handler registered before is called again. */
  lemma NothingAfterwards(p: Peer, cause: FrameDecodeError, order: seq<U32>, later: seq<Later>, t: Token)
    requires Lifecycle.Enumerates(p.slots, order) && t < p.clock
    requires Possible(Disconnect(p, cause, order), later)
    ensures var p' := Disconnect(p, cause, order);
            Select(DeliveryToken, After(p', later).log, t) == Select(DeliveryToken, p'.log, t)
  {
    var p' := Disconnect(p, cause, order);
    RunKeepsSilent(p', later, t, Select(DeliveryToken, p'.log, t));
  }

  // ---------------------------------------------------------------- handlers accounted for

  function CallTokens(p: Peer): set<Token> {
    set r | r in p.calls :: p.calls[r].token
  }

  /** The handlers registered for calls are those pending and those finished, and no handler is
      both: in a network a dispatcher meets what conservation asks for, fresh ids and anonymous
      errors, by itself. */
  lemma CallHandlersAccounted(services: Network.Services, clientBase: nat, serverBase: nat, run: seq<Network.Action>,
                              side: IdSpace)
    requires Network.Possible(services, Network.Start(clientBase, serverBase), run)
    ensures var p := Network.PeerAt(Network.After(services, Network.Start(clientBase, serverBase), run), side);
            && CallTokens(p) == Lifecycle.Pending(p.slots) + Lifecycle.Finished(p.log)
            && Lifecycle.Pending(p.slots) !! Lifecycle.Finished(p.log)
  {
    Network.RunKeepsInv(services, clientBase, serverBase, run);
    var w := Network.After(services, Network.Start(clientBase, serverBase), run);
    Network.TakeApart(services, w, side);
    var p, q, pipe := Network.PeerAt(w, side), Network.PeerAt(w, Other(side)), Network.PipeFrom(w, Other(side));
    AllMakeSense(q.sent, q.msgs, pipe.arrived, pipe.read, Network.HeardBy(pipe));
    Accounts(p, Network.HeardBy(pipe));
  }

  /** A handler is pending exactly as long as it has not been called with a terminal event. */
  lemma PendingOrFinished(p: Peer, heard: seq<RpcEvent>, r: U32)
    requires TablesInv(p) && Viewing(p, heard) && Sensible(r, Select(RequestOf, heard, r)) && r in p.calls
    ensures Lifecycle.HandlerAt(p.slots, r).Some? <==> p.calls[r].token !in Lifecycle.Finished(p.log)
  {
    var events, t := Select(RequestOf, heard, r), p.calls[r].token;
    assert View(p, r, events);
    ViewedSlot(p, r, events);
    Network.HandlerHears(p, heard, r);
    SensibleOrderly(r, events);
    FinishedIff(p.log, t);
    if events != [] && Terminal(events[|events| - 1]) {
      assert events[|events| - 1] in events;
    }
  }

  ghost predicate HasTerminal(events: seq<RpcEvent>) {
    exists e :: e in events && Terminal(e)
  }

  lemma FinishedOne(d: Delivery, t: Token)
    ensures t in Lifecycle.Finished([d]) <==> HasTerminal(HandlerCalls(Select(DeliveryToken, [d], t)))
  {
    SelectOne(DeliveryToken, d, t);
    CallsOfOne(d);
    assert d in [d];
    if d.ToHandler? {
      assert d.event in [d.event];
    }
  }

  lemma TerminalAppend(a: seq<RpcEvent>, b: seq<RpcEvent>)
    ensures HasTerminal(a + b) <==> HasTerminal(a) || HasTerminal(b)
  {
    assert forall e :: e in a + b <==> e in a || e in b;
  }

  /** A handler is finished exactly when it was called with a terminal event. */
  lemma {:induction false} FinishedIff(log: seq<Delivery>, t: Token)
    ensures t in Lifecycle.Finished(log) <==> HasTerminal(HandlerCalls(Select(DeliveryToken, log, t)))
  {
    if log != [] {
      var front, d := log[..|log| - 1], log[|log| - 1];
      var a, b := Select(DeliveryToken, front, t), Select(DeliveryToken, [d], t);
      FinishedIff(front, t);
      FinishedOne(d, t);
      assert log == front + [d];
      SelectAppend(DeliveryToken, front, [d], t);
      CallsAppend(a, b);
      TerminalAppend(HandlerCalls(a), HandlerCalls(b));
      Lifecycle.FinishedAppend(front, [d]);
    }
  }

  lemma Accounts(p: Peer, heard: seq<RpcEvent>)
    requires TablesInv(p) && Viewing(p, heard) && AllSensible(heard)
    ensures CallTokens(p) == Lifecycle.Pending(p.slots) + Lifecycle.Finished(p.log)
    ensures Lifecycle.Pending(p.slots) !! Lifecycle.Finished(p.log)
  {
    ViewedSlots(p, heard);
    Network.HandlersOwnCalls(p, heard);
    forall r | r in p.calls
      ensures Lifecycle.HandlerAt(p.slots, r).Some? <==> p.calls[r].token !in Lifecycle.Finished(p.log)
    {
      assert Sensible(r, Select(RequestOf, heard, r));
      PendingOrFinished(p, heard, r);
    }
    Partition(p);
  }

  lemma Partition(p: Peer)
    requires SlotsOfCalls(p) && forall d | d in p.log :: OwnCall(p, d)
    requires forall r | r in p.calls ::
               Lifecycle.HandlerAt(p.slots, r).Some? <==> p.calls[r].token !in Lifecycle.Finished(p.log)
    ensures CallTokens(p) == Lifecycle.Pending(p.slots) + Lifecycle.Finished(p.log)
    ensures Lifecycle.Pending(p.slots) !! Lifecycle.Finished(p.log)
  {
    var pending, finished := Lifecycle.Pending(p.slots), Lifecycle.Finished(p.log);
    forall t | t in pending
      ensures t in CallTokens(p) && t !in finished
    {
      var r :| r in p.slots && p.slots[r].handler == Some(t);
      assert Lifecycle.HandlerAt(p.slots, r) == Some(t);
    }
    forall t | t in finished
      ensures t in CallTokens(p)
    {
      var d :| d in p.log && d.ToHandler? && Terminal(d.event) && d.token == t;
      assert OwnCall(p, d);
    }
    forall t | t in CallTokens(p)
      ensures t in pending + finished
    {
      var r :| r in p.calls && p.calls[r].token == t;
      if Lifecycle.HandlerAt(p.slots, r).Some? {
        assert r in p.slots && p.slots[r].handler == Some(t);
      }
    }
  }
}
