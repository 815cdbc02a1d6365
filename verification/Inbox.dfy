/** The queue of inbound requests that the catch-all handler of a dispatcher fills
    (core/src/rpc/rpc_dispatcher.rs) and the endpoint empties
    (extensions/muxio-rpc-service-endpoint/src/endpoint_interface.rs). */
module Inbox {
  import opened Bytes
  import opened Sequences
  import opened RpcStream
  import opened Routing

  datatype Request = Request(
    methodId: U64,
    params: Option<Bytes.Data>,
    payload: Option<Bytes.Data>,
    isFinalized: bool)

  datatype Entry = Entry(id: U32, request: Request)

  function EntryId(e: Entry): Option<U32> {
    Some(e.id)
  }

  /** The position of the first entry of a request, or the length of the queue. */
  function IndexOf(q: seq<Entry>, id: U32): (i: nat)
    ensures i <= |q| && (i < |q| ==> q[i].id == id)
    ensures forall j | 0 <= j < i :: q[j].id != id
  {
    if q == [] then 0
    else
      var i := IndexOf(q[..|q| - 1], id);
      if i < |q| - 1 || q[i].id == id then i else |q|
  }

  function Append(r: Request, bytes: Bytes.Data): Request {
    r.(payload := Some((if r.payload.Some? then r.payload.value else []) + bytes))
  }

  function Opened(h: RpcHeader): Request {
    Request(h.methodId, if |h.metadata| == 0 then None else Some(h.metadata), None, false)
  }

  /** What the catch-all handler does with an event. */
  function QueueStep(q: seq<Entry>, e: RpcEvent): seq<Entry> {
    match e
    case HeaderEvent(r, m, h) => q + [Entry(r, Opened(h))]
    case PayloadChunk(r, _, _, bytes) =>
      var i := IndexOf(q, r);
      if i < |q| then q[i := Entry(r, Append(q[i].request, bytes))] else q
    case EndEvent(r, _, _) =>
      var i := IndexOf(q, r);
      if i < |q| then q[i := Entry(r, q[i].request.(isFinalized := true))] else q
    case ErrorEvent(_, _, _, _) => q
  }

  function RunQueue(q: seq<Entry>, es: seq<RpcEvent>): seq<Entry> {
    if es == [] then q else QueueStep(RunQueue(q, es[..|es| - 1]), es[|es| - 1])
  }

  /** Chunks and ends of requests that are not in the queue, and errors, change nothing. */
  lemma StraysIgnored(q: seq<Entry>, e: RpcEvent)
    requires e.ErrorEvent? || (!e.HeaderEvent? && forall x | x in q :: RequestOf(e) != Some(x.id))
    ensures QueueStep(q, e) == q
  {
  }

  // ---------------------------------------------------------------- requests do not interfere

  function Of(q: seq<Entry>, id: U32): seq<Entry> {
    Select(EntryId, q, id)
  }

  lemma OfFirst(q: seq<Entry>, i: nat)
    requires i < |q| && i == IndexOf(q, q[i].id)
    ensures Of(q, q[i].id) == [q[i]] + Of(q[i + 1..], q[i].id)
  {
    OfSplit(q, i, q[i].id);
    SelectNone(EntryId, q[..i], q[i].id);
    SelectOne(EntryId, q[i], q[i].id);
  }

  lemma OfOther(q: seq<Entry>, i: nat, id: U32)
    requires i < |q| && q[i].id != id
    ensures Of(q, id) == Of(q[..i], id) + Of(q[i + 1..], id)
  {
    OfSplit(q, i, id);
    SelectOne(EntryId, q[i], id);
    assert [] + Of(q[i + 1..], id) == Of(q[i + 1..], id);
  }

  lemma {:induction false} IndexOfUpdate(q: seq<Entry>, i: nat, x: Entry)
    requires i < |q| && x.id == q[i].id && i == IndexOf(q, x.id)
    ensures IndexOf(q[i := x], x.id) == i
  {
    var q' := q[i := x];
    assert q'[i] == x && forall j | 0 <= j < i :: q'[j] == q[j];
    var k := IndexOf(q', x.id);
    assert !(i < k) && !(k < i);
  }

  lemma OfUpdate(q: seq<Entry>, i: nat, x: Entry, id: U32)
    requires i < |q| && x.id == q[i].id && i == IndexOf(q, x.id)
    ensures id == x.id ==> |Of(q, id)| > 0 && Of(q, id)[0] == q[i] && IndexOf(Of(q, id), id) == 0
    ensures Of(q[i := x], id) == if id == x.id then Of(q, id)[0 := x] else Of(q, id)
  {
    var q' := q[i := x];
    assert q'[..i] == q[..i] && q'[i + 1..] == q[i + 1..];
    if id == x.id {
      OfFirst(q, i);
      IndexOfUpdate(q, i, x);
      OfFirst(q', i);
    } else {
      OfOther(q, i, id);
      OfOther(q', i, id);
    }
  }

  lemma OfSplit(q: seq<Entry>, i: nat, id: U32)
    requires i < |q|
    ensures Of(q, id) == Of(q[..i], id) + (Of([q[i]], id) + Of(q[i + 1..], id))
  {
    var front, back := q[..i], q[i + 1..];
    assert q == front + ([q[i]] + back);
    SelectAppend(EntryId, front, [q[i]] + back, id);
    SelectAppend(EntryId, [q[i]], back, id);
  }

  lemma OfSnoc(q: seq<Entry>, e: Entry, id: U32)
    ensures Of(q + [e], id) == if e.id == id then Of(q, id) + [e] else Of(q, id)
  {
    SelectAppend(EntryId, q, [e], id);
    SelectOne(EntryId, e, id);
  }

  lemma {:induction false} OfIds(q: seq<Entry>, id: U32)
    ensures forall e | e in Of(q, id) :: e.id == id
    ensures Of(q, id) == [] <==> IndexOf(q, id) == |q|
  {
    if q != [] {
      OfIds(q[..|q| - 1], id);
    }
  }

  lemma QueueStepProjects(q: seq<Entry>, e: RpcEvent, id: U32)
    ensures Of(QueueStep(q, e), id) == if RequestOf(e) == Some(id) then QueueStep(Of(q, id), e) else Of(q, id)
  {
    match e
    case HeaderEvent(r, m, h) =>
      SelectAppend(EntryId, q, [Entry(r, Opened(h))], id);
      SelectOne(EntryId, Entry(r, Opened(h)), id);
    case PayloadChunk(r, _, _, bytes) =>
      var i := IndexOf(q, r);
      OfIds(q, id);
      if i < |q| {
        OfUpdate(q, i, Entry(r, Append(q[i].request, bytes)), id);
      }
    case EndEvent(r, _, _) =>
      var i := IndexOf(q, r);
      OfIds(q, id);
      if i < |q| {
        OfUpdate(q, i, Entry(r, q[i].request.(isFinalized := true)), id);
      }
    case ErrorEvent(_, _, _, _) =>
  }

  /** The entries of a request depend on the events of that request alone. */
  lemma {:induction false} QueueProjects(q: seq<Entry>, es: seq<RpcEvent>, id: U32)
    ensures Of(RunQueue(q, es), id) == RunQueue(Of(q, id), Select(RequestOf, es, id))
  {
    if es != [] {
      var n := |es| - 1;
      QueueProjects(q, es[..n], id);
      QueueStepProjects(RunQueue(q, es[..n]), es[n], id);
      if RequestOf(es[n]) == Some(id) {
        var own := Select(RequestOf, es[..n], id);
        assert Select(RequestOf, es, id) == own + [es[n]];
        assert (own + [es[n]])[..|own|] == own;
      } else {
        assert Select(RequestOf, es, id) == Select(RequestOf, es[..n], id);
      }
    }
  }

  lemma RunQueueSnoc(q: seq<Entry>, es: seq<RpcEvent>, e: RpcEvent)
    ensures RunQueue(q, es + [e]) == QueueStep(RunQueue(q, es), e)
  {
    assert (es + [e])[..|es|] == es;
  }

  lemma {:induction false} RunQueueAppend(q: seq<Entry>, es: seq<RpcEvent>, fs: seq<RpcEvent>)
    ensures RunQueue(q, es + fs) == RunQueue(RunQueue(q, es), fs)
  {
    if fs == [] {
      assert es + fs == es;
    } else {
      var n := |fs| - 1;
      RunQueueAppend(q, es, fs[..n]);
      RunQueueSnoc(q, es + fs[..n], fs[n]);
      assert es + fs == (es + fs[..n]) + [fs[n]];
    }
  }

  /** The request that a message is turned back into: empty parameters and payload are absent. */
  function RequestFrom(h: RpcHeader, payload: Bytes.Data, isFinalized: bool): Request {
    Request(h.methodId, if h.metadata == [] then None else Some(h.metadata),
            if payload == [] then None else Some(payload), isFinalized)
  }

  lemma QueuedMore(h: RpcHeader, payload: Bytes.Data, c: Bytes.Data)
    requires c != []
    ensures var q := [Entry(h.requestId, RequestFrom(h, payload, false))];
            && QueueStep(q, ChunkOf(h, c)) == [Entry(h.requestId, RequestFrom(h, payload + c, false))]
            && QueueStep(q, EndOf(h)) == [Entry(h.requestId, RequestFrom(h, payload, true))]
  {
    var q := [Entry(h.requestId, RequestFrom(h, payload, false))];
    assert IndexOf(q, h.requestId) == 0;
    assert payload == [] ==> payload + c == [] + c;
  }

  /** The events of one message, told to an empty queue, leave one entry: the request sent. */
  lemma {:induction false} ScriptQueued(h: RpcHeader, cs: seq<Bytes.Data>)
    requires forall c | c in cs :: c != []
    ensures RunQueue([], Script(h, cs, false)) == [Entry(h.requestId, RequestFrom(h, Flatten(cs), false))]
    ensures RunQueue([], Script(h, cs, true)) == [Entry(h.requestId, RequestFrom(h, Flatten(cs), true))]
  {
    if cs == [] {
      var none: seq<RpcEvent> := [];
      RunQueueSnoc([], none, HeaderOf(h));
      assert Script(h, cs, false) == none + [HeaderOf(h)];
    } else {
      var n := |cs| - 1;
      var front, c := cs[..n], cs[n];
      assert cs == front + [c] && c in cs && forall x | x in front :: x in cs;
      ScriptQueued(h, front);
      ScriptExtend(h, front, c);
      RunQueueSnoc([], Script(h, front, false), ChunkOf(h, c));
      QueuedMore(h, Flatten(front), c);
    }
    QueuedMore(h, Flatten(cs), [0]);
    ScriptExtend(h, cs, []);
    RunQueueSnoc([], Script(h, cs, false), EndOf(h));
  }

  // ---------------------------------------------------------------- handing out

  function Ready(e: Entry): Option<bool> {
    Some(e.request.isFinalized)
  }

  function Finalized(q: seq<Entry>): seq<Entry> {
    Select(Ready, q, true)
  }

  function Unfinalized(q: seq<Entry>): seq<Entry> {
    Select(Ready, q, false)
  }

  /** Only the first entry of a request can be finalized. */
  ghost predicate QueueInv(q: seq<Entry>) {
    forall i, j | 0 <= i < j < |q| && q[i].id == q[j].id :: !q[j].request.isFinalized
  }

  lemma QueueStepKeeps(q: seq<Entry>, e: RpcEvent)
    requires QueueInv(q)
    ensures QueueInv(QueueStep(q, e))
  {
  }

  /** The invariant holds of every queue, whatever events have built it. */
  lemma {:induction false} RunQueueKeeps(q: seq<Entry>, es: seq<RpcEvent>)
    requires QueueInv(q)
    ensures QueueInv(RunQueue(q, es))
  {
    if es != [] {
      RunQueueKeeps(q, es[..|es| - 1]);
      QueueStepKeeps(RunQueue(q, es[..|es| - 1]), es[|es| - 1]);
    }
  }

  lemma {:induction false} UnfinalizedKeeps(q: seq<Entry>)
    ensures QueueInv(Unfinalized(q)) && forall e | e in Unfinalized(q) :: e in q && !e.request.isFinalized
  {
    if q != [] {
      UnfinalizedKeeps(q[..|q| - 1]);
    }
  }

  /** Handing out finalized requests, seen one request at a time. */
  lemma {:induction false} HandOutProjects(q: seq<Entry>, id: U32)
    ensures Of(Finalized(q), id) == Finalized(Of(q, id))
    ensures Of(Unfinalized(q), id) == Unfinalized(Of(q, id))
  {
    if q != [] {
      var n := |q| - 1;
      var front, e := q[..n], q[n];
      HandOutProjects(front, id);
      assert q == front + [e];
      OfSnoc(front, e, id);
      ReadySnoc(front, e);
      ReadySnoc(Of(front, id), e);
      OfSnoc(Finalized(front), e, id);
      OfSnoc(Unfinalized(front), e, id);
    }
  }

  lemma ReadyOne(e: Entry)
    ensures Finalized([e]) == if e.request.isFinalized then [e] else []
    ensures Unfinalized([e]) == if e.request.isFinalized then [] else [e]
  {
    SelectOne(Ready, e, true);
    SelectOne(Ready, e, false);
  }

  lemma ReadySnoc(q: seq<Entry>, e: Entry)
    ensures Finalized(q + [e]) == if e.request.isFinalized then Finalized(q) + [e] else Finalized(q)
    ensures Unfinalized(q + [e]) == if e.request.isFinalized then Unfinalized(q) else Unfinalized(q) + [e]
  {
    SelectAppend(Ready, q, [e], true);
    SelectAppend(Ready, q, [e], false);
    ReadyOne(e);
  }

  /** The hand-out loop after the first `i` of the ids that were active when it started. */
  ghost predicate HandedOut(start: seq<Entry>, i: nat, q: seq<Entry>, out: seq<Entry>) {
    i <= |start| && q == Unfinalized(start[..i]) + start[i..] && out == Finalized(start[..i])
  }

  /** The first entry that the loop finds for the `i`-th id is that of the `i`-th entry if it is
      finalized, and an unfinalized one otherwise. */
  lemma FindsOwn(start: seq<Entry>, i: nat, q: seq<Entry>, out: seq<Entry>)
    requires QueueInv(start) && i < |start| && HandedOut(start, i, q, out)
    ensures var j := IndexOf(q, start[i].id);
            && j < |q|
            && q[j].request.isFinalized == start[i].request.isFinalized
            && (start[i].request.isFinalized ==> j == |Unfinalized(start[..i])| && q[j] == start[i])
  {
    var kept := Unfinalized(start[..i]);
    UnfinalizedKeeps(start[..i]);
    var at := |kept|;
    assert q[at] == start[i];
    if start[i].request.isFinalized {
      forall k | 0 <= k < at
        ensures q[k].id != start[i].id
      {
        assert q[k] == kept[k] && kept[k] in kept && kept[k] in start[..i];
        var m :| 0 <= m < i && start[m] == kept[k];
      }
    } else {
      var j := IndexOf(q, start[i].id);
      assert j <= at;
      if j < at { assert q[j] == kept[j] && kept[j] in kept; }
    }
  }

  lemma HandOutReady(start: seq<Entry>, i: nat, q: seq<Entry>, out: seq<Entry>)
    requires i < |start| && HandedOut(start, i, q, out) && start[i].request.isFinalized
    ensures var j := |Unfinalized(start[..i])|;
            j < |q| && HandedOut(start, i + 1, q[..j] + q[j + 1..], out + [start[i]])
  {
    var kept := Unfinalized(start[..i]);
    assert start[..i + 1] == start[..i] + [start[i]];
    ReadySnoc(start[..i], start[i]);
    assert q[..|kept|] == kept && q[|kept| + 1..] == start[i + 1..];
  }

  lemma HandOutSkip(start: seq<Entry>, i: nat, q: seq<Entry>, out: seq<Entry>)
    requires i < |start| && HandedOut(start, i, q, out) && !start[i].request.isFinalized
    ensures HandedOut(start, i + 1, q, out)
  {
    var kept := Unfinalized(start[..i]);
    assert start[..i + 1] == start[..i] + [start[i]];
    ReadySnoc(start[..i], start[i]);
    assert start[i..] == [start[i]] + start[i + 1..];
    assert kept + ([start[i]] + start[i + 1..]) == (kept + [start[i]]) + start[i + 1..];
  }
}
