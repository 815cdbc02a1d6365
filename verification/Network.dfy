/** Two peers on a connection, and every run they can have: calls from both sides, frames that
    leave the transport in any order, bytes read in any slices, and requests answered in any
    order. */
module Network {
  import opened Bytes
  import opened Sequences
  import opened FrameCodec
  import opened RpcStream
  import opened Ids
  import opened IdBits
  import opened Routing
  import opened Inbox
  import opened Dispatcher
  import opened Service
  import opened Link
  import opened Peer
  import FrameEncoder
  import FrameMux
  import InOrder
  import Session

  /** One direction of the transport: the frames that have come out of it, and how many of their
      bytes the receiver has read. */
  datatype Pipe = Pipe(arrived: seq<Frame>, read: nat)

  datatype World = World(client: Peer, server: Peer, up: Pipe, down: Pipe)

  /** The user handlers of each side. */
  type Services = IdSpace -> Service

  function PeerAt(w: World, side: IdSpace): Peer {
    if side == Client then w.client else w.server
  }

  /** The pipe that carries what `side` sends. */
  function PipeFrom(w: World, side: IdSpace): Pipe {
    if side == Client then w.up else w.down
  }

  function WithPeer(w: World, side: IdSpace, p: Peer): World {
    if side == Client then w.(client := p) else w.(server := p)
  }

  function WithPipe(w: World, side: IdSpace, pipe: Pipe): World {
    if side == Client then w.(up := pipe) else w.(down := pipe)
  }

  datatype Action =
    | Call(side: IdSpace, methodId: U64, args: Bytes.Data)
    /** Other dispatchers of the process draw ids. */
    | DrawElsewhere(side: IdSpace, count: nat)
    /** A frame that `side` has sent comes out of the transport. */
    | Deliver(side: IdSpace, frame: Frame)
    /** `side` reads the next bytes that have come out for it. */
    | Read(side: IdSpace, count: nat)
    | Reply(side: IdSpace, index: nat)

  ghost predicate Enabled(services: Services, w: World, a: Action) {
    var p := PeerAt(w, a.side);
    match a
    case Call(_, methodId, args) => CanCall(p, methodId, args)
    case DrawElsewhere(_, count) => p.draws + count <= p.base + TWO_31
    case Deliver(side, f) => multiset(PipeFrom(w, side).arrived + [f]) <= multiset(p.sent)
    case Read(side, count) =>
      var pipe := PipeFrom(w, Other(side));
      pipe.read + count <= |EncodeAll(pipe.arrived)|
    case Reply(side, i) => CanAnswer(p, services(side), i)
  }

  ghost function Act(services: Services, w: World, a: Action): World
    requires Enabled(services, w, a)
  {
    var p := PeerAt(w, a.side);
    match a
    case Call(side, methodId, args) => WithPeer(w, side, MakeCall(p, methodId, args))
    case DrawElsewhere(side, count) => WithPeer(w, side, DrawMore(p, count))
    case Deliver(side, f) =>
      var pipe := PipeFrom(w, side);
      WithPipe(w, side, pipe.(arrived := pipe.arrived + [f]))
    case Read(side, count) => ReadAt(w, side, PipeFrom(w, Other(side)), count)
    case Reply(side, i) => WithPeer(w, side, SendAnswer(p, services(side), i))
  }

  function ReadAt(w: World, side: IdSpace, inward: Pipe, count: nat): World
    requires inward.read + count <= |EncodeAll(inward.arrived)|
  {
    WithPipe(WithPeer(w, side, ReadBytes(PeerAt(w, side), Slice(inward, count))), Other(side),
             inward.(read := inward.read + count))
  }

  function DrawMore(p: Peer, count: nat): Peer {
    p.(draws := p.draws + count)
  }

  function Start(clientBase: nat, serverBase: nat): World {
    World(Initial(Client, clientBase), Initial(Server, serverBase), Pipe([], 0), Pipe([], 0))
  }

  // ---------------------------------------------------------------- the invariant

  function HeardBy(pipe: Pipe): seq<RpcEvent>
    requires pipe.read <= |EncodeAll(pipe.arrived)|
  {
    Heard(pipe.arrived, pipe.read)
  }

  ghost predicate Transit(q: Peer, pipe: Pipe) {
    Session.InTransit(q.sent, q.msgs, pipe.arrived, pipe.read)
  }

  /** `p` is exactly where what it has heard from `q` puts it. */
  ghost predicate Receiving(p: Peer, q: Peer, pipe: Pipe) {
    && Transit(q, pipe)
    && InStep(p, Session.Received(pipe.arrived, pipe.read).0, HeardBy(pipe))
    && Serves(p, q)
  }

  ghost predicate SideInv(services: Services, w: World, side: IdSpace) {
    var p, q := PeerAt(w, side), PeerAt(w, Other(side));
    p.space == side && SenderInv(services(side), p) && Receiving(p, q, PipeFrom(w, Other(side)))
  }

  ghost predicate Inv(services: Services, w: World) {
    SideInv(services, w, Client) && SideInv(services, w, Server)
  }

  // ---------------------------------------------------------------- consequences for one side

  /** Whatever is heard makes sense as a message of the other side. */
  lemma HeardSensible(service: Service, q: Peer, pipe: Pipe, r: U32)
    requires SenderInv(service, q) && Transit(q, pipe)
    ensures Sensible(r, Select(RequestOf, HeardBy(pipe), r))
  {
    HeardMakesSense(q.sent, q.msgs, pipe.arrived, pipe.read, r);
  }

  /** A message of `q` about a request in the other half answers a call of `p`. */
  lemma AnswersACall(service: Service, p: Peer, q: Peer, s: U32)
    requires SenderInv(service, q) && Serves(q, p) && s in q.msgs
    requires !InHalf(q.space, q.msgs[s].header.requestId)
    ensures var r := q.msgs[s].header.requestId;
            r in p.calls && q.msgs[s] == ReplyMessage(service, EntryFor(r, p.calls[r]))
  {
    assert Origin(q, s);
    var i :| i in q.answered && q.answered[i] == s;
    assert AnswerSent(service, q, i);
    ReplyIsAbout(service, q.inbox[i]);
    assert q.inbox[i] in q.inbox;
  }

  /** Nothing has been heard of a request id that is still to be used. */
  lemma NotHeardYet(service: Service, p: Peer, q: Peer, pipe: Pipe, r: U32)
    requires SenderInv(service, q) && Serves(q, p) && Transit(q, pipe)
    requires !InHalf(q.space, r) && r !in p.calls
    ensures Select(RequestOf, HeardBy(pipe), r) == []
  {
    forall s | s in q.msgs
      ensures q.msgs[s].header.requestId != r
    {
      if q.msgs[s].header.requestId == r {
        AnswersACall(service, p, q, s);
      }
    }
    NothingHeard(q.sent, q.msgs, pipe.arrived, pipe.read, r);
  }

  /** A request that has been heard to its end and is not a call of `p` is a call of `q`. */
  lemma HeardCall(service: Service, p: Peer, q: Peer, pipe: Pipe, r: U32)
    requires SenderInv(service, q) && Serves(q, p) && Transit(q, pipe) && r !in p.calls
    requires HasEnded(Select(RequestOf, HeardBy(pipe), r))
    ensures r in q.calls && RunQueue([], Select(RequestOf, HeardBy(pipe), r)) == [EntryFor(r, q.calls[r])]
  {
    var events := Select(RequestOf, HeardBy(pipe), r);
    if forall s | s in q.msgs :: q.msgs[s].header.requestId != r {
      NothingHeard(q.sent, q.msgs, pipe.arrived, pipe.read, r);
    }
    var s :| s in q.msgs && q.msgs[s].header.requestId == r;
    HeardOfRequest(q.sent, q.msgs, pipe.arrived, pipe.read, s);
    if !InHalf(q.space, r) {
      AnswersACall(service, p, q, s);
    }
    assert Origin(q, s) && CallSent(q, r);
    EndedQueued(q.msgs[s].header, q.msgs[s].payload, events);
  }

  lemma EndedQueued(h: RpcHeader, data: Bytes.Data, events: seq<RpcEvent>)
    requires Telling(h, data, events) && HasEnded(events)
    ensures RunQueue([], events) == [Entry(h.requestId, RequestFrom(h, data, true))]
  {
    var cs, ended :| Told(h, data, events, cs, ended);
    ScriptRequests(h, cs, ended);
    ScriptQueued(h, cs);
  }

  // ---------------------------------------------------------------- every action keeps the invariant

  lemma InboxFacts(service: Service, p: Peer, q: Peer, pipe: Pipe)
    requires p.space == Other(q.space) && SenderInv(service, q) && Receiving(p, q, pipe)
    ensures InboxInv(p)
  {
    forall e | e in p.inbox
      ensures !InHalf(p.space, e.id)
    {
      assert CallSent(q, e.id);
    }
    forall i, j | 0 <= i < j < |p.inbox|
      ensures p.inbox[i].id != p.inbox[j].id
    {
      var r := p.inbox[i].id;
      if r == p.inbox[j].id {
        TwiceInbox(p.inbox, i, j);
        InboxOnce(service, p, q, pipe, r);
      }
    }
  }

  lemma TwiceInbox(q: seq<Entry>, i: nat, j: nat)
    requires i < j < |q| && q[i].id == q[j].id
    ensures |Of(q, q[i].id)| >= 2
  {
    var r := q[i].id;
    OfSplit(q, j, r);
    SelectOne(EntryId, q[j], r);
    SelectMember(EntryId, q[..j], q[..j][i], r);
  }

  /** A request is handed out at most once. */
  lemma InboxOnce(service: Service, p: Peer, q: Peer, pipe: Pipe, r: U32)
    requires SenderInv(service, q) && Receiving(p, q, pipe)
    ensures |Of(p.inbox, r)| <= 1
  {
    var events := Select(RequestOf, HeardBy(pipe), r);
    assert View(p, r, events);
    HeardSensible(service, q, pipe, r);
    if events != [] {
      var h, data :| About(r, h, data, events);
      var cs, ended :| Told(h, data, events, cs, ended);
      ScriptQueued(h, cs);
    }
  }

  /** The other side of an action that adds a message to what `p` has sent. */
  lemma PeerSentMore(p: Peer, p': Peer, q: Peer, pipe: Pipe, s: U32, fs: seq<Frame>, m: Message)
    requires Receiving(q, p, pipe) && s !in p.msgs && Session.Sendable(m)
    requires FrameEncoder.Complete(s, fs, Session.MessageBytes(m))
    requires p'.sent == p.sent + fs && p'.msgs == p.msgs[s := m]
    requires forall r | r in p.calls :: r in p'.calls && p'.calls[r] == p.calls[r]
    ensures Receiving(q, p', pipe)
  {
    MoreSent(p.sent, p.msgs, pipe.arrived, pipe.read, s, fs, m);
  }

  lemma CallKeepsViews(p: Peer, p': Peer, heard: seq<RpcEvent>, methodId: U64, args: Bytes.Data)
    requires TablesInv(p) && Viewing(p, heard)
    requires NextRequestId(p) !in p.calls && Select(RequestOf, heard, NextRequestId(p)) == []
    requires p' == MakeCall(p, methodId, args)
    ensures TablesInv(p') && Viewing(p', heard)
  {
    forall r: U32
      ensures View(p', r, Select(RequestOf, heard, r))
    {
      CallKeepsView(p, methodId, args, r, Select(RequestOf, heard, r));
    }
    CallKeepsView(p, methodId, args, 0, Select(RequestOf, heard, 0));
  }

  lemma CallKeepsReceiving(service: Service, p: Peer, p': Peer, q: Peer, pipe: Pipe, methodId: U64, args: Bytes.Data)
    requires p.space == Other(q.space) && SenderInv(service, q) && IdsInv(p)
    requires Receiving(p, q, pipe) && Serves(q, p) && p' == MakeCall(p, methodId, args)
    ensures Receiving(p', q, pipe)
  {
    NextIdsFresh(p);
    NotHeardYet(service, p, q, pipe, NextRequestId(p));
    CallKeepsViews(p, p', HeardBy(pipe), methodId, args);
  }

  /** What a call adds to what `p` has sent. */
  lemma CallSentMore(p: Peer, p': Peer, q: Peer, pipe: Pipe, methodId: U64, args: Bytes.Data)
    requires Receiving(q, p, pipe) && IdsInv(p) && CanCall(p, methodId, args) && p' == MakeCall(p, methodId, args)
    ensures Receiving(q, p', pipe)
  {
    var r, c := NextRequestId(p), NextCall(p, methodId, args);
    NextIdsFresh(p);
    CallCompletes(r, c);
    PeerSentMore(p, p', q, pipe, c.streamId, CallFrames(r, c), CallMessage(r, c));
  }

  lemma CallStep(services: Services, side: IdSpace, p: Peer, p': Peer, q: Peer, inward: Pipe, outward: Pipe,
                 methodId: U64, args: Bytes.Data)
    requires Joined(services, side, p, q, inward, outward) && CanCall(p, methodId, args)
    requires p' == MakeCall(p, methodId, args)
    ensures Joined(services, side, p', q, inward, outward)
  {
    CallKeepsSender(services(side), p, methodId, args);
    CallKeepsReceiving(services(Other(side)), p, p', q, inward, methodId, args);
    CallSentMore(p, p', q, outward, methodId, args);
  }

  lemma CallKeepsInv(services: Services, w: World, a: Action)
    requires Inv(services, w) && a.Call? && Enabled(services, w, a)
    ensures Inv(services, Act(services, w, a))
  {
    var p, q := PeerAt(w, a.side), PeerAt(w, Other(a.side));
    var inward, outward := PipeFrom(w, Other(a.side)), PipeFrom(w, a.side);
    var p' := MakeCall(p, a.methodId, a.args);
    TakeApart(services, w, a.side);
    CallStep(services, a.side, p, p', q, inward, outward, a.methodId, a.args);
    Assemble(services, Act(services, w, a), a.side, p', q, inward, outward);
  }

  lemma ReplyStep(services: Services, side: IdSpace, p: Peer, p': Peer, q: Peer, inward: Pipe, outward: Pipe, i: nat)
    requires Joined(services, side, p, q, inward, outward) && CanAnswer(p, services(side), i)
    requires p' == SendAnswer(p, services(side), i)
    ensures Joined(services, side, p', q, inward, outward)
  {
    var service, s, e := services(side), NextStreamId(p), p.inbox[i];
    InboxFacts(services(Other(side)), p, q, inward);
    AnswerKeepsSender(service, p, i);
    NextIdsFresh(p);
    ReplyCompletes(service, e, s);
    PeerSentMore(p, p', q, outward, s, ReplyFrames(s, Answer(service, e.id, e.request)), ReplyMessage(service, e));
    ReplyKeepsReceiving(p, p', q, inward);
  }

  lemma ReplyKeepsInv(services: Services, w: World, a: Action)
    requires Inv(services, w) && a.Reply? && Enabled(services, w, a)
    ensures Inv(services, Act(services, w, a))
  {
    var p, q := PeerAt(w, a.side), PeerAt(w, Other(a.side));
    var inward, outward := PipeFrom(w, Other(a.side)), PipeFrom(w, a.side);
    var p' := SendAnswer(p, services(a.side), a.index);
    TakeApart(services, w, a.side);
    ReplyStep(services, a.side, p, p', q, inward, outward, a.index);
    Assemble(services, Act(services, w, a), a.side, p', q, inward, outward);
  }

  lemma ReplyKeepsReceiving(p: Peer, p': Peer, q: Peer, pipe: Pipe)
    requires Receiving(p, q, pipe)
    requires p'.session == p.session && p'.slots == p.slots && p'.log == p.log && p'.calls == p.calls
    requires p'.queue == p.queue && p'.inbox == p.inbox && p'.clock == p.clock
    ensures Receiving(p', q, pipe)
  {
    SameViews(p, p', HeardBy(pipe));
  }

  lemma SameViews(p: Peer, p': Peer, heard: seq<RpcEvent>)
    requires Viewing(p, heard)
    requires p'.slots == p.slots && p'.log == p.log && p'.calls == p.calls && p'.queue == p.queue && p'.inbox == p.inbox
    ensures Viewing(p', heard)
  {
    forall r: U32
      ensures View(p', r, Select(RequestOf, heard, r))
    {
      assert View(p, r, Select(RequestOf, heard, r));
    }
  }

  /** The two sides of a world, seen from one of them. */
  ghost predicate Joined(services: Services, side: IdSpace, p: Peer, q: Peer, inward: Pipe, outward: Pipe) {
    && p.space == side && q.space == Other(side)
    && SenderInv(services(side), p) && SenderInv(services(Other(side)), q)
    && Receiving(p, q, inward) && Receiving(q, p, outward)
  }

  lemma TakeApart(services: Services, w: World, side: IdSpace)
    requires Inv(services, w)
    ensures Joined(services, side, PeerAt(w, side), PeerAt(w, Other(side)), PipeFrom(w, Other(side)), PipeFrom(w, side))
  {
    assert SideInv(services, w, side) && SideInv(services, w, Other(side));
  }

  lemma Assemble(services: Services, w: World, side: IdSpace, p: Peer, q: Peer, inward: Pipe, outward: Pipe)
    requires PeerAt(w, side) == p && PeerAt(w, Other(side)) == q
    requires PipeFrom(w, Other(side)) == inward && PipeFrom(w, side) == outward
    requires Joined(services, side, p, q, inward, outward)
    ensures Inv(services, w)
  {
    assert SideInv(services, w, side) && SideInv(services, w, Other(side));
  }

  lemma DeliverKeepsReceiving(p: Peer, q: Peer, pipe: Pipe, f: Frame)
    requires Receiving(q, p, pipe) && multiset(pipe.arrived + [f]) <= multiset(p.sent)
    ensures Receiving(q, p, pipe.(arrived := pipe.arrived + [f]))
  {
    ArrivalUnread(p.sent, p.msgs, pipe.arrived, pipe.read, f);
    assert HeardBy(pipe.(arrived := pipe.arrived + [f])) == HeardBy(pipe);
  }

  lemma DeliverStep(services: Services, side: IdSpace, p: Peer, q: Peer, inward: Pipe, outward: Pipe, f: Frame)
    requires Joined(services, side, p, q, inward, outward) && multiset(outward.arrived + [f]) <= multiset(p.sent)
    ensures Joined(services, side, p, q, inward, outward.(arrived := outward.arrived + [f]))
  {
    DeliverKeepsReceiving(p, q, outward, f);
  }

  lemma DeliverKeepsInv(services: Services, w: World, a: Action)
    requires Inv(services, w) && a.Deliver? && Enabled(services, w, a)
    ensures Inv(services, Act(services, w, a))
  {
    var p, q := PeerAt(w, a.side), PeerAt(w, Other(a.side));
    var inward, outward := PipeFrom(w, Other(a.side)), PipeFrom(w, a.side);
    TakeApart(services, w, a.side);
    DeliverStep(services, a.side, p, q, inward, outward, a.frame);
    Assemble(services, Act(services, w, a), a.side, p, q, inward, outward.(arrived := outward.arrived + [a.frame]));
  }

  lemma DrawKeepsSender(service: Service, p: Peer, p': Peer)
    requires SenderInv(service, p) && p.draws <= p'.draws <= p.base + TWO_31 && p' == p.(draws := p'.draws)
    ensures SenderInv(service, p')
  {
    forall s | s in p'.msgs ensures UsedId(p', s) { StaysUsed(p, p', s); }
    forall r | r in p'.calls ensures UsedId(p', r) { StaysUsed(p, p', r); }
    KeepsLedger(service, p, p');
  }

  lemma DrawStep(services: Services, side: IdSpace, p: Peer, p': Peer, q: Peer, inward: Pipe, outward: Pipe)
    requires Joined(services, side, p, q, inward, outward)
    requires p.draws <= p'.draws <= p.base + TWO_31 && p' == p.(draws := p'.draws)
    ensures Joined(services, side, p', q, inward, outward)
  {
    DrawKeepsSender(services(side), p, p');
    ReplyKeepsReceiving(p, p', q, inward);
    SameSender(p, p', q, outward);
  }

  lemma DrawKeepsInv(services: Services, w: World, a: Action)
    requires Inv(services, w) && a.DrawElsewhere? && Enabled(services, w, a)
    ensures Inv(services, Act(services, w, a))
  {
    var p, q := PeerAt(w, a.side), PeerAt(w, Other(a.side));
    var inward, outward := PipeFrom(w, Other(a.side)), PipeFrom(w, a.side);
    var p' := DrawMore(p, a.count);
    TakeApart(services, w, a.side);
    DrawStep(services, a.side, p, p', q, inward, outward);
    Assemble(services, Act(services, w, a), a.side, p', q, inward, outward);
  }

  /** The accounts of a peer do not change when only its inbox grows. */
  lemma KeepsLedger(service: Service, p: Peer, p': Peer)
    requires LedgerInv(service, p)
    requires p'.space == p.space && p'.msgs == p.msgs && p'.calls == p.calls && p'.answered == p.answered
    requires p.inbox <= p'.inbox
    ensures LedgerInv(service, p')
  {
    forall s | s in p'.msgs ensures Origin(p', s) { assert Origin(p, s); }
    forall r | r in p'.calls ensures CallSent(p', r) { assert CallSent(p, r); }
    forall i | i in p'.answered ensures AnswerSent(service, p', i) { assert AnswerSent(service, p, i); }
  }

  // ---------------------------------------------------------------- reading

  function Slice(pipe: Pipe, count: nat): Bytes.Data
    requires pipe.read + count <= |EncodeAll(pipe.arrived)|
  {
    EncodeAll(pipe.arrived)[pipe.read..pipe.read + count]
  }

  lemma StaysInTransit(q: Peer, pipe: Pipe, pipe': Pipe)
    requires Transit(q, pipe) && pipe'.arrived == pipe.arrived && pipe'.read <= |EncodeAll(pipe.arrived)|
    ensures Transit(q, pipe')
  {
  }

  lemma ReadKeepsReceiving(service: Service, p: Peer, p': Peer, q: Peer, pipe: Pipe, count: nat)
    requires SenderInv(service, q) && Receiving(p, q, pipe) && Serves(q, p)
    requires pipe.read + count <= |EncodeAll(pipe.arrived)| && p' == ReadBytes(p, Slice(pipe, count))
    ensures Receiving(p', q, pipe.(read := pipe.read + count))
  {
    var pipe' := pipe.(read := pipe.read + count);
    StaysInTransit(q, pipe, pipe');
    ReadKeepsStep(q.sent, q.msgs, pipe.arrived, pipe.read, count, p, Slice(pipe, count));
    ReadKeepsServing(service, p, p', q, pipe');
  }

  lemma ReadKeepsServing(service: Service, p: Peer, p': Peer, q: Peer, pipe: Pipe)
    requires SenderInv(service, q) && Serves(q, p) && Transit(q, pipe) && p'.calls == p.calls
    requires Viewing(p', HeardBy(pipe))
    ensures Serves(p', q)
  {
    forall e | e in p'.inbox
      ensures e.id in q.calls && e == EntryFor(e.id, q.calls[e.id])
    {
      var r := e.id;
      SelectMember(EntryId, p'.inbox, e, r);
      assert View(p', r, Select(RequestOf, HeardBy(pipe), r));
      HeardCall(service, p, q, pipe, r);
    }
  }

  lemma ReadKeepsSender(service: Service, p: Peer, bytes: Bytes.Data)
    requires SenderInv(service, p)
    ensures SenderInv(service, ReadBytes(p, bytes))
  {
    KeepsLedger(service, p, ReadBytes(p, bytes));
    KeepsIds(p, ReadBytes(p, bytes));
  }

  lemma SameSender(p: Peer, p': Peer, q: Peer, pipe: Pipe)
    requires Receiving(q, p, pipe) && p'.sent == p.sent && p'.msgs == p.msgs && p'.calls == p.calls
    ensures Receiving(q, p', pipe)
  {
  }

  lemma ReadStep(services: Services, side: IdSpace, p: Peer, p': Peer, q: Peer, inward: Pipe, outward: Pipe, count: nat)
    requires Joined(services, side, p, q, inward, outward) && inward.read + count <= |EncodeAll(inward.arrived)|
    requires p' == ReadBytes(p, Slice(inward, count))
    ensures Joined(services, side, p', q, inward.(read := inward.read + count), outward)
  {
    ReadKeepsReceiving(services(Other(side)), p, p', q, inward, count);
    ReadKeepsSender(services(side), p, Slice(inward, count));
    SameSender(p, p', q, outward);
  }

  lemma ReadJoined(services: Services, w: World, side: IdSpace, inward: Pipe, count: nat)
    requires Inv(services, w) && inward == PipeFrom(w, Other(side))
    requires inward.read + count <= |EncodeAll(inward.arrived)|
    ensures Joined(services, side, ReadBytes(PeerAt(w, side), Slice(inward, count)), PeerAt(w, Other(side)),
                   inward.(read := inward.read + count), PipeFrom(w, side))
  {
    var p, q, outward := PeerAt(w, side), PeerAt(w, Other(side)), PipeFrom(w, side);
    TakeApart(services, w, side);
    ReadStep(services, side, p, ReadBytes(p, Slice(inward, count)), q, inward, outward, count);
  }

  lemma ReadAtParts(w: World, side: IdSpace, inward: Pipe, count: nat, w': World, p: Peer)
    requires inward.read + count <= |EncodeAll(inward.arrived)|
    requires p == ReadBytes(PeerAt(w, side), Slice(inward, count)) && w' == ReadAt(w, side, inward, count)
    ensures PeerAt(w', side) == p && PeerAt(w', Other(side)) == PeerAt(w, Other(side))
    ensures PipeFrom(w', Other(side)) == inward.(read := inward.read + count) && PipeFrom(w', side) == PipeFrom(w, side)
  {
  }

  lemma ReadAtKeepsInv(services: Services, w: World, side: IdSpace, inward: Pipe, count: nat)
    requires Inv(services, w) && inward == PipeFrom(w, Other(side))
    requires inward.read + count <= |EncodeAll(inward.arrived)|
    ensures Inv(services, ReadAt(w, side, inward, count))
  {
    var p, w' := ReadBytes(PeerAt(w, side), Slice(inward, count)), ReadAt(w, side, inward, count);
    ReadJoined(services, w, side, inward, count);
    ReadAtParts(w, side, inward, count, w', p);
    Assemble(services, w', side, p, PeerAt(w, Other(side)), inward.(read := inward.read + count), PipeFrom(w, side));
  }

  lemma ReadKeepsInv(services: Services, w: World, a: Action)
    requires Inv(services, w) && a.Read? && Enabled(services, w, a)
    ensures Inv(services, Act(services, w, a))
  {
    ReadAtKeepsInv(services, w, a.side, PipeFrom(w, Other(a.side)), a.count);
  }

  lemma KeepsIds(p: Peer, p': Peer)
    requires IdsInv(p) && p'.space == p.space && p'.base == p.base && p'.draws == p.draws
    requires p'.nextRequest == p.nextRequest && p'.nextStream == p.nextStream && p'.msgs == p.msgs && p'.calls == p.calls
    ensures IdsInv(p')
  {
    forall s | s in p'.msgs ensures UsedId(p', s) { StaysUsed(p, p', s); }
    forall r | r in p'.calls ensures UsedId(p', r) { StaysUsed(p, p', r); }
  }

  // ---------------------------------------------------------------- runs

  lemma NothingReceived()
    ensures EncodeAll([]) == [] && Session.Received([], 0) == (Session.EMPTY, [], None)
  {
    var none: Bytes.Data := [];
    assert EncodeAll([])[..0] == none;
    FrameMux.ReadNothing(FrameMux.EMPTY);
  }

  lemma StartReceiving(p: Peer, q: Peer, side: IdSpace, base: nat, other: nat)
    requires p == Initial(side, base) && q == Initial(Other(side), other)
    ensures Receiving(p, q, Pipe([], 0))
  {
    NothingReceived();
    forall id: U32
      ensures InOrder.Own([], id) == []
    {
    }
  }

  lemma StartInv(services: Services, clientBase: nat, serverBase: nat)
    ensures Inv(services, Start(clientBase, serverBase))
  {
    var w := Start(clientBase, serverBase);
    StartReceiving(w.client, w.server, Client, clientBase, serverBase);
    StartReceiving(w.server, w.client, Server, serverBase, clientBase);
    Assemble(services, w, Client, w.client, w.server, w.down, w.up);
  }

  lemma ActKeepsInv(services: Services, w: World, a: Action)
    requires Inv(services, w) && Enabled(services, w, a)
    ensures Inv(services, Act(services, w, a))
  {
    match a
    case Call(_, _, _) => CallKeepsInv(services, w, a);
    case DrawElsewhere(_, _) => DrawKeepsInv(services, w, a);
    case Deliver(_, _) => DeliverKeepsInv(services, w, a);
    case Read(_, _) => ReadKeepsInv(services, w, a);
    case Reply(_, _) => ReplyKeepsInv(services, w, a);
  }

  ghost predicate Possible(services: Services, w: World, run: seq<Action>)
    decreases |run|, 0
  {
    run == [] ||
    (Possible(services, w, run[..|run| - 1]) && Enabled(services, After(services, w, run[..|run| - 1]), run[|run| - 1]))
  }

  ghost function After(services: Services, w: World, run: seq<Action>): World
    requires Possible(services, w, run)
    decreases |run|, 1
  {
    if run == [] then w else Act(services, After(services, w, run[..|run| - 1]), run[|run| - 1])
  }

  lemma {:induction false} RunKeepsInv(services: Services, clientBase: nat, serverBase: nat, run: seq<Action>)
    requires Possible(services, Start(clientBase, serverBase), run)
    ensures Inv(services, After(services, Start(clientBase, serverBase), run))
  {
    if run == [] {
      StartInv(services, clientBase, serverBase);
    } else {
      var n := |run| - 1;
      RunKeepsInv(services, clientBase, serverBase, run[..n]);
      ActKeepsInv(services, After(services, Start(clientBase, serverBase), run[..n]), run[n]);
    }
  }

  // ---------------------------------------------------------------- the end-to-end theorems

  lemma HandlersOwnCalls(p: Peer, heard: seq<RpcEvent>)
    requires Viewing(p, heard)
    ensures forall d | d in p.log :: OwnCall(p, d)
  {
    forall d | d in p.log
      ensures OwnCall(p, d)
    {
      if d.ToHandler? {
        assert View(p, d.requestId, Select(RequestOf, heard, d.requestId));
        OwnedDelivery(p, d, Select(RequestOf, heard, d.requestId));
      }
    }
  }

  /** The handler of a call has been called with exactly what was heard of the call. */
  lemma HandlerHears(p: Peer, heard: seq<RpcEvent>, r: U32)
    requires TablesInv(p) && Viewing(p, heard) && r in p.calls
    ensures HandlerCalls(Select(DeliveryToken, p.log, p.calls[r].token)) == Select(RequestOf, heard, r)
  {
    assert View(p, r, Select(RequestOf, heard, r));
    HandlersOwnCalls(p, heard);
    CallsByToken(p, p.log, r);
  }

  /** What a call can have come to at any moment: while its channel is open it holds only chunks
      that make up a prefix of the result, and nothing at all if the call fails; once it is closed,
      what is collected is exactly what the handler of the other side makes of the arguments. */
  ghost predicate Faithful(s: Receiver, expected: ChannelItem) {
    if s.isOpen then
      match expected
      case Ok(bytes) => Collected(s.items).Ok? && Collected(s.items).value <= bytes
      case Err(_) => s.items == []
    else Collected(s.items) == expected && (expected.Err? ==> s.items == [expected])
  }

  lemma PartlyAnswered(service: Service, id: U32, request: Request, cs: seq<Bytes.Data>)
    requires Flatten(cs) <= PayloadOf(Answer(service, id, request).payload)
    ensures var h := ReplyHeader(Answer(service, id, request));
            var s := Receive(LISTENING, Script(h, cs, false));
            s.isOpen && Faithful(s, Expected(service, request.methodId, ArgsOf(request)))
  {
    ReceivesScript(ReplyHeader(Answer(service, id, request)), cs);
    CollectsChunks(cs);
    AnswerCollectedStatus(service, id, request);
  }

  lemma AnswerCollectedStatus(service: Service, id: U32, request: Request)
    ensures var reply := Answer(service, id, request);
            var expected := Expected(service, request.methodId, ArgsOf(request));
            && (StatusIn(ReplyHeader(reply)) == Success <==> expected.Ok?)
            && (expected.Ok? ==> expected.value == PayloadOf(reply.payload))
  {
  }

  /** Any part of the answer to a call leaves the caller with a faithful result. */
  lemma AnswerFaithful(service: Service, e: Entry, events: seq<RpcEvent>)
    requires var m := ReplyMessage(service, e); Telling(m.header, m.payload, events)
    ensures Faithful(Receive(LISTENING, events), Expected(service, e.request.methodId, ArgsOf(e.request)))
    ensures Receive(LISTENING, events).isOpen <==> !HasEnded(events)
  {
    var m := ReplyMessage(service, e);
    var expected := Expected(service, e.request.methodId, ArgsOf(e.request));
    if events == [] {
      assert Collected([]) == Ok([]);
    } else {
      var cs, ended :| Told(m.header, m.payload, events, cs, ended);
      ScriptRequests(m.header, cs, ended);
      if ended {
        AnswerCollected(service, e.id, e.request, cs);
      } else {
        PartlyAnswered(service, e.id, e.request, cs);
      }
    }
  }

  lemma EntryArgs(r: U32, c: CallRecord)
    ensures EntryFor(r, c).request.methodId == c.methodId && ArgsOf(EntryFor(r, c).request) == c.args
  {
    ArgsArrive(r, c.methodId, c.args);
  }

  /** What has been heard of a call: nothing, or a part of the answer to it. */
  lemma HeardAnswer(service: Service, p: Peer, q: Peer, pipe: Pipe, r: U32)
    requires p.space == Other(q.space) && SenderInv(service, q) && Serves(q, p) && Transit(q, pipe)
    requires r in p.calls && CallSent(p, r)
    ensures var events := Select(RequestOf, HeardBy(pipe), r);
            var m := ReplyMessage(service, EntryFor(r, p.calls[r]));
            Telling(m.header, m.payload, events)
  {
    if s :| s in q.msgs && q.msgs[s].header.requestId == r {
      AnswersACall(service, p, q, s);
      HeardOfRequest(q.sent, q.msgs, pipe.arrived, pipe.read, s);
    } else {
      NothingHeard(q.sent, q.msgs, pipe.arrived, pipe.read, r);
    }
  }

  lemma SideSafety(service: Service, p: Peer, q: Peer, pipe: Pipe, r: U32)
    requires p.space == Other(q.space) && SenderInv(service, q) && Receiving(p, q, pipe) && Serves(q, p)
    requires r in p.calls && CallSent(p, r)
    ensures Faithful(ReceivedBy(p, r), Expected(service, p.calls[r].methodId, p.calls[r].args))
    ensures ReceivedBy(p, r).isOpen <==> !HasEnded(Select(RequestOf, HeardBy(pipe), r))
  {
    var events := Select(RequestOf, HeardBy(pipe), r);
    HandlerHears(p, HeardBy(pipe), r);
    HeardAnswer(service, p, q, pipe, r);
    EntryArgs(r, p.calls[r]);
    AnswerFaithful(service, EntryFor(r, p.calls[r]), events);
  }

  /** End-to-end safety: in every reachable state, whatever was interleaved, reordered and cut,
      every call of either side has come to a faithful result. */
  lemma CallsAreFaithful(services: Services, clientBase: nat, serverBase: nat, run: seq<Action>, side: IdSpace, r: U32)
    requires Possible(services, Start(clientBase, serverBase), run)
    requires r in PeerAt(After(services, Start(clientBase, serverBase), run), side).calls
    ensures var p := PeerAt(After(services, Start(clientBase, serverBase), run), side);
            Faithful(ReceivedBy(p, r), Expected(services(Other(side)), p.calls[r].methodId, p.calls[r].args))
  {
    RunKeepsInv(services, clientBase, serverBase, run);
    var w := After(services, Start(clientBase, serverBase), run);
    TakeApart(services, w, side);
    var p, q := PeerAt(w, side), PeerAt(w, Other(side));
    assert CallSent(p, r);
    SideSafety(services(Other(side)), p, q, PipeFrom(w, Other(side)), r);
  }

  /** Requests are handed out exactly as they were called, each at most once; a request never ends
      up with a response handler, nor a response in the queue; and a response reaches the handler
      that was registered for its call, which no other call shares. */
  lemma RequestsServedOnce(services: Services, clientBase: nat, serverBase: nat, run: seq<Action>, side: IdSpace, r: U32)
    requires Possible(services, Start(clientBase, serverBase), run)
    ensures var w := After(services, Start(clientBase, serverBase), run);
            var p, q := PeerAt(w, side), PeerAt(w, Other(side));
            && |Of(p.inbox, r)| <= 1
            && (forall e | e in p.inbox :: e.id in q.calls && e == EntryFor(e.id, q.calls[e.id]))
            && (if InHalf(side, r) then Of(p.queue, r) == [] && Of(p.inbox, r) == []
                else HandlerCalls(Select(DeliveryRequest, p.log, r)) == [])
            && TokensInv(p) && (forall d | d in p.log :: OwnCall(p, d))
  {
    RunKeepsInv(services, clientBase, serverBase, run);
    var w := After(services, Start(clientBase, serverBase), run);
    TakeApart(services, w, side);
    var p, q, pipe := PeerAt(w, side), PeerAt(w, Other(side)), PipeFrom(w, Other(side));
    InboxOnce(services(Other(side)), p, q, pipe, r);
    HandlersOwnCalls(p, HeardBy(pipe));
    assert View(p, r, Select(RequestOf, HeardBy(pipe), r));
    if InHalf(side, r) && r !in p.calls {
      NotHeardYet(services(Other(side)), p, q, pipe, r);
    }
    if !InHalf(side, r) {
      assert r in p.calls ==> CallSent(p, r);
    }
  }

  // ---------------------------------------------------------------- completion

  ghost predicate Drained(p: Peer, pipe: Pipe) {
    Session.AllDelivered(p.sent, pipe.arrived, pipe.read)
  }

  /** Everything sent has been delivered and read, and every request has been answered. */
  ghost predicate Settled(w: World, side: IdSpace) {
    && Drained(PeerAt(w, side), PipeFrom(w, side))
    && (forall i | 0 <= i < |PeerAt(w, side).inbox| :: i in PeerAt(w, side).answered)
  }

  lemma ToldHasEnded(h: RpcHeader, data: Bytes.Data, events: seq<RpcEvent>, cs: seq<Bytes.Data>)
    requires Told(h, data, events, cs, true)
    ensures HasEnded(events)
  {
  }

  /** A call whose frames have all been read is in the inbox of the other side. */
  lemma CallArrives(service: Service, p: Peer, q: Peer, outward: Pipe, r: U32)
    requires p.space == Other(q.space) && SenderInv(service, p) && Receiving(q, p, outward) && Drained(p, outward)
    requires r in p.calls && r !in q.calls
    ensures |Of(q.inbox, r)| > 0
  {
    assert CallSent(p, r);
    var s := p.calls[r].streamId;
    var m, events := p.msgs[s], Select(RequestOf, HeardBy(outward), r);
    HeardOfRequest(p.sent, p.msgs, outward.arrived, outward.read, s);
    var cs :| Told(m.header, m.payload, events, cs, true);
    ToldHasEnded(m.header, m.payload, events, cs);
    assert View(q, r, events);
    ScriptQueued(m.header, cs);
  }

  /** A request in the inbox that has been answered is heard to the end by its caller. */
  lemma AnswerArrives(service: Service, p: Peer, q: Peer, inward: Pipe, r: U32)
    requires SenderInv(service, q) && Transit(q, inward) && Drained(q, inward)
    requires |Of(q.inbox, r)| > 0 && forall i | 0 <= i < |q.inbox| :: i in q.answered
    ensures HasEnded(Select(RequestOf, HeardBy(inward), r))
  {
    var e := Of(q.inbox, r)[0];
    assert e in Of(q.inbox, r);
    SelectedFrom(EntryId, q.inbox, r);
    var i :| 0 <= i < |q.inbox| && q.inbox[i] == e;
    assert AnswerSent(service, q, i);
    ReplyIsAbout(service, e);
    var s := q.answered[i];
    var m, events := q.msgs[s], Select(RequestOf, HeardBy(inward), r);
    HeardOfRequest(q.sent, q.msgs, inward.arrived, inward.read, s);
    var cs :| Told(m.header, m.payload, events, cs, true);
    ToldHasEnded(m.header, m.payload, events, cs);
  }

  lemma SideCompletes(service: Service, other: Service, p: Peer, q: Peer, inward: Pipe, outward: Pipe, r: U32)
    requires p.space == Other(q.space) && SenderInv(service, p) && SenderInv(other, q)
    requires Receiving(p, q, inward) && Receiving(q, p, outward) && Drained(p, outward) && Drained(q, inward)
    requires (forall i | 0 <= i < |q.inbox| :: i in q.answered) && r in p.calls
    ensures !ReceivedBy(p, r).isOpen && r !in p.slots
  {
    HalvesApart(service, other, p, q, r);
    CallArrives(service, p, q, outward, r);
    AnswerArrives(other, p, q, inward, r);
    SideSafety(other, p, q, inward, r);
    EndedSlot(p, r, Select(RequestOf, HeardBy(inward), r));
  }

  lemma HalvesApart(service: Service, other: Service, p: Peer, q: Peer, r: U32)
    requires p.space == Other(q.space) && LedgerInv(service, p) && LedgerInv(other, q) && r in p.calls
    ensures CallSent(p, r) && r !in q.calls
  {
    assert CallSent(p, r);
    assert r in q.calls ==> CallSent(q, r);
  }

  lemma EndedSlot(p: Peer, r: U32, events: seq<RpcEvent>)
    requires View(p, r, events) && r in p.calls && HasEnded(events)
    ensures r !in p.slots
  {
  }

  /** Completion: once everything sent has been delivered and every request answered, every call
      has returned exactly what the other side's handler makes of its arguments, its handler is
      gone, and both sessions are back in their initial state. */
  lemma CallsComplete(services: Services, clientBase: nat, serverBase: nat, run: seq<Action>, side: IdSpace, r: U32)
    requires Possible(services, Start(clientBase, serverBase), run)
    requires var w := After(services, Start(clientBase, serverBase), run);
             Settled(w, Client) && Settled(w, Server) && r in PeerAt(w, side).calls
    ensures var p := PeerAt(After(services, Start(clientBase, serverBase), run), side);
            && !ReceivedBy(p, r).isOpen
            && Collected(ReceivedBy(p, r).items) == Expected(services(Other(side)), p.calls[r].methodId, p.calls[r].args)
            && r !in p.slots && p.session == Session.EMPTY
  {
    RunKeepsInv(services, clientBase, serverBase, run);
    var w := After(services, Start(clientBase, serverBase), run);
    TakeApart(services, w, side);
    assert Settled(w, side) && Settled(w, Other(side));
    var p, q := PeerAt(w, side), PeerAt(w, Other(side));
    var inward, outward := PipeFrom(w, Other(side)), PipeFrom(w, side);
    SideCompletes(services(side), services(Other(side)), p, q, inward, outward, r);
    CallsAreFaithful(services, clientBase, serverBase, run, side, r);
    Session.PipeQuiescent(q.sent, q.msgs, inward.arrived, inward.read);
  }
}
