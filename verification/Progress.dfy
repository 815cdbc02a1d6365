/** No run gets stuck: from every reachable state, as long as there are ids left for the answers,
    the connection can go on until every call has returned. */
module Progress {
  import opened Bytes
  import opened Sequences
  import opened FrameCodec
  import opened Ids
  import opened IdBits
  import opened Inbox
  import opened Service
  import opened Peer
  import opened Network
  import Session

  // ---------------------------------------------------------------- reaching a world

  ghost predicate ReachesBy(services: Services, w: World, run: seq<Action>, w': World) {
    Possible(services, w, run) && After(services, w, run) == w'
  }

  ghost predicate Reaches(services: Services, w: World, w': World) {
    exists run :: ReachesBy(services, w, run, w')
  }

  lemma Stay(services: Services, w: World)
    ensures Reaches(services, w, w)
  {
    assert ReachesBy(services, w, [], w);
  }

  lemma Take(services: Services, w: World, a: Action)
    requires Enabled(services, w, a)
    ensures Reaches(services, w, Act(services, w, a))
  {
    var none: seq<Action> := [];
    assert [a][..0] == none;
    assert Possible(services, w, none) && After(services, w, none) == w;
    assert ReachesBy(services, w, [a], Act(services, w, a));
  }

  lemma {:induction false} RunOn(services: Services, w: World, a: seq<Action>, b: seq<Action>)
    requires Possible(services, w, a) && Possible(services, After(services, w, a), b)
    ensures Possible(services, w, a + b) && After(services, w, a + b) == After(services, After(services, w, a), b)
  {
    if b == [] {
      assert a + b == a;
    } else {
      var n := |b| - 1;
      RunOn(services, w, a, b[..n]);
      FrontOfAppend(a, b);
    }
  }

  lemma Then(services: Services, w: World, w1: World, w2: World)
    requires Reaches(services, w, w1) && Reaches(services, w1, w2)
    ensures Reaches(services, w, w2)
  {
    var a :| ReachesBy(services, w, a, w1);
    var b :| ReachesBy(services, w1, b, w2);
    RunOn(services, w, a, b);
    assert ReachesBy(services, w, a + b, w2);
  }

  // ---------------------------------------------------------------- draining a pipe

  lemma MissingFrame(arrived: seq<Frame>, sent: seq<Frame>) returns (f: Frame)
    requires multiset(arrived) <= multiset(sent) && multiset(arrived) != multiset(sent)
    ensures multiset(arrived + [f]) <= multiset(sent) && |arrived| < |sent|
  {
    var missing := multiset(sent) - multiset(arrived);
    assert multiset(sent) == multiset(arrived) + missing;
    f :| f in missing;
    var more := multiset(arrived + [f]);
    assert multiset(sent) == more + (multiset(sent) - more);
    assert |multiset(sent)| == |more| + |multiset(sent) - more|;
  }

  lemma InvTransit(services: Services, w: World, side: IdSpace)
    requires Inv(services, w)
    ensures multiset(PipeFrom(w, side).arrived) <= multiset(PeerAt(w, side).sent)
    ensures PipeFrom(w, side).read <= |EncodeAll(PipeFrom(w, side).arrived)|
  {
    TakeApart(services, w, side);
  }

  /** Frames that have not come out of the transport yet can do so. */
  lemma {:induction false} DeliverAll(services: Services, w: World, side: IdSpace) returns (arrived: seq<Frame>)
    requires Inv(services, w)
    ensures multiset(arrived) == multiset(PeerAt(w, side).sent)
    ensures var w' := WithPipe(w, side, PipeFrom(w, side).(arrived := arrived));
            Reaches(services, w, w') && Inv(services, w')
    decreases |PeerAt(w, side).sent| - |PipeFrom(w, side).arrived|
  {
    var p, pipe := PeerAt(w, side), PipeFrom(w, side);
    InvTransit(services, w, side);
    if multiset(pipe.arrived) == multiset(p.sent) {
      arrived := pipe.arrived;
      Stay(services, w);
    } else {
      var f := MissingFrame(pipe.arrived, p.sent);
      var a := Action.Deliver(side, f);
      var w1 := Act(services, w, a);
      Take(services, w, a);
      DeliverKeepsInv(services, w, a);
      arrived := DeliverAll(services, w1, side);
      Then(services, w, w1, WithPipe(w1, side, PipeFrom(w1, side).(arrived := arrived)));
    }
  }

  /** What a peer keeps while it reads: everything but what it has heard. */
  ghost predicate Listened(p: Peer, p': Peer) {
    && p'.space == p.space && p'.base == p.base && p'.draws == p.draws
    && p'.calls == p.calls && p'.sent == p.sent && p'.answered == p.answered && p.inbox <= p'.inbox
  }

  lemma ReadingListens(p: Peer, bytes: Bytes.Data)
    ensures Listened(p, ReadBytes(p, bytes))
  {
  }

  /** Everything that has come out of the transport can be read. */
  lemma ReadRest(services: Services, w: World, side: IdSpace) returns (w': World)
    requires Inv(services, w)
    ensures Reaches(services, w, w') && Inv(services, w')
    ensures PeerAt(w', side) == PeerAt(w, side) && PipeFrom(w', Other(side)) == PipeFrom(w, Other(side))
    ensures var pipe := PipeFrom(w, side); PipeFrom(w', side) == pipe.(read := |EncodeAll(pipe.arrived)|)
    ensures Listened(PeerAt(w, Other(side)), PeerAt(w', Other(side)))
  {
    var pipe := PipeFrom(w, side);
    InvTransit(services, w, side);
    var count := |EncodeAll(pipe.arrived)| - pipe.read;
    Take(services, w, Action.Read(Other(side), count));
    ReadAtKeepsInv(services, w, Other(side), pipe, count);
    ReadingListens(PeerAt(w, Other(side)), Slice(pipe, count));
    w' := ReadAt(w, Other(side), pipe, count);
  }

  lemma Drain(services: Services, w: World, side: IdSpace) returns (w': World)
    requires Inv(services, w)
    ensures Reaches(services, w, w') && Inv(services, w') && Drained(PeerAt(w', side), PipeFrom(w', side))
    ensures PeerAt(w', side) == PeerAt(w, side) && PipeFrom(w', Other(side)) == PipeFrom(w, Other(side))
    ensures Listened(PeerAt(w, Other(side)), PeerAt(w', Other(side)))
  {
    var arrived := DeliverAll(services, w, side);
    var w1 := WithPipe(w, side, PipeFrom(w, side).(arrived := arrived));
    w' := ReadRest(services, w1, side);
    Then(services, w, w1, w');
  }

  /** Everything sent so far can be delivered and read. */
  lemma DrainBoth(services: Services, w: World) returns (w': World)
    requires Inv(services, w)
    ensures Reaches(services, w, w') && Inv(services, w') && Drained(w'.client, w'.up) && Drained(w'.server, w'.down)
    ensures Listened(w.client, w'.client) && Listened(w.server, w'.server)
  {
    var w1 := Drain(services, w, Client);
    w' := Drain(services, w1, Server);
    Then(services, w, w1, w');
  }

  // ---------------------------------------------------------------- answering

  function Unanswered(p: Peer): set<nat> {
    set i: nat | 0 <= i < |p.inbox| && i !in p.answered
  }

  /** Whatever stream it goes out on, the answer to a call stays below 2^32 frames. */
  predicate Fits(service: Service, e: Entry, s: U32) {
    |ReplyFrames(s, Answer(service, e.id, e.request))| < TWO_32
  }

  ghost predicate InboxFits(service: Service, p: Peer) {
    forall e, s: U32 | e in p.inbox :: Fits(service, e, s)
  }

  /** What stays the same when a peer answers. */
  ghost predicate Served(p: Peer, p': Peer) {
    p'.space == p.space && p'.base == p.base && p'.calls == p.calls && p'.inbox == p.inbox
  }

  lemma AnswerServes(p: Peer, service: Service, i: nat)
    requires i in Unanswered(p)
    ensures var p' := SendAnswer(p, service, i);
            Served(p, p') && Unanswered(p') == Unanswered(p) - {i} && p'.draws == p.draws + 1
  {
  }

  lemma Answering(services: Services, w: World, side: IdSpace, i: nat)
    requires Inv(services, w) && CanAnswer(PeerAt(w, side), services(side), i)
    ensures var w' := WithPeer(w, side, SendAnswer(PeerAt(w, side), services(side), i));
            Reaches(services, w, w') && Inv(services, w')
  {
    var a := Action.Reply(side, i);
    Take(services, w, a);
    ReplyKeepsInv(services, w, a);
  }

  lemma OneAnswer(services: Services, w: World, side: IdSpace, i: nat) returns (w': World)
    requires Inv(services, w) && i in Unanswered(PeerAt(w, side)) && InboxFits(services(side), PeerAt(w, side))
    requires PeerAt(w, side).draws < PeerAt(w, side).base + TWO_31
    ensures Reaches(services, w, w') && Inv(services, w')
    ensures w' == WithPeer(w, side, PeerAt(w', side)) && Served(PeerAt(w, side), PeerAt(w', side))
    ensures Unanswered(PeerAt(w', side)) == Unanswered(PeerAt(w, side)) - {i}
    ensures PeerAt(w', side).draws == PeerAt(w, side).draws + 1
  {
    var p, service := PeerAt(w, side), services(side);
    assert p.inbox[i] in p.inbox;
    assert Fits(service, p.inbox[i], NextStreamId(p));
    Answering(services, w, side, i);
    AnswerServes(p, service, i);
    w' := WithPeer(w, side, SendAnswer(p, service, i));
  }

  /** Every request in the inbox can be answered, if there are ids left. */
  lemma {:induction false} AnswerAll(services: Services, w: World, side: IdSpace) returns (w': World)
    requires Inv(services, w) && InboxFits(services(side), PeerAt(w, side))
    requires PeerAt(w, side).draws + |Unanswered(PeerAt(w, side))| <= PeerAt(w, side).base + TWO_31
    ensures Reaches(services, w, w') && Inv(services, w')
    ensures w' == WithPeer(w, side, PeerAt(w', side)) && Served(PeerAt(w, side), PeerAt(w', side))
    ensures Unanswered(PeerAt(w', side)) == {}
    decreases |Unanswered(PeerAt(w, side))|
  {
    var open := Unanswered(PeerAt(w, side));
    if open == {} {
      Stay(services, w);
      w' := w;
    } else {
      var i :| i in open;
      var w1 := OneAnswer(services, w, side, i);
      w' := AnswerAll(services, w1, side);
      Then(services, w, w1, w');
    }
  }

  // ---------------------------------------------------------------- how many answers there can be

  lemma {:induction false} DistinctWithin(open: set<nat>, q: seq<Entry>, ids: set<U32>)
    requires forall i | i in open :: i < |q| && q[i].id in ids
    requires forall i, j | i in open && j in open && i != j :: q[i].id != q[j].id
    ensures |open| <= |ids|
    decreases |open|
  {
    if open != {} {
      var i :| i in open;
      DistinctWithin(open - {i}, q, ids - {q[i].id});
    }
  }

  /** There are no more unanswered requests than calls of the other side. */
  lemma OpenWithin(p: Peer, q: Peer)
    requires InboxInv(p) && Serves(p, q)
    ensures |Unanswered(p)| <= |q.calls|
  {
    forall i | i in Unanswered(p)
      ensures i < |p.inbox| && p.inbox[i].id in q.calls.Keys
    {
      assert p.inbox[i] in p.inbox;
    }
    DistinctWithin(Unanswered(p), p.inbox, q.calls.Keys);
    assert |q.calls.Keys| == |q.calls|;
  }

  lemma UnansweredWithin(services: Services, w: World, side: IdSpace)
    requires Inv(services, w)
    ensures |Unanswered(PeerAt(w, side))| <= |PeerAt(w, Other(side)).calls|
  {
    var p, q := PeerAt(w, side), PeerAt(w, Other(side));
    TakeApart(services, w, side);
    InboxFacts(services(Other(side)), p, q, PipeFrom(w, Other(side)));
    OpenWithin(p, q);
  }

  /** Ids for an answer to each call of the other side, and answers that fit on a stream. */
  ghost predicate Room(services: Services, w: World, side: IdSpace) {
    var p, q := PeerAt(w, side), PeerAt(w, Other(side));
    && p.draws + |q.calls| <= p.base + TWO_31
    && (forall r, s: U32 | r in q.calls :: Fits(services(side), EntryFor(r, q.calls[r]), s))
  }

  lemma RoomInInbox(services: Services, w: World, side: IdSpace)
    requires Inv(services, w) && Room(services, w, side)
    ensures InboxFits(services(side), PeerAt(w, side))
    ensures PeerAt(w, side).draws + |Unanswered(PeerAt(w, side))| <= PeerAt(w, side).base + TWO_31
  {
    var p, q := PeerAt(w, side), PeerAt(w, Other(side));
    TakeApart(services, w, side);
    UnansweredWithin(services, w, side);
    forall e, s: U32 | e in p.inbox
      ensures Fits(services(side), e, s)
    {
      assert e == EntryFor(e.id, q.calls[e.id]);
    }
  }

  // ---------------------------------------------------------------- no more requests come

  /** Once every call of the other side has been heard, nothing more is handed out. */
  lemma AllHeard(services: Services, w: World, side: IdSpace, r: U32)
    requires Inv(services, w) && Drained(PeerAt(w, Other(side)), PipeFrom(w, Other(side)))
    requires r in PeerAt(w, Other(side)).calls
    ensures |Of(PeerAt(w, side).inbox, r)| > 0
  {
    var p, q := PeerAt(w, side), PeerAt(w, Other(side));
    TakeApart(services, w, side);
    HalvesApart(services(Other(side)), services(side), q, p, r);
    CallArrives(services(Other(side)), q, p, PipeFrom(w, Other(side)), r);
  }

  lemma AtMostOnce(services: Services, w: World, side: IdSpace, e: Entry)
    requires Inv(services, w) && e in PeerAt(w, side).inbox
    ensures e.id in PeerAt(w, Other(side)).calls && |Of(PeerAt(w, side).inbox, e.id)| <= 1
  {
    TakeApart(services, w, side);
    InboxOnce(services(Other(side)), PeerAt(w, side), PeerAt(w, Other(side)), PipeFrom(w, Other(side)), e.id);
  }

  lemma NoMoreRequests(services: Services, w: World, w': World, side: IdSpace)
    requires Inv(services, w) && Inv(services, w')
    requires Drained(PeerAt(w, Other(side)), PipeFrom(w, Other(side)))
    requires PeerAt(w', Other(side)).calls == PeerAt(w, Other(side)).calls
    requires PeerAt(w, side).inbox <= PeerAt(w', side).inbox
    ensures PeerAt(w', side).inbox == PeerAt(w, side).inbox
  {
    var before, now := PeerAt(w, side).inbox, PeerAt(w', side).inbox;
    if |before| < |now| {
      var e := now[|before|];
      assert e in now;
      AtMostOnce(services, w', side, e);
      AllHeard(services, w, side, e.id);
      OneMore(before, now);
    }
  }

  lemma OneMore(before: seq<Entry>, now: seq<Entry>)
    requires before < now && |Of(before, now[|before|].id)| > 0
    ensures |Of(now, now[|before|].id)| > 1
  {
    var e := now[|before|];
    OfSplit(now, |before|, e.id);
    SelectOne(EntryId, e, e.id);
    assert now[..|before|] == before;
  }

  // ---------------------------------------------------------------- settling

  /** A peer has answered everything that was in its inbox when the first pipe was drained. */
  lemma StaysAnswered(p: Peer, p': Peer)
    requires Unanswered(p) == {} && Listened(p, p') && p'.inbox == p.inbox
    ensures forall i | 0 <= i < |p'.inbox| :: i in p'.answered
  {
    forall i | 0 <= i < |p'.inbox|
      ensures i in p'.answered
    {
      assert i !in Unanswered(p);
    }
  }

  lemma AnswerBoth(services: Services, w: World) returns (w': World)
    requires Inv(services, w) && Room(services, w, Client) && Room(services, w, Server)
    ensures Reaches(services, w, w') && Inv(services, w')
    ensures Served(w.client, w'.client) && Served(w.server, w'.server)
    ensures Unanswered(w'.client) == {} && Unanswered(w'.server) == {}
  {
    RoomInInbox(services, w, Client);
    var w1 := AnswerAll(services, w, Client);
    RoomInInbox(services, w1, Server);
    w' := AnswerAll(services, w1, Server);
    Then(services, w, w1, w');
  }

  lemma RoomKept(services: Services, w: World, w': World, side: IdSpace)
    requires Room(services, w, side)
    requires Listened(PeerAt(w, side), PeerAt(w', side)) && Listened(PeerAt(w, Other(side)), PeerAt(w', Other(side)))
    ensures Room(services, w', side)
  {
  }

  /** Everything was drained, then everything answered, then everything drained again. */
  lemma SideSettles(services: Services, w1: World, w2: World, w3: World, side: IdSpace)
    requires Inv(services, w1) && Inv(services, w3) && Unanswered(PeerAt(w2, side)) == {}
    requires Drained(PeerAt(w1, Other(side)), PipeFrom(w1, Other(side))) && Drained(PeerAt(w3, side), PipeFrom(w3, side))
    requires Served(PeerAt(w1, side), PeerAt(w2, side)) && Listened(PeerAt(w2, side), PeerAt(w3, side))
    requires PeerAt(w3, Other(side)).calls == PeerAt(w1, Other(side)).calls
    ensures Settled(w3, side)
  {
    NoMoreRequests(services, w1, w3, side);
    StaysAnswered(PeerAt(w2, side), PeerAt(w3, side));
  }

  lemma Settle(services: Services, w: World) returns (w': World)
    requires Inv(services, w) && Room(services, w, Client) && Room(services, w, Server)
    ensures Reaches(services, w, w') && Settled(w', Client) && Settled(w', Server)
    ensures w'.client.calls == w.client.calls && w'.server.calls == w.server.calls
  {
    var w1 := DrainBoth(services, w);
    RoomKept(services, w, w1, Client);
    RoomKept(services, w, w1, Server);
    var w2 := AnswerBoth(services, w1);
    w' := DrainBoth(services, w2);
    Then(services, w, w1, w2);
    Then(services, w, w2, w');
    SideSettles(services, w1, w2, w', Client);
    SideSettles(services, w1, w2, w', Server);
  }

  /** Every call can complete: any run, however it has gone so far, can be continued without
      further calls to a state in which every call made has returned exactly what the handler of
      the other side makes of its arguments, and both sessions are back in their initial state. */
  lemma CallsCanComplete(services: Services, clientBase: nat, serverBase: nat, run: seq<Action>)
      returns (more: seq<Action>)
    requires Possible(services, Start(clientBase, serverBase), run)
    requires var w := After(services, Start(clientBase, serverBase), run);
             Room(services, w, Client) && Room(services, w, Server)
    ensures Possible(services, Start(clientBase, serverBase), run + more)
    ensures var w := After(services, Start(clientBase, serverBase), run);
            var w' := After(services, Start(clientBase, serverBase), run + more);
            && w'.client.calls == w.client.calls && w'.server.calls == w.server.calls
            && w'.client.session == Session.EMPTY && w'.server.session == Session.EMPTY
    ensures var w' := After(services, Start(clientBase, serverBase), run + more);
            forall side, r | r in PeerAt(w', side).calls :: Returned(services, w', side, r)
  {
    var w := After(services, Start(clientBase, serverBase), run);
    RunKeepsInv(services, clientBase, serverBase, run);
    var w' := Settle(services, w);
    more :| ReachesBy(services, w, more, w');
    RunOn(services, Start(clientBase, serverBase), run, more);
    forall side, r | r in PeerAt(w', side).calls
      ensures Returned(services, w', side, r)
    {
      CallsComplete(services, clientBase, serverBase, run + more, side, r);
    }
    RunKeepsInv(services, clientBase, serverBase, run + more);
    SettledSessions(services, w', Client);
    SettledSessions(services, w', Server);
  }

  ghost predicate Returned(services: Services, w: World, side: IdSpace, r: U32)
    requires r in PeerAt(w, side).calls
  {
    var p := PeerAt(w, side);
    && !ReceivedBy(p, r).isOpen && r !in p.slots
    && Collected(ReceivedBy(p, r).items) == Expected(services(Other(side)), p.calls[r].methodId, p.calls[r].args)
  }

  lemma SettledSessions(services: Services, w: World, side: IdSpace)
    requires Inv(services, w) && Settled(w, Other(side))
    ensures PeerAt(w, side).session == Session.EMPTY
  {
    TakeApart(services, w, side);
    var q, pipe := PeerAt(w, Other(side)), PipeFrom(w, Other(side));
    Session.PipeQuiescent(q.sent, q.msgs, pipe.arrived, pipe.read);
  }
}
