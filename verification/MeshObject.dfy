/** The link and forwarding half of `Mesh` as the object the source keeps. Each
    method is one stretch between two awaits and performs one event of
    `Forwarding`. */
module MeshObject {
  import opened Forwarding
  import Glare

  class Mesh {
    const self: Endpoint
    var links: map<Endpoint, Conn>
    var linked: set<Conn>
    var endpointOf: map<InstanceId, Endpoint>
    var forwarded: map<RequestId, Waiting>
    ghost var asked: seq<RequestId>
    var answers: seq<seq<Answer>>   // one list per promise made by `forward`

    ghost function Value(): State
      reads this
    {
      State(links, linked, endpointOf, forwarded, asked, answers)
    }

    ghost predicate Valid()
      reads this
    {
      Good(Value())
    }

    constructor (self: Endpoint)
      ensures Valid() && this.self == self && Value() == State(map[], {}, map[], map[], [], [])
    {
      this.self := self;
      links, linked, endpointOf, forwarded := map[], {}, map[], map[];
      asked, answers := [], [];
    }

    /** `forward` up to its await; `carried` is drawn at random. */
    method Forward(to: InstanceId, requestId: RequestId, carried: RequestId) returns (call: nat)
      requires Valid() && carried !in forwarded
      modifies this
      ensures Valid() && Next(old(Value()), Event.Forward(to, requestId, carried), Value())
      ensures call == |old(answers)| && |answers| == call + 1
      ensures if to in endpointOf && endpointOf[to] in links
              then forwarded == old(forwarded)[carried := Waiting(endpointOf[to], requestId, call)] && answers[call] == []
              else forwarded == old(forwarded) && answers[call] == [Answer(requestId, Unreachable)]
    {
      ghost var before := Value();
      call := |answers|;
      if to !in endpointOf || endpointOf[to] !in links {
        answers := answers + [[Answer(requestId, Unreachable)]];
      } else {
        forwarded := forwarded[carried := Waiting(endpointOf[to], requestId, call)];
        answers := answers + [[]];
      }
      asked := asked + [requestId];
      NextKeeps(before, Event.Forward(to, requestId, carried), Value());
    }

    method Resolve(carried: RequestId, outcome: Outcome)
      requires Calls(Value()) && carried in forwarded
      modifies this`forwarded, this`answers
      ensures Value() == Settle(old(Value()), carried, outcome)
    {
      var w := forwarded[carried];
      forwarded := forwarded - {carried};
      answers := answers[w.call := answers[w.call] + [Answer(w.requestId, outcome)]];
    }

    /** `#peerFrame` for a reply. */
    method PeerFrame(conn: Conn, carried: RequestId, ok: bool, body: string) returns (took: bool)
      requires Valid()
      modifies this
      ensures Valid() && Next(old(Value()), PeerReply(conn, carried, ok, body), Value())
      ensures took == (conn in old(linked) && carried in old(forwarded))
      ensures took ==>
        && var w := old(forwarded)[carried];
        && forwarded == old(forwarded) - {carried} && |answers| == |old(answers)| && w.call < |answers|
        && answers == old(answers)[w.call := [Answer(w.requestId, Reply(ok, body))]]
    {
      ghost var before := Value();
      took := conn in linked && carried in forwarded;
      if took {
        ghost var w := forwarded[carried];
        assert answers[w.call] == [];
        Resolve(carried, Reply(ok, body));
        assert [] + [Answer(w.requestId, Reply(ok, body))] == [Answer(w.requestId, Reply(ok, body))];
      }
      NextKeeps(before, PeerReply(conn, carried, ok, body), Value());
    }

    /** The deadline of a forwarded request, cleared when it settles. */
    method DeadlineFires(carried: RequestId)
      requires Valid() && carried in forwarded
      modifies this
      ensures Valid() && Next(old(Value()), Deadline(carried), Value())
    {
      ghost var before := Value();
      Resolve(carried, Unreachable);
      NextKeeps(before, Deadline(carried), Value());
    }

    /** `#hold` of a proven connection. */
    method Hold(peer: Endpoint, conn: Conn, dialledByUs: bool) returns (closed: set<Conn>)
      requires Valid() && forall p :: p in links && links[p] == conn ==> p == peer
      modifies this
      ensures Valid() && Next(old(Value()), Event.Hold(peer, conn, Glare.KeepsNew(self, peer, dialledByUs)), Value())
      ensures closed == if peer !in old(links) || old(links)[peer] == conn then {}
                        else if Glare.KeepsNew(self, peer, dialledByUs) then {old(links)[peer]} else {conn}
      ensures peer in links && links[peer] !in closed
      ensures links == old(links)[peer := if peer in old(links) && !Glare.KeepsNew(self, peer, dialledByUs) then old(links)[peer] else conn]
    {
      ghost var before := Value();
      closed := {};
      if peer in links {
        if links[peer] == conn { return; }
        if !Glare.KeepsNew(self, peer, dialledByUs) { return {conn}; }
        closed := {links[peer]};
        linked := linked - {links[peer]};
        links := links - {peer};
      }
      linked := linked + {conn};
      links := links[peer := conn];
      NextKeeps(before, Event.Hold(peer, conn, Glare.KeepsNew(self, peer, dialledByUs)), Value());
    }

    /** `#abandon`. */
    method Abandon(peer: Endpoint)
      requires OwnCalls(Value())
      modifies this`forwarded, this`answers
      ensures Abandoned(old(Value()), Value(), {peer})
    {
      ghost var before, gone := Value(), {};
      var left := forwarded.Keys;
      while left != {}
        invariant left <= before.forwarded.Keys && GaveUp(before, Value(), gone)
        invariant gone == WaitingOn(before, {peer}) - left
        decreases left
      {
        var c :| c in left;
        AbandonStep(before, Value(), {peer}, left, gone, c);
        if forwarded[c].peer == peer {
          Resolve(c, Unreachable);
          gone := gone + {c};
        }
        left := left - {c};
      }
      assert gone == WaitingOn(before, {peer});
    }

    /** `#drop`, as a link's connection closes. */
    method Drop(peer: Endpoint, conn: Conn)
      requires Valid()
      modifies this
      ensures Valid() && Next(old(Value()), Event.Drop(peer, conn), Value())
    {
      ghost var before := Value();
      if peer in links && links[peer] == conn {
        links, linked := links - {peer}, linked - {conn};
        Abandon(peer);
      }
      NextKeeps(before, Event.Drop(peer, conn), Value());
    }

    /** `forget`. */
    method Forget(peer: Endpoint) returns (cut: bool)
      requires Valid()
      modifies this
      ensures Valid() && Next(old(Value()), Event.Forget(peer), Value()) && cut == (peer in old(links))
    {
      ghost var before := Value();
      cut := peer in links;
      if cut { Drop(peer, links[peer]); }
      NextKeeps(before, Event.Forget(peer), Value());
    }

    method AbandonLinked()
      requires Valid()
      modifies this`forwarded, this`answers
      ensures GaveUp(old(Value()), Value(), WaitingOn(old(Value()), links.Keys))
    {
      ghost var before := Value();
      var left := links.Keys;
      assert WaitingOn(before, {}) == {} && before.forwarded - {} == before.forwarded;
      while left != {}
        invariant left <= links.Keys && GaveUp(before, Value(), WaitingOn(before, links.Keys - left))
        decreases left
      {
        var peer :| peer in left;
        ghost var mid := Value();
        GaveUpOwn(before, mid, WaitingOn(before, links.Keys - left));
        Abandon(peer);
        AbandonOneMore(before, mid, Value(), links.Keys, left, peer);
        left := left - {peer};
      }
      assert links.Keys - left == links.Keys;
    }

    /** `stop`: whatever waits on any linked peer is answered, then the links go. */
    method Stop()
      requires Valid()
      modifies this
      ensures Valid() && Next(old(Value()), Event.Stop, Value()) && forwarded == map[]
    {
      ghost var before := Value();
      AbandonLinked();
      links, linked := map[], {};
      GaveUpUnlinked(before, Value());
      NextKeeps(before, Event.Stop, Value());
    }
  }

  /** One more of the linked peers is abandoned. */
  lemma AbandonOneMore(s: State, t: State, u: State, peers: set<Endpoint>, left: set<Endpoint>, peer: Endpoint)
    requires OwnCalls(s) && peer in left && left <= peers
    requires GaveUp(s, t, WaitingOn(s, peers - left)) && GaveUp(t, u, WaitingOn(t, {peer}))
    ensures GaveUp(s, u, WaitingOn(s, peers - (left - {peer})))
  {
    var done, more := WaitingOn(s, peers - left), WaitingOn(t, {peer});
    GiveUpMore(s, t, u, done, more);
    assert done + more == WaitingOn(s, peers - (left - {peer}));
  }

  lemma AbandonStep(s: State, t: State, peers: set<Endpoint>, left: set<RequestId>, gone: set<RequestId>, c: RequestId)
    requires OwnCalls(s) && GaveUp(s, t, gone) && c in left && left <= s.forwarded.Keys && gone == WaitingOn(s, peers) - left
    ensures Calls(t) && c in t.forwarded && t.forwarded[c] == s.forwarded[c]
    ensures s.forwarded[c].peer in peers ==>
      && gone + {c} == WaitingOn(s, peers) - (left - {c})
      && GaveUp(s, Settle(t, c, Unreachable), gone + {c})
    ensures s.forwarded[c].peer !in peers ==> gone == WaitingOn(s, peers) - (left - {c})
  {
    GaveUpOwn(s, t, gone);
    GiveUpOneMore(s, t, gone, c);
  }

  lemma GaveUpUnlinked(s: State, t: State)
    requires GaveUp(s, t.(links := s.links, linked := s.linked), WaitingOn(s, s.links.Keys))
    requires t.links == map[] && t.linked == {}
    ensures Abandoned(s.(links := map[], linked := {}), t, s.links.Keys)
  {
    var u := s.(links := map[], linked := {});
    assert WaitingOn(u, s.links.Keys) == WaitingOn(s, s.links.Keys);
    assert CallsOf(u, WaitingOn(u, s.links.Keys)) == CallsOf(s, WaitingOn(s, s.links.Keys));
  }
}
