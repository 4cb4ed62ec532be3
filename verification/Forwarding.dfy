/** Requests one instance carries to its peers: each is answered exactly once,
    under the id its caller used, by a reply, a deadline or the loss of a link. */
module Forwarding {

  type Endpoint = string
  type InstanceId = string
  type RequestId = string
  type Conn = nat

  datatype Outcome = Reply(ok: bool, body: string) | Unreachable

  /** A `DispatchResult` as the caller's connection receives it. */
  datatype Answer = Answer(requestId: RequestId, outcome: Outcome)

  /** One entry of `#forwarded`; `call` is the promise it settles. */
  datatype Waiting = Waiting(peer: Endpoint, requestId: RequestId, call: nat)

  /** `asked[n]` is the id call `n` was made under and `answers[n]` everything
      its promise was resolved with; both are history. */
  datatype State = State(
    links: map<Endpoint, Conn>,
    linked: set<Conn>,
    endpointOf: map<InstanceId, Endpoint>,
    forwarded: map<RequestId, Waiting>,
    asked: seq<RequestId>,
    answers: seq<seq<Answer>>)

  datatype Event =
    | Forward(to: InstanceId, requestId: RequestId, carried: RequestId)
    | PeerReply(conn: Conn, carried: RequestId, ok: bool, body: string)
    | Deadline(carried: RequestId)
    | Hold(peer: Endpoint, conn: Conn, keepsNew: bool)
    | Drop(peer: Endpoint, conn: Conn)
    | Forget(peer: Endpoint)
    | Stop
    | Bind(id: InstanceId, endpoint: Endpoint)

  function DoForward(s: State, to: InstanceId, requestId: RequestId, carried: RequestId): State {
    if to !in s.endpointOf || s.endpointOf[to] !in s.links
    then s.(asked := s.asked + [requestId], answers := s.answers + [[Answer(requestId, Unreachable)]])
    else s.(forwarded := s.forwarded[carried := Waiting(s.endpointOf[to], requestId, |s.asked|)],
            asked := s.asked + [requestId], answers := s.answers + [[]])
  }

  /** Take an entry out and resolve its promise. */
  function Settle(s: State, carried: RequestId, outcome: Outcome): State
    requires carried in s.forwarded && s.forwarded[carried].call < |s.answers|
  {
    var w := s.forwarded[carried];
    s.(forwarded := s.forwarded - {carried},
       answers := s.answers[w.call := s.answers[w.call] + [Answer(w.requestId, outcome)]])
  }

  /** A peer's reply settles what it names, whichever link it came in on. */
  function DoReply(s: State, conn: Conn, carried: RequestId, ok: bool, body: string): State
    requires Calls(s)
  {
    if conn in s.linked && carried in s.forwarded then Settle(s, carried, Reply(ok, body)) else s
  }

  /** From `s` to `t` the entries in `gone` were answered that their peer cannot
      be reached, each once, and everything else is as it was. */
  ghost predicate GaveUp(s: State, t: State, gone: set<RequestId>) {
    && t == s.(forwarded := s.forwarded - gone, answers := t.answers) && |t.answers| == |s.answers|
    && (forall c :: c in gone && c in s.forwarded && s.forwarded[c].call < |s.answers| ==>
          t.answers[s.forwarded[c].call] == s.answers[s.forwarded[c].call] + [Answer(s.forwarded[c].requestId, Unreachable)])
    && (forall n :: 0 <= n < |s.answers| && n !in CallsOf(s, gone) ==> t.answers[n] == s.answers[n])
  }

  ghost function CallsOf(s: State, ids: set<RequestId>): set<nat> {
    set c | c in ids && c in s.forwarded :: s.forwarded[c].call
  }

  function WaitingOn(s: State, peers: set<Endpoint>): set<RequestId> {
    set c | c in s.forwarded && s.forwarded[c].peer in peers
  }

  /** What `#abandon` leaves, over some peers. */
  ghost predicate Abandoned(s: State, t: State, peers: set<Endpoint>) {
    GaveUp(s, t, WaitingOn(s, peers))
  }

  lemma GiveUpOneMore(s: State, t: State, gone: set<RequestId>, c: RequestId)
    requires GaveUp(s, t, gone) && c in t.forwarded && t.forwarded[c].call < |s.answers|
    requires forall d :: d in s.forwarded && s.forwarded[d].call == s.forwarded[c].call ==> c == d
    ensures GaveUp(s, Settle(t, c, Unreachable), gone + {c})
  {
    assert s.forwarded[c].call !in CallsOf(s, gone);
    assert CallsOf(s, gone + {c}) == CallsOf(s, gone) + {s.forwarded[c].call};
  }

  /** No two entries settle one call. */
  ghost predicate OwnCalls(s: State) {
    Calls(s) && forall c, d :: c in s.forwarded && d in s.forwarded && s.forwarded[c].call == s.forwarded[d].call ==> c == d
  }

  lemma GaveUpOwn(s: State, t: State, gone: set<RequestId>)
    requires GaveUp(s, t, gone) && OwnCalls(s)
    ensures OwnCalls(t)
  {
  }

  lemma CallsOfBoth(s: State, t: State, a: set<RequestId>, b: set<RequestId>)
    requires t.forwarded == s.forwarded - a && b <= t.forwarded.Keys
    ensures CallsOf(s, a + b) == CallsOf(s, a) + CallsOf(t, b)
  {
  }

  lemma GiveUpMore(s: State, t: State, u: State, a: set<RequestId>, b: set<RequestId>)
    requires GaveUp(s, t, a) && GaveUp(t, u, b) && b <= t.forwarded.Keys && OwnCalls(s)
    ensures GaveUp(s, u, a + b)
  {
    assert s.forwarded - (a + b) == s.forwarded - a - b;
    CallsOfBoth(s, t, a, b);
    forall c | c in a + b && c in s.forwarded
      ensures u.answers[s.forwarded[c].call] == s.answers[s.forwarded[c].call] + [Answer(s.forwarded[c].requestId, Unreachable)]
    {
      if c in b { assert s.forwarded[c].call !in CallsOf(s, a); } else { assert s.forwarded[c].call !in CallsOf(t, b); }
    }
  }

  /** `#hold`, with the glare rule's verdict given. */
  function DoHold(s: State, peer: Endpoint, conn: Conn, keepsNew: bool): State {
    if peer !in s.links then s.(links := s.links[peer := conn], linked := s.linked + {conn})
    else if s.links[peer] == conn || !keepsNew then s
    else s.(links := s.links[peer := conn], linked := s.linked - {s.links[peer]} + {conn})
  }

  function Unlink(s: State, peer: Endpoint): State
    requires peer in s.links
  {
    s.(links := s.links - {peer}, linked := s.linked - {s.links[peer]})
  }

  ghost predicate Next(s: State, e: Event, t: State) {
    match e
    case Forward(to, requestId, carried) => carried !in s.forwarded && t == DoForward(s, to, requestId, carried)
    case PeerReply(conn, carried, ok, body) => Calls(s) && t == DoReply(s, conn, carried, ok, body)
    case Deadline(carried) =>
      carried in s.forwarded && s.forwarded[carried].call < |s.answers| && t == Settle(s, carried, Unreachable)
    case Hold(peer, conn, keepsNew) =>
      // a connection is proven for one endpoint only
      (forall p :: p in s.links && s.links[p] == conn ==> p == peer) && t == DoHold(s, peer, conn, keepsNew)
    case Drop(peer, conn) =>
      if peer in s.links && s.links[peer] == conn then Abandoned(Unlink(s, peer), t, {peer}) else t == s
    case Forget(peer) => if peer in s.links then Abandoned(Unlink(s, peer), t, {peer}) else t == s
    case Stop => Abandoned(s.(links := map[], linked := {}), t, s.links.Keys)
    case Bind(id, endpoint) => t == s.(endpointOf := t.endpointOf)
  }

  ghost predicate Run(states: seq<State>, events: seq<Event>) {
    && |states| == |events| + 1 && states[0] == State(map[], {}, states[0].endpointOf, map[], [], [])
    && forall i :: 0 <= i < |events| ==> Next(states[i], events[i], states[i + 1])
  }

  // --- what every reachable state satisfies ---

  ghost predicate Calls(s: State) {
    && |s.asked| == |s.answers|
    && (forall c :: c in s.forwarded ==> s.forwarded[c].call < |s.answers|)
  }

  ghost predicate Outstanding(s: State, n: nat) {
    exists c :: c in s.forwarded && s.forwarded[c].call == n
  }

  ghost predicate WaitsOn(s: State, peer: Endpoint) {
    exists c :: c in s.forwarded && s.forwarded[c].peer == peer
  }

  ghost predicate Good(s: State) {
    && Calls(s)
    && (forall c :: c in s.forwarded ==>
          && s.forwarded[c].peer in s.links
          && s.forwarded[c].requestId == s.asked[s.forwarded[c].call]
          && s.answers[s.forwarded[c].call] == [])
    && OwnCalls(s)
    && (forall n :: 0 <= n < |s.answers| && !Outstanding(s, n) ==>
          |s.answers[n]| == 1 && s.answers[n][0].requestId == s.asked[n])
    && Linked(s)
  }

  /** `#linkOf` holds the connections of `#links`, one per peer. */
  ghost predicate Linked(s: State) {
    && s.linked == s.links.Values
    && (forall p, q :: p in s.links && q in s.links && s.links[p] == s.links[q] ==> p == q)
  }

  lemma RefusedKeeps(s: State, t: State, requestId: RequestId)
    requires Good(s)
    requires t == s.(asked := s.asked + [requestId], answers := s.answers + [[Answer(requestId, Unreachable)]])
    ensures Good(t)
  {
    OutstandingSame(s, t);
    assert forall n :: 0 <= n < |s.answers| ==> t.answers[n] == s.answers[n] && t.asked[n] == s.asked[n];
  }

  lemma CarriedOwn(s: State, t: State, carried: RequestId, w: Waiting)
    requires OwnCalls(s) && carried !in s.forwarded && w.call == |s.answers|
    requires t.forwarded == s.forwarded[carried := w] && |t.asked| == |t.answers| == |s.answers| + 1
    ensures OwnCalls(t)
    ensures forall n: nat :: Outstanding(t, n) <==> Outstanding(s, n) || n == |s.answers|
  {
    forall n: nat | Outstanding(s, n) ensures Outstanding(t, n) {
      var c :| c in s.forwarded && s.forwarded[c].call == n;
      assert c in t.forwarded && t.forwarded[c].call == n;
    }
    assert carried in t.forwarded && t.forwarded[carried].call == |s.answers|;
  }

  lemma CarriedKeeps(s: State, t: State, requestId: RequestId, carried: RequestId, peer: Endpoint)
    requires Good(s) && carried !in s.forwarded && peer in s.links
    requires t == s.(forwarded := s.forwarded[carried := Waiting(peer, requestId, |s.asked|)],
                     asked := s.asked + [requestId], answers := s.answers + [[]])
    ensures Good(t)
  {
    CarriedOwn(s, t, carried, t.forwarded[carried]);
    assert forall n :: 0 <= n < |s.answers| ==> t.answers[n] == s.answers[n] && t.asked[n] == s.asked[n];
  }

  lemma SettleKeeps(s: State, t: State, carried: RequestId, outcome: Outcome)
    requires Good(s) && carried in s.forwarded && t == Settle(s, carried, outcome)
    ensures Good(t)
  {
    forall n: nat | Outstanding(s, n) && n != s.forwarded[carried].call ensures Outstanding(t, n) {
      var c :| c in s.forwarded && s.forwarded[c].call == n;
      assert c in t.forwarded && t.forwarded[c].call == n;
    }
  }

  lemma HoldLinks(s: State, t: State, peer: Endpoint, conn: Conn, keepsNew: bool)
    requires Linked(s) && (forall p :: p in s.links && s.links[p] == conn ==> p == peer) && t == DoHold(s, peer, conn, keepsNew)
    ensures Linked(t)
  {
    forall c ensures c in t.linked <==> c in t.links.Values {
      if c in t.linked && t != s {
        if c == conn { assert peer in t.links && t.links[peer] == c; }
        else { var p :| p in s.links && s.links[p] == c; assert p in t.links && t.links[p] == c; }
      }
    }
  }

  lemma UnlinkLinks(s: State, peer: Endpoint)
    requires Linked(s) && peer in s.links
    ensures Linked(Unlink(s, peer))
  {
    var t := Unlink(s, peer);
    forall c | c in t.linked ensures c in t.links.Values {
      var p :| p in s.links && s.links[p] == c;
      assert p in t.links && t.links[p] == c;
    }
  }

  lemma HoldKeeps(s: State, t: State, peer: Endpoint, conn: Conn, keepsNew: bool)
    requires Good(s) && (forall p :: p in s.links && s.links[p] == conn ==> p == peer) && t == DoHold(s, peer, conn, keepsNew)
    ensures Good(t)
  {
    HoldLinks(s, t, peer, conn, keepsNew);
    HoldLeaves(s, t, peer, conn, keepsNew);
    LinkedMoreKeeps(s, t);
  }

  lemma HoldLeaves(s: State, t: State, peer: Endpoint, conn: Conn, keepsNew: bool)
    requires t == DoHold(s, peer, conn, keepsNew)
    ensures t == s.(links := t.links, linked := t.linked) && s.links.Keys <= t.links.Keys
  {
  }

  lemma LinkedMoreKeeps(s: State, t: State)
    requires Good(s) && t == s.(links := t.links, linked := t.linked) && s.links.Keys <= t.links.Keys && Linked(t)
    ensures Good(t)
  {
    OutstandingSame(s, t);
  }

  lemma OutstandingSame(s: State, t: State)
    requires t.forwarded == s.forwarded
    ensures forall n: nat :: Outstanding(s, n) <==> Outstanding(t, n)
  {
  }

  /** Losing some peers: what waited on them is answered and gone. */
  lemma AbandonKeeps(s: State, u: State, t: State, peers: set<Endpoint>)
    requires Good(s) && u == s.(links := u.links, linked := u.linked) && Linked(u) && u.links.Keys == s.links.Keys - peers
    requires Abandoned(u, t, peers)
    ensures Good(t)
  {
    var gone := WaitingOn(u, peers);
    forall n: nat | Outstanding(s, n) && n < |t.answers| && !Outstanding(t, n)
      ensures |t.answers[n]| == 1 && t.answers[n][0].requestId == t.asked[n]
    {
      var c :| c in s.forwarded && s.forwarded[c].call == n;
      assert c in gone || c in t.forwarded;
    }
    forall n: nat | n < |t.answers| && !Outstanding(s, n) ensures t.answers[n] == s.answers[n] {
      assert n !in CallsOf(u, gone);
    }
    forall c | c in t.forwarded ensures t.answers[t.forwarded[c].call] == [] {
      assert t.forwarded[c].call !in CallsOf(u, gone);
    }
  }

  lemma NextKeeps(s: State, e: Event, t: State)
    requires Good(s) && Next(s, e, t)
    ensures Good(t)
  {
    match e
    case Forward(to, requestId, carried) =>
      if to !in s.endpointOf || s.endpointOf[to] !in s.links { RefusedKeeps(s, t, requestId); }
      else { CarriedKeeps(s, t, requestId, carried, s.endpointOf[to]); }
    case PeerReply(conn, carried, ok, body) =>
      if conn in s.linked && carried in s.forwarded { SettleKeeps(s, t, carried, Reply(ok, body)); }
    case Deadline(carried) => SettleKeeps(s, t, carried, Unreachable);
    case Hold(peer, conn, keepsNew) => HoldKeeps(s, t, peer, conn, keepsNew);
    case Drop(peer, conn) =>
      if peer in s.links && s.links[peer] == conn {
        UnlinkLinks(s, peer);
        AbandonKeeps(s, Unlink(s, peer), t, {peer});
      }
    case Forget(peer) =>
      if peer in s.links {
        UnlinkLinks(s, peer);
        AbandonKeeps(s, Unlink(s, peer), t, {peer});
      }
    case Stop =>
      var u := s.(links := map[], linked := {});
      assert Linked(u);
      AbandonKeeps(s, u, t, s.links.Keys);
    case Bind(_, _) => OutstandingSame(s, t);
  }

  lemma {:induction false} RunKeeps(states: seq<State>, events: seq<Event>, i: nat)
    requires Run(states, events) && i < |states|
    ensures Good(states[i])
  {
    if i > 0 {
      RunKeeps(states, events, i - 1);
      NextKeeps(states[i - 1], events[i - 1], states[i]);
    }
  }

  // --- the promises ---

  /** Every call made by then is outstanding, under one carried id to a peer that
      has a link and with nothing answered, or was answered exactly once and under
      the id its caller used; never both. */
  lemma SettledExactlyOnce(states: seq<State>, events: seq<Event>, i: nat, n: nat)
    requires Run(states, events) && i < |states| && n < |states[i].asked|
    ensures var s := states[i];
      n < |s.answers|
      && if Outstanding(s, n) then
           s.answers[n] == [] && forall c :: c in s.forwarded && s.forwarded[c].call == n ==>
             s.forwarded[c].peer in s.links && s.forwarded[c].requestId == s.asked[n]
         else |s.answers[n]| == 1 && s.answers[n][0].requestId == s.asked[n]
  {
    RunKeeps(states, events, i);
  }

  lemma AnswersStep(s: State, e: Event, t: State, n: nat)
    requires Good(s) && Next(s, e, t) && n < |s.answers| && !Outstanding(s, n)
    ensures n < |t.answers| && t.answers[n] == s.answers[n] && !Outstanding(t, n)
    ensures |s.asked| <= |t.asked| && t.asked[n] == s.asked[n]
  {
    forall c | c in s.forwarded ensures s.forwarded[c].call != n {}
  }

  /** Once answered, a call is never outstanding again nor answered again. */
  lemma {:induction false} AnswerIsFinal(states: seq<State>, events: seq<Event>, i: nat, j: nat, n: nat)
    requires Run(states, events) && i <= j < |states| && n < |states[i].answers| && !Outstanding(states[i], n)
    ensures n < |states[j].answers| && states[j].answers[n] == states[i].answers[n] && !Outstanding(states[j], n)
  {
    if i < j {
      AnswerIsFinal(states, events, i, j - 1, n);
      RunKeeps(states, events, j - 1);
      AnswersStep(states[j - 1], events[j - 1], states[j], n);
    }
  }

  /** Nothing waits on a peer once its link was dropped or it was forgotten, and
      nothing waits at all once the mesh stopped. */
  lemma NothingWaitsOnTheLost(states: seq<State>, events: seq<Event>, i: nat)
    requires Run(states, events) && i < |events|
    ensures events[i].Forget? || (events[i].Drop? && events[i].peer in states[i].links
                                  && states[i].links[events[i].peer] == events[i].conn)
            ==> events[i].peer !in states[i + 1].links && !WaitsOn(states[i + 1], events[i].peer)
    ensures events[i].Stop? ==> states[i + 1].forwarded == map[] && states[i + 1].links == map[]
  {
    RunKeeps(states, events, i);
    RunKeeps(states, events, i + 1);
    assert Next(states[i], events[i], states[i + 1]);
  }
}
