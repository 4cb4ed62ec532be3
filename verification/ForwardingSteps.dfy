/** What each event answers, and whom. */
module ForwardingSteps {
  import opened Forwarding

  /** Every call but `n` is as it was. */
  ghost predicate OtherCallsStay(s: State, t: State, n: nat) {
    |t.answers| >= |s.answers| && forall m :: 0 <= m < |s.answers| && m != n ==> t.answers[m] == s.answers[m]
  }

  /** A forward with a link is outstanding to exactly that peer under its carried
      id; without one it is answered at once, as unreachable. */
  lemma ForwardDoes(s: State, t: State, to: InstanceId, requestId: RequestId, carried: RequestId)
    requires Next(s, Event.Forward(to, requestId, carried), t)
    ensures t.asked == s.asked + [requestId] && |t.answers| == |s.answers| + 1 && OtherCallsStay(s, t, |s.answers|)
    ensures to in s.endpointOf && s.endpointOf[to] in s.links ==>
      && t.forwarded == s.forwarded[carried := Waiting(s.endpointOf[to], requestId, |s.asked|)] && t.answers[|s.answers|] == []
    ensures !(to in s.endpointOf && s.endpointOf[to] in s.links) ==>
      t.forwarded == s.forwarded && t.answers[|s.answers|] == [Answer(requestId, Unreachable)]
    ensures t.links == s.links && t.linked == s.linked
  {
  }

  /** A reply on a link to something outstanding answers that call with what the
      peer said, under the id its caller used, and no other call. */
  lemma ReplyIsCarried(states: seq<State>, events: seq<Event>, i: nat, n: nat)
    requires Run(states, events) && i < |events| && events[i].PeerReply?
    requires events[i].conn in states[i].linked && events[i].carried in states[i].forwarded
    requires states[i].forwarded[events[i].carried].call == n
    ensures n < |states[i].asked| && n < |states[i + 1].answers|
    ensures states[i + 1].answers[n] == [Answer(states[i].asked[n], Reply(events[i].ok, events[i].body))]
    ensures states[i + 1].forwarded == states[i].forwarded - {events[i].carried} && OtherCallsStay(states[i], states[i + 1], n)
  {
    RunKeeps(states, events, i);
    assert Next(states[i], events[i], states[i + 1]);
  }

  /** A frame off any link, or for nothing outstanding, moves nothing. */
  lemma StrayReplyMovesNothing(s: State, e: Event, t: State)
    requires e.PeerReply? && Next(s, e, t) && !(e.conn in s.linked && e.carried in s.forwarded)
    ensures t == s
  {
  }

  /** Why a call is answered as unreachable: it was forwarded with no link, its own
      deadline passed, or the peer it waited on was dropped, forgotten or stopped. */
  ghost predicate Cause(s: State, e: Event, n: nat) {
    match e
    case Forward(to, _, _) => n == |s.answers| && !(to in s.endpointOf && s.endpointOf[to] in s.links)
    case Deadline(carried) => carried in s.forwarded && s.forwarded[carried].call == n
    case Drop(peer, conn) => peer in s.links && s.links[peer] == conn && WaitedOn(s, peer, n)
    case Forget(peer) => peer in s.links && WaitedOn(s, peer, n)
    case Stop => exists peer :: peer in s.links && WaitedOn(s, peer, n)
    case _ => false
  }

  ghost predicate WaitedOn(s: State, peer: Endpoint, n: nat) {
    exists c :: c in s.forwarded && s.forwarded[c].peer == peer && s.forwarded[c].call == n
  }

  lemma GaveUpAnswers(s: State, t: State, peers: set<Endpoint>, n: nat)
    requires Abandoned(s, t, peers) && n < |s.answers|
    ensures (forall peer :: peer in peers ==> !WaitedOn(s, peer, n)) ==> t.answers[n] == s.answers[n]
    ensures forall c :: c in s.forwarded && s.forwarded[c].peer in peers && s.forwarded[c].call == n ==>
      t.answers[n] == s.answers[n] + [Answer(s.forwarded[c].requestId, Unreachable)]
  {
    if n in CallsOf(s, WaitingOn(s, peers)) {
      var c :| c in WaitingOn(s, peers) && c in s.forwarded && s.forwarded[c].call == n;
      assert WaitedOn(s, s.forwarded[c].peer, n);
    }
  }

  /** And each of those does answer it so: every call waiting on a lost peer, and a
      call whose deadline passed. */
  lemma LossAnswers(s: State, e: Event, t: State, c: RequestId)
    requires Good(s) && Next(s, e, t) && c in s.forwarded && Cause(s, e, s.forwarded[c].call)
    ensures t.answers[s.forwarded[c].call] == [Answer(s.asked[s.forwarded[c].call], Unreachable)] && c !in t.forwarded
  {
    var n := s.forwarded[c].call;
    match e
    case Deadline(_) =>
    case Drop(peer, _) => GaveUpAnswers(Unlink(s, peer), t, {peer}, n);
    case Forget(peer) => GaveUpAnswers(Unlink(s, peer), t, {peer}, n);
    case Stop => GaveUpAnswers(s.(links := map[], linked := {}), t, s.links.Keys, n);
    case _ =>
  }

  /** Why a call has the outcome it has: a peer said so on a link, or one of those
      causes. */
  ghost predicate Why(s: State, e: Event, n: nat, outcome: Outcome) {
    match outcome
    case Unreachable => Cause(s, e, n)
    case Reply(ok, body) =>
      && e.PeerReply? && e.conn in s.linked && e.carried in s.forwarded && s.forwarded[e.carried].call == n
      && e.ok == ok && e.body == body
  }

  lemma LossStep(s: State, u: State, t: State, peers: set<Endpoint>, n: nat) returns (peer: Endpoint)
    requires u == s.(links := u.links, linked := u.linked) && Abandoned(u, t, peers)
    requires n < |s.answers| && s.answers[n] == [] && t.answers[n] != []
    ensures peer in peers && WaitedOn(s, peer, n) && t.answers[n][0].outcome == Unreachable
  {
    GaveUpAnswers(u, t, peers, n);
    peer :| peer in peers && WaitedOn(u, peer, n);
    var c :| c in s.forwarded && s.forwarded[c].peer == peer && s.forwarded[c].call == n;
  }

  lemma AnswerStep(s: State, e: Event, t: State, n: nat)
    requires Good(s) && Next(s, e, t) && n < |t.answers| && t.answers[n] != [] && (n < |s.answers| ==> s.answers[n] == [])
    ensures Why(s, e, n, t.answers[n][0].outcome)
  {
    match e
    case Drop(peer, conn) => var _ := LossStep(s, Unlink(s, peer), t, {peer}, n);
    case Forget(peer) => var _ := LossStep(s, Unlink(s, peer), t, {peer}, n);
    case Stop => var _ := LossStep(s, s.(links := map[], linked := {}), t, s.links.Keys, n);
    case _ => SettledStep(s, e, t, n);
  }

  lemma SettledStep(s: State, e: Event, t: State, n: nat)
    requires Next(s, e, t) && !e.Drop? && !e.Forget? && !e.Stop?
    requires n < |t.answers| && t.answers[n] != [] && (n < |s.answers| ==> s.answers[n] == [])
    ensures Why(s, e, n, t.answers[n][0].outcome)
  {
  }

  /** The answers of a run, traced back: every call that was answered was answered
      by a peer's own words on a link, or as unreachable for one of those causes. */
  lemma {:induction false} AnswerHasItsCause(states: seq<State>, events: seq<Event>, k: nat, n: nat)
    requires Run(states, events) && k < |states| && n < |states[k].answers| && states[k].answers[n] != []
    ensures exists i :: 0 <= i < k && Why(states[i], events[i], n, states[k].answers[n][0].outcome)
  {
    assert k > 0 && Next(states[k - 1], events[k - 1], states[k]);
    RunKeeps(states, events, k - 1);
    if n < |states[k - 1].answers| && states[k - 1].answers[n] != [] {
      AnswerHasItsCause(states, events, k - 1, n);
      SettledExactlyOnce(states, events, k - 1, n);
      AnswerIsFinal(states, events, k - 1, k, n);
    } else {
      AnswerStep(states[k - 1], events[k - 1], states[k], n);
    }
  }

  /** Of two connections to a peer the one `#hold` reports closed is not the one it
      keeps: a new one is kept exactly when there was none or the rule says so. */
  lemma HoldDoes(s: State, t: State, peer: Endpoint, conn: Conn, keepsNew: bool)
    requires Next(s, Event.Hold(peer, conn, keepsNew), t)
    ensures peer in t.links && forall p :: p != peer ==> (p in t.links <==> p in s.links) && (p in t.links ==> t.links[p] == s.links[p])
    ensures t.links[peer] == if peer !in s.links || keepsNew then conn else s.links[peer]
    ensures t.forwarded == s.forwarded && t.answers == s.answers && t.asked == s.asked
  {
  }

  /** A link goes only with its own connection. */
  lemma DropDoes(s: State, t: State, peer: Endpoint, conn: Conn)
    requires Next(s, Event.Drop(peer, conn), t)
    ensures !(peer in s.links && s.links[peer] == conn) ==> t == s
    ensures peer in s.links && s.links[peer] == conn ==> t.links == s.links - {peer} && t.linked == s.linked - {conn}
  {
  }
}
