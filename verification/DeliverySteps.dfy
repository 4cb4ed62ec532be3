/** What each stretch does to the lists, the lines and the history, message by
    message. */
module DeliverySteps {
  import opened InboxLog
  import opened InboxStore
  import opened Delivery
  import opened DeliveryProofs

  /** Nothing moved but what is named: the lists of the other sessions. */
  ghost predicate OthersStay(s: State, t: State, sid: Sid) {
    forall other :: other != sid ==> Of(t.store.held, other) == Of(s.store.held, other)
  }

  /** What neither the offers nor the history of a run see. */
  ghost predicate SameRun(s: State, t: State) {
    && t.handed == s.handed && t.gone == s.gone && t.answered == s.answered && t.failures == s.failures && t.loaded == s.loaded
  }

  // --- a send ---

  /** `send` mints the next id, for the session it was sent to, and no list moves. */
  lemma ArriveDoes(s: State, t: State, sid: Sid, now: int, text: string, limits: Limits)
    requires Next(s, Arrive(sid, now, text), t, limits)
    ensures t.counter == s.counter + 1 && t.store == s.store && SameRun(s, t)
    ensures t.sends == s.sends[Own(s.counter + 1) := Sending(sid, Message(Own(s.counter + 1), now, text))]
    ensures t.holds == s.holds && t.offers == s.offers && t.claimed == s.claimed && t.clock == now
  {
  }

  /** A published message is handed to its own session and waits nowhere. */
  lemma SendPublishedDoes(s: State, t: State, mid: Mid, limits: Limits)
    requires Next(s, SendPublished(mid), t, limits)
    ensures mid in s.sends && t.handed == s.handed + [Handing(s.sends[mid].sid, mid)] && t.gone == s.gone + {mid}
    ensures t.sends == s.sends - {mid} && t.store == s.store && t.offers == s.offers && t.claimed == s.claimed
    ensures t.holds == s.holds && t.answered == s.answered && t.counter == s.counter
  {
    assert HandingsOf(s.sends[mid].sid, [mid]) == [Handing(s.sends[mid].sid, mid)];
  }

  /** A message the direct route took is handed to its own session, which is then
      offered what is still held for it. */
  lemma SendCarriedDoes(s: State, t: State, mid: Mid, now: int, limits: Limits)
    requires Next(s, SendCarried(mid, now), t, limits)
    ensures mid in s.sends && t.handed == s.handed + [Handing(s.sends[mid].sid, mid)] && t.gone == s.gone + {mid}
    ensures Next(NoteHanded(s.(sends := s.sends - {mid}), s.sends[mid].sid, [mid]), OfferStarts(s.sends[mid].sid, now), t, limits)
    ensures t.sends == s.sends - {mid} && t.holds == s.holds && t.answered == s.answered && t.counter == s.counter
  {
    assert HandingsOf(s.sends[mid].sid, [mid]) == [Handing(s.sends[mid].sid, mid)];
  }

  lemma SendWaitsLists(s: State, t: State, mid: Mid, a: Sending, now: int, limits: Limits)
    requires Next(s, SendWaits(mid, now), t, limits) && a == s.sends[mid]
    ensures Of(t.store.held, a.sid) == Live(Of(s.store.held, a.sid), now, limits.retention) + [a.message]
    ensures OthersStay(s, t, a.sid)
  {
  }

  /** A message held joins the end of its session's list, less what has run out,
      with one add line at the end of the chain. */
  lemma SendWaitsDoes(s: State, t: State, mid: Mid, a: Sending, now: int, limits: Limits) returns (stay: seq<Message>)
    requires Next(s, SendWaits(mid, now), t, limits) && a == s.sends[mid]
    ensures Of(t.store.held, a.sid) == stay + [a.message] && OthersStay(s, t, a.sid)
    ensures Picks(stay, Of(s.store.held, a.sid), Free(Of(s.store.held, a.sid), now, limits.retention, {}))
    ensures t.store.pending == s.store.pending + [Add(a.sid, a.message)] && t.store.file == s.store.file
    ensures t.holds == s.holds[mid := a] && t.sends == s.sends - {mid}
    ensures t.offers == s.offers && t.claimed == s.claimed && SameRun(s, t)
  {
    stay := Live(Of(s.store.held, a.sid), now, limits.retention);
    LivePicked(Of(s.store.held, a.sid), now, limits.retention);
    SendWaitsLists(s, t, mid, a, now, limits);
  }

  lemma LivePicked(s: seq<Message>, now: int, retention: nat)
    ensures Picks(Live(s, now, retention), s, Free(s, now, retention, {}))
  {
    var at := FreePicked(s, now, retention, {});
    WithoutNone(Live(s, now, retention), {});
  }

  // --- a hold, once its line has landed ---

  /** A list within the cap is left alone; from a longer one exactly the oldest is
      dropped, with its line. */
  lemma HoldEndsDoes(s: State, t: State, mid: Mid, limits: Limits)
    requires Next(s, HoldEnds(mid), t, limits)
    ensures mid in s.holds && t.holds == s.holds - {mid} && t.answered == s.answered + {s.holds[mid]}
    ensures |Of(s.store.held, s.holds[mid].sid)| <= limits.perSid ==> t.store == s.store && t.gone == s.gone
    ensures |Of(s.store.held, s.holds[mid].sid)| > limits.perSid ==>
      && Of(t.store.held, s.holds[mid].sid) == Of(s.store.held, s.holds[mid].sid)[1..]
      && OthersStay(s, t, s.holds[mid].sid) && t.gone == s.gone + {Of(s.store.held, s.holds[mid].sid)[0].mid}
      && t.store.pending == s.store.pending + [Dropped(s.holds[mid].sid, Of(s.store.held, s.holds[mid].sid)[0].mid)]
    ensures t.handed == s.handed && t.offers == s.offers && t.claimed == s.claimed && t.sends == s.sends && t.clock == s.clock
    ensures t.store.file == s.store.file
  {
  }

  /** A line that could not be written leaves every list as it is. */
  lemma FailsDoes(s: State, t: State, limits: Limits)
    requires Next(s, Fails, t, limits)
    ensures s.store.pending != [] && t.store.pending == s.store.pending[1..] && t.store.lost
    ensures t.store.held == s.store.held && t.store.file == s.store.file && t.handed == s.handed && t.gone == s.gone
    ensures t.answered == s.answered && t.sends == s.sends && t.offers == s.offers && t.claimed == s.claimed
  {
  }

  /** A line that lands is the one asked for first, at the end of the file. */
  lemma LandsDoes(s: State, t: State, limits: Limits)
    requires Next(s, Lands, t, limits)
    ensures s.store.pending != [] && t.store.file == s.store.file + [Stated(s.store.pending[0])]
    ensures t.store.pending == s.store.pending[1..] && t.store.held == s.store.held && t.store.lost == s.store.lost
    ensures t.holds == s.holds && t.sends == s.sends && t.offers == s.offers && t.claimed == s.claimed && SameRun(s, t)
  {
  }

  /** Looking at a list takes out what has run out, and nothing else moves. */
  lemma LooksDoes(s: State, t: State, sid: Sid, now: int, limits: Limits)
    requires Next(s, Looks(sid, now), t, limits)
    ensures Picks(Of(t.store.held, sid), Of(s.store.held, sid), Free(Of(s.store.held, sid), now, limits.retention, {}))
    ensures OthersStay(s, t, sid) && t.store.file == s.store.file && t.store.pending == s.store.pending && SameRun(s, t)
    ensures t.sends == s.sends && t.holds == s.holds && t.offers == s.offers && t.claimed == s.claimed
  {
    LivePicked(Of(s.store.held, sid), now, limits.retention);
  }

  // --- an offer ---

  lemma OfferStartsLists(s: State, t: State, sid: Sid, now: int, limits: Limits)
    requires Next(s, OfferStarts(sid, now), t, limits) && sid !in s.offers
    ensures Of(t.store.held, sid) == Live(Of(s.store.held, sid), now, limits.retention)
    ensures OthersStay(s, t, sid) && t.store.file == s.store.file && t.store.pending == s.store.pending
  {
  }

  lemma OfferStartsClaims(s: State, t: State, sid: Sid, now: int, limits: Limits)
    requires Next(s, OfferStarts(sid, now), t, limits) && sid !in s.offers
    ensures Of(t.store.held, sid) == [] ==> t.offers == s.offers && t.claimed == s.claimed
    ensures Of(t.store.held, sid) != [] ==>
      && t.offers == s.offers[sid := Of(t.store.held, sid)]
      && t.claimed == s.claimed[sid := set m <- Of(t.store.held, sid) :: m.mid]
    ensures SameRun(s, t) && t.sends == s.sends && t.holds == s.holds
  {
  }

  /** An offer takes the whole of what is owed inside the window, oldest first, and
      claims exactly its ids; a second one for the session takes nothing. */
  lemma OfferStartsDoes(s: State, t: State, sid: Sid, now: int, limits: Limits)
    requires Next(s, OfferStarts(sid, now), t, limits)
    ensures sid in s.offers ==> t == s.(clock := now)
    ensures sid !in s.offers ==>
      && var held := Of(s.store.held, sid);
      && Picks(Of(t.store.held, sid), held, Free(held, now, limits.retention, {}))
    ensures sid !in s.offers && Of(t.store.held, sid) == [] ==> t.offers == s.offers && t.claimed == s.claimed
    ensures sid !in s.offers && Of(t.store.held, sid) != [] ==>
      && t.offers == s.offers[sid := Of(t.store.held, sid)]
      && t.claimed == s.claimed[sid := set m <- Of(t.store.held, sid) :: m.mid]
  {
    if sid !in s.offers {
      OfferStartsLists(s, t, sid, now, limits);
      OfferStartsClaims(s, t, sid, now, limits);
      LivePicked(Of(s.store.held, sid), now, limits.retention);
    }
  }

  /** Of the messages an offer has, the oldest goes: it is handed over, leaves the
      inbox and the claim, and nothing else does. */
  lemma OfferCarriedDoes(s: State, t: State, sid: Sid, limits: Limits)
    requires Next(s, OfferCarried(sid), t, limits)
    ensures sid in s.offers && s.offers[sid] != [] && sid in s.claimed
    ensures var m := s.offers[sid][0];
      && t.handed == s.handed + [Handing(sid, m.mid)] && t.gone == s.gone + {m.mid}
      && t.offers == s.offers[sid := s.offers[sid][1..]] && t.claimed == s.claimed[sid := s.claimed[sid] - {m.mid}]
    ensures var m := s.offers[sid][0];
      forall x :: x in Of(t.store.held, sid) <==> x in Of(s.store.held, sid) && x.mid != m.mid
    ensures OthersStay(s, t, sid) && t.sends == s.sends && t.holds == s.holds && t.answered == s.answered
    ensures t.store.file == s.store.file && t.clock == s.clock
  {
    var mid := s.offers[sid][0].mid;
    assert HandingsOf(sid, [mid]) == [Handing(sid, mid)];
    assert (set x <- [mid]) == {mid};
    HandLists(s.store, t.store, sid, [mid]);
  }

  lemma HandLists(s: Store, t: Store, sid: Sid, mids: seq<Mid>)
    requires t == Hand(s, sid, mids)
    ensures forall x :: x in Of(t.held, sid) <==> x in Of(s.held, sid) && x.mid !in mids
    ensures forall other :: other != sid ==> Of(t.held, other) == Of(s.held, other)
    ensures t.file == s.file
  {
    HandHolds(s, t, sid, mids);
  }

  lemma OfferStopsDoes(s: State, t: State, sid: Sid, limits: Limits)
    requires Next(s, OfferStops(sid), t, limits)
    ensures t.offers == s.offers - {sid} && t.claimed == s.claimed - {sid} && t.store == s.store && SameRun(s, t)
    ensures t.sends == s.sends && t.holds == s.holds && t.clock == s.clock
  {
  }

  // --- a snapshot ---

  /** What a snapshot hands over, in order: every message of the session inside the
      window that no offer has claimed. */
  lemma SubscribesHands(s: State, t: State, sid: Sid, now: int, limits: Limits) returns (list: seq<Message>)
    requires Next(s, Subscribes(sid, now), t, limits)
    ensures var held := Of(s.store.held, sid); Picks(list, held, Free(held, now, limits.retention, Claimed(s, sid)))
    ensures list == Without(Live(Of(s.store.held, sid), now, limits.retention), Claimed(s, sid))
    ensures t.handed == s.handed + HandingsOf(sid, Mids(list))
    ensures t.store.pending == s.store.pending + DeliveredLines(sid, Mids(list)) && t.store.file == s.store.file
  {
    var held := Of(s.store.held, sid);
    list := Without(Live(held, now, limits.retention), Claimed(s, sid));
    var at := FreePicked(held, now, limits.retention, Claimed(s, sid));
    var u := Looked(s.store, sid, now, limits);
    assert Of(u.held, sid) == Live(held, now, limits.retention);
  }

  lemma FreeHolds(held: seq<Message>, now: int, limits: Limits, claimed: set<Mid>, list: seq<Message>)
    requires list == Without(Live(held, now, limits.retention), claimed)
    ensures forall m :: m in list <==> m in held && now - m.sentAt <= limits.retention && m.mid !in claimed
    ensures forall m :: m in Live(held, now, limits.retention) <==> m in held && now - m.sentAt <= limits.retention
  {
    LiveHolds(held, now, limits.retention);
    WithoutHolds(Live(held, now, limits.retention), claimed);
  }

  lemma SubscribesLists(s: State, t: State, sid: Sid, now: int, limits: Limits, list: seq<Message>)
    requires Next(s, Subscribes(sid, now), t, limits)
    requires list == Without(Live(Of(s.store.held, sid), now, limits.retention), Claimed(s, sid))
    ensures forall m :: m in Of(t.store.held, sid) <==> m in Live(Of(s.store.held, sid), now, limits.retention) && m.mid !in Mids(list)
    ensures OthersStay(s, t, sid) && t.offers == s.offers && t.claimed == s.claimed && t.sends == s.sends && t.holds == s.holds
  {
    HandLists(Looked(s.store, sid, now, limits), t.store, sid, Mids(list));
  }

  /** Nothing it hands over stays. */
  lemma SubscribesTakes(s: State, t: State, sid: Sid, now: int, limits: Limits, list: seq<Message>)
    requires Next(s, Subscribes(sid, now), t, limits)
    requires list == Without(Live(Of(s.store.held, sid), now, limits.retention), Claimed(s, sid))
    ensures forall m :: m in list ==> m !in Of(t.store.held, sid)
  {
    SubscribesLists(s, t, sid, now, limits, list);
    MidsHold(list);
  }

  /** The same, of the list a snapshot computes. */
  lemma SnapshotDoes(s: State, t: State, sid: Sid, now: int, limits: Limits, list: seq<Message>)
    requires Next(s, Subscribes(sid, now), t, limits)
    requires list == Without(Of(Looked(s.store, sid, now, limits).held, sid), Claimed(s, sid))
    ensures var held := Of(s.store.held, sid); Picks(list, held, Free(held, now, limits.retention, Claimed(s, sid)))
    ensures t.handed == s.handed + HandingsOf(sid, Mids(list)) && forall m :: m in list ==> m !in Of(t.store.held, sid)
  {
    var given := SubscribesHands(s, t, sid, now, limits);
    SubscribesTakes(s, t, sid, now, limits, given);
  }

  lemma AllHanded(before: seq<Handing>, sid: Sid, list: seq<Message>)
    ensures forall m :: m in list ==> Handing(sid, m.mid) in before + HandingsOf(sid, Mids(list))
  {
    forall m | m in list ensures Handing(sid, m.mid) in before + HandingsOf(sid, Mids(list)) {
      var i :| 0 <= i < |list| && list[i] == m;
      assert (before + HandingsOf(sid, Mids(list)))[|before| + i] == Handing(sid, m.mid);
    }
  }

  /** What it leaves: of the session's messages inside the window exactly the ones
      an offer has claimed, every other one having been handed over. */
  lemma SubscribesDoes(s: State, t: State, sid: Sid, now: int, limits: Limits)
    requires Next(s, Subscribes(sid, now), t, limits)
    ensures forall m :: m in Of(t.store.held, sid)
                   <==> m in Of(s.store.held, sid) && now - m.sentAt <= limits.retention && m.mid in Claimed(s, sid)
    ensures forall m :: m in Of(s.store.held, sid) && now - m.sentAt <= limits.retention && m.mid !in Claimed(s, sid)
                   ==> Handing(sid, m.mid) in t.handed
    ensures OthersStay(s, t, sid) && t.offers == s.offers && t.claimed == s.claimed && t.sends == s.sends && t.holds == s.holds
  {
    var list := SubscribesHands(s, t, sid, now, limits);
    SubscribesLists(s, t, sid, now, limits, list);
    FreeHolds(Of(s.store.held, sid), now, limits, Claimed(s, sid), list);
    MidsHold(list);
    AllHanded(s.handed, sid, list);
  }

  // --- and so, over runs ---

  /** Why an id is gone: it was handed over, or it was the oldest of a list longer
      than the cap. */
  ghost predicate Cause(s: State, e: Event, t: State, mid: Mid, limits: Limits) {
    || (exists sid :: Handing(sid, mid) in t.handed)
    || (e.HoldEnds? && e.mid in s.holds && |Of(s.store.held, s.holds[e.mid].sid)| > limits.perSid
        && Of(s.store.held, s.holds[e.mid].sid)[0].mid == mid)
  }

  lemma NotedHandings(s: State, t: State, sid: Sid, mids: seq<Mid>, mid: Mid)
    requires t.gone == s.gone + (set x <- mids) && t.handed == s.handed + HandingsOf(sid, mids)
    requires mid in t.gone && mid !in s.gone
    ensures Handing(sid, mid) in t.handed
  {
    var i :| 0 <= i < |mids| && mids[i] == mid;
    assert t.handed[|s.handed| + i] == Handing(sid, mid);
  }

  lemma GoneStep(s: State, e: Event, t: State, mid: Mid, limits: Limits)
    requires Next(s, e, t, limits) && mid in t.gone && mid !in s.gone
    ensures Cause(s, e, t, mid, limits)
  {
    match e
    case SendCarried(x, _) => NotedHandings(s, t, s.sends[x].sid, [x], mid);
    case SendPublished(x) => NotedHandings(s, t, s.sends[x].sid, [x], mid);
    case OfferCarried(sid) => NotedHandings(s, t, sid, [s.offers[sid][0].mid], mid);
    case Subscribes(sid, now) =>
      var list := Without(Of(Looked(s.store, sid, now, limits).held, sid), Claimed(s, sid));
      NotedHandings(s, t, sid, Mids(list), mid);
    case HoldEnds(x) => HoldEndsDoes(s, t, x, limits);
    case _ =>
  }

  /** Nothing is dropped within the cap, in any run: whatever is gone was handed
      over in this process run or was, at some step of it, the oldest of a list
      longer than the cap. */
  lemma {:induction false} GoneOnlyForCause(states: seq<State>, events: seq<Event>, k: nat, mid: Mid, limits: Limits)
    requires Run(states, events, limits) && states[0] == Fresh0(states[0].clock) && k < |states| && mid in states[k].gone
    ensures exists j :: 0 <= j < k && Cause(states[j], events[j], states[j + 1], mid, limits)
  {
    assert k > 0 && Next(states[k - 1], events[k - 1], states[k], limits);
    if mid in states[k - 1].gone {
      GoneOnlyForCause(states, events, k - 1, mid, limits);
    } else {
      GoneStep(states[k - 1], events[k - 1], states[k], mid, limits);
      assert Cause(states[k - 1], events[k - 1], states[k - 1 + 1], mid, limits);
    }
  }
}
