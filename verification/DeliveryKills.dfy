/** What a kill can bring back: a message handed over from the inbox is offered
    again only while the line saying so has not landed. */
module DeliveryKills {
  import opened InboxLog
  import opened InboxStore
  import opened Delivery
  import opened DeliveryProofs
  import opened DeliveryTheorems

  /** The lines of the current file, landed and on their way. */
  function Owed(s: State): seq<Record> { Records(s.store.file) + s.store.pending }

  /** No line adds an id a line before it removed. */
  predicate AddsFirst(log: seq<Record>) {
    forall i, j :: 0 <= i < j < |log| && !log[i].Add? && log[j].Add? ==> log[i].mid != log[j].message.mid
  }

  predicate Removals(log: seq<Record>) {
    forall i :: 0 <= i < |log| ==> !log[i].Add?
  }

  lemma RemovalsAfter(log: seq<Record>, more: seq<Record>)
    requires AddsFirst(log) && Removals(more)
    ensures AddsFirst(log + more)
  {
    var all := log + more;
    assert forall k :: |log| <= k < |all| ==> all[k] == more[k - |log|];
  }

  lemma AddAfter(log: seq<Record>, sid: Sid, m: Message)
    requires AddsFirst(log) && forall x :: x in log && !x.Add? ==> x.mid != m.mid
    ensures AddsFirst(log + [Add(sid, m)])
  {
    var all := log + [Add(sid, m)];
    forall i, j | 0 <= i < j < |all| && !all[i].Add? && all[j].Add? ensures all[i].mid != all[j].message.mid {
      assert all[i] == log[i] && log[i] in log;
    }
  }

  lemma AddsFirstFails(s: State, t: State)
    requires AddsFirst(Owed(s)) && s.store.pending != [] && t == DoFails(s)
    ensures AddsFirst(Owed(t))
  {
    var n := |Records(s.store.file)|;
    assert forall i :: 0 <= i < |Owed(t)| ==> Owed(t)[i] == Owed(s)[if i < n then i else i + 1];
  }

  lemma OnlyAdds(log: seq<Record>)
    requires forall x :: x in log ==> x.Add?
    ensures AddsFirst(log)
  {
    assert forall i :: 0 <= i < |log| ==> log[i] in log;
  }

  lemma AddsFirstRestarts(s: State, t: State, now: int, torn: bool, order: seq<Sid>, limits: Limits)
    requires Restarted(s, t, now, torn, order, limits)
    ensures AddsFirst(Owed(t))
  {
    RestartsIds(s, t, now, torn, order, limits);
    OnlyAdds(t.store.asked);
    RestartsOwe(s, t, now, torn, order, limits);
  }

  lemma RestartsOwe(s: State, t: State, now: int, torn: bool, order: seq<Sid>, limits: Limits)
    requires Restarted(s, t, now, torn, order, limits)
    ensures Owed(t) == t.store.asked
  {
    RecordsOfLines(t.store.asked);
  }

  lemma AddsFirstWaits(s: State, t: State, mid: Mid, now: int, limits: Limits)
    requires AddsFirst(Owed(s)) && Ids(s) && FileKnown(s.store) && mid in s.sends && t == DoSendWaits(s, mid, now, limits)
    ensures AddsFirst(Owed(t))
  {
    var sending := s.sends[mid];
    AddAfter(Owed(s), sending.sid, sending.message);
    assert Owed(t) == Owed(s) + [Add(sending.sid, sending.message)];
  }

  lemma AddsFirstHoldEnds(s: State, t: State, mid: Mid, limits: Limits)
    requires AddsFirst(Owed(s)) && mid in s.holds && t == DoHoldEnds(s, mid, limits)
    ensures AddsFirst(Owed(t))
  {
    var sid := s.holds[mid].sid;
    if Evicts(s.store, sid, limits) {
      var line := [Dropped(sid, Of(s.store.held, sid)[0].mid)];
      RemovalsAfter(Owed(s), line);
      assert Owed(t) == Owed(s) + line;
    }
  }

  lemma AddsFirstHand(s: State, t: State, u: Store, sid: Sid, mids: seq<Mid>)
    requires AddsFirst(Owed(s)) && u.file == s.store.file && u.pending == s.store.pending && t.store == Hand(u, sid, mids)
    ensures AddsFirst(Owed(t))
  {
    if sid in u.held && mids != [] {
      RemovalsAfter(Owed(s), DeliveredLines(sid, mids));
      assert Owed(t) == Owed(s) + DeliveredLines(sid, mids);
    }
  }

  predicate AsksForNothing(e: Event) {
    e.Arrive? || e.SendCarried? || e.SendPublished? || e.SendThrows? || e.OfferStarts? || e.OfferStops? || e.Looks?
  }

  lemma OwedStays(s: State, e: Event, t: State, limits: Limits)
    requires Next(s, e, t, limits) && AsksForNothing(e)
    ensures Owed(t) == Owed(s)
  {
    assert t.store.file == s.store.file && t.store.pending == s.store.pending;
  }

  lemma AddsFirstKeeps(s: State, e: Event, t: State, limits: Limits)
    requires Ids(s) && FileKnown(s.store) && Next(s, e, t, limits) && AddsFirst(Owed(s))
    ensures AddsFirst(Owed(t))
  {
    if AsksForNothing(e) {
      OwedStays(s, e, t, limits);
    } else {
      match e
      case SendWaits(mid, now) => AddsFirstWaits(s, t, mid, now, limits);
      case HoldEnds(mid) => AddsFirstHoldEnds(s, t, mid, limits);
      case Lands => LandsFile(s.store);
      case Fails => AddsFirstFails(s, t);
      case OfferCarried(sid) => AddsFirstHand(s, t, s.store, sid, [s.offers[sid][0].mid]);
      case Subscribes(sid, now) =>
        var u := Looked(s.store, sid, now, limits);
        AddsFirstHand(s, t, u, sid, Mids(Without(Of(u.held, sid), Claimed(s, sid))));
      case Restarts(now, torn, order) => AddsFirstRestarts(s, t, now, torn, order, limits);
    }
  }

  lemma {:induction false} RunAddsFirst(states: seq<State>, events: seq<Event>, k: nat, limits: Limits)
    requires FromNothing(states, events, limits) && k < |states|
    ensures AddsFirst(Owed(states[k]))
  {
    if k > 0 {
      RunAddsFirst(states, events, k - 1, limits);
      RunKeeps(states, events, k - 1, limits);
      AddsFirstKeeps(states[k - 1], events[k - 1], states[k], limits);
    }
  }

  /** In a log whose adds come first, a message survives exactly when it was added
      and nothing removes it, before or after. */
  lemma SurvivesAnywhere(log: seq<Record>, more: seq<Record>, sid: Sid, m: Message)
    requires AddsFirst(log + more)
    ensures (exists i :: 0 <= i < |log| && Survives(log, i, sid) && log[i].message == m)
       <==> Add(sid, m) in log && forall x :: x in log ==> !Removes(x, sid, m.mid)
  {
    if i :| 0 <= i < |log| && Survives(log, i, sid) && log[i].message == m {
      forall x | x in log ensures !Removes(x, sid, m.mid) {
        var j :| 0 <= j < |log| && log[j] == x;
        assert (log + more)[j] == log[j] && (log + more)[i] == log[i];
      }
    }
    if Add(sid, m) in log && forall x :: x in log ==> !Removes(x, sid, m.mid) {
      var i :| 0 <= i < |log| && log[i] == Add(sid, m);
      assert Survives(log, i, sid);
    }
  }

  /** What a kill brings back, exactly, at any restart of any run: a message is
      held again if and only if it is inside the window, its add line landed and
      no removal line of it did, whatever the order they landed in. */
  lemma HeldAgainExactly(states: seq<State>, events: seq<Event>, r: nat, sid: Sid, m: Message, limits: Limits)
    requires FromNothing(states, events, limits) && r < |events| && events[r].Restarts?
    ensures m in Of(states[r + 1].store.held, sid)
       <==> events[r].now - m.sentAt <= limits.retention && Add(sid, m) in Records(states[r].store.file)
            && forall x :: x in Records(states[r].store.file) ==> !Removes(x, sid, m.mid)
  {
    var s, e := states[r], events[r];
    RunAddsFirst(states, events, r, limits);
    SurvivesAnywhere(Records(s.store.file), s.store.pending, sid, m);
    assert Next(states[r], events[r], states[r + 1], limits);
    KillLeaves(s, states[r + 1], e.now, e.torn, e.order, sid, m, limits);
  }

  // --- and so, of a message that was handed over ---

  lemma HandAsks(u: Store, sid: Sid, m: Message, mids: seq<Mid>)
    requires m in Of(u.held, sid) && m.mid in mids
    ensures Delivered(sid, m.mid) in Hand(u, sid, mids).asked
  {
    var i :| 0 <= i < |mids| && mids[i] == m.mid;
    assert DeliveredLines(sid, mids)[i] == Delivered(sid, m.mid);
    assert Hand(u, sid, mids).asked[|u.asked| + i] == Delivered(sid, m.mid);
  }

  lemma HandedNew(s: State, sid: Sid, mids: seq<Mid>, x: Sid, mid: Mid)
    requires Handing(x, mid) in s.handed + HandingsOf(sid, mids)
    ensures Handing(x, mid) in s.handed || (x == sid && mid in mids)
  {
    var all := s.handed + HandingsOf(sid, mids);
    var i :| 0 <= i < |all| && all[i] == Handing(x, mid);
    if i >= |s.handed| { assert all[i] == Handing(sid, mids[i - |s.handed|]); }
  }

  /** Nothing but an offer or a snapshot hands over a held message. */
  lemma OthersHandNothingHeld(s: State, e: Event, t: State, sid: Sid, m: Message, limits: Limits)
    requires Ids(s) && HeldKnown(s.store) && Next(s, e, t, limits) && m in Of(s.store.held, sid)
    requires !e.Restarts? && !e.OfferCarried? && !e.Subscribes? && Handing(sid, m.mid) !in s.handed
    ensures Handing(sid, m.mid) !in t.handed
  {
    if e.SendCarried? || e.SendPublished? {
      assert Add(sid, m) in s.store.asked && m.mid != e.mid;
      assert t.handed == s.handed + HandingsOf(s.sends[e.mid].sid, [e.mid]);
      if Handing(sid, m.mid) in t.handed { HandedNew(s, s.sends[e.mid].sid, [e.mid], sid, m.mid); }
    }
  }

  lemma OfferAsks(s: State, t: State, x: Sid, sid: Sid, m: Message)
    requires x in s.offers && s.offers[x] != [] && x in s.claimed && t == DoOfferCarried(s, x) && m in Of(s.store.held, sid)
    requires Handing(sid, m.mid) !in s.handed && Handing(sid, m.mid) in t.handed
    ensures Delivered(sid, m.mid) in t.store.asked
  {
    var mids := [s.offers[x][0].mid];
    HandedNew(s, x, mids, sid, m.mid);
    HandAsks(s.store, sid, m, mids);
  }

  /** A held message that is handed over leaves with a line asked for. */
  lemma HandingAsks(s: State, e: Event, t: State, sid: Sid, m: Message, limits: Limits)
    requires Ids(s) && Once(s) && HeldKnown(s.store) && Next(s, e, t, limits) && !e.Restarts?
    requires m in Of(s.store.held, sid) && Handing(sid, m.mid) in t.handed
    ensures Delivered(sid, m.mid) in t.store.asked
  {
    assert forall h :: h in s.handed ==> h.mid in HandedMids(s);
    if e.OfferCarried? {
      OfferAsks(s, t, e.sid, sid, m);
    } else if e.Subscribes? {
      SubscribesAsks(s, t, e.sid, e.now, sid, m, limits);
    } else {
      OthersHandNothingHeld(s, e, t, sid, m, limits);
    }
  }

  lemma SubscribesAsks(s: State, t: State, x: Sid, now: int, sid: Sid, m: Message, limits: Limits)
    requires HeldKnown(s.store) && t == DoSubscribes(s, x, now, limits) && m in Of(s.store.held, sid)
    requires Handing(sid, m.mid) !in s.handed && Handing(sid, m.mid) in t.handed
    ensures Delivered(sid, m.mid) in t.store.asked
  {
    var u := Looked(s.store, x, now, limits);
    var list := Without(Of(u.held, x), Claimed(s, x));
    HandedNew(s, x, Mids(list), sid, m.mid);
    MidsHold(list);
    WithoutHolds(Of(u.held, x), Claimed(s, x));
    LookedHolds(s.store, u, x, now, limits);
    var k :| k in list && k.mid == m.mid;
    HandAsks(u, sid, k, Mids(list));
  }

  lemma AskedStep(s: State, e: Event, t: State, limits: Limits)
    requires Next(s, e, t, limits) && !e.Restarts?
    ensures s.store.asked <= t.store.asked
  {
  }

  lemma {:induction false} AskedGrows(states: seq<State>, events: seq<Event>, i: nat, k: nat, limits: Limits)
    requires Run(states, events, limits) && i <= k < |states| && forall j :: i <= j < k ==> !events[j].Restarts?
    ensures states[i].store.asked <= states[k].store.asked
  {
    if i < k {
      AskedGrows(states, events, i, k - 1, limits);
      AskedStep(states[k - 1], events[k - 1], states[k], limits);
    }
  }

  /** At most once, across kills: a message an offer or a snapshot took out of the
      inbox is there again after the kill only if the line that says so had not
      landed; where no line ever failed, it was still on its way. */
  lemma HandedAgainOnlyIfUnlanded(states: seq<State>, events: seq<Event>, i: nat, r: nat, sid: Sid, m: Message, limits: Limits)
    requires FromNothing(states, events, limits) && i < r < |events| && events[r].Restarts?
    requires forall j :: i <= j < r ==> !events[j].Restarts?
    requires m in Of(states[i].store.held, sid) && Handing(sid, m.mid) in states[i + 1].handed
    ensures Delivered(sid, m.mid) in states[r].store.asked
    ensures m in Of(states[r + 1].store.held, sid) ==> Delivered(sid, m.mid) !in Records(states[r].store.file)
    ensures m in Of(states[r + 1].store.held, sid) && !states[r].store.lost ==> Delivered(sid, m.mid) in states[r].store.pending
  {
    RunKeeps(states, events, i, limits);
    RunKeeps(states, events, r, limits);
    HandingAsks(states[i], events[i], states[i + 1], sid, m, limits);
    AskedGrows(states, events, i + 1, r, limits);
    HeldAgainExactly(states, events, r, sid, m, limits);
    assert Removes(Delivered(sid, m.mid), sid, m.mid);
  }
}
