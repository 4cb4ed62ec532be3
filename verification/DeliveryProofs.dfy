/** Every event keeps `Good`, and what that says of every run. */
module DeliveryProofs {
  import opened InboxLog
  import opened InboxStore
  import opened Delivery

  // --- what each stretch of the store changes, in terms of membership ---

  lemma LookedHolds(s: Store, t: Store, sid: Sid, now: int, limits: Limits)
    requires t == Looked(s, sid, now, limits)
    ensures t.asked == s.asked && t.file == s.file
    ensures forall other :: |Of(t.held, other)| <= |Of(s.held, other)|
    ensures forall other, m :: m in Of(t.held, other) ==> m in Of(s.held, other)
    ensures forall other, m :: m in Of(s.held, other) && InboxLog.Fresh(m, now, limits.retention) ==> m in Of(t.held, other)
  {
    LiveHolds(Of(s.held, sid), now, limits.retention);
  }

  lemma HandHolds(s: Store, t: Store, sid: Sid, mids: seq<Mid>)
    requires t == Hand(s, sid, mids)
    ensures t.file == s.file
    ensures forall other :: |Of(t.held, other)| <= |Of(s.held, other)|
    ensures forall other, m :: m in Of(t.held, other) ==> m in Of(s.held, other)
    ensures forall m :: m in Of(t.held, sid) ==> m.mid !in mids
    ensures forall other, m :: m in Of(s.held, other) && !(other == sid && m.mid in mids) ==> m in Of(t.held, other)
    ensures forall x :: x in s.asked ==> x in t.asked
    ensures forall x :: x in t.asked && x !in s.asked ==> !x.Add? && x.sid == sid && x.mid in mids
  {
    if sid in s.held && mids != [] {
      var gone := set mid <- mids;
      WithoutHolds(s.held[sid], gone);
      assert Of(t.held, sid) == Without(s.held[sid], gone);
      assert forall other :: other != sid ==> Of(t.held, other) == Of(s.held, other);
      assert t.asked == s.asked + DeliveredLines(sid, mids);
    }
  }

  lemma HoldBeginsHolds(s: Store, t: Store, sid: Sid, m: Message, now: int, limits: Limits)
    requires t == HoldBegins(s, sid, m, now, limits)
    ensures t.file == s.file && m in Of(t.held, sid) && t.asked == s.asked + [Add(sid, m)]
    ensures forall other :: |Of(t.held, other)| <= |Of(s.held, other)| + (if other == sid then 1 else 0)
    ensures forall other, x :: x in Of(t.held, other) ==> x in Of(s.held, other) || (other == sid && x == m)
    ensures forall other, x :: x in Of(s.held, other) && InboxLog.Fresh(x, now, limits.retention) ==> x in Of(t.held, other)
  {
    var u := Looked(s, sid, now, limits);
    LookedHolds(s, u, sid, now, limits);
    assert Of(t.held, sid) == Of(u.held, sid) + [m];
    assert forall other :: other != sid ==> Of(t.held, other) == Of(u.held, other);
  }

  lemma EvictionHolds(s: Store, t: Store, sid: Sid, limits: Limits)
    requires DistinctMids(Of(s.held, sid)) && Evicts(s, sid, limits) && t == HoldResumes(s, sid, limits)
    ensures t.file == s.file && t.asked == s.asked + [Dropped(sid, Of(s.held, sid)[0].mid)]
    ensures forall other :: |Of(t.held, other)| == |Of(s.held, other)| - (if other == sid then 1 else 0)
    ensures forall other, x :: x in Of(t.held, other) ==> x in Of(s.held, other)
    ensures forall other, x :: x in Of(s.held, other) && !(other == sid && x.mid == Of(s.held, sid)[0].mid) ==> x in Of(t.held, other)
  {
    var standing := Of(s.held, sid);
    assert Of(t.held, sid) == standing[1..];
    assert forall other :: other != sid ==> Of(t.held, other) == Of(s.held, other);
    ShiftIsWithout(standing);
    WithoutHolds(standing, {standing[0].mid});
  }

  lemma NotedMids(s: State, sid: Sid, mids: seq<Mid>)
    ensures HandedMids(NoteHanded(s, sid, mids)) == HandedMids(s) + set mid <- mids
  {
    var t := NoteHanded(s, sid, mids);
    forall mid <- mids ensures mid in HandedMids(t) {
      var i :| 0 <= i < |mids| && mids[i] == mid;
      assert t.handed[|s.handed| + i] == Handing(sid, mid);
      assert Handing(sid, mid) in t.handed;
    }
    forall mid | mid in HandedMids(s) ensures mid in HandedMids(t) {
      var h :| h in s.handed && h.mid == mid;
      assert h in t.handed;
    }
  }

  // --- the events that only take messages out ---

  /** From `s` to `t` nothing is minted or held; `mids` of `sid` are handed over. */
  ghost predicate Quiet(s: State, t: State, sid: Sid, mids: seq<Mid>, limits: Limits) {
    && s.clock <= t.clock && t.counter == s.counter
    && (forall mid :: mid in t.sends ==> mid in s.sends && t.sends[mid] == s.sends[mid])
    && t.holds == s.holds && t.answered == s.answered && t.failures == s.failures && t.loaded == s.loaded
    && t.handed == s.handed + HandingsOf(sid, mids) && t.gone == s.gone + (set mid <- mids)
    && t.store.file == s.store.file
    && (forall other :: |Of(t.store.held, other)| <= |Of(s.store.held, other)|)
    && (forall other, m :: m in Of(t.store.held, other) ==> m in Of(s.store.held, other))
    && (forall other, m :: m in Of(s.store.held, other) && !(other == sid && m.mid in mids)
          ==> m in Of(t.store.held, other) || !InboxLog.Fresh(m, t.clock, limits.retention))
    && (forall x :: x in s.store.asked ==> x in t.store.asked)
    && (forall x :: x in t.store.asked && x !in s.store.asked ==> !x.Add? && x.sid == sid && x.mid in mids)
  }

  ghost predicate Issued(s: State, mids: seq<Mid>) {
    forall mid :: mid in mids && mid.Own? ==> mid.counter <= s.counter
  }

  lemma QuietIds(s: State, t: State, sid: Sid, mids: seq<Mid>, limits: Limits)
    requires Ids(s) && Quiet(s, t, sid, mids, limits) && Issued(s, mids)
    requires forall mid :: mid in t.sends ==> mid !in mids
    ensures Ids(t)
  {
    NotedMids(s, sid, mids);
    assert HandedMids(t) == HandedMids(NoteHanded(s, sid, mids));
  }

  lemma DurableFrom(s: State, t: State, limits: Limits)
    requires Durable(s, limits) && s.clock <= t.clock && s.gone <= t.gone
    requires forall a :: Waiting(s, a, limits) ==> Waiting(t, a, limits)
    requires forall mid :: mid in t.holds ==> mid in s.holds && t.holds[mid] == s.holds[mid]
    requires forall x :: x in s.store.asked ==> x in t.store.asked
    requires forall x :: x in Records(s.store.file) ==> x in Records(t.store.file)
    requires forall a :: a in t.answered ==>
      a in s.answered || (Waiting(s, a, limits) && Add(a.sid, a.message) in Records(s.store.file))
    ensures Durable(t, limits)
  {
    assert forall m :: InboxLog.Fresh(m, t.clock, limits.retention) ==> InboxLog.Fresh(m, s.clock, limits.retention);
  }

  lemma QuietDurable(s: State, t: State, sid: Sid, mids: seq<Mid>, limits: Limits)
    requires Durable(s, limits) && Quiet(s, t, sid, mids, limits)
    ensures Durable(t, limits)
  {
    forall a | Waiting(s, a, limits) ensures Waiting(t, a, limits) {
      if a.message.mid !in t.gone && InboxLog.Fresh(a.message, t.clock, limits.retention) {
        assert a.message.mid !in mids;
      }
    }
    DurableFrom(s, t, limits);
  }

  lemma QuietCapped(s: State, t: State, sid: Sid, mids: seq<Mid>, limits: Limits)
    requires Capped(s, limits) && Quiet(s, t, sid, mids, limits)
    ensures Capped(t, limits)
  {
    forall other ensures |Of(t.store.held, other)| <= Room(t, other, limits) {
      assert |Of(s.store.held, other)| <= Room(s, other, limits);
    }
  }

  /** None of `mids` is waiting anywhere in `t`. */
  ghost predicate NowhereIn(t: State, mids: seq<Mid>) {
    && (forall other, m :: m in Of(t.store.held, other) ==> m.mid !in mids)
    && (forall other, m :: other in t.offers && m in t.offers[other] ==> m.mid !in mids)
    && (forall mid :: mid in t.sends ==> mid !in mids)
  }

  ghost predicate OffersFrom(s: State, t: State) {
    forall sid, m :: sid in t.offers && m in t.offers[sid]
      ==> (sid in s.offers && m in s.offers[sid]) || m in Of(s.store.held, sid)
  }

  lemma QuietOnce(s: State, t: State, sid: Sid, mids: seq<Mid>, limits: Limits)
    requires Once(s) && Quiet(s, t, sid, mids, limits) && OffersFrom(s, t) && NowhereIn(t, mids)
    requires forall i, j :: 0 <= i < j < |mids| ==> mids[i] != mids[j]
    requires forall mid :: mid in mids ==> mid !in HandedMids(s)
    ensures Once(t)
  {
    NotedMids(s, sid, mids);
    assert HandedMids(t) == HandedMids(NoteHanded(s, sid, mids));
    HandedApart(s.handed, sid, mids);
  }

  lemma HandedApart(handed: seq<Handing>, sid: Sid, mids: seq<Mid>)
    requires forall i, j :: 0 <= i < j < |handed| ==> handed[i].mid != handed[j].mid
    requires forall i, j :: 0 <= i < j < |mids| ==> mids[i] != mids[j]
    requires forall h :: h in handed ==> h.mid !in mids
    ensures var after := handed + HandingsOf(sid, mids);
      forall i, j :: 0 <= i < j < |after| ==> after[i].mid != after[j].mid
  {
    var n, after := |handed|, handed + HandingsOf(sid, mids);
    forall i, j | 0 <= i < j < |after| ensures after[i].mid != after[j].mid {
      if n <= j {
        assert after[j].mid == mids[j - n] && mids[j - n] in mids;
        if i < n { assert handed[i] in handed; } else { assert after[i].mid == mids[i - n]; }
      }
    }
  }

  /** The pieces of `Good` other than the store's and the claims'. */
  lemma QuietKeeps(s: State, t: State, sid: Sid, mids: seq<Mid>, limits: Limits)
    requires Good(s, limits) && Quiet(s, t, sid, mids, limits) && Issued(s, mids)
    requires OffersFrom(s, t) && NowhereIn(t, mids)
    requires forall i, j :: 0 <= i < j < |mids| ==> mids[i] != mids[j]
    requires forall mid :: mid in mids ==> mid !in HandedMids(s)
    ensures Ids(t) && Once(t) && Durable(t, limits) && Capped(t, limits)
  {
    QuietIds(s, t, sid, mids, limits);
    QuietOnce(s, t, sid, mids, limits);
    QuietDurable(s, t, sid, mids, limits);
    QuietCapped(s, t, sid, mids, limits);
  }

  // --- one lemma per stretch ---

  lemma LooksQuiet(s: State, sid: Sid, now: int, limits: Limits)
    requires s.clock <= now
    ensures Quiet(s, s.(clock := now, store := Looked(s.store, sid, now, limits)), sid, [], limits)
  {
    var t := Looked(s.store, sid, now, limits);
    LookedHolds(s.store, t, sid, now, limits);
  }

  lemma LooksKeeps(s: State, sid: Sid, now: int, limits: Limits)
    requires Good(s, limits) && s.clock <= now
    ensures Good(s.(clock := now, store := Looked(s.store, sid, now, limits)), limits)
  {
    LookedKeeps(s.store, sid, s.clock, now, limits);
    LooksQuiet(s, sid, now, limits);
    QuietKeeps(s, s.(clock := now, store := Looked(s.store, sid, now, limits)), sid, [], limits);
  }

  lemma TickKeeps(s: State, now: int, limits: Limits)
    requires Good(s, limits) && s.clock <= now
    ensures Good(s.(clock := now), limits)
  {
    RefinesLater(s.store, s.clock, now, limits);
    QuietKeeps(s, s.(clock := now), "", [], limits);
  }

  lemma ClaimClaims(s: State, t: State, sid: Sid)
    requires Claims(s) && HeldKnown(s.store) && t.store == s.store
    requires t.offers == s.offers[sid := Of(s.store.held, sid)]
    requires t.claimed == s.claimed[sid := MidsOf(Of(s.store.held, sid))]
    ensures Claims(t) && OffersFrom(s, t)
  {
  }

  lemma ClaimKeeps(s: State, sid: Sid, limits: Limits)
    requires Good(s, limits) && sid !in s.offers
    ensures var owed := Of(s.store.held, sid);
      Good(s.(offers := s.offers[sid := owed], claimed := s.claimed[sid := MidsOf(owed)]), limits)
  {
    var owed := Of(s.store.held, sid);
    var t := s.(offers := s.offers[sid := owed], claimed := s.claimed[sid := MidsOf(owed)]);
    ClaimClaims(s, t, sid);
    QuietKeeps(s, t, sid, [], limits);
  }

  lemma OfferStartsKeeps(s: State, sid: Sid, now: int, limits: Limits)
    requires Good(s, limits) && s.clock <= now
    ensures Good(DoOfferStarts(s, sid, now, limits), limits)
  {
    if sid in s.offers {
      TickKeeps(s, now, limits);
    } else {
      var u := s.(clock := now, store := Looked(s.store, sid, now, limits));
      LooksKeeps(s, sid, now, limits);
      ClaimKeeps(u, sid, limits);
    }
  }

  lemma OfferStopsKeeps(s: State, sid: Sid, limits: Limits)
    requires Good(s, limits)
    ensures Good(DoOfferStops(s, sid), limits)
  {
    QuietKeeps(s, DoOfferStops(s, sid), sid, [], limits);
  }

  /** An id no log line carries is in no list and no offer. */
  lemma UnusedIsNowhere(s: State, mid: Mid)
    requires HeldKnown(s.store) && Claims(s) && Unused(s.store, mid)
    ensures forall other, m :: m in Of(s.store.held, other) ==> m.mid != mid
    ensures forall other, m :: other in s.offers && m in s.offers[other] ==> m.mid != mid
  {
    forall other, m | m in Of(s.store.held, other) ensures m.mid != mid {
      assert Add(other, m) in s.store.asked;
    }
    forall other, m | other in s.offers && m in s.offers[other] ensures m.mid != mid {
      assert Add(other, m) in s.store.asked;
    }
  }

  /** A send whose message reached its session without waiting. */
  lemma SendHandedKeeps(s: State, mid: Mid, limits: Limits)
    requires Good(s, limits) && mid in s.sends
    ensures Good(NoteHanded(s.(sends := s.sends - {mid}), s.sends[mid].sid, [mid]), limits)
  {
    var t := NoteHanded(s.(sends := s.sends - {mid}), s.sends[mid].sid, [mid]);
    UnusedIsNowhere(s, mid);
    QuietKeeps(s, t, s.sends[mid].sid, [mid], limits);
  }

  lemma SendThrowsKeeps(s: State, mid: Mid, limits: Limits)
    requires Good(s, limits)
    ensures Good(s.(sends := s.sends - {mid}), limits)
  {
    QuietKeeps(s, s.(sends := s.sends - {mid}), "", [], limits);
  }

  /** An id one session's log carries is in no other session's list or offer. */
  lemma Elsewhere(s: State, sid: Sid, m: Message)
    requires UniqueAdds(s.store.asked) && HeldKnown(s.store) && Claims(s) && Add(sid, m) in s.store.asked
    ensures forall other, x :: x in Of(s.store.held, other) && x.mid == m.mid ==> other == sid && x == m
    ensures forall other, x :: other in s.offers && x in s.offers[other] && x.mid == m.mid ==> other == sid && x == m
  {
    forall other, x | Add(other, x) in s.store.asked && x.mid == m.mid ensures other == sid && x == m {
      SameAdd(s.store.asked, Add(sid, m), Add(other, x));
    }
  }

  lemma OfferCarriedClaims(s: State, sid: Sid)
    requires Claims(s) && sid in s.offers && s.offers[sid] != []
    ensures Claims(DoOfferCarried(s, sid))
  {
    var list := s.offers[sid];
    var t := DoOfferCarried(s, sid);
    HandHolds(s.store, Hand(s.store, sid, [list[0].mid]), sid, [list[0].mid]);
    assert list == [list[0]] + list[1..];
    assert MidsOf(list[1..]) == MidsOf(list) - {list[0].mid};
    assert t.offers[sid] == list[1..] && forall m :: m in list[1..] ==> m in list;
  }

  lemma OfferCarriedNowhere(s: State, sid: Sid)
    requires UniqueAdds(s.store.asked) && HeldKnown(s.store) && Claims(s) && Ids(s)
    requires sid in s.offers && s.offers[sid] != []
    ensures NowhereIn(DoOfferCarried(s, sid), [s.offers[sid][0].mid])
    ensures Issued(s, [s.offers[sid][0].mid]) && OffersFrom(s, DoOfferCarried(s, sid))
  {
    var list := s.offers[sid];
    var m := list[0];
    assert m in list && Add(sid, m) in s.store.asked;
    Elsewhere(s, sid, m);
    HandHolds(s.store, Hand(s.store, sid, [m.mid]), sid, [m.mid]);
    forall x | x in list[1..] ensures x.mid != m.mid && x in list {
      var i :| 0 <= i < |list[1..]| && list[1..][i] == x;
      assert list[i + 1] == x;
    }
  }

  lemma OfferCarriedKeeps(s: State, sid: Sid, limits: Limits)
    requires Good(s, limits) && sid in s.offers && s.offers[sid] != []
    ensures Good(DoOfferCarried(s, sid), limits)
  {
    var mid := s.offers[sid][0].mid;
    HandKeeps(s.store, sid, [mid], s.clock, limits);
    OfferCarriedClaims(s, sid);
    OfferCarriedNowhere(s, sid);
    HandHolds(s.store, Hand(s.store, sid, [mid]), sid, [mid]);
    assert s.offers[sid][0] in s.offers[sid];
    QuietKeeps(s, DoOfferCarried(s, sid), sid, [mid], limits);
  }

  lemma MidsHold(list: seq<Message>)
    ensures forall mid :: mid in Mids(list) ==> exists m :: m in list && m.mid == mid
    ensures forall m :: m in list ==> m.mid in Mids(list)
  {
    forall mid | mid in Mids(list) ensures exists m :: m in list && m.mid == mid {
      var i :| 0 <= i < |list| && Mids(list)[i] == mid;
      assert list[i] in list;
    }
    forall m | m in list ensures m.mid in Mids(list) {
      var i :| 0 <= i < |list| && list[i] == m;
      assert Mids(list)[i] == m.mid;
    }
  }

  /** What a snapshot gives out: held, unclaimed, and each id once. */
  lemma SubscribedFrom(s: State, sid: Sid, list: seq<Message>)
    requires HeldKnown(s.store) && list == Without(Of(s.store.held, sid), Claimed(s, sid))
    ensures forall i, j :: 0 <= i < j < |list| ==> Mids(list)[i] != Mids(list)[j]
    ensures forall m :: m in list <==> m in Of(s.store.held, sid) && m.mid !in Claimed(s, sid)
  {
    WithoutHolds(Of(s.store.held, sid), Claimed(s, sid));
    WithoutDistinct(Of(s.store.held, sid), Claimed(s, sid));
  }

  function HandOut(s: State, sid: Sid): State {
    var mids := Mids(Without(Of(s.store.held, sid), Claimed(s, sid)));
    NoteHanded(s.(store := Hand(s.store, sid, mids)), sid, mids)
  }

  /** Where an id a snapshot gives out can be: in the session's own list only. */
  lemma HandedFrom(s: State, sid: Sid, list: seq<Message>, mid: Mid) returns (m: Message)
    requires UniqueAdds(s.store.asked) && HeldKnown(s.store) && Claims(s)
    requires list == Without(Of(s.store.held, sid), Claimed(s, sid)) && mid in Mids(list)
    ensures m in list && m.mid == mid && Add(sid, m) in s.store.asked
    ensures forall other, x :: x in Of(s.store.held, other) && x.mid == mid ==> other == sid
    ensures forall other, x :: other in s.offers && x in s.offers[other] ==> x.mid != mid
  {
    SubscribedFrom(s, sid, list);
    MidsHold(list);
    m :| m in list && m.mid == mid;
    Elsewhere(s, sid, m);
  }

  lemma NotHeldAfter(s: State, sid: Sid, list: seq<Message>, other: Sid, x: Message)
    requires UniqueAdds(s.store.asked) && HeldKnown(s.store) && Claims(s)
    requires list == Without(Of(s.store.held, sid), Claimed(s, sid))
    requires x in Of(HandOut(s, sid).store.held, other)
    ensures x.mid !in Mids(list)
  {
    HandHolds(s.store, Hand(s.store, sid, Mids(list)), sid, Mids(list));
    if x.mid in Mids(list) {
      var m := HandedFrom(s, sid, list, x.mid);
    }
  }

  lemma HandOutNowhere(s: State, sid: Sid, list: seq<Message>)
    requires UniqueAdds(s.store.asked) && HeldKnown(s.store) && Claims(s) && Ids(s)
    requires list == Without(Of(s.store.held, sid), Claimed(s, sid))
    ensures NowhereIn(HandOut(s, sid), Mids(list)) && Issued(s, Mids(list))
  {
    forall other, x | x in Of(HandOut(s, sid).store.held, other) ensures x.mid !in Mids(list) {
      NotHeldAfter(s, sid, list, other, x);
    }
    forall other, x | other in s.offers && x in s.offers[other] ensures x.mid !in Mids(list) {
      if x.mid in Mids(list) { var m := HandedFrom(s, sid, list, x.mid); }
    }
    forall mid | mid in Mids(list) ensures mid !in s.sends && (mid.Own? ==> mid.counter <= s.counter) {
      var m := HandedFrom(s, sid, list, mid);
    }
  }

  lemma HandOutNew(s: State, sid: Sid, list: seq<Message>)
    requires HeldKnown(s.store) && Once(s) && list == Without(Of(s.store.held, sid), Claimed(s, sid))
    ensures forall i, j :: 0 <= i < j < |Mids(list)| ==> Mids(list)[i] != Mids(list)[j]
    ensures forall mid :: mid in Mids(list) ==> mid !in HandedMids(s)
  {
    SubscribedFrom(s, sid, list);
    MidsHold(list);
  }

  lemma HandQuiet(s: State, t: State, sid: Sid, mids: seq<Mid>, limits: Limits)
    requires t == NoteHanded(s.(store := Hand(s.store, sid, mids)), sid, mids)
    ensures Quiet(s, t, sid, mids, limits)
  {
    HandHolds(s.store, t.store, sid, mids);
  }

  lemma HandClaims(s: State, t: State, sid: Sid, mids: seq<Mid>)
    requires Claims(s) && t == NoteHanded(s.(store := Hand(s.store, sid, mids)), sid, mids)
    ensures Claims(t) && OffersFrom(s, t)
  {
    HandHolds(s.store, t.store, sid, mids);
  }

  lemma HandOutKeeps(s: State, sid: Sid, limits: Limits)
    requires Good(s, limits)
    ensures Good(HandOut(s, sid), limits)
  {
    var list := Without(Of(s.store.held, sid), Claimed(s, sid));
    HandKeeps(s.store, sid, Mids(list), s.clock, limits);
    HandOutNowhere(s, sid, list);
    HandOutNew(s, sid, list);
    HandQuiet(s, HandOut(s, sid), sid, Mids(list), limits);
    HandClaims(s, HandOut(s, sid), sid, Mids(list));
    QuietKeeps(s, HandOut(s, sid), sid, Mids(list), limits);
  }

  lemma SubscribesKeeps(s: State, sid: Sid, now: int, limits: Limits)
    requires Good(s, limits) && s.clock <= now
    ensures Good(DoSubscribes(s, sid, now, limits), limits)
  {
    LooksKeeps(s, sid, now, limits);
    HandOutKeeps(s.(clock := now, store := Looked(s.store, sid, now, limits)), sid, limits);
  }

  // --- the events that mint, hold or answer ---

  lemma ArriveIds(s: State, t: State, sid: Sid, now: int, text: string)
    requires Ids(s) && Claims(s) && Once(s) && t == DoArrive(s, sid, now, text)
    ensures Ids(t) && Claims(t) && Once(t)
  {
    assert HandedMids(t) == HandedMids(s);
  }

  lemma ArriveKeeps(s: State, sid: Sid, now: int, text: string, limits: Limits)
    requires Good(s, limits) && s.clock <= now
    ensures Good(DoArrive(s, sid, now, text), limits)
  {
    TickKeeps(s, now, limits);
    var u, t := s.(clock := now), DoArrive(s, sid, now, text);
    ArriveIds(s, t, sid, now, text);
    DurableSame(u, t, limits);
    CappedSame(u, t, limits);
  }

  lemma DurableSame(s: State, t: State, limits: Limits)
    requires Durable(s, limits) && t.clock == s.clock && t.gone == s.gone && t.answered == s.answered
    requires t.store.held == s.store.held && t.store.asked == s.store.asked
    requires forall x :: x in Records(s.store.file) ==> x in Records(t.store.file)
    requires forall mid :: mid in t.holds ==> mid in s.holds && t.holds[mid] == s.holds[mid]
    ensures Durable(t, limits)
  {
    forall a | Waiting(s, a, limits) ensures Waiting(t, a, limits) {}
    DurableFrom(s, t, limits);
  }

  lemma SendWaitsIds(s: State, t: State, mid: Mid, now: int, limits: Limits)
    requires Ids(s) && Once(s) && mid in s.sends && t == DoSendWaits(s, mid, now, limits)
    ensures Ids(t) && Once(t)
  {
    HoldBeginsHolds(s.store, t.store, s.sends[mid].sid, s.sends[mid].message, now, limits);
    assert HandedMids(t) == HandedMids(s);
  }

  lemma SendWaitsDurable(s: State, t: State, mid: Mid, now: int, limits: Limits)
    requires Ids(s) && Durable(s, limits) && mid in s.sends && s.clock <= now && t == DoSendWaits(s, mid, now, limits)
    ensures Durable(t, limits)
  {
    HoldBeginsHolds(s.store, t.store, s.sends[mid].sid, s.sends[mid].message, now, limits);
    forall a | Waiting(s, a, limits) ensures Waiting(t, a, limits) {
      if a.message.mid !in t.gone && InboxLog.Fresh(a.message, now, limits.retention) {
        assert a.message in Of(t.store.held, a.sid);
      }
    }
    assert NoRemoval(t.store.asked, s.sends[mid].sid, mid);
  }

  lemma OneMoreHold(holds: map<Mid, Sending>, mid: Mid, sending: Sending, sid: Sid)
    requires mid !in holds
    ensures |HoldsFor(holds[mid := sending], sid)| == |HoldsFor(holds, sid)| + (if sending.sid == sid then 1 else 0)
  {
    assert HoldsFor(holds[mid := sending], sid) == HoldsFor(holds, sid) + if sending.sid == sid then {mid} else {};
  }

  lemma SendWaitsCapped(s: State, t: State, mid: Mid, now: int, limits: Limits)
    requires Capped(s, limits) && mid in s.sends && mid !in s.holds && t == DoSendWaits(s, mid, now, limits)
    ensures Capped(t, limits)
  {
    var sending := s.sends[mid];
    HoldBeginsHolds(s.store, t.store, sending.sid, sending.message, now, limits);
    forall other ensures |Of(t.store.held, other)| <= Room(t, other, limits) {
      assert |Of(s.store.held, other)| <= Room(s, other, limits);
      OneMoreHold(s.holds, mid, sending, other);
    }
  }

  lemma SendWaitsKeeps(s: State, mid: Mid, now: int, limits: Limits)
    requires Good(s, limits) && mid in s.sends && s.clock <= now
    ensures Good(DoSendWaits(s, mid, now, limits), limits)
  {
    var t := DoSendWaits(s, mid, now, limits);
    HoldBeginsKeeps(s.store, s.sends[mid].sid, s.sends[mid].message, s.clock, now, limits);
    SendWaitsIds(s, t, mid, now, limits);
    SendWaitsDurable(s, t, mid, now, limits);
    SendWaitsCapped(s, t, mid, now, limits);
  }

  lemma ForgetHold(holds: map<Mid, Sending>, mid: Mid, sid: Sid)
    requires mid in holds
    ensures |HoldsFor(holds - {mid}, sid)| == |HoldsFor(holds, sid)| - (if holds[mid].sid == sid then 1 else 0)
  {
    assert HoldsFor(holds - {mid}, sid) == HoldsFor(holds, sid) - {mid};
  }

  /** The line an eviction asks for says nothing new of any id. */
  lemma EvictionIds(s: State, t: State, sid: Sid, oldest: Message)
    requires Ids(s) && Add(sid, oldest) in s.store.asked && t.sends == s.sends && t.counter == s.counter && t.handed == s.handed
    requires t.store.asked == s.store.asked + [Dropped(sid, oldest.mid)]
    ensures Ids(t)
  {
    assert HandedMids(t) == HandedMids(s);
  }

  lemma HoldEndsIds(s: State, t: State, mid: Mid, limits: Limits)
    requires Ids(s) && HeldKnown(s.store) && mid in s.holds && t == DoHoldEnds(s, mid, limits)
    ensures Ids(t)
  {
    var sid := s.holds[mid].sid;
    if Evicts(s.store, sid, limits) {
      var oldest := Of(s.store.held, sid)[0];
      assert oldest in Of(s.store.held, sid);
      EvictionIds(s, t, sid, oldest);
    } else {
      assert HandedMids(t) == HandedMids(s);
    }
  }

  lemma HoldEndsOnce(s: State, t: State, mid: Mid, limits: Limits)
    requires Claims(s) && Once(s) && HeldKnown(s.store) && mid in s.holds && t == DoHoldEnds(s, mid, limits)
    ensures Claims(t) && Once(t)
  {
    var sid := s.holds[mid].sid;
    assert HandedMids(t) == HandedMids(s) && t.offers == s.offers && t.claimed == s.claimed && t.sends == s.sends;
    if Evicts(s.store, sid, limits) {
      EvictionHolds(s.store, t.store, sid, limits);
    }
  }

  /** An eviction leaves every message waiting, or marks it gone. */
  lemma EvictionWaits(s: State, t: State, sid: Sid, a: Sending, limits: Limits)
    requires DistinctMids(Of(s.store.held, sid)) && Evicts(s.store, sid, limits) && t.store == HoldResumes(s.store, sid, limits)
    requires t.gone == s.gone + {Of(s.store.held, sid)[0].mid} && t.clock == s.clock && Waiting(s, a, limits)
    ensures Waiting(t, a, limits)
  {
    EvictionHolds(s.store, t.store, sid, limits);
  }

  lemma HoldEndsWaits(s: State, t: State, mid: Mid, a: Sending, limits: Limits)
    requires HeldKnown(s.store) && mid in s.holds && t == DoHoldEnds(s, mid, limits) && Waiting(s, a, limits)
    ensures Waiting(t, a, limits)
  {
    if Evicts(s.store, s.holds[mid].sid, limits) { EvictionWaits(s, t, s.holds[mid].sid, a, limits); }
  }

  lemma HoldEndsLeaves(s: State, t: State, mid: Mid, limits: Limits)
    requires mid in s.holds && t == DoHoldEnds(s, mid, limits)
    ensures t.store.file == s.store.file && t.clock == s.clock && s.gone <= t.gone
    ensures t.holds == s.holds - {mid} && t.answered == s.answered + {s.holds[mid]}
    ensures forall x :: x in s.store.asked ==> x in t.store.asked
  {
  }

  lemma AnsweredDurable(s: State, t: State, mid: Mid, limits: Limits)
    requires Durable(s, limits) && mid in s.holds && forall a :: Waiting(s, a, limits) ==> Waiting(t, a, limits)
    requires Add(s.holds[mid].sid, s.holds[mid].message) in Records(s.store.file)
    requires t.store.file == s.store.file && t.clock == s.clock && s.gone <= t.gone
    requires t.holds == s.holds - {mid} && t.answered == s.answered + {s.holds[mid]}
    requires forall x :: x in s.store.asked ==> x in t.store.asked
    ensures Durable(t, limits)
  {
    DurableFrom(s, t, limits);
  }

  lemma HoldEndsDurable(s: State, t: State, mid: Mid, limits: Limits)
    requires Durable(s, limits) && HeldKnown(s.store) && mid in s.holds && t == DoHoldEnds(s, mid, limits)
    requires Add(s.holds[mid].sid, s.holds[mid].message) in Records(s.store.file)
    ensures Durable(t, limits)
  {
    forall a | Waiting(s, a, limits) ensures Waiting(t, a, limits) {
      HoldEndsWaits(s, t, mid, a, limits);
    }
    HoldEndsLeaves(s, t, mid, limits);
    AnsweredDurable(s, t, mid, limits);
  }

  lemma HoldEndsShrinks(s: State, t: State, mid: Mid, other: Sid, limits: Limits)
    requires mid in s.holds && DistinctMids(Of(s.store.held, s.holds[mid].sid)) && t == DoHoldEnds(s, mid, limits)
    ensures |Of(t.store.held, other)| <= |Of(s.store.held, other)|
    ensures other == s.holds[mid].sid ==> |Of(t.store.held, other)| < |Of(s.store.held, other)| || |Of(t.store.held, other)| <= limits.perSid
  {
    var sid := s.holds[mid].sid;
    if Evicts(s.store, sid, limits) { EvictionHolds(s.store, t.store, sid, limits); }
  }

  lemma HoldEndsRoom(s: State, t: State, mid: Mid, other: Sid, limits: Limits)
    requires mid in s.holds && DistinctMids(Of(s.store.held, s.holds[mid].sid)) && t == DoHoldEnds(s, mid, limits)
    requires |Of(s.store.held, other)| <= Room(s, other, limits)
    ensures |Of(t.store.held, other)| <= Room(t, other, limits)
  {
    HoldEndsShrinks(s, t, mid, other, limits);
    ForgetHold(s.holds, mid, other);
  }

  lemma HoldEndsCapped(s: State, t: State, mid: Mid, limits: Limits)
    requires mid in s.holds && DistinctMids(Of(s.store.held, s.holds[mid].sid))
    requires Capped(s, limits) && t == DoHoldEnds(s, mid, limits)
    ensures Capped(t, limits)
  {
    forall other ensures |Of(t.store.held, other)| <= Room(t, other, limits) {
      HoldEndsRoom(s, t, mid, other, limits);
    }
  }

  lemma HoldEndsKeeps(s: State, mid: Mid, limits: Limits)
    requires Good(s, limits) && mid in s.holds
    requires Add(s.holds[mid].sid, s.holds[mid].message) in Records(s.store.file)
    ensures Good(DoHoldEnds(s, mid, limits), limits)
  {
    var t := DoHoldEnds(s, mid, limits);
    HoldResumesKeeps(s.store, s.holds[mid].sid, s.clock, limits);
    HoldEndsIds(s, t, mid, limits);
    HoldEndsOnce(s, t, mid, limits);
    HoldEndsDurable(s, t, mid, limits);
    HoldEndsCapped(s, t, mid, limits);
  }

  lemma CappedSame(s: State, t: State, limits: Limits)
    requires Capped(s, limits) && t.holds == s.holds && t.failures == s.failures && t.loaded == s.loaded
    requires t.store.held == s.store.held
    ensures Capped(t, limits)
  {
    forall other ensures |Of(t.store.held, other)| <= Room(t, other, limits) {
      assert |Of(s.store.held, other)| <= Room(s, other, limits);
    }
  }

  /** Nothing but the file, the append chain and the holds in flight moved. */
  ghost predicate OnlyTheFile(s: State, t: State) {
    && t.store.held == s.store.held && t.store.asked == s.store.asked && t.counter == s.counter
    && t.sends == s.sends && t.offers == s.offers && t.claimed == s.claimed && t.handed == s.handed
  }

  lemma FileIds(s: State, t: State)
    requires Ids(s) && OnlyTheFile(s, t)
    ensures Ids(t)
  {
    assert HandedMids(t) == HandedMids(s);
  }

  lemma FileOnce(s: State, t: State)
    requires Claims(s) && Once(s) && OnlyTheFile(s, t)
    ensures Claims(t) && Once(t)
  {
    assert HandedMids(t) == HandedMids(s);
  }

  lemma LandedKeeps(s: State, limits: Limits)
    requires Good(s, limits) && s.store.pending != []
    ensures Good(s.(store := InboxStore.Lands(s.store)), limits)
  {
    var t := s.(store := InboxStore.Lands(s.store));
    LandsKeeps(s.store, s.clock, limits);
    LandsFile(s.store);
    FileIds(s, t);
    FileOnce(s, t);
    DurableSame(s, t, limits);
    CappedSame(s, t, limits);
  }

  lemma FailedHold(s: State, line: Record, limits: Limits)
    requires Durable(s, limits) && UniqueAdds(s.store.asked) && line in s.store.asked && line.Add? && line.message.mid in s.holds
    ensures s.holds[line.message.mid].sid == line.sid
  {
    var hold := s.holds[line.message.mid];
    SameAdd(s.store.asked, line, Add(hold.sid, hold.message));
  }

  lemma FailsRoom(s: State, t: State, other: Sid, limits: Limits)
    requires s.store.pending != [] && t == DoFails(s) && |Of(s.store.held, other)| <= Room(s, other, limits)
    requires var line := s.store.pending[0];
      line.Add? && line.message.mid in s.holds ==> s.holds[line.message.mid].sid == line.sid
    ensures |Of(t.store.held, other)| <= Room(t, other, limits)
  {
    var line := s.store.pending[0];
    if line.Add? && line.message.mid in s.holds { ForgetHold(s.holds, line.message.mid, other); }
  }

  lemma FailsCapped(s: State, t: State, limits: Limits)
    requires Capped(s, limits) && Durable(s, limits) && UniqueAdds(s.store.asked) && FileKnown(s.store)
    requires s.store.pending != [] && t == DoFails(s)
    ensures Capped(t, limits)
  {
    var line := s.store.pending[0];
    assert line in Records(s.store.file) + s.store.pending;
    if line.Add? && line.message.mid in s.holds { FailedHold(s, line, limits); }
    forall other ensures |Of(t.store.held, other)| <= Room(t, other, limits) {
      FailsRoom(s, t, other, limits);
    }
  }

  lemma FailsKeeps(s: State, limits: Limits)
    requires Good(s, limits) && s.store.pending != []
    ensures Good(DoFails(s), limits)
  {
    var t := DoFails(s);
    LineFailsKeeps(s.store, s.clock, limits);
    FileIds(s, t);
    FileOnce(s, t);
    FailsDurable(s, t, limits);
    FailsCapped(s, t, limits);
  }

  lemma FailsDurable(s: State, t: State, limits: Limits)
    requires Durable(s, limits) && s.store.pending != [] && t == DoFails(s)
    ensures Durable(t, limits)
  {
    FailsLeaves(s, t);
    DurableSame(s, t, limits);
  }

  lemma FailsLeaves(s: State, t: State)
    requires s.store.pending != [] && t == DoFails(s)
    ensures OnlyTheFile(s, t) && t.clock == s.clock && t.gone == s.gone && t.answered == s.answered && t.store.file == s.store.file
    ensures forall mid :: mid in t.holds ==> mid in s.holds && t.holds[mid] == s.holds[mid]
  {
  }

  // --- a restart ---

  lemma AnsweredSurvives(s: State, t: State, a: Sending, now: int, torn: bool, order: seq<Sid>, limits: Limits)
    requires FileKnown(s.store) && s.clock <= now && Restarted(s, t, now, torn, order, limits)
    requires Durable(s, limits) && a in s.answered && a.message.mid !in s.gone
    requires InboxLog.Fresh(a.message, now, limits.retention)
    ensures a.message in Of(t.store.held, a.sid) && Add(a.sid, a.message) in t.store.asked
  {
    if torn { RecordsSnoc(s.store.file, Refused); }
    var log := Records(s.store.file);
    var i :| 0 <= i < |log| && log[i] == Add(a.sid, a.message);
    forall j | i < j < |log| ensures !Removes(log[j], a.sid, a.message.mid) {
      assert log[j] in log + s.store.pending;
    }
    StandingHolds(log, a.sid, a.message);
    LoadedList(FileAfterKill(s, torn), now, limits, a.sid);
    CompactedHolds(t.store.held, order, Add(a.sid, a.message));
  }

  lemma RestartsIds(s: State, t: State, now: int, torn: bool, order: seq<Sid>, limits: Limits)
    requires Restarted(s, t, now, torn, order, limits)
    ensures Ids(t) && Claims(t) && Once(t) && forall x :: x in t.store.asked ==> x.Add?
  {
    forall x | x in t.store.asked ensures x.Add? && x.message in Of(t.store.held, x.sid) {
      CompactedHolds(t.store.held, order, x);
    }
  }

  lemma RestartsDurable(s: State, t: State, now: int, torn: bool, order: seq<Sid>, limits: Limits)
    requires FileKnown(s.store) && Durable(s, limits) && s.clock <= now && Restarted(s, t, now, torn, order, limits)
    ensures Durable(t, limits)
  {
    RestartsIds(s, t, now, torn, order, limits);
    RecordsOfLines(t.store.asked);
    forall a | a in t.answered && InboxLog.Fresh(a.message, now, limits.retention)
      ensures a.message in Of(t.store.held, a.sid) && Add(a.sid, a.message) in Records(t.store.file)
    {
      AnsweredSurvives(s, t, a, now, torn, order, limits);
    }
  }

  lemma RestartsStore(s: State, t: State, now: int, torn: bool, order: seq<Sid>, limits: Limits)
    requires FileKnown(s.store) && Restarted(s, t, now, torn, order, limits)
    ensures InboxStore.Inv(t.store, now, limits)
  {
    if torn { RecordsSnoc(s.store.file, Refused); }
    UniqueBefore(Records(s.store.file), s.store.pending);
    LoadedKeeps(FileAfterKill(s, torn), now, limits, order);
  }

  lemma UniqueBefore(log: seq<Record>, more: seq<Record>)
    requires UniqueAdds(log + more)
    ensures UniqueAdds(log)
  {
    assert forall i :: 0 <= i < |log| ==> log[i] == (log + more)[i];
  }

  lemma RestartsCapped(s: State, t: State, now: int, torn: bool, order: seq<Sid>, limits: Limits)
    requires Restarted(s, t, now, torn, order, limits)
    ensures Capped(t, limits)
  {
  }

  lemma RestartsKeeps(s: State, t: State, now: int, torn: bool, order: seq<Sid>, limits: Limits)
    requires Good(s, limits) && s.clock <= now && Restarted(s, t, now, torn, order, limits)
    ensures Good(t, limits)
  {
    RestartsStore(s, t, now, torn, order, limits);
    RestartsIds(s, t, now, torn, order, limits);
    RestartsDurable(s, t, now, torn, order, limits);
    RestartsCapped(s, t, now, torn, order, limits);
  }

  // --- every event, every run ---

  lemma SendCarriedKeeps(s: State, mid: Mid, now: int, limits: Limits)
    requires Good(s, limits) && s.clock <= now && mid in s.sends
    ensures Good(DoOfferStarts(NoteHanded(s.(sends := s.sends - {mid}), s.sends[mid].sid, [mid]), s.sends[mid].sid, now, limits), limits)
  {
    SendHandedKeeps(s, mid, limits);
    OfferStartsKeeps(NoteHanded(s.(sends := s.sends - {mid}), s.sends[mid].sid, [mid]), s.sends[mid].sid, now, limits);
  }

  /** Nothing is minted, held or answered: the event can only take messages out. */
  predicate OnlyTakesOut(e: Event) {
    e.SendCarried? || e.SendPublished? || e.SendThrows? || e.OfferStarts? || e.OfferCarried? || e.OfferStops?
    || e.Subscribes? || e.Looks?
  }

  lemma TakingOutKeeps(s: State, e: Event, t: State, limits: Limits)
    requires Good(s, limits) && Next(s, e, t, limits) && OnlyTakesOut(e)
    ensures Good(t, limits)
  {
    match e
    case SendCarried(mid, now) => SendCarriedKeeps(s, mid, now, limits);
    case SendPublished(mid) => SendHandedKeeps(s, mid, limits);
    case SendThrows(mid) => SendThrowsKeeps(s, mid, limits);
    case OfferStarts(sid, now) => OfferStartsKeeps(s, sid, now, limits);
    case OfferCarried(sid) => OfferCarriedKeeps(s, sid, limits);
    case OfferStops(sid) => OfferStopsKeeps(s, sid, limits);
    case Subscribes(sid, now) => SubscribesKeeps(s, sid, now, limits);
    case Looks(sid, now) => LooksKeeps(s, sid, now, limits);
  }

  lemma PuttingInKeeps(s: State, e: Event, t: State, limits: Limits)
    requires Good(s, limits) && Next(s, e, t, limits) && !OnlyTakesOut(e)
    ensures Good(t, limits)
  {
    match e
    case Arrive(sid, now, text) => ArriveKeeps(s, sid, now, text, limits);
    case SendWaits(mid, now) => SendWaitsKeeps(s, mid, now, limits);
    case HoldEnds(mid) => HoldEndsKeeps(s, mid, limits);
    case Lands => LandedKeeps(s, limits);
    case Fails => FailsKeeps(s, limits);
    case Restarts(now, torn, order) => RestartsKeeps(s, t, now, torn, order, limits);
  }

  lemma NextKeeps(s: State, e: Event, t: State, limits: Limits)
    requires Good(s, limits) && Next(s, e, t, limits)
    ensures Good(t, limits)
  {
    if OnlyTakesOut(e) { TakingOutKeeps(s, e, t, limits); } else { PuttingInKeeps(s, e, t, limits); }
  }

  lemma {:induction false} RunKeeps(states: seq<State>, events: seq<Event>, k: nat, limits: Limits)
    requires Run(states, events, limits) && states[0] == Fresh0(states[0].clock) && k < |states|
    ensures Good(states[k], limits)
  {
    if k > 0 {
      RunKeeps(states, events, k - 1, limits);
      NextKeeps(states[k - 1], events[k - 1], states[k], limits);
    }
  }
}
