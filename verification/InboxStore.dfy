/** The inbox as one value: what is in memory, what is on disk, the appends
    asked for and not yet landed, and the atomic stretches of `Inbox` over it. */
module InboxStore {
  import opened InboxLog

  datatype Limits = Limits(retention: nat, perSid: nat)

  /** `asked` is the history of the lines the current file was asked to hold;
      `lost` says whether one of them could not be written. */
  datatype Store = Store(held: Held, file: seq<Line>, pending: seq<Record>, asked: seq<Record>, lost: bool)

  function Lines(records: seq<Record>): (r: seq<Line>)
    ensures |r| == |records| && forall i :: 0 <= i < |r| ==> r[i] == Stated(records[i])
  {
    if records == [] then [] else Lines(records[..|records| - 1]) + [Stated(records[|records| - 1])]
  }

  function Ask(s: Store, records: seq<Record>): Store {
    s.(pending := s.pending + records, asked := s.asked + records)
  }

  // --- the stretches ---

  function Looked(s: Store, sid: Sid, now: int, limits: Limits): Store {
    s.(held := ExpireSid(s.held, sid, now, limits.retention))
  }

  /** `hold` up to its first `await`. */
  function HoldBegins(s: Store, sid: Sid, m: Message, now: int, limits: Limits): Store {
    var held := ExpireSid(s.held, sid, now, limits.retention);
    Ask(s.(held := held[sid := Of(held, sid) + [m]]), [Add(sid, m)])
  }

  predicate Evicts(s: Store, sid: Sid, limits: Limits) {
    |Of(s.held, sid)| > limits.perSid
  }

  /** `hold` from the moment its line has landed. */
  function HoldResumes(s: Store, sid: Sid, limits: Limits): Store {
    if !Evicts(s, sid, limits) then s
    else
      var standing := Of(s.held, sid);
      Ask(s.(held := s.held[sid := standing[1..]]), [Dropped(sid, standing[0].mid)])
  }

  function DeliveredLines(sid: Sid, mids: seq<Mid>): (r: seq<Record>)
    ensures |r| == |mids| && forall i :: 0 <= i < |r| ==> r[i] == Delivered(sid, mids[i])
  {
    if mids == [] then [] else DeliveredLines(sid, mids[..|mids| - 1]) + [Delivered(sid, mids[|mids| - 1])]
  }

  /** `delivered`. */
  function Hand(s: Store, sid: Sid, mids: seq<Mid>): Store {
    if sid !in s.held || mids == [] then s
    else Ask(s.(held := Put(s.held, sid, Without(s.held[sid], set mid <- mids))), DeliveredLines(sid, mids))
  }

  /** The head of the append chain lands, or could not be written. */
  function Lands(s: Store): Store
    requires s.pending != []
  {
    s.(file := s.file + [Stated(s.pending[0])], pending := s.pending[1..])
  }

  function LineFails(s: Store): Store
    requires s.pending != []
  {
    s.(pending := s.pending[1..], lost := true)
  }

  /** `#expire(now)` over every session. */
  function ExpireAll(held: Held, now: int, retention: nat): (r: Held)
    ensures forall sid :: Of(r, sid) == Live(Of(held, sid), now, retention)
  {
    map sid | sid in held && (held[sid] == [] || Live(held[sid], now, retention) != [])
      :: Live(held[sid], now, retention)
  }

  /** `load`: what the lines of a file leave, and the file written back. */
  function LoadedHeld(lines: seq<Line>, now: int, limits: Limits): Held {
    ExpireAll(Replay(Records(lines)), now, limits.retention)
  }

  function Loaded(lines: seq<Line>, now: int, limits: Limits, order: seq<Sid>): Store {
    var held := LoadedHeld(lines, now, limits);
    Store(held, Lines(Compacted(held, order)), [], Compacted(held, order), false)
  }

  // --- what every stretch keeps ---

  /** The log and the memory agree on whatever has not run out. */
  ghost predicate Refines(s: Store, clock: int, limits: Limits) {
    forall sid :: Live(Standing(s.asked, sid), clock, limits.retention)
               == Live(Of(s.held, sid), clock, limits.retention)
  }

  ghost predicate HeldKnown(s: Store) {
    && (forall sid :: DistinctMids(Of(s.held, sid)))
    && forall sid, m :: m in Of(s.held, sid) ==> Add(sid, m) in s.asked
  }

  ghost predicate FileKnown(s: Store) {
    && (forall x :: x in Records(s.file) + s.pending ==> x in s.asked)
    && UniqueAdds(Records(s.file) + s.pending)
    && (!s.lost ==> Records(s.file) + s.pending == s.asked)
  }

  ghost predicate Inv(s: Store, clock: int, limits: Limits) {
    Refines(s, clock, limits) && UniqueAdds(s.asked) && HeldKnown(s) && FileKnown(s)
  }

  ghost predicate Unused(s: Store, mid: Mid) {
    forall x :: x in s.asked && x.Add? ==> x.message.mid != mid
  }

  lemma {:induction false} RecordsOfLines(records: seq<Record>)
    ensures Records(Lines(records)) == records
  {
    if records != [] {
      RecordsOfLines(records[..|records| - 1]);
      RecordsSnoc(Lines(records[..|records| - 1]), Stated(records[|records| - 1]));
    }
  }

  lemma LinesConcat(a: seq<Record>, b: seq<Record>)
    ensures Lines(a + b) == Lines(a) + Lines(b)
  {
  }

  /** Two `add` lines of one log with one id are one line. */
  lemma SameAdd(log: seq<Record>, a: Record, b: Record)
    requires UniqueAdds(log) && a in log && b in log && a.Add? && b.Add?
    requires a.message.mid == b.message.mid
    ensures a == b
  {
  }

  lemma RefinesLater(s: Store, clock: int, now: int, limits: Limits)
    requires Refines(s, clock, limits) && clock <= now
    ensures Refines(s, now, limits)
  {
    forall sid ensures Live(Standing(s.asked, sid), now, limits.retention)
                    == Live(Of(s.held, sid), now, limits.retention) {
      LiveTwice(Standing(s.asked, sid), clock, now, limits.retention);
      LiveTwice(Of(s.held, sid), clock, now, limits.retention);
    }
  }

  lemma LookedKeeps(s: Store, sid: Sid, clock: int, now: int, limits: Limits)
    requires Inv(s, clock, limits) && clock <= now
    ensures Inv(Looked(s, sid, now, limits), now, limits)
  {
    var retention := limits.retention;
    RefinesLater(s, clock, now, limits);
    LiveTwice(Of(s.held, sid), now, now, retention);
    LiveHolds(Of(s.held, sid), now, retention);
    LiveDistinct(Of(s.held, sid), now, retention);
  }

  /** Asking for more lines keeps what is known of the file. */
  lemma AskKeepsFile(s: Store, held: Held, records: seq<Record>)
    requires FileKnown(s) && UniqueAdds(s.asked + records)
    ensures FileKnown(Ask(s.(held := held), records))
  {
    var t := Ask(s.(held := held), records);
    var before := Records(s.file) + s.pending;
    var after := Records(t.file) + t.pending;
    assert after == before + records;
    forall i, j | 0 <= i < j < |after| && after[i].Add? && after[j].Add?
      ensures after[i].message.mid != after[j].message.mid
    {
      if j >= |before| && i < |before| {
        assert after[i] in s.asked;
        var k :| 0 <= k < |s.asked| && s.asked[k] == after[i];
        assert (s.asked + records)[k] == after[i];
        assert (s.asked + records)[|s.asked| + (j - |before|)] == after[j];
      } else if i >= |before| {
        assert (s.asked + records)[|s.asked| + (i - |before|)] == after[i];
        assert (s.asked + records)[|s.asked| + (j - |before|)] == after[j];
      }
    }
  }

  lemma AddIsUnique(s: Store, sid: Sid, m: Message)
    requires UniqueAdds(s.asked) && Unused(s, m.mid)
    ensures UniqueAdds(s.asked + [Add(sid, m)])
  {
    var after := s.asked + [Add(sid, m)];
    forall i | 0 <= i < |s.asked| && after[i].Add? ensures after[i].message.mid != m.mid {
      assert after[i] in s.asked;
    }
  }

  lemma AddStands(s: Store, sid: Sid, m: Message, now: int, retention: nat)
    requires Live(Standing(s.asked, sid), now, retention) == Live(Of(s.held, sid), now, retention)
    ensures Live(Standing(s.asked + [Add(sid, m)], sid), now, retention) == Live(Of(s.held, sid) + [m], now, retention)
  {
    StandingSnoc(s.asked, Add(sid, m), sid);
    LiveSnoc(Standing(s.asked, sid), m, now, retention);
    LiveSnoc(Of(s.held, sid), m, now, retention);
  }

  lemma HoldBeginsKeeps(s: Store, sid: Sid, m: Message, clock: int, now: int, limits: Limits)
    requires Inv(s, clock, limits) && clock <= now && Unused(s, m.mid)
    ensures Inv(HoldBegins(s, sid, m, now, limits), now, limits)
  {
    var u := Looked(s, sid, now, limits);
    LookedKeeps(s, sid, clock, now, limits);
    PushKeeps(u, sid, m, now, limits);
  }

  lemma PushRefines(u: Store, t: Store, sid: Sid, m: Message, now: int, limits: Limits)
    requires Refines(u, now, limits)
    requires t.asked == u.asked + [Add(sid, m)] && t.held == u.held[sid := Of(u.held, sid) + [m]]
    ensures Refines(t, now, limits)
  {
    AddStands(u, sid, m, now, limits.retention);
    forall other | other != sid ensures Live(Standing(t.asked, other), now, limits.retention)
                                     == Live(Of(t.held, other), now, limits.retention) {
      StandingSnoc(u.asked, Add(sid, m), other);
      assert Of(t.held, other) == Of(u.held, other);
    }
  }

  lemma PushKnown(u: Store, t: Store, sid: Sid, m: Message)
    requires HeldKnown(u) && Unused(u, m.mid)
    requires t.asked == u.asked + [Add(sid, m)] && t.held == u.held[sid := Of(u.held, sid) + [m]]
    ensures HeldKnown(t)
  {
    var before := Of(u.held, sid);
    forall i | 0 <= i < |before| ensures before[i].mid != m.mid {
      assert before[i] in before;
      assert Add(sid, before[i]) in u.asked;
    }
    assert DistinctMids(before);
    assert Of(t.held, sid) == before + [m];
    assert forall other :: other != sid ==> Of(t.held, other) == Of(u.held, other);
  }

  lemma PushKeeps(u: Store, sid: Sid, m: Message, now: int, limits: Limits)
    requires Inv(u, now, limits) && Unused(u, m.mid)
    ensures Inv(Ask(u.(held := u.held[sid := Of(u.held, sid) + [m]]), [Add(sid, m)]), now, limits)
  {
    var held := u.held[sid := Of(u.held, sid) + [m]];
    AddIsUnique(u, sid, m);
    AskKeepsFile(u, held, [Add(sid, m)]);
    var t := Ask(u.(held := held), [Add(sid, m)]);
    PushRefines(u, t, sid, m, now, limits);
    PushKnown(u, t, sid, m);
  }

  lemma HoldResumesKeeps(s: Store, sid: Sid, clock: int, limits: Limits)
    requires Inv(s, clock, limits)
    ensures Inv(HoldResumes(s, sid, limits), clock, limits)
  {
    if Evicts(s, sid, limits) {
      var standing := Of(s.held, sid);
      RemovalKeeps(s, sid, [standing[0].mid], [Dropped(sid, standing[0].mid)], clock, limits);
      assert (set mid <- [standing[0].mid]) == {standing[0].mid};
      ShiftIsWithout(standing);
      var t := HoldResumes(s, sid, limits);
      var u := Ask(s.(held := Put(s.held, sid, Without(standing, {standing[0].mid}))), [Dropped(sid, standing[0].mid)]);
      assert forall other :: Of(t.held, other) == Of(u.held, other);
    }
  }

  lemma {:induction false} StandingRemovals(log: seq<Record>, removals: seq<Record>, sid: Sid, mids: seq<Mid>, other: Sid)
    requires |removals| == |mids|
    requires forall i :: 0 <= i < |mids| ==> Removes(removals[i], sid, mids[i])
    ensures Standing(log + removals, other)
         == if other == sid then Without(Standing(log, sid), set mid <- mids) else Standing(log, other)
  {
    if mids == [] {
      assert log + removals == log;
      WithoutNone(Standing(log, sid), set mid <- mids);
    } else {
      var n := |mids| - 1;
      var front, last := removals[..n], removals[n];
      StandingRemovals(log, front, sid, mids[..n], other);
      assert log + removals == (log + front) + [last];
      StandingSnoc(log + front, last, other);
      assert (set mid <- mids) == (set mid <- mids[..n]) + {mids[n]} by {
        assert mids == mids[..n] + [mids[n]];
      }
      WithoutTwice(Standing(log, sid), set mid <- mids[..n], {mids[n]});
    }
  }

  lemma RemovalRefines(s: Store, t: Store, sid: Sid, mids: seq<Mid>, removals: seq<Record>, clock: int, limits: Limits)
    requires Refines(s, clock, limits) && |removals| == |mids|
    requires forall i :: 0 <= i < |mids| ==> Removes(removals[i], sid, mids[i])
    requires t.asked == s.asked + removals
    requires t.held == Put(s.held, sid, Without(Of(s.held, sid), set mid <- mids))
    ensures Refines(t, clock, limits)
  {
    var gone := set mid <- mids;
    forall other ensures Live(Standing(t.asked, other), clock, limits.retention)
                      == Live(Of(t.held, other), clock, limits.retention) {
      StandingRemovals(s.asked, removals, sid, mids, other);
      if other == sid {
        LiveWithout(Standing(s.asked, sid), gone, clock, limits.retention);
        LiveWithout(Of(s.held, sid), gone, clock, limits.retention);
      }
    }
  }

  lemma RemovalKnown(s: Store, t: Store, sid: Sid, gone: set<Mid>)
    requires HeldKnown(s) && forall x :: x in s.asked ==> x in t.asked
    requires t.held == Put(s.held, sid, Without(Of(s.held, sid), gone))
    ensures HeldKnown(t)
  {
    WithoutHolds(Of(s.held, sid), gone);
    WithoutDistinct(Of(s.held, sid), gone);
    assert Of(t.held, sid) == Without(Of(s.held, sid), gone);
    assert forall other :: other != sid ==> Of(t.held, other) == Of(s.held, other);
  }

  lemma RemovalsAddNothing(log: seq<Record>, removals: seq<Record>)
    requires UniqueAdds(log) && forall i :: 0 <= i < |removals| ==> !removals[i].Add?
    ensures UniqueAdds(log + removals)
  {
  }

  /** Taking ids out of a session's list and asking for one removal line each. */
  lemma RemovalKeeps(s: Store, sid: Sid, mids: seq<Mid>, removals: seq<Record>, clock: int, limits: Limits)
    requires Inv(s, clock, limits) && |removals| == |mids|
    requires forall i :: 0 <= i < |mids| ==> Removes(removals[i], sid, mids[i])
    ensures Inv(Ask(s.(held := Put(s.held, sid, Without(Of(s.held, sid), set mid <- mids))), removals), clock, limits)
  {
    var held := Put(s.held, sid, Without(Of(s.held, sid), set mid <- mids));
    var t := Ask(s.(held := held), removals);
    RemovalsAddNothing(s.asked, removals);
    AskKeepsFile(s, held, removals);
    RemovalRefines(s, t, sid, mids, removals, clock, limits);
    RemovalKnown(s, t, sid, set mid <- mids);
  }

  lemma HandKeeps(s: Store, sid: Sid, mids: seq<Mid>, clock: int, limits: Limits)
    requires Inv(s, clock, limits)
    ensures Inv(Hand(s, sid, mids), clock, limits)
  {
    if sid in s.held && mids != [] {
      RemovalKeeps(s, sid, mids, DeliveredLines(sid, mids), clock, limits);
    }
  }

  lemma LandsFile(s: Store)
    requires s.pending != []
    ensures Records(Lands(s).file) == Records(s.file) + [s.pending[0]]
    ensures Records(Lands(s).file) + Lands(s).pending == Records(s.file) + s.pending
  {
    RecordsSnoc(s.file, Stated(s.pending[0]));
  }

  lemma LandsKeeps(s: Store, clock: int, limits: Limits)
    requires Inv(s, clock, limits) && s.pending != []
    ensures Inv(Lands(s), clock, limits)
  {
    LandsFile(s);
    SameButFile(s, Lands(s), clock, limits);
  }

  lemma SameButFile(s: Store, t: Store, clock: int, limits: Limits)
    requires Inv(s, clock, limits) && t.held == s.held && t.asked == s.asked && FileKnown(t)
    ensures Inv(t, clock, limits)
  {
  }

  lemma LineFailsFile(s: Store)
    requires FileKnown(s) && s.pending != []
    ensures FileKnown(LineFails(s))
  {
    var before := Records(s.file) + s.pending;
    var after := Records(s.file) + s.pending[1..];
    var n := |Records(s.file)|;
    assert forall i :: 0 <= i < |after| ==> after[i] == before[if i < n then i else i + 1];
  }

  lemma LineFailsKeeps(s: Store, clock: int, limits: Limits)
    requires Inv(s, clock, limits) && s.pending != []
    ensures Inv(LineFails(s), clock, limits)
  {
    LineFailsFile(s);
    SameButFile(s, LineFails(s), clock, limits);
  }

  lemma {:induction false} CompactedUnique(held: Held, order: seq<Sid>, log: seq<Record>)
    requires UniqueAdds(log) && forall i, j :: 0 <= i < j < |order| ==> order[i] != order[j]
    requires forall sid :: DistinctMids(Of(held, sid))
    requires forall sid, m :: m in Of(held, sid) ==> Add(sid, m) in log
    ensures UniqueAdds(Compacted(held, order))
  {
    if order != [] {
      var front, last := order[..|order| - 1], order[|order| - 1];
      CompactedUnique(held, front, log);
      var before, adds := Compacted(held, front), AddsOf(last, Of(held, last));
      forall i | 0 <= i < |before| ensures before[i] in log && before[i].Add? && before[i].sid != last {
        CompactedHolds(held, front, before[i]);
        assert before[i] in before;
      }
      forall i, j | 0 <= i < |before| && 0 <= j < |adds| ensures before[i].message.mid != adds[j].message.mid {
        assert adds[j] in log;
        if before[i].message.mid == adds[j].message.mid { SameAdd(log, before[i], adds[j]); }
      }
    }
  }

  lemma LoadedList(lines: seq<Line>, now: int, limits: Limits, sid: Sid)
    ensures Of(LoadedHeld(lines, now, limits), sid) == Live(Standing(Records(lines), sid), now, limits.retention)
    ensures forall m :: m in Of(LoadedHeld(lines, now, limits), sid)
                   <==> m in Standing(Records(lines), sid) && Fresh(m, now, limits.retention)
  {
    ReplayStands(Records(lines), sid);
    LiveHolds(Standing(Records(lines), sid), now, limits.retention);
  }

  /** Nothing comes out of a load that its file did not add. */
  lemma LoadedFrom(lines: seq<Line>, now: int, limits: Limits)
    requires UniqueAdds(Records(lines))
    ensures forall sid :: DistinctMids(Of(LoadedHeld(lines, now, limits), sid))
    ensures forall sid, m :: m in Of(LoadedHeld(lines, now, limits), sid) ==> Add(sid, m) in Records(lines)
  {
    forall sid ensures DistinctMids(Of(LoadedHeld(lines, now, limits), sid)) {
      LoadedList(lines, now, limits, sid);
      StandingDistinct(Records(lines), sid);
      LiveDistinct(Standing(Records(lines), sid), now, limits.retention);
    }
    forall sid, m | m in Of(LoadedHeld(lines, now, limits), sid) ensures Add(sid, m) in Records(lines) {
      LoadedList(lines, now, limits, sid);
      StandingHolds(Records(lines), sid, m);
    }
  }

  lemma WrittenIsKnown(t: Store)
    requires UniqueAdds(t.asked) && t.file == Lines(t.asked) && t.pending == []
    ensures FileKnown(t)
  {
    RecordsOfLines(t.asked);
    assert Records(t.file) + t.pending == t.asked;
  }

  lemma LoadedAsked(lines: seq<Line>, held: Held, now: int, limits: Limits, order: seq<Sid>)
    requires UniqueAdds(Records(lines)) && held == LoadedHeld(lines, now, limits) && IsOrderOf(order, held)
    ensures UniqueAdds(Compacted(held, order)) && forall sid :: DistinctMids(Of(held, sid))
  {
    LoadedFrom(lines, now, limits);
    CompactedUnique(held, order, Records(lines));
  }

  /** A restart establishes everything anew from whatever landed. */
  lemma LoadedKeeps(lines: seq<Line>, now: int, limits: Limits, order: seq<Sid>)
    requires UniqueAdds(Records(lines)) && IsOrderOf(order, LoadedHeld(lines, now, limits))
    ensures Inv(Loaded(lines, now, limits, order), now, limits)
  {
    var t := Loaded(lines, now, limits, order);
    LoadedAsked(lines, t.held, now, limits, order);
    WrittenIsKnown(t);
    CompactedKnown(t, order, now, limits);
  }

  lemma CompactedKnown(t: Store, order: seq<Sid>, now: int, limits: Limits)
    requires IsOrderOf(order, t.held) && t.asked == Compacted(t.held, order)
    requires forall sid :: DistinctMids(Of(t.held, sid))
    ensures Refines(t, now, limits) && HeldKnown(t)
  {
    forall sid ensures Standing(t.asked, sid) == Of(t.held, sid) {
      StandingCompacted(t.held, order, sid);
    }
    forall sid, m | m in Of(t.held, sid) ensures Add(sid, m) in t.asked {
      CompactedHolds(t.held, order, Add(sid, m));
    }
  }
}
