/** Where two promises stop, and exactly when: the cap and the ids across a kill. */
module DeliveryLimits {
  import opened InboxLog
  import opened InboxStore
  import opened Delivery
  import opened DeliveryProofs
  import opened DeliveryTheorems

  // --- runs, made longer ---

  lemma RunSnoc(states: seq<State>, events: seq<Event>, e: Event, t: State, limits: Limits)
    requires FromNothing(states, events, limits) && Next(states[|states| - 1], e, t, limits)
    ensures FromNothing(states + [t], events + [e], limits)
  {
    var n, after, done := |events|, states + [t], events + [e];
    forall i | 0 <= i < |done| ensures Next(after[i], done[i], after[i + 1], limits) {
      if i < n { assert after[i] == states[i] && after[i + 1] == states[i + 1] && done[i] == events[i]; }
    }
  }

  /** A restart is possible wherever the run stands. */
  lemma CanRestart(s: State, now: int, counter: nat, limits: Limits) returns (t: State, e: Event)
    requires s.clock <= now && IsLastCounter(counter, LoadedHeld(s.store.file, now, limits))
    ensures Next(s, e, t, limits) && e.Restarts? && t.counter == counter && t.clock == now
    ensures t.holds == map[] && t.sends == map[] && t.handed == [] && t.store.held == LoadedHeld(s.store.file, now, limits)
  {
    var held := LoadedHeld(s.store.file, now, limits);
    var order := KeysInOrder(held.Keys);
    t, e := RestartIn(s, now, counter, held, order, limits);
  }

  lemma RestartIn(s: State, now: int, counter: nat, held: Held, order: seq<Sid>, limits: Limits) returns (t: State, e: Event)
    requires s.clock <= now && held == LoadedHeld(s.store.file, now, limits)
    requires IsLastCounter(counter, held) && IsOrderOf(order, held)
    ensures Next(s, e, t, limits) && e.Restarts? && t.counter == counter && t.clock == now
    ensures t.holds == map[] && t.sends == map[] && t.handed == [] && t.store.held == held
  {
    var answered := set a | a in s.answered && a.message.mid !in s.gone;
    t := State(Loaded(s.store.file, now, limits, order), now, counter,
               map[], map[], map[], map[], [], {}, answered, map[], held);
    e := Restarts(now, false, order);
    assert FileAfterKill(s, false) == s.store.file;
  }

  lemma {:induction false} KeysInOrder(keys: set<Sid>) returns (order: seq<Sid>)
    ensures forall sid :: sid in order <==> sid in keys
    ensures forall i, j :: 0 <= i < j < |order| ==> order[i] != order[j]
  {
    if keys == {} {
      order := [];
    } else {
      var sid :| sid in keys;
      order := KeysInOrder(keys - {sid});
      order := order + [sid];
    }
  }

  // --- the cap across a kill ---

  /** Line `i` leaves `sid` a message still inside the window. */
  predicate Stays(log: seq<Record>, i: nat, sid: Sid, now: int, limits: Limits) {
    i < |log| && Survives(log, i, sid) && now - log[i].message.sentAt <= limits.retention
  }

  /** The landed lines that do. */
  function Landed(log: seq<Record>, n: nat, sid: Sid, now: int, limits: Limits): set<nat> {
    set i: nat | i < n && Stays(log, i, sid, now, limits)
  }

  lemma LandedOneMore(log: seq<Record>, n: nat, sid: Sid, now: int, limits: Limits)
    ensures |Landed(log, n + 1, sid, now, limits)|
         == |Landed(log, n, sid, now, limits)| + if Stays(log, n, sid, now, limits) then 1 else 0
  {
    var before, after := Landed(log, n, sid, now, limits), Landed(log, n + 1, sid, now, limits);
    if Stays(log, n, sid, now, limits) { OneMore(before, after, n); } else { assert after == before; }
  }

  lemma OneMore(before: set<nat>, after: set<nat>, n: nat)
    requires n !in before && forall i :: i in after <==> i == n || i in before
    ensures |after| == |before| + 1
  {
    assert after == before + {n};
  }

  lemma {:induction false} LandedCount(log: seq<Record>, n: nat, sid: Sid, now: int, limits: Limits)
    requires n <= |log|
    ensures |Live(Survivors(log, n, sid), now, limits.retention)| == |Landed(log, n, sid, now, limits)|
  {
    if n > 0 {
      LandedCount(log, n - 1, sid, now, limits);
      LandedOneMore(log, n - 1, sid, now, limits);
      if Survives(log, n - 1, sid) {
        LiveSnoc(Survivors(log, n - 1, sid), log[n - 1].message, now, limits.retention);
      }
    }
  }

  /** What a restart leaves a session, counted on the disk before it; so the cap
      holds after a kill exactly when no more than that many landed add lines of
      the session survive and are inside the window. */
  lemma CapAfterKillExactly(s: State, t: State, now: int, torn: bool, order: seq<Sid>, sid: Sid, limits: Limits)
    requires Next(s, Restarts(now, torn, order), t, limits)
    ensures var log := Records(s.store.file);
      |Of(t.store.held, sid)| <= limits.perSid <==> |Landed(log, |log|, sid, now, limits)| <= limits.perSid
  {
    var log := Records(s.store.file);
    if torn { RecordsSnoc(s.store.file, Refused); }
    LoadedList(FileAfterKill(s, torn), now, limits, sid);
    StandingIsSurvivors(log, sid);
    LandedCount(log, |log|, sid, now, limits);
  }

  /** With every line written and none on its way, a kill changes nothing: each
      session is left what it held, less what has run out. */
  lemma QuietKillLosesNothing(states: seq<State>, events: seq<Event>, r: nat, sid: Sid, limits: Limits)
    requires FromNothing(states, events, limits) && r < |events| && events[r].Restarts?
    requires !states[r].store.lost && states[r].store.pending == []
    ensures Of(states[r + 1].store.held, sid) == Live(Of(states[r].store.held, sid), events[r].now, limits.retention)
  {
    RunKeeps(states, events, r, limits);
    var s, now := states[r], events[r].now;
    assert Next(s, events[r], states[r + 1], limits);
    if events[r].torn { RecordsSnoc(s.store.file, Refused); }
    LoadedList(FileAfterKill(s, events[r].torn), now, limits, sid);
    assert Records(s.store.file) + s.store.pending == Records(s.store.file);
    RefinesLater(s.store, s.clock, now, limits);
  }

  lemma LoadedStep(s: State, e: Event, t: State, limits: Limits)
    requires Next(s, e, t, limits)
    ensures t.loaded == if e.Restarts? then t.store.held else s.loaded
  {
  }

  lemma {:induction false} LoadedSince(states: seq<State>, events: seq<Event>, i: nat, k: nat, limits: Limits)
    requires Run(states, events, limits) && i <= k < |states| && forall j :: i <= j < k ==> !events[j].Restarts?
    ensures states[k].loaded == states[i].loaded
  {
    if i < k {
      LoadedSince(states, events, i, k - 1, limits);
      LoadedStep(states[k - 1], events[k - 1], states[k], limits);
    }
  }

  /** The cap, from one kill up to the next: when what landed was within it at the
      kill, a session none of whose holds is in flight or failed is within it. */
  lemma CapSinceKill(states: seq<State>, events: seq<Event>, r: nat, k: nat, sid: Sid, limits: Limits)
    requires FromNothing(states, events, limits) && r < k < |states| && events[r].Restarts?
    requires forall j :: r < j < k ==> !events[j].Restarts?
    requires var log := Records(states[r].store.file); |Landed(log, |log|, sid, events[r].now, limits)| <= limits.perSid
    requires FailuresOf(states[k], sid) == 0 && forall mid :: mid in states[k].holds ==> states[k].holds[mid].sid != sid
    ensures |Of(states[k].store.held, sid)| <= limits.perSid
  {
    var e := events[r];
    assert Next(states[r], e, states[r + 1], limits);
    CapAfterKillExactly(states[r], states[r + 1], e.now, e.torn, e.order, sid, limits);
    LoadedStep(states[r], e, states[r + 1], limits);
    LoadedSince(states, events, r + 1, k, limits);
    CapUnderConcurrency(states, events, k, sid, limits);
  }

  // --- the runs that go over it, for every cap ---

  function Numbered(n: nat): (r: seq<Message>)
    ensures |r| == n && forall i :: 0 <= i < n ==> r[i] == Message(Own(i + 1), 0, "")
  {
    if n == 0 then [] else Numbered(n - 1) + [Message(Own(n), 0, "")]
  }

  lemma {:induction false} AllLive(list: seq<Message>, now: int, retention: nat)
    requires forall m :: m in list ==> InboxLog.Fresh(m, now, retention)
    ensures Live(list, now, retention) == list
  {
    if list != [] {
      AllLive(list[..|list| - 1], now, retention);
      assert list[|list| - 1] in list;
    }
  }

  /** A file of one session's adds, all inside the window, loads as that list. */
  lemma AddsLoad(sid: Sid, list: seq<Message>, now: int, limits: Limits, other: Sid)
    requires forall m :: m in list ==> now - m.sentAt <= limits.retention
    ensures Of(LoadedHeld(Lines(AddsOf(sid, list)), now, limits), other) == if other == sid then list else []
  {
    RecordsOfLines(AddsOf(sid, list));
    StandingAdds([], sid, list, other);
    assert [] + AddsOf(sid, list) == AddsOf(sid, list) && [] + list == list;
    LoadedList(Lines(AddsOf(sid, list)), now, limits, other);
    AllLive(list, now, limits.retention);
  }

  /** `n` messages of `sid` are on disk, none of their holds having gone on. */
  ghost predicate OnDisk(s: State, sid: Sid, n: nat) {
    && s.clock == 0 && s.counter == n && s.sends == map[]
    && s.store.pending == [] && s.store.file == Lines(AddsOf(sid, Numbered(n)))
  }

  lemma NumberedLines(sid: Sid, n: nat)
    ensures Lines(AddsOf(sid, Numbered(n + 1)))
         == Lines(AddsOf(sid, Numbered(n))) + [Stated(Add(sid, Message(Own(n + 1), 0, "")))]
  {
    assert Numbered(n + 1)[..n] == Numbered(n);
    LinesConcat(AddsOf(sid, Numbered(n)), [Add(sid, Message(Own(n + 1), 0, ""))]);
  }

  lemma OneMoreLands(s: State, sid: Sid, m: Message, limits: Limits) returns (a: State, b: State, t: State)
    requires s.sends == map[] && s.store.pending == [] && m == Message(Own(s.counter + 1), s.clock, "")
    ensures Next(s, Arrive(sid, s.clock, ""), a, limits) && Next(a, SendWaits(m.mid, s.clock), b, limits) && Next(b, Lands, t, limits)
    ensures t.counter == s.counter + 1 && t.clock == s.clock && t.sends == map[] && t.store.pending == []
    ensures t.store.file == s.store.file + [Stated(Add(sid, m))]
  {
    a := DoArrive(s, sid, s.clock, "");
    b := DoSendWaits(a, m.mid, s.clock, limits);
    t := b.(store := InboxStore.Lands(b.store));
    assert b.store.pending == [Add(sid, m)];
  }

  lemma {:induction false} ManyOnDisk(sid: Sid, n: nat, limits: Limits) returns (states: seq<State>, events: seq<Event>)
    ensures FromNothing(states, events, limits) && OnDisk(states[|states| - 1], sid, n)
  {
    if n == 0 {
      states, events := [Fresh0(0)], [];
    } else {
      states, events := ManyOnDisk(sid, n - 1, limits);
      var a, b, t := OneMoreLands(states[|states| - 1], sid, Message(Own(n), 0, ""), limits);
      NumberedLines(sid, n - 1);
      states, events := Thrice(states, events, Arrive(sid, 0, ""), a, SendWaits(Own(n), 0), b, Lands, t, limits);
    }
  }

  lemma Thrice(states: seq<State>, events: seq<Event>, d: Event, a: State, e: Event, b: State, f: Event, t: State, limits: Limits)
      returns (more: seq<State>, done: seq<Event>)
    requires FromNothing(states, events, limits) && Next(states[|states| - 1], d, a, limits)
    requires Next(a, e, b, limits) && Next(b, f, t, limits)
    ensures FromNothing(more, done, limits) && more[|more| - 1] == t && done == events + [d, e, f]
  {
    RunSnoc(states, events, d, a, limits);
    RunSnoc(states + [a], events + [d], e, b, limits);
    RunSnoc(states + [a] + [b], events + [d] + [e], f, t, limits);
    more, done := states + [a] + [b] + [t], events + [d] + [e] + [f];
  }

  lemma LastOfNumbered(held: Held, sid: Sid, n: nat)
    requires forall other :: Of(held, other) == if other == sid then Numbered(n) else []
    ensures IsLastCounter(n, held)
  {
    if n > 0 {
      assert Of(held, sid)[n - 1] == Message(Own(n), 0, "");
      assert Of(held, sid)[n - 1] in Of(held, sid);
    }
  }

  lemma NumberedLoad(file: seq<Line>, sid: Sid, n: nat, limits: Limits, other: Sid)
    requires file == Lines(AddsOf(sid, Numbered(n)))
    ensures Of(LoadedHeld(file, 0, limits), other) == if other == sid then Numbered(n) else []
  {
    AddsLoad(sid, Numbered(n), 0, limits, other);
  }

  /** The cap does not survive a kill, whatever the cap is: holds whose lines
      landed before any of them went on to drop the oldest leave a session one
      over it, nothing in flight and no line lost. */
  lemma KillCanLeaveMoreThanTheCap(sid: Sid, limits: Limits) returns (states: seq<State>, events: seq<Event>)
    ensures FromNothing(states, events, limits)
    ensures states[|states| - 1].holds == map[] && FailuresOf(states[|states| - 1], sid) == 0
    ensures |Of(states[|states| - 1].store.held, sid)| == limits.perSid + 1
  {
    var n := limits.perSid + 1;
    states, events := ManyOnDisk(sid, n, limits);
    var s := states[|states| - 1];
    var held := LoadedHeld(s.store.file, 0, limits);
    forall other ensures Of(held, other) == if other == sid then Numbered(n) else [] {
      NumberedLoad(s.store.file, sid, n, limits, other);
    }
    LastOfNumbered(held, sid, n);
    var t, e := CanRestart(s, 0, n, limits);
    RunSnoc(states, events, e, t, limits);
    states, events := states + [t], events + [e];
  }

  /** `n` messages of `sid` are in memory, the add line of each having failed. */
  ghost predicate InMemory(s: State, sid: Sid, n: nat) {
    && s.clock == 0 && s.counter == n && s.sends == map[] && s.holds == map[] && s.loaded == map[]
    && s.store.pending == [] && Of(s.store.held, sid) == Numbered(n) && FailuresOf(s, sid) == n
  }

  lemma OneMoreInMemory(s: State, sid: Sid, n: nat, limits: Limits) returns (a: State, b: State, t: State)
    requires InMemory(s, sid, n)
    ensures Next(s, Arrive(sid, 0, ""), a, limits) && Next(a, SendWaits(Own(n + 1), 0), b, limits)
    ensures Next(b, Fails, t, limits) && InMemory(t, sid, n + 1)
  {
    a := DoArrive(s, sid, 0, "");
    b := DoSendWaits(a, Own(n + 1), 0, limits);
    t := DoFails(b);
    var m := Message(Own(n + 1), 0, "");
    AllLive(Numbered(n), 0, limits.retention);
    assert b.store.pending == [Add(sid, m)] && b.sends == map[] && b.holds == map[Own(n + 1) := Sending(sid, m)];
    assert Numbered(n + 1) == Numbered(n) + [m];
  }

  lemma {:induction false} ManyInMemory(sid: Sid, n: nat, limits: Limits) returns (states: seq<State>, events: seq<Event>)
    ensures FromNothing(states, events, limits) && InMemory(states[|states| - 1], sid, n)
    ensures forall e :: e in events ==> !e.Restarts?
  {
    if n == 0 {
      states, events := [Fresh0(0)], [];
    } else {
      states, events := ManyInMemory(sid, n - 1, limits);
      var a, b, t := OneMoreInMemory(states[|states| - 1], sid, n - 1, limits);
      states, events := Thrice(states, events, Arrive(sid, 0, ""), a, SendWaits(Own(n), 0), b, Fails, t, limits);
    }
  }

  /** Nor does it survive add lines that cannot be written, whatever the cap is: a
      hold that rejects leaves its message behind and drops nothing, so a session
      goes over with no hold in flight and without any kill. */
  lemma FailedLinesLeaveMoreThanTheCap(sid: Sid, limits: Limits) returns (states: seq<State>, events: seq<Event>)
    ensures FromNothing(states, events, limits) && forall e :: e in events ==> !e.Restarts?
    ensures states[|states| - 1].holds == map[] && Of(states[|states| - 1].loaded, sid) == []
    ensures |Of(states[|states| - 1].store.held, sid)| == limits.perSid + 1 == FailuresOf(states[|states| - 1], sid)
  {
    states, events := ManyInMemory(sid, limits.perSid + 1, limits);
  }

  // --- ids across a kill ---

  /** No landed line that survives, of a message still inside the window, carries
      an own id of `n` or more. */
  ghost predicate Frees(log: seq<Record>, now: int, n: nat, limits: Limits) {
    forall i :: 0 <= i < |log| && log[i].Add? && Survives(log, i, log[i].sid)
                && now - log[i].message.sentAt <= limits.retention && log[i].message.mid.Own?
            ==> log[i].message.mid.counter < n
  }

  /** A message is held exactly when a line that survives, inside the window, has
      it. */
  ghost predicate HeldFrom(held: Held, log: seq<Record>, now: int, limits: Limits) {
    && (forall sid, m :: m in Of(held, sid) ==> now - m.sentAt <= limits.retention && HasLine(log, sid, m))
    && (forall i :: 0 <= i < |log| && log[i].Add? && Survives(log, i, log[i].sid)
                    && now - log[i].message.sentAt <= limits.retention
          ==> log[i].message in Of(held, log[i].sid))
  }

  ghost predicate HasLine(log: seq<Record>, sid: Sid, m: Message) {
    exists i :: 0 <= i < |log| && Survives(log, i, sid) && log[i].message == m
  }

  lemma KillLeavesLines(s: State, t: State, now: int, torn: bool, order: seq<Sid>, i: nat, limits: Limits)
    requires Next(s, Restarts(now, torn, order), t, limits) && i < |Records(s.store.file)|
    requires Survives(Records(s.store.file), i, Records(s.store.file)[i].sid)
    requires now - Records(s.store.file)[i].message.sentAt <= limits.retention
    ensures Records(s.store.file)[i].message in Of(t.store.held, Records(s.store.file)[i].sid)
  {
    KillLeaves(s, t, now, torn, order, Records(s.store.file)[i].sid, Records(s.store.file)[i].message, limits);
  }

  lemma KillLeavesNoMore(s: State, t: State, now: int, torn: bool, order: seq<Sid>, sid: Sid, m: Message, limits: Limits)
    requires Next(s, Restarts(now, torn, order), t, limits) && m in Of(t.store.held, sid)
    ensures now - m.sentAt <= limits.retention && HasLine(Records(s.store.file), sid, m)
  {
    KillLeaves(s, t, now, torn, order, sid, m, limits);
  }

  lemma KillLeavesHeldFrom(s: State, t: State, now: int, torn: bool, order: seq<Sid>, limits: Limits)
    requires Next(s, Restarts(now, torn, order), t, limits)
    ensures HeldFrom(t.store.held, Records(s.store.file), now, limits)
  {
    var log := Records(s.store.file);
    forall sid, m | m in Of(t.store.held, sid) ensures now - m.sentAt <= limits.retention && HasLine(log, sid, m) {
      KillLeavesNoMore(s, t, now, torn, order, sid, m, limits);
    }
    forall i | 0 <= i < |log| && log[i].Add? && Survives(log, i, log[i].sid)
               && now - log[i].message.sentAt <= limits.retention
      ensures log[i].message in Of(t.store.held, log[i].sid)
    {
      KillLeavesLines(s, t, now, torn, order, i, limits);
    }
  }

  lemma LastCounterOfLines(held: Held, counter: nat, log: seq<Record>, now: int, n: nat, limits: Limits)
    requires HeldFrom(held, log, now, limits) && IsLastCounter(counter, held) && n > 0
    ensures n > counter <==> Frees(log, now, n, limits)
  {
    if n <= counter {
      var sid, m :| m in Of(held, sid) && m.mid == Own(counter);
      assert HasLine(log, sid, m);
    }
  }

  /** Where the counter resumes, in terms of the disk before the restart. */
  lemma CounterResumesAbove(s: State, t: State, now: int, torn: bool, order: seq<Sid>, n: nat, limits: Limits)
    requires Next(s, Restarts(now, torn, order), t, limits) && n > 0
    ensures n > t.counter <==> Frees(Records(s.store.file), now, n, limits)
  {
    KillLeavesHeldFrom(s, t, now, torn, order, limits);
    LastCounterOfLines(t.store.held, t.counter, Records(s.store.file), now, n, limits);
  }

  /** A run carried on, without another kill. */
  ghost predicate Continues(states: seq<State>, events: seq<Event>, more: seq<State>, done: seq<Event>, limits: Limits) {
    && FromNothing(more, done, limits) && states <= more && events <= done && |states| == |events| + 1
    && forall j :: |events| <= j < |done| ==> !done[j].Restarts?
  }

  /** The `n`-th id is minted in a run, at or after event `from`. */
  ghost predicate Mints(states: seq<State>, events: seq<Event>, from: nat, n: nat) {
    exists j :: from <= j < |events| && j < |states| && events[j].Arrive? && states[j].counter + 1 == n
  }

  lemma ContinuesBy(states: seq<State>, events: seq<Event>, more: seq<State>, done: seq<Event>, e: Event, t: State, limits: Limits)
    requires Continues(states, events, more, done, limits) && !e.Restarts? && Next(more[|more| - 1], e, t, limits)
    ensures Continues(states, events, more + [t], done + [e], limits)
  {
    RunSnoc(more, done, e, t, limits);
  }

  lemma OneMoreHanded(s: State, sid: Sid, n: nat, limits: Limits) returns (a: State, t: State)
    requires n == s.counter + 1
    ensures Next(s, Arrive(sid, s.clock, ""), a, limits) && Next(a, SendPublished(Own(n)), t, limits)
    ensures t.counter == n && t.store == s.store && t.clock == s.clock && Handing(sid, Own(n)) in t.handed
  {
    a := DoArrive(s, sid, s.clock, "");
    t := NoteHanded(a.(sends := a.sends - {Own(n)}), sid, [Own(n)]);
    assert t.handed[|a.handed|] == Handing(sid, Own(n));
  }

  /** Any id above the counter is minted and handed over in the run carried on. */
  lemma {:induction false} MintUpTo(states: seq<State>, events: seq<Event>, sid: Sid, n: nat, limits: Limits)
      returns (more: seq<State>, done: seq<Event>)
    requires FromNothing(states, events, limits) && states[|states| - 1].counter < n
    ensures Continues(states, events, more, done, limits) && Mints(more, done, |events|, n)
    ensures more[|more| - 1].counter == n && Handing(sid, Own(n)) in more[|more| - 1].handed
    ensures more[|more| - 1].store == states[|states| - 1].store && more[|more| - 1].clock == states[|states| - 1].clock
    decreases n
  {
    more, done := states, events;
    if states[|states| - 1].counter + 1 < n { more, done := MintUpTo(states, events, sid, n - 1, limits); }
    var s := more[|more| - 1];
    var a, t := OneMoreHanded(s, sid, n, limits);
    var arrive, published := Arrive(sid, s.clock, ""), SendPublished(Own(n));
    ContinuesBy(states, events, more, done, arrive, a, limits);
    ContinuesBy(states, events, more + [a], done + [arrive], published, t, limits);
    var j := |done|;
    more, done := more + [a] + [t], done + [arrive] + [published];
    assert done[j] == arrive && more[j] == s;
  }

  lemma CounterStep(s: State, e: Event, t: State, limits: Limits)
    requires Next(s, e, t, limits) && !e.Restarts?
    ensures s.counter <= t.counter
  {
  }

  lemma {:induction false} CounterGrows(states: seq<State>, events: seq<Event>, i: nat, k: nat, limits: Limits)
    requires Run(states, events, limits) && i <= k < |states| && forall j :: i <= j < k ==> !events[j].Restarts?
    ensures states[i].counter <= states[k].counter
  {
    if i < k {
      CounterGrows(states, events, i, k - 1, limits);
      CounterStep(states[k - 1], events[k - 1], states[k], limits);
    }
  }

  /** Which ids a kill frees, exactly: after a restart the `n`-th id can be minted
      before the next kill if and only if no surviving line it found on the disk,
      of a message inside the window, carries that id or a higher one. */
  lemma ReissuedExactlyWhenFreed(states: seq<State>, events: seq<Event>, n: nat, limits: Limits)
    requires FromNothing(states, events, limits) && n > 0
    requires events != [] && events[|events| - 1].Restarts?
    ensures (exists more: seq<State>, done: seq<Event> :: Continues(states, events, more, done, limits) && Mints(more, done, |events|, n))
       <==> Frees(Records(states[|states| - 2].store.file), events[|events| - 1].now, n, limits)
  {
    var s, e, t := states[|states| - 2], events[|events| - 1], states[|states| - 1];
    assert Next(states[|events| - 1], events[|events| - 1], states[|events| - 1 + 1], limits);
    CounterResumesAbove(s, t, e.now, e.torn, e.order, n, limits);
    if n > t.counter {
      var more, done := MintUpTo(states, events, "", n, limits);
    }
    forall more: seq<State>, done: seq<Event> | Continues(states, events, more, done, limits) && Mints(more, done, |events|, n) ensures n > t.counter {
      var j :| |events| <= j < |done| && j < |more| && done[j].Arrive? && more[j].counter + 1 == n;
      assert more[|events|] == t;
      CounterGrows(more, done, |events|, j, limits);
    }
  }

  /** And a freed id is not only minted but handed over, to any session: where the
      process before the kill had handed it over too, one id has named two
      messages. */
  lemma FreedIdIsHandedOver(states: seq<State>, events: seq<Event>, sid: Sid, n: nat, limits: Limits)
      returns (more: seq<State>, done: seq<Event>)
    requires FromNothing(states, events, limits) && n > 0 && events != [] && events[|events| - 1].Restarts?
    requires Frees(Records(states[|states| - 2].store.file), events[|events| - 1].now, n, limits)
    ensures Continues(states, events, more, done, limits) && Handing(sid, Own(n)) in more[|more| - 1].handed
  {
    var e := events[|events| - 1];
    assert Next(states[|events| - 1], e, states[|events| - 1 + 1], limits);
    CounterResumesAbove(states[|states| - 2], states[|states| - 1], e.now, e.torn, e.order, n, limits);
    more, done := MintUpTo(states, events, sid, n, limits);
  }

  /** That happens, for every id: handed over, the process killed, handed over. */
  lemma DeliveredIdIsReissued(sid: Sid, n: nat, limits: Limits) returns (states: seq<State>, events: seq<Event>, r: nat)
    requires n > 0
    ensures FromNothing(states, events, limits) && r < |events| && events[r].Restarts?
    ensures forall j :: 0 <= j < |events| && j != r ==> !events[j].Restarts?
    ensures Handing(sid, Own(n)) in states[r].handed && Handing(sid, Own(n)) in states[|states| - 1].handed
  {
    var before, done := MintUpTo([Fresh0(0)], [], sid, n, limits);
    r := |done|;
    var s := before[r];
    assert s == before[|before| - 1] && s.store.file == [];
    assert IsLastCounter(0, LoadedHeld(s.store.file, 0, limits));
    var t, e := CanRestart(s, 0, 0, limits);
    RunSnoc(before, done, e, t, limits);
    states, events := FreedIdIsHandedOver(before + [t], done + [e], sid, n, limits);
    assert states[r] == (before + [t])[r] && events[r] == (done + [e])[r];
    assert forall j :: 0 <= j < r ==> events[j] == (done + [e])[j];
  }
}
