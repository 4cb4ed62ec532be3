/** What the messaging domain promises, over every run from an empty state
    directory: any interleaving of sends, holds, offers, snapshots, landing and
    failing lines, and restarts. */
module DeliveryTheorems {
  import opened InboxLog
  import opened InboxStore
  import opened Delivery
  import opened DeliveryProofs

  ghost predicate FromNothing(states: seq<State>, events: seq<Event>, limits: Limits) {
    Run(states, events, limits) && states[0] == Fresh0(states[0].clock)
  }

  /** Replay refines memory, although an expiry writes no line: at any later
      instant the log and the memory leave a session the same ordered list. It
      is the file's own log as long as no line failed to be written. */
  lemma ReplayRefinesMemory(states: seq<State>, events: seq<Event>, k: nat, sid: Sid, now: int, limits: Limits)
    requires FromNothing(states, events, limits) && k < |states| && states[k].clock <= now
    ensures var s, live := states[k].store, (list: seq<Message>) => Live(list, now, limits.retention);
      && live(Of(Replay(s.asked), sid)) == live(Of(s.held, sid))
      && (!s.lost ==> live(Of(Replay(Records(s.file) + s.pending), sid)) == live(Of(s.held, sid)))
  {
    RunKeeps(states, events, k, limits);
    var s := states[k].store;
    RefinesLater(s, states[k].clock, now, limits);
    ReplayStands(s.asked, sid);
  }

  /** No id is handed over twice in a process run, whichever routes compete. */
  lemma HandedAtMostOnce(states: seq<State>, events: seq<Event>, k: nat, i: nat, j: nat, limits: Limits)
    requires FromNothing(states, events, limits) && k < |states| && i < j < |states[k].handed|
    ensures states[k].handed[i].mid != states[k].handed[j].mid
  {
    RunKeeps(states, events, k, limits);
  }

  /** What is handed over is held, claimed or on its way nowhere else. */
  lemma HandedIsNowhereElse(states: seq<State>, events: seq<Event>, k: nat, mid: Mid, sid: Sid, m: Message, limits: Limits)
    requires FromNothing(states, events, limits) && k < |states| && mid in HandedMids(states[k])
    ensures mid !in states[k].sends && mid !in Claimed(states[k], sid)
    ensures m in Of(states[k].store.held, sid) ==> m.mid != mid
  {
    RunKeeps(states, events, k, limits);
  }

  /** What a kill leaves, both ways: a message is held after the restart exactly
      when its add line landed, no landed line after it removes it, and it is
      still inside the window. */
  lemma KillLeaves(s: State, t: State, now: int, torn: bool, order: seq<Sid>, sid: Sid, m: Message, limits: Limits)
    requires Next(s, Restarts(now, torn, order), t, limits)
    ensures m in Of(t.store.held, sid)
       <==> (now - m.sentAt <= limits.retention
             && exists i :: 0 <= i < |Records(s.store.file)| && Survives(Records(s.store.file), i, sid)
                            && Records(s.store.file)[i].message == m)
  {
    if torn { RecordsSnoc(s.store.file, Refused); }
    LoadedList(FileAfterKill(s, torn), now, limits, sid);
    StandingHolds(Records(s.store.file), sid, m);
  }

  lemma AnsweredRunsOn(s: State, e: Event, t: State, limits: Limits)
    requires Next(s, e, t, limits) && !e.Restarts?
    ensures s.answered <= t.answered
  {
  }

  lemma AnsweredStep(s: State, e: Event, t: State, a: Sending, limits: Limits)
    requires Next(s, e, t, limits) && a in s.answered
    ensures a in t.answered || a.message.mid in s.gone
  {
    if !e.Restarts? { AnsweredRunsOn(s, e, t, limits); }
  }

  lemma {:induction false} AnsweredStays(states: seq<State>, events: seq<Event>, i: nat, k: nat, a: Sending, limits: Limits)
    requires FromNothing(states, events, limits) && i <= k < |states| && a in states[i].answered
    ensures a in states[k].answered || exists j :: i <= j <= k && a.message.mid in states[j].gone
  {
    if i < k {
      AnsweredStays(states, events, i, k - 1, a, limits);
      if a in states[k - 1].answered {
        AnsweredStep(states[k - 1], events[k - 1], states[k], a, limits);
      }
    }
  }

  /** A message whose `hold` was answered is never lost, through any number of
      kills and restarts: it is handed over, dropped for a newer one, past the
      window, or still held in memory and on disk. */
  lemma AnsweredIsNeverLost(states: seq<State>, events: seq<Event>, i: nat, k: nat, a: Sending, limits: Limits)
    requires FromNothing(states, events, limits) && i <= k < |states| && a in states[i].answered
    ensures (exists j :: i <= j <= k && a.message.mid in states[j].gone)
         || states[k].clock - a.message.sentAt > limits.retention
         || (a.message in Of(states[k].store.held, a.sid) && Stated(Add(a.sid, a.message)) in states[k].store.file)
  {
    AnsweredStays(states, events, i, k, a, limits);
    RunKeeps(states, events, k, limits);
  }

  /** Cap under concurrency: a session's list is within the cap, or what the run
      started from when that was more, plus the holds in flight for it and the
      ones whose line could not be written. */
  lemma CapUnderConcurrency(states: seq<State>, events: seq<Event>, k: nat, sid: Sid, limits: Limits)
    requires FromNothing(states, events, limits) && k < |states|
    ensures |Of(states[k].store.held, sid)| <= Room(states[k], sid, limits)
    ensures |Of(states[k].loaded, sid)| <= limits.perSid && FailuresOf(states[k], sid) == 0
            && (forall mid :: mid in states[k].holds ==> states[k].holds[mid].sid != sid)
            ==> |Of(states[k].store.held, sid)| <= limits.perSid
  {
    RunKeeps(states, events, k, limits);
    var s := states[k];
    assert |Of(s.store.held, sid)| <= Room(s, sid, limits);
    if forall mid :: mid in s.holds ==> s.holds[mid].sid != sid {
      assert HoldsFor(s.holds, sid) == {};
    }
  }

  /** No two add lines of the current file, landed or on their way, carry one id,
      and a minted id is on none of them. */
  lemma LogIdsDistinct(states: seq<State>, events: seq<Event>, k: nat, limits: Limits)
    requires FromNothing(states, events, limits) && k < |states|
    ensures UniqueAdds(Records(states[k].store.file) + states[k].store.pending)
    ensures forall x :: x in Records(states[k].store.file) + states[k].store.pending && x.Add?
                   ==> x.message.mid != Own(states[k].counter + 1)
  {
    RunKeeps(states, events, k, limits);
  }
}
