/** Delivery over the inbox as a machine of atomic stretches: everything between
    two awaits of `send`, `hold`, an offer and a snapshot is one event, and the
    events of different calls interleave freely. A restart is an event too. */
module Delivery {
  import opened InboxLog
  import opened InboxStore

  /** One record of a message having been given to its session. */
  datatype Handing = Handing(sid: Sid, mid: Mid)

  datatype Sending = Sending(sid: Sid, message: Message)

  /** `handed`, `gone`, `answered`, `failures` and `loaded` are history of the
      current process run; the rest is what the two classes keep. */
  datatype State = State(
    store: Store,
    clock: int,
    counter: nat,
    sends: map<Mid, Sending>,         // minted, the direct route not yet settled
    holds: map<Mid, Sending>,         // `hold` waiting for its add line
    offers: map<Sid, seq<Message>>,   // what a running offer has still to hand over
    claimed: map<Sid, set<Mid>>,
    handed: seq<Handing>,
    gone: set<Mid>,                   // handed over, or dropped for a newer one
    answered: set<Sending>,           // holds that were answered
    failures: map<Sid, nat>,          // holds whose add line could not be written
    loaded: Held)

  datatype Event =
    | Arrive(sid: Sid, now: int, text: string)
    | SendCarried(mid: Mid, now: int)    // route (a) took it: handed, then an offer
    | SendPublished(mid: Mid)            // route (b) took it
    | SendWaits(mid: Mid, now: int)      // neither did: `hold` begins
    | SendThrows(mid: Mid)
    | HoldEnds(mid: Mid)
    | Lands
    | Fails
    | OfferStarts(sid: Sid, now: int)
    | OfferCarried(sid: Sid)
    | OfferStops(sid: Sid)
    | Subscribes(sid: Sid, now: int)
    | Looks(sid: Sid, now: int)
    | Restarts(now: int, torn: bool, order: seq<Sid>)

  function HandingsOf(sid: Sid, mids: seq<Mid>): (r: seq<Handing>)
    ensures |r| == |mids| && forall i :: 0 <= i < |r| ==> r[i] == Handing(sid, mids[i])
  {
    if mids == [] then [] else HandingsOf(sid, mids[..|mids| - 1]) + [Handing(sid, mids[|mids| - 1])]
  }

  function Mids(s: seq<Message>): (r: seq<Mid>)
    ensures |r| == |s| && forall i :: 0 <= i < |s| ==> r[i] == s[i].mid
  {
    if s == [] then [] else Mids(s[..|s| - 1]) + [s[|s| - 1].mid]
  }

  function NoteHanded(s: State, sid: Sid, mids: seq<Mid>): State {
    s.(handed := s.handed + HandingsOf(sid, mids), gone := s.gone + set mid <- mids)
  }

  function Claimed(s: State, sid: Sid): set<Mid> {
    if sid in s.claimed then s.claimed[sid] else {}
  }

  function FailuresOf(s: State, sid: Sid): nat {
    if sid in s.failures then s.failures[sid] else 0
  }

  /** The files a kill can leave: what landed, and perhaps one torn line. */
  function FileAfterKill(s: State, torn: bool): seq<Line> {
    if torn then s.store.file + [Refused] else s.store.file
  }

  // --- one function per stretch ---

  function DoArrive(s: State, sid: Sid, now: int, text: string): State {
    var m := Message(Own(s.counter + 1), now, text);
    s.(clock := now, counter := s.counter + 1, sends := s.sends[m.mid := Sending(sid, m)])
  }

  function DoOfferStarts(s: State, sid: Sid, now: int, limits: Limits): State {
    if sid in s.offers then s.(clock := now)
    else
      var store := Looked(s.store, sid, now, limits);
      var owed := Of(store.held, sid);
      s.(clock := now, store := store,
         offers := if owed == [] then s.offers else s.offers[sid := owed],
         claimed := if owed == [] then s.claimed else s.claimed[sid := MidsOf(owed)])
  }

  function DoOfferCarried(s: State, sid: Sid): State
    requires sid in s.offers && s.offers[sid] != [] && sid in s.claimed
  {
    var mid := s.offers[sid][0].mid;
    NoteHanded(s.(offers := s.offers[sid := s.offers[sid][1..]],
              claimed := s.claimed[sid := s.claimed[sid] - {mid}],
              store := Hand(s.store, sid, [mid])), sid, [mid])
  }

  function DoOfferStops(s: State, sid: Sid): State {
    s.(offers := s.offers - {sid}, claimed := s.claimed - {sid})
  }

  /** `snapshot` for a session: everything held and not claimed leaves. */
  function DoSubscribes(s: State, sid: Sid, now: int, limits: Limits): State {
    var store := Looked(s.store, sid, now, limits);
    var mids := Mids(Without(Of(store.held, sid), Claimed(s, sid)));
    NoteHanded(s.(clock := now, store := Hand(store, sid, mids)), sid, mids)
  }

  function DoSendWaits(s: State, mid: Mid, now: int, limits: Limits): State
    requires mid in s.sends
  {
    var sending := s.sends[mid];
    s.(clock := now, sends := s.sends - {mid}, holds := s.holds[mid := sending],
       store := HoldBegins(s.store, sending.sid, sending.message, now, limits))
  }

  function DoHoldEnds(s: State, mid: Mid, limits: Limits): State
    requires mid in s.holds
  {
    var sid := s.holds[mid].sid;
    s.(holds := s.holds - {mid}, answered := s.answered + {s.holds[mid]},
       store := HoldResumes(s.store, sid, limits), gone := s.gone + Evicted(s.store, sid, limits))
  }

  /** What `hold` drops for the newer one, if anything. */
  function Evicted(s: Store, sid: Sid, limits: Limits): set<Mid> {
    if Evicts(s, sid, limits) then {Of(s.held, sid)[0].mid} else {}
  }

  /** The line at the head of the chain is not written. When it is the add a
      hold is waiting for, the hold rejects and leaves its message in memory. */
  function DoFails(s: State): State
    requires s.store.pending != []
  {
    var line := s.store.pending[0];
    var rejects := line.Add? && line.message.mid in s.holds;
    s.(store := LineFails(s.store),
       holds := if rejects then s.holds - {line.message.mid} else s.holds,
       failures := if rejects then s.failures[line.sid := FailuresOf(s, line.sid) + 1] else s.failures)
  }

  /** The largest own counter among the held messages (`lastCounter`). */
  ghost predicate IsLastCounter(n: nat, held: Held) {
    && (forall sid, m :: m in Of(held, sid) && m.mid.Own? ==> m.mid.counter <= n)
    && (n > 0 ==> exists sid, m :: m in Of(held, sid) && m.mid == Own(n))
  }

  ghost predicate Restarted(s: State, t: State, now: int, torn: bool, order: seq<Sid>, limits: Limits) {
    var lines := FileAfterKill(s, torn);
    && IsOrderOf(order, LoadedHeld(lines, now, limits))
    && t.store == Loaded(lines, now, limits, order)
    && t.clock == now && IsLastCounter(t.counter, t.store.held)
    && t.sends == map[] && t.holds == map[] && t.offers == map[] && t.claimed == map[]
    && t.handed == [] && t.gone == {} && t.failures == map[] && t.loaded == t.store.held
    && t.answered == set a | a in s.answered && a.message.mid !in s.gone
  }

  ghost predicate Next(s: State, e: Event, t: State, limits: Limits) {
    match e
    case Arrive(sid, now, text) => s.clock <= now && t == DoArrive(s, sid, now, text)
    case SendCarried(mid, now) =>
      && s.clock <= now && mid in s.sends
      && t == DoOfferStarts(NoteHanded(s.(sends := s.sends - {mid}), s.sends[mid].sid, [mid]), s.sends[mid].sid, now, limits)
    case SendPublished(mid) =>
      mid in s.sends && t == NoteHanded(s.(sends := s.sends - {mid}), s.sends[mid].sid, [mid])
    case SendWaits(mid, now) => s.clock <= now && mid in s.sends && t == DoSendWaits(s, mid, now, limits)
    case SendThrows(mid) => t == s.(sends := s.sends - {mid})
    case HoldEnds(mid) =>
      && mid in s.holds && Add(s.holds[mid].sid, s.holds[mid].message) in Records(s.store.file)
      && t == DoHoldEnds(s, mid, limits)
    case Lands => s.store.pending != [] && t == s.(store := InboxStore.Lands(s.store))
    case Fails => s.store.pending != [] && t == DoFails(s)
    case OfferStarts(sid, now) => s.clock <= now && t == DoOfferStarts(s, sid, now, limits)
    case OfferCarried(sid) =>
      sid in s.offers && s.offers[sid] != [] && sid in s.claimed && t == DoOfferCarried(s, sid)
    case OfferStops(sid) => t == DoOfferStops(s, sid)
    case Subscribes(sid, now) => s.clock <= now && t == DoSubscribes(s, sid, now, limits)
    case Looks(sid, now) => s.clock <= now && t == s.(clock := now, store := Looked(s.store, sid, now, limits))
    case Restarts(now, torn, order) => s.clock <= now && Restarted(s, t, now, torn, order, limits)
  }

  /** A run: the states and the events between them. */
  ghost predicate Run(states: seq<State>, events: seq<Event>, limits: Limits) {
    && |states| == |events| + 1
    && forall i :: 0 <= i < |events| ==> Next(states[i], events[i], states[i + 1], limits)
  }

  /** The very first start, on no file at all. */
  function Fresh0(now: int): State {
    State(Store(map[], [], [], [], false), now, 0, map[], map[], map[], map[], [], {}, {}, map[], map[])
  }

  // --- what holds in every reachable state ---

  function HandedMids(s: State): set<Mid> {
    set h <- s.handed :: h.mid
  }

  /** Ids are issued upward, so a minted one is new to everything. */
  ghost predicate Ids(s: State) {
    && (forall x :: x in s.store.asked && x.Add? && x.message.mid.Own? ==> x.message.mid.counter <= s.counter)
    && (forall mid :: mid in s.sends ==> mid.Own? && mid.counter <= s.counter && s.sends[mid].message.mid == mid)
    && (forall mid :: mid in s.sends ==> Unused(s.store, mid))
    && (forall x :: x in s.store.asked && !x.Add? ==> x.mid !in s.sends && (x.mid.Own? ==> x.mid.counter <= s.counter))
    && (forall mid :: mid in HandedMids(s) && mid.Own? ==> mid.counter <= s.counter)
  }

  ghost predicate Claims(s: State) {
    && s.claimed.Keys == s.offers.Keys
    && (forall sid :: sid in s.offers ==> s.claimed[sid] == MidsOf(s.offers[sid]) && DistinctMids(s.offers[sid]))
    && (forall sid, m :: sid in s.offers && m in s.offers[sid] ==> Add(sid, m) in s.store.asked)
  }

  /** No id is handed over twice, and nothing handed over is still to go. */
  ghost predicate Once(s: State) {
    && (forall i, j :: 0 <= i < j < |s.handed| ==> s.handed[i].mid != s.handed[j].mid)
    && (forall sid, m :: m in Of(s.store.held, sid) ==> m.mid !in HandedMids(s))
    && (forall sid, m :: sid in s.offers && m in s.offers[sid] ==> m.mid !in HandedMids(s))
    && (forall mid :: mid in s.sends ==> mid !in HandedMids(s))
  }

  ghost predicate NoRemoval(log: seq<Record>, sid: Sid, mid: Mid) {
    forall x :: x in log ==> !Removes(x, sid, mid)
  }

  /** A message is still where a session will get it, unless it went, or is past
      the window. */
  ghost predicate Waiting(s: State, a: Sending, limits: Limits) {
    a.message.mid in s.gone || !InboxLog.Fresh(a.message, s.clock, limits.retention)
    || (a.message in Of(s.store.held, a.sid) && NoRemoval(s.store.asked, a.sid, a.message.mid))
  }

  ghost predicate Durable(s: State, limits: Limits) {
    && (forall mid :: mid in s.holds ==>
          && s.holds[mid].message.mid == mid && Waiting(s, s.holds[mid], limits)
          && Add(s.holds[mid].sid, s.holds[mid].message) in s.store.asked)
    && (forall a :: a in s.answered ==> Waiting(s, a, limits))
    && (forall a :: a in s.answered && a.message.mid !in s.gone && InboxLog.Fresh(a.message, s.clock, limits.retention)
          ==> Add(a.sid, a.message) in Records(s.store.file))
  }

  function HoldsFor(holds: map<Mid, Sending>, sid: Sid): set<Mid> {
    set mid | mid in holds && holds[mid].sid == sid
  }

  function Room(s: State, sid: Sid, limits: Limits): nat {
    (if limits.perSid < |Of(s.loaded, sid)| then |Of(s.loaded, sid)| else limits.perSid)
    + |HoldsFor(s.holds, sid)| + FailuresOf(s, sid)
  }

  ghost predicate Capped(s: State, limits: Limits) {
    forall sid :: |Of(s.store.held, sid)| <= Room(s, sid, limits)
  }

  ghost predicate Good(s: State, limits: Limits) {
    && InboxStore.Inv(s.store, s.clock, limits)
    && Ids(s) && Claims(s) && Once(s) && Durable(s, limits) && Capped(s, limits)
  }
}
