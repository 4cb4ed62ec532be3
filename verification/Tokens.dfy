/** Token families written in one place: minting, rotation with one grace
    generation, the digests of what was rotated away, and failing on reuse. */
module Tokens {
  import opened Wrappers
  import opened Records

  const ACCESS_TTL_MS: int := 4 * 60 * 60 * 1000
  const REFRESH_TTL_MS: int := 7 * 24 * 60 * 60 * 1000
  const PREVIOUS_GRACE_MS: int := 60_000
  const ACCESS_KEEP_MS: int := ACCESS_TTL_MS / 2

  // --- what a value names ---

  predicate IsFamily(held: Held, k: Key) {
    k in held && held[k].body.TokenFamily?
  }

  predicate Standing(held: Held, k: Key, v: Value, now: int) {
    IsFamily(held, k) && var f := held[k].body.family; f.refresh.value == v && f.refresh.expiresAt > now
  }

  predicate InGrace(held: Held, k: Key, v: Value, now: int) {
    IsFamily(held, k) && var before := held[k].body.family.previous;
    before.Some? && before.value.value == v && before.value.expiresAt > now
  }

  /** `byRefresh` finds this family for this value. */
  predicate Answers(held: Held, k: Key, v: Value, now: int) {
    Standing(held, k, v, now) || InGrace(held, k, v, now)
  }

  predicate Remembers(f: Family, v: Value, now: int) {
    exists one :: one in f.retired && one.hash == Digest(v) && one.expiresAt > now
  }

  /** `retiring`: the families that rotated this value away. */
  function Retiring(held: Held, v: Value, now: int): set<Key> {
    set k | k in held && held[k].body.TokenFamily? && Remembers(held[k].body.family, v, now)
  }

  // --- rotation ---

  function Unexpired(retired: seq<Retired>, now: int): (r: seq<Retired>)
    ensures forall one :: one in r <==> one in retired && one.expiresAt > now
  {
    if retired == [] then []
    else
      var front, last := Unexpired(retired[..|retired| - 1], now), retired[|retired| - 1];
      assert retired == retired[..|retired| - 1] + [last];
      if last.expiresAt > now then front + [last] else front
  }

  function Retire(f: Family, now: int): seq<Retired> {
    Unexpired(f.retired, now) + [Retired(Digest(f.refresh.value), f.refresh.expiresAt)]
  }

  function Rotated(f: Family, at: int, access: Value, refresh: Value): Family {
    Family(f.user,
           if f.access.expiresAt - at >= ACCESS_KEEP_MS then f.access else Token(access, at + ACCESS_TTL_MS),
           Token(refresh, at + REFRESH_TTL_MS),
           Some(Token(f.refresh.value, at + PREVIOUS_GRACE_MS)),
           Retire(f, at))
  }

  function Minted(user: string, at: int, access: Value, refresh: Value): Family {
    Family(user, Token(access, at + ACCESS_TTL_MS), Token(refresh, at + REFRESH_TTL_MS), None, [])
  }

  /** The mark `fail` puts over each of `keys`. */
  function FailAll(held: Held, keys: set<Key>, now: int, retention: nat): Held {
    if keys == {} then held
    else Expire(map k | k in held :: if k in keys
                                     then Record(k, Stamp(held, k, now), Tombstone(now, Some(now + retention)))
                                     else held[k], now)
  }

  // --- one instance, over time ---

  /** A refresh value: whose it is, and when it was issued. */
  datatype Issue = Issue(key: Key, at: int)

  /** `issued` and `minted` are history. */
  datatype State = State(held: Held, clock: int, issued: map<Value, Issue>, minted: set<Key>)

  datatype Answer = Refused | Session(access: Token, refresh: Token)

  datatype Event =
    | Mint(key: Key, user: string, now: int, access: Value, refresh: Value)
    | Refresh(value: Value, now: int, at: int, admitted: bool, access: Value, refresh: Value, answer: Answer)
    | SignOut(key: Key, now: int)
    | Sweep(now: int)
    | Rest(now: int)

  function DoMint(s: State, key: Key, user: string, now: int, access: Value, refresh: Value): State {
    s.(clock := now, held := Write(s.held, key, TokenFamily(Minted(user, now, access, refresh)), now),
       issued := s.issued[refresh := Issue(key, now)], minted := s.minted + {key})
  }

  function DoRotate(s: State, k: Key, now: int, access: Value, refresh: Value): State
    requires IsFamily(s.held, k)
  {
    s.(clock := now, held := Write(s.held, k, TokenFamily(Rotated(s.held[k].body.family, now, access, refresh)), now),
       issued := s.issued[refresh := Issue(k, now)])
  }

  /** `refreshToken` at a family `byRefresh` found; `admitted` stands for the
      origin and the ownership checks. The lookup reads the clock at `now`, and
      what is written after it reads it again, at `at`. */
  ghost predicate RefreshFound(s: State, k: Key, e: Event, t: State)
    requires e.Refresh? && IsFamily(s.held, k)
  {
    var f := s.held[k].body.family;
    if !e.admitted then t == s.(clock := e.at) && e.answer == Refused
    else if !Standing(s.held, k, e.value, e.now) then
      t == s.(clock := e.at) && e.answer == Session(f.access, f.refresh)
    else
      && t == DoRotate(s, k, e.at, e.access, e.refresh)
      && e.answer == Session(Rotated(f, e.at, e.access, e.refresh).access, Rotated(f, e.at, e.access, e.refresh).refresh)
  }

  ghost predicate Next(s: State, e: Event, t: State, retention: nat) {
    && s.clock <= e.now
    && match e
       case Mint(key, user, now, access, refresh) =>
         key !in s.minted && key !in s.held && refresh !in s.issued && t == DoMint(s, key, user, now, access, refresh)
       case Refresh(v, now, at, _, _, refresh, _) =>
         && now <= at && refresh !in s.issued
         && (if exists k :: Answers(s.held, k, v, now)
             then exists k :: Answers(s.held, k, v, now) && RefreshFound(s, k, e, t)
             else t == s.(clock := at, held := FailAll(s.held, Retiring(s.held, v, now), at, retention))
                  && e.answer == Refused)
       case SignOut(key, now) =>
         IsFamily(s.held, key) && t == s.(clock := now, held := Erase(s.held, key, now, Some(retention)))
       case Sweep(now) => t == s.(clock := now, held := Expire(s.held, now))
       case Rest(now) =>   // writes of the other kinds of record
         && t == s.(clock := now, held := t.held)
         && (forall k :: k in s.minted ==> (k in s.held <==> k in t.held) && (k in s.held ==> t.held[k] == s.held[k]))
         && (forall k :: k !in s.minted ==> !IsFamily(t.held, k))
  }

  ghost predicate Run(states: seq<State>, events: seq<Event>, retention: nat) {
    && |states| == |events| + 1
    && states[0] == State(map[], states[0].clock, map[], {})
    && forall i :: 0 <= i < |events| ==> Next(states[i], events[i], states[i + 1], retention)
  }

  // --- what every reachable state satisfies ---

  ghost predicate Named(s: State, k: Key, v: Value, expiresAt: int) {
    v in s.issued && s.issued[v].key == k && expiresAt == s.issued[v].at + REFRESH_TTL_MS
  }

  /** Complete replay detection, for one family. */
  ghost predicate Detects(s: State, k: Key, f: Family) {
    && Named(s, k, f.refresh.value, f.refresh.expiresAt)
    && (forall v :: v in s.issued && s.issued[v].key == k && s.clock < s.issued[v].at + REFRESH_TTL_MS && v != f.refresh.value
          ==> Retired(Digest(v), s.issued[v].at + REFRESH_TTL_MS) in f.retired)
    && (forall one :: one in f.retired ==> Named(s, k, one.hash.of, one.expiresAt) && one.hash.of != f.refresh.value)
    && (forall v :: v in s.issued && s.issued[v].key == k ==> s.issued[v].at + REFRESH_TTL_MS <= f.refresh.expiresAt)
  }

  ghost predicate Graced(s: State, k: Key, f: Family) {
    f.previous.Some? ==>
      && f.previous.value.value in s.issued && s.issued[f.previous.value.value].key == k
      && f.previous.value.value != f.refresh.value
      && f.access.expiresAt - (f.previous.value.expiresAt - PREVIOUS_GRACE_MS) >= ACCESS_KEEP_MS
  }

  /** What an unexpired value was issued under is still a family or its mark. */
  ghost predicate Stands(s: State, v: Value) {
    v in s.issued && s.clock < s.issued[v].at + REFRESH_TTL_MS ==>
      && s.issued[v].key in s.held
      && match s.held[s.issued[v].key].body
         case TokenFamily(_) => true
         case Tombstone(_, Some(at)) => s.issued[v].at + REFRESH_TTL_MS <= at
         case Tombstone(_, None) => true
         case _ => false
  }

  ghost predicate Good(s: State) {
    && (forall v :: v in s.issued ==> s.issued[v].key in s.minted && s.issued[v].at <= s.clock)
    && (forall k :: IsFamily(s.held, k) ==> k in s.minted)
    && (forall k :: IsFamily(s.held, k) ==> Detects(s, k, s.held[k].body.family) && Graced(s, k, s.held[k].body.family))
    && (forall v :: Stands(s, v))
  }

  // --- each event keeps it ---

  /** `t` is later than `s`, and no value was issued for `k` in between. */
  ghost predicate Quiet(s: State, t: State, k: Key) {
    && s.clock <= t.clock
    && (forall v :: v in s.issued ==> v in t.issued && t.issued[v] == s.issued[v])
    && (forall v :: v in t.issued && t.issued[v].key == k ==> v in s.issued)
  }

  lemma QuietFamily(s: State, t: State, k: Key, f: Family)
    requires Detects(s, k, f) && Graced(s, k, f) && Quiet(s, t, k)
    ensures Detects(t, k, f) && Graced(t, k, f)
  {
  }

  /** Records that ran out take no unexpired value's family or mark with them. */
  lemma StandsExpired(s: State, t: State, v: Value)
    requires Stands(s, v) && s.clock <= t.clock && t.issued == s.issued && t.held == Expire(s.held, t.clock)
    requires forall k :: IsFamily(s.held, k) ==> Detects(s, k, s.held[k].body.family)
    ensures Stands(t, v)
  {
    if v in t.issued && t.clock < t.issued[v].at + REFRESH_TTL_MS && IsFamily(s.held, t.issued[v].key) {
      assert Detects(s, t.issued[v].key, s.held[t.issued[v].key].body.family);
    }
  }

  lemma TickKeeps(s: State, now: int)
    requires Good(s) && s.clock <= now
    ensures Good(s.(clock := now))
  {
    var t := s.(clock := now);
    forall k | IsFamily(t.held, k) ensures Detects(t, k, t.held[k].body.family) && Graced(t, k, t.held[k].body.family) {
      QuietFamily(s, t, k, s.held[k].body.family);
    }
    forall v ensures Stands(t, v) { assert Stands(s, v); }
  }

  lemma SweepKeeps(s: State)
    requires Good(s)
    ensures Good(s.(held := Expire(s.held, s.clock)))
  {
    var t := s.(held := Expire(s.held, s.clock));
    forall k | IsFamily(t.held, k) ensures Detects(t, k, t.held[k].body.family) && Graced(t, k, t.held[k].body.family) {
      QuietFamily(s, t, k, s.held[k].body.family);
    }
    forall v ensures Stands(t, v) { assert Stands(s, v); StandsExpired(s, t, v); }
  }

  /** A mark over one family, kept at least as long as a refresh token lives. */
  lemma MarkKeeps(s: State, k: Key, at: int, keep: nat)
    requires Good(s) && k in s.minted && keep >= REFRESH_TTL_MS
    ensures Good(s.(held := s.held[k := Record(k, at, Tombstone(s.clock, Some(s.clock + keep)))]))
  {
    var t := s.(held := s.held[k := Record(k, at, Tombstone(s.clock, Some(s.clock + keep)))]);
    forall x | IsFamily(t.held, x) ensures Detects(t, x, t.held[x].body.family) && Graced(t, x, t.held[x].body.family) {
      QuietFamily(s, t, x, s.held[x].body.family);
    }
    forall v ensures Stands(t, v) { assert Stands(s, v); }
  }

  /** A family's record replaced by its next generation, or by its first. */
  lemma WriteKeeps(s: State, k: Key, f: Family, refresh: Value, at: int)
    requires Good(s) && refresh !in s.issued && f.refresh == Token(refresh, s.clock + REFRESH_TTL_MS)
    requires k in s.held ==> IsFamily(s.held, k)
    requires k !in s.held ==> forall v :: v in s.issued ==> s.issued[v].key != k
    requires var t := s.(issued := s.issued[refresh := Issue(k, s.clock)]); Detects(t, k, f) && Graced(t, k, f)
    ensures Good(s.(held := s.held[k := Record(k, at, TokenFamily(f))],
                    issued := s.issued[refresh := Issue(k, s.clock)], minted := s.minted + {k}))
  {
    var u := s.(issued := s.issued[refresh := Issue(k, s.clock)]);
    var t := u.(held := s.held[k := Record(k, at, TokenFamily(f))], minted := s.minted + {k});
    QuietFamily(u, t, k, f);
    forall x | IsFamily(t.held, x) && x != k
      ensures Detects(t, x, t.held[x].body.family) && Graced(t, x, t.held[x].body.family)
    {
      QuietFamily(s, t, x, s.held[x].body.family);
    }
    forall v ensures Stands(t, v) { assert Stands(s, v); }
  }

  lemma MintKeeps(s: State, key: Key, user: string, access: Value, refresh: Value)
    requires Good(s) && key !in s.minted && key !in s.held && refresh !in s.issued
    ensures Good(DoMint(s, key, user, s.clock, access, refresh))
  {
    var f := Minted(user, s.clock, access, refresh);
    WriteKeeps(s, key, f, refresh, s.clock);
    SweepKeeps(s.(held := s.held[key := Record(key, s.clock, TokenFamily(f))],
                  issued := s.issued[refresh := Issue(key, s.clock)], minted := s.minted + {key}));
  }

  /** A rotation remembers the value it replaces, and what it remembered and has
      not run out. */
  lemma RotatedRemembers(f: Family, g: Family, at: int, access: Value, refresh: Value, one: Retired)
    requires g == Rotated(f, at, access, refresh)
    ensures one in g.retired
       <==> one == Retired(Digest(f.refresh.value), f.refresh.expiresAt) || (one in f.retired && one.expiresAt > at)
  {
    assert one in f.retired && one.expiresAt > at <==> one in Unexpired(f.retired, at);
  }

  lemma RotatedDetects(s: State, t: State, k: Key, f: Family, g: Family, access: Value, refresh: Value)
    requires Detects(s, k, f) && refresh !in s.issued
    requires g == Rotated(f, s.clock, access, refresh) && t == s.(issued := s.issued[refresh := Issue(k, s.clock)])
    requires forall v :: v in s.issued ==> s.issued[v].at <= s.clock
    ensures Detects(t, k, g) && Graced(t, k, g)
  {
    forall one | one in g.retired ensures Named(t, k, one.hash.of, one.expiresAt) && one.hash.of != refresh {
      RotatedRemembers(f, g, s.clock, access, refresh, one);
    }
    forall v | v in t.issued && t.issued[v].key == k && t.clock < t.issued[v].at + REFRESH_TTL_MS && v != refresh
      ensures Retired(Digest(v), t.issued[v].at + REFRESH_TTL_MS) in g.retired
    {
      RotatedRemembers(f, g, s.clock, access, refresh, Retired(Digest(v), s.issued[v].at + REFRESH_TTL_MS));
    }
  }

  lemma RotateKeeps(s: State, k: Key, access: Value, refresh: Value)
    requires Good(s) && IsFamily(s.held, k) && refresh !in s.issued
    ensures Good(DoRotate(s, k, s.clock, access, refresh))
  {
    var f := s.held[k].body.family;
    var g := Rotated(f, s.clock, access, refresh);
    var u := s.(issued := s.issued[refresh := Issue(k, s.clock)]);
    RotatedDetects(s, u, k, f, g, access, refresh);
    var at := Stamp(s.held, k, s.clock);
    WriteKeeps(s, k, g, refresh, at);
    var t := u.(held := s.held[k := Record(k, at, TokenFamily(g))], minted := s.minted + {k});
    assert s.minted + {k} == s.minted;
    SweepKeeps(t);
  }

  /** Only the family a value was issued under answers it or retired it. */
  lemma OnlyItsOwn(s: State, v: Value, k: Key, now: int)
    requires Good(s) && (Answers(s.held, k, v, now) || k in Retiring(s.held, v, now))
    ensures v in s.issued && s.issued[v].key == k
  {
    var f := s.held[k].body.family;
    assert Detects(s, k, f) && Graced(s, k, f);
    if k in Retiring(s.held, v, now) {
      var one :| one in f.retired && one.hash == Digest(v);
    }
  }

  lemma FailOne(held: Held, k: Key, now: int, retention: nat)
    requires k in held
    ensures FailAll(held, {k}, now, retention) == Erase(held, k, now, Some(retention))
  {
  }

  lemma RetiringIsOne(s: State, v: Value, now: int, k: Key)
    requires Good(s) && k in Retiring(s.held, v, now)
    ensures Retiring(s.held, v, now) == {k}
  {
    OnlyItsOwn(s, v, k, now);
    forall x | x in Retiring(s.held, v, now) ensures x == k { OnlyItsOwn(s, v, x, now); }
  }

  lemma FailKeeps(s: State, v: Value, now: int, retention: nat)
    requires Good(s) && retention >= REFRESH_TTL_MS
    ensures Good(s.(held := FailAll(s.held, Retiring(s.held, v, now), s.clock, retention)))
  {
    var keys := Retiring(s.held, v, now);
    if k :| k in keys {
      RetiringIsOne(s, v, now, k);
      FailOne(s.held, k, s.clock, retention);
      EraseKeeps(s, k, retention);
    }
  }

  /** A family erased, for a sign-out or for a value used twice. */
  lemma EraseKeeps(s: State, k: Key, retention: nat)
    requires Good(s) && IsFamily(s.held, k) && retention >= REFRESH_TTL_MS
    ensures Good(s.(held := Erase(s.held, k, s.clock, Some(retention))))
  {
    var mark := Record(k, Stamp(s.held, k, s.clock), Tombstone(s.clock, Some(s.clock + retention)));
    MarkKeeps(s, k, mark.updatedAt, retention);
    SweepKeeps(s.(held := s.held[k := mark]));
  }

  lemma RestKeeps(s: State, t: State)
    requires Good(s) && t == s.(held := t.held)
    requires forall k :: k in s.minted ==> (k in s.held <==> k in t.held) && (k in s.held ==> t.held[k] == s.held[k])
    requires forall k :: k !in s.minted ==> !IsFamily(t.held, k)
    ensures Good(t)
  {
    forall k | IsFamily(t.held, k) ensures Detects(t, k, t.held[k].body.family) && Graced(t, k, t.held[k].body.family) {
      QuietFamily(s, t, k, s.held[k].body.family);
    }
    forall v ensures Stands(t, v) { assert Stands(s, v); }
  }

  lemma RefreshKeeps(s: State, u: State, e: Event, t: State, retention: nat)
    requires e.Refresh? && u == s.(clock := e.at) && Good(u) && Next(s, e, t, retention) && retention >= REFRESH_TTL_MS
    ensures Good(t)
  {
    if exists k :: Answers(s.held, k, e.value, e.now) {
      var k :| Answers(s.held, k, e.value, e.now) && RefreshFound(s, k, e, t);
      if e.admitted && Standing(s.held, k, e.value, e.now) { RotateKeeps(u, k, e.access, e.refresh); }
    } else {
      FailKeeps(u, e.value, e.now, retention);
    }
  }

  lemma NextKeeps(s: State, e: Event, t: State, retention: nat)
    requires Good(s) && Next(s, e, t, retention) && retention >= REFRESH_TTL_MS
    ensures Good(t)
  {
    var now := if e.Refresh? then e.at else e.now;
    var u := s.(clock := now);
    TickKeeps(s, now);
    match e
    case Mint(key, user, _, access, refresh) => MintKeeps(u, key, user, access, refresh);
    case Refresh(_, _, _, _, _, _, _) => RefreshKeeps(s, u, e, t, retention);
    case SignOut(key, _) => EraseKeeps(u, key, retention);
    case Sweep(_) => SweepKeeps(u);
    case Rest(_) => RestKeeps(u, t);
  }

  lemma {:induction false} RunKeeps(states: seq<State>, events: seq<Event>, i: nat, retention: nat)
    requires Run(states, events, retention) && i < |states| && retention >= REFRESH_TTL_MS
    ensures Good(states[i])
  {
    if i > 0 {
      RunKeeps(states, events, i - 1, retention);
      NextKeeps(states[i - 1], events[i - 1], states[i], retention);
    }
  }

  // --- what a refresh is answered with, at any point of any run ---

  /** Complete replay detection: every value ever issued for a family and not past
      its own expiry is the standing one or is remembered with that expiry. */
  lemma EveryValueIsKnown(states: seq<State>, events: seq<Event>, i: nat, retention: nat, v: Value, k: Key)
    requires Run(states, events, retention) && i < |states| && retention >= REFRESH_TTL_MS
    requires v in states[i].issued && states[i].issued[v].key == k && IsFamily(states[i].held, k)
    requires states[i].clock < states[i].issued[v].at + REFRESH_TTL_MS
    ensures var f, expiry := states[i].held[k].body.family, states[i].issued[v].at + REFRESH_TTL_MS;
      f.refresh == Token(v, expiry) || Retired(Digest(v), expiry) in f.retired
  {
    RunKeeps(states, events, i, retention);
    assert Detects(states[i], k, states[i].held[k].body.family);
  }

  /** The whole answer for an issued, unexpired value, at any instant of any run:
      the standing one rotates, the one before it inside its grace is given the
      standing pair and nothing moves, any other fails its family, and a failed
      family answers nothing. */
  lemma RefreshIsClassified(states: seq<State>, events: seq<Event>, i: nat, retention: nat, k: Key)
    requires Run(states, events, retention) && i < |events| && retention >= REFRESH_TTL_MS
    requires events[i].Refresh? && events[i].value in states[i].issued && states[i].issued[events[i].value].key == k
    requires events[i].now < states[i].issued[events[i].value].at + REFRESH_TTL_MS
    ensures var s, e, t := states[i], events[i], states[i + 1];
      && k in s.held
      && (s.held[k].body.Tombstone? ==> e.answer == Refused && t.held == s.held)
      && (IsFamily(s.held, k) ==>
            var f := s.held[k].body.family;
            if f.refresh.value == e.value then
              if e.admitted then
                && e.answer.Session? && e.answer.refresh == Token(e.refresh, e.at + REFRESH_TTL_MS)
                && e.answer.access == (if f.access.expiresAt - e.at >= ACCESS_KEEP_MS then f.access else Token(e.access, e.at + ACCESS_TTL_MS))
                && IsFamily(t.held, k) && t.held[k].body.family.user == f.user
                && t.held[k].body.family.refresh == e.answer.refresh && t.held[k].body.family.access == e.answer.access
              else e.answer == Refused && t.held == s.held
            else if InGrace(s.held, k, e.value, e.now) then
              t.held == s.held && e.answer == if e.admitted then Session(f.access, f.refresh) else Refused
            else e.answer == Refused && k in t.held && t.held[k].body.Tombstone?)
  {
    var s, e, t := states[i], events[i], states[i + 1];
    RunKeeps(states, events, i, retention);
    TickKeeps(s, e.now);
    Classified(s.(clock := e.now), e, t, k, retention);
  }

  lemma Classified(s: State, e: Event, t: State, k: Key, retention: nat)
    requires Good(s) && e.Refresh? && s.clock == e.now && Next(s, e, t, retention) && retention >= REFRESH_TTL_MS
    requires e.value in s.issued && s.issued[e.value].key == k && e.now < s.issued[e.value].at + REFRESH_TTL_MS
    ensures k in s.held
    ensures s.held[k].body.Tombstone? ==> e.answer == Refused && t.held == s.held
    ensures IsFamily(s.held, k) && s.held[k].body.family.refresh.value == e.value && e.admitted ==>
      && e.answer.Session? && e.answer.refresh == Token(e.refresh, e.at + REFRESH_TTL_MS)
      && IsFamily(t.held, k) && t.held[k].body.family.user == s.held[k].body.family.user
      && t.held[k].body.family.refresh == e.answer.refresh && t.held[k].body.family.access == e.answer.access
    ensures IsFamily(s.held, k) && s.held[k].body.family.refresh.value == e.value && e.admitted && e.answer.Session? ==>
      e.answer.access == if s.held[k].body.family.access.expiresAt - e.at >= ACCESS_KEEP_MS then s.held[k].body.family.access
                         else Token(e.access, e.at + ACCESS_TTL_MS)
    ensures IsFamily(s.held, k) && s.held[k].body.family.refresh.value == e.value && !e.admitted ==>
      e.answer == Refused && t.held == s.held
    ensures IsFamily(s.held, k) && s.held[k].body.family.refresh.value != e.value && InGrace(s.held, k, e.value, e.now) ==>
      t.held == s.held
    ensures IsFamily(s.held, k) && s.held[k].body.family.refresh.value != e.value && InGrace(s.held, k, e.value, e.now) ==>
      e.answer == if e.admitted then Session(s.held[k].body.family.access, s.held[k].body.family.refresh) else Refused
    ensures IsFamily(s.held, k) && s.held[k].body.family.refresh.value != e.value && !InGrace(s.held, k, e.value, e.now) ==>
      e.answer == Refused && k in t.held && t.held[k].body.Tombstone?
  {
    assert Stands(s, e.value);
    forall x | Answers(s.held, x, e.value, e.now) || x in Retiring(s.held, e.value, e.now) ensures x == k {
      OnlyItsOwn(s, e.value, x, e.now);
    }
    if IsFamily(s.held, k) {
      var f := s.held[k].body.family;
      assert Detects(s, k, f);
      if f.refresh.value == e.value {
        assert Answers(s.held, k, e.value, e.now);
      } else if !InGrace(s.held, k, e.value, e.now) {
        assert Retired(Digest(e.value), s.issued[e.value].at + REFRESH_TTL_MS) in f.retired;
        assert k in Retiring(s.held, e.value, e.now);
      } else {
        assert Answers(s.held, k, e.value, e.now);
      }
    }
    if exists x :: Answers(s.held, x, e.value, e.now) {
      var x :| Answers(s.held, x, e.value, e.now) && RefreshFound(s, x, e, t);
      assert x == k;
    }
  }

  /** A value no family ever issued moves nothing. */
  lemma StrangersMoveNothing(states: seq<State>, events: seq<Event>, i: nat, retention: nat)
    requires Run(states, events, retention) && i < |events| && retention >= REFRESH_TTL_MS
    requires events[i].Refresh? && events[i].value !in states[i].issued
    ensures events[i].answer == Refused && states[i + 1].held == states[i].held
  {
    RunKeeps(states, events, i, retention);
    var s, e := states[i], events[i];
    forall k ensures !Answers(s.held, k, e.value, e.now) && k !in Retiring(s.held, e.value, e.now) {
      if Answers(s.held, k, e.value, e.now) || k in Retiring(s.held, e.value, e.now) {
        OnlyItsOwn(s, e.value, k, e.now);
      }
    }
    assert Retiring(s.held, e.value, e.now) == {};
    assert Next(s, e, states[i + 1], retention);
  }

  /** Access-token life: every successful refresh, grace retries included, answers
      an access token with more than the kept half less the grace left to it; and
      a rotation replaces it only once less than that half remains. */
  lemma AccessLifeBound(states: seq<State>, events: seq<Event>, i: nat, retention: nat)
    requires Run(states, events, retention) && i < |events| && retention >= REFRESH_TTL_MS
    requires events[i].Refresh? && events[i].answer.Session?
    ensures events[i].answer.access.expiresAt - events[i].now > ACCESS_KEEP_MS - PREVIOUS_GRACE_MS
    ensures forall k :: IsFamily(states[i].held, k) && IsFamily(states[i + 1].held, k)
                        && states[i + 1].held[k].body.family.access != states[i].held[k].body.family.access
                    ==> states[i].held[k].body.family.access.expiresAt - events[i].at < ACCESS_KEEP_MS
  {
    RunKeeps(states, events, i, retention);
    var s, e, t := states[i], events[i], states[i + 1];
    var k :| Answers(s.held, k, e.value, e.now) && RefreshFound(s, k, e, t);
    assert Graced(s, k, s.held[k].body.family);
  }
}
