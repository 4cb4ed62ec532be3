/** What each call does to the records, field by field. */
module TokenSteps {
  import opened Wrappers
  import opened Records
  import opened Tokens

  /** Every other key has what it had, unless that ran out by `now`. */
  ghost predicate OthersStay(s: Held, t: Held, k: Key, now: int) {
    forall x :: x != k ==> (x in t <==> x in Expire(s, now)) && (x in t ==> t[x] == s[x])
  }

  /** A family is minted for its user with both lives counted from one instant. */
  lemma MintIsExact(s: State, t: State, key: Key, user: string, now: int, access: Value, refresh: Value, retention: nat)
    requires Next(s, Mint(key, user, now, access, refresh), t, retention)
    ensures key in t.held && t.held[key] == Record(key, now, TokenFamily(Family(user,
      Token(access, now + ACCESS_TTL_MS), Token(refresh, now + REFRESH_TTL_MS), None, [])))
    ensures OthersStay(s.held, t.held, key, now)
  {
  }

  /** Only the family a value was issued under is found for it. */
  lemma FoundIsItsOwn(s: State, e: Event, t: State, k: Key, retention: nat)
    requires Good(s) && e.Refresh? && Next(s, e, t, retention) && Answers(s.held, k, e.value, e.now)
    ensures RefreshFound(s, k, e, t)
  {
    var x :| Answers(s.held, x, e.value, e.now) && RefreshFound(s, x, e, t);
    OnlyItsOwn(s, e.value, x, e.now);
    OnlyItsOwn(s, e.value, k, e.now);
  }

  /** A rotation, at any point of any run: what is answered is what is kept, the
      access token is the family's own until less than the kept half of its life
      remains and then a new one, the refresh token is always new, the one it
      replaces is the one generation in grace and is remembered, the user stays. */
  lemma RotationIsExact(states: seq<State>, events: seq<Event>, i: nat, retention: nat, k: Key, f: Family)
    requires Run(states, events, retention) && i < |events| && retention >= REFRESH_TTL_MS
    requires k in states[i].held && states[i].held[k].body == TokenFamily(f)
    requires var e := events[i]; e.Refresh? && e.admitted && f.refresh.value == e.value && f.refresh.expiresAt > e.now
    ensures var e, t := events[i], states[i + 1].held;
      && e.answer.Session? && k in t && t[k].body.TokenFamily?
      && e.answer.access == (if f.access.expiresAt - e.at >= ACCESS_KEEP_MS then f.access else Token(e.access, e.at + ACCESS_TTL_MS))
      && e.answer.refresh == Token(e.refresh, e.at + REFRESH_TTL_MS)
    ensures var e, g := events[i], states[i + 1].held[k].body.family;
      && g.user == f.user && g.access == e.answer.access && g.refresh == e.answer.refresh
      && g.previous == Some(Token(f.refresh.value, e.at + PREVIOUS_GRACE_MS))
    ensures forall one :: one in states[i + 1].held[k].body.family.retired <==>
                          one == Retired(Digest(f.refresh.value), f.refresh.expiresAt) || (one in f.retired && one.expiresAt > events[i].at)
    ensures OthersStay(states[i].held, states[i + 1].held, k, events[i].at)
  {
    RunKeeps(states, events, i, retention);
    var s, e, t := states[i], events[i], states[i + 1];
    assert Answers(s.held, k, e.value, e.now);
    FoundIsItsOwn(s, e, t, k, retention);
    var g := Rotated(f, e.at, e.access, e.refresh);
    WriteLeaves(s.held, t.held, k, g, e.at);
    forall one ensures one in g.retired <==> one == Retired(Digest(f.refresh.value), f.refresh.expiresAt) || (one in f.retired && one.expiresAt > e.at) {
      RotatedRemembers(f, g, e.at, e.access, e.refresh, one);
    }
  }

  lemma WriteLeaves(s: Held, t: Held, k: Key, g: Family, at: int)
    requires IsFamily(s, k) && g.refresh.expiresAt > at && t == Write(s, k, TokenFamily(g), at)
    ensures k in t && t[k].body == TokenFamily(g) && OthersStay(s, t, k, at)
  {
    WriteLands(s, k, TokenFamily(g), at);
  }

  /** A value rotated away and not in its grace, at any point of any run: its family
      is left a mark kept for the retention, and no other record moves. */
  lemma ReplayIsExact(states: seq<State>, events: seq<Event>, i: nat, retention: nat, k: Key, f: Family)
    requires Run(states, events, retention) && i < |events| && retention >= REFRESH_TTL_MS
    requires k in states[i].held && states[i].held[k].body == TokenFamily(f) && events[i].Refresh?
    requires var e := events[i]; exists one :: one in f.retired && one.hash == Digest(e.value) && one.expiresAt > e.now
    requires var e := events[i]; !(f.previous.Some? && f.previous.value.value == e.value && f.previous.value.expiresAt > e.now)
    ensures events[i].answer == Refused
    ensures k in states[i + 1].held && states[i + 1].held[k].body == Tombstone(events[i].at, Some(events[i].at + retention))
    ensures OthersStay(states[i].held, states[i + 1].held, k, events[i].at)
  {
    RunKeeps(states, events, i, retention);
    var s, e, t := states[i], events[i], states[i + 1];
    assert k in Retiring(s.held, e.value, e.now);
    RetiringIsOne(s, e.value, e.now, k);
    assert Detects(s, k, f);
    forall x ensures !Answers(s.held, x, e.value, e.now) {
      if Answers(s.held, x, e.value, e.now) {
        OnlyItsOwn(s, e.value, x, e.now);
        OnlyItsOwn(s, e.value, k, e.now);
      }
    }
    assert Next(s, e, t, retention);
    FailOne(s.held, k, e.at, retention);
  }

  /** The value is the one generation a family still has in grace. */
  ghost predicate Previous(held: Held, k: Key, v: Value, now: int) {
    && k in held && held[k].body.TokenFamily? && held[k].body.family.previous.Some?
    && held[k].body.family.previous.value.value == v && held[k].body.family.previous.value.expiresAt > now
  }

  /** A value past its own expiry fails nothing and rotates nothing: it is given the
      standing pair inside its grace, and is refused outside it. */
  lemma ExpiredMovesNothing(states: seq<State>, events: seq<Event>, i: nat, retention: nat)
    requires Run(states, events, retention) && i < |events| && retention >= REFRESH_TTL_MS
    requires events[i].Refresh? && events[i].value in states[i].issued
    requires states[i].issued[events[i].value].at + REFRESH_TTL_MS <= events[i].now
    ensures states[i + 1].held == states[i].held
    ensures (forall k :: !Previous(states[i].held, k, events[i].value, events[i].now)) ==> events[i].answer == Refused
    ensures forall k :: Previous(states[i].held, k, events[i].value, events[i].now) ==>
      events[i].answer == if events[i].admitted
                          then Session(states[i].held[k].body.family.access, states[i].held[k].body.family.refresh) else Refused
  {
    RunKeeps(states, events, i, retention);
    var s, e, t := states[i], events[i], states[i + 1];
    ExpiredIsUnknown(s, e.value, e.now);
    assert forall k :: Previous(s.held, k, e.value, e.now) ==> Answers(s.held, k, e.value, e.now);
    if k :| Answers(s.held, k, e.value, e.now) {
      assert Previous(s.held, k, e.value, e.now);
      FoundIsItsOwn(s, e, t, k, retention);
      forall x | Previous(s.held, x, e.value, e.now) ensures x == k {
        OnlyItsOwn(s, e.value, x, e.now);
        OnlyItsOwn(s, e.value, k, e.now);
      }
    } else {
      assert Next(s, e, t, retention);
    }
  }

  lemma ExpiredIsUnknown(s: State, v: Value, now: int)
    requires Good(s) && v in s.issued && s.issued[v].at + REFRESH_TTL_MS <= now
    ensures forall k :: !Standing(s.held, k, v, now)
    ensures Retiring(s.held, v, now) == {}
  {
    forall k ensures !Standing(s.held, k, v, now) && k !in Retiring(s.held, v, now) {
      if IsFamily(s.held, k) { assert Detects(s, k, s.held[k].body.family); }
    }
  }

  /** Signing out leaves a mark kept for the retention, and moves nothing else. */
  lemma SignOutIsExact(s: State, t: State, key: Key, now: int, retention: nat)
    requires Next(s, SignOut(key, now), t, retention) && retention > 0
    ensures key in t.held && t.held[key].body == Tombstone(now, Some(now + retention))
    ensures OthersStay(s.held, t.held, key, now)
  {
  }

  // --- whose a family is ---

  lemma FamilyStep(s: State, e: Event, t: State, k: Key, retention: nat)
    requires Good(s) && Next(s, e, t, retention) && IsFamily(t.held, k) && !(e.Mint? && e.key == k)
    ensures IsFamily(s.held, k) && t.held[k].body.family.user == s.held[k].body.family.user
  {
  }

  /** In every state of every run a family belongs to the user it was minted for. */
  lemma {:induction false} FamilyIsTheMinters(states: seq<State>, events: seq<Event>, j: nat, k: Key, retention: nat)
    requires Run(states, events, retention) && j < |states| && retention >= REFRESH_TTL_MS && IsFamily(states[j].held, k)
    ensures exists i :: 0 <= i < j && events[i].Mint? && events[i].key == k && events[i].user == states[j].held[k].body.family.user
  {
    assert j > 0;
    var s, e, t := states[j - 1], events[j - 1], states[j];
    assert Next(s, e, t, retention);
    if e.Mint? && e.key == k {
      MintIsExact(s, t, k, e.user, e.now, e.access, e.refresh, retention);
    } else {
      RunKeeps(states, events, j - 1, retention);
      FamilyStep(s, e, t, k, retention);
      FamilyIsTheMinters(states, events, j - 1, k, retention);
    }
  }
}
