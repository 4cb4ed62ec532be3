/** A failed family on an instance that took its mark: peers go on sending
    copies from before the failure, the mark itself is dropped in the end, and
    still no token of the family is ever answered there again. */
module Revocation {
  import opened Wrappers
  import opened Records
  import opened Tokens

  predicate Admits(held: Held, k: Key, access: Value, now: int) {
    IsFamily(held, k) && var a := held[k].body.family.access; a.value == access && a.expiresAt > now
  }

  /** Some token of the family under `k` is still answered for: a refresh value,
      one inside its grace, or an access token. */
  ghost predicate Alive(held: Held, k: Key, now: int) {
    exists v :: Answers(held, k, v, now) || Admits(held, k, v, now)
  }

  /** A copy minted or rotated no later than the failure. */
  predicate NoLater(f: Family, failedAt: int) {
    && f.refresh.expiresAt <= failedAt + REFRESH_TTL_MS
    && f.access.expiresAt <= failedAt + ACCESS_TTL_MS
    && (f.previous.Some? ==> f.previous.value.expiresAt <= failedAt + PREVIOUS_GRACE_MS)
  }

  /** The generations a family goes through by `failedAt` are no later than it. */
  lemma MintedNoLater(user: string, at: int, access: Value, refresh: Value, failedAt: int)
    requires at <= failedAt
    ensures NoLater(Minted(user, at, access, refresh), failedAt)
  {
  }

  lemma RotatedNoLater(f: Family, at: int, access: Value, refresh: Value, failedAt: int)
    requires NoLater(f, failedAt) && at <= failedAt
    ensures NoLater(Rotated(f, at, access, refresh), failedAt)
  {
  }

  datatype State = State(held: Held, clock: int)

  datatype Event =
    | Arrives(record: Record, now: int)                                     // one record of a merge
    | Sweeps(now: int)
    | Refreshes(value: Value, looked: int, now: int, access: Value, refresh: Value)   // any refresh asked here
    | SignsOut(key: Key, now: int)
    | Writes(key: Key, body: Body, now: int)                                // this instance's other writes

  /** The steps of the instance, with the peers held to copies of `family` from
      no later than the failure. */
  ghost predicate Next(s: State, e: Event, t: State, family: Key, failedAt: int, retention: nat) {
    && s.clock <= e.now && t.clock == e.now
    && match e
       case Arrives(r, now) =>
         && (r.key == family && r.body.TokenFamily? ==> NoLater(r.body.family, failedAt))
         && t.held == Accept(s.held, r)
       case Sweeps(now) => t.held == Expire(s.held, now)
       case Refreshes(v, looked, now, access, refresh) =>
         && s.clock <= looked <= now
         && (if exists k :: Answers(s.held, k, v, looked)
             then t.held == s.held
               || exists k :: Standing(s.held, k, v, looked)
                    && t.held == Write(s.held, k, TokenFamily(Rotated(s.held[k].body.family, now, access, refresh)), now)
             else t.held == FailAll(s.held, Retiring(s.held, v, looked), now, retention))
       case SignsOut(key, now) => IsFamily(s.held, key) && t.held == Erase(s.held, key, now, Some(retention))
       case Writes(key, body, now) => key != family && t.held == Write(s.held, key, body, now)
  }

  ghost predicate Run(states: seq<State>, events: seq<Event>, family: Key, failedAt: int, retention: nat) {
    && |states| == |events| + 1
    && forall i :: 0 <= i < |events| ==> Next(states[i], events[i], states[i + 1], family, failedAt, retention)
  }

  /** Either the mark stands, or its retention is over and whatever came back is
      from no later than the failure. */
  ghost predicate Dead(s: State, family: Key, mark: Record, failedAt: int, retention: nat) {
    || (family in s.held && s.held[family] == mark)
    || (failedAt + retention <= s.clock
        && (IsFamily(s.held, family) ==> NoLater(s.held[family].body.family, failedAt)))
  }

  ghost predicate IsMark(mark: Record, family: Key, failedAt: int, retention: nat) {
    mark.key == family && mark.body == Tombstone(failedAt, Some(failedAt + retention)) && retention >= REFRESH_TTL_MS
  }

  lemma DeadIsNotAlive(s: State, family: Key, mark: Record, failedAt: int, retention: nat, now: int)
    requires IsMark(mark, family, failedAt, retention) && Dead(s, family, mark, failedAt, retention) && s.clock <= now
    ensures !Alive(s.held, family, now)
  {
  }

  lemma NextKeepsDead(s: State, e: Event, t: State, family: Key, mark: Record, failedAt: int, retention: nat)
    requires IsMark(mark, family, failedAt, retention) && Dead(s, family, mark, failedAt, retention)
    requires Next(s, e, t, family, failedAt, retention)
    ensures Dead(t, family, mark, failedAt, retention)
  {
    DeadIsNotAlive(s, family, mark, failedAt, retention, if e.Refreshes? then e.looked else e.now);
    match e
    case Arrives(_, _) =>
    case Sweeps(_) =>
    case Refreshes(v, looked, _, _, _) =>
      assert !Answers(s.held, family, v, looked);
    case SignsOut(_, _) =>
    case Writes(_, _, _) =>
  }

  /** A failed family is never revived: on an instance that took the mark, with
      retention at least a refresh token's life, no later state of any run
      answers any of the family's tokens, whether the mark stands or was dropped. */
  lemma {:induction false} FailedIsNeverRevived(states: seq<State>, events: seq<Event>, family: Key, mark: Record,
                                                failedAt: int, retention: nat, i: nat, now: int)
    requires IsMark(mark, family, failedAt, retention) && Run(states, events, family, failedAt, retention)
    requires family in states[0].held && states[0].held[family] == mark
    requires i < |states| && states[i].clock <= now
    ensures Dead(states[i], family, mark, failedAt, retention)
    ensures !Alive(states[i].held, family, now)
    ensures family in states[i].held && states[i].held[family].body.TokenFamily? ==>
      && var f := states[i].held[family].body.family;
      && f.refresh.expiresAt <= now && f.access.expiresAt <= now && (f.previous.Some? ==> f.previous.value.expiresAt <= now)
  {
    if i > 0 {
      FailedIsNeverRevived(states, events, family, mark, failedAt, retention, i - 1, states[i - 1].clock);
      assert Next(states[i - 1], events[i - 1], states[i], family, failedAt, retention);
      NextKeepsDead(states[i - 1], events[i - 1], states[i], family, mark, failedAt, retention);
    }
    DeadIsNotAlive(states[i], family, mark, failedAt, retention, now);
  }

  /** The retention bound is the exact one: with anything less there is a run, the
      mark run out and a copy from the instant of the failure arriving after it,
      that ends with the family answered for again. */
  lemma ShorterRetentionRevives(family: Key, failedAt: int, retention: nat, mark: Record, copy: Record)
      returns (states: seq<State>, events: seq<Event>)
    requires retention < REFRESH_TTL_MS
    requires mark.key == family && mark.body == Tombstone(failedAt, Some(failedAt + retention))
    requires copy.key == family && copy.body.TokenFamily? && NoLater(copy.body.family, failedAt)
    requires copy.body.family.refresh.expiresAt == failedAt + REFRESH_TTL_MS
    ensures Run(states, events, family, failedAt, retention) && states[0].held == map[family := mark]
    ensures Alive(states[|states| - 1].held, family, states[|states| - 1].clock)
  {
    var now := failedAt + retention;
    states := [State.State(map[family := mark], failedAt), State.State(map[], now), State.State(map[family := copy], now)];
    events := [Sweeps(now), Arrives(copy, now)];
    assert Expire(map[family := mark], now) == map[];
    assert Answers(map[family := copy], family, copy.body.family.refresh.value, now);
  }
}
