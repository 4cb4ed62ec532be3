/** `AuthRecords` and the token half of `Auth` as the objects the source keeps.
    Each method is one stretch between two awaits. */
module AuthObject {
  import opened Wrappers
  import opened Records
  import T = Tokens

  datatype Found = Found(key: Key, previous: bool)

  function UserOf(held: Held, key: Key): Option<string> {
    if key !in held then None
    else match held[key].body
      case TokenFamily(f) => Some(f.user)
      case Other(user) => Some(user)
      case _ => None
  }

  /** Who a batch's marks took something from, in the order they were taken. */
  function RevokedBy(held: Held, rs: seq<Record>): seq<string> {
    if rs == [] then []
    else
      var front, last := rs[..|rs| - 1], rs[|rs| - 1];
      var before := Merge(held, front);
      if Takes(before, last) && last.body.Tombstone? && UserOf(before, last.key).Some?
      then RevokedBy(held, front) + [UserOf(before, last.key).value]
      else RevokedBy(held, front)
  }

  /** How many records of a batch are taken. */
  function Taken(held: Held, rs: seq<Record>): nat {
    if rs == [] then 0
    else
      var front, last := rs[..|rs| - 1], rs[|rs| - 1];
      Taken(held, front) + if Takes(Merge(held, front), last) then 1 else 0
  }

  /** Record `i` of a batch moved the set. */
  ghost predicate Moves(held: Held, rs: seq<Record>, i: nat) {
    i < |rs| && Merge(held, rs[..i + 1]) != Merge(held, rs[..i])
  }

  /** It was a mark, and took a live record of `user` away. */
  ghost predicate Revokes(held: Held, rs: seq<Record>, i: nat, user: string) {
    && Moves(held, rs, i) && rs[i].body.Tombstone? && rs[i].key in Merge(held, rs[..i])
    && match Merge(held, rs[..i])[rs[i].key].body
       case TokenFamily(f) => f.user == user
       case Other(u) => u == user
       case _ => false
  }

  lemma MovesExactly(held: Held, rs: seq<Record>, i: nat)
    requires i < |rs|
    ensures Moves(held, rs, i) <==> Takes(Merge(held, rs[..i]), rs[i])
  {
    assert rs[..i + 1][..i] == rs[..i];
  }

  lemma MovesFront(held: Held, rs: seq<Record>, n: nat, i: nat)
    requires i < n <= |rs|
    ensures Moves(held, rs[..n], i) <==> Moves(held, rs, i)
    ensures forall user :: Revokes(held, rs[..n], i, user) <==> Revokes(held, rs, i, user)
  {
    assert rs[..n][..i] == rs[..i] && rs[..n][..i + 1] == rs[..i + 1];
  }

  /** The count a batch is answered with: how many of its records moved the set. */
  lemma {:induction false} TakenCounts(held: Held, rs: seq<Record>) returns (at: set<nat>)
    ensures Taken(held, rs) == |at| && forall i: nat :: i in at <==> Moves(held, rs, i)
  {
    at := {};
    if rs != [] {
      var n := |rs| - 1;
      at := TakenCounts(held, rs[..n]);
      forall i: nat | i < n ensures Moves(held, rs[..n], i) <==> Moves(held, rs, i) { MovesFront(held, rs, n, i); }
      MovesExactly(held, rs, n);
      assert n !in at;
      if Moves(held, rs, n) { at := at + {n}; }
    }
  }

  /** Who a batch's marks revoked: one entry for each mark that took a live record
      away, in the order of the batch, naming whose it was. */
  lemma {:induction false} RevokedExactly(held: Held, rs: seq<Record>) returns (at: seq<nat>)
    ensures |at| == |RevokedBy(held, rs)| && (forall i, j :: 0 <= i < j < |at| ==> at[i] < at[j])
    ensures forall j :: 0 <= j < |at| ==> Revokes(held, rs, at[j], RevokedBy(held, rs)[j])
    ensures forall i: nat, user :: Revokes(held, rs, i, user) ==> i in at
  {
    at := [];
    if rs != [] {
      var n := |rs| - 1;
      at := RevokedExactly(held, rs[..n]);
      forall i: nat, user | i < n ensures Revokes(held, rs[..n], i, user) <==> Revokes(held, rs, i, user) {
        MovesFront(held, rs, n, i);
      }
      MovesExactly(held, rs, n);
      var user := UserOf(Merge(held, rs[..n]), rs[n].key);
      if Takes(Merge(held, rs[..n]), rs[n]) && rs[n].body.Tombstone? && user.Some? {
        at := at + [n];
      }
    }
  }

  class AuthRecords {
    var records: Held
    var dropped: seq<Key>

    constructor ()
      ensures records == map[] && dropped == []
    {
      records, dropped := map[], [];
    }

    /** `accept`. */
    method Accept(record: Record) returns (moved: bool)
      modifies this`records
      ensures records == Records.Accept(old(records), record)
      ensures moved <==> !record.body.Malformed? && (record.key in old(records) ==>
        old(records)[record.key].updatedAt < record.updatedAt && !old(records)[record.key].body.Tombstone?)
      ensures moved == (records != old(records)) && (moved ==> !record.body.Malformed? && records[record.key] == record)
    {
      if record.body.Malformed? { return false; }
      if record.key in records {
        if records[record.key].updatedAt >= record.updatedAt { return false; }
        if records[record.key].body.Tombstone? { return false; }
      }
      records := records[record.key := record];
      return true;
    }

    /** `#expire`. */
    method Expire(now: int)
      modifies this
      ensures records == Records.Expire(old(records), now)
      ensures forall k :: k in records <==> k in old(records) && match old(records)[k].body
                                                                 case TokenFamily(f) => f.refresh.expiresAt > now
                                                                 case Tombstone(_, Some(at)) => at > now
                                                                 case _ => true
      ensures forall k :: k in dropped <==> k in old(dropped) || (k in old(records) && k !in records)
    {
      var left := records.Keys;
      while left != {}
        invariant left <= records.Keys && left <= old(records).Keys
        invariant forall k :: k in left ==> records[k] == old(records)[k]
        invariant forall k :: k !in left ==> (k in records <==> k in Records.Expire(old(records), now))
        invariant forall k :: k in records ==> k in old(records) && records[k] == old(records)[k]
        invariant forall k :: k in dropped <==>
          k in old(dropped) || (k in old(records) && k !in left && Over(old(records)[k].body, now))
        decreases left
      {
        var k :| k in left;
        if Over(records[k].body, now) {
          records := records - {k};
          dropped := dropped + [k];
        }
        left := left - {k};
      }
    }

    /** `write`, up to its commit; nothing is answered for a body the schema
        refuses, where the source throws. */
    method Write(key: Key, body: Body, now: int) returns (written: Option<bool>)
      modifies this
      ensures written.None? <==> body.Malformed?
      ensures written == Some(true) <==> !body.Malformed? && !(key in old(records) && old(records)[key].body.Tombstone?)
      ensures records == if written == Some(true) then Records.Write(old(records), key, body, now) else old(records)
    {
      var at := if key in records && records[key].updatedAt + 1 > now then records[key].updatedAt + 1 else now;
      if body.Malformed? { return None; }
      var moved := Accept(Record(key, at, body));
      if !moved { return Some(false); }
      Expire(now);
      return Some(true);
    }

    /** `merge`, up to its commit. */
    method Merge(batch: seq<Record>, now: int) returns (changed: nat, revoked: seq<string>)
      modifies this
      ensures changed == Taken(old(records), batch)
      ensures changed == 0 ==> Records.Merge(old(records), batch) == old(records)
      ensures records == if changed > 0 then Records.Expire(Records.Merge(old(records), batch), now) else old(records)
      ensures revoked == RevokedBy(old(records), batch)
    {
      changed, revoked := 0, [];
      var i := 0;
      assert batch[..0] == [];
      while i < |batch|
        invariant 0 <= i <= |batch| && records == Records.Merge(old(records), batch[..i])
        invariant changed == Taken(old(records), batch[..i]) && (changed == 0 ==> records == old(records))
        invariant revoked == RevokedBy(old(records), batch[..i])
      {
        assert batch[..i + 1][..i] == batch[..i];
        var record := batch[i];
        var user := UserOf(records, record.key);
        var moved := Accept(record);
        if moved {
          changed := changed + 1;
          if record.body.Tombstone? && user.Some? { revoked := revoked + [user.value]; }
        }
        i := i + 1;
      }
      assert batch[..i] == batch;
      if changed > 0 { Expire(now); }
    }

    /** `erase`: a mark over whatever the key holds, answered. */
    method Erase(key: Key, now: int, keep: Option<nat>) returns (mark: Option<Record>)
      modifies this
      ensures records == if key in old(records) then Records.Erase(old(records), key, now, keep) else old(records)
      ensures mark.Some? <==> key in old(records)
      ensures mark.Some? ==>
        && mark.value == Record(key, if old(records)[key].updatedAt < now then now else old(records)[key].updatedAt + 1,
                                Tombstone(now, if keep.Some? then Some(now + keep.value) else None))
        && (keep.None? || keep.value > 0 ==> key in records && records[key] == mark.value)
    {
      if key !in records { return None; }
      var at := if records[key].updatedAt + 1 > now then records[key].updatedAt + 1 else now;
      var expires := if keep.Some? then Some(now + keep.value) else None;
      mark := Some(Record(key, at, Tombstone(now, expires)));
      records := records[key := mark.value];
      Expire(now);
    }

    /** `fail`: only a family is failed. */
    method Fail(key: Key, now: int, retention: nat)
      modifies this
      ensures records == if T.IsFamily(old(records), key) then Records.Erase(old(records), key, now, Some(retention))
                         else old(records)
    {
      if key !in records || !records[key].body.TokenFamily? { return; }
      var _ := Erase(key, now, Some(retention));
    }

    /** `byRefresh`. */
    method ByRefresh(value: Value, now: int) returns (found: Option<Found>)
      ensures found.None? <==> forall k :: !T.Answers(records, k, value, now)
      ensures found.Some? ==> T.Answers(records, found.value.key, value, now)
                              && found.value.previous == !T.Standing(records, found.value.key, value, now)
    {
      var left := records.Keys;
      while left != {}
        invariant left <= records.Keys && forall k :: k !in left ==> !T.Answers(records, k, value, now)
        decreases left
      {
        var k :| k in left;
        if records[k].body.TokenFamily? {
          var f := records[k].body.family;
          assert T.Answers(records, k, value, now) <==> T.Standing(records, k, value, now) || T.InGrace(records, k, value, now);
          if f.refresh.value == value && f.refresh.expiresAt > now { return Some(Found(k, false)); }
          if f.previous.Some? && f.previous.value.value == value && f.previous.value.expiresAt > now {
            return Some(Found(k, true));
          }
        }
        left := left - {k};
      }
      return None;
    }
  }

  class Auth {
    const records: AuthRecords
    const retention: nat
    ghost var clock: int
    ghost var issued: map<Value, T.Issue>
    ghost var minted: set<Key>

    ghost function Value(): T.State
      reads this, records
    {
      T.State(records.records, clock, issued, minted)
    }

    ghost predicate Valid()
      reads this, records
    {
      T.Good(Value()) && retention >= T.REFRESH_TTL_MS
    }

    constructor (records: AuthRecords, retention: nat)
      requires records.records == map[] && retention >= T.REFRESH_TTL_MS
      ensures Valid() && this.records == records && Value() == T.State(map[], clock, map[], {})
    {
      this.records, this.retention := records, retention;
      clock, issued, minted := 0, map[], {};
    }

    /** `mint`, over a key and values drawn at random. */
    method Mint(key: Key, user: string, now: int, access: Value, refresh: Value) returns (answer: T.Answer)
      requires Valid() && clock <= now && key !in minted && key !in records.records && refresh !in issued
      modifies this, records
      ensures Valid() && T.Next(old(Value()), T.Mint(key, user, now, access, refresh), Value(), retention)
      ensures answer == T.Session(Token(access, now + T.ACCESS_TTL_MS), Token(refresh, now + T.REFRESH_TTL_MS))
    {
      ghost var before := Value();
      var family := T.Minted(user, now, access, refresh);
      var written := records.Write(key, TokenFamily(family), now);
      clock, issued, minted := now, issued[refresh := T.Issue(key, now)], minted + {key};
      T.NextKeeps(before, T.Mint(key, user, now, access, refresh), Value(), retention);
      answer := T.Session(family.access, family.refresh);
    }

    /** `refreshToken`, and `#failReplayed` when no family answers. The clock is
        read for the lookup, at `now`, and again for what is written, at `at`. */
    method RefreshToken(value: Value, now: int, at: int, admitted: bool, access: Value, refresh: Value) returns (answer: T.Answer)
      requires Valid() && clock <= now <= at && refresh !in issued
      modifies this, records
      ensures Valid() && T.Next(old(Value()), T.Refresh(value, now, at, admitted, access, refresh, answer), Value(), retention)
    {
      ghost var before := Value();
      T.TickKeeps(before, at);
      clock := at;
      var found := records.ByRefresh(value, now);
      answer := T.Refused;
      if found.None? {
        FailReplayed(value, now, at);
      } else if admitted {
        var k := found.value.key;
        assert T.Answers(before.held, k, value, now);
        var family := records.records[k].body.family;
        if found.value.previous {
          answer := T.Session(family.access, family.refresh);
        } else {
          var rotated := T.Rotated(family, at, access, refresh);
          var written := records.Write(k, TokenFamily(rotated), at);
          issued := issued[refresh := T.Issue(k, at)];
          answer := T.Session(rotated.access, rotated.refresh);
        }
        assert T.RefreshFound(before, k, T.Refresh(value, now, at, admitted, access, refresh, answer), Value());
      } else {
        assert T.Answers(before.held, found.value.key, value, now);
        assert T.RefreshFound(before, found.value.key, T.Refresh(value, now, at, admitted, access, refresh, answer), Value());
      }
      T.NextKeeps(before, T.Refresh(value, now, at, admitted, access, refresh, answer), Value(), retention);
    }

    /** `#failReplayed`: fail every family that retired this value. */
    method FailReplayed(value: Value, now: int, at: int)
      requires Valid() && now <= at == clock
      modifies records
      ensures records.records
           == T.FailAll(old(records.records), T.Retiring(old(records.records), value, now), at, retention)
    {
      var keys := T.Retiring(records.records, value, now);
      forall x, y | x in keys && y in keys ensures x == y {
        T.OnlyItsOwn(Value(), value, x, now);
        T.OnlyItsOwn(Value(), value, y, now);
      }
      var left := keys;
      while left != {}
        invariant left <= keys
        invariant records.records == if left == keys then old(records.records)
                                     else T.FailAll(old(records.records), keys, at, retention)
        decreases left
      {
        var k :| k in left;
        assert left == keys == {k};
        T.FailOne(records.records, k, at, retention);
        records.Fail(k, at, retention);
        left := left - {k};
      }
    }
  }
}
