/** The replicated authentication records: last write wins per key, with
    tombstones that refuse every later write, and what makes the outcome of a
    replication independent of the order it happened in. */
module Records {
  import opened Wrappers

  type Key = string
  type Value = string

  datatype Token = Token(value: Value, expiresAt: int)

  /** SHA-256 of a value, taken as injective. */
  datatype Digest = Digest(of: Value)

  datatype Retired = Retired(hash: Digest, expiresAt: int)

  datatype Family = Family(user: string, access: Token, refresh: Token, previous: Option<Token>, retired: seq<Retired>)

  /** `Other` is a user, a credential or an ownership; `Malformed` is every body
      the contract's schema refuses. */
  datatype Body =
    | TokenFamily(family: Family)
    | Tombstone(deletedAt: int, expiresAt: Option<int>)
    | Other(user: string)
    | Malformed

  datatype Record = Record(key: Key, updatedAt: int, body: Body)

  type Held = map<Key, Record>

  /** `accept`: the instant is compared before the tombstone is looked at. */
  predicate Takes(held: Held, r: Record) {
    && !r.body.Malformed?
    && (r.key in held ==> held[r.key].updatedAt < r.updatedAt && !held[r.key].body.Tombstone?)
  }

  function Accept(held: Held, r: Record): Held {
    if Takes(held, r) then held[r.key := r] else held
  }

  function Merge(held: Held, rs: seq<Record>): Held {
    if rs == [] then held else Accept(Merge(held, rs[..|rs| - 1]), rs[|rs| - 1])
  }

  /** Batches make no difference to what a replica ends with. */
  lemma {:induction false} MergeBatches(held: Held, a: seq<Record>, b: seq<Record>)
    ensures Merge(Merge(held, a), b) == Merge(held, a + b)
  {
    if b == [] {
      assert a + b == a;
    } else {
      MergeBatches(held, a, b[..|b| - 1]);
      assert (a + b)[..|a + b| - 1] == a + b[..|b| - 1];
    }
  }

  // --- order independence, and exactly when it holds ---

  /** A record nothing in `s` displaces once it is held: a mark, or one with the
      newest instant of its key. */
  ghost predicate Dominant(s: set<Record>, r: Record) {
    && r in s && !r.body.Malformed?
    && (r.body.Tombstone? || forall x :: x in s && !x.body.Malformed? && x.key == r.key ==> x.updatedAt <= r.updatedAt)
  }

  /** Each key has one such record: something a writer can check of a set. */
  ghost predicate Settled(s: set<Record>) {
    forall a, b :: Dominant(s, a) && Dominant(s, b) && a.key == b.key ==> a == b
  }

  /** A delivery of `s` in some order, with any repetition. */
  ghost predicate Delivers(rs: seq<Record>, s: set<Record>) {
    forall r :: r in rs <==> r in s
  }

  ghost predicate Converges(s: set<Record>) {
    forall a, b :: Delivers(a, s) && Delivers(b, s) ==> Merge(map[], a) == Merge(map[], b)
  }

  /** Everything held came from `s`, under its own key. */
  ghost predicate From(held: Held, s: set<Record>) {
    forall k :: k in held ==> held[k] in s && held[k].key == k && !held[k].body.Malformed?
  }

  lemma {:induction false} MergeFrom(held: Held, rs: seq<Record>, s: set<Record>)
    requires From(held, s) && forall r :: r in rs ==> r in s
    ensures From(Merge(held, rs), s)
    ensures forall k :: k in Merge(held, rs) <==> k in held || exists r :: r in rs && r.key == k && !r.body.Malformed?
  {
    if rs != [] {
      var front, last := rs[..|rs| - 1], rs[|rs| - 1];
      assert rs == front + [last];
      MergeFrom(held, front, s);
    }
  }

  lemma {:induction false} NewestExists(s: set<Record>, r: Record) returns (n: Record)
    requires r in s && !r.body.Malformed?
    ensures n in s && n.key == r.key && !n.body.Malformed? && r.updatedAt <= n.updatedAt
    ensures forall x :: x in s && !x.body.Malformed? && x.key == r.key ==> x.updatedAt <= n.updatedAt
    decreases s
  {
    if x :| x in s && !x.body.Malformed? && x.key == r.key && r.updatedAt < x.updatedAt {
      n := NewestExists(s - {r}, x);
    } else {
      n := r;
    }
  }

  lemma DominantRefuses(held: Held, x: Record, s: set<Record>, r: Record)
    requires Dominant(s, r) && r.key in held && held[r.key] == r && x in s
    ensures r.key in Accept(held, x) && Accept(held, x)[r.key] == r
  {
  }

  lemma {:induction false} DominantStays(held: Held, rs: seq<Record>, s: set<Record>, r: Record)
    requires Dominant(s, r) && r.key in held && held[r.key] == r && forall x :: x in rs ==> x in s
    ensures r.key in Merge(held, rs) && Merge(held, rs)[r.key] == r
  {
    if rs != [] {
      assert rs == rs[..|rs| - 1] + [rs[|rs| - 1]];
      DominantStays(held, rs[..|rs| - 1], s, r);
      DominantRefuses(Merge(held, rs[..|rs| - 1]), rs[|rs| - 1], s, r);
    }
  }

  /** In a settled set the dominant record displaces whatever it finds. */
  lemma DominantDisplaces(held: Held, s: set<Record>, r: Record)
    requires Settled(s) && Dominant(s, r) && From(held, s)
    ensures Accept(held, r)[r.key] == r
  {
    if r.key in held && held[r.key] != r {
      var x := held[r.key];
      var n := NewestExists(s, x);
      assert Dominant(s, n);
      assert !Dominant(s, x);
    }
  }

  lemma {:induction false} DominantArrives(held: Held, rs: seq<Record>, s: set<Record>, r: Record)
    requires Settled(s) && Dominant(s, r) && From(held, s)
    requires r in rs && forall x :: x in rs ==> x in s
    ensures r.key in Merge(held, rs) && Merge(held, rs)[r.key] == r
  {
    var front, last := rs[..|rs| - 1], rs[|rs| - 1];
    assert rs == front + [last];
    if r in front {
      DominantArrives(held, front, s, r);
      DominantRefuses(Merge(held, front), last, s, r);
    } else {
      MergeFrom(held, front, s);
      DominantDisplaces(Merge(held, front), s, r);
    }
  }

  /** Every order, batching and repetition of a settled set leaves, under each of
      its keys, the dominant record of that key and nothing else. */
  lemma SettledMeansNewest(rs: seq<Record>, s: set<Record>)
    requires Settled(s) && Delivers(rs, s)
    ensures forall k :: k in Merge(map[], rs) <==> exists r :: Dominant(s, r) && r.key == k
    ensures forall r :: Dominant(s, r) ==> Merge(map[], rs)[r.key] == r
  {
    MergeFrom(map[], rs, s);
    forall r | Dominant(s, r) ensures r.key in Merge(map[], rs) && Merge(map[], rs)[r.key] == r {
      DominantArrives(map[], rs, s, r);
    }
    forall k | k in Merge(map[], rs) ensures exists r :: Dominant(s, r) && r.key == k {
      var n := NewestExists(s, Merge(map[], rs)[k]);
      assert Dominant(s, n);
    }
  }

  lemma {:induction false} SeqOf(s: set<Record>) returns (rs: seq<Record>)
    ensures Delivers(rs, s)
  {
    if s == {} {
      rs := [];
    } else {
      var r :| r in s;
      rs := SeqOf(s - {r});
      rs := rs + [r];
    }
  }

  /** Delivered first, a dominant record is what the replica ends with. */
  lemma FirstWins(s: set<Record>, r: Record, rest: seq<Record>)
    requires Dominant(s, r) && Delivers(rest, s)
    ensures Delivers([r] + rest, s)
    ensures r.key in Merge(map[], [r] + rest) && Merge(map[], [r] + rest)[r.key] == r
  {
    MergeBatches(map[], [r], rest);
    assert [r][..0] == [];
    assert Merge(map[], [r]) == Accept(map[], r);
    DominantStays(Accept(map[], r), rest, s, r);
  }

  /** Order-independent merge, exactly: replicas that are given the same finite
      set, in any order, batching and repetition, end with the same map if and
      only if no key has two records each of which is a mark or the newest. */
  lemma ConvergesExactlyWhenSettled(s: set<Record>)
    ensures Converges(s) <==> Settled(s)
  {
    if Settled(s) {
      forall a, b | Delivers(a, s) && Delivers(b, s) ensures Merge(map[], a) == Merge(map[], b) {
        SettledMeansNewest(a, s);
        SettledMeansNewest(b, s);
      }
    }
    if Converges(s) {
      forall a, b | Dominant(s, a) && Dominant(s, b) && a.key == b.key ensures a == b {
        var rest := SeqOf(s);
        FirstWins(s, a, rest);
        FirstWins(s, b, rest);
      }
    }
  }

  /** Distinct instants per key with each mark its key's newest is one way to be
      settled; every replica then ends with the newest record of each key. */
  lemma NewestMarksConverge(s: set<Record>, rs: seq<Record>, r: Record)
    requires forall a, b :: a in s && b in s && a.key == b.key && a.updatedAt == b.updatedAt ==> a == b
    requires forall a, b :: a in s && b in s && a.key == b.key && a.body.Tombstone? && !b.body.Malformed? ==> b.updatedAt <= a.updatedAt
    requires Delivers(rs, s) && r in s && !r.body.Malformed?
    ensures Converges(s) && r.key in Merge(map[], rs) && r.updatedAt <= Merge(map[], rs)[r.key].updatedAt
    ensures Merge(map[], rs)[r.key] in s && Merge(map[], rs)[r.key].key == r.key
  {
    forall a, b | Dominant(s, a) && Dominant(s, b) && a.key == b.key ensures a == b {
      assert a.updatedAt == b.updatedAt;
    }
    ConvergesExactlyWhenSettled(s);
    SettledMeansNewest(rs, s);
    var n := NewestExists(s, r);
    assert Dominant(s, n);
  }

  lemma MergeTwo(a: Record, b: Record)
    ensures Merge(map[], [a, b]) == Accept(Accept(map[], a), b)
  {
    assert [a, b][..1] == [a] && [a][..0] == [];
    assert Merge(map[], [a]) == Accept(Merge(map[], []), a);
  }

  /** The family the documentation overlooks: a mark older than a concurrent live
      write leaves the result to the order of arrival. */
  lemma OlderMarkDiverges(key: Key, mark: Record, live: Record)
    requires mark.key == live.key == key && mark.body.Tombstone? && !live.body.Tombstone? && !live.body.Malformed? && mark.updatedAt < live.updatedAt
    ensures Merge(map[], [mark, live]) == map[key := mark]
    ensures Merge(map[], [live, mark]) == map[key := live]
    ensures !Converges({mark, live})
  {
    MergeTwo(mark, live);
    MergeTwo(live, mark);
    ConvergesExactlyWhenSettled({mark, live});
    assert Dominant({mark, live}, mark) && Dominant({mark, live}, live);
  }

  // --- local writes, marks and expiry ---

  /** `write` moves its instant past what is held. */
  function Stamp(held: Held, key: Key, now: int): int {
    if key in held && held[key].updatedAt + 1 > now then held[key].updatedAt + 1 else now
  }

  predicate Over(body: Body, now: int) {
    match body
    case TokenFamily(f) => f.refresh.expiresAt <= now
    case Tombstone(_, Some(at)) => at <= now
    case _ => false
  }

  /** `#expire`. */
  function Expire(held: Held, now: int): Held {
    map k | k in held && !Over(held[k].body, now) :: held[k]
  }

  /** `write` once its body passed the schema: the set as the call leaves it. */
  function Write(held: Held, key: Key, body: Body, now: int): Held {
    Expire(Accept(held, Record(key, Stamp(held, key, now), body)), now)
  }

  /** `erase(key, keep)` over a key that holds something. */
  function Erase(held: Held, key: Key, now: int, keep: Option<nat>): Held
    requires key in held
  {
    var expires := if keep.Some? then Some(now + keep.value) else None;
    Expire(held[key := Record(key, Stamp(held, key, now), Tombstone(now, expires))], now)
  }

  /** What goes and what stays, kind by kind: a family past its refresh token and a
      mark past a stated expiry go; a user, a credential, an ownership and a mark
      without one stay. */
  lemma ExpireExactly(held: Held, now: int, k: Key)
    ensures k in Expire(held, now) <==> k in held && match held[k].body
                                                     case TokenFamily(f) => f.refresh.expiresAt > now
                                                     case Tombstone(_, Some(at)) => at > now
                                                     case _ => true
    ensures k in Expire(held, now) ==> Expire(held, now)[k] == held[k]
  {
  }

  /** A local write lands, past what is held and no further than it has to be,
      unless a mark stands there, and then nothing moves: two writes in one
      millisecond do not lose the second. */
  lemma WriteLands(held: Held, key: Key, body: Body, now: int)
    requires !body.Malformed? && (body.TokenFamily? ==> body.family.refresh.expiresAt > now)
    requires body.Tombstone? && body.expiresAt.Some? ==> body.expiresAt.value > now
    ensures key !in held ==> key in Write(held, key, body, now) && Write(held, key, body, now)[key] == Record(key, now, body)
    ensures key in held && !held[key].body.Tombstone? ==>
      && key in Write(held, key, body, now) && held[key].updatedAt < Write(held, key, body, now)[key].updatedAt
      && Write(held, key, body, now)[key] == Record(key, if held[key].updatedAt < now then now else held[key].updatedAt + 1, body)
    ensures key in held && held[key].body.Tombstone? ==> Write(held, key, body, now) == Expire(held, now)
    ensures forall x :: x != key ==> (x in Write(held, key, body, now) <==> x in Expire(held, now))
    ensures forall x :: x != key && x in Write(held, key, body, now) ==> Write(held, key, body, now)[x] == held[x]
  {
  }

  /** A user, a credential, an ownership, or a mark without an end. */
  predicate Endless(body: Body) {
    body.Other? || (body.Tombstone? && body.expiresAt.None?)
  }

  /** Nothing that happens to other keys takes one of those away. */
  lemma EndlessStays(held: Held, k: Key, other: Key, body: Body, now: int, keep: Option<nat>)
    requires k in held && Endless(held[k].body) && other != k
    ensures k in Expire(held, now) && Expire(held, now)[k] == held[k]
    ensures k in Write(held, other, body, now) && Write(held, other, body, now)[k] == held[k]
    ensures other in held ==> k in Erase(held, other, now, keep) && Erase(held, other, now, keep)[k] == held[k]
  {
  }

  /** Nor does a batch, which takes no key away and replaces a record only by a
      later one of its own key, and a mark by nothing. */
  lemma {:induction false} MergeReplacesByLater(held: Held, rs: seq<Record>, k: Key)
    requires k in held
    ensures k in Merge(held, rs)
    ensures Merge(held, rs)[k] == held[k]
         || (Merge(held, rs)[k] in rs && Merge(held, rs)[k].key == k && held[k].updatedAt < Merge(held, rs)[k].updatedAt
             && !held[k].body.Tombstone?)
  {
    if rs != [] {
      MergeReplacesByLater(held, rs[..|rs| - 1], k);
      assert rs == rs[..|rs| - 1] + [rs[|rs| - 1]];
    }
  }
}
