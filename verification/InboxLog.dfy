/** The undelivered-message log: its lines, what replaying them means, expiry,
    and the compaction that follows a replay. Everything here is on values; the
    object that keeps them is in `InboxStore`, the interleavings in `Delivery`. */
module InboxLog {

  type Sid = string

  /** A message id. `Own(n)` is this instance's prefix followed by a counter;
      `Foreign` is every other spelling, which `lastCounter` skips. */
  datatype Mid = Own(counter: nat) | Foreign(name: string)

  datatype Message = Message(mid: Mid, sentAt: int, text: string)

  datatype Record =
    | Add(sid: Sid, message: Message)
    | Delivered(sid: Sid, mid: Mid)
    | Dropped(sid: Sid, mid: Mid)

  /** A line read back: a record, or one the load skips (blank, torn by a kill,
      or an `add` the contract can no longer state). */
  datatype Line = Stated(record: Record) | Refused

  type Held = map<Sid, seq<Message>>

  function Of(held: Held, sid: Sid): seq<Message> {
    if sid in held then held[sid] else []
  }

  function Put(held: Held, sid: Sid, left: seq<Message>): Held {
    if left == [] then held - {sid} else held[sid := left]
  }

  // --- expiry and removal of a list ---

  predicate Fresh(m: Message, now: int, retention: nat) {
    now - m.sentAt <= retention
  }

  function Live(s: seq<Message>, now: int, retention: nat): (r: seq<Message>)
    ensures |r| <= |s|
  {
    if s == [] then []
    else
      var front := Live(s[..|s| - 1], now, retention);
      if Fresh(s[|s| - 1], now, retention) then front + [s[|s| - 1]] else front
  }

  function Without(s: seq<Message>, gone: set<Mid>): (r: seq<Message>)
    ensures |r| <= |s|
  {
    if s == [] then []
    else
      var front := Without(s[..|s| - 1], gone);
      if s[|s| - 1].mid in gone then front else front + [s[|s| - 1]]
  }

  lemma {:induction false} LiveHolds(s: seq<Message>, now: int, retention: nat)
    ensures forall m :: m in Live(s, now, retention) <==> m in s && Fresh(m, now, retention)
    ensures |Live(s, now, retention)| == |s| ==> Live(s, now, retention) == s
  {
    if s != [] {
      LiveHolds(s[..|s| - 1], now, retention);
      assert s == s[..|s| - 1] + [s[|s| - 1]];
    }
  }

  lemma {:induction false} WithoutHolds(s: seq<Message>, gone: set<Mid>)
    ensures forall m :: m in Without(s, gone) <==> m in s && m.mid !in gone
  {
    if s != [] {
      WithoutHolds(s[..|s| - 1], gone);
      assert s == s[..|s| - 1] + [s[|s| - 1]];
    }
  }

  predicate DistinctMids(s: seq<Message>) {
    forall i, j :: 0 <= i < j < |s| ==> s[i].mid != s[j].mid
  }

  function MidsOf(s: seq<Message>): set<Mid> {
    set m <- s :: m.mid
  }

  lemma LiveSnoc(s: seq<Message>, m: Message, now: int, retention: nat)
    ensures Live(s + [m], now, retention)
         == if Fresh(m, now, retention) then Live(s, now, retention) + [m] else Live(s, now, retention)
  {
    assert (s + [m])[..|s|] == s;
  }

  lemma {:induction false} LiveTwice(s: seq<Message>, before: int, now: int, retention: nat)
    requires before <= now
    ensures Live(Live(s, before, retention), now, retention) == Live(s, now, retention)
  {
    if s != [] {
      var front, last := s[..|s| - 1], s[|s| - 1];
      LiveTwice(front, before, now, retention);
      LiveSnoc(Live(front, before, retention), last, now, retention);
    }
  }

  lemma WithoutSnoc(s: seq<Message>, m: Message, gone: set<Mid>)
    ensures Without(s + [m], gone) == if m.mid in gone then Without(s, gone) else Without(s, gone) + [m]
  {
    assert (s + [m])[..|s|] == s;
  }

  lemma {:induction false} LiveWithout(s: seq<Message>, gone: set<Mid>, now: int, retention: nat)
    ensures Live(Without(s, gone), now, retention) == Without(Live(s, now, retention), gone)
  {
    if s != [] {
      var front, last := s[..|s| - 1], s[|s| - 1];
      LiveWithout(front, gone, now, retention);
      LiveSnoc(Without(front, gone), last, now, retention);
      WithoutSnoc(Live(front, now, retention), last, gone);
    }
  }

  lemma {:induction false} WithoutTwice(s: seq<Message>, a: set<Mid>, b: set<Mid>)
    ensures Without(Without(s, a), b) == Without(s, a + b)
  {
    if s != [] {
      var front, last := s[..|s| - 1], s[|s| - 1];
      WithoutTwice(front, a, b);
      WithoutSnoc(Without(front, a), last, b);
    }
  }

  lemma {:induction false} WithoutNone(s: seq<Message>, gone: set<Mid>)
    requires forall m <- s :: m.mid !in gone
    ensures Without(s, gone) == s
  {
    if s != [] {
      WithoutNone(s[..|s| - 1], gone);
      assert s[|s| - 1] in s;
    }
  }

  /** Taking the oldest off a list of distinct ids and filtering its id out of
      the list are the same thing: what makes a `dropped` line replayable. */
  lemma {:induction false} ShiftIsWithout(s: seq<Message>)
    requires s != [] && DistinctMids(s)
    ensures Without(s, {s[0].mid}) == s[1..]
  {
    if |s| > 1 {
      var front, last := s[..|s| - 1], s[|s| - 1];
      ShiftIsWithout(front);
      assert s[1..] == front[1..] + [last];
    }
  }

  lemma {:induction false} LiveDistinct(s: seq<Message>, now: int, retention: nat)
    requires DistinctMids(s)
    ensures DistinctMids(Live(s, now, retention))
  {
    if s != [] {
      var front, last := s[..|s| - 1], s[|s| - 1];
      LiveDistinct(front, now, retention);
      LiveHolds(front, now, retention);
      DistinctSnoc(Live(front, now, retention), last, s);
    }
  }

  lemma {:induction false} WithoutDistinct(s: seq<Message>, gone: set<Mid>)
    requires DistinctMids(s)
    ensures DistinctMids(Without(s, gone))
  {
    if s != [] {
      var front, last := s[..|s| - 1], s[|s| - 1];
      WithoutDistinct(front, gone);
      WithoutHolds(front, gone);
      DistinctSnoc(Without(front, gone), last, s);
    }
  }

  lemma DistinctSnoc(front: seq<Message>, last: Message, s: seq<Message>)
    requires DistinctMids(s) && s != [] && s[|s| - 1] == last
    requires DistinctMids(front) && forall m :: m in front ==> m in s[..|s| - 1]
    ensures DistinctMids(front + [last])
  {
    forall i | 0 <= i < |front| ensures front[i].mid != last.mid {
      assert front[i] in front;
    }
  }

  // --- expiry of the whole map (#expire) ---

  // --- a list, position by position ---

  /** `r` is what `s` has at the positions `keep`, in that order. */
  ghost predicate Picks(r: seq<Message>, s: seq<Message>, keep: set<nat>) {
    exists at: seq<nat> :: PicksAt(r, s, keep, at)
  }

  ghost predicate PicksAt(r: seq<Message>, s: seq<Message>, keep: set<nat>, at: seq<nat>) {
    && |at| == |r| && (forall i, j :: 0 <= i < j < |at| ==> at[i] < at[j])
    && (forall j :: 0 <= j < |at| ==> at[j] < |s| && r[j] == s[at[j]])
    && forall i: nat :: i in keep <==> i in at
  }

  /** The positions of the messages inside the window that are not spoken for. */
  function Free(s: seq<Message>, now: int, retention: nat, claimed: set<Mid>): set<nat> {
    set i: nat | i < |s| && now - s[i].sentAt <= retention && s[i].mid !in claimed
  }

  lemma FreeSnoc(s: seq<Message>, m: Message, now: int, retention: nat, claimed: set<Mid>)
    ensures Free(s + [m], now, retention, claimed)
         == Free(s, now, retention, claimed) + if now - m.sentAt <= retention && m.mid !in claimed then {|s|} else {}
  {
    assert forall i :: 0 <= i < |s| ==> (s + [m])[i] == s[i];
  }

  lemma PicksOneMore(r: seq<Message>, s: seq<Message>, keep: set<nat>, at: seq<nat>, m: Message)
    requires PicksAt(r, s, keep, at)
    ensures PicksAt(r, s + [m], keep, at) && PicksAt(r + [m], s + [m], keep + {|s|}, at + [|s|])
  {
    var longer := at + [|s|];
    forall i: nat ensures i in keep + {|s|} <==> i in longer {
      if i == |s| { assert longer[|at|] == i; }
    }
  }

  lemma PickedSnoc(s: seq<Message>, m: Message, now: int, retention: nat, claimed: set<Mid>)
    ensures Without(Live(s + [m], now, retention), claimed)
         == Without(Live(s, now, retention), claimed) + if now - m.sentAt <= retention && m.mid !in claimed then [m] else []
  {
    LiveSnoc(s, m, now, retention);
    WithoutSnoc(Live(s, now, retention), m, claimed);
  }

  lemma PicksNext(r: seq<Message>, s: seq<Message>, keep: set<nat>, at: seq<nat>, m: Message, free: bool) returns (next: seq<nat>)
    requires PicksAt(r, s, keep, at)
    ensures PicksAt(r + if free then [m] else [], s + [m], keep + if free then {|s|} else {}, next)
  {
    PicksOneMore(r, s, keep, at, m);
    next := if free then at + [|s|] else at;
    assert r + [] == r && keep + {} == keep;
  }

  lemma FreePickedSnoc(s: seq<Message>, m: Message, now: int, retention: nat, claimed: set<Mid>, at: seq<nat>) returns (next: seq<nat>)
    requires PicksAt(Without(Live(s, now, retention), claimed), s, Free(s, now, retention, claimed), at)
    ensures PicksAt(Without(Live(s + [m], now, retention), claimed), s + [m], Free(s + [m], now, retention, claimed), next)
  {
    PickedSnoc(s, m, now, retention, claimed);
    FreeSnoc(s, m, now, retention, claimed);
    next := PicksNext(Without(Live(s, now, retention), claimed), s, Free(s, now, retention, claimed), at, m,
                      now - m.sentAt <= retention && m.mid !in claimed);
  }

  /** Expiry and the claims together leave, in order, exactly the messages inside
      the window that are not spoken for. */
  lemma {:induction false} FreePicked(s: seq<Message>, now: int, retention: nat, claimed: set<Mid>) returns (at: seq<nat>)
    ensures PicksAt(Without(Live(s, now, retention), claimed), s, Free(s, now, retention, claimed), at)
  {
    if s == [] {
      at := [];
    } else {
      assert s == s[..|s| - 1] + [s[|s| - 1]];
      at := FreePicked(s[..|s| - 1], now, retention, claimed);
      at := FreePickedSnoc(s[..|s| - 1], s[|s| - 1], now, retention, claimed, at);
    }
  }

  /** `#expire(now, only)`: the list is left alone when nothing in it ran out. */
  function ExpireSid(held: Held, sid: Sid, now: int, retention: nat): (r: Held)
    ensures Of(r, sid) == Live(Of(held, sid), now, retention)
    ensures forall other :: other != sid ==> Of(r, other) == Of(held, other)
  {
    var left := Live(Of(held, sid), now, retention);
    LiveHolds(Of(held, sid), now, retention);
    if |left| == |Of(held, sid)| then held else Put(held, sid, left)
  }

  // --- replay ---

  function Replayed(held: Held, record: Record): (r: Held)
    ensures forall sid :: Of(r, sid) == ReplayedList(Of(held, sid), sid, record)
  {
    match record
    case Add(sid, m) => held[sid := Of(held, sid) + [m]]
    case _ => if record.sid !in held then held
              else Put(held, record.sid, Without(held[record.sid], {record.mid}))
  }

  function ReplayedList(s: seq<Message>, sid: Sid, record: Record): seq<Message> {
    if record.sid != sid then s
    else match record
      case Add(_, m) => s + [m]
      case _ => Without(s, {record.mid})
  }

  /** The records of a file in the order they were asked for. */
  function Replay(log: seq<Record>): Held {
    if log == [] then map[] else Replayed(Replay(log[..|log| - 1]), log[|log| - 1])
  }

  /** What the same lines leave one session. */
  function Standing(log: seq<Record>, sid: Sid): seq<Message> {
    if log == [] then [] else ReplayedList(Standing(log[..|log| - 1], sid), sid, log[|log| - 1])
  }

  lemma {:induction false} ReplayStands(log: seq<Record>, sid: Sid)
    ensures Of(Replay(log), sid) == Standing(log, sid)
  {
    if log != [] {
      ReplayStands(log[..|log| - 1], sid);
    }
  }

  lemma StandingSnoc(log: seq<Record>, record: Record, sid: Sid)
    ensures Standing(log + [record], sid) == ReplayedList(Standing(log, sid), sid, record)
  {
    assert (log + [record])[..|log|] == log;
  }

  function Records(lines: seq<Line>): (r: seq<Record>)
    ensures forall x :: x in r <==> Stated(x) in lines
  {
    if lines == [] then []
    else
      var front := Records(lines[..|lines| - 1]);
      var last := lines[|lines| - 1];
      assert lines == lines[..|lines| - 1] + [last];
      if last.Stated? then front + [last.record] else front
  }

  lemma ReplaySnoc(log: seq<Record>, record: Record)
    ensures Replay(log + [record]) == Replayed(Replay(log), record)
  {
    assert (log + [record])[..|log|] == log;
  }

  lemma RecordsSnoc(lines: seq<Line>, line: Line)
    ensures Records(lines + [line]) == if line.Stated? then Records(lines) + [line.record] else Records(lines)
  {
    assert (lines + [line])[..|lines|] == lines;
  }

  // --- what a replay means, position by position ---

  predicate Removes(record: Record, sid: Sid, mid: Mid) {
    !record.Add? && record.sid == sid && record.mid == mid
  }

  /** Line `i` adds a message of `sid` that no later line takes away. */
  predicate Survives(log: seq<Record>, i: nat, sid: Sid)
    requires i < |log|
  {
    && log[i].Add? && log[i].sid == sid
    && forall j :: i < j < |log| ==> !Removes(log[j], sid, log[i].message.mid)
  }

  /** The survivors among the first `n` lines, in file order. */
  function Survivors(log: seq<Record>, n: nat, sid: Sid): seq<Message>
    requires n <= |log|
  {
    if n == 0 then []
    else if Survives(log, n - 1, sid) then Survivors(log, n - 1, sid) + [log[n - 1].message]
    else Survivors(log, n - 1, sid)
  }

  lemma SurvivesAfter(log: seq<Record>, i: nat, sid: Sid, record: Record)
    requires i < |log|
    ensures Survives(log + [record], i, sid)
       <==> Survives(log, i, sid) && !Removes(record, sid, log[i].message.mid)
  {
    var longer := log + [record];
    assert longer[|log|] == record;
    assert forall j :: 0 <= j < |log| ==> longer[j] == log[j];
  }

  lemma {:induction false} SurvivorsAfter(log: seq<Record>, n: nat, sid: Sid, record: Record)
    requires n <= |log|
    ensures Survivors(log + [record], n, sid)
         == if record.Add? || record.sid != sid then Survivors(log, n, sid)
            else Without(Survivors(log, n, sid), {record.mid})
  {
    if n > 0 {
      var longer := log + [record];
      SurvivorsAfter(log, n - 1, sid, record);
      SurvivesAfter(log, n - 1, sid, record);
      assert longer[n - 1] == log[n - 1];
      if !record.Add? && Survives(log, n - 1, sid) {
        var before, m := Survivors(log, n - 1, sid), log[n - 1].message;
        WithoutSnoc(before, m, {record.mid});
        assert Survivors(log, n, sid) == before + [m];
      }
    }
  }

  /** Replaying a log, whatever is in it, leaves each session exactly the added
      messages no later line of that session removes, in the order added. */
  lemma {:induction false} StandingIsSurvivors(log: seq<Record>, sid: Sid)
    ensures Standing(log, sid) == Survivors(log, |log|, sid)
  {
    if log != [] {
      var front, last := log[..|log| - 1], log[|log| - 1];
      assert log == front + [last];
      StandingIsSurvivors(front, sid);
      SurvivorsAfter(front, |front|, sid, last);
    }
  }

  lemma {:induction false} SurvivorsHold(log: seq<Record>, n: nat, sid: Sid, m: Message)
    requires n <= |log|
    ensures m in Survivors(log, n, sid)
       <==> exists i :: 0 <= i < n && Survives(log, i, sid) && log[i].message == m
  {
    if n > 0 {
      SurvivorsHold(log, n - 1, sid, m);
    }
  }

  /** Crash durability, both ways, for the replay of any prefix of any log: a
      message is there exactly when its `add` line landed and no line after it
      removes it. */
  lemma StandingHolds(log: seq<Record>, sid: Sid, m: Message)
    ensures m in Standing(log, sid)
       <==> exists i :: 0 <= i < |log| && Survives(log, i, sid) && log[i].message == m
  {
    StandingIsSurvivors(log, sid);
    SurvivorsHold(log, |log|, sid, m);
  }

  // --- ids of a log ---

  /** No two `add` lines carry one id. */
  predicate UniqueAdds(log: seq<Record>) {
    forall i, j :: 0 <= i < j < |log| && log[i].Add? && log[j].Add? ==> log[i].message.mid != log[j].message.mid
  }

  lemma {:induction false} SurvivorsDistinct(log: seq<Record>, n: nat, sid: Sid)
    requires n <= |log| && UniqueAdds(log)
    ensures DistinctMids(Survivors(log, n, sid))
  {
    if n > 0 {
      SurvivorsDistinct(log, n - 1, sid);
      forall m <- Survivors(log, n - 1, sid) ensures log[n - 1].Add? ==> m.mid != log[n - 1].message.mid {
        SurvivorsHold(log, n - 1, sid, m);
      }
    }
  }

  lemma StandingDistinct(log: seq<Record>, sid: Sid)
    requires UniqueAdds(log)
    ensures DistinctMids(Standing(log, sid))
  {
    StandingIsSurvivors(log, sid);
    SurvivorsDistinct(log, |log|, sid);
  }

  // --- compaction ---

  function AddsOf(sid: Sid, s: seq<Message>): (r: seq<Record>)
    ensures |r| == |s| && forall i :: 0 <= i < |s| ==> r[i] == Add(sid, s[i])
  {
    if s == [] then [] else AddsOf(sid, s[..|s| - 1]) + [Add(sid, s[|s| - 1])]
  }

  /** `#compact` in the key order `order`: one `add` line per held message. */
  function Compacted(held: Held, order: seq<Sid>): seq<Record> {
    if order == [] then []
    else Compacted(held, order[..|order| - 1]) + AddsOf(order[|order| - 1], Of(held, order[|order| - 1]))
  }

  ghost predicate IsOrderOf(order: seq<Sid>, held: Held) {
    && (forall sid :: sid in order <==> sid in held)
    && forall i, j :: 0 <= i < j < |order| ==> order[i] != order[j]
  }

  lemma {:induction false} StandingAdds(log: seq<Record>, sid: Sid, s: seq<Message>, other: Sid)
    ensures Standing(log + AddsOf(sid, s), other)
         == if other == sid then Standing(log, other) + s else Standing(log, other)
  {
    if s == [] {
      assert log + AddsOf(sid, s) == log;
    } else {
      var front, last := s[..|s| - 1], s[|s| - 1];
      var before := log + AddsOf(sid, front);
      StandingAdds(log, sid, front, other);
      StandingSnoc(before, Add(sid, last), other);
      assert log + AddsOf(sid, s) == before + [Add(sid, last)];
      assert Standing(log, other) + s == Standing(log, other) + front + [last];
    }
  }

  lemma {:induction false} StandingCompactedPart(held: Held, order: seq<Sid>, sid: Sid)
    requires forall i, j :: 0 <= i < j < |order| ==> order[i] != order[j]
    ensures Standing(Compacted(held, order), sid) == if sid in order then Of(held, sid) else []
  {
    if order != [] {
      var front, last := order[..|order| - 1], order[|order| - 1];
      assert order == front + [last];
      StandingCompactedPart(held, front, sid);
      StandingAdds(Compacted(held, front), last, Of(held, last), sid);
    }
  }

  /** Compaction followed by replay is the identity, in whatever order the map
      is walked. */
  lemma StandingCompacted(held: Held, order: seq<Sid>, sid: Sid)
    requires IsOrderOf(order, held)
    ensures Standing(Compacted(held, order), sid) == Of(held, sid)
  {
    StandingCompactedPart(held, order, sid);
  }

  lemma {:induction false} CompactedHolds(held: Held, order: seq<Sid>, x: Record)
    ensures x in Compacted(held, order) <==> x.Add? && x.sid in order && x.message in Of(held, x.sid)
  {
    if order != [] {
      var front, last := order[..|order| - 1], order[|order| - 1];
      assert order == front + [last];
      CompactedHolds(held, front, x);
      var adds := AddsOf(last, Of(held, last));
      if x.Add? && x.sid == last && x.message in Of(held, last) {
        var i :| 0 <= i < |Of(held, last)| && Of(held, last)[i] == x.message;
        assert adds[i] == x;
      }
    }
  }
}
