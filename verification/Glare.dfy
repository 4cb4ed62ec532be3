/** Two instances that dial each other: the connection opened by the smaller
    endpoint is the one both ends keep, whatever order things happen in. */
module Glare {
  import opened Wrappers

  type Endpoint = string

  /** JavaScript's `<` on strings: by code unit, a proper prefix being smaller. */
  predicate Less(a: Endpoint, b: Endpoint) {
    b != [] && (a == [] || a[0] < b[0] || (a[0] == b[0] && Less(a[1..], b[1..])))
  }

  lemma {:induction false} LessIsTotal(a: Endpoint, b: Endpoint)
    ensures !(Less(a, b) && Less(b, a))
    ensures a == b <==> !Less(a, b) && !Less(b, a)
  {
    if a != [] && b != [] && a[0] == b[0] {
      LessIsTotal(a[1..], b[1..]);
      assert a == [a[0]] + a[1..] && b == [b[0]] + b[1..];
    }
  }

  /** What the order is: at the first place two strings differ the smaller unit
      decides, and one that ends there is the smaller. */
  lemma {:induction false} LessIsByCodeUnit(a: Endpoint, b: Endpoint)
    ensures Less(a, b) <==> exists i :: 0 <= i <= |a| && i < |b| && a[..i] == b[..i] && (i == |a| || a[i] < b[i])
  {
    if a != [] && b != [] && a[0] == b[0] {
      LessIsByCodeUnit(a[1..], b[1..]);
      forall i | 0 <= i < |a| && i < |b[1..]| && a[1..][..i] == b[1..][..i] && (i == |a[1..]| || a[1..][i] < b[1..][i])
        ensures a[..i + 1] == b[..i + 1] && (i + 1 == |a| || a[i + 1] < b[i + 1])
      {
        assert a[..i + 1] == [a[0]] + a[1..][..i] && b[..i + 1] == [b[0]] + b[1..][..i];
      }
      if i :| 0 <= i <= |a| && i < |b| && a[..i] == b[..i] && (i == |a| || a[i] < b[i]) {
        assert i > 0 && a[1..][..i - 1] == a[..i][1..] && b[1..][..i - 1] == b[..i][1..];
      }
    } else if a != [] && b != [] {
      assert forall i :: 0 < i <= |a| && i <= |b| ==> a[..i][0] == a[0] && b[..i][0] == b[0];
      if a[0] < b[0] { assert a[..0] == b[..0]; }
    } else if b != [] {
      assert a[..0] == b[..0];
    }
  }

  /** `glareKeepsNew`. */
  predicate KeepsNew(self: Endpoint, peer: Endpoint, dialledByUs: bool) {
    if dialledByUs then Less(self, peer) else Less(peer, self)
  }

  /** Where one dialled connection stands. `Proven`: the accepting end took it
      and its acknowledgement is on the way; `Turned`: that end closed it for
      glare instead, so no acknowledgement follows. */
  datatype Stage = Undialled | Greeting | Proven | Acked | Turned

  /** Connections are named by the end that dialled them. `noticed` holds the
      close notices an end has seen, as (end, connection). */
  datatype State = State(stage: map<Endpoint, Stage>, link: map<Endpoint, Option<Endpoint>>,
                         closed: set<Endpoint>, noticed: set<(Endpoint, Endpoint)>)

  datatype Event =
    | Dial(end: Endpoint)
    | Prove(conn: Endpoint)
    | Ack(conn: Endpoint)
    | Notice(end: Endpoint, conn: Endpoint)

  /** The two instances. */
  datatype Pair = Pair(x: Endpoint, y: Endpoint) {
    predicate Has(e: Endpoint) { e == x || e == y }
    function Other(e: Endpoint): Endpoint { if e == x then y else x }
  }

  predicate WellFormed(s: State, p: Pair) {
    p.x != p.y && s.stage.Keys == {p.x, p.y} && s.link.Keys == {p.x, p.y}
  }

  /** `#hold` at `end` of the connection `conn`. */
  function Hold(s: State, p: Pair, end: Endpoint, conn: Endpoint): State
    requires WellFormed(s, p) && p.Has(end)
  {
    var held := s.link[end];
    if held == None then s.(link := s.link[end := Some(conn)])
    else if held == Some(conn) then s
    else if !KeepsNew(end, p.Other(end), conn == end) then s.(closed := s.closed + {conn})
    else s.(link := s.link[end := Some(conn)], closed := s.closed + {held.value})
  }

  predicate Enabled(s: State, p: Pair, e: Event)
    requires WellFormed(s, p)
  {
    match e
    case Dial(end) => p.Has(end) && s.stage[end] == Undialled && s.link[end] == None
    case Prove(conn) => p.Has(conn) && s.stage[conn] == Greeting && conn !in s.closed
    case Ack(conn) => p.Has(conn) && s.stage[conn] == Proven
    // frames arrive in order: an acknowledgement before the close that follows it
    case Notice(end, conn) =>
      p.Has(end) && p.Has(conn) && conn in s.closed && (end, conn) !in s.noticed && !(end == conn && s.stage[conn] == Proven)
  }

  function Step(s: State, p: Pair, e: Event): State
    requires WellFormed(s, p) && Enabled(s, p, e)
  {
    match e
    case Dial(end) => s.(stage := s.stage[end := Greeting])
    case Prove(conn) =>
      var t := Hold(s, p, p.Other(conn), conn);
      t.(stage := t.stage[conn := if conn in t.closed then Turned else Proven])
    case Ack(conn) => Hold(s.(stage := s.stage[conn := Acked]), p, conn, conn)
    case Notice(end, conn) =>   // `#drop`, which lets a link go only when it is that connection
      var t := s.(noticed := s.noticed + {(end, conn)});
      if s.link[end] == Some(conn) then t.(link := t.link[end := None]) else t
  }

  /** Nothing is left to happen. */
  ghost predicate Quiet(s: State, p: Pair)
    requires WellFormed(s, p)
  {
    forall e :: !Enabled(s, p, e)
  }

  function Start(p: Pair): State {
    State(map[p.x := Undialled, p.y := Undialled], map[p.x := None, p.y := None], {}, {})
  }

  ghost predicate Run(states: seq<State>, events: seq<Event>, p: Pair) {
    && |states| == |events| + 1 && p.x != p.y && states[0] == Start(p)
    && (forall i :: 0 <= i < |states| ==> WellFormed(states[i], p))
    && forall i :: 0 <= i < |events| ==> Enabled(states[i], p, events[i]) && states[i + 1] == Step(states[i], p, events[i])
  }

  /** What every reachable state says of `a`, dialled by the smaller end, and of
      `b`, dialled by the other. */
  ghost predicate Inv(s: State, p: Pair, a: Endpoint, b: Endpoint) {
    && WellFormed(s, p) && (p == Pair(a, b) || p == Pair(b, a)) && Less(a, b) && !Less(b, a)
    && a !in s.closed && s.closed <= {a, b}
    && (s.stage[a] in {Undialled, Greeting} ==> s.link[a] != Some(a) && s.link[b] != Some(a))
    && (s.stage[a] == Proven ==> s.link[b] == Some(a) && s.link[a] != Some(a))
    && (s.stage[a] == Acked ==> s.link[a] == Some(a) && s.link[b] == Some(a))
    && s.stage[a] != Turned
    && (s.link[a] in {None, Some(a), Some(b)}) && (s.link[b] in {None, Some(a), Some(b)})
    && (s.stage[b] in {Undialled, Greeting} ==> s.link[a] != Some(b) && s.link[b] != Some(b) && b !in s.closed)
    && (s.stage[b] == Proven ==> s.link[b] != Some(b) && (b !in s.closed ==> s.link[a] == Some(b)))
    && (s.stage[b] == Acked && b !in s.closed ==> s.link[a] == Some(b) && s.link[b] == Some(b))
    && (s.stage[b] == Turned ==> b in s.closed && s.link[a] != Some(b) && s.link[b] != Some(b))
    && (b in s.closed ==> s.stage[a] in {Proven, Acked})
    && (forall end, conn :: (end, conn) in s.noticed ==> conn == b && p.Has(end) && b in s.closed && s.link[end] != Some(b))
    && ((b, b) in s.noticed ==> s.stage[b] in {Acked, Turned})
  }

  lemma ProveSmaller(s: State, p: Pair, a: Endpoint, b: Endpoint)
    requires Inv(s, p, a, b) && Enabled(s, p, Prove(a))
    ensures Inv(Step(s, p, Prove(a)), p, a, b)
  {
  }

  lemma ProveLarger(s: State, p: Pair, a: Endpoint, b: Endpoint)
    requires Inv(s, p, a, b) && Enabled(s, p, Prove(b))
    ensures Inv(Step(s, p, Prove(b)), p, a, b)
  {
  }

  lemma AckSmaller(s: State, p: Pair, a: Endpoint, b: Endpoint)
    requires Inv(s, p, a, b) && Enabled(s, p, Ack(a))
    ensures Inv(Step(s, p, Ack(a)), p, a, b)
  {
  }

  lemma AckLarger(s: State, p: Pair, a: Endpoint, b: Endpoint)
    requires Inv(s, p, a, b) && Enabled(s, p, Ack(b))
    ensures Inv(Step(s, p, Ack(b)), p, a, b)
  {
  }

  lemma DialKeeps(s: State, p: Pair, a: Endpoint, b: Endpoint, end: Endpoint)
    requires Inv(s, p, a, b) && Enabled(s, p, Dial(end))
    ensures Inv(Step(s, p, Dial(end)), p, a, b)
  {
  }

  lemma NoticeKeeps(s: State, p: Pair, a: Endpoint, b: Endpoint, end: Endpoint)
    requires Inv(s, p, a, b) && Enabled(s, p, Notice(end, b))
    ensures Inv(Step(s, p, Notice(end, b)), p, a, b)
  {
  }

  lemma StepKeeps(s: State, p: Pair, a: Endpoint, b: Endpoint, e: Event)
    requires Inv(s, p, a, b) && Enabled(s, p, e)
    ensures Inv(Step(s, p, e), p, a, b)
  {
    match e
    case Dial(end) => DialKeeps(s, p, a, b, end);
    case Prove(conn) => if conn == a { ProveSmaller(s, p, a, b); } else { ProveLarger(s, p, a, b); }
    case Ack(conn) => if conn == a { AckSmaller(s, p, a, b); } else { AckLarger(s, p, a, b); }
    case Notice(end, conn) => NoticeKeeps(s, p, a, b, end);
  }

  lemma {:induction false} RunKeeps(states: seq<State>, events: seq<Event>, p: Pair, a: Endpoint, b: Endpoint, i: nat)
    requires Run(states, events, p) && i < |states| && (p == Pair(a, b) || p == Pair(b, a)) && Less(a, b)
    ensures Inv(states[i], p, a, b)
  {
    LessIsTotal(a, b);
    if i > 0 {
      RunKeeps(states, events, p, a, b, i - 1);
      StepKeeps(states[i - 1], p, a, b, events[i - 1]);
    }
  }

  /** Glare agreement: the smaller end's connection is never closed for glare,
      and from the step its acknowledgement is processed both ends hold exactly
      that connection, in that state and in every later one. */
  lemma SmallerDialIsKept(states: seq<State>, events: seq<Event>, p: Pair, a: Endpoint, b: Endpoint, i: nat, j: nat)
    requires Run(states, events, p) && i <= j < |states| && (p == Pair(a, b) || p == Pair(b, a)) && Less(a, b)
    ensures a !in states[j].closed
    ensures states[i].stage[a] == Acked ==> states[j].link[a] == Some(a) && states[j].link[b] == Some(a)
  {
    RunKeeps(states, events, p, a, b, j);
    if states[i].stage[a] == Acked { AckedStays(states, events, p, a, i, j); }
  }

  lemma {:induction false} AckedStays(states: seq<State>, events: seq<Event>, p: Pair, a: Endpoint, i: nat, j: nat)
    requires Run(states, events, p) && i <= j < |states| && p.Has(a) && states[i].stage[a] == Acked
    ensures states[j].stage[a] == Acked
  {
    if i < j {
      AckedStays(states, events, p, a, i, j - 1);
      AckedStep(states[j - 1], p, a, events[j - 1]);
    }
  }

  lemma AckedStep(s: State, p: Pair, a: Endpoint, e: Event)
    requires WellFormed(s, p) && Enabled(s, p, e) && p.Has(a) && s.stage[a] == Acked
    ensures Step(s, p, e).stage[a] == Acked
  {
  }

  /** When nothing is left to happen the two ends hold one and the same
      connection: the smaller end's if it dialled, else the other's. */
  lemma QuietMeansAgreed(states: seq<State>, events: seq<Event>, p: Pair, a: Endpoint, b: Endpoint)
    requires Run(states, events, p) && (p == Pair(a, b) || p == Pair(b, a)) && Less(a, b)
    requires Quiet(states[|states| - 1], p)
    ensures var s := states[|states| - 1];
      var kept := if s.stage[a] != Undialled then a else b;
      s.link[a] == Some(kept) && s.link[b] == Some(kept) && s.closed <= {b} && kept !in s.closed
  {
    var s := states[|states| - 1];
    RunKeeps(states, events, p, a, b, |states| - 1);
    assert !Enabled(s, p, Dial(a)) && !Enabled(s, p, Dial(b)) && !Enabled(s, p, Prove(a)) && !Enabled(s, p, Prove(b));
    assert !Enabled(s, p, Ack(a)) && !Enabled(s, p, Ack(b)) && !Enabled(s, p, Notice(a, b)) && !Enabled(s, p, Notice(b, b));
  }

  /** The close notices there could be, and have not been. */
  function Unnoticed(s: State, p: Pair): set<(Endpoint, Endpoint)> {
    {(p.x, p.x), (p.x, p.y), (p.y, p.x), (p.y, p.y)} - s.noticed
  }

  /** Things left to happen: every run comes to that quiet within ten steps. */
  function Left(s: State, p: Pair): int
    requires WellFormed(s, p)
  {
    Rank(s.stage[p.x]) + Rank(s.stage[p.y]) + |Unnoticed(s, p)|
  }

  function Rank(stage: Stage): nat {
    match stage case Undialled => 3 case Greeting => 2 case Proven => 1 case _ => 0
  }

  lemma HoldLeaves(s: State, p: Pair, end: Endpoint, conn: Endpoint)
    requires WellFormed(s, p) && p.Has(end)
    ensures Hold(s, p, end, conn).stage == s.stage && Hold(s, p, end, conn).noticed == s.noticed
  {
  }

  lemma NoticeUsesUp(s: State, t: State, p: Pair, end: Endpoint, conn: Endpoint)
    requires p.Has(end) && p.Has(conn) && (end, conn) !in s.noticed && t.noticed == s.noticed + {(end, conn)}
    ensures |Unnoticed(t, p)| < |Unnoticed(s, p)|
  {
    assert (end, conn) in Unnoticed(s, p);
    assert Unnoticed(t, p) == Unnoticed(s, p) - {(end, conn)};
  }

  lemma StageUsesUp(s: State, t: State, p: Pair, conn: Endpoint, stage: Stage)
    requires WellFormed(s, p) && p.Has(conn) && Rank(stage) < Rank(s.stage[conn])
    requires t.stage == s.stage[conn := stage] && t.noticed == s.noticed && t.link.Keys == s.link.Keys
    ensures WellFormed(t, p) && Left(t, p) < Left(s, p)
  {
  }

  lemma StepUsesUp(s: State, p: Pair, e: Event)
    requires WellFormed(s, p) && Enabled(s, p, e)
    ensures WellFormed(Step(s, p, e), p) && Left(Step(s, p, e), p) < Left(s, p)
  {
    var t := Step(s, p, e);
    match e
    case Dial(end) => StageUsesUp(s, t, p, end, Greeting);
    case Prove(conn) =>
      HoldLeaves(s, p, p.Other(conn), conn);
      StageUsesUp(s, t, p, conn, t.stage[conn]);
    case Ack(conn) =>
      HoldLeaves(s.(stage := s.stage[conn := Acked]), p, conn, conn);
      StageUsesUp(s, t, p, conn, Acked);
    case Notice(end, conn) => NoticeUsesUp(s, t, p, end, conn);
  }

  lemma {:induction false} RunsAreShort(states: seq<State>, events: seq<Event>, p: Pair, i: nat)
    requires Run(states, events, p) && i < |states|
    ensures 0 <= Left(states[i], p) <= 10 - i
  {
    if i == 0 {
      assert |Unnoticed(states[0], p)| <= 4 by {
        assert Unnoticed(states[0], p) == {(p.x, p.x), (p.x, p.y), (p.y, p.x), (p.y, p.y)};
      }
    } else {
      RunsAreShort(states, events, p, i - 1);
      StepUsesUp(states[i - 1], p, events[i - 1]);
    }
  }
}
