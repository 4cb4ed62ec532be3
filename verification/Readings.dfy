/** Readings of a directory that overlap: only the newest may settle, and a
    caller is answered with one at least as new as its call. */
module Readings {

  /** What became of the promise of one reading, by generation. `Waits` is a
      reading that was overtaken: it waits for the one that was latest then. */
  datatype Fate = Reading | Waits(on: nat) | Resolved | Rejected

  /** Generations begin at one and `fates[g - 1]` is generation `g`'s; `settled`
      is every generation whose finding was kept, in order. */
  datatype State = State(fates: seq<Fate>, settled: seq<nat>)

  datatype Event =
    | Again                 // `again()`: a reading begins
    | Lands(g: nat)         // its read answers
    | Throws(g: nat)        // its read fails
    | Wakes(g: nat)         // the reading it waited for came to something

  function Generation(s: State): nat { |s.fates| }

  predicate Is(s: State, g: nat) { 1 <= g <= |s.fates| }

  function FateOf(s: State, g: nat): Fate
    requires Is(s, g)
  {
    s.fates[g - 1]
  }

  function Become(s: State, g: nat, fate: Fate): State
    requires Is(s, g)
  {
    s.(fates := s.fates[g - 1 := fate])
  }

  predicate Enabled(s: State, e: Event) {
    match e
    case Again => true
    case Lands(g) => Is(s, g) && FateOf(s, g) == Reading
    case Throws(g) => Is(s, g) && FateOf(s, g) == Reading
    case Wakes(g) =>
      Is(s, g) && FateOf(s, g).Waits? && Is(s, FateOf(s, g).on) && FateOf(s, FateOf(s, g).on) in {Resolved, Rejected}
  }

  function Step(s: State, e: Event): State
    requires Enabled(s, e)
  {
    match e
    case Again => s.(fates := s.fates + [Reading])
    case Lands(g) =>
      if g != Generation(s) then Become(s, g, Waits(Generation(s)))
      else Become(s.(settled := s.settled + [g]), g, Resolved)
    case Throws(g) => Become(s, g, Rejected)
    case Wakes(g) => Become(s, g, FateOf(s, FateOf(s, g).on))
  }

  ghost predicate Run(states: seq<State>, events: seq<Event>) {
    && |states| == |events| + 1 && states[0] == State([], [])
    && forall i :: 0 <= i < |events| ==> Enabled(states[i], events[i]) && states[i + 1] == Step(states[i], events[i])
  }

  /** The newest generation whose finding is what is answered now. */
  function Standing(s: State): nat {
    if s.settled == [] then 0 else s.settled[|s.settled| - 1]
  }

  ghost predicate Inv(s: State) {
    && (forall i, j :: 0 <= i < j < |s.settled| ==> s.settled[i] < s.settled[j])
    && (forall i :: 0 <= i < |s.settled| ==> Is(s, s.settled[i]) && FateOf(s, s.settled[i]) == Resolved)
    && (forall g: nat :: Is(s, g) && FateOf(s, g) == Resolved ==> g <= Standing(s))
    && (forall g: nat :: Is(s, g) && FateOf(s, g).Waits? ==> g < FateOf(s, g).on <= |s.fates|)
  }

  lemma LastIsLargest(s: State)
    requires Inv(s)
    ensures forall g :: g in s.settled ==> g <= Standing(s)
    ensures Standing(s) <= |s.fates|
  {
  }

  lemma BecomeFates(s: State, g: nat, fate: Fate)
    requires Is(s, g)
    ensures forall h: nat :: Is(s, h) ==> FateOf(Become(s, g, fate), h) == if h == g then fate else FateOf(s, h)
  {
  }

  lemma AgainKeeps(s: State)
    requires Inv(s)
    ensures Inv(Step(s, Again))
  {
    var t := Step(s, Again);
    forall g: nat | Is(t, g) ensures FateOf(t, g) == if Is(s, g) then FateOf(s, g) else Reading {}
    forall g: nat | Is(t, g) && FateOf(t, g).Waits? ensures g < FateOf(t, g).on <= |t.fates| {
      assert Is(s, g);
    }
  }

  lemma LatestLandsKeeps(s: State, g: nat)
    requires Inv(s) && Enabled(s, Lands(g)) && g == Generation(s)
    ensures Inv(Step(s, Lands(g)))
  {
    BecomeFates(s.(settled := s.settled + [g]), g, Resolved);
    forall i | 0 <= i < |s.settled| ensures s.settled[i] < g {
      assert FateOf(s, s.settled[i]) == Resolved;
    }
    var t := Step(s, Lands(g));
    forall h: nat | Is(t, h) && FateOf(t, h).Waits? ensures h < FateOf(t, h).on <= |t.fates| {
      assert Is(s, h) && FateOf(s, h) == FateOf(t, h);
    }
  }

  /** A reading that comes to something without settling anything. */
  lemma BecomeKeeps(s: State, g: nat, fate: Fate)
    requires Inv(s) && Is(s, g) && FateOf(s, g) != Resolved
    requires fate.Waits? ==> g < fate.on <= |s.fates|
    requires fate == Resolved ==> g <= Standing(s)
    ensures Inv(Become(s, g, fate))
  {
    BecomeFates(s, g, fate);
  }

  lemma StepKeeps(s: State, e: Event)
    requires Inv(s) && Enabled(s, e)
    ensures Inv(Step(s, e)) && s.settled <= Step(s, e).settled && |s.fates| <= |Step(s, e).fates|
  {
    match e
    case Again => AgainKeeps(s);
    case Lands(g) =>
      if g == Generation(s) { LatestLandsKeeps(s, g); } else { BecomeKeeps(s, g, Waits(Generation(s))); }
    case Throws(g) => BecomeKeeps(s, g, Rejected);
    case Wakes(g) => BecomeKeeps(s, g, FateOf(s, FateOf(s, g).on));
  }

  /** What becomes of one reading and of no other: the newest that lands settles and
      resolves; an overtaken one settles nothing and waits for the newest; a failed
      one settles nothing and rejects; a waiter comes to what it waited for. */
  lemma StepDoes(s: State, e: Event, g: nat)
    requires Enabled(s, e) && Is(s, g)
    ensures Is(Step(s, e), g)
    ensures e == Lands(g) && g == |s.fates| ==> FateOf(Step(s, e), g) == Resolved && Step(s, e).settled == s.settled + [g]
    ensures e == Lands(g) && g < |s.fates| ==> FateOf(Step(s, e), g) == Waits(|s.fates|) && Step(s, e).settled == s.settled
    ensures e == Throws(g) ==> FateOf(Step(s, e), g) == Rejected && Step(s, e).settled == s.settled
    ensures e == Wakes(g) ==> FateOf(Step(s, e), g) == FateOf(s, FateOf(s, g).on) && Step(s, e).settled == s.settled
    ensures e == Again ==> Step(s, e).settled == s.settled && |Step(s, e).fates| == |s.fates| + 1
    ensures e == Again || e.g != g ==> FateOf(Step(s, e), g) == FateOf(s, g)
  {
  }

  lemma {:induction false} RunKeeps(states: seq<State>, events: seq<Event>, i: nat)
    requires Run(states, events) && i < |states|
    ensures Inv(states[i])
  {
    if i > 0 {
      RunKeeps(states, events, i - 1);
      StepKeeps(states[i - 1], events[i - 1]);
    }
  }

  /** Settled generations strictly increase, whatever order the readings land in
      and whichever of them fail. */
  lemma SettledOnlyForward(states: seq<State>, events: seq<Event>, k: nat, i: nat, j: nat)
    requires Run(states, events) && k < |states| && i < j < |states[k].settled|
    ensures states[k].settled[i] < states[k].settled[j]
  {
    RunKeeps(states, events, k);
  }

  /** A caller whose `again()` resolved is answered with a reading that began no
      earlier than its call: at that instant the finding standing is its own
      generation's or a later one's. */
  lemma NeverStale(states: seq<State>, events: seq<Event>, k: nat, g: nat)
    requires Run(states, events) && k < |states| && Is(states[k], g) && FateOf(states[k], g) == Resolved
    ensures g <= Standing(states[k]) <= Generation(states[k])
  {
    RunKeeps(states, events, k);
    LastIsLargest(states[k]);
  }

  /** And it is not left waiting: once no read is under way, every caller has an
      answer or can be woken, the newest wait first. */
  lemma NobodyWaitsForever(states: seq<State>, events: seq<Event>, k: nat)
    requires Run(states, events) && k < |states|
    requires forall g: nat :: Is(states[k], g) ==> FateOf(states[k], g) != Reading
    ensures forall g: nat :: Is(states[k], g) && FateOf(states[k], g).Waits? ==> exists h: nat :: g <= h && Enabled(states[k], Wakes(h))
  {
    RunKeeps(states, events, k);
    forall g: nat | Is(states[k], g) && FateOf(states[k], g).Waits?
      ensures exists h: nat :: g <= h && Enabled(states[k], Wakes(h))
    {
      var h := SomeoneWakes(states[k], g);
    }
  }

  lemma {:induction false} SomeoneWakes(s: State, g: nat) returns (h: nat)
    requires Inv(s) && Is(s, g) && FateOf(s, g).Waits?
    requires forall x: nat :: Is(s, x) ==> FateOf(s, x) != Reading
    ensures g <= h && Enabled(s, Wakes(h))
    decreases |s.fates| - g
  {
    var on := FateOf(s, g).on;
    if FateOf(s, on).Waits? { h := SomeoneWakes(s, on); } else { h := g; }
  }

  /** The object itself: a counter, and the promise of the latest reading. The
      fates are the promises handed out. */
  class Readings {
    var generation: nat
    var latest: nat            // whose promise `#latest` is
    var fates: seq<Fate>
    var settled: seq<nat>

    ghost function Value(): State
      reads this
    {
      State(fates, settled)
    }

    ghost predicate Valid()
      reads this
    {
      generation == latest == |fates| && Inv(Value())
    }

    constructor ()
      ensures Valid() && Value() == State([], [])
    {
      generation, latest, fates, settled := 0, 0, [], [];
    }

    /** `again`, up to the read's own await. */
    method Begin() returns (mine: nat)
      requires Valid()
      modifies this
      ensures Valid() && mine == old(generation) + 1 && Value() == Step(old(Value()), Event.Again)
    {
      StepKeeps(Value(), Event.Again);
      generation := generation + 1;
      mine := generation;
      fates := fates + [Reading];
      latest := mine;
    }

    /** `#take` as its read answers. */
    method Take(mine: nat)
      requires Valid() && Is(Value(), mine) && FateOf(Value(), mine) == Reading
      modifies this
      ensures Valid() && Value() == Step(old(Value()), Lands(mine))
    {
      StepKeeps(Value(), Lands(mine));
      if mine != generation {
        fates := fates[mine - 1 := Waits(latest)];
        return;
      }
      settled := settled + [mine];
      fates := fates[mine - 1 := Resolved];
    }
  }
}
