/** The check that dump presets can be resolved: every `@name` a preset names,
    plain or negated, is configured, and none of them leads back to itself. */
module Presets {
  import opened Wrappers

  datatype Preset = Preset(name: string, types: seq<string>)

  /** `resolvable` returning, or refusing with what it names in the refusal. */
  datatype Verdict = Fine | Cycle(path: seq<string>) | Unconfigured(preset: string, name: string)

  function Bare(element: string): string {
    if element != [] && element[0] == '-' then element[1..] else element
  }

  predicate IsReference(element: string) {
    Bare(element) != [] && Bare(element)[0] == '@'
  }

  function Target(element: string): string
    requires IsReference(element)
  {
    Bare(element)[1..]
  }

  /** `presets.find` by name. */
  function Find(presets: seq<Preset>, name: string): (r: Option<Preset>)
    ensures r.Some? ==> r.value in presets && r.value.name == name
    ensures r.None? ==> name !in Names(presets)
  {
    if presets == [] then None
    else if presets[0].name == name then Some(presets[0])
    else
      assert forall p :: p in presets ==> p == presets[0] || p in presets[1..];
      Find(presets[1..], name)
  }

  function Names(presets: seq<Preset>): set<string> {
    set p <- presets :: p.name
  }

  predicate DistinctNames(presets: seq<Preset>) {
    forall i, j :: 0 <= i < j < |presets| ==> presets[i].name != presets[j].name
  }

  /** How many presets a path has not been through yet. */
  function Unvisited(presets: seq<Preset>, path: seq<string>): nat {
    |Names(presets) - (set x <- path)|
  }

  lemma OneFewer(presets: seq<Preset>, path: seq<string>, p: Preset)
    requires p in presets && p.name !in path
    ensures Unvisited(presets, path + [p.name]) < Unvisited(presets, path)
  {
    assert Names(presets) - (set x <- path + [p.name]) == (Names(presets) - (set x <- path)) - {p.name};
  }

  /** `resolvable`. */
  function Resolvable(p: Preset, presets: seq<Preset>, path: seq<string>): Verdict
    requires p in presets
    decreases Unvisited(presets, path), 1, 0
  {
    if p.name in path then Cycle(path + [p.name]) else Elements(p, presets, path, p.types)
  }

  /** Its loop over the elements not looked at yet. */
  function Elements(p: Preset, presets: seq<Preset>, path: seq<string>, rest: seq<string>): Verdict
    requires p in presets && p.name !in path
    decreases Unvisited(presets, path), 0, |rest|
  {
    if rest == [] then Fine
    else if !IsReference(rest[0]) then Elements(p, presets, path, rest[1..])
    else match Find(presets, Target(rest[0]))
      case None => Unconfigured(p.name, Target(rest[0]))
      case Some(referenced) =>
        OneFewer(presets, path, p);
        var verdict := Resolvable(referenced, presets, path + [p.name]);
        if verdict.Fine? then Elements(p, presets, path, rest[1..]) else verdict
  }

  // --- the reference graph ---

  ghost predicate Refers(p: Preset, name: string) {
    exists e :: e in p.types && IsReference(e) && Target(e) == name
  }

  /** What a reference is spelled like: plain, or negated. */
  lemma RefersExactly(p: Preset, name: string)
    ensures Refers(p, name) <==> ("@" + name) in p.types || ("-@" + name) in p.types
  {
    assert Bare("@" + name) == "@" + name && ("@" + name)[1..] == name;
    assert Bare("-@" + name) == "@" + name;
    forall e | e in p.types && IsReference(e) && Target(e) == name ensures e == "@" + name || e == "-@" + name {
      assert Bare(e) == "@" + name;
      if e[0] == '-' { assert e == "-" + Bare(e); }
    }
    if ("@" + name) in p.types { assert IsReference("@" + name) && Target("@" + name) == name; }
    if ("-@" + name) in p.types { assert IsReference("-@" + name) && Target("-@" + name) == name; }
  }

  ghost predicate Edge(presets: seq<Preset>, a: string, b: string) {
    exists p :: p in presets && p.name == a && Refers(p, b)
  }

  ghost predicate Walk(presets: seq<Preset>, w: seq<string>) {
    w != [] && forall i :: 0 <= i < |w| - 1 ==> Edge(presets, w[i], w[i + 1])
  }

  ghost predicate AllConfigured(presets: seq<Preset>) {
    forall p, name :: p in presets && Refers(p, name) ==> name in Names(presets)
  }

  ghost predicate Acyclic(presets: seq<Preset>) {
    forall w :: Walk(presets, w) && |w| > 1 ==> w[0] != w[|w| - 1]
  }

  lemma {:induction false} FineElement(p: Preset, presets: seq<Preset>, path: seq<string>, rest: seq<string>, e: string)
    requires p in presets && p.name !in path && Elements(p, presets, path, rest) == Fine && e in rest && IsReference(e)
    ensures Find(presets, Target(e)).Some?
    ensures Resolvable(Find(presets, Target(e)).value, presets, path + [p.name]) == Fine
    decreases |rest|
  {
    if e != rest[0] {
      assert rest == [rest[0]] + rest[1..];
      FineElement(p, presets, path, rest[1..], e);
    }
  }

  /** A walk from a preset that resolved meets nothing of the path behind it and
      nothing twice. */
  lemma {:induction false} FineWalksOn(p: Preset, presets: seq<Preset>, path: seq<string>, w: seq<string>)
    requires DistinctNames(presets) && p in presets && Resolvable(p, presets, path) == Fine
    requires Walk(presets, w) && w[0] == p.name
    ensures forall i :: 0 <= i < |w| ==> w[i] !in path
    ensures forall i, j :: 0 <= i < j < |w| ==> w[i] != w[j]
    decreases |w|
  {
    if |w| > 1 {
      assert Edge(presets, w[0], w[1]);
      var q :| q in presets && q.name == w[0] && Refers(q, w[1]);
      assert q == p;
      var e :| e in p.types && IsReference(e) && Target(e) == w[1];
      FineElement(p, presets, path, p.types, e);
      var next := w[1..];
      assert Walk(presets, next) by {
        forall i | 0 <= i < |next| - 1 ensures Edge(presets, next[i], next[i + 1]) {
          assert Edge(presets, w[i + 1], w[i + 1 + 1]);
        }
      }
      FineWalksOn(Find(presets, w[1]).value, presets, path + [p.name], next);
      forall i | 0 < i < |w| ensures w[i] !in path && w[i] != w[0] {
        assert w[i] == next[i - 1];
        assert w[i] !in path + [p.name];
      }
      forall i, j | 0 < i < j < |w| ensures w[i] != w[j] {
        assert w[i] == next[i - 1] && w[j] == next[j - 1];
      }
    }
  }

  /** What a refusal names is there: a walk that closes on itself, or a reference
      to a preset nobody configured. */
  ghost predicate Genuine(presets: seq<Preset>, verdict: Verdict) {
    match verdict
    case Fine => true
    case Cycle(c) => Walk(presets, c) && c[|c| - 1] in c[..|c| - 1]
    case Unconfigured(a, name) => name !in Names(presets) && exists p :: p in presets && p.name == a && Refers(p, name)
  }

  lemma {:induction false} RefusalIsGenuine(p: Preset, presets: seq<Preset>, path: seq<string>)
    requires p in presets && Walk(presets, path + [p.name])
    ensures Genuine(presets, Resolvable(p, presets, path))
    decreases Unvisited(presets, path), 1, 0
  {
    if p.name in path {
      assert (path + [p.name])[..|path|] == path;
    } else {
      ElementsGenuine(p, presets, path, p.types);
    }
  }

  lemma {:induction false} ElementsGenuine(p: Preset, presets: seq<Preset>, path: seq<string>, rest: seq<string>)
    requires p in presets && p.name !in path && Walk(presets, path + [p.name]) && forall e :: e in rest ==> e in p.types
    ensures Genuine(presets, Elements(p, presets, path, rest))
    decreases Unvisited(presets, path), 0, |rest|
  {
    if rest != [] {
      assert rest[0] in rest && forall e :: e in rest[1..] ==> e in rest;
      if IsReference(rest[0]) {
        var name := Target(rest[0]);
        assert Refers(p, name);
        match Find(presets, name) {
          case None =>
          case Some(referenced) =>
            OneFewer(presets, path, p);
            WalkOn(presets, path + [p.name], name, p);
            RefusalIsGenuine(referenced, presets, path + [p.name]);
            if Resolvable(referenced, presets, path + [p.name]).Fine? {
              ElementsGenuine(p, presets, path, rest[1..]);
            }
        }
      } else {
        ElementsGenuine(p, presets, path, rest[1..]);
      }
    }
  }

  lemma WalkOn(presets: seq<Preset>, w: seq<string>, name: string, p: Preset)
    requires Walk(presets, w) && w[|w| - 1] == p.name && p in presets && Refers(p, name)
    ensures Walk(presets, w + [name])
  {
    var longer := w + [name];
    assert Edge(presets, p.name, name);
    forall i | 0 <= i < |longer| - 1 ensures Edge(presets, longer[i], longer[i + 1]) {
      if i < |w| - 1 { assert longer[i] == w[i] && longer[i + 1] == w[i + 1]; }
    }
  }

  // --- the check ---

  ghost predicate Passes(presets: seq<Preset>) {
    forall p :: p in presets ==> Resolvable(p, presets, []) == Fine
  }

  lemma PassingIsSound(presets: seq<Preset>)
    requires DistinctNames(presets) && Passes(presets)
    ensures AllConfigured(presets) && Acyclic(presets)
  {
    forall p, name | p in presets && Refers(p, name) ensures name in Names(presets) {
      var e :| e in p.types && IsReference(e) && Target(e) == name;
      FineElement(p, presets, [], p.types, e);
    }
    forall w | Walk(presets, w) && |w| > 1 ensures w[0] != w[|w| - 1] {
      assert Edge(presets, w[0], w[1]);
      var p :| p in presets && p.name == w[0] && Refers(p, w[1]);
      FineWalksOn(p, presets, [], w);
    }
  }

  lemma WalkFrom(presets: seq<Preset>, c: seq<string>, i: nat)
    requires Walk(presets, c) && i < |c|
    ensures Walk(presets, c[i..])
  {
    var w := c[i..];
    forall k | 0 <= k < |w| - 1 ensures Edge(presets, w[k], w[k + 1]) {
      assert Edge(presets, c[i + k], c[i + k + 1]);
    }
  }

  lemma ClosedWalk(presets: seq<Preset>, c: seq<string>)
    requires Walk(presets, c) && c[|c| - 1] in c[..|c| - 1]
    ensures !Acyclic(presets)
  {
    var i :| 0 <= i < |c| - 1 && c[..|c| - 1][i] == c[|c| - 1];
    var w := c[i..];
    WalkFrom(presets, c, i);
    assert |w| > 1 && w[0] == w[|w| - 1];
  }

  lemma NothingToRefuse(presets: seq<Preset>, verdict: Verdict)
    requires AllConfigured(presets) && Acyclic(presets) && Genuine(presets, verdict)
    ensures verdict == Fine
  {
    if verdict.Cycle? { ClosedWalk(presets, verdict.path); }
  }

  lemma SoundPasses(presets: seq<Preset>)
    requires AllConfigured(presets) && Acyclic(presets)
    ensures Passes(presets)
  {
    forall p | p in presets ensures Resolvable(p, presets, []) == Fine {
      RefusalIsGenuine(p, presets, []);
      NothingToRefuse(presets, Resolvable(p, presets, []));
    }
  }

  /** The preset check decides acyclicity: it always ends, and passes exactly when
      every reference is configured and the reference graph has no cycle. */
  lemma CheckDecidesAcyclicity(presets: seq<Preset>)
    requires DistinctNames(presets)
    ensures Passes(presets) <==> AllConfigured(presets) && Acyclic(presets)
  {
    if Passes(presets) { PassingIsSound(presets); }
    if AllConfigured(presets) && Acyclic(presets) { SoundPasses(presets); }
  }

  /** The loop of `dumpOf`: the first refusal, or none. */
  method CheckAll(presets: seq<Preset>) returns (verdict: Verdict)
    requires DistinctNames(presets)
    ensures verdict == Fine <==> AllConfigured(presets) && Acyclic(presets)
    ensures Genuine(presets, verdict)
    ensures verdict != Fine ==> exists i :: 0 <= i < |presets| && verdict == Resolvable(presets[i], presets, [])
                                            && forall k :: 0 <= k < i ==> Resolvable(presets[k], presets, []) == Fine
  {
    CheckDecidesAcyclicity(presets);
    var i := 0;
    while i < |presets|
      invariant 0 <= i <= |presets|
      invariant forall k :: 0 <= k < i ==> Resolvable(presets[k], presets, []) == Fine
    {
      verdict := Resolvable(presets[i], presets, []);
      RefusalIsGenuine(presets[i], presets, []);
      if !verdict.Fine? {
        assert presets[i] in presets;
        return;
      }
      i := i + 1;
    }
    return Fine;
  }
}
