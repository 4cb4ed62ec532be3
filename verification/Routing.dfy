/** A `message.send` carried from instance to instance over routing tables that
    may be wrong, change meanwhile, or run in a circle. */
module Routing {

  type InstanceId = string

  /** What the instance asked makes of a request that has not been there before.
      It holds the session; or its table names nobody; or it names an owner, with
      or without a link to carry the request there. `anyUnreachable` is the
      mesh's word that some peer cannot be asked. */
  datatype Verdict =
    | Holds
    | Unnamed(anyUnreachable: bool)
    | Owner(to: InstanceId, linked: bool, anyUnreachable: bool)

  /** How it ends: the op ran, the sender is told an instance is out of reach, the
      session is nowhere, or the request had been there and is refused. */
  datatype End = Ran | ToldUnreachable | NotFound | CameBack

  /** A request at an instance with the hops it carries, or its end. */
  datatype Stage = At(instance: InstanceId, hops: seq<InstanceId>) | Ended(end: End)

  /** The hop check of `dispatch`, then `send`, `#elsewhere` and `forward`. */
  function Step(at: InstanceId, hops: seq<InstanceId>, verdict: Verdict): Stage {
    if at in hops then Ended(CameBack)
    else match verdict
      case Holds => Ended(Ran)
      case Unnamed(anyUnreachable) => Ended(if anyUnreachable then ToldUnreachable else NotFound)
      case Owner(to, linked, anyUnreachable) =>
        if to == at then Ended(if anyUnreachable then ToldUnreachable else NotFound)
        else if !linked then Ended(ToldUnreachable)
        else At(to, hops + [at])
  }

  /** Which verdict gives which end, and which carries the request on. */
  lemma StepEndsExactly(at: InstanceId, hops: seq<InstanceId>, v: Verdict)
    ensures Step(at, hops, v) == Ended(CameBack) <==> at in hops
    ensures Step(at, hops, v) == Ended(Ran) <==> at !in hops && v == Holds
    ensures Step(at, hops, v) == Ended(NotFound)
       <==> at !in hops && (v == Unnamed(false) || (v.Owner? && v.to == at && !v.anyUnreachable))
    ensures Step(at, hops, v) == Ended(ToldUnreachable)
       <==> at !in hops && (v == Unnamed(true) || (v.Owner? && (if v.to == at then v.anyUnreachable else !v.linked)))
    ensures Step(at, hops, v).At? <==> at !in hops && v.Owner? && v.to != at && v.linked
    ensures Step(at, hops, v).At? ==> Step(at, hops, v) == At(v.to, hops + [at])
  {
  }

  /** A journey: the stages a request goes through, the verdicts being anything
      at all at each of them. */
  ghost predicate Journey(stages: seq<Stage>, instances: set<InstanceId>) {
    && stages != [] && stages[0].At?
    && (forall i :: 0 <= i < |stages| && stages[i].At? ==> stages[i].instance in instances)
    && forall i :: 0 <= i < |stages| - 1 ==>
         stages[i].At? && exists v :: stages[i + 1] == Step(stages[i].instance, stages[i].hops, v)
  }

  predicate Distinct(s: seq<InstanceId>) {
    forall i, j :: 0 <= i < j < |s| ==> s[i] != s[j]
  }

  lemma OneHop(stages: seq<Stage>, instances: set<InstanceId>, i: nat)
    requires Journey(stages, instances) && 0 < i < |stages| && stages[i].At?
    ensures stages[i - 1].At? && stages[i - 1].instance in instances && stages[i - 1].instance !in stages[i - 1].hops
    ensures stages[i].hops == stages[i - 1].hops + [stages[i - 1].instance]
  {
    var before, after := stages[i - 1], stages[i - 1 + 1];
    assert exists v :: after == Step(before.instance, before.hops, v);
  }

  /** The hops a request gathers on its way, after the ones it came with. */
  lemma {:induction false} HopsGrow(stages: seq<Stage>, instances: set<InstanceId>, i: nat)
    requires Journey(stages, instances) && i < |stages| && stages[i].At?
    ensures |stages[i].hops| == |stages[0].hops| + i && stages[0].hops <= stages[i].hops
    ensures var gathered := stages[i].hops[|stages[0].hops|..];
      Distinct(gathered) && forall x :: x in gathered ==> x in instances && x !in stages[0].hops
  {
    if i > 0 {
      OneHop(stages, instances, i);
      HopsGrow(stages, instances, i - 1);
      Gather(stages[0].hops, stages[i - 1].hops, stages[i - 1].instance);
    }
  }

  lemma Gather(first: seq<InstanceId>, hops: seq<InstanceId>, at: InstanceId)
    requires first <= hops && at !in hops && Distinct(hops[|first|..])
    ensures first <= hops + [at] && (hops + [at])[|first|..] == hops[|first|..] + [at] && at !in first
    ensures Distinct((hops + [at])[|first|..])
  {
    var gathered := hops[|first|..];
    assert (hops + [at])[|first|..] == gathered + [at];
    forall k | 0 <= k < |gathered| ensures gathered[k] != at {
      assert gathered[k] == hops[|first| + k];
    }
    assert forall x :: x in first ==> x in hops;
  }

  lemma {:induction false} DistinctFits(s: seq<InstanceId>, within: set<InstanceId>)
    requires Distinct(s) && forall x :: x in s ==> x in within
    ensures |s| <= |within|
  {
    if s != [] {
      var front, last := s[..|s| - 1], s[|s| - 1];
      forall x | x in front ensures x in within - {last} {}
      DistinctFits(front, within - {last});
    }
  }

  /** Routing terminates: whatever the tables say, a request is forwarded at most
      as often as there are instances, and one that started with a hop list
      naming no instance twice never carries one that does. */
  lemma RoutingTerminates(stages: seq<Stage>, instances: set<InstanceId>)
    requires Journey(stages, instances)
    ensures |stages| <= |instances| + 2
    ensures forall i :: 0 <= i < |stages| && stages[i].At? ==> |stages[i].hops| - |stages[0].hops| <= |instances|
    ensures Distinct(stages[0].hops) ==> forall i :: 0 <= i < |stages| && stages[i].At? ==> Distinct(stages[i].hops)
  {
    forall i | 0 <= i < |stages| && stages[i].At?
      ensures i <= |instances| && |stages[i].hops| == |stages[0].hops| + i
      ensures Distinct(stages[0].hops) ==> Distinct(stages[i].hops)
    {
      HopsGrow(stages, instances, i);
      DistinctFits(stages[i].hops[|stages[0].hops|..], instances);
      Joined(stages[0].hops, stages[i].hops);
    }
    if |stages| >= 2 { assert stages[|stages| - 2].At?; }
  }

  lemma Joined(a: seq<InstanceId>, b: seq<InstanceId>)
    requires a <= b && Distinct(b[|a|..]) && forall x :: x in b[|a|..] ==> x !in a
    ensures Distinct(a) ==> Distinct(b)
  {
    assert b == a + b[|a|..];
    forall i, j | 0 <= i < j < |b| && i < |a| <= j ensures b[i] != b[j] {
      assert b[j] == b[|a|..][j - |a|] && b[j] in b[|a|..] && b[i] == a[i] && a[i] in a;
    }
  }

  /** Carried through every verdict until it ends: `verdicts` is what each
      instance in turn decides, and once there is one for every instance and one
      more, the request has ended. */
  function Carry(stage: Stage, verdicts: seq<Verdict>): Stage
    decreases |verdicts|
  {
    if verdicts == [] || !stage.At? then stage
    else Carry(Step(stage.instance, stage.hops, verdicts[0]), verdicts[1..])
  }

  lemma {:induction false} EveryRequestEnds(at: InstanceId, hops: seq<InstanceId>, verdicts: seq<Verdict>, instances: set<InstanceId>)
    requires at in instances && forall v :: v in verdicts && v.Owner? ==> v.to in instances
    requires |verdicts| > |instances - (set x <- hops)|
    ensures Carry(At(at, hops), verdicts).Ended?
    decreases |verdicts|
  {
    var next := Step(at, hops, verdicts[0]);
    if next.At? {
      var left := instances - (set x <- hops);
      assert at in left;
      assert instances - (set x <- hops + [at]) == left - {at};
      EveryRequestEnds(next.instance, next.hops, verdicts[1..], instances);
    }
  }
}
