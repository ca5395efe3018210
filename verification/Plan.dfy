/** The remaining plan of a workflow, an ordered map from group number to steps, and what signals do to it.
    This module holds the plan as a value: the operations the workflow run performs on it, and their
    meaning. `WorkflowRun` in module Workflow performs them in place. */
module Plan {
  import opened Wrappers
  import opened Signals

  datatype Step = Step(
    agent: string, group: nat, prompt: string, canRepivot: bool, timeoutSecs: Option<nat>, parallel: bool)

  type Groups = map<nat, seq<Step>>

  function MinKey(keys: set<nat>): (k: nat)
    requires keys != {}
    ensures k in keys && forall j :: j in keys ==> k <= j
  {
    LeastExists(keys);
    var k :| k in keys && forall j :: j in keys ==> k <= j;
    k
  }

  lemma LeastExists(keys: set<nat>)
    requires keys != {}
    ensures exists k :: k in keys && forall j :: j in keys ==> k <= j
  {
    var m := Least(keys);
  }

  lemma Least(keys: set<nat>) returns (m: nat)
    requires keys != {}
    ensures m in keys && forall j :: j in keys ==> m <= j
  {
    var x :| x in keys;
    m := x;
    if keys != {x} {
      var k := Least(keys - {x});
      m := if k < x then k else x;
      assert keys == (keys - {x}) + {x};
    }
  }

  /** Where new work goes: the first remaining group, or the one after the group just run. */
  function NextGroup(groups: Groups, current: nat): nat {
    if groups == map[] then current + 1 else MinKey(groups.Keys)
  }

  predicate HasAgent(steps: seq<Step>, agent: string) {
    exists i :: 0 <= i < |steps| && steps[i].agent == agent
  }

  predicate AlreadyPlanned(agent: string, groups: Groups) {
    exists k :: k in groups && HasAgent(groups[k], agent)
  }

  function Without(steps: seq<Step>, agent: string): seq<Step> {
    if steps == [] then []
    else
      Without(steps[..|steps| - 1], agent) +
      if steps[|steps| - 1].agent == agent then [] else [steps[|steps| - 1]]
  }

  function FirstOf(steps: seq<Step>, agent: string): (s: Step)
    requires HasAgent(steps, agent)
    ensures s in steps && s.agent == agent
  {
    if steps[0].agent == agent then steps[0] else FirstOf(steps[1..], agent)
  }

  function Push(groups: Groups, k: nat, step: Step): Groups {
    groups[k := (if k in groups then groups[k] else []) + [step]]
  }

  function RemoveAgent(groups: Groups, agent: string): Groups {
    map k | k in groups && Without(groups[k], agent) != [] :: Without(groups[k], agent)
  }

  /** The groups a priority signal may take its target from: none when the target is already next. */
  function Sources(groups: Groups, next: nat, agent: string): set<nat> {
    if next in groups && HasAgent(groups[next], agent) then {}
    else set k | k in groups && k != next && HasAgent(groups[k], agent)
  }

  function RequestedStep(sig: Signal, next: nat): Step {
    Step(sig.target, next, sig.reason, true, None, false)
  }

  function Prioritized(step: Step, sig: Signal, next: nat): Step {
    step.(group := next, prompt := step.prompt + " [PRIORITY: " + sig.reason + "]")
  }

  function TakeFrom(groups: Groups, from: nat, agent: string): Groups
    requires from in groups
  {
    if Without(groups[from], agent) == [] then groups - {from}
    else groups[from := Without(groups[from], agent)]
  }

  function ApplyOne(groups: Groups, sig: Signal, next: nat, known: set<string>): Groups {
    match sig.kind
    case Request =>
      if sig.target !in known || AlreadyPlanned(sig.target, groups) then groups
      else Push(groups, next, RequestedStep(sig, next))
    case Skip => RemoveAgent(groups, sig.target)
    case Priority =>
      var sources := Sources(groups, next, sig.target);
      if sources == {} then groups
      else
        var from := MinKey(sources);
        var step := FirstOf(groups[from], sig.target);
        Push(TakeFrom(groups, from, sig.target), next, Prioritized(step, sig, next))
  }

  function ApplyAll(groups: Groups, signals: seq<Signal>, next: nat, known: set<string>): Groups {
    if signals == [] then groups
    else ApplyOne(ApplyAll(groups, signals[..|signals| - 1], next, known), signals[|signals| - 1], next, known)
  }

  /** One round of signals after group `current`; the insertion group is fixed before the first one. */
  function ApplySignals(groups: Groups, signals: seq<Signal>, current: nat, known: set<string>): Groups {
    ApplyAll(groups, signals, NextGroup(groups, current), known)
  }

  // ---------------------------------------------------------------- invariants of a plan

  ghost predicate Placed(groups: Groups, k: nat, step: Step) {
    k in groups && step in groups[k]
  }

  /** Every planned group is after `current` and not empty, and its steps carry its number. */
  ghost predicate Filed(groups: Groups, current: int) {
    && (forall k :: k in groups ==> k > current && groups[k] != [])
    && (forall k, s :: Placed(groups, k, s) ==> s.group == k)
  }

  ghost predicate DistinctAgents(steps: seq<Step>) {
    forall i, j :: 0 <= i < j < |steps| ==> steps[i].agent != steps[j].agent
  }

  /** No agent is planned twice. */
  ghost predicate Unique(groups: Groups) {
    && (forall k :: k in groups ==> DistinctAgents(groups[k]))
    && (forall k, l, s, t :: Placed(groups, k, s) && Placed(groups, l, t) && s.agent == t.agent ==> k == l)
  }

  function Agents(groups: Groups): set<string> {
    set k, i | k in groups && 0 <= i < |groups[k]| :: groups[k][i].agent
  }

  function Targets(signals: seq<Signal>, kind: SignalKind): set<string> {
    set s | s in signals && s.kind == kind :: s.target
  }

  // ---------------------------------------------------------------- one operation at a time

  lemma {:induction false} WithoutMeaning(steps: seq<Step>, agent: string)
    ensures forall s :: s in Without(steps, agent) <==> s in steps && s.agent != agent
    ensures !HasAgent(steps, agent) ==> Without(steps, agent) == steps
  {
    if steps != [] {
      WithoutMeaning(steps[..|steps| - 1], agent);
      assert steps == steps[..|steps| - 1] + [steps[|steps| - 1]];
    }
  }

  lemma {:induction false} WithoutKeepsDistinct(steps: seq<Step>, agent: string)
    requires DistinctAgents(steps)
    ensures DistinctAgents(Without(steps, agent))
  {
    if steps != [] {
      var init := steps[..|steps| - 1];
      WithoutKeepsDistinct(init, agent);
      WithoutMeaning(init, agent);
      forall i | 0 <= i < |Without(init, agent)|
        ensures Without(init, agent)[i].agent != steps[|steps| - 1].agent
      {
        assert Without(init, agent)[i] in init;
      }
    }
  }

  lemma PushPlaces(groups: Groups, n: nat, step: Step)
    ensures forall k, s :: Placed(Push(groups, n, step), k, s) <==> Placed(groups, k, s) || (k == n && s == step)
  {
  }

  lemma RemovePlaces(groups: Groups, agent: string)
    ensures forall k, s :: Placed(RemoveAgent(groups, agent), k, s) <==> Placed(groups, k, s) && s.agent != agent
  {
    forall k | k in groups
      ensures forall s :: s in Without(groups[k], agent) <==> s in groups[k] && s.agent != agent
    {
      WithoutMeaning(groups[k], agent);
    }
  }

  lemma TakePlaces(groups: Groups, from: nat, agent: string)
    requires from in groups
    ensures forall k, s :: Placed(TakeFrom(groups, from, agent), k, s) <==>
              Placed(groups, k, s) && !(k == from && s.agent == agent)
  {
    WithoutMeaning(groups[from], agent);
  }

  lemma PlannedIsPlaced(agent: string, groups: Groups)
    ensures AlreadyPlanned(agent, groups) <==> agent in Agents(groups)
    ensures AlreadyPlanned(agent, groups) <==> exists k, s :: Placed(groups, k, s) && s.agent == agent
  {
    if AlreadyPlanned(agent, groups) {
      var k :| k in groups && HasAgent(groups[k], agent);
      var i :| 0 <= i < |groups[k]| && groups[k][i].agent == agent;
      assert Placed(groups, k, groups[k][i]);
    }
  }

  lemma PushUnique(groups: Groups, n: nat, step: Step)
    requires Unique(groups) && !AlreadyPlanned(step.agent, groups)
    ensures Unique(Push(groups, n, step))
  {
    PushPlaces(groups, n, step);
    PlannedIsPlaced(step.agent, groups);
    if n in groups {
      forall i | 0 <= i < |groups[n]| ensures groups[n][i].agent != step.agent {
        assert Placed(groups, n, groups[n][i]);
      }
    }
  }

  lemma RemoveUnique(groups: Groups, agent: string)
    requires Unique(groups)
    ensures Unique(RemoveAgent(groups, agent))
  {
    RemovePlaces(groups, agent);
    forall k | k in groups ensures DistinctAgents(Without(groups[k], agent)) {
      WithoutKeepsDistinct(groups[k], agent);
    }
  }

  lemma TakeUnique(groups: Groups, from: nat, agent: string)
    requires Unique(groups) && from in groups && HasAgent(groups[from], agent)
    ensures Unique(TakeFrom(groups, from, agent)) && !AlreadyPlanned(agent, TakeFrom(groups, from, agent))
  {
    TakePlaces(groups, from, agent);
    WithoutKeepsDistinct(groups[from], agent);
    PlannedIsPlaced(agent, TakeFrom(groups, from, agent));
    assert Placed(groups, from, FirstOf(groups[from], agent));
  }

  // ---------------------------------------------------------------- what one signal keeps

  lemma ApplyOneFiled(groups: Groups, sig: Signal, next: nat, known: set<string>, current: int)
    requires Filed(groups, current) && next > current
    ensures Filed(ApplyOne(groups, sig, next, known), current)
    ensures ApplyOne(groups, sig, next, known).Keys <= groups.Keys + {next}
  {
    RemovePlaces(groups, sig.target);
    PushPlaces(groups, next, RequestedStep(sig, next));
    var sources := Sources(groups, next, sig.target);
    if sources != {} {
      var from := MinKey(sources);
      TakePlaces(groups, from, sig.target);
      PushPlaces(TakeFrom(groups, from, sig.target), next, Prioritized(FirstOf(groups[from], sig.target), sig, next));
    }
  }

  lemma ApplyOneUnique(groups: Groups, sig: Signal, next: nat, known: set<string>)
    requires Unique(groups)
    ensures Unique(ApplyOne(groups, sig, next, known))
  {
    match sig.kind
    case Request =>
      if !AlreadyPlanned(sig.target, groups) {
        PushUnique(groups, next, RequestedStep(sig, next));
      }
    case Skip =>
      RemoveUnique(groups, sig.target);
    case Priority =>
      var sources := Sources(groups, next, sig.target);
      if sources != {} {
        var from := MinKey(sources);
        TakeUnique(groups, from, sig.target);
        PushUnique(TakeFrom(groups, from, sig.target), next, Prioritized(FirstOf(groups[from], sig.target), sig, next));
      }
  }

  /** Whoever else is planned stays, and the target comes or goes as the signal says. */
  lemma ApplyOneAgents(groups: Groups, sig: Signal, next: nat, known: set<string>)
    ensures Agents(ApplyOne(groups, sig, next, known)) ==
            match sig.kind
            case Request => Agents(groups) + ({sig.target} * known)
            case Skip => Agents(groups) - {sig.target}
            case Priority => Agents(groups)
  {
    var after := ApplyOne(groups, sig, next, known);
    forall a ensures a in Agents(after) <==> exists k, s :: Placed(after, k, s) && s.agent == a
      ensures a in Agents(groups) <==> exists k, s :: Placed(groups, k, s) && s.agent == a
    {
      PlannedIsPlaced(a, after);
      PlannedIsPlaced(a, groups);
    }
    match sig.kind
    case Request =>
      PlannedIsPlaced(sig.target, groups);
      PushPlaces(groups, next, RequestedStep(sig, next));
      if after != groups {
        assert Placed(after, next, RequestedStep(sig, next));
      }
    case Skip =>
      RemovePlaces(groups, sig.target);
    case Priority =>
      var sources := Sources(groups, next, sig.target);
      if sources != {} {
        var from := MinKey(sources);
        var step := FirstOf(groups[from], sig.target);
        var moved := Prioritized(step, sig, next);
        TakePlaces(groups, from, sig.target);
        PushPlaces(TakeFrom(groups, from, sig.target), next, moved);
        assert Placed(groups, from, step) && Placed(after, next, moved);
      }
  }
}
