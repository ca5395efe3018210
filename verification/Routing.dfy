/** What a round of resolved signals does to a plan, independently of the order of the signals. */
module Routing {
  import opened Wrappers
  import opened Signals
  import opened Plan
  import opened Multisets

  // ---------------------------------------------------------------- a whole round

  lemma {:induction false} ApplyAllFiled(groups: Groups, signals: seq<Signal>, next: nat, known: set<string>, current: int)
    requires Filed(groups, current) && next > current
    ensures Filed(ApplyAll(groups, signals, next, known), current)
    ensures ApplyAll(groups, signals, next, known).Keys <= groups.Keys + {next}
  {
    if signals != [] {
      var init := signals[..|signals| - 1];
      ApplyAllFiled(groups, init, next, known, current);
      ApplyOneFiled(ApplyAll(groups, init, next, known), signals[|signals| - 1], next, known, current);
    }
  }

  lemma {:induction false} ApplyAllUnique(groups: Groups, signals: seq<Signal>, next: nat, known: set<string>)
    requires Unique(groups)
    ensures Unique(ApplyAll(groups, signals, next, known))
  {
    if signals != [] {
      var init := signals[..|signals| - 1];
      ApplyAllUnique(groups, init, next, known);
      ApplyOneUnique(ApplyAll(groups, init, next, known), signals[|signals| - 1], next, known);
    }
  }

  lemma ResolvedPrefix(signals: seq<Signal>)
    requires Resolved(signals) && signals != []
    ensures Resolved(signals[..|signals| - 1])
  {
  }

  /** Resolved signals turn the set P of planned agents into (P + (requested and known)) - skipped,
      however often an agent is planned and whatever the order of the signals. */
  lemma {:induction false} PlannedAgentsAfter(groups: Groups, signals: seq<Signal>, next: nat, known: set<string>)
    requires Resolved(signals)
    ensures Agents(ApplyAll(groups, signals, next, known)) ==
            (Agents(groups) + (Targets(signals, Request) * known)) - Targets(signals, Skip)
  {
    if signals != [] {
      var init, last := signals[..|signals| - 1], signals[|signals| - 1];
      ResolvedPrefix(signals);
      PlannedAgentsAfter(groups, init, next, known);
      TargetsOfOneMore(signals);
      hide ApplyOne, Agents, Targets, Resolved;
      ApplyOneAgents(ApplyAll(groups, init, next, known), last, next, known);
    }
  }

  lemma TargetsOfOneMore(signals: seq<Signal>)
    requires Resolved(signals) && signals != []
    ensures var init, last := signals[..|signals| - 1], signals[|signals| - 1];
            && (forall kind :: Targets(signals, kind) == Targets(init, kind) + if last.kind == kind then {last.target} else {})
            && (last.kind == Request ==> last.target !in Targets(init, Skip))
            && (last.kind == Skip ==> last.target !in Targets(init, Request))
  {
    assert signals == signals[..|signals| - 1] + [signals[|signals| - 1]];
    assert signals[|signals| - 1] in signals;
  }

  // ---------------------------------------------------------------- the steps of one agent

  function Only(steps: seq<Step>, agent: string): seq<Step> {
    if steps == [] then []
    else
      var some, last := Only(steps[..|steps| - 1], agent), steps[|steps| - 1];
      if last.agent == agent then some + [last] else some
  }

  lemma OnlyOneMore(steps: seq<Step>, step: Step, agent: string)
    ensures Only(steps + [step], agent) == if step.agent == agent then Only(steps, agent) + [step] else Only(steps, agent)
  {
    assert (steps + [step])[..|steps|] == steps;
  }

  lemma {:induction false} OnlyMeaning(steps: seq<Step>, agent: string)
    ensures Only(steps, agent) != [] <==> HasAgent(steps, agent)
    ensures HasAgent(steps, agent) ==> Only(steps, agent)[0] == FirstOf(steps, agent)
  {
    if steps != [] {
      var init, last := steps[..|steps| - 1], steps[|steps| - 1];
      OnlyMeaning(init, agent);
      FirstOneMore(init, last, agent);
      assert steps == init + [last];
    }
  }

  lemma {:induction false} FirstOneMore(steps: seq<Step>, step: Step, agent: string)
    ensures HasAgent(steps + [step], agent) <==> HasAgent(steps, agent) || step.agent == agent
    ensures HasAgent(steps + [step], agent) ==>
              FirstOf(steps + [step], agent) == if HasAgent(steps, agent) then FirstOf(steps, agent) else step
  {
    var all := steps + [step];
    assert forall i :: 0 <= i < |steps| ==> all[i] == steps[i];
    assert all[|steps|] == step;
    if steps != [] && steps[0].agent != agent {
      FirstOneMore(steps[1..], step, agent);
      assert all[1..] == steps[1..] + [step];
    }
  }

  lemma {:induction false} OnlyWithout(steps: seq<Step>, gone: string, agent: string)
    ensures Only(Without(steps, gone), agent) == if agent == gone then [] else Only(steps, agent)
  {
    if steps != [] {
      var init, last := steps[..|steps| - 1], steps[|steps| - 1];
      OnlyWithout(init, gone, agent);
      OnlyOneMore(Without(init, gone), last, agent);
      assert Without(init, gone) + [] == Without(init, gone);
    }
  }

  /** The steps of one agent, group by group. */
  type StepsByGroup = m: map<nat, seq<Step>> | forall k :: k in m ==> m[k] != []

  ghost function StepsOf(groups: Groups, agent: string): StepsByGroup {
    map k | k in groups && Only(groups[k], agent) != [] :: Only(groups[k], agent)
  }

  lemma PlannedHasSteps(groups: Groups, agent: string, next: nat)
    ensures AlreadyPlanned(agent, groups) <==> StepsOf(groups, agent) != map[]
    ensures Sources(groups, next, agent) == if next in StepsOf(groups, agent) then {} else StepsOf(groups, agent).Keys
  {
    hide Only, HasAgent;
    forall k | k in groups ensures Only(groups[k], agent) != [] <==> HasAgent(groups[k], agent) {
      OnlyMeaning(groups[k], agent);
    }
    if AlreadyPlanned(agent, groups) {
      var k :| k in groups && HasAgent(groups[k], agent);
      assert k in StepsOf(groups, agent);
    } else {
      assert forall k :: k in groups ==> k !in StepsOf(groups, agent);
    }
  }

  function PushStep(steps: StepsByGroup, n: nat, step: Step): StepsByGroup {
    steps[n := if n in steps then steps[n] + [step] else [step]]
  }

  lemma StepsAt(groups: Groups, agent: string, k: nat)
    ensures k in StepsOf(groups, agent) <==> k in groups && Only(groups[k], agent) != []
    ensures k in StepsOf(groups, agent) ==> StepsOf(groups, agent)[k] == Only(groups[k], agent)
  {
    hide Only;
  }

  lemma PushedAt(groups: Groups, n: nat, step: Step, agent: string, k: nat)
    ensures var steps, after := StepsOf(groups, agent), StepsOf(Push(groups, n, step), agent);
            if k == n && agent == step.agent
            then n in after && after[n] == (if n in steps then steps[n] + [step] else [step])
            else (k in after <==> k in steps) && (k in after ==> after[k] == steps[k])
  {
    NoneOnly(agent);
    OnlyOneMore(if n in groups then groups[n] else [], step, agent);
    hide Only, StepsOf;
    StepsAt(groups, agent, k);
    StepsAt(Push(groups, n, step), agent, k);
    assert [] + [step] == [step];
  }

  lemma PushSteps(groups: Groups, n: nat, step: Step, agent: string)
    ensures StepsOf(Push(groups, n, step), agent) ==
            if agent == step.agent then PushStep(StepsOf(groups, agent), n, step) else StepsOf(groups, agent)
  {
    hide StepsOf, Push;
    var steps, after := StepsOf(groups, agent), StepsOf(Push(groups, n, step), agent);
    var expected := if agent == step.agent then PushStep(steps, n, step) else steps;
    forall k: nat ensures (k in after <==> k in expected) && (k in after ==> after[k] == expected[k]) {
      PushedAt(groups, n, step, agent, k);
    }
    assert after.Keys == expected.Keys;
  }

  lemma RemoveSteps(groups: Groups, gone: string, agent: string)
    ensures StepsOf(RemoveAgent(groups, gone), agent) == if agent == gone then map[] else StepsOf(groups, agent)
  {
    hide Only, Without;
    NoneOnly(agent);
    forall k | k in groups ensures Only(Without(groups[k], gone), agent) == if agent == gone then [] else Only(groups[k], agent) {
      OnlyWithout(groups[k], gone, agent);
    }
  }

  lemma NoneOnly(agent: string)
    ensures Only([], agent) == []
  {
  }

  lemma TakeSteps(groups: Groups, from: nat, gone: string, agent: string)
    requires from in groups
    ensures StepsOf(TakeFrom(groups, from, gone), agent) ==
            if agent == gone then StepsOf(groups, agent) - {from} else StepsOf(groups, agent)
  {
    hide Only, Without;
    NoneOnly(agent);
    OnlyWithout(groups[from], gone, agent);
  }

  /** What a whole round does to one agent's steps, read off the set of its signals. */
  ghost function Outcome(steps: StepsByGroup, agent: string, signals: seq<Signal>, next: nat, known: set<string>): StepsByGroup {
    if agent in Targets(signals, Skip) then map[]
    else if steps == map[] then
      if agent in Targets(signals, Request) && agent in known
      then map[next := [RequestedStep(SignalFor(signals, Request, agent), next)]]
      else map[]
    else if agent in Targets(signals, Priority) then Promoted(steps, SignalFor(signals, Priority, agent), next)
    else steps
  }

  /** The agent's first step moves to group `next`, and any others of the same group go, unless one is there already. */
  ghost function Promoted(steps: StepsByGroup, sig: Signal, next: nat): StepsByGroup
    requires steps != map[]
  {
    if next in steps then steps
    else
      var from := MinKey(steps.Keys);
      (steps - {from})[next := [Prioritized(steps[from][0], sig, next)]]
  }

  ghost function SignalFor(signals: seq<Signal>, kind: SignalKind, agent: string): (s: Signal)
    requires agent in Targets(signals, kind)
    ensures s in signals && s.kind == kind && s.target == agent
  {
    var s :| s in signals && s.kind == kind && s.target == agent;
    s
  }

  lemma SignalForUnique(signals: seq<Signal>, s: Signal)
    requires Resolved(signals) && s in signals
    ensures SignalFor(signals, s.kind, s.target) == s
  {
    var t := SignalFor(signals, s.kind, s.target);
    var i :| 0 <= i < |signals| && signals[i] == s;
    var j :| 0 <= j < |signals| && signals[j] == t;
  }

  lemma OutcomeOfOne(steps: StepsByGroup, sig: Signal, next: nat, known: set<string>)
    ensures Outcome(steps, sig.target, [sig], next, known) ==
            match sig.kind
            case Request => if steps == map[] && sig.target in known then PushStep(steps, next, RequestedStep(sig, next)) else steps
            case Skip => map[]
            case Priority => if steps == map[] then steps else Promoted(steps, sig, next)
  {
    hide Promoted;
    assert sig in [sig];
  }

  /** One signal changes its target's steps and nobody else's. */
  lemma OneSignal(groups: Groups, sig: Signal, next: nat, known: set<string>, agent: string)
    ensures StepsOf(ApplyOne(groups, sig, next, known), agent) ==
            if agent == sig.target then Outcome(StepsOf(groups, agent), agent, [sig], next, known) else StepsOf(groups, agent)
  {
    hide StepsOf, AlreadyPlanned, Outcome, Promoted;
    OutcomeOfOne(StepsOf(groups, sig.target), sig, next, known);
    PlannedHasSteps(groups, sig.target, next);
    match sig.kind
    case Request => PushSteps(groups, next, RequestedStep(sig, next), agent);
    case Skip => RemoveSteps(groups, sig.target, agent);
    case Priority => PromoteSteps(groups, sig, next, known, agent);
  }

  lemma PromoteSteps(groups: Groups, sig: Signal, next: nat, known: set<string>, agent: string)
    requires sig.kind == Priority
    ensures StepsOf(ApplyOne(groups, sig, next, known), agent) ==
            if agent == sig.target && StepsOf(groups, agent) != map[] then Promoted(StepsOf(groups, agent), sig, next)
            else StepsOf(groups, agent)
  {
    hide Push, TakeFrom, StepsOf, Sources;
    PlannedHasSteps(groups, sig.target, next);
    var sources := Sources(groups, next, sig.target);
    if sources != {} {
      var from := MinKey(sources);
      FirstSource(groups, next, sig.target, from);
      TakeSteps(groups, from, sig.target, agent);
      PushSteps(TakeFrom(groups, from, sig.target), next, Prioritized(FirstOf(groups[from], sig.target), sig, next), agent);
    }
  }

  lemma FirstSource(groups: Groups, next: nat, agent: string, from: nat)
    requires from in Sources(groups, next, agent)
    ensures from in groups && HasAgent(groups[from], agent)
    ensures from in StepsOf(groups, agent) && FirstOf(groups[from], agent) == StepsOf(groups, agent)[from][0]
  {
    OnlyMeaning(groups[from], agent);
    hide Only, HasAgent;
  }

  // ---------------------------------------------------------------- the steps of one agent after a round

  /** A round of resolved signals leaves every agent the steps that the set of its signals determines. */
  lemma {:induction false} StepsAfter(groups: Groups, signals: seq<Signal>, next: nat, known: set<string>, agent: string)
    requires Resolved(signals)
    ensures StepsOf(ApplyAll(groups, signals, next, known), agent) == Outcome(StepsOf(groups, agent), agent, signals, next, known)
  {
    if signals != [] {
      var init, last := signals[..|signals| - 1], signals[|signals| - 1];
      assert signals == init + [last] && last in signals && last in [last];
      ResolvedPrefix(signals);
      hide StepsOf, Outcome, ApplyOne, Resolved;
      StepsAfter(groups, init, next, known, agent);
      OneSignal(ApplyAll(groups, init, next, known), last, next, known, agent);
      OutcomeExtends(StepsOf(groups, agent), agent, init, last, next, known);
    }
  }

  /** Adding one more resolved signal acts on the outcome so far. */
  lemma OutcomeExtends(steps: StepsByGroup, agent: string, init: seq<Signal>, last: Signal, next: nat, known: set<string>)
    requires Resolved(init + [last])
    ensures Outcome(steps, agent, init + [last], next, known) ==
            if agent == last.target then Outcome(Outcome(steps, agent, init, next, known), agent, [last], next, known)
            else Outcome(steps, agent, init, next, known)
  {
    var all := init + [last];
    assert last in all && last in [last];
    forall kind: SignalKind
      ensures agent in Targets(all, kind) <==> agent in Targets(init, kind) || (last.kind == kind && last.target == agent)
      ensures agent in Targets([last], kind) <==> last.kind == kind && last.target == agent
      ensures agent in Targets(init, kind) ==> SignalFor(all, kind, agent) == SignalFor(init, kind, agent)
      ensures agent in Targets(init, kind) ==> !(last.kind == kind && last.target == agent)
    {
      if agent in Targets(init, kind) {
        SignalForUnique(all, SignalFor(init, kind, agent));
        var i :| 0 <= i < |init| && init[i] == SignalFor(init, kind, agent);
        assert all[i] == init[i] && all[|init|] == last;
      }
    }
    if agent == last.target {
      SignalForUnique(all, last);
    }
  }

  /** The order of a round of resolved signals does not matter, in any plan: every permutation leaves every
      agent the same steps in the same groups, prompts included. */
  lemma RoundIsOrderFree(groups: Groups, signals: seq<Signal>, other: seq<Signal>, current: nat, known: set<string>, agent: string)
    requires Resolved(signals) && multiset(signals) == multiset(other)
    ensures StepsOf(ApplySignals(groups, signals, current, known), agent) == StepsOf(ApplySignals(groups, other, current, known), agent)
  {
    hide StepsOf;
    var next := NextGroup(groups, current);
    ResolvedPermuted(signals, other);
    StepsAfter(groups, signals, next, known, agent);
    StepsAfter(groups, other, next, known, agent);
    SameMembers(signals, other);
    forall kind: SignalKind
      ensures Targets(signals, kind) == Targets(other, kind)
      ensures agent in Targets(signals, kind) ==> SignalFor(signals, kind, agent) == SignalFor(other, kind, agent)
    {
      if agent in Targets(signals, kind) {
        SignalForUnique(other, SignalFor(signals, kind, agent));
      }
    }
  }

  lemma SameMembers(signals: seq<Signal>, other: seq<Signal>)
    requires multiset(signals) == multiset(other)
    ensures forall s :: s in signals <==> s in other
  {
    forall s ensures s in signals <==> s in other {
      assert s in multiset(signals) <==> s in multiset(other);
    }
  }

  lemma ResolvedPermuted(signals: seq<Signal>, other: seq<Signal>)
    requires Resolved(signals) && multiset(signals) == multiset(other)
    ensures Resolved(other)
  {
    hide SameKey;
    SameMembers(signals, other);
    forall i, j | 0 <= i < j < |other| ensures !SameKey(other[i], other[j]) {
      if other[i] == other[j] {
        TwoOf(other, i, j);
        AtMostOnce(signals, other[i]);
      } else {
        KeysDiffer(signals, other[i], other[j]);
      }
    }
  }

  lemma KeysDiffer(signals: seq<Signal>, s: Signal, t: Signal)
    requires forall i, j :: 0 <= i < j < |signals| ==> !SameKey(signals[i], signals[j])
    requires s in signals && t in signals && s != t
    ensures !SameKey(s, t)
  {
    var i :| 0 <= i < |signals| && signals[i] == s;
    var j :| 0 <= j < |signals| && signals[j] == t;
  }

  lemma {:induction false} AtMostOnce(signals: seq<Signal>, s: Signal)
    requires forall i, j :: 0 <= i < j < |signals| ==> !SameKey(signals[i], signals[j])
    ensures multiset(signals)[s] <= 1
  {
    if signals != [] {
      var init, last := signals[..|signals| - 1], signals[|signals| - 1];
      AtMostOnce(init, s);
      assert signals == init + [last];
    }
  }
}
