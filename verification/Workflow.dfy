/** A workflow run: groups are taken in ascending order and the rest of the plan is rewritten after each.
    Agents, their output, time-outs and the artifact table are an environment that answers once per group
    with a `Round`. The run is stated as a function of the rounds and performed in place by `WorkflowRun`. */
module Workflow {
  import opened Wrappers
  import opened Text
  import opened Signals
  import opened SignalParser
  import opened Plan
  import opened Routing

  const MAX_REPIVOTS: nat := 5
  const RETARGET := "[RETARGET:"

  /** A replacement artifact produced while a group ran. */
  datatype Artifact = Artifact(id: string, filename: string, original: string)

  /** What the environment answers while one group runs. */
  datatype Round = Round(
    found: set<string>,                    // agents whose configuration resolves
    timedOut: set<string>,
    outputs: seq<(string, string)>,        // (agent, final text), in order of arrival
    replacements: Option<seq<Artifact>>)   // None when the query fails

  /** What is reported for one executed group. */
  datatype Report = Report(
    group: nat, taken: seq<Step>, started: seq<string>, timedOut: set<string>,
    applied: seq<Signal>, repivoted: bool, requeued: seq<string>)

  datatype RunState = RunState(groups: Groups, completed: seq<string>, repivots: nat, trace: seq<Report>)

  // ---------------------------------------------------------------- running a group

  function StartedOf(steps: seq<Step>, parallel: bool, found: set<string>): seq<string> {
    if steps == [] then []
    else
      var last := steps[|steps| - 1];
      StartedOf(steps[..|steps| - 1], parallel, found) +
      if last.parallel == parallel && last.agent in found then [last.agent] else []
  }

  /** Parallel steps start first, then the sequential ones; a step whose agent is unknown is skipped. */
  function Started(steps: seq<Step>, found: set<string>): seq<string> {
    StartedOf(steps, true, found) + StartedOf(steps, false, found)
  }

  function Finished(names: seq<string>, timedOut: set<string>): seq<string> {
    if names == [] then []
    else
      var last := names[|names| - 1];
      Finished(names[..|names| - 1], timedOut) + if last in timedOut then [] else [last]
  }

  function AllSignals(outputs: seq<(string, string)>): seq<Signal> {
    if outputs == [] then []
    else
      var last := outputs[|outputs| - 1];
      AllSignals(outputs[..|outputs| - 1]) + Parsed(last.1, last.0)
  }

  /** A signal is reported as applied. */
  predicate Fires(groups: Groups, sig: Signal, next: nat, known: set<string>) {
    match sig.kind
    case Request => sig.target in known && !AlreadyPlanned(sig.target, groups)
    case Skip => AlreadyPlanned(sig.target, groups)
    case Priority => Sources(groups, next, sig.target) != {}
  }

  function Applied(groups: Groups, signals: seq<Signal>, next: nat, known: set<string>): seq<Signal> {
    if signals == [] then []
    else
      var init, last := signals[..|signals| - 1], signals[|signals| - 1];
      Applied(groups, init, next, known) +
      if Fires(ApplyAll(groups, init, next, known), last, next, known) then [last] else []
  }

  // ---------------------------------------------------------------- repivot

  function FindStep(steps: seq<Step>, agent: string): Option<Step> {
    if steps == [] then None
    else if steps[0].agent == agent then Some(steps[0])
    else FindStep(steps[1..], agent)
  }

  function RetargetNote(a: Artifact): string {
    " analyze new artifact " + a.id + " (" + a.filename + ") instead of original " + a.original + "]"
  }

  function RetargetSuffix(a: Artifact): string {
    " " + RETARGET + RetargetNote(a)
  }

  /** Only the step of the original workflow is asked, so a re-queued agent may be re-queued again. */
  predicate MayRepivot(steps: seq<Step>, agent: string) {
    var original := FindStep(steps, agent);
    original.Some? ==> original.value.canRepivot
  }

  function RequeuedStep(steps: seq<Step>, agent: string, next: nat, a: Artifact): Step {
    match FindStep(steps, agent)
    case Some(s) => Step(agent, next, s.prompt + RetargetSuffix(a), false, s.timeoutSecs, s.parallel)
    case None => Step(agent, next, RetargetSuffix(a), false, None, false)
  }

  function Requeue(groups: Groups, completed: seq<string>, steps: seq<Step>, a: Artifact, next: nat)
    : (Groups, seq<string>)
  {
    if completed == [] then (groups, [])
    else
      var agent := completed[|completed| - 1];
      var (g, done) := Requeue(groups, completed[..|completed| - 1], steps, a, next);
      if AlreadyPlanned(agent, g) || !MayRepivot(steps, agent) then (g, done)
      else (Push(g, next, RequeuedStep(steps, agent, next, a)), done + [agent])
  }

  function AnnotateStep(s: Step, suffix: string): Step {
    if Contains(s.prompt, RETARGET) then s else s.(prompt := s.prompt + suffix)
  }

  function Annotate(groups: Groups, suffix: string): Groups {
    map k | k in groups :: seq(|groups[k]|, i requires 0 <= i < |groups[k]| => AnnotateStep(groups[k][i], suffix))
  }

  // ---------------------------------------------------------------- the run as a function

  function InitialGroups(steps: seq<Step>): Groups {
    if steps == [] then map[]
    else
      var last := steps[|steps| - 1];
      Push(InitialGroups(steps[..|steps| - 1]), last.group, last)
  }

  function Initial(steps: seq<Step>): RunState {
    RunState(InitialGroups(steps), [], 0, [])
  }

  function AfterGroup(st: RunState, steps: seq<Step>, known: set<string>, round: Round): RunState
    requires st.groups != map[]
  {
    var current := MinKey(st.groups.Keys);
    var rest := st.groups - {current};
    var started := Started(st.groups[current], round.found);
    var completed := st.completed + Finished(started, round.timedOut);
    var resolved := Resolve(AllSignals(round.outputs));
    var applied := Applied(rest, resolved, NextGroup(rest, current), known);
    var groups := ApplySignals(rest, resolved, current, known);
    var report := Report(current, st.groups[current], started, round.timedOut, applied, false, []);
    if st.repivots < MAX_REPIVOTS && round.replacements.Some? && round.replacements.value != [] then
      var a := round.replacements.value[0];
      var (queued, requeued) := Requeue(groups, completed, steps, a, NextGroup(groups, current));
      RunState(Annotate(queued, RetargetSuffix(a)), completed, st.repivots + 1,
               st.trace + [report.(repivoted := true, requeued := requeued)])
    else RunState(groups, completed, st.repivots, st.trace + [report])
  }

  /** The run on the environment's answers, as far as they go. */
  function Run(steps: seq<Step>, known: set<string>, rounds: seq<Round>): RunState {
    if rounds == [] then Initial(steps)
    else
      var st := Run(steps, known, rounds[..|rounds| - 1]);
      if st.groups == map[] then st else AfterGroup(st, steps, known, rounds[|rounds| - 1])
  }

  // ---------------------------------------------------------------- the run in place

  /** The steps of one part whose agents are found. */
  method StartPart(steps: seq<Step>, parallel: bool, found: set<string>) returns (names: seq<string>)
    ensures names == StartedOf(steps, parallel, found)
  {
    names := [];
    for i := 0 to |steps|
      invariant names == StartedOf(steps[..i], parallel, found)
    {
      assert steps[..i + 1][..i] == steps[..i];
      if steps[i].parallel == parallel && steps[i].agent in found {
        names := names + [steps[i].agent];
      }
    }
    assert steps[..|steps|] == steps;
  }

  class WorkflowRun {
    const steps: seq<Step>
    const known: set<string>
    var groups: Groups
    var completed: seq<string>
    var repivots: nat
    var trace: seq<Report>

    function State(): RunState
      reads this
    {
      RunState(groups, completed, repivots, trace)
    }

    constructor (steps: seq<Step>, known: set<string>)
      ensures this.steps == steps && this.known == known
      ensures State() == Initial(steps)
    {
      this.steps, this.known := steps, known;
      completed, repivots, trace := [], 0, [];
      groups := map[];
      new;
      for i := 0 to |steps|
        invariant groups == InitialGroups(steps[..i])
        invariant this.steps == steps && this.known == known && completed == [] && repivots == 0 && trace == []
      {
        assert steps[..i + 1][..i] == steps[..i];
        groups := Push(groups, steps[i].group, steps[i]);
      }
      assert steps[..|steps|] == steps;
    }

    /** Applies resolved signals one by one and reports those that changed something. */
    method Route(signals: seq<Signal>, current: nat) returns (applied: seq<Signal>)
      modifies this`groups
      ensures groups == ApplySignals(old(groups), signals, current, known)
      ensures applied == Applied(old(groups), signals, NextGroup(old(groups), current), known)
    {
      var next := NextGroup(groups, current);
      applied := [];
      for i := 0 to |signals|
        invariant groups == ApplyAll(old(groups), signals[..i], next, known)
        invariant applied == Applied(old(groups), signals[..i], next, known)
      {
        var sig := signals[i];
        assert signals[..i + 1][..i] == signals[..i];
        var fires := Fires(groups, sig, next, known);
        match sig.kind {
          case Request =>
            if fires {
              groups := Push(groups, next, RequestedStep(sig, next));
            }
          case Skip =>
            groups := RemoveAgent(groups, sig.target);
          case Priority =>
            var sources := Sources(groups, next, sig.target);
            if sources != {} {
              var from := MinKey(sources);
              var step := FirstOf(groups[from], sig.target);
              groups := TakeFrom(groups, from, sig.target);
              groups := Push(groups, next, Prioritized(step, sig, next));
            }
        }
        if fires {
          applied := applied + [sig];
        }
      }
      assert signals[..|signals|] == signals;
    }

    /** Re-queues finished agents for a replacement artifact and retargets the rest of the plan. */
    method Repivot(a: Artifact, current: nat) returns (requeued: seq<string>)
      modifies this`groups, this`repivots
      ensures var (queued, names) := Requeue(old(groups), completed, steps, a, NextGroup(old(groups), current));
              groups == Annotate(queued, RetargetSuffix(a)) && requeued == names
      ensures repivots == old(repivots) + 1
    {
      var next := NextGroup(groups, current);
      requeued := [];
      for i := 0 to |completed|
        invariant (groups, requeued) == Requeue(old(groups), completed[..i], steps, a, next)
        invariant repivots == old(repivots)
      {
        var agent := completed[i];
        assert completed[..i + 1][..i] == completed[..i];
        if !AlreadyPlanned(agent, groups) && MayRepivot(steps, agent) {
          groups := Push(groups, next, RequeuedStep(steps, agent, next, a));
          requeued := requeued + [agent];
        }
      }
      assert completed[..|completed|] == completed;
      groups := Annotate(groups, RetargetSuffix(a));
      repivots := repivots + 1;
    }

    /** One turn of the group loop. */
    method ExecuteGroup(round: Round)
      requires groups != map[]
      modifies this
      ensures State() == AfterGroup(old(State()), steps, known, round)
    {
      hide StartedOf, Finished, Requeue, Annotate, ApplyOne, Parsed, Resolved, NextGroup;
      var current := MinKey(groups.Keys);
      var groupSteps := groups[current];
      groups := groups - {current};
      var parallel := StartPart(groupSteps, true, round.found);
      var sequential := StartPart(groupSteps, false, round.found);
      var started := parallel + sequential;
      completed := completed + Finished(started, round.timedOut);
      var allSignals: seq<Signal> := [];
      for i := 0 to |round.outputs|
        invariant allSignals == AllSignals(round.outputs[..i])
        invariant groups == old(groups) - {current} && repivots == old(repivots) && trace == old(trace)
        invariant completed == old(completed) + Finished(started, round.timedOut)
      {
        assert round.outputs[..i + 1][..i] == round.outputs[..i];
        var signals := ParseSignals(round.outputs[i].1, round.outputs[i].0);
        allSignals := allSignals + signals;
      }
      assert round.outputs[..|round.outputs|] == round.outputs;
      var applied: seq<Signal> := [];
      if allSignals != [] {
        var resolved := ResolveConflicts(allSignals);
        applied := Route(resolved, current);
      }
      var report := Report(current, groupSteps, started, round.timedOut, applied, false, []);
      if repivots < MAX_REPIVOTS && round.replacements.Some? && round.replacements.value != [] {
        var requeued := Repivot(round.replacements.value[0], current);
        report := report.(repivoted := true, requeued := requeued);
      }
      trace := trace + [report];
    }

    /** Runs until the plan is empty or the environment stops answering. */
    method Execute(rounds: seq<Round>)
      requires State() == Initial(steps)
      modifies this
      ensures State() == Run(steps, known, rounds)
      ensures groups == map[] || |trace| == |rounds|
    {
      hide AfterGroup;
      var i := 0;
      assert rounds[..0] == [];
      while i < |rounds| && groups != map[]
        invariant 0 <= i <= |rounds| && |trace| == i
        invariant State() == Run(steps, known, rounds[..i])
      {
        assert rounds[..i + 1][..i] == rounds[..i] && rounds[..i + 1][i] == rounds[i];
        TraceGrows(State(), steps, known, rounds[i]);
        ExecuteGroup(rounds[i]);
        i := i + 1;
      }
      if groups == map[] {
        StaysDone(steps, known, rounds, i);
      }
      assert rounds[..|rounds|] == rounds;
    }
  }

  lemma TraceGrows(st: RunState, steps: seq<Step>, known: set<string>, round: Round)
    requires st.groups != map[]
    ensures |AfterGroup(st, steps, known, round).trace| == |st.trace| + 1
  {
  }

  lemma {:induction false} StaysDone(steps: seq<Step>, known: set<string>, rounds: seq<Round>, i: nat)
    requires i <= |rounds| && Run(steps, known, rounds[..i]).groups == map[]
    ensures Run(steps, known, rounds) == Run(steps, known, rounds[..i])
  {
    if i == |rounds| {
      assert rounds[..i] == rounds;
    } else {
      var init := rounds[..|rounds| - 1];
      assert init[..i] == rounds[..i];
      StaysDone(steps, known, init, i);
    }
  }
}
