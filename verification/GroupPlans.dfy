/** What the signals and the repivot of one executed group make of the plan. */
module GroupPlans {
  import opened Wrappers
  import opened Text
  import opened Signals
  import opened SignalParser
  import opened Plan
  import opened Routing
  import opened Workflow
  import opened WorkflowRuns
  import opened Repivots

  /** Where new work goes: the first of the planned groups, or the one behind `current` if there is none. */
  ghost predicate IsFirst(groups: Groups, current: nat, n: nat) {
    if groups == map[] then n == current + 1 else n in groups && forall k :: k in groups ==> n <= k
  }

  lemma NextIsFirst(groups: Groups, current: nat)
    ensures IsFirst(groups, current, NextGroup(groups, current))
  {
  }

  // ---------------------------------------------------------------- a round of signals

  /** A request: one sequential step in the group `n`, with the reason as its prompt. */
  ghost predicate AfterRequest(after: StepsByGroup, sig: Signal, n: nat) {
    after == map[n := [Step(sig.target, n, sig.reason, true, None, false)]]
  }

  /** A priority: an agent that is not in group `n` has its first step moved there, and the rest of that step's
      group taken out of the plan. */
  ghost predicate AfterPriority(before: StepsByGroup, after: StepsByGroup, sig: Signal, n: nat) {
    if n in before then after == before
    else exists from :: MovedFrom(before, after, sig, n, from)
  }

  ghost predicate MovedFrom(before: StepsByGroup, after: StepsByGroup, sig: Signal, n: nat, from: nat) {
    && from in before && (forall k :: k in before ==> from <= k)
    && var s := before[from][0];
       after == (before - {from})[n := [s.(group := n, prompt := s.prompt + " [PRIORITY: " + sig.reason + "]")]]
  }

  /** A round of resolved signals, agent by agent: who is skipped has no steps left; who was not planned is
      planned by a request alone, in the first group; who was planned is moved by a priority alone, and
      never to a later group. */
  lemma RoundMeaning(groups: Groups, signals: seq<Signal>, current: nat, known: set<string>, agent: string) returns (n: nat)
    requires Resolved(signals)
    ensures IsFirst(groups, current, n)
    ensures var before, after := StepsOf(groups, agent), StepsOf(ApplySignals(groups, signals, current, known), agent);
            && (forall k :: k in before ==> n <= k)
            && if Mentions(signals, Skip, agent) then after == map[]
               else if before == map[] then
                 if Mentions(signals, Request, agent) && agent in known
                 then exists s :: s in signals && s.kind == Request && s.target == agent && AfterRequest(after, s, n)
                 else after == map[]
               else
                 if Mentions(signals, Priority, agent)
                 then exists s :: s in signals && s.kind == Priority && s.target == agent && AfterPriority(before, after, s, n)
                 else after == before
  {
    n := NextGroup(groups, current);
    NextIsFirst(groups, current);
    StepsAfter(groups, signals, n, known, agent);
    var before := StepsOf(groups, agent);
    assert before.Keys <= groups.Keys;
    hide StepsOf, NextGroup, ApplyAll, Promoted, AfterPriority, AfterRequest;
    forall kind: SignalKind ensures agent in Targets(signals, kind) <==> Mentions(signals, kind, agent) {
    }
    if Mentions(signals, Request, agent) {
      RequestedIs(SignalFor(signals, Request, agent), n);
    }
    if Mentions(signals, Priority, agent) && before != map[] {
      PromotedIs(before, SignalFor(signals, Priority, agent), n);
    }
  }

  lemma RequestedIs(sig: Signal, n: nat)
    ensures AfterRequest(map[n := [RequestedStep(sig, n)]], sig, n)
  {
  }

  lemma PromotedIs(before: StepsByGroup, sig: Signal, n: nat)
    requires before != map[]
    ensures AfterPriority(before, Promoted(before, sig, n), sig, n)
  {
    if n !in before {
      assert MovedFrom(before, Promoted(before, sig, n), sig, n, MinKey(before.Keys));
    }
  }

  // ---------------------------------------------------------------- which signals are reported

  lemma WithoutShrinks(steps: seq<Step>, agent: string)
    requires HasAgent(steps, agent)
    ensures Without(steps, agent) != steps
  {
    WithoutMeaning(steps, agent);
    var i :| 0 <= i < |steps| && steps[i].agent == agent;
    assert steps[i] in steps;
  }

  /** A signal is reported as applied if and only if it changes the plan. */
  lemma FiresIff(groups: Groups, sig: Signal, next: nat, known: set<string>, current: int)
    requires Filed(groups, current)
    ensures Fires(groups, sig, next, known) <==> ApplyOne(groups, sig, next, known) != groups
  {
    match sig.kind
    case Request =>
      var pushed := Push(groups, next, RequestedStep(sig, next));
      assert next in groups ==> |pushed[next]| == |groups[next]| + 1;
    case Skip => RemoveChanges(groups, sig.target, current);
    case Priority => PriorityChanges(groups, sig, next, known);
  }

  lemma RemoveChanges(groups: Groups, agent: string, current: int)
    requires Filed(groups, current)
    ensures AlreadyPlanned(agent, groups) <==> RemoveAgent(groups, agent) != groups
  {
    hide Without, HasAgent;
    if AlreadyPlanned(agent, groups) {
      var k :| k in groups && HasAgent(groups[k], agent);
      WithoutShrinks(groups[k], agent);
    } else {
      forall k | k in groups ensures Without(groups[k], agent) == groups[k] {
        WithoutMeaning(groups[k], agent);
      }
      assert RemoveAgent(groups, agent).Keys == groups.Keys;
    }
  }

  lemma PriorityChanges(groups: Groups, sig: Signal, next: nat, known: set<string>)
    requires sig.kind == Priority
    ensures Sources(groups, next, sig.target) != {} <==> ApplyOne(groups, sig, next, known) != groups
  {
    hide Without, HasAgent, FirstOf, Prioritized;
    var sources := Sources(groups, next, sig.target);
    if sources != {} {
      var from := MinKey(sources);
      WithoutShrinks(groups[from], sig.target);
    }
  }

  /** The m-th reported signal is the one at `at[m]`, and these are all that changed the plan when it was their turn. */
  ghost predicate ReportedFrom(
    groups: Groups, signals: seq<Signal>, next: nat, known: set<string>, applied: seq<Signal>, at: seq<nat>)
  {
    && |at| == |applied|
    && (forall m :: 0 <= m < |at| ==> at[m] < |signals| && applied[m] == signals[at[m]])
    && (forall i: nat :: i in at <==> Changes(groups, signals, next, known, i))
    && (forall m, n :: 0 <= m < n < |at| ==> at[m] < at[n])
  }

  predicate Changes(groups: Groups, signals: seq<Signal>, next: nat, known: set<string>, i: nat) {
    i < |signals| && ApplyAll(groups, signals[..i + 1], next, known) != ApplyAll(groups, signals[..i], next, known)
  }

  lemma ChangesOneMore(groups: Groups, signals: seq<Signal>, next: nat, known: set<string>, current: int, i: nat)
    requires Filed(groups, current) && next > current && signals != []
    ensures var n := |signals| - 1;
            Changes(groups, signals, next, known, i) <==>
            if i == n then Fires(ApplyAll(groups, signals[..n], next, known), signals[n], next, known)
            else Changes(groups, signals[..n], next, known, i)
  {
    hide ApplyOne, Fires;
    var n := |signals| - 1;
    if i == n {
      assert signals[..i + 1] == signals;
      ApplyAllFiled(groups, signals[..n], next, known, current);
      FiresIff(ApplyAll(groups, signals[..n], next, known), signals[n], next, known, current);
    } else if i < n {
      assert signals[..n][..i + 1] == signals[..i + 1] && signals[..n][..i] == signals[..i];
    }
  }

  lemma {:induction false} AppliedMeaning(groups: Groups, signals: seq<Signal>, next: nat, known: set<string>, current: int)
    returns (at: seq<nat>)
    requires Filed(groups, current) && next > current
    ensures ReportedFrom(groups, signals, next, known, Applied(groups, signals, next, known), at)
  {
    hide Fires, ApplyAll, Changes;
    at := [];
    if signals == [] {
      NothingChanges(groups, next, known);
    } else {
      var n := |signals| - 1;
      at := AppliedMeaning(groups, signals[..n], next, known, current);
      if Fires(ApplyAll(groups, signals[..n], next, known), signals[n], next, known) {
        at := at + [n];
      }
      forall i: nat ensures i in at <==> Changes(groups, signals, next, known, i) {
        ChangesOneMore(groups, signals, next, known, current, i);
      }
    }
  }

  lemma NothingChanges(groups: Groups, next: nat, known: set<string>)
    ensures forall i: nat :: !Changes(groups, [], next, known, i)
  {
  }

  // ---------------------------------------------------------------- who is planned after a group

  /** The signals of a group are those of its outputs, one after the other. */
  lemma {:induction false} OutputsJoin(a: seq<(string, string)>, b: seq<(string, string)>)
    ensures AllSignals(a + b) == AllSignals(a) + AllSignals(b)
  {
    hide Parsed;
    if b == [] {
      assert a + b == a;
    } else {
      var n := |b| - 1;
      OutputsJoin(a, b[..n]);
      assert (a + b)[..|a| + n] == a + b[..n];
    }
  }

  lemma OneOutput(agent: string, text: string)
    ensures AllSignals([(agent, text)]) == Parsed(text, agent)
  {
    assert [(agent, text)][..0] == [];
  }

  /** The step of the original workflow for this agent. */
  ghost predicate IsOriginal(steps: seq<Step>, i: nat, agent: string) {
    i < |steps| && steps[i].agent == agent && forall j :: 0 <= j < i ==> steps[j].agent != agent
  }

  lemma {:induction false} FindMeaning(steps: seq<Step>, agent: string)
    ensures FindStep(steps, agent) == None <==> !HasAgent(steps, agent)
    ensures forall i: nat :: IsOriginal(steps, i, agent) ==> FindStep(steps, agent) == Some(steps[i])
    ensures HasAgent(steps, agent) ==> exists i: nat :: IsOriginal(steps, i, agent)
  {
    if steps != [] {
      if steps[0].agent == agent {
        assert IsOriginal(steps, 0, agent);
      } else {
        FindMeaning(steps[1..], agent);
        forall i: nat ensures IsOriginal(steps, i, agent) <==> i > 0 && IsOriginal(steps[1..], i - 1, agent) {
          assert i > 0 && i < |steps| ==> steps[1..][i - 1] == steps[i];
        }
        if i: nat :| IsOriginal(steps[1..], i, agent) {
          assert IsOriginal(steps, i + 1, agent);
        }
        assert HasAgent(steps, agent) ==> HasAgent(steps[1..], agent);
      }
    }
  }

  /** The original step, if there is one, may be repeated. */
  ghost predicate MayRepeat(steps: seq<Step>, agent: string) {
    forall i: nat :: IsOriginal(steps, i, agent) ==> steps[i].canRepivot
  }

  lemma MayRepeatIff(steps: seq<Step>, agent: string)
    ensures MayRepeat(steps, agent) <==> MayRepivot(steps, agent)
  {
    FindMeaning(steps, agent);
    hide FindStep, HasAgent, IsOriginal;
  }

  /** What is planned behind the group once its signals are applied. */
  ghost function Signalled(st: RunState, current: nat, known: set<string>, round: Round): Groups {
    ApplySignals(st.groups - {current}, Resolve(AllSignals(round.outputs)), current, known)
  }

  predicate Replaces(st: RunState, round: Round) {
    st.repivots < MAX_REPIVOTS && round.replacements.Some? && round.replacements.value != []
  }

  /** Who is planned after a group: who was planned behind it or requested, and not skipped; and on a repivot
      everyone who has completed and is not among them, if their original step allows it. */
  lemma GroupAgents(st: RunState, steps: seq<Step>, known: set<string>, round: Round)
    requires st.groups != map[]
    ensures var after := AfterGroup(st, steps, known, round);
            var report := after.trace[|st.trace|];
            var signals := Resolve(AllSignals(round.outputs));
            var planned := (Agents(st.groups - {report.group}) + (Targets(signals, Request) * known)) - Targets(signals, Skip);
            && Agents(after.groups) == planned + (set x | x in report.requeued)
            && report.repivoted == Replaces(st, round) && after.repivots == st.repivots + (if report.repivoted then 1 else 0)
            && (forall x :: x in report.requeued <==>
                  report.repivoted && x in after.completed && x !in planned && MayRepeat(steps, x))
  {
    hide Started, Finished, AllSignals, Applied, Requeue, Annotate, ApplyAll, Resolve, Agents, Targets, MayRepivot, MayRepeat,
         RetargetSuffix, Resolved;
    var current := MinKey(st.groups.Keys);
    var signals := Resolve(AllSignals(round.outputs));
    ResolveIsResolved(AllSignals(round.outputs));
    PlannedAgentsAfter(st.groups - {current}, signals, NextGroup(st.groups - {current}, current), known);
    var groups := Signalled(st, current, known, round);
    var completed := st.completed + Finished(Started(st.groups[current], round.found), round.timedOut);
    if Replaces(st, round) {
      var a := round.replacements.value[0];
      RequeueMeaning(groups, completed, steps, a, NextGroup(groups, current));
      AnnotateAgents(Requeue(groups, completed, steps, a, NextGroup(groups, current)).0, RetargetSuffix(a));
      forall x ensures MayRepeat(steps, x) <==> MayRepivot(steps, x) {
        MayRepeatIff(steps, x);
      }
    }
  }

  // ---------------------------------------------------------------- where a repivot puts whom it re-queues

  /** A copy of the agent's original step with the notice behind its prompt, or a bare step with the notice. */
  ghost predicate RepeatedIn(steps: seq<Step>, s: Step, k: nat, note: string) {
    if HasAgent(steps, s.agent)
    then exists i: nat :: IsOriginal(steps, i, s.agent) &&
           s == Step(s.agent, k, steps[i].prompt + note, false, steps[i].timeoutSecs, steps[i].parallel)
    else s == Step(s.agent, k, note, false, None, false)
  }

  lemma RequeuedIsRepeated(steps: seq<Step>, agent: string, k: nat, a: Artifact)
    ensures RequeuedStep(steps, agent, k, a).agent == agent
    ensures RepeatedIn(steps, RequeuedStep(steps, agent, k, a), k, RetargetSuffix(a))
  {
    FindMeaning(steps, agent);
    hide FindStep, HasAgent, IsOriginal, RetargetSuffix;
  }

  /** Every step a repivot re-queues stands in the group that was first before it, which is the first one after it. */
  lemma RequeuedComeFirst(st: RunState, steps: seq<Step>, known: set<string>, round: Round, k: nat, s: Step)
    requires st.groups != map[]
    requires var after := AfterGroup(st, steps, known, round);
             Placed(after.groups, k, s) && s.agent in after.trace[|st.trace|].requeued
    ensures var after := AfterGroup(st, steps, known, round);
            var current := after.trace[|st.trace|].group;
            && Replaces(st, round)
            && IsFirst(Signalled(st, current, known, round), current, k) && (forall j :: j in after.groups ==> k <= j)
            && RepeatedIn(steps, s, k, RetargetSuffix(round.replacements.value[0]))
  {
    hide Started, Finished, AllSignals, Applied, Requeue, Annotate, ApplyAll, Resolve, Agents, NextGroup, AnnotateStep,
         RetargetSuffix, RequeuedStep, MayRepivot, RepeatedIn, IsFirst;
    var current := MinKey(st.groups.Keys);
    var groups := Signalled(st, current, known, round);
    var completed := st.completed + Finished(Started(st.groups[current], round.found), round.timedOut);
    if Replaces(st, round) {
      var a := round.replacements.value[0];
      RequeuedInto(groups, completed, steps, a, current, k, s);
    }
  }

  lemma RequeuedInto(groups: Groups, completed: seq<string>, steps: seq<Step>, a: Artifact, current: nat, k: nat, s: Step)
    requires var (queued, names) := Requeue(groups, completed, steps, a, NextGroup(groups, current));
             Placed(Annotate(queued, RetargetSuffix(a)), k, s) && s.agent in names
    ensures var queued := Requeue(groups, completed, steps, a, NextGroup(groups, current)).0;
            && IsFirst(groups, current, k) && (forall j :: j in Annotate(queued, RetargetSuffix(a)) ==> k <= j)
            && RepeatedIn(steps, s, k, RetargetSuffix(a))
  {
    hide Requeue, NextGroup, AnnotateStep, RetargetSuffix, RequeuedStep, MayRepivot, RepeatedIn, Annotate, IsRequeued;
    var next := NextGroup(groups, current);
    var (queued, names) := Requeue(groups, completed, steps, a, next);
    NextIsFirst(groups, current);
    RequeueMeaning(groups, completed, steps, a, next);
    RequeueKeys(groups, completed, steps, a, next);
    SameAgents(queued, RetargetSuffix(a));
    var t := Origin(groups, completed, steps, a, next, k, s);
    SameAgent(t, RetargetSuffix(a));
    if Placed(groups, k, t) {
      PlannedIsPlaced(t.agent, groups);
      assert false;
    }
    RequeuedOnesEnd(names, steps, a, next, t);
    IsRequeuedMeans(names, steps, a, next, t);
    RequeuedIsRepeated(steps, s.agent, next, a);
  }

  lemma IsRequeuedMeans(names: seq<string>, steps: seq<Step>, a: Artifact, next: nat, s: Step)
    requires IsRequeued(names, steps, a, next, s)
    ensures s == RequeuedStep(steps, s.agent, next, a)
  {
  }

  lemma SameAgent(t: Step, suffix: string)
    ensures AnnotateStep(t, suffix).agent == t.agent
  {
  }

  lemma {:induction false} RequeueKeys(groups: Groups, completed: seq<string>, steps: seq<Step>, a: Artifact, next: nat)
    ensures Requeue(groups, completed, steps, a, next).0.Keys <= groups.Keys + {next}
  {
    hide AlreadyPlanned, MayRepivot, RequeuedStep;
    if completed != [] {
      RequeueKeys(groups, completed[..|completed| - 1], steps, a, next);
    }
  }

  // ---------------------------------------------------------------- everybody else

  /** A step with the notice, unless its prompt has one already. */
  function Noticed(t: Step, note: string): Step {
    t.(prompt := if Contains(t.prompt, "[RETARGET:") then t.prompt else t.prompt + note)
  }

  /** What the signals leave of the plan stays, step by step in the same order, and a repivot adds its notice. */
  lemma GroupKeeps(st: RunState, steps: seq<Step>, known: set<string>, round: Round, k: nat)
    requires st.groups != map[]
    requires var after := AfterGroup(st, steps, known, round);
             k in Signalled(st, after.trace[|st.trace|].group, known, round)
    ensures var after := AfterGroup(st, steps, known, round);
            var before := Signalled(st, after.trace[|st.trace|].group, known, round);
            && k in after.groups && |before[k]| <= |after.groups[k]|
            && (!Replaces(st, round) ==> after.groups == before)
            && (Replaces(st, round) ==> forall i :: 0 <= i < |before[k]| ==>
                  after.groups[k][i] == Noticed(before[k][i], RetargetSuffix(round.replacements.value[0])))
  {
    hide Started, Finished, AllSignals, Applied, Requeue, ApplyAll, Resolve, NextGroup, RetargetSuffix, Contains;
    var current := MinKey(st.groups.Keys);
    var groups := Signalled(st, current, known, round);
    var completed := st.completed + Finished(Started(st.groups[current], round.found), round.timedOut);
    if Replaces(st, round) {
      RequeueExtends(groups, completed, steps, round.replacements.value[0], NextGroup(groups, current), k);
    }
  }

  lemma {:induction false} RequeueExtends(groups: Groups, completed: seq<string>, steps: seq<Step>, a: Artifact, next: nat, k: nat)
    requires k in groups
    ensures var queued := Requeue(groups, completed, steps, a, next).0; k in queued && groups[k] <= queued[k]
  {
    hide AlreadyPlanned, MayRepivot, RequeuedStep;
    if completed != [] {
      RequeueExtends(groups, completed[..|completed| - 1], steps, a, next, k);
    }
  }
}
