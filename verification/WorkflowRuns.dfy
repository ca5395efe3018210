/** What holds over every workflow run, whatever the agents answer. */
module WorkflowRuns {
  import opened Wrappers
  import opened Text
  import opened Signals
  import opened SignalParser
  import opened Plan
  import opened Routing
  import opened Workflow

  ghost predicate Ordered(trace: seq<Report>) {
    forall i, j :: 0 <= i < j < |trace| ==> trace[i].group < trace[j].group
  }

  function LastGroup(trace: seq<Report>): int {
    if trace == [] then -1 else trace[|trace| - 1].group
  }

  /** The groups run so far are in ascending order and everything still planned comes after them. */
  ghost predicate InOrder(st: RunState) {
    && Ordered(st.trace)
    && Filed(st.groups, LastGroup(st.trace))
    && (forall r :: r in st.trace ==> r.taken != [] && forall s :: s in r.taken ==> s.group == r.group)
  }

  // ---------------------------------------------------------------- order

  lemma PushFiled(groups: Groups, n: nat, step: Step, current: int)
    requires Filed(groups, current) && n > current && step.group == n
    ensures Filed(Push(groups, n, step), current)
  {
    PushPlaces(groups, n, step);
  }

  lemma {:induction false} InitialFiled(steps: seq<Step>)
    ensures Filed(InitialGroups(steps), -1)
  {
    if steps != [] {
      var last := steps[|steps| - 1];
      InitialFiled(steps[..|steps| - 1]);
      PushFiled(InitialGroups(steps[..|steps| - 1]), last.group, last, -1);
    }
  }

  lemma RestFiled(groups: Groups, current: int)
    requires Filed(groups, current) && groups != map[]
    ensures Filed(groups - {MinKey(groups.Keys)}, MinKey(groups.Keys))
  {
    var k := MinKey(groups.Keys);
    assert forall j, s :: Placed(groups - {k}, j, s) ==> Placed(groups, j, s);
  }

  lemma {:induction false} RequeueFiled(
    groups: Groups, completed: seq<string>, steps: seq<Step>, a: Artifact, next: nat, current: int)
    requires Filed(groups, current) && next > current
    ensures Filed(Requeue(groups, completed, steps, a, next).0, current)
    ensures Requeue(groups, completed, steps, a, next).0.Keys <= groups.Keys + {next}
  {
    if completed != [] {
      var init, agent := completed[..|completed| - 1], completed[|completed| - 1];
      RequeueFiled(groups, init, steps, a, next, current);
      PushFiled(Requeue(groups, init, steps, a, next).0, next, RequeuedStep(steps, agent, next, a), current);
    }
  }

  /** Where an annotated step comes from. */
  lemma AnnotatedFrom(groups: Groups, suffix: string, k: nat, s: Step) returns (t: Step)
    requires Placed(Annotate(groups, suffix), k, s)
    ensures Placed(groups, k, t) && s == AnnotateStep(t, suffix)
  {
    hide AnnotateStep;
    var i :| 0 <= i < |groups[k]| && Annotate(groups, suffix)[k][i] == s;
    t := groups[k][i];
  }

  lemma AnnotateFiled(groups: Groups, suffix: string, current: int)
    requires Filed(groups, current)
    ensures Filed(Annotate(groups, suffix), current)
  {
    var after := Annotate(groups, suffix);
    forall k | k in groups ensures after[k] != [] {
      assert |after[k]| == |groups[k]|;
    }
    forall k, s | Placed(after, k, s) ensures s.group == k {
      var t := AnnotatedFrom(groups, suffix, k, s);
    }
  }

  lemma NextIsLater(groups: Groups, current: nat)
    requires Filed(groups, current)
    ensures NextGroup(groups, current) > current
  {
  }

  lemma AfterGroupInOrder(st: RunState, steps: seq<Step>, known: set<string>, round: Round)
    requires InOrder(st) && st.groups != map[]
    ensures InOrder(AfterGroup(st, steps, known, round))
  {
    hide Started, Finished, AllSignals, Applied, Requeue, Annotate, ApplyAll, Resolve;
    var current := MinKey(st.groups.Keys);
    var rest := st.groups - {current};
    RestFiled(st.groups, LastGroup(st.trace));
    forall s | s in st.groups[current] ensures s.group == current {
      assert Placed(st.groups, current, s);
    }
    var resolved := Resolve(AllSignals(round.outputs));
    NextIsLater(rest, current);
    ApplyAllFiled(rest, resolved, NextGroup(rest, current), known, current);
    var groups := ApplySignals(rest, resolved, current, known);
    var completed := st.completed + Finished(Started(st.groups[current], round.found), round.timedOut);
    if st.repivots < MAX_REPIVOTS && round.replacements.Some? && round.replacements.value != [] {
      var a := round.replacements.value[0];
      var next := NextGroup(groups, current);
      NextIsLater(groups, current);
      RequeueFiled(groups, completed, steps, a, next, current);
      AnnotateFiled(Requeue(groups, completed, steps, a, next).0, RetargetSuffix(a), current);
    }
  }

  /** Executed group numbers strictly increase; every planned group comes after the last executed one, is
      not empty and holds steps filed under its own number. For all workflows and all answers. */
  lemma {:induction false} RunInOrder(steps: seq<Step>, known: set<string>, rounds: seq<Round>)
    ensures InOrder(Run(steps, known, rounds))
  {
    hide AfterGroup;
    if rounds == [] {
      InitialFiled(steps);
    } else {
      var init := rounds[..|rounds| - 1];
      RunInOrder(steps, known, init);
      var st := Run(steps, known, init);
      if st.groups != map[] {
        AfterGroupInOrder(st, steps, known, rounds[|rounds| - 1]);
      }
    }
  }

  // ---------------------------------------------------------------- no agent twice

  lemma {:induction false} InitialUnique(steps: seq<Step>)
    requires DistinctAgents(steps)
    ensures Unique(InitialGroups(steps))
    ensures forall k, s :: Placed(InitialGroups(steps), k, s) <==> s in steps && k == s.group
  {
    if steps != [] {
      var init, last := steps[..|steps| - 1], steps[|steps| - 1];
      InitialUnique(init);
      assert steps == init + [last];
      PlannedIsPlaced(last.agent, InitialGroups(init));
      PushUnique(InitialGroups(init), last.group, last);
      PushPlaces(InitialGroups(init), last.group, last);
    }
  }

  /** The step of an agent re-queued for the artifact. */
  ghost predicate IsRequeued(names: seq<string>, steps: seq<Step>, a: Artifact, next: nat, s: Step) {
    s.agent in names && s == RequeuedStep(steps, s.agent, next, a)
  }

  /** A repivot re-queues exactly the finished agents that are not planned and whose original step, if any,
      allows it, each once and into the next group, and leaves everybody else where they are. */
  lemma {:induction false} RequeueMeaning(groups: Groups, completed: seq<string>, steps: seq<Step>, a: Artifact, next: nat)
    ensures var (after, names) := Requeue(groups, completed, steps, a, next);
            && (forall x :: x in names <==> x in completed && x !in Agents(groups) && MayRepivot(steps, x))
            && (forall i, j :: 0 <= i < j < |names| ==> names[i] != names[j])
            && Agents(after) == Agents(groups) + (set x | x in names)
            && (Unique(groups) ==> Unique(after))
            && (forall k, s :: Placed(after, k, s) <==> Placed(groups, k, s) || (k == next && IsRequeued(names, steps, a, next, s)))
  {
    hide Agents, MayRepivot, Unique, Placed, AlreadyPlanned, Push, RequeuedStep;
    if completed != [] {
      var init, agent := completed[..|completed| - 1], completed[|completed| - 1];
      RequeueMeaning(groups, init, steps, a, next);
      assert completed == init + [agent];
      var (g, done) := Requeue(groups, init, steps, a, next);
      PlannedIsPlaced(agent, g);
      if agent !in Agents(g) && MayRepivot(steps, agent) {
        OneRequeued(g, done, agent, steps, a, next);
      }
    }
  }

  lemma OneRequeued(g: Groups, names: seq<string>, agent: string, steps: seq<Step>, a: Artifact, next: nat)
    requires agent !in Agents(g)
    ensures var step := RequeuedStep(steps, agent, next, a);
            var after := Push(g, next, step);
            && Agents(after) == Agents(g) + {agent} && (Unique(g) ==> Unique(after))
            && (forall k, s :: Placed(after, k, s) <==> Placed(g, k, s) || (k == next && s == step))
            && (forall s :: IsRequeued(names + [agent], steps, a, next, s) <==> IsRequeued(names, steps, a, next, s) || s == step)
  {
    hide Agents, Unique, FindStep, RetargetSuffix;
    var step := RequeuedStep(steps, agent, next, a);
    PushAgents(g, next, step);
    PushPlaces(g, next, step);
    PlannedIsPlaced(agent, g);
    if Unique(g) {
      PushUnique(g, next, step);
    }
  }

  lemma PushAgents(groups: Groups, n: nat, step: Step)
    ensures Agents(Push(groups, n, step)) == Agents(groups) + {step.agent}
  {
    var after := Push(groups, n, step);
    PushPlaces(groups, n, step);
    assert Placed(after, n, step);
    forall a ensures a in Agents(after) <==> a in Agents(groups) || a == step.agent {
      PlannedIsPlaced(a, after);
      PlannedIsPlaced(a, groups);
    }
  }

  lemma AnnotateAgents(groups: Groups, suffix: string)
    ensures Agents(Annotate(groups, suffix)) == Agents(groups)
    ensures Unique(groups) ==> Unique(Annotate(groups, suffix))
  {
    AnnotateKeepsAgents(groups, suffix);
    if Unique(groups) {
      AnnotateKeepsUnique(groups, suffix);
    }
  }

  lemma AnnotateKeepsAgents(groups: Groups, suffix: string)
    ensures Agents(Annotate(groups, suffix)) == Agents(groups)
  {
    hide AnnotateStep;
    var after := Annotate(groups, suffix);
    forall x ensures x in Agents(after) <==> x in Agents(groups) {
      SameAgents(groups, suffix);
    }
  }

  lemma SameAgents(groups: Groups, suffix: string)
    ensures var after := Annotate(groups, suffix);
            && after.Keys == groups.Keys
            && forall k :: k in groups ==> |after[k]| == |groups[k]| && forall i :: 0 <= i < |groups[k]| ==> after[k][i].agent == groups[k][i].agent
  {
    hide Contains;
  }

  lemma AnnotateKeepsUnique(groups: Groups, suffix: string)
    requires Unique(groups)
    ensures Unique(Annotate(groups, suffix))
  {
    SameAgents(groups, suffix);
    hide Annotate, Contains;
    var after := Annotate(groups, suffix);
    forall k, l, s, t | Placed(after, k, s) && Placed(after, l, t) && s.agent == t.agent ensures k == l {
      var s' := AnnotatedFrom(groups, suffix, k, s);
      var t' := AnnotatedFrom(groups, suffix, l, t);
      assert Placed(groups, k, s') && Placed(groups, l, t');
    }
  }

  lemma RestUnique(groups: Groups, k: nat)
    requires Unique(groups)
    ensures Unique(groups - {k})
  {
    assert forall j, s :: Placed(groups - {k}, j, s) ==> Placed(groups, j, s);
  }

  lemma AfterGroupUnique(st: RunState, steps: seq<Step>, known: set<string>, round: Round)
    requires Unique(st.groups) && st.groups != map[]
    ensures Unique(AfterGroup(st, steps, known, round).groups)
  {
    hide Started, Finished, AllSignals, Applied, Requeue, Annotate, ApplyAll, Resolve;
    var current := MinKey(st.groups.Keys);
    var rest := st.groups - {current};
    RestUnique(st.groups, current);
    ApplyAllUnique(rest, Resolve(AllSignals(round.outputs)), NextGroup(rest, current), known);
    var groups := ApplySignals(rest, Resolve(AllSignals(round.outputs)), current, known);
    var completed := st.completed + Finished(Started(st.groups[current], round.found), round.timedOut);
    if round.replacements.Some? && round.replacements.value != [] {
      var a := round.replacements.value[0];
      var next := NextGroup(groups, current);
      RequeueMeaning(groups, completed, steps, a, next);
      AnnotateAgents(Requeue(groups, completed, steps, a, next).0, RetargetSuffix(a));
    }
  }

  /** When the steps name distinct agents, no agent is ever planned twice, through signals and repivots alike. */
  lemma {:induction false} RunUnique(steps: seq<Step>, known: set<string>, rounds: seq<Round>)
    requires DistinctAgents(steps)
    ensures Unique(Run(steps, known, rounds).groups)
  {
    hide AfterGroup;
    if rounds == [] {
      InitialUnique(steps);
    } else {
      var init := rounds[..|rounds| - 1];
      RunUnique(steps, known, init);
      var st := Run(steps, known, init);
      if st.groups != map[] {
        AfterGroupUnique(st, steps, known, rounds[|rounds| - 1]);
      }
    }
  }

  // ---------------------------------------------------------------- who is re-queued

  /** Agent `x` ran in a group up to report `i` and did not time out there. */
  ghost predicate RanBy(trace: seq<Report>, i: int, x: string) {
    exists j :: 0 <= j <= i && j < |trace| && x in trace[j].started && x !in trace[j].timedOut
  }

  ghost predicate RequeuesJustified(st: RunState, steps: seq<Step>) {
    && (forall x :: x in st.completed ==> RanBy(st.trace, |st.trace| - 1, x))
    && (forall i :: 0 <= i < |st.trace| ==> ReportJustified(st.trace, i, steps))
  }

  lemma FinishedLast(names: seq<string>, x: string, timedOut: set<string>)
    ensures Finished(names + [x], timedOut) == if x in timedOut then Finished(names, timedOut) else Finished(names, timedOut) + [x]
  {
    assert (names + [x])[..|names|] == names;
    assert Finished(names, timedOut) + [] == Finished(names, timedOut);
  }

  lemma {:induction false} FinishedMembers(names: seq<string>, timedOut: set<string>)
    ensures forall x :: x in Finished(names, timedOut) <==> x in names && x !in timedOut
  {
    if names != [] {
      FinishedMembers(names[..|names| - 1], timedOut);
      assert names == names[..|names| - 1] + [names[|names| - 1]];
    }
  }

  lemma RanByLater(trace: seq<Report>, report: Report, i: int, x: string)
    requires RanBy(trace, i, x)
    ensures RanBy(trace + [report], i, x)
  {
    var j :| 0 <= j <= i && j < |trace| && x in trace[j].started && x !in trace[j].timedOut;
    assert (trace + [report])[j] == trace[j];
  }

  lemma RanNow(trace: seq<Report>, report: Report, x: string)
    requires x in report.started && x !in report.timedOut
    ensures RanBy(trace + [report], |trace|, x)
  {
    assert (trace + [report])[|trace|] == report;
  }

  /** Who has finished after a group has run in it or in an earlier one. */
  lemma CompletedRan(trace: seq<Report>, report: Report, completed: seq<string>, x: string)
    requires forall y :: y in completed ==> RanBy(trace, |trace| - 1, y)
    requires x in completed || (x in report.started && x !in report.timedOut)
    ensures RanBy(trace + [report], |trace|, x)
  {
    hide RanBy;
    if x in completed {
      RanByLater(trace, report, |trace| - 1, x);
      RanByWider(trace + [report], |trace| - 1, |trace|, x);
    } else {
      RanNow(trace, report, x);
    }
  }

  lemma RanByWider(trace: seq<Report>, i: int, j: int, x: string)
    requires RanBy(trace, i, x) && i <= j
    ensures RanBy(trace, j, x)
  {
    var m :| 0 <= m <= i && m < |trace| && x in trace[m].started && x !in trace[m].timedOut;
  }

  /** What one report says about re-queued agents. */
  ghost predicate ReportJustified(trace: seq<Report>, i: nat, steps: seq<Step>)
    requires i < |trace|
  {
    && (forall p, q :: 0 <= p < q < |trace[i].requeued| ==> trace[i].requeued[p] != trace[i].requeued[q])
    && (forall x :: x in trace[i].requeued ==> RanBy(trace, i, x) && MayRepivot(steps, x))
  }

  lemma ReportStays(trace: seq<Report>, report: Report, i: nat, steps: seq<Step>)
    requires i < |trace| && ReportJustified(trace, i, steps)
    ensures ReportJustified(trace + [report], i, steps)
  {
    hide RanBy, MayRepivot;
    forall x | x in trace[i].requeued ensures RanBy(trace + [report], i, x) {
      RanByLater(trace, report, i, x);
    }
  }

  /** The report of a group. */
  lemma GroupReport(st: RunState, steps: seq<Step>, known: set<string>, round: Round) returns (report: Report)
    requires st.groups != map[]
    ensures var after := AfterGroup(st, steps, known, round);
            && after.trace == st.trace + [report]
            && after.completed == st.completed + Finished(report.started, report.timedOut)
            && (forall x :: x in report.requeued ==> x in after.completed && MayRepivot(steps, x))
            && (forall p, q :: 0 <= p < q < |report.requeued| ==> report.requeued[p] != report.requeued[q])
  {
    hide Started, Finished, AllSignals, Applied, Requeue, Annotate, ApplyAll, Resolve, MayRepivot, RetargetSuffix;
    var after := AfterGroup(st, steps, known, round);
    report := after.trace[|st.trace|];
    var current := MinKey(st.groups.Keys);
    var groups := ApplySignals(st.groups - {current}, Resolve(AllSignals(round.outputs)), current, known);
    if st.repivots < MAX_REPIVOTS && round.replacements.Some? && round.replacements.value != [] {
      RequeueMeaning(groups, after.completed, steps, round.replacements.value[0], NextGroup(groups, current));
    }
  }

  lemma AfterGroupRequeues(st: RunState, steps: seq<Step>, known: set<string>, round: Round)
    requires RequeuesJustified(st, steps) && st.groups != map[]
    ensures RequeuesJustified(AfterGroup(st, steps, known, round), steps)
  {
    hide AfterGroup, MayRepivot, RanBy, Finished;
    var report := GroupReport(st, steps, known, round);
    var after := AfterGroup(st, steps, known, round);
    var n := |st.trace|;
    FinishedMembers(report.started, report.timedOut);
    forall x | x in after.completed ensures RanBy(after.trace, n, x) {
      CompletedRan(st.trace, report, st.completed, x);
    }
    forall i | 0 <= i < |after.trace| ensures ReportJustified(after.trace, i, steps) {
      if i < n {
        ReportStays(st.trace, report, i, steps);
      }
    }
  }

  /** Each repivot re-queues an agent at most once, and only one that ran in some group up to then without
      timing out there and whose original step allows it. */
  lemma {:induction false} RunRequeues(steps: seq<Step>, known: set<string>, rounds: seq<Round>)
    ensures RequeuesJustified(Run(steps, known, rounds), steps)
  {
    hide AfterGroup;
    if rounds != [] {
      var init := rounds[..|rounds| - 1];
      RunRequeues(steps, known, init);
      var st := Run(steps, known, init);
      if st.groups != map[] {
        AfterGroupRequeues(st, steps, known, rounds[|rounds| - 1]);
      }
    }
  }

  // ---------------------------------------------------------------- how many groups run

  predicate HasRequest(applied: seq<Signal>) {
    exists s :: s in applied && s.kind == Request
  }

  /** Executed groups after which some request was applied. */
  function RequestRounds(trace: seq<Report>): nat {
    if trace == [] then 0
    else RequestRounds(trace[..|trace| - 1]) + if HasRequest(trace[|trace| - 1].applied) then 1 else 0
  }

  lemma {:induction false} EmptyPlanStaysEmpty(signals: seq<Signal>, next: nat, known: set<string>)
    requires !HasRequest(Applied(map[], signals, next, known))
    ensures ApplyAll(map[], signals, next, known) == map[]
  {
    if signals != [] {
      var init, last := signals[..|signals| - 1], signals[|signals| - 1];
      var applied := Applied(map[], signals, next, known);
      assert forall s :: s in Applied(map[], init, next, known) ==> s in applied;
      EmptyPlanStaysEmpty(init, next, known);
      assert Fires(map[], last, next, known) ==> last in applied;
    }
  }

  lemma SubsetSize(a: set<nat>, b: set<nat>)
    requires a <= b
    ensures |a| <= |b|
  {
    assert b == a + (b - a);
  }

  /** Signals add at most one group, and only by a request into an empty plan. */
  lemma SignalsAddOneGroup(groups: Groups, signals: seq<Signal>, current: nat, known: set<string>)
    requires Filed(groups, current)
    ensures var after := ApplySignals(groups, signals, current, known);
            |after| <= |groups| + if HasRequest(Applied(groups, signals, NextGroup(groups, current), known)) then 1 else 0
  {
    var next := NextGroup(groups, current);
    var after := ApplySignals(groups, signals, current, known);
    NextIsLater(groups, current);
    ApplyAllFiled(groups, signals, next, known, current);
    if groups != map[] {
      assert groups.Keys + {next} == groups.Keys;
      SubsetSize(after.Keys, groups.Keys);
    } else {
      SubsetSize(after.Keys, {next});
      if !HasRequest(Applied(groups, signals, next, known)) {
        EmptyPlanStaysEmpty(signals, next, known);
      }
    }
  }

  lemma RequeueAddsOneGroup(groups: Groups, completed: seq<string>, steps: seq<Step>, a: Artifact, current: nat)
    requires Filed(groups, current)
    ensures |Requeue(groups, completed, steps, a, NextGroup(groups, current)).0| <= |groups| + 1
  {
    var next := NextGroup(groups, current);
    NextIsLater(groups, current);
    RequeueFiled(groups, completed, steps, a, next, current);
    SubsetSize(Requeue(groups, completed, steps, a, next).0.Keys, groups.Keys + {next});
  }

  /** Groups run plus groups planned. */
  function Work(st: RunState): nat { |st.trace| + |st.groups| }

  lemma AfterGroupWork(st: RunState, steps: seq<Step>, known: set<string>, round: Round)
    requires InOrder(st) && st.groups != map[]
    ensures var after := AfterGroup(st, steps, known, round);
            Work(after) - RequestRounds(after.trace) - after.repivots <= Work(st) - RequestRounds(st.trace) - st.repivots
    ensures st.repivots <= MAX_REPIVOTS ==> AfterGroup(st, steps, known, round).repivots <= MAX_REPIVOTS
  {
    hide Started, Finished, AllSignals, Applied, Requeue, Annotate, ApplyAll, Resolve, HasRequest;
    var current := MinKey(st.groups.Keys);
    var rest := st.groups - {current};
    RestFiled(st.groups, LastGroup(st.trace));
    assert st.groups.Keys == rest.Keys + {current};
    var resolved := Resolve(AllSignals(round.outputs));
    NextIsLater(rest, current);
    ApplyAllFiled(rest, resolved, NextGroup(rest, current), known, current);
    SignalsAddOneGroup(rest, resolved, current, known);
    var groups := ApplySignals(rest, resolved, current, known);
    var completed := st.completed + Finished(Started(st.groups[current], round.found), round.timedOut);
    var after := AfterGroup(st, steps, known, round);
    assert after.trace[..|st.trace|] == st.trace;
    if st.repivots < MAX_REPIVOTS && round.replacements.Some? && round.replacements.value != [] {
      var a := round.replacements.value[0];
      RequeueAddsOneGroup(groups, completed, steps, a, current);
      SameAgents(Requeue(groups, completed, steps, a, NextGroup(groups, current)).0, RetargetSuffix(a));
      assert after.groups.Keys == Requeue(groups, completed, steps, a, NextGroup(groups, current)).0.Keys;
    }
  }

  /** The number of groups ever executed is at most the initial groups, plus the rounds that applied a
      request, plus the repivots, of which there are at most `MAX_REPIVOTS`. */
  lemma {:induction false} RunBound(steps: seq<Step>, known: set<string>, rounds: seq<Round>)
    ensures var st := Run(steps, known, rounds);
            && st.repivots <= MAX_REPIVOTS
            && Work(st) <= |InitialGroups(steps)| + RequestRounds(st.trace) + st.repivots
  {
    hide AfterGroup;
    if rounds != [] {
      var init := rounds[..|rounds| - 1];
      RunBound(steps, known, init);
      RunInOrder(steps, known, init);
      var st := Run(steps, known, init);
      if st.groups != map[] {
        AfterGroupWork(st, steps, known, rounds[|rounds| - 1]);
      }
    }
  }

  lemma {:induction false} RunLength(steps: seq<Step>, known: set<string>, rounds: seq<Round>)
    ensures var st := Run(steps, known, rounds); st.groups == map[] || |st.trace| == |rounds|
  {
    hide AfterGroup;
    if rounds != [] {
      var init := rounds[..|rounds| - 1];
      RunLength(steps, known, init);
      var st := Run(steps, known, init);
      if st.groups != map[] {
        TraceGrows(st, steps, known, rounds[|rounds| - 1]);
      }
    }
  }

  /** A workflow ends: once the environment has answered that many groups, nothing is planned any more. */
  lemma RunEnds(steps: seq<Step>, known: set<string>, rounds: seq<Round>)
    requires |rounds| >= |InitialGroups(steps)| + RequestRounds(Run(steps, known, rounds).trace) + MAX_REPIVOTS
    ensures Run(steps, known, rounds).groups == map[]
  {
    RunBound(steps, known, rounds);
    RunLength(steps, known, rounds);
    assert |Run(steps, known, rounds).groups| == 0;
  }

  // ---------------------------------------------------------------- where an agent's turns come from

  function AsCount(b: bool): nat { if b then 1 else 0 }

  function CountSignals(applied: seq<Signal>, kind: SignalKind, agent: string): nat {
    if applied == [] then 0
    else
      var last := applied[|applied| - 1];
      CountSignals(applied[..|applied| - 1], kind, agent) + AsCount(last.kind == kind && last.target == agent)
  }

  function TimesTaken(trace: seq<Report>, agent: string): nat {
    if trace == [] then 0
    else TimesTaken(trace[..|trace| - 1], agent) + AsCount(HasAgent(trace[|trace| - 1].taken, agent))
  }

  function TimesSignalled(trace: seq<Report>, kind: SignalKind, agent: string): nat {
    if trace == [] then 0
    else TimesSignalled(trace[..|trace| - 1], kind, agent) + CountSignals(trace[|trace| - 1].applied, kind, agent)
  }

  function TimesRequeued(trace: seq<Report>, agent: string): nat {
    if trace == [] then 0
    else TimesRequeued(trace[..|trace| - 1], agent) + AsCount(agent in trace[|trace| - 1].requeued)
  }

  function Planned(groups: Groups, agent: string): nat { AsCount(agent in Agents(groups)) }

  /** One signal: what it plans or removes is what is reported. */
  lemma OneBalance(groups: Groups, sig: Signal, next: nat, known: set<string>, agent: string)
    ensures var fires := Fires(groups, sig, next, known) && sig.target == agent;
            Planned(ApplyOne(groups, sig, next, known), agent) + AsCount(fires && sig.kind == Skip)
            == Planned(groups, agent) + AsCount(fires && sig.kind == Request)
  {
    hide ApplyOne, AlreadyPlanned, Agents, Sources;
    ApplyOneAgents(groups, sig, next, known);
    PlannedIsPlaced(sig.target, groups);
  }

  lemma AppliedLast(groups: Groups, signals: seq<Signal>, next: nat, known: set<string>)
    requires signals != []
    ensures var init, last := signals[..|signals| - 1], signals[|signals| - 1];
            var before := ApplyAll(groups, init, next, known);
            && ApplyAll(groups, signals, next, known) == ApplyOne(before, last, next, known)
            && Applied(groups, signals, next, known) ==
               if Fires(before, last, next, known) then Applied(groups, init, next, known) + [last] else Applied(groups, init, next, known)
  {
    hide ApplyOne, Fires;
  }

  lemma CountLast(applied: seq<Signal>, last: Signal, kind: SignalKind, agent: string)
    ensures CountSignals(applied + [last], kind, agent) ==
            CountSignals(applied, kind, agent) + AsCount(last.kind == kind && last.target == agent)
  {
    assert (applied + [last])[..|applied|] == applied;
  }

  lemma {:induction false} SignalsBalance(groups: Groups, signals: seq<Signal>, next: nat, known: set<string>, agent: string)
    ensures var applied := Applied(groups, signals, next, known);
            Planned(ApplyAll(groups, signals, next, known), agent) + CountSignals(applied, Skip, agent)
            == Planned(groups, agent) + CountSignals(applied, Request, agent)
    decreases |signals|, 1
  {
    if signals == [] {
      assert Applied(groups, signals, next, known) == [];
    } else {
      BalanceLast(groups, signals, next, known, agent);
    }
  }

  lemma {:induction false} BalanceLast(groups: Groups, signals: seq<Signal>, next: nat, known: set<string>, agent: string)
    requires signals != []
    ensures var applied := Applied(groups, signals, next, known);
            Planned(ApplyAll(groups, signals, next, known), agent) + CountSignals(applied, Skip, agent)
            == Planned(groups, agent) + CountSignals(applied, Request, agent)
    decreases |signals|, 0
  {
    hide ApplyAll, Applied, ApplyOne, Fires, Planned, CountSignals;
    var init, last := signals[..|signals| - 1], signals[|signals| - 1];
    SignalsBalance(groups, init, next, known, agent);
    AppliedLast(groups, signals, next, known);
    OneBalance(ApplyAll(groups, init, next, known), last, next, known, agent);
    CountLast(Applied(groups, init, next, known), last, Skip, agent);
    CountLast(Applied(groups, init, next, known), last, Request, agent);
  }

  lemma TakeBalance(groups: Groups, k: nat, agent: string)
    requires Unique(groups) && k in groups
    ensures Planned(groups, agent) == Planned(groups - {k}, agent) + AsCount(HasAgent(groups[k], agent))
  {
    PlannedIsPlaced(agent, groups);
    PlannedIsPlaced(agent, groups - {k});
    if HasAgent(groups[k], agent) {
      var i :| 0 <= i < |groups[k]| && groups[k][i].agent == agent;
      assert Placed(groups, k, groups[k][i]);
    }
    assert forall j, s :: Placed(groups - {k}, j, s) <==> Placed(groups, j, s) && j != k;
    forall s | s in groups[k] && s.agent == agent ensures HasAgent(groups[k], agent) {
    }
  }

  lemma AfterGroupBalance(st: RunState, steps: seq<Step>, known: set<string>, round: Round, agent: string)
    requires Unique(st.groups) && st.groups != map[]
    ensures var after := AfterGroup(st, steps, known, round);
            var report := after.trace[|after.trace| - 1];
            && after.trace == st.trace + [report]
            && AsCount(HasAgent(report.taken, agent)) + Planned(after.groups, agent) + CountSignals(report.applied, Skip, agent)
               == Planned(st.groups, agent) + CountSignals(report.applied, Request, agent) + AsCount(agent in report.requeued)
  {
    hide Started, Finished, AllSignals, Applied, Requeue, Annotate, ApplyAll, Resolve, CountSignals, HasAgent, Agents;
    var current := MinKey(st.groups.Keys);
    var rest := st.groups - {current};
    TakeBalance(st.groups, current, agent);
    var resolved := Resolve(AllSignals(round.outputs));
    SignalsBalance(rest, resolved, NextGroup(rest, current), known, agent);
    var groups := ApplySignals(rest, resolved, current, known);
    var completed := st.completed + Finished(Started(st.groups[current], round.found), round.timedOut);
    if st.repivots < MAX_REPIVOTS && round.replacements.Some? && round.replacements.value != [] {
      var a := round.replacements.value[0];
      var next := NextGroup(groups, current);
      RequeueMeaning(groups, completed, steps, a, next);
      AnnotateAgents(Requeue(groups, completed, steps, a, next).0, RetargetSuffix(a));
    }
  }

  /** Every turn of an agent has exactly one cause: it was in the original plan, a request was applied for
      it or a repivot re-queued it; and every cause ends in a turn, a skip or a place in the plan. */
  lemma {:induction false} RunBalance(steps: seq<Step>, known: set<string>, rounds: seq<Round>, agent: string)
    requires DistinctAgents(steps)
    ensures var st := Run(steps, known, rounds);
            TimesTaken(st.trace, agent) + Planned(st.groups, agent) + TimesSignalled(st.trace, Skip, agent)
            == Planned(InitialGroups(steps), agent) + TimesSignalled(st.trace, Request, agent) + TimesRequeued(st.trace, agent)
  {
    hide AfterGroup;
    if rounds != [] {
      var init := rounds[..|rounds| - 1];
      RunBalance(steps, known, init, agent);
      RunUnique(steps, known, init);
      var st := Run(steps, known, init);
      if st.groups != map[] {
        AfterGroupBalance(st, steps, known, rounds[|rounds| - 1], agent);
        var after := AfterGroup(st, steps, known, rounds[|rounds| - 1]);
        assert after.trace[..|after.trace| - 1] == st.trace;
      }
    }
  }
}
