/** What repivots do to prompts and agents: which planned steps name the new artifact, and how often an agent
    comes back. */
module Repivots {
  import opened Wrappers
  import opened Text
  import opened Signals
  import opened SignalParser
  import opened Plan
  import opened Workflow
  import opened WorkflowRuns

  predicate EndsWith(s: string, end: string) {
    |end| <= |s| && s[|s| - |end|..] == end
  }

  lemma EndsAppended(s: string, end: string)
    ensures EndsWith(s + end, end)
  {
  }

  lemma ContainsAppended(head: string, mid: string, tail: string)
    ensures Contains(head + mid + tail, mid)
  {
    assert OccursAt(head + mid + tail, mid, |head|);
  }

  lemma SuffixMarks(prompt: string, a: Artifact)
    ensures Contains(prompt + RetargetSuffix(a), RETARGET)
  {
    hide RetargetNote, Contains;
    ContainsAppended(prompt + " ", RETARGET, RetargetNote(a));
    assert prompt + RetargetSuffix(a) == prompt + " " + RETARGET + RetargetNote(a);
  }

  /** A notice names the new artifact, its file and the one it replaces. */
  lemma NoticeNames(a: Artifact)
    ensures Contains(RetargetSuffix(a), a.id) && Contains(RetargetSuffix(a), a.filename) && Contains(RetargetSuffix(a), a.original)
  {
    hide Contains;
    var head := " " + RETARGET + " analyze new artifact ";
    assert RetargetSuffix(a) == head + a.id + (" (" + a.filename + ") instead of original " + a.original + "]");
    assert RetargetSuffix(a) == (head + a.id + " (") + a.filename + (") instead of original " + a.original + "]");
    assert RetargetSuffix(a) == (head + a.id + " (" + a.filename + ") instead of original ") + a.original + "]";
    ContainsAppended(head, a.id, " (" + a.filename + ") instead of original " + a.original + "]");
    ContainsAppended(head + a.id + " (", a.filename, ") instead of original " + a.original + "]");
    ContainsAppended(head + a.id + " (" + a.filename + ") instead of original ", a.original, "]");
  }

  // ---------------------------------------------------------------- which steps name the artifact

  /** A step planned before the repivot that gets its notice, or already had the very same one. */
  ghost predicate Renamed(groups: Groups, a: Artifact, k: nat, s: Step) {
    exists t :: Placed(groups, k, t) && s == AnnotateStep(t, RetargetSuffix(a)) &&
                (!Contains(t.prompt, RETARGET) || EndsWith(t.prompt, RetargetSuffix(a)))
  }

  lemma AnnotatedEnds(t: Step, a: Artifact)
    ensures EndsWith(AnnotateStep(t, RetargetSuffix(a)).prompt, RetargetSuffix(a)) <==>
            !Contains(t.prompt, RETARGET) || EndsWith(t.prompt, RetargetSuffix(a))
  {
    hide Contains, RetargetSuffix;
    EndsAppended(t.prompt, RetargetSuffix(a));
  }

  lemma RequeuedEnds(steps: seq<Step>, agent: string, next: nat, a: Artifact)
    ensures var s := RequeuedStep(steps, agent, next, a);
            EndsWith(s.prompt, RetargetSuffix(a)) && AnnotateStep(s, RetargetSuffix(a)) == s
  {
    hide Contains, RetargetSuffix;
    var prompt := if FindStep(steps, agent).Some? then FindStep(steps, agent).value.prompt else "";
    EndsAppended(prompt, RetargetSuffix(a));
    SuffixMarks(prompt, a);
    assert "" + RetargetSuffix(a) == RetargetSuffix(a);
  }

  lemma RenamedEnds(groups: Groups, a: Artifact, k: nat, s: Step)
    requires Renamed(groups, a, k, s)
    ensures EndsWith(s.prompt, RetargetSuffix(a))
  {
    hide Contains, RetargetSuffix, EndsWith, AnnotateStep, Placed;
    var t :| Placed(groups, k, t) && s == AnnotateStep(t, RetargetSuffix(a)) &&
             (!Contains(t.prompt, RETARGET) || EndsWith(t.prompt, RetargetSuffix(a)));
    AnnotatedEnds(t, a);
  }

  lemma RequeuedOnesEnd(names: seq<string>, steps: seq<Step>, a: Artifact, next: nat, s: Step)
    requires IsRequeued(names, steps, a, next, s)
    ensures EndsWith(s.prompt, RetargetSuffix(a)) && AnnotateStep(s, RetargetSuffix(a)) == s
  {
    hide EndsWith, RetargetSuffix, RequeuedStep, AnnotateStep;
    RequeuedEnds(steps, s.agent, next, a);
  }

  lemma RequeuePlaces(groups: Groups, completed: seq<string>, steps: seq<Step>, a: Artifact, next: nat, k: nat, t: Step)
    requires Placed(Requeue(groups, completed, steps, a, next).0, k, t)
    ensures Placed(groups, k, t) || (k == next && IsRequeued(Requeue(groups, completed, steps, a, next).1, steps, a, next, t))
  {
    hide Requeue, Placed, IsRequeued, Agents, Unique, MayRepivot;
    RequeueMeaning(groups, completed, steps, a, next);
  }

  /** Where a step comes from that is planned after a repivot. */
  lemma Origin(groups: Groups, completed: seq<string>, steps: seq<Step>, a: Artifact, next: nat, k: nat, s: Step) returns (t: Step)
    requires Placed(Annotate(Requeue(groups, completed, steps, a, next).0, RetargetSuffix(a)), k, s)
    ensures s == AnnotateStep(t, RetargetSuffix(a))
    ensures Placed(groups, k, t) || (k == next && IsRequeued(Requeue(groups, completed, steps, a, next).1, steps, a, next, t))
  {
    hide RetargetSuffix, Requeue, Annotate, Placed, AnnotateStep, IsRequeued;
    var queued := Requeue(groups, completed, steps, a, next).0;
    t := AnnotatedFrom(queued, RetargetSuffix(a), k, s);
    RequeuePlaces(groups, completed, steps, a, next, k, t);
  }

  /** After a repivot a planned step ends with the notice of the new artifact if and only if it was re-queued
      for it just now, or was planned before and its prompt held no notice (or ended with this very one). */
  lemma NamesTheNewArtifact(groups: Groups, completed: seq<string>, steps: seq<Step>, a: Artifact, next: nat, k: nat, s: Step)
    requires Placed(Annotate(Requeue(groups, completed, steps, a, next).0, RetargetSuffix(a)), k, s)
    ensures EndsWith(s.prompt, RetargetSuffix(a)) <==>
            || (k == next && IsRequeued(Requeue(groups, completed, steps, a, next).1, steps, a, next, s))
            || Renamed(groups, a, k, s)
  {
    hide Contains, RetargetSuffix, Requeue, Annotate, Placed, AnnotateStep, EndsWith, IsRequeued;
    var t := Origin(groups, completed, steps, a, next, k, s);
    var names := Requeue(groups, completed, steps, a, next).1;
    AnnotatedEnds(t, a);
    if k == next && IsRequeued(names, steps, a, next, t) {
      RequeuedOnesEnd(names, steps, a, next, t);
    }
    if IsRequeued(names, steps, a, next, s) {
      RequeuedOnesEnd(names, steps, a, next, s);
    }
    if Renamed(groups, a, k, s) {
      RenamedEnds(groups, a, k, s);
    }
  }

  /** The first notice stays: a later repivot changes no prompt that has one, whatever artifact it names. */
  lemma FirstNoticeStays(groups: Groups, a: Artifact, b: Artifact)
    ensures Annotate(Annotate(groups, RetargetSuffix(a)), RetargetSuffix(b)) == Annotate(groups, RetargetSuffix(a))
  {
    hide Contains, RetargetSuffix;
    forall k, i | k in groups && 0 <= i < |groups[k]|
      ensures Contains(AnnotateStep(groups[k][i], RetargetSuffix(a)).prompt, RETARGET)
    {
      SuffixMarks(groups[k][i].prompt, a);
    }
    var once := Annotate(groups, RetargetSuffix(a));
    var twice := Annotate(once, RetargetSuffix(b));
    forall k | k in groups ensures twice[k] == once[k] {
      assert |twice[k]| == |once[k]|;
    }
  }

  // ---------------------------------------------------------------- a run with a stale notice

  /** A round in which nothing happens but that an artifact is replaced. */
  function Replacing(found: set<string>, a: Artifact): Round {
    Round(found, {}, [], Some([a]))
  }

  lemma NoSignals(groups: Groups, current: nat, known: set<string>, found: set<string>, a: Artifact)
    ensures Resolve(AllSignals(Replacing(found, a).outputs)) == []
    ensures ApplySignals(groups, [], current, known) == groups
    ensures Applied(groups, [], NextGroup(groups, current), known) == []
  {
  }

  lemma {:induction false} NobodyStarts(steps: seq<Step>, parallel: bool)
    ensures StartedOf(steps, parallel, {}) == []
  {
    if steps != [] {
      NobodyStarts(steps[..|steps| - 1], parallel);
    }
  }

  /** When no agent of the group resolves, only the notice is added. */
  lemma QuietRound(st: RunState, steps: seq<Step>, known: set<string>, a: Artifact)
    requires st.groups != map[] && st.repivots < MAX_REPIVOTS && st.completed == []
    ensures var after := AfterGroup(st, steps, known, Replacing({}, a));
            && after.groups == Annotate(st.groups - {MinKey(st.groups.Keys)}, RetargetSuffix(a))
            && after.repivots == st.repivots + 1 && after.completed == []
  {
    hide Annotate, RetargetSuffix, ApplySignals, Resolve, AllSignals, Applied;
    var current := MinKey(st.groups.Keys);
    NoSignals(st.groups - {current}, current, known, {}, a);
    NobodyStarts(st.groups[current], true);
    NobodyStarts(st.groups[current], false);
  }

  lemma TwoQuietRounds(steps: seq<Step>, known: set<string>, a: Artifact, b: Artifact)
    requires InitialGroups(steps).Keys == {1, 2, 3}
    ensures Run(steps, known, [Replacing({}, a), Replacing({}, b)]).groups ==
            Annotate(Annotate(InitialGroups(steps) - {1}, RetargetSuffix(a)) - {2}, RetargetSuffix(b))
    ensures Run(steps, known, [Replacing({}, a), Replacing({}, b)]).repivots == 2
  {
    hide Annotate, RetargetSuffix, AfterGroup, InitialGroups;
    var rounds := [Replacing({}, a), Replacing({}, b)];
    var start := Initial(steps);
    var g := InitialGroups(steps);
    assert rounds[..1] == [Replacing({}, a)] && rounds[..1][..0] == [];
    assert 1 in g.Keys && 2 in g.Keys && 3 in g.Keys;
    assert MinKey(g.Keys) == 1;
    QuietRound(start, steps, known, a);
    var one := Run(steps, known, rounds[..1]);
    assert Run(steps, known, []) == start;
    SameAgents(g - {1}, RetargetSuffix(a));
    assert 2 in one.groups && 3 in one.groups && 1 !in one.groups;
    assert MinKey(one.groups.Keys) == 2;
    QuietRound(one, steps, known, b);
  }

  lemma PushNew(groups: Groups, k: nat, s: Step)
    requires k !in groups
    ensures Push(groups, k, s) == groups[k := [s]]
  {
    assert [] + [s] == [s];
  }

  lemma InitialLast(steps: seq<Step>, s: Step)
    ensures InitialGroups(steps + [s]) == Push(InitialGroups(steps), s.group, s)
  {
    assert (steps + [s])[..|steps|] == steps;
  }

  lemma OneGroup(s: Step)
    ensures InitialGroups([s]) == map[s.group := [s]]
  {
    hide Push;
    InitialLast([], s);
    PushNew(map[], s.group, s);
    assert [] + [s] == [s];
  }

  lemma ThreeGroups(steps: seq<Step>)
    requires |steps| == 3 && steps[0].group == 1 && steps[1].group == 2 && steps[2].group == 3
    ensures InitialGroups(steps) == map[1 := [steps[0]], 2 := [steps[1]], 3 := [steps[2]]]
  {
    hide Push, InitialGroups;
    OneGroup(steps[0]);
    InitialLast([steps[0]], steps[1]);
    PushNew(map[1 := [steps[0]]], 2, steps[1]);
    InitialLast([steps[0], steps[1]], steps[2]);
    PushNew(map[1 := [steps[0]], 2 := [steps[1]]], 3, steps[2]);
    assert [steps[0]] + [steps[1]] == [steps[0], steps[1]] && steps == [steps[0], steps[1]] + [steps[2]];
  }

  lemma StaleStep(groups: Groups, t: Step, a: Artifact, b: Artifact)
    requires 3 in groups && groups[3] == [t] && !Contains(t.prompt, RETARGET)
    ensures Placed(Annotate(Annotate(groups - {1}, RetargetSuffix(a)) - {2}, RetargetSuffix(b)), 3, t.(prompt := t.prompt + RetargetSuffix(a)))
  {
    hide Contains, RetargetSuffix;
    var s := t.(prompt := t.prompt + RetargetSuffix(a));
    SuffixMarks(t.prompt, a);
    var once := Annotate(groups - {1}, RetargetSuffix(a));
    assert once[3] == [s];
    var twice := Annotate(once - {2}, RetargetSuffix(b));
    assert twice[3] == [s];
    assert twice[3][0] == s;
  }

  lemma EmptyHasNoMark()
    ensures !Contains("", RETARGET)
  {
  }

  /** A planned step may name only the older of two artifacts. */
  lemma NoticeGoesStale(a: Artifact, b: Artifact) returns (steps: seq<Step>, rounds: seq<Round>, s: Step)
    requires !EndsWith(RetargetSuffix(a), RetargetSuffix(b))
    ensures |rounds| == 2 && rounds[0].replacements == Some([a]) && rounds[1].replacements == Some([b])
    ensures var st := Run(steps, {}, rounds);
            st.repivots == 2 && Placed(st.groups, 3, s) && EndsWith(s.prompt, RetargetSuffix(a)) && !EndsWith(s.prompt, RetargetSuffix(b))
  {
    hide RetargetSuffix, InitialGroups, Run, Annotate, Contains, EndsWith, Placed;
    var plain := Step("x", 1, "", true, None, false);
    steps := [plain, plain.(agent := "y", group := 2), plain.(agent := "z", group := 3)];
    rounds := [Replacing({}, a), Replacing({}, b)];
    ThreeGroups(steps);
    assert InitialGroups(steps).Keys == {1, 2, 3};
    TwoQuietRounds(steps, {}, a, b);
    EmptyHasNoMark();
    StaleStep(InitialGroups(steps), steps[2], a, b);
    s := steps[2].(prompt := "" + RetargetSuffix(a));
    EndsAppended("", RetargetSuffix(a));
    assert "" + RetargetSuffix(a) == RetargetSuffix(a);
  }

  // ---------------------------------------------------------------- an agent that comes back every time

  /** One planned step, of this agent, who alone has finished before. */
  ghost predicate OneStep(st: RunState, agent: string, g: nat) {
    && st.groups.Keys == {g} && |st.groups[g]| == 1 && st.groups[g][0].agent == agent && !st.groups[g][0].parallel
    && forall x :: x in st.completed ==> x == agent
  }

  lemma SingleGroup(groups: Groups, g: nat)
    requires groups.Keys == {g}
    ensures MinKey(groups.Keys) == g && groups - {g} == map[]
  {
    assert g in groups.Keys;
  }

  lemma StartsLast(steps: seq<Step>, s: Step, parallel: bool, found: set<string>)
    ensures StartedOf(steps + [s], parallel, found) ==
            StartedOf(steps, parallel, found) + if s.parallel == parallel && s.agent in found then [s.agent] else []
  {
    assert (steps + [s])[..|steps|] == steps;
  }

  lemma OnlyStarts(s: Step)
    requires !s.parallel
    ensures Started([s], {s.agent}) == [s.agent] && Finished([s.agent], {}) == [s.agent]
  {
    StartsLast([], s, true, {s.agent});
    StartsLast([], s, false, {s.agent});
    FinishedLast([], s.agent, {});
    assert [s] == [] + [s] && [s.agent] == [] + [s.agent];
  }

  lemma {:induction false} AllTheSame(completed: seq<string>, agent: string, steps: seq<Step>, a: Artifact, next: nat)
    requires completed != [] && (forall x :: x in completed ==> x == agent) && MayRepivot(steps, agent)
    ensures Requeue(map[], completed, steps, a, next) == (map[next := [RequeuedStep(steps, agent, next, a)]], [agent])
  {
    hide RequeuedStep, MayRepivot;
    var n := |completed| - 1;
    assert completed[n] in completed;
    if n > 0 {
      assert forall x :: x in completed[..n] ==> x in completed;
      AllTheSame(completed[..n], agent, steps, a, next);
      RequeuedAgent(steps, agent, next, a);
      assert [RequeuedStep(steps, agent, next, a)][0].agent == agent;
      assert HasAgent(map[next := [RequeuedStep(steps, agent, next, a)]][next], agent);
    } else {
      PushNew(map[], next, RequeuedStep(steps, agent, next, a));
      assert Requeue(map[], [], steps, a, next) == (map[], []) && completed[..0] == [];
      assert [] + [agent] == [agent];
    }
  }

  lemma RequeuedAgent(steps: seq<Step>, agent: string, next: nat, a: Artifact)
    ensures RequeuedStep(steps, agent, next, a).agent == agent
  {
  }

  lemma RequeuedStays(steps: seq<Step>, agent: string, next: nat, a: Artifact)
    ensures var s := RequeuedStep(steps, agent, next, a);
            Annotate(map[next := [s]], RetargetSuffix(a)) == map[next := [s]]
  {
    hide RetargetSuffix, RequeuedStep;
    RequeuedEnds(steps, agent, next, a);
    var s := RequeuedStep(steps, agent, next, a);
    assert Annotate(map[next := [s]], RetargetSuffix(a))[next] == [s];
  }

  lemma ReturningRound(st: RunState, steps: seq<Step>, agent: string, g: nat, a: Artifact)
    requires OneStep(st, agent, g) && st.repivots < MAX_REPIVOTS && MayRepivot(steps, agent)
    requires FindStep(steps, agent).Some? ==> !FindStep(steps, agent).value.parallel
    ensures var after := AfterGroup(st, steps, {}, Replacing({agent}, a));
            && OneStep(after, agent, g + 1) && after.repivots == st.repivots + 1
            && |after.trace| == |st.trace| + 1 && after.trace[..|st.trace|] == st.trace
            && after.trace[|st.trace|].requeued == [agent]
  {
    hide Annotate, RetargetSuffix, ApplySignals, Resolve, AllSignals, Applied, MayRepivot, FindStep, Started, Finished, Requeue;
    SingleGroup(st.groups, g);
    assert st.groups[g] == [st.groups[g][0]];
    OnlyStarts(st.groups[g][0]);
    NoSignals(map[], g, {}, {agent}, a);
    var completed := st.completed + [agent];
    AllTheSame(completed, agent, steps, a, g + 1);
    RequeuedStays(steps, agent, g + 1, a);
  }

  /** An agent may be re-queued by every repivot of a run, up to `MAX_REPIVOTS`, although the step it is
      re-queued with says that it cannot repivot: only the step of the original workflow is asked. */
  lemma {:induction false} ComesBackEveryTime(agent: string, a: Artifact, n: nat) returns (steps: seq<Step>, rounds: seq<Round>)
    requires n <= MAX_REPIVOTS
    ensures steps == [Step(agent, 1, "", true, None, false)] && |rounds| == n
    ensures var st := Run(steps, {}, rounds);
            && OneStep(st, agent, n + 1) && st.repivots == n && |st.trace| == n
            && forall i :: 0 <= i < n ==> st.trace[i].requeued == [agent]
  {
    steps := [Step(agent, 1, "", true, None, false)];
    if n == 0 {
      rounds := [];
      OneGroup(steps[0]);
    } else {
      hide AfterGroup, InitialGroups;
      var same, before := ComesBackEveryTime(agent, a, n - 1);
      rounds := before + [Replacing({agent}, a)];
      assert rounds[..|rounds| - 1] == before;
      ReturningRound(Run(steps, {}, before), steps, agent, n, a);
    }
  }
}
