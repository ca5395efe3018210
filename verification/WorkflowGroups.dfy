/** What one executed group does: who starts and finishes in it, which signals are reported, and where what it
    adds to the plan is put. */
module WorkflowGroups {
  import opened Wrappers
  import opened Signals
  import opened SignalParser
  import opened Plan
  import opened Routing
  import opened Workflow
  import opened WorkflowRuns

  // ---------------------------------------------------------------- the first plan

  /** The m-th step filed under `k` is the one at `at[m]`: all steps of that number, in order. */
  ghost predicate FiledFrom(steps: seq<Step>, k: nat, filed: seq<Step>, at: seq<nat>) {
    && |at| == |filed|
    && (forall m :: 0 <= m < |at| ==> at[m] < |steps| && filed[m] == steps[at[m]])
    && (forall i: nat :: i in at <==> i < |steps| && steps[i].group == k)
    && (forall m, n :: 0 <= m < n < |at| ==> at[m] < at[n])
  }

  /** The plan a run starts with: every step under its number, in the order of the workflow. */
  lemma {:induction false} InitialMeaning(steps: seq<Step>, k: nat) returns (at: seq<nat>)
    ensures var groups := InitialGroups(steps);
            && (k in groups ==> groups[k] != [])
            && FiledFrom(steps, k, if k in groups then groups[k] else [], at)
  {
    hide FiledFrom;
    if steps == [] {
      at := [];
      NothingFiled(k);
    } else {
      var init, last := steps[..|steps| - 1], steps[|steps| - 1];
      at := InitialMeaning(init, k);
      var filed := if k in InitialGroups(init) then InitialGroups(init)[k] else [];
      FiledOneMore(init, last, k, filed, at);
      assert steps == init + [last];
      at := if last.group == k then at + [|init|] else at;
    }
  }

  lemma NothingFiled(k: nat)
    ensures FiledFrom([], k, [], [])
  {
  }

  lemma FiledOneMore(init: seq<Step>, s: Step, k: nat, filed: seq<Step>, at: seq<nat>)
    requires FiledFrom(init, k, filed, at)
    ensures s.group == k ==> FiledFrom(init + [s], k, filed + [s], at + [|init|])
    ensures s.group != k ==> FiledFrom(init + [s], k, filed, at)
  {
    var steps := init + [s];
    assert forall i: nat :: i < |init| ==> steps[i] == init[i];
    assert steps[|init|] == s;
  }

  // ---------------------------------------------------------------- who starts

  /** The m-th agent started is the one of the step at `at[m]`: every step whose agent is found starts once,
      all parallel ones before the others, and otherwise in the order of the steps. */
  ghost predicate StartedFrom(taken: seq<Step>, found: set<string>, started: seq<string>, at: seq<nat>) {
    && |at| == |started|
    && (forall m :: 0 <= m < |at| ==> at[m] < |taken| && started[m] == taken[at[m]].agent)
    && (forall i: nat :: i in at <==> i < |taken| && taken[i].agent in found)
    && (forall m, n :: 0 <= m < n < |at| ==> InTurn(taken, at[m], at[n]))
  }

  ghost predicate InTurn(taken: seq<Step>, i: nat, j: nat) {
    && i < |taken| && j < |taken|
    && if taken[i].parallel == taken[j].parallel then i < j else taken[i].parallel
  }

  /** The same for one of the two parts. */
  ghost predicate PartFrom(taken: seq<Step>, parallel: bool, found: set<string>, started: seq<string>, at: seq<nat>) {
    && |at| == |started|
    && (forall m :: 0 <= m < |at| ==> at[m] < |taken| && started[m] == taken[at[m]].agent)
    && (forall i: nat :: i in at <==> i < |taken| && taken[i].parallel == parallel && taken[i].agent in found)
    && (forall m, n :: 0 <= m < n < |at| ==> at[m] < at[n])
  }

  lemma {:induction false} PartMeaning(taken: seq<Step>, parallel: bool, found: set<string>) returns (at: seq<nat>)
    ensures PartFrom(taken, parallel, found, StartedOf(taken, parallel, found), at)
  {
    at := [];
    if taken != [] {
      var n := |taken| - 1;
      at := PartMeaning(taken[..n], parallel, found);
      if taken[n].parallel == parallel && taken[n].agent in found {
        at := at + [n];
      }
    }
  }

  lemma StartedMeaning(taken: seq<Step>, found: set<string>) returns (at: seq<nat>)
    ensures StartedFrom(taken, found, Started(taken, found), at)
  {
    var first := PartMeaning(taken, true, found);
    var second := PartMeaning(taken, false, found);
    hide StartedOf;
    at := first + second;
    forall m, n | 0 <= m < n < |at| ensures InTurn(taken, at[m], at[n]) {
      assert at[m] == if m < |first| then first[m] else second[m - |first|];
      assert at[n] == if n < |first| then first[n] else second[n - |first|];
      assert m < |first| ==> first[m] in first;
      assert n >= |first| ==> second[n - |first|] in second;
    }
  }

  /** The m-th agent that finished is the one started at `at[m]`: everyone who did not time out, in order. */
  ghost predicate FinishedFrom(started: seq<string>, timedOut: set<string>, finished: seq<string>, at: seq<nat>) {
    && |at| == |finished|
    && (forall m :: 0 <= m < |at| ==> at[m] < |started| && finished[m] == started[at[m]])
    && (forall i: nat :: i in at <==> Finishes(started, timedOut, i))
    && (forall m, n :: 0 <= m < n < |at| ==> at[m] < at[n])
  }

  predicate Finishes(started: seq<string>, timedOut: set<string>, i: nat) {
    i < |started| && started[i] !in timedOut
  }

  lemma FinishedOneMore(init: seq<string>, x: string, timedOut: set<string>, finished: seq<string>, at: seq<nat>)
    requires FinishedFrom(init, timedOut, finished, at)
    ensures x in timedOut ==> FinishedFrom(init + [x], timedOut, finished, at)
    ensures x !in timedOut ==> FinishedFrom(init + [x], timedOut, finished + [x], at + [|init|])
  {
    var started := init + [x];
    forall i: nat ensures Finishes(started, timedOut, i) <==> Finishes(init, timedOut, i) || (i == |init| && x !in timedOut) {
    }
    hide Finishes;
  }

  lemma {:induction false} FinishedMeaning(started: seq<string>, timedOut: set<string>) returns (at: seq<nat>)
    ensures FinishedFrom(started, timedOut, Finished(started, timedOut), at)
  {
    hide FinishedFrom;
    if started == [] {
      at := [];
      NobodyFinished(timedOut);
    } else {
      var init, last := started[..|started| - 1], started[|started| - 1];
      at := FinishedMeaning(init, timedOut);
      FinishedOneMore(init, last, timedOut, Finished(init, timedOut), at);
      FinishedLast(init, last, timedOut);
      assert started == init + [last];
      at := if last in timedOut then at else at + [|init|];
    }
  }

  lemma NobodyFinished(timedOut: set<string>)
    ensures Finished([], timedOut) == [] && FinishedFrom([], timedOut, [], [])
  {
  }

  lemma CountOneMore(s: seq<string>, last: string, x: string)
    ensures multiset(s + [last])[x] == multiset(s)[x] + if last == x then 1 else 0
  {
  }

  lemma {:induction false} FinishedCounts(started: seq<string>, timedOut: set<string>, x: string)
    ensures multiset(Finished(started, timedOut))[x] == if x in timedOut then 0 else multiset(started)[x]
  {
    hide Finished;
    if started == [] {
      NobodyFinished(timedOut);
    } else {
      var init, last := started[..|started| - 1], started[|started| - 1];
      FinishedCounts(init, timedOut, x);
      FinishedLast(init, last, timedOut);
      assert started == init + [last];
      CountOneMore(init, last, x);
      CountOneMore(Finished(init, timedOut), last, x);
    }
  }

  /** How often the agent has finished in these groups. */
  function TimesFinished(trace: seq<Report>, x: string): nat {
    if trace == [] then 0
    else
      var last := trace[|trace| - 1];
      TimesFinished(trace[..|trace| - 1], x) + if x in last.timedOut then 0 else multiset(last.started)[x]
  }

  /** One group is reported: the steps of the least group, who started of them, who timed out. Whoever did not
      has completed. */
  lemma GroupStarts(st: RunState, steps: seq<Step>, known: set<string>, round: Round)
    returns (report: Report, at: seq<nat>, done: seq<nat>)
    requires st.groups != map[]
    ensures var after := AfterGroup(st, steps, known, round);
            && after.trace == st.trace + [report]
            && report.group in st.groups && (forall k :: k in st.groups ==> report.group <= k)
            && report.taken == st.groups[report.group] && report.timedOut == round.timedOut
            && StartedFrom(report.taken, round.found, report.started, at)
            && st.completed <= after.completed
            && FinishedFrom(report.started, report.timedOut, after.completed[|st.completed|..], done)
            && after.completed == st.completed + Finished(report.started, report.timedOut)
  {
    hide Started, Finished, AllSignals, Applied, Requeue, Annotate, ApplyAll, Resolve, RetargetSuffix, StartedFrom, FinishedFrom;
    var after := AfterGroup(st, steps, known, round);
    report := after.trace[|st.trace|];
    at := StartedMeaning(report.taken, round.found);
    done := FinishedMeaning(report.started, report.timedOut);
    assert after.completed[|st.completed|..] == Finished(report.started, report.timedOut);
  }

  /** In every run: of the steps taken for a group exactly those start whose agent is found, and an agent counts
      as completed exactly as often as it started without timing out. */
  ghost predicate Accounted(st: RunState, rounds: seq<Round>) {
    && |st.trace| <= |rounds|
    && (forall i :: 0 <= i < |st.trace| ==>
          st.trace[i].timedOut == rounds[i].timedOut && StartsAsFound(st.trace[i], rounds[i].found))
    && (forall x :: multiset(st.completed)[x] == TimesFinished(st.trace, x))
  }

  ghost predicate StartsAsFound(report: Report, found: set<string>) {
    exists at :: StartedFrom(report.taken, found, report.started, at)
  }

  lemma CompletedOneMore(completed: seq<string>, trace: seq<Report>, report: Report, x: string)
    requires multiset(completed)[x] == TimesFinished(trace, x)
    ensures multiset(completed + Finished(report.started, report.timedOut))[x] == TimesFinished(trace + [report], x)
  {
    FinishedCounts(report.started, report.timedOut, x);
    hide Finished;
    assert (trace + [report])[..|trace|] == trace;
  }

  lemma GroupAccounted(st: RunState, steps: seq<Step>, known: set<string>, rounds: seq<Round>, round: Round)
    requires st.groups != map[] && Accounted(st, rounds) && |st.trace| == |rounds|
    ensures Accounted(AfterGroup(st, steps, known, round), rounds + [round])
  {
    hide AfterGroup, Finished, StartedFrom, FinishedFrom, TimesFinished;
    var report, at, done := GroupStarts(st, steps, known, round);
    var after := AfterGroup(st, steps, known, round);
    forall x ensures multiset(after.completed)[x] == TimesFinished(after.trace, x) {
      CompletedOneMore(st.completed, st.trace, report, x);
    }
    forall i | 0 <= i < |after.trace|
      ensures after.trace[i].timedOut == (rounds + [round])[i].timedOut && StartsAsFound(after.trace[i], (rounds + [round])[i].found)
    {
      if i < |st.trace| {
        assert after.trace[i] == st.trace[i];
      }
    }
  }

  lemma AccountedLonger(st: RunState, rounds: seq<Round>, round: Round)
    requires Accounted(st, rounds)
    ensures Accounted(st, rounds + [round])
  {
    hide StartsAsFound, TimesFinished;
  }

  lemma {:induction false} RunStarts(steps: seq<Step>, known: set<string>, rounds: seq<Round>)
    ensures Accounted(Run(steps, known, rounds), rounds)
  {
    hide AfterGroup, Accounted;
    if rounds == [] {
      NothingAccounted(steps);
    } else {
      var init, last := rounds[..|rounds| - 1], rounds[|rounds| - 1];
      RunStarts(steps, known, init);
      RunLength(steps, known, init);
      assert rounds == init + [last];
      var st := Run(steps, known, init);
      if st.groups == map[] {
        AccountedLonger(st, init, last);
      } else {
        GroupAccounted(st, steps, known, init, last);
      }
    }
  }

  lemma NothingAccounted(steps: seq<Step>)
    ensures Accounted(Initial(steps), [])
  {
  }
}
