/** What the agent loop's counters guarantee over every run, whatever the model answers. */
module AgentLimits {
  import opened Wrappers
  import opened Conversation
  import opened Compaction
  import opened ToolNames
  import opened AgentLoop

  /** How often the log says that the tool was invoked. */
  function Invocations(log: seq<Dispatch>, tool: string): nat {
    if log == [] then 0
    else Invocations(log[..|log| - 1], tool) + if log[|log| - 1] == Dispatch(tool, Invoked) then 1 else 0
  }

  /** Rejections since the last invocation. */
  function Standing(log: seq<Dispatch>): nat {
    if log == [] || log[|log| - 1].verdict == Invoked then 0 else Standing(log[..|log| - 1]) + 1
  }

  lemma LogOneMore(log: seq<Dispatch>, d: Dispatch)
    ensures Standing(log + [d]) == if d.verdict == Invoked then 0 else Standing(log) + 1
    ensures forall tool :: Invocations(log + [d], tool) == Invocations(log, tool) + if d == Dispatch(tool, Invoked) then 1 else 0
  {
    assert (log + [d])[..|log|] == log;
  }

  /** The call may be invoked at all: by the configuration, the native set and the user's grants. */
  predicate Permitted(cfg: Config, enabled: seq<string>, tool: string) {
    && ((cfg.isLocal && tool == DISCOVER) || IsAllowed(tool, cfg.allowed))
    && (cfg.isLocal ==> tool in enabled)
    && (cfg.granted.Some? ==> tool in cfg.granted.value)
  }

  /** The counters agree with the log, and the log keeps the limits. */
  ghost predicate Books(cfg: Config, st: LoopState) {
    && st.callCount == |st.log|
    && st.errors == Standing(st.log)
    && (forall tool :: Invocations(st.log, tool) <= Count(st.counts, tool))
    && (forall tool :: tool in cfg.maxCalls ==> Invocations(st.log, tool) <= cfg.maxCalls[tool])
    && LogPermitted(cfg, st.enabled, st.log)
  }

  lemma MorePermits(cfg: Config, enabled: seq<string>, more: seq<string>, tool: string)
    requires Permitted(cfg, enabled, tool)
    ensures Permitted(cfg, enabled + more, tool)
  {
    hide IsAllowed;
  }

  ghost predicate LogPermitted(cfg: Config, enabled: seq<string>, log: seq<Dispatch>) {
    forall i :: 0 <= i < |log| && log[i].verdict == Invoked ==> Permitted(cfg, enabled, log[i].tool)
  }

  lemma PermittedStays(cfg: Config, enabled: seq<string>, more: seq<string>, log: seq<Dispatch>, d: Dispatch)
    requires LogPermitted(cfg, enabled, log) && (d.verdict == Invoked ==> Permitted(cfg, enabled, d.tool))
    ensures LogPermitted(cfg, enabled + more, log + [d])
  {
    hide Permitted;
    forall i | 0 <= i < |log| + 1 && (log + [d])[i].verdict == Invoked ensures Permitted(cfg, enabled + more, (log + [d])[i].tool) {
      MorePermits(cfg, enabled, more, (log + [d])[i].tool);
    }
  }

  lemma CallKeepsBooks(cfg: Config, st: LoopState, call: ToolCall, answer: CallAnswer)
    requires Books(cfg, st)
    ensures Books(cfg, AfterCall(cfg, st, call, answer))
    ensures st.log <= AfterCall(cfg, st, call, answer).log
  {
    hide IsAllowed, FixupToolName, Invocations, Standing, Permitted, VerdictOf, LogPermitted;
    var after := AfterCall(cfg, st, call, answer);
    var d := after.log[|st.log|];
    LogOneMore(st.log, d);
    VerdictPermits(cfg, st, d.tool, answer.parses);
    var more := after.enabled[|st.enabled|..];
    assert after.enabled == st.enabled + more;
    PermittedStays(cfg, st.enabled, more, st.log, d);
  }

  lemma VerdictPermits(cfg: Config, st: LoopState, tool: string, parses: bool)
    ensures VerdictOf(cfg, st, tool, parses) == Invoked <==>
            && Permitted(cfg, st.enabled, tool)
            && (tool in cfg.maxCalls ==> Count(st.counts, tool) < cfg.maxCalls[tool])
            && parses
  {
    hide IsAllowed;
  }

  lemma {:induction false} CallsKeepBooks(cfg: Config, st: LoopState, calls: seq<ToolCall>, answers: nat -> CallAnswer)
    requires Books(cfg, st)
    ensures var after := AfterCalls(cfg, st, calls, answers);
            && Books(cfg, after) && st.log <= after.log && after.callCount == st.callCount + |calls|
            && after.sent == st.sent && after.retries == st.retries && after.ended == st.ended
  {
    hide Books, AfterCall;
    if calls != [] {
      var n := |calls| - 1;
      CallsKeepBooks(cfg, st, calls[..n], answers);
      var mid := AfterCalls(cfg, st, calls[..n], answers);
      CallKeepsBooks(cfg, mid, calls[n], answers(n));
      CallKeepsCounters(cfg, mid, calls[n], answers(n));
    }
  }

  lemma CallKeepsCounters(cfg: Config, st: LoopState, call: ToolCall, answer: CallAnswer)
    ensures var after := AfterCall(cfg, st, call, answer);
            && after.callCount == st.callCount + 1 && after.sent == st.sent && after.retries == st.retries && after.ended == st.ended
  {
    hide VerdictOf, FixupToolName;
  }

  /** The request was sent below the budget, and with no more rejections standing than the limit. */
  ghost predicate SentInTime(r: Request, log: seq<Dispatch>, budget: nat) {
    r.dispatched <= |log| && r.dispatched < budget && Standing(log[..r.dispatched]) <= MAX_CONSECUTIVE_ERRORS
  }

  ghost predicate Limits(cfg: Config, st: LoopState) {
    && Books(cfg, st)
    && st.retries <= MAX_EMPTY_RETRIES
    && |st.sent| <= cfg.budget + MAX_EMPTY_RETRIES
    && (!st.ended ==> |st.sent| <= st.callCount + st.retries)
    && (forall i :: 0 <= i < |st.sent| ==> SentInTime(st.sent[i], st.log, cfg.budget))
  }

  lemma LongerLog(r: Request, log: seq<Dispatch>, more: seq<Dispatch>, budget: nat)
    requires SentInTime(r, log, budget) && log <= more
    ensures SentInTime(r, more, budget)
  {
    assert more[..r.dispatched] == log[..r.dispatched];
  }

  lemma SendKeeps(cfg: Config, st: LoopState, t: Exchange)
    requires Limits(cfg, st) && !st.ended && MaySend(cfg, st, t)
    ensures var after := AfterSend(cfg, st, t);
            && Books(cfg, after) && after.retries == st.retries && after.callCount == st.callCount
            && |after.sent| == |st.sent| + 1
            && forall i :: 0 <= i < |after.sent| ==> SentInTime(after.sent[i], after.log, cfg.budget)
  {
    hide Checked, UserMessages, Invocations, Standing;
    assert st.log[..|st.log|] == st.log;
  }

  lemma ReplyKeeps(cfg: Config, st: LoopState, t: Exchange)
    requires Books(cfg, st) && st.retries <= MAX_EMPTY_RETRIES && st.callCount < cfg.budget
    requires |st.sent| <= st.callCount + st.retries + 1
    requires forall i :: 0 <= i < |st.sent| ==> SentInTime(st.sent[i], st.log, cfg.budget)
    ensures Limits(cfg, AfterReply(cfg, st, t))
    ensures AfterReply(cfg, st, t).sent == st.sent
  {
    hide Trimmed, AfterCalls, SentInTime, Reinforced, Invocations, Standing, Permitted;
    if t.reply.Said? && t.reply.calls != [] {
      var asked := st.(messages := st.messages + [AssistantMessage(t.reply.text, t.reply.calls)]);
      CallsKeepBooks(cfg, asked, t.reply.calls, t.answers);
      var after := AfterCalls(cfg, asked, t.reply.calls, t.answers);
      forall i | 0 <= i < |st.sent| ensures SentInTime(st.sent[i], after.log, cfg.budget) {
        LongerLog(st.sent[i], st.log, after.log, cfg.budget);
      }
    }
  }

  lemma IterateKeeps(cfg: Config, st: LoopState, t: Exchange)
    requires Limits(cfg, st) && !st.ended
    ensures Limits(cfg, Iterate(cfg, st, t))
    ensures Iterate(cfg, st, t).ended || |Iterate(cfg, st, t).sent| == |st.sent| + 1
  {
    hide AfterReply, AfterSend, UserMessages, SentInTime, Invocations, Standing, Permitted;
    if MaySend(cfg, st, t) {
      SendKeeps(cfg, st, t);
      ReplyKeeps(cfg, AfterSend(cfg, st, t), t);
    }
  }

  lemma SentLog(cfg: Config, st: LoopState, t: Exchange)
    ensures var after := Iterate(cfg, st, t);
            after.sent == if MaySend(cfg, st, t) then AfterSend(cfg, st, t).sent else st.sent
  {
    hide Trimmed, Reinforced, Checked, UserMessages, AfterCalls;
    if MaySend(cfg, st, t) && t.reply.Said? {
      var sent := AfterSend(cfg, st, t);
      CallsKeepSent(cfg, sent.(messages := sent.messages + [AssistantMessage(t.reply.text, t.reply.calls)]), t.reply.calls, t.answers);
    }
  }

  lemma {:induction false} RunKeepsLimits(cfg: Config, msgs: seq<Message>, enabled: seq<string>, turns: seq<Exchange>)
    ensures var st := Run(cfg, Start(msgs, enabled), turns);
            Limits(cfg, st) && |st.sent| <= |turns| && (!st.ended ==> |st.sent| == |turns|)
  {
    if turns != [] {
      hide Limits, Iterate;
      RunKeepsLimits(cfg, msgs, enabled, turns[..|turns| - 1]);
      var st := Run(cfg, Start(msgs, enabled), turns[..|turns| - 1]);
      if !st.ended {
        IterateKeeps(cfg, st, turns[|turns| - 1]);
        SentLog(cfg, st, turns[|turns| - 1]);
      }
    }
  }

  lemma {:induction false} CallsKeepSent(cfg: Config, st: LoopState, calls: seq<ToolCall>, answers: nat -> CallAnswer)
    ensures AfterCalls(cfg, st, calls, answers).sent == st.sent
  {
    if calls != [] {
      var n := |calls| - 1;
      CallsKeepSent(cfg, st, calls[..n], answers);
      hide AfterCall;
      CallKeepsCounters(cfg, AfterCalls(cfg, st, calls[..n], answers), calls[n], answers(n));
    }
  }

  // ---------------------------------------------------------------- the limits, one by one

  /** Every run ends, after at most budget + 2 requests, whatever the model answers. */
  lemma RunEnds(cfg: Config, msgs: seq<Message>, enabled: seq<string>, turns: seq<Exchange>)
    ensures var st := Run(cfg, Start(msgs, enabled), turns);
            && |st.sent| <= cfg.budget + MAX_EMPTY_RETRIES
            && (|turns| > cfg.budget + MAX_EMPTY_RETRIES ==> st.ended)
  {
    RunKeepsLimits(cfg, msgs, enabled, turns);
  }

  /** No registered tool is invoked more often than its limit, nor one that is not permitted. */
  lemma RunInvokesWithinLimits(cfg: Config, msgs: seq<Message>, enabled: seq<string>, turns: seq<Exchange>)
    ensures var st := Run(cfg, Start(msgs, enabled), turns);
            && (forall tool :: tool in cfg.maxCalls ==> Invocations(st.log, tool) <= cfg.maxCalls[tool])
            && (forall i :: 0 <= i < |st.log| && st.log[i].verdict == Invoked ==> Permitted(cfg, st.enabled, st.log[i].tool))
            && st.callCount == |st.log|
  {
    RunKeepsLimits(cfg, msgs, enabled, turns);
  }

  /** Every request goes out below the budget, which only the last batch of calls can exceed, and none while
      more rejections than the limit stand since the last invocation. */
  lemma RunStopsOnErrors(cfg: Config, msgs: seq<Message>, enabled: seq<string>, turns: seq<Exchange>, i: nat)
    requires i < |Run(cfg, Start(msgs, enabled), turns).sent|
    ensures var st := Run(cfg, Start(msgs, enabled), turns);
            var d := st.sent[i].dispatched;
            d <= |st.log| && d < cfg.budget && Standing(st.log[..d]) <= MAX_CONSECUTIVE_ERRORS
  {
    RunKeepsLimits(cfg, msgs, enabled, turns);
    var st := Run(cfg, Start(msgs, enabled), turns);
    assert SentInTime(st.sent[i], st.log, cfg.budget);
  }

  /** Both excesses occur: a run with budget 1 that sends three requests and dispatches two calls. */
  lemma LimitsAreReached(msgs: seq<Message>) returns (cfg: Config, turns: seq<Exchange>)
    ensures var st := Run(cfg, Start(msgs, []), turns);
            |st.sent| == cfg.budget + MAX_EMPTY_RETRIES && st.callCount > cfg.budget
  {
    cfg := Config(false, 1, [], map[], [], None, Memory([], ""), 0);
    var none := (i: nat) => CallAnswer(false, "", None);
    var silent := Exchange([], true, Said("", []), none, "", 0, Some([]), Memory([], ""), false, false, None);
    var calls := [ToolCall("a", "x", ""), ToolCall("b", "x", "")];
    var batch := silent.(reply := Said("", calls));
    turns := [silent, silent, batch];
    var start := Start(msgs, []);
    hide Iterate, Run;
    RunLast(cfg, start, turns[..1]);
    RunLast(cfg, start, turns[..2]);
    RunLast(cfg, start, turns);
    assert turns[..2][..1] == turns[..1] && turns[..1][..0] == [] && Run(cfg, start, []) == start by { RunNothing(cfg, start); }
    SilentStep(cfg, start, silent);
    var one := Iterate(cfg, start, silent);
    SilentStep(cfg, one, silent);
    var two := Iterate(cfg, one, silent);
    RunKeepsLimits(cfg, msgs, [], turns[..2]);
    BatchStep(cfg, two, batch);
  }

  lemma RunNothing(cfg: Config, start: LoopState)
    ensures Run(cfg, start, []) == start
  {
  }

  /** An empty answer is asked for again, twice at most. */
  lemma SilentStep(cfg: Config, st: LoopState, t: Exchange)
    requires MaySend(cfg, st, t) && t.reply == Said("", []) && st.retries < MAX_EMPTY_RETRIES
    ensures var after := Iterate(cfg, st, t);
            && |after.sent| == |st.sent| + 1 && after.retries == st.retries + 1
            && after.callCount == st.callCount && after.errors == st.errors && after.ended == st.ended
  {
    hide Checked, UserMessages;
  }

  /** A batch is dispatched to its end, whatever is left of the budget. */
  lemma BatchStep(cfg: Config, st: LoopState, t: Exchange)
    requires Books(cfg, st) && MaySend(cfg, st, t) && t.reply.Said? && t.reply.calls != []
    ensures var after := Iterate(cfg, st, t);
            |after.sent| == |st.sent| + 1 && after.callCount == st.callCount + |t.reply.calls|
  {
    hide Checked, UserMessages, Trimmed, AfterCalls, Reinforced, Invocations, Standing, Permitted;
    var sent := AfterSend(cfg, st, t);
    CallsKeepBooks(cfg, sent.(messages := sent.messages + [AssistantMessage(t.reply.text, t.reply.calls)]), t.reply.calls, t.answers);
  }

  lemma RunLast(cfg: Config, start: LoopState, turns: seq<Exchange>)
    requires turns != [] && !Run(cfg, start, turns[..|turns| - 1]).ended
    ensures Run(cfg, start, turns) == Iterate(cfg, Run(cfg, start, turns[..|turns| - 1]), turns[|turns| - 1])
  {
  }
}
