/** What one turn of the agent loop does: when it is the last one, what list it leaves for the next request and
    which tools it enables. */
module AgentTurns {
  import opened Wrappers
  import opened Conversation
  import opened Compaction
  import opened ToolNames
  import opened AgentLoop
  import opened AgentLimits
  import opened AgentGroups
  import opened AgentRequests

  // ---------------------------------------------------------------- which turn is the last

  /** The thread has to be queried for the next list and cannot. */
  ghost predicate QueryFails(cfg: Config, st: LoopState, t: Exchange)
    requires t.reply.Said?
  {
    && t.history == None
    && (cfg.isLocal || EstimateTokens(AfterBatch(cfg, st, t) + [UserMessage(REINFORCEMENT)], t.toolTokens) > cfg.contextBudget)
  }

  /** A turn that sends its request is the last one if and only if the reply fails, is a final text, is empty for
      the third time, or has calls after which a query fails. */
  lemma TurnEnds(cfg: Config, st: LoopState, t: Exchange)
    requires !st.ended && MaySend(cfg, st, t)
    ensures Iterate(cfg, st, t).ended <==>
            || t.reply.Failed?
            || (t.reply.calls == [] && (t.reply.text != "" || st.retries >= MAX_EMPTY_RETRIES))
            || (t.reply.calls != [] && QueryFails(cfg, st, t))
  {
    hide Checked, UserMessages, AfterCalls, EstimateTokens, WindowTrim, Compacted;
    if t.reply.Said? && t.reply.calls != [] {
      var sent := AfterSend(cfg, st, t);
      BatchGoesOn(cfg, sent.(messages := sent.messages + [AssistantMessage(t.reply.text, t.reply.calls)]), t.reply.calls, t.answers);
    }
  }

  lemma {:induction false} BatchGoesOn(cfg: Config, st: LoopState, calls: seq<ToolCall>, answers: nat -> CallAnswer)
    ensures AfterCalls(cfg, st, calls, answers).ended == st.ended
  {
    hide AfterCall;
    if calls != [] {
      var n := |calls| - 1;
      BatchGoesOn(cfg, st, calls[..n], answers);
      CallKeepsCounters(cfg, AfterCalls(cfg, st, calls[..n], answers), calls[n], answers(n));
    }
  }

  /** A reply after which the loop may go on. */
  predicate Continues(r: Reply) {
    r.Said? && (r.calls != [] || r.text == "")
  }

  /** A run goes on only behind replies with tool calls or without any text: a final text ends it. */
  lemma {:induction false} RunGoesOn(cfg: Config, msgs: seq<Message>, enabled: seq<string>, turns: seq<Exchange>)
    requires !Run(cfg, Start(msgs, enabled), turns).ended
    ensures forall i :: 0 <= i < |turns| ==> Continues(turns[i].reply)
  {
    hide Iterate;
    if turns != [] {
      var init, last := turns[..|turns| - 1], turns[|turns| - 1];
      var st := Run(cfg, Start(msgs, enabled), init);
      assert !st.ended && !Iterate(cfg, st, last).ended;
      RunGoesOn(cfg, msgs, enabled, init);
      StopsUnlessSent(cfg, st, last);
      TurnEnds(cfg, st, last);
      forall i | 0 <= i < |turns| ensures Continues(turns[i].reply) {
        assert i < |init| ==> turns[i] == init[i];
      }
    }
  }

  lemma StopsUnlessSent(cfg: Config, st: LoopState, t: Exchange)
    ensures !MaySend(cfg, st, t) ==> Iterate(cfg, st, t).ended && Iterate(cfg, st, t).sent == st.sent
  {
  }

  /** A turn sends a request if and only if fewer calls have been dispatched than the budget allows, no more
      rejections stand than the limit and quota is left; otherwise it is the last one. */
  lemma SendsIff(cfg: Config, st: LoopState, t: Exchange)
    requires Books(cfg, st)
    ensures var after := Iterate(cfg, st, t);
            && (|after.sent| > |st.sent| <==> |st.log| < cfg.budget && Standing(st.log) <= MAX_CONSECUTIVE_ERRORS && t.quotaLeft)
            && (|after.sent| > |st.sent| || after.ended)
  {
    hide Standing, Invocations, LogPermitted, Iterate, Checked, UserMessages;
    SentLog(cfg, st, t);
    StopsUnlessSent(cfg, st, t);
  }

  // ---------------------------------------------------------------- the list behind the tool results

  /** For a local model the last tool result grows by the nudge; the others get a reminder of their own. */
  ghost predicate Nudged(isLocal: bool, msgs: seq<Message>, goal: string, nudged: seq<Message>) {
    if !isLocal then nudged == msgs + [UserMessage(REINFORCEMENT)]
    else
      && |nudged| == |msgs| && (forall i :: 0 <= i < |msgs| - 1 ==> nudged[i] == msgs[i])
      && (msgs != [] ==> nudged[|msgs| - 1] == msgs[|msgs| - 1].(content := nudged[|msgs| - 1].content))
      && (msgs != [] && msgs[|msgs| - 1].role == Tool ==>
            nudged[|msgs| - 1].content == msgs[|msgs| - 1].content + LOCAL_NUDGE + goal)
      && (msgs != [] && msgs[|msgs| - 1].role != Tool ==> nudged == msgs)
  }

  /** The system prompt, the stored memory if there is any, and the list from `cut` on. */
  ghost predicate KeptFrom(msgs: seq<Message>, memory: Memory, cut: nat, kept: seq<Message>) {
    && 0 < cut <= |msgs|
    && kept == [msgs[0]] + (if memory.entries == [] then [] else [UserMessage("[Thread Memory" + "]\n" + memory.digest)]) + msgs[cut..]
  }

  /** The window applies to this list: half the budget is exceeded, and the thread's rows can be marked. */
  predicate Slides(msgs: seq<Message>, t: Exchange, history: seq<int>, budget: nat) {
    EstimateTokens(msgs, t.toolTokens) > budget / 2 && history != [] && t.trimWorks
  }

  /** From this message on there are at least 6000 tokens and a message a user wrote. */
  ghost predicate WorthKeeping(msgs: seq<Message>, start: nat) {
    && start <= |msgs| && SpanTokens(msgs, start, |msgs|) >= 6_000
    && exists k :: start <= k < |msgs| && IsRealUser(msgs[k])
  }

  /** The last turns, at least two of them and not all, are worth keeping alone. */
  ghost predicate TailWorth(msgs: seq<Message>, turns: seq<Turn>, i: nat) {
    0 < i <= |turns| - 2 && WorthKeeping(msgs, turns[i].start)
  }

  ghost predicate ShortestWorth(msgs: seq<Message>, turns: seq<Turn>, i: nat) {
    TailWorth(msgs, turns, i) && forall k: nat :: i < k < |turns| ==> !TailWorth(msgs, turns, k)
  }

  lemma UserInTail(msgs: seq<Message>, turns: seq<Turn>, from: nat, i: nat)
    requires Tiled(msgs, turns, from, |msgs|) && i < |turns|
    ensures turns[i].start <= |msgs|
    ensures (exists j :: i <= j < |turns| && turns[j].hasUserRequest) <==> (exists k :: turns[i].start <= k < |msgs| && IsRealUser(msgs[k]))
    decreases |turns| - i
  {
    hide SpanTokens, IsRealUser;
    var turn := turns[i];
    assert IsTurn(msgs, turn);
    TurnEnd(msgs, turns, from, i);
    if i + 1 < |turns| {
      UserInTail(msgs, turns, from, i + 1);
    }
  }

  lemma EnoughIff(msgs: seq<Message>, turns: seq<Turn>, i: nat)
    requires TurnsOf(msgs, DetectBodyStart(msgs), turns)
    ensures 0 < i < |turns| && Enough(turns, i) <==> TailWorth(msgs, turns, i)
  {
    hide TailTokens, SpanTokens, IsRealUser, Tiled;
    if 0 < i < |turns| {
      TailTokensAreSpan(msgs, turns, DetectBodyStart(msgs), i);
      UserInTail(msgs, turns, DetectBodyStart(msgs), i);
    }
  }

  lemma ShortestIff(msgs: seq<Message>, turns: seq<Turn>)
    requires TurnsOf(msgs, DetectBodyStart(msgs), turns)
    ensures forall i: nat :: ShortestTail(turns, i) <==> ShortestWorth(msgs, turns, i)
    ensures forall i: nat :: ShortestTail(turns, i) ==> i < |turns|
  {
    hide Enough, TailWorth, TurnsOf, DetectBodyStart;
    forall i: nat ensures 0 < i < |turns| && Enough(turns, i) <==> TailWorth(msgs, turns, i) {
      EnoughIff(msgs, turns, i);
    }
  }

  /** The turns being those of the list, the window keeps the shortest tail of them that is worth it, if there is
      one, and leaves the list alone otherwise. */
  ghost predicate Slid(msgs: seq<Message>, t: Exchange, history: seq<int>, budget: nat, turns: seq<Turn>, slid: seq<Message>) {
    if Slides(msgs, t, history, budget) && exists i: nat :: ShortestWorth(msgs, turns, i)
    then exists i: nat :: ShortestWorth(msgs, turns, i) && i < |turns| && KeptFrom(msgs, t.freshMemory, turns[i].start, slid)
    else slid == msgs
  }

  lemma WindowedMeaning(msgs: seq<Message>, t: Exchange, history: seq<int>, budget: nat, turns: seq<Turn>)
    requires TurnsOf(msgs, DetectBodyStart(msgs), turns)
    ensures Slid(msgs, t, history, budget, turns, Windowed(msgs, t, history, budget))
  {
    hide WindowTrim, EstimateTokens, ShortestTail, ShortestWorth, Enough, TurnsOf, DetectBodyStart, IsRealUser, KeptFrom, WithMemory, BuildMemoryMessage;
    WindowMeaning(msgs, t.toolTokens, history, t.freshMemory.Message(), budget, turns);
    ShortestTailExists(turns);
    ShortestIff(msgs, turns);
    var r := WindowTrim(msgs, t.toolTokens, history, t.freshMemory.Message(), budget);
    if r.Ok? && r.value.Some? {
      MemoryKept(msgs, t.freshMemory, r.value.value.cut);
    } else if r.Err? {
      assert r.error.NoHistory?;
    }
  }

  lemma MemoryKept(msgs: seq<Message>, memory: Memory, cut: nat)
    requires 0 < cut <= |msgs|
    ensures KeptFrom(msgs, memory, cut, WithMemory(msgs[0], memory.Message(), msgs[cut..]))
  {
  }

  /** Compaction may cut here: as late as possible, not behind the newest user message, and not behind a
      message that belongs with the next one. */
  ghost predicate CutsAt(msgs: seq<Message>, end: nat) {
    && |msgs| >= 4 && exists last: nat :: CutsBefore(msgs, end, last)
  }

  ghost predicate CutsBefore(msgs: seq<Message>, end: nat, last: nat) {
    && 1 < end <= last < |msgs| && msgs[last].role == User && (forall k :: last < k < |msgs| ==> msgs[k].role != User)
    && !Attached(msgs, end) && forall j :: end < j <= last ==> Attached(msgs, j)
  }

  lemma {:induction false} WalkMeaning(msgs: seq<Message>, b: nat, end: nat)
    requires b <= |msgs|
    ensures 1 < end <= b && !Attached(msgs, end) && (forall j :: end < j <= b ==> Attached(msgs, j)) <==> WalkBack(msgs, b) == end > 1
  {
    hide Attached;
    if b > 1 && Attached(msgs, b) {
      WalkMeaning(msgs, b - 1, end);
    }
  }

  lemma CompactionEndIff(msgs: seq<Message>, end: nat)
    ensures CompactionEnd(msgs) == Some(end) <==> CutsAt(msgs, end)
  {
    hide Attached, WalkBack, LastUser;
    if LastUser(msgs).Some? {
      WalkMeaning(msgs, LastUser(msgs).value, end);
    }
    if |msgs| >= 4 && CompactionEnd(msgs) == Some(end) {
      assert CutsBefore(msgs, end, LastUser(msgs).value);
    }
  }

  /** Above the budget: the system prompt, the memory or a summary, and everything behind the cut. */
  ghost predicate CompactedTo(isLocal: bool, msgs: seq<Message>, t: Exchange, history: seq<int>, kept: seq<Message>) {
    if history != [] && (exists end: nat :: CutsAt(msgs, end)) && ((isLocal && t.resetWorks) || t.summary.Some?)
    then exists end: nat :: CutsAt(msgs, end) && KeptBehind(isLocal, msgs, t, end, kept)
    else kept == msgs
  }

  ghost predicate KeptBehind(isLocal: bool, msgs: seq<Message>, t: Exchange, end: nat, kept: seq<Message>) {
    if isLocal && t.resetWorks then KeptFrom(msgs, t.freshMemory, end, kept)
    else
      && end <= |msgs| && msgs != [] && t.summary.Some?
      && kept == [msgs[0], UserMessage("[Context Summary " + t.summary.value)] + msgs[end..]
  }

  lemma CompactedMeaning(isLocal: bool, msgs: seq<Message>, t: Exchange, history: seq<int>)
    ensures CompactedTo(isLocal, msgs, t, history, Compacted(isLocal, msgs, t, history))
  {
    hide CutsAt, CompactionEnd;
    forall end: nat ensures CompactionEnd(msgs) == Some(end) <==> CutsAt(msgs, end) {
      CompactionEndIff(msgs, end);
    }
    if CompactionEnd(msgs).Some? {
      var end := CompactionEnd(msgs).value;
      assert CutsAt(msgs, end);
      if history != [] && ((isLocal && t.resetWorks) || t.summary.Some?) {
        CompactedKept(isLocal, msgs, t, history, end);
      }
    }
  }

  lemma CompactedKept(isLocal: bool, msgs: seq<Message>, t: Exchange, history: seq<int>, end: nat)
    requires CompactionEnd(msgs) == Some(end) && history != [] && ((isLocal && t.resetWorks) || t.summary.Some?)
    ensures KeptBehind(isLocal, msgs, t, end, Compacted(isLocal, msgs, t, history))
  {
    hide CompactionEnd;
  }

  /** The list a batch of tool calls leaves for the next request: for a local model the nudged list, slid to the
      shortest tail of turns worth keeping where the window applies; for the others the list with the reminder;
      and that compacted if it is still above the budget. */
  lemma NextList(cfg: Config, msgs: seq<Message>, t: Exchange) returns (nudged: seq<Message>, turns: seq<Turn>, slid: seq<Message>)
    ensures Nudged(cfg.isLocal, msgs, t.goal, nudged) && TurnsOf(nudged, DetectBodyStart(nudged), turns)
    ensures cfg.isLocal ==> (t.history == None ==> Trimmed(cfg, msgs, t) == None)
    ensures cfg.isLocal && t.history.Some? ==> Slid(nudged, t, t.history.value, cfg.contextBudget, turns, slid)
    ensures !cfg.isLocal ==> slid == nudged
    ensures !cfg.isLocal || t.history.Some? ==>
              if EstimateTokens(slid, t.toolTokens) <= cfg.contextBudget then Trimmed(cfg, msgs, t) == Some(slid)
              else if t.history == None then Trimmed(cfg, msgs, t) == None
              else Trimmed(cfg, msgs, t).Some? && CompactedTo(cfg.isLocal, slid, t, t.history.value, Trimmed(cfg, msgs, t).value)
  {
    hide EstimateTokens, Windowed, Compacted, Slid, CompactedTo, TurnsOf;
    nudged := Reinforced(cfg.isLocal, msgs, t.goal);
    turns := TurnsFrom(nudged, DetectBodyStart(nudged));
    TurnsFromTile(nudged, DetectBodyStart(nudged));
    slid := nudged;
    if t.history.Some? {
      if cfg.isLocal {
        slid := Windowed(nudged, t, t.history.value, cfg.contextBudget);
        WindowedMeaning(nudged, t, t.history.value, cfg.contextBudget, turns);
      }
      CompactedMeaning(cfg.isLocal, slid, t, t.history.value);
    }
  }

  /** And that is the list the turn leaves behind. */
  lemma TurnLeaves(cfg: Config, st: LoopState, t: Exchange)
    requires !st.ended && MaySend(cfg, st, t) && t.reply.Said? && t.reply.calls != []
    ensures var next := Trimmed(cfg, AfterBatch(cfg, st, t), t);
            && (Iterate(cfg, st, t).ended <==> next == None)
            && (next.Some? ==> Iterate(cfg, st, t).messages == next.value)
  {
    hide Checked, UserMessages, AfterCalls, Trimmed;
    var sent := AfterSend(cfg, st, t);
    BatchGoesOn(cfg, sent.(messages := sent.messages + [AssistantMessage(t.reply.text, t.reply.calls)]), t.reply.calls, t.answers);
  }

  // ---------------------------------------------------------------- one batch of calls

  /** The j-th call of a batch is dispatched under its repaired name and answered with the text that came back. */
  ghost predicate DispatchedAs(cfg: Config, call: ToolCall, answer: CallAnswer, d: Dispatch, result: Message) {
    && d.tool == FixupToolName(call.name, cfg.names)
    && result == Message(Tool, answer.text, Some(call.id), Some(d.tool), [], None)
  }

  lemma {:induction false} BatchDispatches(cfg: Config, st: LoopState, calls: seq<ToolCall>, answers: nat -> CallAnswer)
    ensures var after := AfterCalls(cfg, st, calls, answers);
            && |after.log| == |st.log| + |calls| && st.log <= after.log
            && |after.messages| == |st.messages| + |calls| && st.messages <= after.messages
            && forall j :: 0 <= j < |calls| ==>
                 DispatchedAs(cfg, calls[j], answers(j), after.log[|st.log| + j], after.messages[|st.messages| + j])
  {
    hide AfterCall, DispatchedAs;
    if calls != [] {
      var n := |calls| - 1;
      BatchDispatches(cfg, st, calls[..n], answers);
      CallDispatches(cfg, AfterCalls(cfg, st, calls[..n], answers), calls[n], answers(n));
    }
  }

  lemma CallDispatches(cfg: Config, st: LoopState, call: ToolCall, answer: CallAnswer)
    ensures var after := AfterCall(cfg, st, call, answer);
            && |after.log| == |st.log| + 1 && st.log <= after.log
            && |after.messages| == |st.messages| + 1 && st.messages <= after.messages
            && DispatchedAs(cfg, call, answer, after.log[|st.log|], after.messages[|st.messages|])
  {
    hide VerdictOf, FixupToolName;
  }

  /** How often the tool was called by someone permitted to. */
  function Uses(log: seq<Dispatch>, tool: string): nat {
    if log == [] then 0
    else
      var d := log[|log| - 1];
      Uses(log[..|log| - 1], tool) + if d.tool == tool && d.verdict in {OverLimit, BadArguments, Invoked} then 1 else 0
  }

  ghost predicate CountsUses(st: LoopState) {
    forall tool :: Count(st.counts, tool) == Uses(st.log, tool)
  }

  lemma UsesOneMore(log: seq<Dispatch>, d: Dispatch, tool: string)
    ensures Uses(log + [d], tool) == Uses(log, tool) + if d.tool == tool && d.verdict in {OverLimit, BadArguments, Invoked} then 1 else 0
  {
    assert (log + [d])[..|log|] == log;
  }

  /** What a call is rejected for: first for want of permission, then because the tool has been used up, then for
      its arguments. */
  lemma CallIsJudged(cfg: Config, st: LoopState, call: ToolCall, answer: CallAnswer)
    requires CountsUses(st)
    ensures var after := AfterCall(cfg, st, call, answer);
            && after.log == st.log + [after.log[|st.log|]] && CountsUses(after)
            && var (tool, verdict) := (after.log[|st.log|].tool, after.log[|st.log|].verdict);
               if !Permitted(cfg, st.enabled, tool) then verdict in {NotAllowed, NotEnabled, NotGranted}
               else if tool in cfg.maxCalls && Uses(st.log, tool) >= cfg.maxCalls[tool] then verdict == OverLimit
               else verdict == if answer.parses then Invoked else BadArguments
  {
    hide FixupToolName, IsAllowed, Uses;
    var after := AfterCall(cfg, st, call, answer);
    forall tool ensures Count(after.counts, tool) == Uses(after.log, tool) {
      UsesOneMore(st.log, after.log[|st.log|], tool);
    }
  }

  /** What has been discovered is enabled. */
  ghost predicate DiscoveredEnabled(st: LoopState) {
    forall tool :: tool in st.discovered ==> tool in st.enabled
  }

  /** A call enables the tool it discovers, if it is invoked for a local model, and no other. */
  lemma CallEnables(cfg: Config, st: LoopState, call: ToolCall, answer: CallAnswer)
    requires DiscoveredEnabled(st)
    ensures var after := AfterCall(cfg, st, call, answer);
            && DiscoveredEnabled(after) && st.enabled <= after.enabled
            && forall tool :: tool in after.enabled <==>
                 || tool in st.enabled
                 || (cfg.isLocal && after.log[|st.log|].verdict == Invoked && answer.discovered == Some(tool))
  {
    hide VerdictOf, FixupToolName;
  }

  // ---------------------------------------------------------------- the list that is sent

  lemma {:induction false} QueuedMeaning(texts: seq<string>)
    ensures |UserMessages(texts)| == |texts|
    ensures forall i :: 0 <= i < |texts| ==> UserMessages(texts)[i] == Message(User, texts[i], None, None, [], None)
  {
    if texts != [] {
      QueuedMeaning(texts[..|texts| - 1]);
    }
  }

  /** The j-th message kept is the one at `at[j]`: all but the orphaned tool results, in order. */
  ghost predicate KeptAt(body: seq<Message>, kept: seq<Message>, at: seq<nat>) {
    && |at| == |kept|
    && (forall j :: 0 <= j < |at| ==> at[j] < |body| && kept[j] == body[at[j]])
    && (forall i: nat :: i in at <==> Stays(body, i))
    && (forall j, k :: 0 <= j < k < |at| ==> at[j] < at[k])
  }

  ghost predicate Stays(body: seq<Message>, i: nat) { i < |body| && !IsOrphan(body, i) }

  lemma StaysOneMore(body: seq<Message>, i: nat)
    requires body != []
    ensures var n := |body| - 1;
            Stays(body, i) <==> if i == n then !(body[n].role == Tool && !InGroup(body[..n])) else Stays(body[..n], i)
  {
    var n := |body| - 1;
    if i == n {
      InGroupMeaning(body[..n]);
      LastOrphan(body);
    } else if i < n {
      SameOrphan(body, i);
    }
  }

  lemma KeptOneMore(body: seq<Message>, kept: seq<Message>, at: seq<nat>)
    requires body != [] && KeptAt(body[..|body| - 1], kept, at)
    ensures var n := |body| - 1;
            if Stays(body, n) then KeptAt(body, kept + [body[n]], at + [n]) else KeptAt(body, kept, at)
  {
    hide InGroup, Stays;
    var n := |body| - 1;
    forall i: nat ensures Stays(body, i) <==> Stays(body[..n], i) || (i == n && Stays(body, n)) {
      StaysOneMore(body, i);
    }
  }

  lemma {:induction false} KeptMeaning(body: seq<Message>) returns (at: seq<nat>)
    ensures KeptAt(body, WithoutOrphans(body), at)
  {
    hide InGroup, Stays, KeptAt;
    if body == [] {
      at := [];
      NothingKept();
    } else {
      var n := |body| - 1;
      at := KeptMeaning(body[..n]);
      var kept := WithoutOrphans(body[..n]);
      StaysOneMore(body, n);
      KeptOneMore(body, kept, at);
      assert kept + [] == kept;
      at := if Stays(body, n) then at + [n] else at;
    }
  }

  lemma NothingKept()
    ensures KeptAt([], [], [])
  {
  }

  /** The list with the memory in its place, and where its body starts. */
  ghost predicate WithStored(msgs: seq<Message>, memory: Memory, full: seq<Message>, b: nat)
    requires msgs != []
  {
    var stored := |msgs| > 1 && IsMemory(msgs[1]);
    && b <= |full| && b == (if stored || memory.entries != [] then 2 else 1)
    && full == if stored || memory.entries == [] then msgs
               else [msgs[0], UserMessage("[Thread Memory" + "]\n" + memory.digest)] + msgs[1..]
  }

  /** The request a turn sends holds the list so far and the queued texts. For a local model it has the stored
      memory behind the system prompt, if there is any and none is there, and the orphaned tool results of the
      body left out. */
  lemma RequestIs(cfg: Config, st: LoopState, t: Exchange) returns (sent: seq<Message>, full: seq<Message>, b: nat, at: seq<nat>)
    requires MaySend(cfg, st, t)
    ensures Iterate(cfg, st, t).sent == st.sent + [Request(sent, |st.log|)]
    ensures var msgs := st.messages + UserMessages(t.queued);
            if cfg.isLocal && msgs != [] && msgs[0].role == System
            then WithStored(msgs, cfg.memory, full, b) && |sent| >= b && sent[..b] == full[..b] && KeptAt(full[b..], sent[b..], at)
            else sent == msgs
  {
    hide UserMessages, WithoutOrphans, KeptAt, AfterReply, MaySend;
    SentLog(cfg, st, t);
    var msgs := st.messages + UserMessages(t.queued);
    sent, full, b, at := Checked(cfg, msgs), msgs, 0, [];
    if cfg.isLocal && Startable(msgs) {
      full := WithMemoryAt1(msgs, cfg.memory.Message());
      b := DetectBodyStart(full);
      StoredIs(msgs, cfg.memory);
      at := KeptMeaning(full[b..]);
      assert sent[..b] == full[..b] && sent[b..] == WithoutOrphans(full[b..]);
    }
  }

  lemma StoredIs(msgs: seq<Message>, memory: Memory)
    requires msgs != []
    ensures var full := WithMemoryAt1(msgs, memory.Message()); WithStored(msgs, memory, full, DetectBodyStart(full))
  {
    assert MEMORY_MARK <= MEMORY_MARK + "]\n" + memory.digest;
  }
}
