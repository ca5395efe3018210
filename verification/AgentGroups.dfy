/** What every request of an agent run looks like: its tool-call groups are whole, and trimming for a local
    model never loses the newest user message. */
module AgentGroups {
  import opened Wrappers
  import opened Conversation
  import opened Compaction
  import opened ToolNames
  import opened AgentLoop
  import opened AgentLimits

  ghost predicate Sendable(msgs: seq<Message>) { Startable(msgs) && Grouped(msgs) }

  /** Content of the newest user message. */
  function Newest(msgs: seq<Message>): Option<string> {
    var last := LastUser(msgs);
    if last.Some? then Some(msgs[last.value].content) else None
  }

  lemma NewestBehind(head: seq<Message>, tail: seq<Message>)
    ensures Newest(tail).Some? ==> Newest(head + tail) == Newest(tail)
    ensures Newest(tail).None? ==> Newest(head + tail) == Newest(head)
  {
    hide LastUser;
    var all := head + tail;
    if LastUser(tail).Some? {
      assert all[|head| + LastUser(tail).value].role == User;
    } else if LastUser(head).Some? {
      assert all[LastUser(head).value].role == User;
    }
    if LastUser(all).Some? {
      var k := LastUser(all).value;
      assert if k < |head| then all[k] == head[k] else all[k] == tail[k - |head|];
    }
  }

  lemma KeptTail(msgs: seq<Message>, cut: nat, memory: Option<Message>)
    requires msgs != [] && LastUser(msgs).Some? && cut <= LastUser(msgs).value
    ensures Newest(WithMemory(msgs[0], memory, msgs[cut..])) == Newest(msgs)
  {
    hide LastUser;
    var head := [msgs[0]] + if memory.Some? then [memory.value] else [];
    assert WithMemory(msgs[0], memory, msgs[cut..]) == head + msgs[cut..];
    assert msgs == msgs[..cut] + msgs[cut..];
    assert msgs[cut..][LastUser(msgs).value - cut].role == User;
    NewestBehind(head, msgs[cut..]);
    NewestBehind(msgs[..cut], msgs[cut..]);
  }

  // ---------------------------------------------------------------- one batch of tool calls

  /** One result for each call, with its id, in order. */
  ghost predicate AnswerAll(results: seq<Message>, calls: seq<ToolCall>) {
    |results| == |calls| && forall j :: 0 <= j < |calls| ==> Answers(results[j], calls[j])
  }

  lemma CallAddsItsResult(cfg: Config, st: LoopState, call: ToolCall, answer: CallAnswer) returns (result: Message)
    ensures AfterCall(cfg, st, call, answer).messages == st.messages + [result] && Answers(result, call)
  {
    hide VerdictOf, FixupToolName;
    var tool := FixupToolName(call.name, cfg.names);
    result := ToolMessage(call.id, tool, answer.text);
  }

  /** Whatever the verdicts, a batch adds exactly one result for each call. */
  lemma {:induction false} BatchAddsResults(cfg: Config, st: LoopState, calls: seq<ToolCall>, answers: nat -> CallAnswer)
    returns (results: seq<Message>)
    ensures AfterCalls(cfg, st, calls, answers).messages == st.messages + results
    ensures AnswerAll(results, calls)
  {
    results := [];
    if calls != [] {
      hide AfterCall, Answers;
      var n := |calls| - 1;
      var before := BatchAddsResults(cfg, st, calls[..n], answers);
      var last := CallAddsItsResult(cfg, AfterCalls(cfg, st, calls[..n], answers), calls[n], answers(n));
      results := before + [last];
      assert st.messages + before + [last] == st.messages + results;
    }
  }

  lemma ResultsAreTools(owner: Message, results: seq<Message>)
    requires IsOwner(owner) && AnswerAll(results, owner.calls)
    ensures var batch := [owner] + results; Grouped(batch) && Newest(batch) == None && batch[|batch| - 1].role == Tool
  {
    var batch := [owner] + results;
    assert forall j :: 0 <= j < |results| ==> batch[0 + 1 + j] == results[j];
    assert GroupAt(batch, 0);
    GroupTools(batch);
    assert batch[|owner.calls| + 1..] == [];
  }

  lemma BatchKeepsGroups(cfg: Config, st: LoopState, text: string, calls: seq<ToolCall>, answers: nat -> CallAnswer)
    requires Sendable(st.messages) && calls != []
    ensures var m := AfterCalls(cfg, st.(messages := st.messages + [AssistantMessage(text, calls)]), calls, answers).messages;
            Sendable(m) && Newest(m) == Newest(st.messages) && m[|m| - 1].role == Tool
  {
    hide AfterCalls, AnswerAll, Grouped, LastUser;
    var owner := AssistantMessage(text, calls);
    var results := BatchAddsResults(cfg, st.(messages := st.messages + [owner]), calls, answers);
    var batch := [owner] + results;
    ResultsAreTools(owner, results);
    GroupedAppend(st.messages, batch);
    NewestBehind(st.messages, batch);
    assert st.messages + [owner] + results == st.messages + batch;
  }

  // ---------------------------------------------------------------- edits of the list

  /** Grouping depends on roles, calls and call ids alone. */
  lemma {:induction false} ContentsDoNotMatter(a: seq<Message>, b: seq<Message>)
    requires Grouped(a) && |a| == |b|
    requires forall i :: 0 <= i < |a| ==> a[i].role == b[i].role && a[i].calls == b[i].calls && a[i].callId == b[i].callId
    ensures Grouped(b)
    decreases |a|
  {
    if a != [] {
      var k := FirstLength(a);
      ContentsDoNotMatter(a[k..], b[k..]);
      if IsOwner(a[0]) {
        forall j | 0 <= j < |a[0].calls| ensures Answers(b[0 + 1 + j], a[0].calls[j]) {
          assert Answers(a[0 + 1 + j], a[0].calls[j]);
        }
      }
    }
  }

  lemma ReinforcedKeeps(isLocal: bool, msgs: seq<Message>, goal: string)
    requires Sendable(msgs)
    ensures Sendable(Reinforced(isLocal, msgs, goal))
    ensures isLocal ==> Newest(Reinforced(isLocal, msgs, goal)) == Newest(msgs)
  {
    var r := Reinforced(isLocal, msgs, goal);
    if !isLocal {
      LoneMessages([UserMessage(REINFORCEMENT)]);
      GroupedAppend(msgs, [UserMessage(REINFORCEMENT)]);
    } else {
      ContentsDoNotMatter(msgs, r);
      hide Grouped;
      var n := |msgs| - 1;
      assert msgs == msgs[..n] + [msgs[n]] && r == msgs[..n] + [r[n]];
      NewestBehind(msgs[..n], [msgs[n]]);
      NewestBehind(msgs[..n], [r[n]]);
    }
  }

  lemma MemoryIsUser(memory: Memory)
    ensures memory.Message().Some? ==> memory.Message().value.role == User && IsMemory(memory.Message().value)
  {
    assert MEMORY_MARK <= MEMORY_MARK + "]\n" + memory.digest;
  }

  lemma WindowedKeeps(msgs: seq<Message>, t: Exchange, history: seq<int>, budget: nat)
    requires Sendable(msgs)
    ensures Sendable(Windowed(msgs, t, history, budget))
    ensures Newest(Windowed(msgs, t, history, budget)) == Newest(msgs)
  {
    hide Grouped, WindowTrim, LastUser, TurnsFrom, TurnsOf;
    var bodyStart := DetectBodyStart(msgs);
    TurnsFromTile(msgs, bodyStart);
    WindowMeaning(msgs, t.toolTokens, history, t.freshMemory.Message(), budget, TurnsFrom(msgs, bodyStart));
    var r := WindowTrim(msgs, t.toolTokens, history, t.freshMemory.Message(), budget);
    if r.Ok? && r.value.Some? {
      var cut := r.value.value.cut;
      MemoryIsUser(t.freshMemory);
      TrimKeepsGroups(msgs, t.freshMemory.Message(), cut);
      KeptTail(msgs, cut, t.freshMemory.Message());
    }
  }

  lemma CutKeeps(msgs: seq<Message>, memory: Option<Message>)
    requires Sendable(msgs) && CompactionEnd(msgs).Some? && (memory.Some? ==> memory.value.role == User)
    ensures var r := WithMemory(msgs[0], memory, msgs[CompactionEnd(msgs).value..]); Sendable(r) && Newest(r) == Newest(msgs)
  {
    CompactionCutIsWhole(msgs);
    assert LastUser(msgs).Some?;
    hide Grouped, CompactionEnd, LastUser;
    TrimKeepsGroups(msgs, memory, CompactionEnd(msgs).value);
    KeptTail(msgs, CompactionEnd(msgs).value, memory);
  }

  lemma CompactedKeeps(isLocal: bool, msgs: seq<Message>, t: Exchange, history: seq<int>)
    requires Sendable(msgs)
    ensures Sendable(Compacted(isLocal, msgs, t, history))
    ensures Newest(Compacted(isLocal, msgs, t, history)) == Newest(msgs)
  {
    hide Sendable, CompactionEnd, Newest, WithMemory;
    if CompactionEnd(msgs).Some? {
      MemoryIsUser(t.freshMemory);
      CutKeeps(msgs, t.freshMemory.Message());
      if t.summary.Some? {
        CutKeeps(msgs, Some(UserMessage("[Context Summary " + t.summary.value)));
      }
    }
  }

  lemma TrimmedKeeps(cfg: Config, msgs: seq<Message>, t: Exchange)
    requires Sendable(msgs)
    ensures var r := Trimmed(cfg, msgs, t); r.Some? ==> Sendable(r.value) && (cfg.isLocal ==> Newest(r.value) == Newest(msgs))
  {
    hide Sendable, Newest, Reinforced, Windowed, Compacted, EstimateTokens;
    var nudged := Reinforced(cfg.isLocal, msgs, t.goal);
    ReinforcedKeeps(cfg.isLocal, msgs, t.goal);
    if t.history.Some? {
      var windowed := if cfg.isLocal then Windowed(nudged, t, t.history.value, cfg.contextBudget) else nudged;
      WindowedKeeps(nudged, t, t.history.value, cfg.contextBudget);
      CompactedKeeps(cfg.isLocal, windowed, t, t.history.value);
    }
  }

  lemma CheckedKeeps(cfg: Config, msgs: seq<Message>)
    requires Sendable(msgs)
    ensures Sendable(Checked(cfg, msgs))
    ensures Newest(msgs).Some? ==> Newest(Checked(cfg, msgs)) == Newest(msgs)
  {
    var memory := cfg.memory.Message();
    MemoryIsUser(cfg.memory);
    RepairKeepsGroups(msgs, memory);
    hide Grouped, LastUser, Repaired;
    if cfg.isLocal && WithMemoryAt1(msgs, memory) != msgs {
      assert msgs == [msgs[0]] + msgs[1..];
      NewestBehind([msgs[0]], msgs[1..]);
      NewestBehind([msgs[0], memory.value], msgs[1..]);
    }
  }

  lemma {:induction false} QueuedKeep(msgs: seq<Message>, texts: seq<string>)
    requires Sendable(msgs)
    ensures Sendable(msgs + UserMessages(texts))
    ensures Newest(msgs + UserMessages(texts)) == if texts == [] then Newest(msgs) else Some(texts[|texts| - 1])
  {
    if texts == [] {
      assert msgs + UserMessages(texts) == msgs;
    } else {
      var n := |texts| - 1;
      QueuedKeep(msgs, texts[..n]);
      hide Grouped, LastUser;
      var before := msgs + UserMessages(texts[..n]);
      var last := [UserMessage(texts[n])];
      LoneMessages(last);
      GroupedAppend(before, last);
      NewestBehind(before, last);
      assert msgs + UserMessages(texts) == before + last;
    }
  }

  // ---------------------------------------------------------------- whole runs

  /** The newest thing a user said when the last of these turns polled the queue. */
  function Asked(first: seq<Message>, turns: seq<Exchange>): Option<string> {
    if turns == [] then Newest(first)
    else
      var t := turns[|turns| - 1];
      if t.queued != [] then Some(t.queued[|t.queued| - 1]) else Asked(first, turns[..|turns| - 1])
  }

  lemma IterateKeepsGroups(cfg: Config, st: LoopState, t: Exchange)
    requires Sendable(st.messages)
    ensures var after := Iterate(cfg, st, t);
            var asked := if t.queued == [] then Newest(st.messages) else Some(t.queued[|t.queued| - 1]);
            && Sendable(after.messages)
            && (cfg.isLocal && asked.Some? && !after.ended ==> Newest(after.messages) == asked)
            && after.sent == (if MaySend(cfg, st, t) then AfterSend(cfg, st, t).sent else st.sent)
  {
    hide Sendable, Newest, Checked, Trimmed, AfterCalls, Reinforced;
    SentLog(cfg, st, t);
    QueuedKeep(st.messages, t.queued);
    CheckedKeeps(cfg, st.messages + UserMessages(t.queued));
    if MaySend(cfg, st, t) && t.reply.Said? && t.reply.calls != [] {
      var sent := AfterSend(cfg, st, t);
      BatchKeepsGroups(cfg, sent, t.reply.text, t.reply.calls, t.answers);
      var m := AfterCalls(cfg, sent.(messages := sent.messages + [AssistantMessage(t.reply.text, t.reply.calls)]), t.reply.calls, t.answers).messages;
      TrimmedKeeps(cfg, m, t);
      ReinforcedKeeps(cfg.isLocal, m, t.goal);
    }
  }

  /** The request is well-formed, and for a local model its newest user message is the newest thing asked. */
  ghost predicate GoodRequest(cfg: Config, first: seq<Message>, turns: seq<Exchange>, r: Request) {
    Sendable(r.messages) && (cfg.isLocal && Newest(first).Some? ==> Newest(r.messages) == Asked(first, turns))
  }

  ghost predicate GoodRun(cfg: Config, first: seq<Message>, turns: seq<Exchange>, st: LoopState) {
    && Sendable(st.messages)
    && |st.sent| <= |turns|
    && (forall i :: 0 <= i < |st.sent| ==> GoodRequest(cfg, first, turns[..i + 1], st.sent[i]))
    && (!st.ended ==> |st.sent| == |turns|)
    && (!st.ended && cfg.isLocal && Newest(first).Some? ==> Newest(st.messages) == Asked(first, turns))
  }

  lemma {:induction false} AskedOnce(first: seq<Message>, turns: seq<Exchange>)
    requires Newest(first).Some?
    ensures Asked(first, turns).Some?
  {
    if turns != [] {
      AskedOnce(first, turns[..|turns| - 1]);
    }
  }

  lemma SentIsGood(cfg: Config, st: LoopState, first: seq<Message>, turns: seq<Exchange>)
    requires turns != [] && GoodRun(cfg, first, turns[..|turns| - 1], st) && !st.ended
    ensures GoodRequest(cfg, first, turns, Request(AfterSend(cfg, st, turns[|turns| - 1]).messages, |st.log|))
  {
    hide Sendable, Newest, Checked;
    var t := turns[|turns| - 1];
    if Newest(first).Some? {
      AskedOnce(first, turns);
    }
    QueuedKeep(st.messages, t.queued);
    CheckedKeeps(cfg, st.messages + UserMessages(t.queued));
  }

  lemma StepKeepsGood(cfg: Config, st: LoopState, first: seq<Message>, turns: seq<Exchange>)
    requires turns != [] && GoodRun(cfg, first, turns[..|turns| - 1], st) && !st.ended
    ensures GoodRun(cfg, first, turns, Iterate(cfg, st, turns[|turns| - 1]))
  {
    hide Sendable, Newest, GoodRequest, Iterate;
    var before, t := turns[..|turns| - 1], turns[|turns| - 1];
    IterateKeepsGroups(cfg, st, t);
    SentIsGood(cfg, st, first, turns);
    if Newest(first).Some? {
      AskedOnce(first, turns);
    }
    IterateSends(cfg, st, t);
    SentStayGood(cfg, first, turns, st.sent, Iterate(cfg, st, t).sent);
  }

  lemma SentStayGood(cfg: Config, first: seq<Message>, turns: seq<Exchange>, sent: seq<Request>, more: seq<Request>)
    requires turns != [] && |sent| == |turns| - 1 && (more == sent || (|more| == |turns| && more[..|sent|] == sent))
    requires forall i :: 0 <= i < |sent| ==> GoodRequest(cfg, first, turns[..|turns| - 1][..i + 1], sent[i])
    requires |more| == |turns| ==> GoodRequest(cfg, first, turns, more[|sent|])
    ensures forall i :: 0 <= i < |more| ==> GoodRequest(cfg, first, turns[..i + 1], more[i])
  {
    hide GoodRequest;
    forall i | 0 <= i < |more| ensures GoodRequest(cfg, first, turns[..i + 1], more[i]) {
      if i < |sent| {
        assert turns[..i + 1] == turns[..|turns| - 1][..i + 1];
        assert more[i] == sent[i];
      } else {
        assert turns[..i + 1] == turns;
      }
    }
  }

  lemma IterateSends(cfg: Config, st: LoopState, t: Exchange)
    ensures var after := Iterate(cfg, st, t);
            if MaySend(cfg, st, t) then after.sent == st.sent + [Request(AfterSend(cfg, st, t).messages, |st.log|)]
            else after.sent == st.sent && after.ended
  {
    hide Checked, UserMessages, AfterReply;
    SentLog(cfg, st, t);
  }

  /** Starting from a well-formed list, every request of every run keeps all tool-call groups whole, whatever
      the model calls and however often the list is trimmed; and with a local model every request still
      holds, as its newest user message, the newest thing the user asked. */
  lemma {:induction false} RunIsGood(cfg: Config, first: seq<Message>, enabled: seq<string>, turns: seq<Exchange>)
    requires Sendable(first)
    ensures GoodRun(cfg, first, turns, Run(cfg, Start(first, enabled), turns))
  {
    if turns != [] {
      var before := turns[..|turns| - 1];
      RunIsGood(cfg, first, enabled, before);
      hide Iterate, GoodRun;
      var st := Run(cfg, Start(first, enabled), before);
      if !st.ended {
        StepKeepsGood(cfg, st, first, turns);
      } else {
        EndedStaysGood(cfg, st, first, turns);
      }
    }
  }

  lemma EndedStaysGood(cfg: Config, st: LoopState, first: seq<Message>, turns: seq<Exchange>)
    requires turns != [] && GoodRun(cfg, first, turns[..|turns| - 1], st) && st.ended
    ensures GoodRun(cfg, first, turns, st)
  {
    hide Sendable, Newest, GoodRequest;
    var before := turns[..|turns| - 1];
    forall i | 0 <= i < |st.sent| ensures GoodRequest(cfg, first, turns[..i + 1], st.sent[i]) {
      assert turns[..i + 1] == before[..i + 1];
    }
  }

  lemma EveryRequestIsWhole(cfg: Config, first: seq<Message>, enabled: seq<string>, turns: seq<Exchange>, i: nat)
    requires Sendable(first) && i < |Run(cfg, Start(first, enabled), turns).sent|
    ensures var msgs := Run(cfg, Start(first, enabled), turns).sent[i].messages; EveryGroupWhole(msgs) && Startable(msgs)
  {
    hide Grouped, EveryGroupWhole;
    RunIsGood(cfg, first, enabled, turns);
    assert GoodRequest(cfg, first, turns[..i + 1], Run(cfg, Start(first, enabled), turns).sent[i]);
    GroupedIsWhole(Run(cfg, Start(first, enabled), turns).sent[i].messages);
  }
}
