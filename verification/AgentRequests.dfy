/** What the user asked, in runs with models that are not local: when compaction cuts it away, and when not.
    Behind tool results such a model gets a reminder, which is a user message, and compaction walks back from
    the newest user message. */
module AgentRequests {
  import opened Wrappers
  import opened Conversation
  import opened Compaction
  import opened AgentLoop
  import opened AgentLimits
  import opened AgentGroups

  /** Position of the newest message a user wrote. */
  function LastReal(msgs: seq<Message>): (r: Option<nat>)
    ensures r.Some? ==> r.value < |msgs|
  {
    if msgs == [] then None
    else if IsRealUser(msgs[|msgs| - 1]) then Some(|msgs| - 1)
    else LastReal(msgs[..|msgs| - 1])
  }

  function NewestReal(msgs: seq<Message>): Option<string> {
    match LastReal(msgs)
    case None => None
    case Some(u) => Some(msgs[u].content)
  }

  lemma {:induction false} LastRealIs(msgs: seq<Message>)
    ensures LastReal(msgs).Some? ==> IsRealUser(msgs[LastReal(msgs).value])
    ensures forall k :: 0 <= k < |msgs| && (LastReal(msgs).Some? ==> k > LastReal(msgs).value) ==> !IsRealUser(msgs[k])
  {
    hide IsRealUser;
    if msgs != [] && !IsRealUser(msgs[|msgs| - 1]) {
      LastRealIs(msgs[..|msgs| - 1]);
    }
  }

  lemma RealIs(msgs: seq<Message>, u: nat)
    requires u < |msgs| && IsRealUser(msgs[u]) && forall k :: u < k < |msgs| ==> !IsRealUser(msgs[k])
    ensures LastReal(msgs) == Some(u) && NewestReal(msgs) == Some(msgs[u].content)
  {
    hide LastReal, IsRealUser;
    LastRealIs(msgs);
  }

  lemma NoReal(msgs: seq<Message>)
    requires forall k :: 0 <= k < |msgs| ==> !IsRealUser(msgs[k])
    ensures LastReal(msgs) == None && NewestReal(msgs) == None
  {
    hide LastReal, IsRealUser;
    LastRealIs(msgs);
  }

  lemma RealBehind(head: seq<Message>, tail: seq<Message>)
    ensures LastReal(head + tail) ==
            if LastReal(tail).Some? then Some(|head| + LastReal(tail).value) else LastReal(head)
    ensures NewestReal(head + tail) == if LastReal(tail).Some? then NewestReal(tail) else NewestReal(head)
  {
    hide LastReal, IsRealUser;
    var all := head + tail;
    LastRealIs(head);
    LastRealIs(tail);
    if LastReal(tail).Some? {
      assert all[|head| + LastReal(tail).value] == tail[LastReal(tail).value];
      forall k | |head| + LastReal(tail).value < k < |all| ensures !IsRealUser(all[k]) {
        assert all[k] == tail[k - |head|];
      }
      RealIs(all, |head| + LastReal(tail).value);
    } else {
      forall k | |head| <= k < |all| ensures !IsRealUser(all[k]) {
        assert all[k] == tail[k - |head|];
      }
      if LastReal(head).Some? {
        RealIs(all, LastReal(head).value);
      } else {
        NoReal(all);
      }
    }
  }

  // ---------------------------------------------------------------- where compaction cuts

  /** The message at `k` does not belong with what follows it. */
  predicate Loose(msgs: seq<Message>, k: nat) {
    1 <= k < |msgs| && !Attached(msgs, k + 1)
  }

  /** A message from `u` on, before the newest user message, is loose. */
  ghost predicate CutsAway(msgs: seq<Message>, u: nat)
    requires u >= 1
  {
    |msgs| >= 4 && LastUser(msgs).Some? && exists k: nat :: u <= k < LastUser(msgs).value && Loose(msgs, k)
  }

  lemma {:induction false} WalkStops(msgs: seq<Message>, b: nat, u: nat)
    requires 1 <= u <= b <= |msgs|
    ensures WalkBack(msgs, b) > u <==> exists k: nat :: u <= k < b && Loose(msgs, k)
  {
    hide Attached;
    if u < b {
      assert Loose(msgs, b - 1) <==> !Attached(msgs, b);
      if Attached(msgs, b) {
        WalkStops(msgs, b - 1, u);
      }
    }
  }

  /** In any list, compaction cuts a user message away if and only if some message from it on, before the
      newest user message, is loose. */
  lemma CutIff(msgs: seq<Message>, u: nat)
    requires 1 <= u < |msgs| && msgs[u].role == User
    ensures CompactionEnd(msgs).Some? && CompactionEnd(msgs).value > u <==> CutsAway(msgs, u)
  {
    hide LastUser, WalkBack, Loose;
    if LastUser(msgs).Some? {
      WalkStops(msgs, LastUser(msgs).value, u);
    }
  }

  predicate IsReminder(msgs: seq<Message>, k: nat)
    requires 0 < k < |msgs|
  {
    msgs[k].role == User && !IsRealUser(msgs[k]) && msgs[k - 1].role == Tool
  }

  /** Behind what the user asked at `u` there is nothing but tool calls, results and reminders. */
  ghost predicate Busy(msgs: seq<Message>, u: nat) {
    && 1 <= u < |msgs| && IsRealUser(msgs[u])
    && forall k :: u < k < |msgs| ==> IsOwner(msgs[k]) || msgs[k].role == Tool || IsReminder(msgs, k)
  }

  /** In such a list, once it ends in a reminder, the request is cut away if and only if it does not itself
      stand directly behind a tool result. */
  lemma BusyCut(msgs: seq<Message>, u: nat)
    requires Busy(msgs, u) && u < |msgs| - 1 && IsReminder(msgs, |msgs| - 1)
    ensures CutsAway(msgs, u) <==> !(u > 1 && msgs[u - 1].role == Tool)
  {
    var last := |msgs| - 1;
    assert LastUser(msgs) == Some(last);
    hide LastUser;
    assert last - 1 > u;
    forall k: nat | u < k < last ensures !Loose(msgs, k) {
      assert IsOwner(msgs[k]) || msgs[k].role == Tool || IsReminder(msgs, k);
    }
    assert Loose(msgs, u) <==> !(u > 1 && msgs[u - 1].role == Tool);
    hide Loose;
    assert u <= u < last;
  }

  // ---------------------------------------------------------------- one trim

  lemma SummaryIsNotReal(summary: string)
    ensures !IsRealUser(UserMessage("[Context Summary " + summary))
  {
    assert "[Context Summary" <= "[Context Summary " + summary;
  }

  /** The condition of a cut, on the list and what is known before it. */
  ghost predicate Drops(cfg: Config, msgs: seq<Message>, t: Exchange) {
    var u := LastReal(msgs);
    && EstimateTokens(msgs, t.toolTokens) > cfg.contextBudget
    && t.history.Some? && t.history.value != [] && t.summary.Some?
    && u.Some? && u.value >= 1 && CutsAway(msgs, u.value)
  }

  lemma SystemIsNotReal(msgs: seq<Message>)
    requires Startable(msgs)
    ensures !IsRealUser(msgs[0]) && LastReal(msgs) != Some(0)
  {
    hide LastReal;
    LastRealIs(msgs);
  }

  lemma RebuiltReal(msgs: seq<Message>, summary: Message, end: nat)
    requires Startable(msgs) && !IsRealUser(summary) && 1 <= end <= |msgs|
    ensures var r := WithMemory(msgs[0], Some(summary), msgs[end..]);
            && Startable(r) && r == [msgs[0], summary] + msgs[end..]
            && NewestReal(r) == if LastReal(msgs).Some? && LastReal(msgs).value >= end then NewestReal(msgs) else None
  {
    hide LastReal, NewestReal, IsRealUser, WithMemory;
    var head := [msgs[0], summary];
    SystemIsNotReal(msgs);
    NoReal(head);
    RealBehind(head, msgs[end..]);
    TailReal(msgs, end);
    Rebuilt(msgs, summary, end);
  }

  lemma TailReal(msgs: seq<Message>, end: nat)
    requires end <= |msgs|
    ensures NewestReal(msgs[end..]) == if LastReal(msgs).Some? && LastReal(msgs).value >= end then NewestReal(msgs) else None
    ensures LastReal(msgs[end..]).Some? <==> LastReal(msgs).Some? && LastReal(msgs).value >= end
  {
    hide LastReal, IsRealUser;
    RealBehind(msgs[..end], msgs[end..]);
    assert msgs == msgs[..end] + msgs[end..];
  }

  lemma Rebuilt(msgs: seq<Message>, summary: Message, end: nat)
    requires msgs != [] && end <= |msgs|
    ensures WithMemory(msgs[0], Some(summary), msgs[end..]) == [msgs[0], summary] + msgs[end..]
  {
  }

  lemma NothingReal(msgs: seq<Message>)
    requires LastReal(msgs) == None
    ensures NewestReal(msgs) == None
  {
    hide LastReal;
  }

  lemma CompactedReal(cfg: Config, msgs: seq<Message>, t: Exchange)
    requires Startable(msgs) && t.history.Some? && EstimateTokens(msgs, t.toolTokens) > cfg.contextBudget
    ensures var r := Compacted(false, msgs, t, t.history.value);
            Startable(r) && NewestReal(r) == if Drops(cfg, msgs, t) then None else NewestReal(msgs)
  {
    hide LastReal, NewestReal, CompactionEnd, CutsAway, WithMemory, EstimateTokens, IsNudge, Startable;
    SystemIsNotReal(msgs);
    var end := CompactionEnd(msgs);
    var u := LastReal(msgs);
    if u.Some? {
      LastRealIs(msgs);
      CutIff(msgs, u.value);
    } else {
      NothingReal(msgs);
    }
    hide IsRealUser;
    if end.Some? && t.summary.Some? {
      SummaryIsNotReal(t.summary.value);
      RebuiltReal(msgs, UserMessage("[Context Summary " + t.summary.value), end.value);
    }
  }

  lemma ReminderIsNotReal()
    ensures !IsRealUser(UserMessage(REINFORCEMENT))
  {
    assert "[SYSTEM REMINDER]" <= REINFORCEMENT;
  }

  lemma ReminderReal(msgs: seq<Message>)
    requires Startable(msgs)
    ensures var r := msgs + [UserMessage(REINFORCEMENT)];
            Startable(r) && LastReal(r) == LastReal(msgs) && NewestReal(r) == NewestReal(msgs)
  {
    hide IsRealUser;
    ReminderIsNotReal();
    RealBehind(msgs, [UserMessage(REINFORCEMENT)]);
  }

  /** After tool calls the list still holds what the user asked, unless it is over budget, there is a history
      and a summary, and the cut lies behind it: then it holds no message of a user at all. */
  lemma TrimmedReal(cfg: Config, msgs: seq<Message>, t: Exchange)
    requires !cfg.isLocal && Startable(msgs) && Trimmed(cfg, msgs, t).Some?
    ensures var r, nudged := Trimmed(cfg, msgs, t).value, msgs + [UserMessage(REINFORCEMENT)];
            Startable(r) && NewestReal(r) == if Drops(cfg, nudged, t) then None else NewestReal(msgs)
  {
    hide LastReal, NewestReal, CutsAway, Compacted, EstimateTokens, UserMessage;
    var nudged := msgs + [UserMessage(REINFORCEMENT)];
    ReminderReal(msgs);
    if EstimateTokens(nudged, t.toolTokens) > cfg.contextBudget {
      CompactedReal(cfg, nudged, t);
    }
  }

  // ---------------------------------------------------------------- one turn

  /** The list when all calls of the reply are answered. */
  function AfterBatch(cfg: Config, st: LoopState, t: Exchange): seq<Message>
    requires t.reply.Said?
  {
    var sent := AfterSend(cfg, st, t);
    AfterCalls(cfg, sent.(messages := sent.messages + [AssistantMessage(t.reply.text, t.reply.calls)]), t.reply.calls, t.answers).messages
  }

  /** In this turn compaction cuts away what the user asked. */
  ghost predicate DropsAt(cfg: Config, st: LoopState, t: Exchange) {
    && MaySend(cfg, st, t) && t.reply.Said? && t.reply.calls != []
    && Drops(cfg, AfterBatch(cfg, st, t) + [UserMessage(REINFORCEMENT)], t)
  }

  /** The newest thing a user wrote, when these are queued behind it. */
  function OnQueue(before: Option<string>, texts: seq<string>): Option<string> {
    if NewestReal(UserMessages(texts)).Some? then NewestReal(UserMessages(texts)) else before
  }

  lemma QueuedReal(msgs: seq<Message>, texts: seq<string>)
    requires Startable(msgs)
    ensures var m := msgs + UserMessages(texts);
            Startable(m) && NewestReal(m) == OnQueue(NewestReal(msgs), texts)
  {
    hide LastReal, UserMessages;
    RealBehind(msgs, UserMessages(texts));
  }

  /** Tool calls and their results. */
  ghost predicate WorkTail(tail: seq<Message>) {
    |tail| >= 2 && tail[|tail| - 1].role == Tool && forall k :: 0 <= k < |tail| ==> IsOwner(tail[k]) || tail[k].role == Tool
  }

  lemma NotWritten(tail: seq<Message>)
    requires WorkTail(tail)
    ensures LastReal(tail) == None && NewestReal(tail) == None
  {
    NoReal(tail);
  }

  lemma BatchIsWork(owner: Message, results: seq<Message>)
    requires IsOwner(owner) && AnswerAll(results, owner.calls)
    ensures WorkTail([owner] + results)
  {
    var tail := [owner] + results;
    forall k | 0 < k < |tail| ensures tail[k].role == Tool {
      assert Answers(results[k - 1], owner.calls[k - 1]);
    }
  }

  lemma BatchReal(cfg: Config, st: LoopState, t: Exchange) returns (tail: seq<Message>)
    requires !cfg.isLocal && Startable(st.messages) && t.reply.Said? && t.reply.calls != []
    ensures AfterBatch(cfg, st, t) == st.messages + UserMessages(t.queued) + tail && WorkTail(tail)
    ensures Startable(AfterBatch(cfg, st, t))
    ensures NewestReal(AfterBatch(cfg, st, t)) == OnQueue(NewestReal(st.messages), t.queued)
  {
    hide AfterCalls, LastReal, UserMessages, NewestReal, OnQueue, WorkTail, AnswerAll;
    var m := st.messages + UserMessages(t.queued);
    var owner := AssistantMessage(t.reply.text, t.reply.calls);
    var results := BatchAddsResults(cfg, AfterSend(cfg, st, t).(messages := m + [owner]), t.reply.calls, t.answers);
    tail := [owner] + results;
    QueuedReal(st.messages, t.queued);
    assert m + [owner] + results == m + tail;
    BatchIsWork(owner, results);
    NotWritten(tail);
    RealBehind(m, tail);
  }

  /** One turn of the loop: what the list holds afterwards, and what the request held. */
  lemma IterateReal(cfg: Config, st: LoopState, t: Exchange)
    requires !cfg.isLocal && Startable(st.messages)
    ensures var after := Iterate(cfg, st, t);
            && Startable(after.messages)
            && (!after.ended ==> NewestReal(after.messages) == if DropsAt(cfg, st, t) then None else OnQueue(NewestReal(st.messages), t.queued))
            && (if MaySend(cfg, st, t)
                then |after.sent| == |st.sent| + 1 && after.sent[..|st.sent|] == st.sent
                     && NewestReal(after.sent[|st.sent|].messages) == OnQueue(NewestReal(st.messages), t.queued)
                else after.sent == st.sent && after.ended)
  {
    hide AfterCalls, NewestReal, OnQueue, Drops, Trimmed, Reinforced, UserMessages, UserMessage, Startable;
    SentLog(cfg, st, t);
    QueuedReal(st.messages, t.queued);
    if MaySend(cfg, st, t) && t.reply.Said? && t.reply.calls != [] {
      var tail := BatchReal(cfg, st, t);
      var m := AfterBatch(cfg, st, t);
      if Trimmed(cfg, m, t).Some? {
        TrimmedReal(cfg, m, t);
      }
      NudgedStarts(cfg, m, t);
    }
  }

  lemma NudgedStarts(cfg: Config, msgs: seq<Message>, t: Exchange)
    requires !cfg.isLocal && Startable(msgs)
    ensures Startable(Reinforced(cfg.isLocal, msgs, t.goal))
  {
  }

  // ---------------------------------------------------------------- whole runs

  /** The newest thing the user wrote, up to the last of these turns. */
  function Wrote(first: seq<Message>, turns: seq<Exchange>): Option<string> {
    if turns == [] then NewestReal(first) else OnQueue(Wrote(first, turns[..|turns| - 1]), turns[|turns| - 1].queued)
  }

  /** It was cut away in one of these turns, and nothing was written since. */
  ghost predicate Forgotten(cfg: Config, first: seq<Message>, enabled: seq<string>, turns: seq<Exchange>) {
    turns != [] &&
    var init, t := turns[..|turns| - 1], turns[|turns| - 1];
    (DropsAt(cfg, Run(cfg, Start(first, enabled), init), t)
     || (Forgotten(cfg, first, enabled, init) && NewestReal(UserMessages(t.queued)).None?))
  }

  /** What the list holds of it. */
  ghost function Remembered(cfg: Config, first: seq<Message>, enabled: seq<string>, turns: seq<Exchange>): Option<string> {
    if Forgotten(cfg, first, enabled, turns) then None else Wrote(first, turns)
  }

  lemma RememberedNext(cfg: Config, first: seq<Message>, enabled: seq<string>, turns: seq<Exchange>)
    requires turns != []
    ensures var init, t := turns[..|turns| - 1], turns[|turns| - 1];
            Remembered(cfg, first, enabled, turns) ==
            if DropsAt(cfg, Run(cfg, Start(first, enabled), init), t) then None
            else OnQueue(Remembered(cfg, first, enabled, init), t.queued)
  {
    hide DropsAt, NewestReal, Run, UserMessages;
  }

  ghost predicate HoldsAsked(cfg: Config, first: seq<Message>, enabled: seq<string>, turns: seq<Exchange>, st: LoopState) {
    && Startable(st.messages) && |st.sent| <= |turns| && (!st.ended ==> |st.sent| == |turns|)
    && (!st.ended ==> NewestReal(st.messages) == Remembered(cfg, first, enabled, turns))
    && forall i :: 0 <= i < |st.sent| ==>
         NewestReal(st.sent[i].messages) == OnQueue(Remembered(cfg, first, enabled, turns[..i]), turns[i].queued)
  }

  /** Every request of every run with a model that is not local holds, as its newest message of a user, the
      newest thing the user wrote, exactly unless a trim since has cut that away; then it holds none. */
  lemma {:induction false} RunHoldsAsked(cfg: Config, first: seq<Message>, enabled: seq<string>, turns: seq<Exchange>)
    requires !cfg.isLocal && Startable(first)
    ensures HoldsAsked(cfg, first, enabled, turns, Run(cfg, Start(first, enabled), turns))
  {
    hide DropsAt, NewestReal, OnQueue, Iterate, Startable, HoldsAsked;
    if turns == [] {
      NothingHappened(cfg, first, enabled);
    } else {
      var init, t := turns[..|turns| - 1], turns[|turns| - 1];
      RunHoldsAsked(cfg, first, enabled, init);
      StepHoldsAsked(cfg, first, enabled, turns, Run(cfg, Start(first, enabled), init));
    }
  }

  lemma NothingHappened(cfg: Config, first: seq<Message>, enabled: seq<string>)
    requires Startable(first)
    ensures HoldsAsked(cfg, first, enabled, [], Start(first, enabled))
  {
    hide NewestReal;
  }

  lemma StepHoldsAsked(cfg: Config, first: seq<Message>, enabled: seq<string>, turns: seq<Exchange>, st: LoopState)
    requires !cfg.isLocal && turns != [] && st == Run(cfg, Start(first, enabled), turns[..|turns| - 1])
    requires HoldsAsked(cfg, first, enabled, turns[..|turns| - 1], st)
    ensures HoldsAsked(cfg, first, enabled, turns, if st.ended then st else Iterate(cfg, st, turns[|turns| - 1]))
  {
    hide DropsAt, NewestReal, OnQueue, Iterate, Startable, Run, Remembered, MaySend;
    var init, t := turns[..|turns| - 1], turns[|turns| - 1];
    RememberedNext(cfg, first, enabled, turns);
    if !st.ended {
      IterateReal(cfg, st, t);
      assert turns[..|st.sent|] == init;
    }
    var after := if st.ended then st else Iterate(cfg, st, t);
    forall i | 0 <= i < |after.sent|
      ensures NewestReal(after.sent[i].messages) == OnQueue(Remembered(cfg, first, enabled, turns[..i]), turns[i].queued)
    {
      if i < |st.sent| {
        assert after.sent[i] == st.sent[i] && turns[..i] == init[..i];
      }
    }
  }

  // ---------------------------------------------------------------- the condition of a cut, in plain terms

  ghost predicate BusyList(msgs: seq<Message>) {
    LastReal(msgs).Some? ==> Busy(msgs, LastReal(msgs).value)
  }

  /** No user queues a text that reads like one of the runtime's own messages. */
  ghost predicate AllReal(texts: seq<string>) {
    forall i :: 0 <= i < |texts| ==> !IsNudge(texts[i])
  }

  lemma QueuedBusy(msgs: seq<Message>, texts: seq<string>)
    requires Startable(msgs) && BusyList(msgs) && AllReal(texts)
    ensures BusyList(msgs + UserMessages(texts))
  {
    hide LastReal, IsNudge;
    if texts == [] {
      assert msgs + UserMessages(texts) == msgs;
    } else {
      var m := msgs + UserMessages(texts);
      assert m[|m| - 1] == UserMessage(texts[|texts| - 1]);
      RealIs(m, |m| - 1);
    }
  }

  lemma TailBusy(msgs: seq<Message>, tail: seq<Message>)
    requires BusyList(msgs) && WorkTail(tail)
    ensures BusyList(msgs + tail) && LastReal(msgs + tail) == LastReal(msgs)
  {
    hide LastReal, IsRealUser;
    NotWritten(tail);
    RealBehind(msgs, tail);
    var m := msgs + tail;
    if LastReal(m).Some? {
      var u := LastReal(m).value;
      assert Busy(msgs, u);
      forall k | u < k < |m| ensures IsOwner(m[k]) || m[k].role == Tool || IsReminder(m, k) {
        if k < |msgs| {
          assert IsOwner(msgs[k]) || msgs[k].role == Tool || IsReminder(msgs, k);
        } else {
          assert m[k] == tail[k - |msgs|];
        }
      }
    }
  }

  lemma ReminderBusy(msgs: seq<Message>)
    requires Startable(msgs) && BusyList(msgs) && msgs[|msgs| - 1].role == Tool
    ensures BusyList(msgs + [UserMessage(REINFORCEMENT)])
  {
    hide LastReal, IsRealUser;
    ReminderIsNotReal();
    ReminderReal(msgs);
    var m := msgs + [UserMessage(REINFORCEMENT)];
    if LastReal(m).Some? {
      var u := LastReal(m).value;
      assert Busy(msgs, u);
      forall k | u < k < |m| ensures IsOwner(m[k]) || m[k].role == Tool || IsReminder(m, k) {
        if k < |msgs| {
          assert IsOwner(msgs[k]) || msgs[k].role == Tool || IsReminder(msgs, k);
        }
      }
    }
  }

  lemma RebuiltBusy(msgs: seq<Message>, summary: Message, end: nat)
    requires Startable(msgs) && BusyList(msgs) && !IsRealUser(summary) && 1 <= end <= |msgs|
    ensures BusyList([msgs[0], summary] + msgs[end..])
  {
    hide LastReal, IsRealUser;
    var r := [msgs[0], summary] + msgs[end..];
    RebuiltReal(msgs, summary, end);
    if LastReal(r).Some? {
      var u := LastReal(msgs).value;
      assert Busy(msgs, u) && u >= end;
      var v := u - end + 2;
      assert r[v] == msgs[u];
      forall k | v < k < |r| ensures (IsOwner(r[k]) || r[k].role == Tool || IsReminder(r, k)) && !IsRealUser(r[k]) {
        var j := k - 2 + end;
        assert r[k] == msgs[j] && r[k - 1] == msgs[j - 1];
        assert IsOwner(msgs[j]) || msgs[j].role == Tool || IsReminder(msgs, j);
        NotWrittenBehind(msgs, j);
      }
      RealIs(r, v);
    }
  }

  lemma NotWrittenBehind(msgs: seq<Message>, j: nat)
    requires 0 < j < |msgs| && (IsOwner(msgs[j]) || msgs[j].role == Tool || IsReminder(msgs, j))
    ensures !IsRealUser(msgs[j])
  {
  }

  /** A turn keeps the shape: behind what the user asked nothing but tool calls, results and reminders. */
  lemma IterateBusy(cfg: Config, st: LoopState, t: Exchange)
    requires !cfg.isLocal && Startable(st.messages) && BusyList(st.messages) && AllReal(t.queued)
    ensures !Iterate(cfg, st, t).ended ==> BusyList(Iterate(cfg, st, t).messages)
  {
    hide AfterCalls, BusyList, Trimmed, Reinforced, UserMessages, UserMessage, Startable, AllReal;
    QueuedBusy(st.messages, t.queued);
    if MaySend(cfg, st, t) && t.reply.Said? && t.reply.calls != [] {
      NudgedBusy(cfg, st, t);
      var tail := BatchReal(cfg, st, t);
      if Trimmed(cfg, AfterBatch(cfg, st, t), t).Some? {
        TrimmedBusy(cfg, AfterBatch(cfg, st, t), t);
      }
    }
  }

  /** The list behind the answers, and with the reminder. */
  lemma NudgedBusy(cfg: Config, st: LoopState, t: Exchange)
    requires !cfg.isLocal && Startable(st.messages) && BusyList(st.messages) && AllReal(t.queued)
    requires t.reply.Said? && t.reply.calls != []
    ensures var m, b := st.messages + UserMessages(t.queued), AfterBatch(cfg, st, t);
            var nudged := b + [UserMessage(REINFORCEMENT)];
            && m <= nudged && LastReal(nudged) == LastReal(m) && BusyList(m) && BusyList(nudged) && Startable(nudged)
            && |nudged| > |m| + 2 && IsReminder(nudged, |nudged| - 1)
  {
    hide AfterBatch, BusyList, UserMessages, UserMessage, AllReal, LastReal, IsReminder, Startable, WorkTail, OnQueue, NewestReal;
    var m, b := st.messages + UserMessages(t.queued), AfterBatch(cfg, st, t);
    QueuedBusy(st.messages, t.queued);
    QueuedReal(st.messages, t.queued);
    var tail := BatchReal(cfg, st, t);
    TailNudged(m, tail);
  }

  lemma TailNudged(m: seq<Message>, tail: seq<Message>)
    requires Startable(m) && BusyList(m) && WorkTail(tail)
    ensures var nudged := m + tail + [UserMessage(REINFORCEMENT)];
            && m <= nudged && LastReal(nudged) == LastReal(m) && BusyList(nudged) && Startable(nudged)
            && |nudged| > |m| + 2 && IsReminder(nudged, |nudged| - 1)
  {
    hide BusyList, LastReal, IsRealUser, IsOwner;
    TailBusy(m, tail);
    ReminderBusy(m + tail);
    ReminderReal(m + tail);
    ReminderIsNotReal();
  }

  lemma TrimmedBusy(cfg: Config, msgs: seq<Message>, t: Exchange)
    requires !cfg.isLocal && Startable(msgs) && BusyList(msgs + [UserMessage(REINFORCEMENT)]) && Trimmed(cfg, msgs, t).Some?
    ensures BusyList(Trimmed(cfg, msgs, t).value)
  {
    hide BusyList, CompactionEnd, WithMemory, EstimateTokens, IsRealUser, UserMessage;
    var nudged := msgs + [UserMessage(REINFORCEMENT)];
    if CompactionEnd(nudged).Some? && t.summary.Some? {
      var end := CompactionEnd(nudged).value;
      SummaryIsNotReal(t.summary.value);
      RebuiltBusy(nudged, UserMessage("[Context Summary " + t.summary.value), end);
      Rebuilt(nudged, UserMessage("[Context Summary " + t.summary.value), end);
    }
  }

  lemma {:induction false} RunBusy(cfg: Config, first: seq<Message>, enabled: seq<string>, turns: seq<Exchange>)
    requires !cfg.isLocal && Startable(first) && BusyList(first) && forall i :: 0 <= i < |turns| ==> AllReal(turns[i].queued)
    ensures var st := Run(cfg, Start(first, enabled), turns);
            Startable(st.messages) && (!st.ended ==> BusyList(st.messages))
  {
    hide BusyList, AllReal, Iterate, Startable;
    if turns != [] {
      var init := turns[..|turns| - 1];
      RunBusy(cfg, first, enabled, init);
      var st := Run(cfg, Start(first, enabled), init);
      if !st.ended {
        IterateBusy(cfg, st, turns[|turns| - 1]);
        IterateReal(cfg, st, turns[|turns| - 1]);
      }
    }
  }

  /** From a list that ends in what the user asked, and when queued texts do not read like the runtime's own
      messages, a turn with tool calls cuts the request away if and only if the list with the reminder is over
      the context budget, there are history rows, the summary succeeds, and the request does not stand directly
      behind a tool result. */
  lemma DropsAtIff(cfg: Config, first: seq<Message>, enabled: seq<string>, turns: seq<Exchange>, t: Exchange)
    requires !cfg.isLocal && Startable(first) && BusyList(first) && AllReal(t.queued)
    requires forall i :: 0 <= i < |turns| ==> AllReal(turns[i].queued)
    requires !Run(cfg, Start(first, enabled), turns).ended && t.reply.Said? && t.reply.calls != []
    ensures var st := Run(cfg, Start(first, enabled), turns);
            var m, u := st.messages + UserMessages(t.queued), LastReal(st.messages + UserMessages(t.queued));
            DropsAt(cfg, st, t) <==>
            && MaySend(cfg, st, t)
            && EstimateTokens(AfterBatch(cfg, st, t) + [UserMessage(REINFORCEMENT)], t.toolTokens) > cfg.contextBudget
            && t.history.Some? && t.history.value != [] && t.summary.Some?
            && u.Some? && !(u.value > 1 && m[u.value - 1].role == Tool)
  {
    hide AfterBatch, EstimateTokens, UserMessages, AllReal, LastReal, CutsAway, MaySend, Run, Startable, IsReminder, UserMessage;
    var st := Run(cfg, Start(first, enabled), turns);
    RunBusy(cfg, first, enabled, turns);
    NudgedBusy(cfg, st, t);
    var m, nudged := st.messages + UserMessages(t.queued), AfterBatch(cfg, st, t) + [UserMessage(REINFORCEMENT)];
    if LastReal(m).Some? {
      BusyCut(nudged, LastReal(m).value);
      assert Busy(m, LastReal(m).value);
    }
  }

  // ---------------------------------------------------------------- a run that forgets

  lemma SomeTokens(msgs: seq<Message>)
    requires msgs != []
    ensures EstimateTokens(msgs, 0) > 0
  {
  }

  lemma FreshList(text: string)
    requires !IsNudge(text)
    ensures var first := [Message(System, "", None, None, [], None), UserMessage(text)];
            Startable(first) && BusyList(first) && LastReal(first) == Some(1) && NewestReal(first) == Some(text)
  {
    hide IsNudge, LastReal;
    RealIs([Message(System, "", None, None, [], None), UserMessage(text)], 1);
  }

  lemma NothingQueued(before: Option<string>)
    ensures OnQueue(before, []) == before && UserMessages([]) == [] && AllReal([])
  {
  }

  lemma StandingIsShort(log: seq<Dispatch>)
    ensures Standing(log) <= |log|
  {
  }

  lemma OneCall(cfg: Config, first: seq<Message>, t: Exchange)
    requires !cfg.isLocal && cfg.budget == 2 && t.quotaLeft && t.reply.Said? && |t.reply.calls| == 1 && t.history.Some?
    ensures var one := Iterate(cfg, Start(first, []), t); !one.ended && MaySend(cfg, one, t) && MaySend(cfg, Start(first, []), t)
  {
    hide AfterCalls, Compacted, EstimateTokens, Reinforced, UserMessages, Permitted;
    var sent := AfterSend(cfg, Start(first, []), t);
    var asked := sent.(messages := sent.messages + [AssistantMessage(t.reply.text, t.reply.calls)]);
    CallsKeepBooks(cfg, asked, t.reply.calls, t.answers);
    StandingIsShort(AfterCalls(cfg, asked, t.reply.calls, t.answers).log);
  }

  lemma FirstTurnForgets(cfg: Config, text: string, t: Exchange)
    requires !cfg.isLocal && cfg.contextBudget == 0 && !IsNudge(text) && t.queued == [] && t.toolTokens == 0
    requires t.reply.Said? && t.reply.calls != [] && t.history.Some? && t.history.value != [] && t.summary.Some?
    ensures var first := [Message(System, "", None, None, [], None), UserMessage(text)];
            MaySend(cfg, Start(first, []), t) ==> Forgotten(cfg, first, [], [t]) && DropsAt(cfg, Start(first, []), t)
  {
    hide AfterBatch, EstimateTokens, IsNudge, DropsAt, MaySend, BusyList, AllReal, Startable, NewestReal, UserMessages, LastReal;
    var first := [Message(System, "", None, None, [], None), UserMessage(text)];
    FreshList(text);
    NothingQueued(None);
    SomeTokens(AfterBatch(cfg, Start(first, []), t) + [UserMessage(REINFORCEMENT)]);
    DropsAtIff(cfg, first, [], [], t);
    assert first + UserMessages([]) == first;
    assert [t][..0] == [];
  }

  /** Whatever the user asks, a run can lose it: its second request holds no message of a user. */
  lemma RequestIsLost(text: string) returns (cfg: Config, first: seq<Message>, turns: seq<Exchange>)
    requires !IsNudge(text)
    ensures first == [Message(System, "", None, None, [], None), UserMessage(text)]
    ensures var st := Run(cfg, Start(first, []), turns);
            |st.sent| == 2 && NewestReal(st.sent[0].messages) == Some(text) && NewestReal(st.sent[1].messages) == None
  {
    hide EstimateTokens, IsNudge, Iterate, DropsAt, AfterBatch, Startable, Run, NewestReal, UserMessages, OnQueue, MaySend, BusyList;
    cfg := Config(false, 2, [], map[], [], None, Memory([], ""), 0);
    first := [Message(System, "", None, None, [], None), UserMessage(text)];
    var call := Said("", [ToolCall("a", "x", "")]);
    var t := Exchange([], true, call, (i: nat) => CallAnswer(false, "", None), "", 0, Some([1]), Memory([], ""), false, false, Some(""));
    turns := [t, t];
    var start := Start(first, []);
    FreshList(text);
    OneCall(cfg, first, t);
    FirstTurnForgets(cfg, text, t);
    assert turns[..1] == [t] && [t][..0] == [] && turns[..0] == [];
    RunNothing(cfg, start);
    RunLast(cfg, start, [t]);
    RunLast(cfg, start, turns);
    IterateReal(cfg, start, t);
    IterateReal(cfg, Iterate(cfg, start, t), t);
    RunHoldsAsked(cfg, first, [], turns);
    NothingQueued(Some(text));
    NothingQueued(None);
  }
}
