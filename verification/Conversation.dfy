/** The message list sent to a model, and the tool-call groups in it that must stay whole. */
module Conversation {
  import opened Wrappers

  datatype Role = System | User | Assistant | Tool

  datatype ToolCall = ToolCall(id: string, name: string, arguments: string)

  datatype Part = TextPart(text: string) | ImagePart

  datatype Message = Message(
    role: Role, content: string, callId: Option<string>, name: Option<string>,
    calls: seq<ToolCall>, parts: Option<seq<Part>>)

  function UserMessage(content: string): Message {
    Message(User, content, None, None, [], None)
  }

  function ToolMessage(id: string, name: string, content: string): Message {
    Message(Tool, content, Some(id), Some(name), [], None)
  }

  function AssistantMessage(content: string, calls: seq<ToolCall>): Message {
    Message(Assistant, content, None, None, calls, None)
  }

  // ---------------------------------------------------------------- tokens

  function PartTokens(parts: seq<Part>): nat {
    if parts == [] then 0
    else
      PartTokens(parts[..|parts| - 1]) +
      match parts[|parts| - 1]
      case TextPart(text) => |text| / 4
      case ImagePart => 516
  }

  /** About four bytes a token; an image counts as 516. */
  function ContentTokens(m: Message): nat {
    match m.parts
    case Some(parts) => PartTokens(parts)
    case None => |m.content| / 4
  }

  /** Content tokens plus framing of the messages [lo, hi). */
  function SpanTokens(msgs: seq<Message>, lo: nat, hi: nat): nat
    requires lo <= hi <= |msgs|
  {
    if lo == hi then 0 else SpanTokens(msgs, lo, hi - 1) + ContentTokens(msgs[hi - 1]) + 4
  }

  function CallTokens(calls: seq<ToolCall>): nat {
    if calls == [] then 0
    else
      var c := calls[|calls| - 1];
      CallTokens(calls[..|calls| - 1]) + |c.name| / 4 + 4 + |c.arguments| / 4
  }

  /** The estimate for a whole request whose tool descriptions take `toolTokens`. */
  function EstimateTokens(msgs: seq<Message>, toolTokens: nat): nat {
    if msgs == [] then toolTokens
    else
      var m := msgs[|msgs| - 1];
      EstimateTokens(msgs[..|msgs| - 1], toolTokens) + ContentTokens(m) + 4 + CallTokens(m.calls) +
      if m.role == Tool && m.name.Some? then |m.name.value| / 4 + 2 else 0
  }

  /** What some messages cost alone, by their texts. */
  lemma MessageCosts(text: string, name: string, call: ToolCall)
    ensures EstimateTokens([UserMessage(text)], 0) == |text| / 4 + 4
    ensures EstimateTokens([ToolMessage(call.id, name, text)], 0) == |text| / 4 + 4 + |name| / 4 + 2
    ensures EstimateTokens([AssistantMessage(text, [call])], 0) == |text| / 4 + 4 + (|call.name| / 4 + 4 + |call.arguments| / 4)
  {
    assert [call][..0] == [];
    assert [UserMessage(text)][..0] == [] && [ToolMessage(call.id, name, text)][..0] == [] && [AssistantMessage(text, [call])][..0] == [];
  }

  /** A list costs what its parts cost, and the tool descriptions once. */
  lemma {:induction false} EstimateSplits(a: seq<Message>, b: seq<Message>, toolTokens: nat)
    ensures EstimateTokens(a + b, toolTokens) == EstimateTokens(a, toolTokens) + EstimateTokens(b, 0)
  {
    hide ContentTokens, CallTokens;
    if b == [] {
      assert a + b == a;
    } else {
      var n := |b| - 1;
      EstimateSplits(a, b[..n], toolTokens);
      assert (a + b)[..|a| + n] == a + b[..n];
    }
  }

  // ---------------------------------------------------------------- kinds of messages

  const MEMORY_MARK := "[Thread Memory"

  /** A user message the runtime wrote itself. */
  predicate IsNudge(content: string) {
    || MEMORY_MARK <= content
    || "[SYSTEM REMINDER]" <= content
    || "[Context Summary" <= content
    || "[Sliding window trim" <= content
    || "[Context reset" <= content
    || "---\nContinue your analysis" <= content
  }

  predicate IsRealUser(m: Message) {
    m.role == User && !IsNudge(m.content)
  }

  predicate IsMemory(m: Message) {
    m.role == User && MEMORY_MARK <= m.content
  }

  /** The body starts after the system prompt and the memory message, if there is one. */
  function DetectBodyStart(msgs: seq<Message>): nat {
    if |msgs| > 1 && IsMemory(msgs[1]) then 2 else 1
  }

  /** The memory message for the stored entries; `digest` is their rendering. */
  function BuildMemoryMessage(entries: seq<(string, string)>, digest: string): Option<Message> {
    if entries == [] then None else Some(UserMessage(MEMORY_MARK + "]\n" + digest))
  }

  // ---------------------------------------------------------------- tool-call groups

  /** An assistant message that opens a group. */
  predicate IsOwner(m: Message) {
    m.role == Assistant && m.calls != []
  }

  predicate Answers(m: Message, call: ToolCall) {
    m.role == Tool && m.callId == Some(call.id)
  }

  /** The messages right after an owner answer its calls one by one. */
  ghost predicate GroupAt(msgs: seq<Message>, i: nat)
    requires i < |msgs|
  {
    var calls := msgs[i].calls;
    i + |calls| < |msgs| && forall j :: 0 <= j < |calls| ==> Answers(msgs[i + 1 + j], calls[j])
  }

  /** Every assistant message with k tool calls is followed at once by exactly k tool messages with the same
      ids in order, and there are no other tool messages. */
  ghost predicate Grouped(msgs: seq<Message>)
    decreases |msgs|
  {
    msgs == [] ||
    (msgs[0].role != Tool &&
     if IsOwner(msgs[0]) then GroupAt(msgs, 0) && Grouped(msgs[|msgs[0].calls| + 1..])
     else Grouped(msgs[1..]))
  }

  /** Length of the first group or lone message. */
  function FirstLength(msgs: seq<Message>): nat
    requires msgs != []
  {
    if IsOwner(msgs[0]) then |msgs[0].calls| + 1 else 1
  }

  lemma GroupTools(msgs: seq<Message>)
    requires msgs != [] && GroupAt(msgs, 0)
    ensures forall i :: 0 < i <= |msgs[0].calls| ==> msgs[i].role == Tool
  {
    forall i | 0 < i <= |msgs[0].calls| ensures msgs[i].role == Tool {
      assert Answers(msgs[0 + 1 + (i - 1)], msgs[0].calls[i - 1]);
    }
  }

  lemma {:induction false} GroupedAppend(a: seq<Message>, b: seq<Message>)
    requires Grouped(a) && Grouped(b)
    ensures Grouped(a + b)
    decreases |a|
  {
    if a == [] {
      assert a + b == b;
    } else {
      var k := FirstLength(a);
      GroupedAppend(a[k..], b);
      assert (a + b)[k..] == a[k..] + b;
      if IsOwner(a[0]) {
        assert GroupAt(a + b, 0);
      }
    }
  }

  /** A list may be cut before any message that is not a tool result. */
  lemma {:induction false} GroupedCut(msgs: seq<Message>, i: nat)
    requires Grouped(msgs) && i <= |msgs| && (i < |msgs| ==> msgs[i].role != Tool)
    ensures Grouped(msgs[..i]) && Grouped(msgs[i..])
    decreases |msgs|
  {
    if i == 0 {
      assert msgs[0..] == msgs;
    } else {
      var k := FirstLength(msgs);
      if IsOwner(msgs[0]) {
        GroupTools(msgs);
      }
      var rest := msgs[k..];
      GroupedCut(rest, i - k);
      assert rest[i - k..] == msgs[i..];
      assert msgs[..i][k..] == rest[..i - k];
      if IsOwner(msgs[0]) {
        assert GroupAt(msgs[..i], 0);
      }
    }
  }

  /** In a grouped list a tool result follows its owner or another tool result. */
  lemma {:induction false} ToolFollows(msgs: seq<Message>, i: nat)
    requires Grouped(msgs) && i < |msgs| && msgs[i].role == Tool
    ensures i > 0 && (msgs[i - 1].role == Tool || IsOwner(msgs[i - 1]))
    decreases |msgs|
  {
    var k := FirstLength(msgs);
    if i >= k {
      ToolFollows(msgs[k..], i - k);
    } else if IsOwner(msgs[0]) {
      GroupTools(msgs);
    }
  }

  /** The message at `i` stands among the answers to an owner before it. */
  ghost predicate Owned(msgs: seq<Message>, i: nat)
    requires i < |msgs|
  {
    exists o :: 0 <= o < i <= o + |msgs[o].calls| && IsOwner(msgs[o])
  }

  /** Independent reading: every owner is followed by its answers, and every tool message is one of them. */
  ghost predicate EveryGroupWhole(msgs: seq<Message>) {
    && (forall i :: 0 <= i < |msgs| && IsOwner(msgs[i]) ==> GroupAt(msgs, i))
    && (forall i :: 0 <= i < |msgs| && msgs[i].role == Tool ==> Owned(msgs, i))
  }

  lemma GroupShift(msgs: seq<Message>, k: nat, i: nat)
    requires k + i < |msgs|
    ensures GroupAt(msgs[k..], i) <==> GroupAt(msgs, k + i)
  {
    hide Answers;
    var calls := msgs[k + i].calls;
    assert msgs[k..][i] == msgs[k + i];
    if k + i + |calls| < |msgs| {
      forall j | 0 <= j < |calls|
        ensures Answers(msgs[k..][i + 1 + j], calls[j]) <==> Answers(msgs[k + i + 1 + j], calls[j])
      {
      }
    }
  }

  lemma OwnedShift(msgs: seq<Message>, k: nat, i: nat)
    requires k + i < |msgs|
    ensures Owned(msgs[k..], i) ==> Owned(msgs, k + i)
    ensures Owned(msgs, k + i) && (forall o :: 0 <= o < k && IsOwner(msgs[o]) ==> o + |msgs[o].calls| < k) ==> Owned(msgs[k..], i)
  {
    if Owned(msgs[k..], i) {
      var o :| 0 <= o < i <= o + |msgs[k..][o].calls| && IsOwner(msgs[k..][o]);
      assert IsOwner(msgs[k + o]);
    }
    if Owned(msgs, k + i) && forall o :: 0 <= o < k && IsOwner(msgs[o]) ==> o + |msgs[o].calls| < k {
      var o :| 0 <= o < k + i <= o + |msgs[o].calls| && IsOwner(msgs[o]);
      assert IsOwner(msgs[k..][o - k]);
    }
  }

  lemma {:induction false} GroupedIsWhole(msgs: seq<Message>)
    ensures Grouped(msgs) <==> EveryGroupWhole(msgs)
    decreases |msgs|
  {
    if msgs != [] && msgs[0].role != Tool && (IsOwner(msgs[0]) ==> GroupAt(msgs, 0)) {
      var k := FirstLength(msgs);
      GroupedIsWhole(msgs[k..]);
      WholeByRest(msgs);
    }
  }

  /** Behind a whole first group the rest decides. */
  lemma WholeByRest(msgs: seq<Message>)
    requires msgs != [] && msgs[0].role != Tool && (IsOwner(msgs[0]) ==> GroupAt(msgs, 0))
    ensures FirstLength(msgs) <= |msgs| && (EveryGroupWhole(msgs) <==> EveryGroupWhole(msgs[FirstLength(msgs)..]))
  {
    hide GroupAt, Owned;
    FirstGroup(msgs);
    var k := FirstLength(msgs);
    var rest := msgs[k..];
    forall i | 0 <= i < |rest|
      ensures rest[i] == msgs[k + i] && (GroupAt(rest, i) <==> GroupAt(msgs, k + i)) && (Owned(rest, i) <==> Owned(msgs, k + i))
    {
      GroupShift(msgs, k, i);
      OwnedShift(msgs, k, i);
    }
    if EveryGroupWhole(rest) {
      forall i | k <= i < |msgs| ensures IsOwner(msgs[i]) ==> GroupAt(msgs, i) ensures msgs[i].role == Tool ==> Owned(msgs, i) {
        assert rest[i - k] == msgs[k + (i - k)];
      }
    }
  }

  lemma FirstGroup(msgs: seq<Message>)
    requires msgs != [] && msgs[0].role != Tool && (IsOwner(msgs[0]) ==> GroupAt(msgs, 0))
    ensures FirstLength(msgs) <= |msgs|
    ensures forall i :: 0 < i < FirstLength(msgs) ==> msgs[i].role == Tool && Owned(msgs, i)
  {
    if IsOwner(msgs[0]) {
      GroupTools(msgs);
    }
  }
}
