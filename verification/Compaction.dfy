/** Trimming a conversation: turns, the sliding window, the compaction boundary and the pre-flight repair. */
module Compaction {
  import opened Wrappers
  import opened Conversation

  const TAIL_TOKENS: nat := 6_000
  const MIN_TURNS: nat := 2

  // ---------------------------------------------------------------- turns

  datatype Turn = Turn(start: nat, end: nat, tokens: nat, hasUserRequest: bool)

  /** A turn holds a real user message at most at its start, and knows its tokens and whether it does. */
  ghost predicate IsTurn(msgs: seq<Message>, turn: Turn) {
    && turn.start < turn.end <= |msgs|
    && turn.tokens == SpanTokens(msgs, turn.start, turn.end)
    && turn.hasUserRequest == IsRealUser(msgs[turn.start])
    && forall k :: turn.start < k < turn.end ==> !IsRealUser(msgs[k])
  }

  ghost predicate Spans(turns: seq<Turn>, from: nat, to: nat) {
    if turns == [] then from == to else turns[0].start == from && turns[|turns| - 1].end == to
  }

  ghost predicate AllTurns(msgs: seq<Message>, turns: seq<Turn>) {
    forall i :: 0 <= i < |turns| ==> IsTurn(msgs, turns[i])
  }

  /** The second turn starts where the first one ends, with a real user message. */
  ghost predicate Follows(msgs: seq<Message>, turn: Turn, next: Turn) {
    turn.end == next.start < |msgs| && IsRealUser(msgs[next.start])
  }

  ghost predicate Linked(msgs: seq<Message>, turns: seq<Turn>) {
    forall i, j :: 0 <= i && j == i + 1 < |turns| ==> Follows(msgs, turns[i], turns[j])
  }

  /** The turns tile [from, to), and every turn but the first starts with a real user message. */
  ghost predicate Tiled(msgs: seq<Message>, turns: seq<Turn>, from: nat, to: nat) {
    Spans(turns, from, to) && AllTurns(msgs, turns) && Linked(msgs, turns)
  }

  /** The turns of the body: cut exactly before every real user message but one at its very start. */
  ghost predicate TurnsOf(msgs: seq<Message>, bodyStart: nat, turns: seq<Turn>) {
    if bodyStart >= |msgs| then turns == [] else Tiled(msgs, turns, bodyStart, |msgs|)
  }

  lemma AllAppend(msgs: seq<Message>, a: seq<Turn>, b: seq<Turn>)
    requires AllTurns(msgs, a) && AllTurns(msgs, b)
    ensures AllTurns(msgs, a + b)
  {
    hide IsTurn;
  }

  lemma LinkedAppend(msgs: seq<Message>, a: seq<Turn>, b: seq<Turn>)
    requires Linked(msgs, a) && Linked(msgs, b) && (a != [] && b != [] ==> Follows(msgs, a[|a| - 1], b[0]))
    ensures Linked(msgs, a + b)
  {
    hide Follows;
    var all := a + b;
    forall i, j | 0 <= i && j == i + 1 < |all| ensures Follows(msgs, all[i], all[j]) {
      if j < |a| {
        assert Follows(msgs, a[i], a[j]);
      } else if i >= |a| {
        assert Follows(msgs, b[i - |a|], b[j - |a|]);
      }
    }
  }

  lemma OneTurn(msgs: seq<Message>, turn: Turn)
    requires IsTurn(msgs, turn)
    ensures AllTurns(msgs, [turn]) && Linked(msgs, [turn])
  {
    hide IsTurn, Follows;
  }

  lemma PushTurn(msgs: seq<Message>, turns: seq<Turn>, from: nat, turn: Turn)
    requires Tiled(msgs, turns, from, turn.start) && IsTurn(msgs, turn) && (turns != [] ==> IsRealUser(msgs[turn.start]))
    ensures Tiled(msgs, turns + [turn], from, turn.end)
  {
    hide AllTurns, Linked, SpanTokens, IsRealUser;
    OneTurn(msgs, turn);
    AllAppend(msgs, turns, [turn]);
    LinkedAppend(msgs, turns, [turn]);
  }

  method ParseTurns(msgs: seq<Message>, bodyStart: nat) returns (turns: seq<Turn>)
    ensures TurnsOf(msgs, bodyStart, turns)
    ensures turns == TurnsFrom(msgs, bodyStart)
  {
    turns := [];
    var currentStart := bodyStart;
    var currentHasUser := false;
    var i := bodyStart;
    while i < |msgs|
      invariant bodyStart <= currentStart <= i && (i <= |msgs| || i == bodyStart)
      invariant if i == bodyStart then currentStart == i && !currentHasUser
                else currentStart < i && currentHasUser == IsRealUser(msgs[currentStart])
      invariant forall k :: currentStart < k < i ==> !IsRealUser(msgs[k])
      invariant Tiled(msgs, turns, bodyStart, currentStart) && (turns != [] ==> currentStart < |msgs| && IsRealUser(msgs[currentStart]))
    {
      var isRealUser := IsRealUser(msgs[i]);
      if isRealUser && i > currentStart {
        var turn := Turn(currentStart, i, SpanTokens(msgs, currentStart, i), currentHasUser);
        PushTurn(msgs, turns, bodyStart, turn);
        turns := turns + [turn];
        currentStart := i;
        currentHasUser := true;
      } else if isRealUser {
        currentHasUser := true;
      }
      i := i + 1;
    }
    if currentStart < |msgs| {
      var turn := Turn(currentStart, |msgs|, SpanTokens(msgs, currentStart, |msgs|), currentHasUser);
      PushTurn(msgs, turns, bodyStart, turn);
      turns := turns + [turn];
    }
    TurnsFromTile(msgs, bodyStart);
    TurnsUnique(msgs, bodyStart, turns, TurnsFrom(msgs, bodyStart));
  }

  /** End of the turn that starts at `start`, looking from `i` on. */
  function TurnEndFrom(msgs: seq<Message>, i: nat): (e: nat)
    requires i <= |msgs|
    ensures i <= e <= |msgs| && (e < |msgs| ==> IsRealUser(msgs[e])) && forall k :: i <= k < e ==> !IsRealUser(msgs[k])
    decreases |msgs| - i
  {
    if i == |msgs| || IsRealUser(msgs[i]) then i else TurnEndFrom(msgs, i + 1)
  }

  function TurnsFrom(msgs: seq<Message>, start: nat): (turns: seq<Turn>)
    decreases |msgs| - start
  {
    if start >= |msgs| then []
    else
      var end := TurnEndFrom(msgs, start + 1);
      [Turn(start, end, SpanTokens(msgs, start, end), IsRealUser(msgs[start]))] + TurnsFrom(msgs, end)
  }

  lemma {:induction false} TurnsFromTile(msgs: seq<Message>, start: nat)
    ensures TurnsOf(msgs, start, TurnsFrom(msgs, start))
    decreases |msgs| - start
  {
    if start < |msgs| {
      var end := TurnEndFrom(msgs, start + 1);
      TurnsFromTile(msgs, end);
      var first := Turn(start, end, SpanTokens(msgs, start, end), IsRealUser(msgs[start]));
      assert IsTurn(msgs, first);
      PrependTurn(msgs, first, TurnsFrom(msgs, end));
    }
  }

  lemma PrependTurn(msgs: seq<Message>, first: Turn, rest: seq<Turn>)
    requires IsTurn(msgs, first) && TurnsOf(msgs, first.end, rest) && (first.end < |msgs| ==> IsRealUser(msgs[first.end]))
    ensures Tiled(msgs, [first] + rest, first.start, |msgs|)
  {
    hide AllTurns, Linked, SpanTokens, IsRealUser;
    OneTurn(msgs, first);
    if rest == [] {
      assert [first] + rest == [first];
    } else {
      AllAppend(msgs, [first], rest);
      LinkedAppend(msgs, [first], rest);
    }
  }

  /** A turn ends before a real user message, or it is the last one. */
  lemma TurnEnd(msgs: seq<Message>, turns: seq<Turn>, from: nat, i: nat)
    requires Tiled(msgs, turns, from, |msgs|) && i < |turns|
    ensures turns[i].end < |msgs| ==> i + 1 < |turns| && turns[i + 1].start == turns[i].end && IsRealUser(msgs[turns[i].end])
    ensures turns[i].end == |msgs| ==> i == |turns| - 1
  {
    hide IsRealUser;
    if i + 1 < |turns| {
      assert IsTurn(msgs, turns[i + 1]);
    }
  }

  lemma {:induction false} SameTurn(msgs: seq<Message>, from: nat, a: seq<Turn>, b: seq<Turn>, i: nat)
    requires from < |msgs| && Tiled(msgs, a, from, |msgs|) && Tiled(msgs, b, from, |msgs|) && i < |a|
    ensures i < |b| && a[i] == b[i]
  {
    hide SpanTokens;
    if i > 0 {
      SameTurn(msgs, from, a, b, i - 1);
      TurnEnd(msgs, a, from, i - 1);
      TurnEnd(msgs, b, from, i - 1);
    }
    TurnEnd(msgs, a, from, i);
    TurnEnd(msgs, b, from, i);
    hide IsRealUser, Tiled;
    assert IsTurn(msgs, a[i]) && IsTurn(msgs, b[i]);
  }

  /** There is only one way to cut a body into turns. */
  lemma TurnsUnique(msgs: seq<Message>, bodyStart: nat, a: seq<Turn>, b: seq<Turn>)
    requires TurnsOf(msgs, bodyStart, a) && TurnsOf(msgs, bodyStart, b)
    ensures a == b
  {
    if bodyStart < |msgs| {
      forall i | 0 <= i < |a| ensures i < |b| && a[i] == b[i] {
        SameTurn(msgs, bodyStart, a, b, i);
      }
      if |a| < |b| {
        SameTurn(msgs, bodyStart, b, a, |a|);
      }
    }
  }

  // ---------------------------------------------------------------- the sliding window

  function TailTokens(turns: seq<Turn>, i: nat): nat
    decreases |turns| - i
  {
    if i >= |turns| then 0 else turns[i].tokens + TailTokens(turns, i + 1)
  }

  /** The turns from `i` on are worth keeping alone: tokens, turns and a user request enough. */
  predicate Enough(turns: seq<Turn>, i: nat) {
    && TailTokens(turns, i) >= TAIL_TOKENS
    && i + MIN_TURNS <= |turns|
    && exists j :: i <= j < |turns| && turns[j].hasUserRequest
  }

  lemma {:induction false} SpanSplit(msgs: seq<Message>, lo: nat, mid: nat, hi: nat)
    requires lo <= mid <= hi <= |msgs|
    ensures SpanTokens(msgs, lo, hi) == SpanTokens(msgs, lo, mid) + SpanTokens(msgs, mid, hi)
  {
    if mid < hi {
      SpanSplit(msgs, lo, mid, hi - 1);
    }
  }

  /** The tokens of the last turns are the tokens of the messages they hold. */
  lemma {:induction false} TailTokensAreSpan(msgs: seq<Message>, turns: seq<Turn>, from: nat, i: nat)
    requires Tiled(msgs, turns, from, |msgs|) && i < |turns|
    ensures turns[i].start <= |msgs| && TailTokens(turns, i) == SpanTokens(msgs, turns[i].start, |msgs|)
    decreases |turns| - i
  {
    assert IsTurn(msgs, turns[i]);
    TurnEnd(msgs, turns, from, i);
    if i + 1 < |turns| {
      TailTokensAreSpan(msgs, turns, from, i + 1);
      SpanSplit(msgs, turns[i].start, turns[i].end, |msgs|);
    }
  }

  datatype Trim = Trim(messages: seq<Message>, cut: nat, trimmed: nat, turnsTrimmed: nat, turnsKept: nat, upToSeq: int)

  datatype TrimError = NoHistory

  /** Sequence number of the last trimmed row, the last row if the index is past the history. */
  function MapIndexToSeq(exclusiveEnd: nat, history: seq<int>): Option<int> {
    if exclusiveEnd >= 2 && exclusiveEnd - 2 < |history| then Some(history[exclusiveEnd - 2])
    else if history != [] then Some(history[|history| - 1])
    else None
  }

  function WithMemory(system: Message, memory: Option<Message>, tail: seq<Message>): seq<Message> {
    [system] + (if memory.Some? then [memory.value] else []) + tail
  }

  /** The last turns may be trimmed to those from `i` on, and to no shorter suffix. */
  ghost predicate ShortestTail(turns: seq<Turn>, i: nat) {
    0 < i < |turns| && Enough(turns, i) && forall k :: i < k < |turns| ==> !Enough(turns, k)
  }

  /** A shortest tail exists as soon as any proper suffix of the turns is worth keeping, and it is unique. */
  lemma ShortestTailExists(turns: seq<Turn>)
    ensures (exists i: nat :: ShortestTail(turns, i)) <==> (exists i :: 0 < i < |turns| && Enough(turns, i))
    ensures forall i: nat, j: nat :: ShortestTail(turns, i) && ShortestTail(turns, j) ==> i == j
  {
    hide Enough;
    if i: nat :| 0 < i < |turns| && Enough(turns, i) {
      var best := LatestEnough(turns, i);
    }
  }

  lemma {:induction false} LatestEnough(turns: seq<Turn>, i: nat) returns (best: nat)
    requires 0 < i < |turns| && Enough(turns, i)
    ensures ShortestTail(turns, best)
    decreases |turns| - i
  {
    hide Enough;
    if k: nat :| i < k < |turns| && Enough(turns, k) {
      best := LatestEnough(turns, k);
    } else {
      best := i;
    }
  }

  /** Walking the turns back to front, the first tail worth keeping; 0 when that is everything or nothing. */
  function TailStart(turns: seq<Turn>, hi: nat): nat
    requires hi <= |turns|
  {
    if hi == 0 then 0 else if Enough(turns, hi - 1) then hi - 1 else TailStart(turns, hi - 1)
  }

  lemma {:induction false} TailStartMeaning(turns: seq<Turn>, hi: nat)
    requires hi <= |turns| && forall k :: hi <= k < |turns| ==> !Enough(turns, k)
    ensures var b := TailStart(turns, hi);
            && (b == 0 ==> forall i :: 0 < i < |turns| ==> !Enough(turns, i))
            && (b > 0 ==> ShortestTail(turns, b))
  {
    hide Enough;
    if hi > 0 && !Enough(turns, hi - 1) {
      TailStartMeaning(turns, hi - 1);
    }
  }

  method TailBoundary(turns: seq<Turn>) returns (boundary: nat)
    ensures boundary == TailStart(turns, |turns|)
  {
    var tailTokens, tailHasUser := 0, false;
    boundary := |turns|;
    while boundary > 0
      invariant boundary <= |turns|
      invariant tailTokens == TailTokens(turns, boundary)
      invariant tailHasUser <==> exists j :: boundary <= j < |turns| && turns[j].hasUserRequest
      invariant TailStart(turns, boundary) == TailStart(turns, |turns|)
    {
      boundary := boundary - 1;
      tailTokens := tailTokens + turns[boundary].tokens;
      if turns[boundary].hasUserRequest {
        tailHasUser := true;
      }
      if tailTokens >= TAIL_TOKENS && |turns| - boundary >= MIN_TURNS && tailHasUser {
        break;
      }
    }
  }

  /** The window as a function of the list; the token trigger is half the budget. */
  function WindowTrim(msgs: seq<Message>, toolTokens: nat, history: seq<int>, memory: Option<Message>, budget: nat)
    : Result<Option<Trim>, TrimError>
  {
    var bodyStart := DetectBodyStart(msgs);
    var turns := TurnsFrom(msgs, bodyStart);
    var boundary := TailStart(turns, |turns|);
    if EstimateTokens(msgs, toolTokens) <= budget / 2 || |turns| < 2 || boundary == 0 then Ok(None)
    else
      TailStartInside(msgs, bodyStart);
      var cut := turns[boundary].start;
      match MapIndexToSeq(cut, history)
      case None => Err(NoHistory)
      case Some(upToSeq) =>
        Ok(Some(Trim(WithMemory(msgs[0], memory, msgs[cut..]), cut, cut - bodyStart, boundary, |turns| - boundary, upToSeq)))
  }

  lemma TailStartInside(msgs: seq<Message>, bodyStart: nat)
    requires TailStart(TurnsFrom(msgs, bodyStart), |TurnsFrom(msgs, bodyStart)|) > 0
    ensures var turns := TurnsFrom(msgs, bodyStart);
            var boundary := TailStart(turns, |turns|);
            boundary < |turns| && bodyStart < turns[boundary].start < |msgs| && IsRealUser(msgs[turns[boundary].start])
  {
    var turns := TurnsFrom(msgs, bodyStart);
    TailStartMeaning(turns, |turns|);
    TurnsFromTile(msgs, bodyStart);
    CutInside(msgs, turns, bodyStart, TailStart(turns, |turns|));
  }

  method SlidingWindowTrim(
    msgs: seq<Message>, toolTokens: nat, history: seq<int>, memory: Option<Message>, budget: nat)
    returns (r: Result<Option<Trim>, TrimError>)
    ensures r == WindowTrim(msgs, toolTokens, history, memory, budget)
  {
    hide EstimateTokens, MapIndexToSeq, TailStart, TurnsFrom;
    var estimated := EstimateTokens(msgs, toolTokens);
    if estimated <= budget / 2 {
      return Ok(None);
    }
    var bodyStart := DetectBodyStart(msgs);
    var turns := ParseTurns(msgs, bodyStart);
    if |turns| < 2 {
      return Ok(None);
    }
    var boundary := TailBoundary(turns);
    if boundary == 0 {
      return Ok(None);
    }
    TailStartInside(msgs, bodyStart);
    var cut := turns[boundary].start;
    var upToSeq := MapIndexToSeq(cut, history);
    if upToSeq == None {
      return Err(NoHistory);
    }
    r := Ok(Some(Trim(WithMemory(msgs[0], memory, msgs[cut..]), cut, cut - bodyStart, boundary, |turns| - boundary, upToSeq.value)));
  }

  lemma TailStartIff(turns: seq<Turn>)
    ensures TailStart(turns, |turns|) > 0 <==> exists i :: 0 < i < |turns| && Enough(turns, i)
    ensures TailStart(turns, |turns|) > 0 ==> ShortestTail(turns, TailStart(turns, |turns|))
  {
    TailStartMeaning(turns, |turns|);
  }

  lemma MapsUnlessEmpty(exclusiveEnd: nat, history: seq<int>)
    ensures MapIndexToSeq(exclusiveEnd, history) == None <==> history == []
  {
  }

  /** Above its trigger the window trims if and only if some proper suffix of the turns has enough tokens,
      turns and a user request (and there is a history row to mark), and then it keeps exactly the system
      prompt, the memory and the shortest such suffix, which starts with a real user message. */
  lemma WindowMeaning(msgs: seq<Message>, toolTokens: nat, history: seq<int>, memory: Option<Message>, budget: nat, turns: seq<Turn>)
    requires TurnsOf(msgs, DetectBodyStart(msgs), turns)
    ensures var r := WindowTrim(msgs, toolTokens, history, memory, budget);
            var wanted := EstimateTokens(msgs, toolTokens) > budget / 2 && exists i :: 0 < i < |turns| && Enough(turns, i);
            && (r == Ok(None) <==> !wanted)
            && (r == Err(NoHistory) <==> wanted && history == [])
            && (r.Ok? && r.value.Some? ==>
                  && ShortestTail(turns, r.value.value.turnsTrimmed)
                  && r.value.value.cut == turns[r.value.value.turnsTrimmed].start
                  && 0 < r.value.value.cut < |msgs| && IsRealUser(msgs[r.value.value.cut])
                  && r.value.value.turnsTrimmed + r.value.value.turnsKept == |turns|
                  && DetectBodyStart(msgs) + r.value.value.trimmed == r.value.value.cut && r.value.value.upToSeq in history
                  && r.value.value.messages == WithMemory(msgs[0], memory, msgs[r.value.value.cut..]))
  {
    var bodyStart := DetectBodyStart(msgs);
    TurnsFromTile(msgs, bodyStart);
    TurnsUnique(msgs, bodyStart, turns, TurnsFrom(msgs, bodyStart));
    hide EstimateTokens, TailStart, Enough, TurnsFrom, IsRealUser, TurnsOf, WithMemory, DetectBodyStart, MapIndexToSeq, ShortestTail;
    TailStartIff(turns);
    if TailStart(turns, |turns|) > 0 {
      TailStartInside(msgs, bodyStart);
      MapsUnlessEmpty(turns[TailStart(turns, |turns|)].start, history);
    }
  }

  lemma CutInside(msgs: seq<Message>, turns: seq<Turn>, bodyStart: nat, i: nat)
    requires TurnsOf(msgs, bodyStart, turns) && 0 < i < |turns|
    ensures bodyStart < turns[i].start < |msgs| && IsRealUser(msgs[turns[i].start])
  {
    var a, b := turns[0], turns[i];
    assert IsTurn(msgs, a) && IsTurn(msgs, b);
    StartsIncrease(msgs, turns, bodyStart, i);
    assert turns[i - 1].end == turns[i].start;
  }

  lemma {:induction false} StartsIncrease(msgs: seq<Message>, turns: seq<Turn>, from: nat, i: nat)
    requires from < |msgs| && Tiled(msgs, turns, from, |msgs|) && i < |turns|
    ensures turns[i].start >= from && (i > 0 ==> turns[i].start > from)
  {
    if i > 0 {
      StartsIncrease(msgs, turns, from, i - 1);
      assert IsTurn(msgs, turns[i - 1]);
      assert turns[i - 1].end == turns[i].start;
    }
  }

  // ---------------------------------------------------------------- the compaction boundary

  function LastUser(msgs: seq<Message>): (r: Option<nat>)
    ensures r.Some? ==> r.value < |msgs| && msgs[r.value].role == User && forall k :: r.value < k < |msgs| ==> msgs[k].role != User
    ensures r.None? ==> forall k :: 0 <= k < |msgs| ==> msgs[k].role != User
  {
    if msgs == [] then None
    else if msgs[|msgs| - 1].role == User then Some(|msgs| - 1)
    else LastUser(msgs[..|msgs| - 1])
  }

  /** The message before `boundary` belongs with what follows. */
  predicate Attached(msgs: seq<Message>, boundary: nat)
    requires 1 < boundary <= |msgs|
  {
    var prev := boundary - 1;
    || msgs[prev].role == Tool
    || IsOwner(msgs[prev])
    || (msgs[prev].role == User && prev > 1 && msgs[prev - 1].role == Tool)
  }

  function WalkBack(msgs: seq<Message>, boundary: nat): (b: nat)
    requires boundary <= |msgs|
    ensures b <= boundary && (b > 1 ==> !Attached(msgs, b))
  {
    if boundary > 1 && Attached(msgs, boundary) then WalkBack(msgs, boundary - 1) else boundary
  }

  /** The end of the part to compact, which starts behind the system prompt. */
  function CompactionEnd(msgs: seq<Message>): (end: Option<nat>)
    ensures end.Some? ==> 1 < end.value < |msgs|
  {
    if |msgs| < 4 then None
    else
      match LastUser(msgs)
      case None => None
      case Some(last) => var b := WalkBack(msgs, last); if b <= 1 then None else Some(b)
  }

  method SelectMessagesForCompaction(msgs: seq<Message>) returns (end: Option<nat>)
    ensures end == CompactionEnd(msgs)
  {
    if |msgs| < 4 {
      return None;
    }
    var last := LastUser(msgs);
    if last == None {
      return None;
    }
    var boundary: nat := last.value;
    while boundary > 1
      invariant boundary <= |msgs| && WalkBack(msgs, boundary) == WalkBack(msgs, last.value)
    {
      var prev := boundary - 1;
      if msgs[prev].role == Tool {
        boundary := prev;
        continue;
      }
      if msgs[prev].role == Assistant && msgs[prev].calls != [] {
        boundary := prev;
        continue;
      }
      if msgs[prev].role == User && prev > 1 && msgs[prev - 1].role == Tool {
        boundary := prev;
        continue;
      }
      break;
    }
    if boundary <= 1 {
      return None;
    }
    return Some(boundary);
  }

  /** Neither algorithm cuts into a tool-call group: in a grouped list the message at the cut is not a tool
      result, and everything from the last user message on is kept. */
  lemma CompactionCutIsWhole(msgs: seq<Message>)
    requires Grouped(msgs) && CompactionEnd(msgs).Some?
    ensures var end := CompactionEnd(msgs).value;
            && 1 < end < |msgs| && msgs[end].role != Tool && end <= LastUser(msgs).value
            && Grouped(msgs[..end]) && Grouped(msgs[end..])
  {
    hide Grouped, WalkBack, LastUser;
    var end := CompactionEnd(msgs).value;
    if msgs[end].role == Tool {
      ToolFollows(msgs, end);
    }
    GroupedCut(msgs, end);
  }

  /** The sliding window cuts before a real user message, so what it keeps is grouped when its input is. */
  lemma TrimKeepsGroups(msgs: seq<Message>, memory: Option<Message>, cut: nat)
    requires Grouped(msgs) && msgs != [] && msgs[0].role == System && cut <= |msgs|
    requires cut < |msgs| ==> msgs[cut].role != Tool
    requires memory.Some? ==> memory.value.role == User
    ensures Grouped(WithMemory(msgs[0], memory, msgs[cut..]))
  {
    var head := [msgs[0]] + if memory.Some? then [memory.value] else [];
    GroupedCut(msgs, cut);
    LoneMessages(head);
    GroupedAppend(head, msgs[cut..]);
    assert WithMemory(msgs[0], memory, msgs[cut..]) == head + msgs[cut..];
  }

  lemma {:induction false} LoneMessages(msgs: seq<Message>)
    requires forall m :: m in msgs ==> m.role == User || m.role == System
    ensures Grouped(msgs)
  {
    if msgs != [] {
      LoneMessages(msgs[1..]);
    }
  }

  // ---------------------------------------------------------------- the pre-flight repair

  /** Whether a tool result placed after these messages would belong to a group. */
  predicate InGroup(body: seq<Message>) {
    if body == [] then false
    else
      var m := body[|body| - 1];
      IsOwner(m) || (m.role == Tool && InGroup(body[..|body| - 1]))
  }

  /** The body without the tool results that no group precedes. */
  function WithoutOrphans(body: seq<Message>): seq<Message> {
    if body == [] then []
    else
      var init, m := body[..|body| - 1], body[|body| - 1];
      WithoutOrphans(init) + if m.role == Tool && !InGroup(init) then [] else [m]
  }

  /** Positions of the orphans, `offset` being the position of the body in the list. */
  function Orphans(body: seq<Message>, offset: nat): seq<nat> {
    if body == [] then []
    else
      var init, m := body[..|body| - 1], body[|body| - 1];
      Orphans(init, offset) + if m.role == Tool && !InGroup(init) then [offset + |init|] else []
  }

  function WithMemoryAt1(msgs: seq<Message>, memory: Option<Message>): seq<Message>
    requires msgs != []
  {
    if memory.Some? && !(|msgs| > 1 && IsMemory(msgs[1])) then [msgs[0], memory.value] + msgs[1..] else msgs
  }

  predicate Startable(msgs: seq<Message>) { msgs != [] && msgs[0].role == System }

  /** What the repair makes of a list that starts with the system prompt. */
  function Repaired(msgs: seq<Message>, memory: Option<Message>): seq<Message>
    requires Startable(msgs)
  {
    var m := WithMemoryAt1(msgs, memory);
    var b := DetectBodyStart(m);
    m[..b] + WithoutOrphans(m[b..])
  }

  /** The message list, repaired in place. */
  class MessageList {
    var messages: seq<Message>

    constructor (messages: seq<Message>)
      ensures this.messages == messages
    {
      this.messages := messages;
    }

    method PreflightCheck(entries: seq<(string, string)>, digest: string) returns (ok: bool)
      modifies this
      ensures ok == Startable(old(messages))
      ensures messages == if ok then Repaired(old(messages), BuildMemoryMessage(entries, digest)) else old(messages)
    {
      if messages == [] || messages[0].role != System {
        return false;
      }
      if entries != [] {
        var hasMemory := |messages| > 1 && IsMemory(messages[1]);
        if !hasMemory {
          var memory := BuildMemoryMessage(entries, digest);
          if memory.Some? {
            messages := [messages[0], memory.value] + messages[1..];
          }
        }
      }
      var bodyStart := DetectBodyStart(messages);
      ghost var before := messages;
      var orphans := CollectOrphans(messages, bodyStart);
      messages := RemoveReversed(messages, orphans);
      RepairSteps(before, bodyStart);
      return true;
    }
  }

  /** The scan for orphans. */
  method CollectOrphans(msgs: seq<Message>, bodyStart: nat) returns (orphans: seq<nat>)
    requires bodyStart <= |msgs|
    ensures orphans == Orphans(msgs[bodyStart..], bodyStart)
  {
    orphans := [];
    var inGroup := false;
    var i := bodyStart;
    assert msgs[bodyStart..bodyStart] == [];
    while i < |msgs|
      invariant bodyStart <= i <= |msgs|
      invariant inGroup == InGroup(msgs[bodyStart..i])
      invariant orphans == Orphans(msgs[bodyStart..i], bodyStart)
    {
      var m := msgs[i];
      assert msgs[bodyStart..i + 1][..i - bodyStart] == msgs[bodyStart..i];
      if m.role == Assistant && m.calls != [] {
        inGroup := true;
      } else if m.role == Tool {
        if !inGroup {
          orphans := orphans + [i];
        }
      } else {
        inGroup := false;
      }
      i := i + 1;
    }
    assert msgs[bodyStart..|msgs|] == msgs[bodyStart..];
  }

  /** Removes collected positions, the last one first. */
  method RemoveReversed(msgs: seq<Message>, at: seq<nat>) returns (r: seq<Message>)
    ensures r == RemoveDown(msgs, at)
  {
    r := msgs;
    var k := |at|;
    assert at[..k] == at;
    while k > 0
      invariant 0 <= k <= |at|
      invariant RemoveDown(r, at[..k]) == RemoveDown(msgs, at)
    {
      k := k - 1;
      assert at[..k + 1][..k] == at[..k];
      if at[k] < |r| {
        r := r[..at[k]] + r[at[k] + 1..];
      }
    }
  }

  /** Removing positions last first. */
  ghost function RemoveDown(msgs: seq<Message>, at: seq<nat>): seq<Message> {
    if at == [] then msgs
    else
      var p := at[|at| - 1];
      if p < |msgs| then RemoveDown(msgs[..p] + msgs[p + 1..], at[..|at| - 1]) else RemoveDown(msgs, at[..|at| - 1])
  }

  lemma RemoveLast(msgs: seq<Message>, at: seq<nat>, p: nat)
    requires p < |msgs|
    ensures RemoveDown(msgs, at + [p]) == RemoveDown(msgs[..p] + msgs[p + 1..], at)
  {
    assert (at + [p])[..|at|] == at;
  }

  lemma OrphansLast(body: seq<Message>, offset: nat)
    requires body != []
    ensures var init, m := body[..|body| - 1], body[|body| - 1];
            var orphan := m.role == Tool && !InGroup(init);
            && Orphans(body, offset) == (if orphan then Orphans(init, offset) + [offset + |init|] else Orphans(init, offset))
            && WithoutOrphans(body) == WithoutOrphans(init) + if orphan then [] else [m]
  {
    hide InGroup;
  }

  lemma Regroup(head: seq<Message>, a: seq<Message>, b: seq<Message>, rest: seq<Message>)
    ensures head + (a + b) + rest == head + a + (b + rest)
  {
  }

  lemma CutOut(head: seq<Message>, init: seq<Message>, m: Message, rest: seq<Message>)
    ensures var all, p := head + (init + [m]) + rest, |head| + |init|;
            p < |all| && all[..p] + all[p + 1..] == head + init + rest
  {
  }

  /** Removing the collected positions in reverse is the same as filtering. */
  lemma {:induction false} RemoveOrphans(head: seq<Message>, body: seq<Message>, rest: seq<Message>)
    ensures RemoveDown(head + body + rest, Orphans(body, |head|)) == head + WithoutOrphans(body) + rest
  {
    if body != [] {
      OrphansLast(body, |head|);
      var init, m := body[..|body| - 1], body[|body| - 1];
      var here := if m.role == Tool && !InGroup(init) then [] else [m];
      RemoveOrphans(head, init, here + rest);
      Regroup(head, WithoutOrphans(init), here, rest);
      assert body == init + [m];
      if here == [] {
        CutOut(head, init, m, rest);
        RemoveLast(head + body + rest, Orphans(init, |head|), |head| + |init|);
        assert here + rest == rest;
      } else {
        Regroup(head, init, here, rest);
      }
    }
  }

  lemma RepairSteps(msgs: seq<Message>, b: nat)
    requires b <= |msgs|
    ensures RemoveDown(msgs, Orphans(msgs[b..], b)) == msgs[..b] + WithoutOrphans(msgs[b..])
  {
    hide RemoveDown, Orphans, WithoutOrphans;
    RemoveOrphans(msgs[..b], msgs[b..], []);
    assert msgs == msgs[..b] + msgs[b..] + [];
    assert msgs[..b] + WithoutOrphans(msgs[b..]) + [] == msgs[..b] + WithoutOrphans(msgs[b..]);
  }

  // ---------------------------------------------------------------- what the repair means

  lemma {:induction false} WithoutOrphansStable(body: seq<Message>)
    ensures InGroup(WithoutOrphans(body)) == InGroup(body)
    ensures WithoutOrphans(WithoutOrphans(body)) == WithoutOrphans(body)
  {
    if body != [] {
      var init := body[..|body| - 1];
      WithoutOrphansStable(init);
      var kept := WithoutOrphans(body);
      assert kept == WithoutOrphans(init) || kept[..|kept| - 1] == WithoutOrphans(init);
    }
  }

  lemma {:induction false} BehindLoneMessage(m: Message, body: seq<Message>)
    requires m.role == User
    ensures InGroup([m] + body) == InGroup(body)
    ensures WithoutOrphans([m] + body) == [m] + WithoutOrphans(body)
  {
    if body == [] {
      assert ([m] + body)[..0] == [] && InGroup([]) == false;
    } else {
      var init := body[..|body| - 1];
      BehindLoneMessage(m, init);
      assert ([m] + body)[..|body|] == [m] + init;
    }
  }

  lemma FilterTwice(m: seq<Message>)
    requires Startable(m)
    ensures var r := m[..DetectBodyStart(m)] + WithoutOrphans(m[DetectBodyStart(m)..]);
            && Startable(r) && (DetectBodyStart(m) == 2 ==> DetectBodyStart(r) == 2)
            && r[..DetectBodyStart(r)] + WithoutOrphans(r[DetectBodyStart(r)..]) == r
  {
    hide WithoutOrphans, IsMemory, InGroup;
    var b := DetectBodyStart(m);
    var head, kept := m[..b], WithoutOrphans(m[b..]);
    WithoutOrphansStable(m[b..]);
    Parts(head, kept);
    if b == 1 && DetectBodyStart(head + kept) == 2 {
      MemoryIsUser(kept[0]);
      BehindLoneMessage(kept[0], kept[1..]);
      assert kept == [kept[0]] + kept[1..];
      Parts(head + [kept[0]], kept[1..]);
      assert head + kept == head + [kept[0]] + kept[1..];
    }
  }

  lemma Parts(head: seq<Message>, tail: seq<Message>)
    ensures (head + tail)[..|head|] == head && (head + tail)[|head|..] == tail
  {
  }

  /** Repairing twice changes nothing more, whatever the list: even when removing an orphan puts a message
      that looks like a memory message where one is expected. */
  lemma RepairIdempotent(msgs: seq<Message>, memory: Option<Message>)
    requires Startable(msgs) && (memory.Some? ==> IsMemory(memory.value))
    ensures Startable(Repaired(msgs, memory)) && Repaired(Repaired(msgs, memory), memory) == Repaired(msgs, memory)
  {
    hide WithoutOrphans, IsMemory;
    FilterTwice(WithMemoryAt1(msgs, memory));
  }

  lemma MemoryIsUser(m: Message)
    requires IsMemory(m)
    ensures m.role == User
  {
  }

  /** The memory message the runtime builds is recognised where the body is detected. */
  lemma MemoryRecognised(msgs: seq<Message>, entries: seq<(string, string)>, digest: string)
    requires Startable(msgs) && entries != []
    ensures var memory := BuildMemoryMessage(entries, digest);
            memory.Some? && IsMemory(memory.value) && DetectBodyStart(Repaired(msgs, memory)) == 2
  {
    var memory := BuildMemoryMessage(entries, digest);
    var m := WithMemoryAt1(msgs, memory);
    assert MEMORY_MARK <= MEMORY_MARK + "]\n" + digest;
    assert IsMemory(memory.value);
    assert DetectBodyStart(m) == 2;
    assert Repaired(msgs, memory)[1] == m[1];
  }

  /** Independent reading of an orphan: walking back over tool results one meets no owner. */
  ghost predicate IsOrphan(body: seq<Message>, i: nat)
    requires i < |body|
  {
    body[i].role == Tool &&
    forall o :: 0 <= o < i && IsOwner(body[o]) ==> exists k :: o < k < i && body[k].role != Tool
  }

  /** An owner at `o` with nothing but tool results behind it. */
  ghost predicate Reaches(body: seq<Message>, o: nat) {
    o < |body| && IsOwner(body[o]) && forall k :: o < k < |body| ==> body[k].role == Tool
  }

  lemma ReachesOneMore(body: seq<Message>, o: nat)
    requires body != []
    ensures Reaches(body, o) <==>
            if o == |body| - 1 then IsOwner(body[o]) else Reaches(body[..|body| - 1], o) && body[|body| - 1].role == Tool
  {
    var init := body[..|body| - 1];
    if Reaches(init, o) && body[|body| - 1].role == Tool {
      forall k | o < k < |body| ensures body[k].role == Tool {
        assert k < |init| ==> init[k] == body[k];
      }
    }
  }

  lemma {:induction false} InGroupMeaning(body: seq<Message>)
    ensures InGroup(body) <==> exists o: nat :: Reaches(body, o)
  {
    if body != [] {
      InGroupMeaning(body[..|body| - 1]);
      forall o: nat
        ensures Reaches(body, o) <==>
                if o == |body| - 1 then IsOwner(body[o]) else Reaches(body[..|body| - 1], o) && body[|body| - 1].role == Tool
      {
        ReachesOneMore(body, o);
      }
      hide Reaches;
      assert IsOwner(body[|body| - 1]) ==> Reaches(body, |body| - 1);
    } else {
      assert forall o: nat :: !Reaches(body, o);
    }
  }

  /** The repair collects exactly the orphaned tool messages; everything else stays, in order. */
  lemma {:induction false} OrphansMeaning(body: seq<Message>, offset: nat)
    ensures forall i :: 0 <= i < |body| ==> (offset + i in Orphans(body, offset) <==> IsOrphan(body, i))
    ensures forall p :: p in Orphans(body, offset) ==> offset <= p < offset + |body|
    ensures forall i, j :: 0 <= i < j < |Orphans(body, offset)| ==> Orphans(body, offset)[i] < Orphans(body, offset)[j]
  {
    if body != [] {
      var init, n := body[..|body| - 1], |body| - 1;
      OrphansMeaning(init, offset);
      InGroupMeaning(init);
      LastOrphan(body);
      forall i | 0 <= i < n ensures IsOrphan(body, i) <==> IsOrphan(init, i) {
        SameOrphan(body, i);
      }
      hide IsOrphan, InGroup;
      var before := Orphans(init, offset);
      forall i | 0 <= i < |before| ensures before[i] < offset + n {
        assert before[i] in before;
      }
    }
  }

  lemma SameOrphan(body: seq<Message>, i: nat)
    requires i < |body| - 1
    ensures IsOrphan(body, i) <==> IsOrphan(body[..|body| - 1], i)
  {
    var init := body[..|body| - 1];
    forall o | 0 <= o < i && IsOwner(body[o])
      ensures (exists k :: o < k < i && body[k].role != Tool) <==> (exists k :: o < k < i && init[k].role != Tool)
    {
      if k :| o < k < i && body[k].role != Tool {
        assert init[k].role != Tool;
      }
    }
  }

  lemma LastOrphan(body: seq<Message>)
    requires body != []
    ensures var n := |body| - 1; IsOrphan(body, n) <==> body[n].role == Tool && !InGroup(body[..n])
  {
    var n := |body| - 1;
    var init := body[..n];
    InGroupMeaning(init);
    if o: nat :| Reaches(init, o) {
      assert IsOwner(body[o]);
      assert forall k :: o < k < n ==> body[k].role == init[k].role;
    }
    if !InGroup(init) {
      forall o | 0 <= o < n && IsOwner(body[o]) ensures exists k :: o < k < n && body[k].role != Tool {
        assert IsOwner(init[o]) && !Reaches(init, o);
        var k :| o < k < n && init[k].role != Tool;
        assert body[k].role != Tool;
      }
    }
  }

  /** A grouped list has nothing to repair but a missing memory message. */
  lemma {:induction false} GroupedHasNoOrphans(body: seq<Message>)
    requires EveryGroupWhole(body)
    ensures WithoutOrphans(body) == body
  {
    forall i | 0 <= i < |body| ensures !IsOrphan(body, i) {
      if body[i].role == Tool {
        var o :| 0 <= o < i <= o + |body[o].calls| && IsOwner(body[o]);
        forall k | o < k < i ensures body[k].role == Tool {
          assert Answers(body[o + 1 + (k - o - 1)], body[o].calls[k - o - 1]);
        }
      }
    }
    NoOrphansKeepsAll(body);
  }

  lemma {:induction false} NoOrphansKeepsAll(body: seq<Message>)
    requires forall i :: 0 <= i < |body| ==> !IsOrphan(body, i)
    ensures WithoutOrphans(body) == body
  {
    if body != [] {
      var init := body[..|body| - 1];
      LastOrphan(body);
      forall i | 0 <= i < |init| ensures !IsOrphan(init, i) {
        SameOrphan(body, i);
      }
      NoOrphansKeepsAll(init);
      assert body == init + [body[|body| - 1]];
    }
  }

  /** So the repair keeps a grouped list grouped. */
  lemma RepairKeepsGroups(msgs: seq<Message>, memory: Option<Message>)
    requires Startable(msgs) && Grouped(msgs) && (memory.Some? ==> IsMemory(memory.value))
    ensures Grouped(Repaired(msgs, memory)) && Repaired(msgs, memory) == WithMemoryAt1(msgs, memory)
  {
    var m := WithMemoryAt1(msgs, memory);
    var b := DetectBodyStart(m);
    if m != msgs {
      MemoryIsUser(memory.value);
      GroupedCut(msgs, 0);
      TailAfterSystem(msgs);
      LoneMessages([msgs[0], memory.value]);
      GroupedAppend([msgs[0], memory.value], msgs[1..]);
    }
    TailAfterSystem(m);
    if b == 2 {
      MemoryIsUser(m[1]);
      GroupedCut(m, 1);
      assert Grouped(m[1..][1..]) && m[1..][1..] == m[2..];
    }
    GroupedIsWhole(m[b..]);
    GroupedHasNoOrphans(m[b..]);
    assert m[..b] + m[b..] == m;
  }

  lemma TailAfterSystem(msgs: seq<Message>)
    requires Startable(msgs) && Grouped(msgs)
    ensures Grouped(msgs[1..])
  {
  }
}
