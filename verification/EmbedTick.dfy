/** A tick of the embedding queue over all items. */
module EmbedTick {
  import opened Wrappers
  import opened EmbedQueue
  import opened EmbedScript
  import opened EmbedWorker

  const LIST_LIMIT: nat := 10

  function Recovered(s: State, t: Tick): State { if t.stale then Step(s, Recover) else s }

  function RecoveredAll(states: seq<State>, ticks: seq<Tick>): seq<State>
    requires |states| == |ticks|
  {
    seq(|states|, i requires 0 <= i < |states| => Recovered(states[i], ticks[i]))
  }

  function PendingAmong(states: seq<State>): nat {
    if states == [] then 0
    else PendingAmong(states[..|states| - 1]) + if states[|states| - 1].row.status == Pending then 1 else 0
  }

  /** The i-th item in the order of creation is among those the tick may list. */
  predicate InReach(states: seq<State>, i: nat)
    requires i < |states|
  {
    PendingAmong(states[..i]) < LIST_LIMIT
  }

  /** What a tick does to one item. */
  function TickScript(s: State, w: nat, t: Tick, inReach: bool): seq<Event> {
    if inReach then Script(s, w, t) else if t.stale then [Recover] else []
  }

  lemma OutOfReach(s: State, w: nat, t: Tick)
    ensures Steps(s, TickScript(s, w, t, false)) == Recovered(s, t)
  {
    hide Step;
    StepsOne(s, Recover);
    StepsNone(s);
  }

  lemma ListedTick(s: State, w: nat, t: Tick)
    ensures Recovered(s, t).total == s.total && Recovered(s, t).row.embedded == s.row.embedded && Recovered(s, t).phases == s.phases
    ensures Steps(s, TickScript(s, w, t, true)) ==
            Steps(Step(Recovered(s, t), List(w)), (if t.cancelled then [Cancel] else []) + ClaimScript(s.total, s.row.embedded, w, t))
  {
    AtListing(s, Recover);
    hide Step, Steps, ClaimScript;
    ScriptStart(s, w, t);
  }

  /** On an item that is not pending everything after the recovery does nothing. */
  lemma NotPending(s: State, w: nat, t: Tick)
    requires w !in s.phases && Recovered(s, t).row.status != Pending
    ensures Steps(s, TickScript(s, w, t, true)) == Recovered(s, t)
  {
    ListedTick(s, w, t);
    var r := Recovered(s, t);
    assert Step(r, List(w)) == r && Step(r, Cancel) == r;
    hide Step, Steps, ClaimScript, ItemScript, TickScript;
    CancelFirst(r, w, t, s.row.embedded);
    ScriptMiddle(r, w, t, s.row.embedded);
    NothingListed(r, w, t, s.row.embedded);
  }

  ghost predicate Distinct(queues: seq<Queue>) {
    forall i, j :: 0 <= i < j < |queues| ==> queues[i] != queues[j]
  }

  ghost function States(queues: seq<Queue>): (s: seq<State>)
    reads queues
    ensures |s| == |queues| && forall i :: 0 <= i < |queues| ==> s[i] == queues[i].state
  {
    seq(|queues|, i requires 0 <= i < |queues| reads queues => queues[i].state)
  }

  ghost predicate AreIn(queues: seq<Queue>, states: seq<State>)
    reads queues
  {
    |states| == |queues| && forall i :: 0 <= i < |queues| ==> queues[i].Valid() && queues[i].state == states[i]
  }

  method RecoverAll(queues: seq<Queue>, ticks: seq<Tick>, before: seq<State>)
    requires Distinct(queues) && AreIn(queues, before) && |ticks| == |queues|
    modifies queues
    ensures AreIn(queues, RecoveredAll(before, ticks))
  {
    for i := 0 to |queues|
      invariant forall j :: 0 <= j < i ==> queues[j].Valid() && queues[j].state == Recovered(before[j], ticks[j])
      invariant forall j :: i <= j < |queues| ==> queues[j].Valid() && queues[j].state == before[j]
    {
      if ticks[i].stale {
        queues[i].RecoverStale();
      }
    }
  }

  /** The state and the answer of the listing for an item. */
  ghost predicate ListedAs(before: State, w: nat, inReach: bool, now: State, item: Option<Row>) {
    if inReach then
      && now == Step(before, List(w))
      && item == if before.row.status == Pending then Some(before.row) else None
    else now == before && item == None
  }

  lemma PendingNext(before: seq<State>, i: nat)
    requires i < |before|
    ensures PendingAmong(before[..i + 1]) == PendingAmong(before[..i]) + if before[i].row.status == Pending then 1 else 0
  {
    assert before[..i + 1][..i] == before[..i];
  }

  /** How many the listing has returned, once the limit is reached any number. */
  ghost predicate Counts(before: seq<State>, i: nat, count: nat)
    requires i <= |before|
  {
    count == PendingAmong(before[..i]) || (count >= LIST_LIMIT && PendingAmong(before[..i]) >= LIST_LIMIT)
  }

  method ListOne(queue: Queue, w: nat, before: seq<State>, i: nat, count: nat)
    returns (item: Option<Row>, next: nat)
    requires i < |before| && queue.Valid() && queue.state == before[i] && w !in before[i].phases && Counts(before, i, count)
    modifies queue
    ensures queue.Valid() && ListedAs(before[i], w, InReach(before, i), queue.state, item) && Counts(before, i + 1, next)
  {
    hide Step, PendingAmong;
    PendingNext(before, i);
    item, next := None, count;
    if count < LIST_LIMIT {
      item := queue.ListPending(w);
      next := if item.Some? then count + 1 else count;
    }
  }

  /** The first ten pending items, in the order of creation. */
  method ListAll(queues: seq<Queue>, w: nat, before: seq<State>) returns (items: seq<Option<Row>>)
    requires Distinct(queues) && AreIn(queues, before) && forall i :: 0 <= i < |queues| ==> w !in before[i].phases
    modifies queues
    ensures |items| == |queues|
    ensures forall i :: 0 <= i < |queues| ==> queues[i].Valid() && ListedAs(before[i], w, InReach(before, i), queues[i].state, items[i])
  {
    items := [];
    var count := 0;
    for i := 0 to |queues|
      invariant |items| == i && Counts(before, i, count)
      invariant forall j :: 0 <= j < i ==> queues[j].Valid() && ListedAs(before[j], w, InReach(before, j), queues[j].state, items[j])
      invariant forall j :: i <= j < |queues| ==> queues[j].Valid() && queues[j].state == before[j]
    {
      var item, next := ListOne(queues[i], w, before, i, count);
      items, count := items + [item], next;
    }
  }

  /** What a tick leaves of an item, and whether it completed it. */
  ghost predicate TickedAs(before: State, w: nat, t: Tick, inReach: bool, now: State) {
    now == Steps(before, TickScript(before, w, t, inReach))
  }

  function CompletedNow(before: State, now: State): nat {
    if before.row.status != Completed && now.row.status == Completed then 1 else 0
  }

  function Sum(counts: seq<nat>): nat {
    if counts == [] then 0 else Sum(counts[..|counts| - 1]) + counts[|counts| - 1]
  }

  /** Whether the tick completed each of the items, as 0 or 1. */
  function CompletedEach(before: seq<State>, now: seq<State>): seq<nat>
    requires |before| == |now|
  {
    seq(|before|, i requires 0 <= i < |before| => CompletedNow(before[i], now[i]))
  }

  /** Before and after the tick's work on a listed item. */
  ghost predicate ToDo(before: State, t: Tick, w: nat, inReach: bool, now: State, item: Option<Row>) {
    && ListedAs(Recovered(before, t), w, inReach, now, item)
    && w !in before.phases && before.row.embedded <= before.total
  }

  ghost predicate Done(before: State, t: Tick, w: nat, inReach: bool, now: State, completed: nat) {
    completed == CompletedNow(before, now) && TickedAs(before, w, t, inReach, now)
  }

  ghost predicate Ready(queue: Queue, before: State, t: Tick, w: nat, inReach: bool, item: Option<Row>)
    reads queue
  {
    queue.Valid() && ToDo(before, t, w, inReach, queue.state, item)
  }

  ghost predicate Finished(queue: Queue, before: State, t: Tick, w: nat, inReach: bool, completed: nat)
    reads queue
  {
    queue.Valid() && Done(before, t, w, inReach, queue.state, completed)
  }

  /** The rest of the tick for one item. */
  method ProcessOne(queue: Queue, w: nat, item: Option<Row>, t: Tick, s: State, inReach: bool) returns (completed: nat)
    requires Ready(queue, s, t, w, inReach, item)
    modifies queue
    ensures Finished(queue, s, t, w, inReach, completed)
  {
    hide Step, Steps, TickScript, ClaimScript;
    RecoveredStatus(s, t);
    ListedTick(s, w, t);
    Listing(Recovered(s, t), w);
    OutOfReach(s, w, t);
    if item == None {
      if Recovered(s, t).row.status != Pending {
        NotPending(s, w, t);
      }
      return 0;
    }
    completed := queue.ProcessListed(w, item.value, t);
  }

  /** A tick of the worker `w` over all items, in the order of creation: stale ones are recovered, then the first
      ten pending ones are listed, claimed and processed. */
  method ProcessEmbedQueue(queues: seq<Queue>, w: nat, ticks: seq<Tick>, before: seq<State>) returns (completed: nat)
    requires Distinct(queues) && AreIn(queues, before) && |ticks| == |queues|
    requires forall i :: 0 <= i < |queues| ==> w !in before[i].phases && before[i].row.embedded <= before[i].total
    modifies queues
    ensures forall i :: 0 <= i < |queues| ==>
              queues[i].Valid() && TickedAs(before[i], w, ticks[i], InReach(RecoveredAll(before, ticks), i), queues[i].state)
    ensures completed == Sum(CompletedEach(before, States(queues)))
  {
    hide Step, Steps, ListedAs, TickScript, Sum, PendingAmong;
    RecoverAll(queues, ticks, before);
    var recovered := RecoveredAll(before, ticks);
    RecoveredPhases(before, ticks);
    var items := ListAll(queues, w, recovered);
    var reach := seq(|queues|, i requires 0 <= i < |queues| => InReach(recovered, i));
    var ones;
    completed, ones := ProcessAll(queues, w, items, ticks, before, reach);
    assert ones == CompletedEach(before, States(queues));
  }

  lemma RecoveredPhases(before: seq<State>, ticks: seq<Tick>)
    requires |before| == |ticks|
    ensures forall i :: 0 <= i < |before| ==> RecoveredAll(before, ticks)[i].phases == before[i].phases
  {
  }

  method ProcessAll(
    queues: seq<Queue>, w: nat, items: seq<Option<Row>>, ticks: seq<Tick>, before: seq<State>, reach: seq<bool>)
    returns (completed: nat, ones: seq<nat>)
    requires Distinct(queues) && |items| == |queues| == |ticks| == |before| == |reach|
    requires forall i :: 0 <= i < |queues| ==> Ready(queues[i], before[i], ticks[i], w, reach[i], items[i])
    modifies queues
    ensures |ones| == |queues| && completed == Sum(ones)
    ensures forall i :: 0 <= i < |queues| ==> Finished(queues[i], before[i], ticks[i], w, reach[i], ones[i])
  {
    hide ToDo, Done, Sum;
    SumNone();
    completed, ones := 0, [];
    for i := 0 to |queues|
      invariant |ones| == i && completed == Sum(ones)
      invariant forall j :: 0 <= j < i ==> Finished(queues[j], before[j], ticks[j], w, reach[j], ones[j])
      invariant forall j :: i <= j < |queues| ==> Ready(queues[j], before[j], ticks[j], w, reach[j], items[j])
    {
      var one := ProcessOne(queues[i], w, items[i], ticks[i], before[i], reach[i]);
      SumLast(ones, one);
      completed, ones := completed + one, ones + [one];
    }
  }

  lemma SumNone()
    ensures Sum([]) == 0
  {
  }

  lemma SumLast(counts: seq<nat>, n: nat)
    ensures Sum(counts + [n]) == Sum(counts) + n
  {
    assert (counts + [n])[..|counts|] == counts;
  }

  lemma RecoveredStatus(s: State, t: Tick)
    ensures Recovered(s, t).row.status == Completed <==> s.row.status == Completed
    ensures Recovered(s, t).row.status == Pending ==> s.row.status != Completed
  {
  }

  lemma Listing(s: State, w: nat)
    requires w !in s.phases
    ensures var t := Step(s, List(w));
            && t.row == s.row && t.total == s.total
            && (if s.row.status == Pending then w in t.phases && t.phases[w] == Listed(s.row.embedded) else t == s)
  {
  }
}
