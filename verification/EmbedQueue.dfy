/** The embedding queue: workers that claim an item, store its chunks in batches and resume where others stopped.
    One item and any number of workers, interleaved at every database statement. A worker may crash anywhere,
    and an item may be taken away from a worker that is merely slow. */
module EmbedQueue {
  import opened Wrappers

  const BATCH_SIZE: nat := 100

  datatype Status = Pending | Processing | Completed | Failed | Cancelled

  /** The row of the item. */
  datatype Row = Row(status: Status, embedded: nat, attempts: nat, maxAttempts: nat)

  /** Where a worker is: it holds a row it listed, has claimed it, has stored and saved `sofar` chunks, has
      stored them without saving that yet, or is about to record a failure. */
  datatype Phase = Listed(from: nat) | Claimed(from: nat) | Working(sofar: nat) | Saving(sofar: nat) | Failing

  /** The item, the indices of the chunks stored for it, and the workers on it. Also how often it was claimed
      and retried, and how many batches were stored by a worker that never saved its progress. */
  datatype State = State(
    total: nat, row: Row, stored: multiset<nat>, phases: map<nat, Phase>, claims: nat, retries: nat, lost: nat)

  datatype Event =
    | List(w: nat) | Claim(w: nat) | Begin(w: nat) | BatchFails(w: nat) | Commit(w: nat) | Save(w: nat) | SaveFails(w: nat)
    | Complete(w: nat) | Fail(w: nat) | Crash(w: nat)
    | Recover | Retry | Cancel

  function Range(lo: nat, hi: nat): multiset<nat> {
    if lo >= hi then multiset{} else Range(lo, hi - 1) + multiset{hi - 1}
  }

  function NextStop(sofar: nat, total: nat): nat {
    if sofar + BATCH_SIZE < total then sofar + BATCH_SIZE else total
  }

  /** One more attempt used up; the item is retried until there are none left. */
  function Attempted(row: Row): Row {
    row.(attempts := row.attempts + 1,
         status := if row.attempts + 1 >= row.maxAttempts then Failed else Pending)
  }

  /** What a worker's statement makes of the row and the stored chunks, and where it leaves the worker. */
  datatype Effect = Effect(row: Row, stored: multiset<nat>, phase: Option<Phase>, claimed: nat, lost: nat)

  function EffectOf(e: Event, p: Phase, row: Row, stored: multiset<nat>, total: nat): Effect {
    match e
    case Claim(_) =>
      if !p.Listed? then Effect(row, stored, Some(p), 0, 0)
      else if row.status == Pending then Effect(row.(status := Processing), stored, Some(Claimed(p.from)), 1, 0)
      else Effect(row, stored, None, 0, 0)
    case Begin(_) =>
      if p.Claimed? then Effect(row.(embedded := p.from), stored, Some(Working(p.from)), 0, 0)
      else Effect(row, stored, Some(p), 0, 0)
    case BatchFails(_) =>
      Effect(row, stored, Some(if p.Claimed? || (p.Working? && p.sofar < total) then Failing else p), 0, 0)
    case Commit(_) =>
      if p.Working? && p.sofar < total then
        var next := NextStop(p.sofar, total);
        Effect(row, stored + Range(p.sofar, next), Some(Saving(next)), 0, 0)
      else Effect(row, stored, Some(p), 0, 0)
    case Save(_) =>
      if p.Saving? then Effect(row.(embedded := p.sofar), stored, Some(Working(p.sofar)), 0, 0)
      else Effect(row, stored, Some(p), 0, 0)
    case SaveFails(_) =>
      if p.Saving? then Effect(row, stored, Some(Failing), 0, 1) else Effect(row, stored, Some(p), 0, 0)
    case Complete(_) =>
      if !p.Working? || p.sofar < total then Effect(row, stored, Some(p), 0, 0)
      else if row.status == Processing then Effect(row.(status := Completed), stored, None, 0, 0)
      else Effect(row, stored, None, 0, 0)
    case Fail(_) =>
      if !p.Failing? then Effect(row, stored, Some(p), 0, 0)
      else if row.status == Processing then Effect(Attempted(row), stored, None, 0, 0)
      else Effect(row, stored, None, 0, 0)
    case Crash(_) => Effect(row, stored, None, 0, if p.Saving? then 1 else 0)
    case _ => Effect(row, stored, Some(p), 0, 0)
  }

  function Settle(s: State, w: nat, f: Effect): State {
    s.(row := f.row, stored := f.stored,
       phases := if f.phase.Some? then s.phases[w := f.phase.value] else s.phases - {w},
       claims := s.claims + f.claimed, lost := s.lost + f.lost)
  }

  /** One statement, of a worker or of anyone else; it does nothing where it cannot happen. */
  function Step(s: State, e: Event): State {
    match e
    case Recover => if s.row.status == Processing then s.(row := Attempted(s.row)) else s
    case Retry =>
      if s.row.status == Failed then s.(row := s.row.(status := Pending, attempts := 0), retries := s.retries + 1) else s
    case Cancel => if s.row.status == Pending then s.(row := s.row.(status := Cancelled)) else s
    case List(w) =>
      if w !in s.phases && s.row.status == Pending then s.(phases := s.phases[w := Listed(s.row.embedded)]) else s
    case _ => if e.w in s.phases then Settle(s, e.w, EffectOf(e, s.phases[e.w], s.row, s.stored, s.total)) else s
  }

  function Steps(s: State, events: seq<Event>): State
    decreases |events|
  {
    if events == [] then s else Steps(Step(s, events[0]), events[1..])
  }

  function Initial(total: nat, maxAttempts: nat): State {
    State(total, Row(Pending, 0, 0, maxAttempts), multiset{}, map[], 0, 0, 0)
  }

  lemma {:induction false} RangeMeaning(lo: nat, hi: nat)
    ensures forall i: nat :: Range(lo, hi)[i] == if lo <= i < hi then 1 else 0
    ensures |Range(lo, hi)| == if lo <= hi then hi - lo else 0
  {
    if lo < hi {
      RangeMeaning(lo, hi - 1);
    }
  }

  lemma {:induction false} StepsAppend(s: State, a: seq<Event>, b: seq<Event>)
    ensures Steps(s, a + b) == Steps(Steps(s, a), b)
    decreases |a|
  {
    hide Step;
    if a == [] {
      assert a + b == b;
    } else {
      StepsAppend(Step(s, a[0]), a[1..], b);
      assert (a + b)[1..] == a[1..] + b;
    }
  }

  lemma StepsOne(s: State, e: Event)
    ensures Steps(s, [e]) == Step(s, e)
  {
    hide Step;
  }

  lemma StepsTwo(s: State, e: Event, f: Event)
    ensures Steps(s, [e, f]) == Step(Step(s, e), f)
  {
    hide Step;
    assert [e, f][1..] == [f];
    StepsOne(Step(s, e), f);
  }

  lemma StepsNone(s: State)
    ensures Steps(s, []) == s
  {
  }

  lemma StepsFour(s: State, e: seq<Event>)
    requires |e| == 4
    ensures Steps(s, e) == Step(Step(Step(Step(s, e[0]), e[1]), e[2]), e[3])
  {
    hide Step;
    assert e == [e[0], e[1]] + [e[2], e[3]];
    StepsAppend(s, [e[0], e[1]], [e[2], e[3]]);
    StepsTwo(s, e[0], e[1]);
    StepsTwo(Step(Step(s, e[0]), e[1]), e[2], e[3]);
  }
}
