/** What a tick leaves of an item when something goes wrong. */
module EmbedFailures {
  import opened EmbedQueue
  import opened EmbedScript

  /** The item after a failed attempt, with this much stored and saved. */
  function FailedRow(row: Row, embedded: nat): Row {
    Row(if row.attempts + 1 >= row.maxAttempts then Failed else Pending, embedded, row.attempts + 1, row.maxAttempts)
  }

  /** The worker has stored and saved the chunks from `lo` to `mid`, stored those up to `hi`, and found an error. */
  function Broken(s: State, w: nat, lo: nat, mid: nat, hi: nat): State {
    s.(stored := s.stored + Range(lo, mid) + Range(mid, hi), phases := s.phases[w := Failing],
       row := s.row.(embedded := mid), lost := s.lost + if hi > mid then 1 else 0)
  }

  /** Where the batch ends that is not saved; it is empty if it is not stored either. */
  function BrokenEnd(t: Tick, n: nat, mid: nat, total: nat): nat { if t.embeds(n) then NextStop(mid, total) else mid }

  lemma BrokenBatch(s: State, sofar: nat, w: nat, t: Tick, n: nat)
    requires w in s.phases && s.phases[w] == Working(sofar) && sofar == s.row.embedded < s.total && !(t.embeds(n) && t.saves(n))
    ensures Steps(s, Batches(s.total, sofar, w, t, n)) == Broken(s, w, sofar, sofar, BrokenEnd(t, n, sofar, s.total))
  {
    StepsOne(s, BatchFails(w));
    StepsTwo(s, Commit(w), SaveFails(w));
    CommitStep(s, sofar, w);
    hide Steps, Range;
    RangeMeaning(sofar, sofar);
    assert Range(sofar, sofar) == multiset{};
    assert s.stored + multiset{} == s.stored && s.stored + multiset{} + multiset{} == s.stored;
    var saving := s.phases[w := Saving(NextStop(sofar, s.total))];
    assert saving[w := Failing] == s.phases[w := Failing];
  }

  lemma StoredThenBroken(s: State, w: nat, lo: nat, next: nat, mid: nat, hi: nat)
    requires lo <= next <= mid
    ensures Broken(Stored(s, w, lo, next), w, next, mid, hi) == Broken(s, w, lo, mid, hi)
  {
    RangeSplits(lo, next, mid);
    hide Range;
    assert s.stored + Range(lo, next) + Range(next, mid) + Range(mid, hi) == s.stored + (Range(lo, next) + Range(next, mid)) + Range(mid, hi);
    assert s.phases[w := Working(next)][w := Failing] == s.phases[w := Failing];
  }

  /** Batches are stored and saved up to the first that cannot be. */
  lemma {:induction false} BatchesBreak(s: State, sofar: nat, w: nat, t: Tick, k: nat, n: nat)
    requires w in s.phases && s.phases[w] == Working(sofar) && sofar == s.row.embedded && k <= n
    requires (forall j: nat :: k <= j < n ==> t.embeds(j) && t.saves(j)) && !(t.embeds(n) && t.saves(n))
    requires sofar + BATCH_SIZE * (n - k) < s.total
    ensures var mid := sofar + BATCH_SIZE * (n - k);
            Steps(s, Batches(s.total, sofar, w, t, k)) == Broken(s, w, sofar, mid, BrokenEnd(t, n, mid, s.total))
    decreases n - k
  {
    hide Step, Range, Broken;
    if k == n {
      BrokenBatch(s, sofar, w, t, n);
    } else {
      var next, mid := NextStop(sofar, s.total), sofar + BATCH_SIZE * (n - k);
      assert next == sofar + BATCH_SIZE && mid == next + BATCH_SIZE * (n - (k + 1));
      var rest := Batches(s.total, next, w, t, k + 1);
      StepsAppend(s, [Commit(w), Save(w)], rest);
      OneBatch(s, sofar, w);
      BatchesBreak(Stored(s, w, sofar, next), next, w, t, k + 1, n);
      StoredThenBroken(s, w, sofar, next, mid, BrokenEnd(t, n, mid, s.total));
    }
  }

  lemma FailEnding(s: State, w: nat)
    requires w in s.phases && s.phases[w] == Failing && s.row.status == Processing
    ensures Steps(s, [Complete(w), Fail(w)]) == s.(row := FailedRow(s.row, s.row.embedded), phases := s.phases - {w})
  {
    StepsTwo(s, Complete(w), Fail(w));
  }

  /** What a tick leaves that stores up to `hi` and saves up to `mid`. */
  function Tried(s: State, mid: nat, hi: nat): State {
    s.(row := FailedRow(s.row, mid), claims := s.claims + 1, lost := s.lost + (if hi > mid then 1 else 0),
       stored := s.stored + Range(s.row.embedded, mid) + Range(mid, hi))
  }

  lemma ClaimedIs(s: State, w: nat)
    requires s.row.status == Pending && w !in s.phases
    ensures Step(Step(s, List(w)), Claim(w)) ==
            s.(row := s.row.(status := Processing), phases := s.phases[w := Claimed(s.row.embedded)], claims := s.claims + 1)
  {
    assert s.phases[w := Listed(s.row.embedded)][w := Claimed(s.row.embedded)] == s.phases[w := Claimed(s.row.embedded)];
  }

  lemma EndsTried(s: State, w: nat, begun: State, mid: nat, hi: nat)
    requires w !in s.phases && mid <= hi
    requires begun == s.(row := s.row.(status := Processing), phases := s.phases[w := Working(s.row.embedded)], claims := s.claims + 1)
    ensures Steps(Broken(begun, w, s.row.embedded, mid, hi), [Complete(w), Fail(w)]) == Tried(s, mid, hi)
  {
    FailEnding(Broken(begun, w, s.row.embedded, mid, hi), w);
    hide Steps, Range;
    assert begun.phases[w := Failing] - {w} == s.phases;
  }

  lemma ItemBreaks(s: State, w: nat, t: Tick, n: nat)
    requires s.row.status == Pending && w !in s.phases && t.loads
    requires (forall j: nat :: j < n ==> t.embeds(j) && t.saves(j)) && !(t.embeds(n) && t.saves(n))
    requires s.row.embedded + BATCH_SIZE * n < s.total
    ensures var claimed := Step(Step(s, List(w)), Claim(w));
            var mid := s.row.embedded + BATCH_SIZE * n;
            Steps(Steps(claimed, ItemScript(s.total, s.row.embedded, w, t)), [Complete(w), Fail(w)])
            == Tried(s, mid, BrokenEnd(t, n, mid, s.total))
  {
    hide Step, Steps, Range, Batches, Broken, Tried;
    var from, claimed := s.row.embedded, Step(Step(s, List(w)), Claim(w));
    var begun := Step(claimed, Begin(w));
    Beginning(s, w);
    StepsAppend(claimed, [Begin(w)], Batches(s.total, from, w, t, 0));
    StepsOne(claimed, Begin(w));
    BatchesBreak(begun, from, w, t, 0, n);
    var mid := from + BATCH_SIZE * n;
    EndsTried(s, w, begun, mid, BrokenEnd(t, n, mid, s.total));
  }

  lemma NotLoaded(s: State, w: nat, t: Tick)
    requires s.row.status == Pending && w !in s.phases && !t.loads
    ensures var claimed := Step(Step(s, List(w)), Claim(w));
            Steps(Steps(claimed, ItemScript(s.total, s.row.embedded, w, t)), [Complete(w), Fail(w)])
            == Tried(s, s.row.embedded, s.row.embedded)
  {
    var claimed := Step(Step(s, List(w)), Claim(w));
    ClaimedIs(s, w);
    StepsOne(claimed, BatchFails(w));
    var failing := Step(claimed, BatchFails(w));
    assert failing == claimed.(phases := claimed.phases[w := Failing]);
    hide Steps, Step;
    FailEnding(failing, w);
    assert s.phases[w := Claimed(s.row.embedded)][w := Failing] - {w} == s.phases;
    NothingStored(s.stored, s.row.embedded);
  }

  lemma NothingStored(stored: multiset<nat>, at: nat)
    ensures stored + Range(at, at) + Range(at, at) == stored
  {
  }

  /** A tick on a pending item that meets an error takes one attempt off it, and what was saved before stays. */
  lemma TickFails(s: State, w: nat, t: Tick, n: nat)
    requires s.row.status == Pending && w !in s.phases && !t.cancelled
    requires t.loads ==>
               && (forall j: nat :: j < n ==> t.embeds(j) && t.saves(j)) && !(t.embeds(n) && t.saves(n))
               && s.row.embedded + BATCH_SIZE * n < s.total
    ensures var mid := if t.loads then s.row.embedded + BATCH_SIZE * n else s.row.embedded;
            Steps(s, Script(s, w, t)) == Tried(s, mid, if t.loads then BrokenEnd(t, n, mid, s.total) else mid)
  {
    var listed := Step(s, List(w));
    assert Step(s, Recover) == s && listed.total == s.total;
    ScriptStart(s, w, t);
    CancelFirst(listed, w, t, s.row.embedded);
    hide Step, Steps, ItemScript, ClaimScript, Script, Tried;
    ScriptMiddle(listed, w, t, s.row.embedded);
    if t.loads {
      ItemBreaks(s, w, t, n);
    } else {
      NotLoaded(s, w, t);
    }
  }
}
