/** The statements of one worker's tick on one item, and what they do when nothing goes wrong. */
module EmbedScript {
  import opened EmbedQueue

  // ---------------------------------------------------------------- one tick of one worker

  /** What happens to a worker that does not crash: whether it finds the item stale, whether the item is
      cancelled before it can be claimed, whether the chunks load, and batch by batch whether the embedding
      is stored and the progress saved. */
  datatype Tick = Tick(stale: bool, cancelled: bool, loads: bool, embeds: nat -> bool, saves: nat -> bool)

  /** The statements for the chunks from `sofar` on. */
  function Batches(total: nat, sofar: nat, w: nat, t: Tick, n: nat): seq<Event>
    decreases total - sofar
  {
    if sofar >= total then []
    else if !t.embeds(n) then [BatchFails(w)]
    else if !t.saves(n) then [Commit(w), SaveFails(w)]
    else [Commit(w), Save(w)] + Batches(total, NextStop(sofar, total), w, t, n + 1)
  }

  function ItemScript(total: nat, from: nat, w: nat, t: Tick): seq<Event> {
    if t.loads then [Begin(w)] + Batches(total, from, w, t, 0) else [BatchFails(w)]
  }

  /** From the claim on; the last statement that applies is the last one performed. */
  function ClaimScript(total: nat, from: nat, w: nat, t: Tick): seq<Event> {
    [Claim(w)] + ItemScript(total, from, w, t) + [Complete(w), Fail(w)]
  }

  /** A whole tick on an item that is listed if it is pending. */
  function Script(s: State, w: nat, t: Tick): seq<Event> {
    (if t.stale then [Recover] else []) + [List(w)] +
    ((if t.cancelled then [Cancel] else []) + ClaimScript(s.total, s.row.embedded, w, t))
  }

  /** A worker has stored and saved everything up to `hi`. */
  function Stored(s: State, w: nat, lo: nat, hi: nat): State {
    s.(stored := s.stored + Range(lo, hi), phases := s.phases[w := Working(hi)], row := s.row.(embedded := hi))
  }

  lemma OneBatch(s: State, sofar: nat, w: nat)
    requires w in s.phases && s.phases[w] == Working(sofar) && sofar < s.total
    ensures Steps(s, [Commit(w), Save(w)]) == Stored(s, w, sofar, NextStop(sofar, s.total))
  {
    var next := NextStop(sofar, s.total);
    CommitStep(s, sofar, w);
    SaveStep(Step(s, Commit(w)), w, next);
    StepsTwo(s, Commit(w), Save(w));
    hide Step, Steps, Range, NextStop;
    assert s.phases[w := Saving(next)][w := Working(next)] == s.phases[w := Working(next)];
  }

  lemma CommitStep(s: State, sofar: nat, w: nat)
    requires w in s.phases && s.phases[w] == Working(sofar) && sofar < s.total
    ensures var next := NextStop(sofar, s.total);
            Step(s, Commit(w)) == s.(stored := s.stored + Range(sofar, next), phases := s.phases[w := Saving(next)])
  {
    hide Range, NextStop;
  }

  lemma SaveStep(s: State, w: nat, next: nat)
    requires w in s.phases && s.phases[w] == Saving(next)
    ensures Step(s, Save(w)) == s.(phases := s.phases[w := Working(next)], row := s.row.(embedded := next))
  {
  }

  lemma StoredTwice(s: State, w: nat, lo: nat, mid: nat, hi: nat)
    requires lo <= mid <= hi
    ensures Stored(Stored(s, w, lo, mid), w, mid, hi) == Stored(s, w, lo, hi)
  {
    RangeSplits(lo, mid, hi);
    hide Range;
    assert s.stored + Range(lo, mid) + Range(mid, hi) == s.stored + (Range(lo, mid) + Range(mid, hi));
    assert s.phases[w := Working(mid)][w := Working(hi)] == s.phases[w := Working(hi)];
  }

  lemma RangeSplits(lo: nat, mid: nat, hi: nat)
    requires lo <= mid <= hi
    ensures Range(lo, hi) == Range(lo, mid) + Range(mid, hi)
  {
    RangeMeaning(lo, mid);
    RangeMeaning(mid, hi);
    RangeMeaning(lo, hi);
    hide Range;
  }

  /** An undisturbed worker stores every remaining chunk exactly once. */
  lemma {:induction false} BatchesStoreTheRest(s: State, sofar: nat, w: nat, t: Tick, n: nat)
    requires w in s.phases && s.phases[w] == Working(sofar) && sofar == s.row.embedded <= s.total
    requires forall k :: t.embeds(k) && t.saves(k)
    ensures Steps(s, Batches(s.total, sofar, w, t, n)) == Stored(s, w, sofar, s.total)
    decreases s.total - sofar
  {
    hide Step, Range;
    if sofar < s.total {
      var next := NextStop(sofar, s.total);
      var rest := Batches(s.total, next, w, t, n + 1);
      StepsAppend(s, [Commit(w), Save(w)], rest);
      OneBatch(s, sofar, w);
      BatchesStoreTheRest(Stored(s, w, sofar, next), next, w, t, n + 1);
      StoredTwice(s, w, sofar, next, s.total);
    } else {
      RangeMeaning(sofar, s.total);
      assert s.phases[w := Working(s.total)] == s.phases;
    }
  }

  /** A tick without errors on a pending item stores exactly the chunks that were missing and completes it. */
  lemma TickCompletes(s: State, w: nat, t: Tick)
    requires s.row.status == Pending && w !in s.phases && s.row.embedded <= s.total
    requires !t.cancelled && t.loads && forall k :: t.embeds(k) && t.saves(k)
    ensures Steps(s, Script(s, w, t)) ==
            s.(row := s.row.(status := Completed, embedded := s.total), claims := s.claims + 1,
               stored := s.stored + Range(s.row.embedded, s.total))
  {
    var listed := Step(s, List(w));
    var begun := Step(Step(listed, Claim(w)), Begin(w));
    Beginning(s, w);
    assert Step(s, Recover) == s && listed.total == s.total && Step(listed, Claim(w)).total == s.total;
    ScriptStart(s, w, t);
    CancelFirst(listed, w, t, s.row.embedded);
    hide Step, Steps, Range, ItemScript, ClaimScript, Script, Stored;
    ScriptMiddle(listed, w, t, s.row.embedded);
    ItemIsStored(Step(listed, Claim(w)), begun, w, t);
    AllStored(s, w);
  }

  lemma AllStored(s: State, w: nat)
    requires w !in s.phases
    ensures var from := s.row.embedded;
            var begun := s.(row := s.row.(status := Processing), phases := s.phases[w := Working(from)], claims := s.claims + 1);
            Steps(Stored(begun, w, from, s.total), [Complete(w), Fail(w)]) ==
            s.(row := s.row.(status := Completed, embedded := s.total), claims := s.claims + 1, stored := s.stored + Range(from, s.total))
  {
    hide Step, Steps, Range;
    var from := s.row.embedded;
    var begun := s.(row := s.row.(status := Processing), phases := s.phases[w := Working(from)], claims := s.claims + 1);
    Ending(Stored(begun, w, from, s.total), w);
    assert Stored(begun, w, from, s.total).phases - {w} == s.phases;
  }

  lemma ItemIsStored(claimed: State, begun: State, w: nat, t: Tick)
    requires begun == Step(claimed, Begin(w)) && begun.total == claimed.total && begun.row.embedded <= begun.total
    requires w in begun.phases && begun.phases[w] == Working(begun.row.embedded)
    requires t.loads && forall k :: t.embeds(k) && t.saves(k)
    ensures Steps(claimed, ItemScript(claimed.total, begun.row.embedded, w, t)) == Stored(begun, w, begun.row.embedded, begun.total)
  {
    hide Step, Steps, Range, Batches;
    var batches := Batches(claimed.total, begun.row.embedded, w, t, 0);
    StepsAppend(claimed, [Begin(w)], batches);
    StepsOne(claimed, Begin(w));
    BatchesStoreTheRest(begun, begun.row.embedded, w, t, 0);
  }

  /** The script up to the listing. */
  lemma ScriptStart(s: State, w: nat, t: Tick)
    ensures var recovered := if t.stale then Step(s, Recover) else s;
            Steps(s, Script(s, w, t)) ==
            Steps(Step(recovered, List(w)), (if t.cancelled then [Cancel] else []) + ClaimScript(s.total, s.row.embedded, w, t))
  {
    hide Step, Steps, ClaimScript;
    var rest := (if t.cancelled then [Cancel] else []) + ClaimScript(s.total, s.row.embedded, w, t);
    var recover := if t.stale then [Recover] else [];
    var recovered := if t.stale then Step(s, Recover) else s;
    StepsAppend(s, recover + [List(w)], rest);
    StepsAppend(s, recover, [List(w)]);
    StepsOne(s, Recover);
    StepsOne(recovered, List(w));
    StepsNone(s);
  }

  lemma ScriptMiddle(s: State, w: nat, t: Tick, from: nat)
    ensures Steps(s, ClaimScript(s.total, from, w, t)) ==
            Steps(Steps(Step(s, Claim(w)), ItemScript(s.total, from, w, t)), [Complete(w), Fail(w)])
  {
    hide Step, Steps, ItemScript;
    var script := ItemScript(s.total, from, w, t);
    StepsAppend(s, [Claim(w)] + script, [Complete(w), Fail(w)]);
    StepsAppend(s, [Claim(w)], script);
    StepsOne(s, Claim(w));
  }

  lemma Beginning(s: State, w: nat)
    requires s.row.status == Pending && w !in s.phases
    ensures Step(Step(Step(s, List(w)), Claim(w)), Begin(w)) ==
            s.(row := s.row.(status := Processing), phases := s.phases[w := Working(s.row.embedded)], claims := s.claims + 1)
  {
    var from := s.row.embedded;
    assert s.phases[w := Listed(from)][w := Claimed(from)][w := Working(from)] == s.phases[w := Working(from)];
  }

  lemma Ending(s: State, w: nat)
    requires w in s.phases && s.phases[w] == Working(s.total) && s.row.status == Processing
    ensures Steps(s, [Complete(w), Fail(w)]) == s.(row := s.row.(status := Completed), phases := s.phases - {w})
  {
    StepsTwo(s, Complete(w), Fail(w));
  }

  lemma AtListing(s: State, e: Event)
    requires e == Recover || e == Cancel
    ensures var t := Step(s, e); t.phases == s.phases && t.row.embedded == s.row.embedded && t.total == s.total
  {
  }

  lemma CancelFirst(s: State, w: nat, t: Tick, from: nat)
    ensures Steps(s, (if t.cancelled then [Cancel] else []) + ClaimScript(s.total, from, w, t)) ==
            Steps(if t.cancelled then Step(s, Cancel) else s, ClaimScript(s.total, from, w, t))
  {
    hide Step, Steps, ClaimScript;
    var script := ClaimScript(s.total, from, w, t);
    if t.cancelled {
      StepsAppend(s, [Cancel], script);
      StepsOne(s, Cancel);
    } else {
      assert [] + script == script;
    }
  }

  lemma Claiming(s: State, w: nat)
    requires w in s.phases && s.phases[w].Listed?
    ensures var t := Step(s, Claim(w));
            && t.total == s.total
            && if s.row.status == Pending then w in t.phases && t.phases[w] == Claimed(s.phases[w].from) else w !in t.phases
  {
  }
}
