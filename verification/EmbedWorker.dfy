/** The worker that performs them on an item in the database. */
module EmbedWorker {
  import opened Wrappers
  import opened EmbedQueue
  import opened EmbedScript

  // ---------------------------------------------------------------- the worker in place

  predicate OwnEvent(e: Event, w: nat) {
    !e.Recover? && !e.Retry? && !e.Cancel? && !e.List? && e.w == w
  }

  /** The statements of a worker that holds nothing do nothing. */
  lemma {:induction false} NothingHeld(s: State, w: nat, events: seq<Event>)
    requires w !in s.phases && forall i :: 0 <= i < |events| ==> OwnEvent(events[i], w)
    ensures Steps(s, events) == s
    decreases |events|
  {
    if events != [] {
      assert OwnEvent(events[0], w);
      assert Step(s, events[0]) == s;
      NothingHeld(s, w, events[1..]);
    }
  }

  lemma {:induction false} BatchesAreOwn(total: nat, sofar: nat, w: nat, t: Tick, n: nat)
    ensures forall i :: 0 <= i < |Batches(total, sofar, w, t, n)| ==> OwnEvent(Batches(total, sofar, w, t, n)[i], w)
    decreases total - sofar
  {
    if sofar < total {
      BatchesAreOwn(total, NextStop(sofar, total), w, t, n + 1);
    }
  }

  lemma NothingListed(s: State, w: nat, t: Tick, from: nat)
    requires w !in s.phases
    ensures Step(s, Claim(w)) == s
    ensures Steps(Steps(s, ItemScript(s.total, from, w, t)), [Complete(w), Fail(w)]) == s
  {
    hide Steps;
    BatchesAreOwn(s.total, from, w, t, 0);
    NothingHeld(s, w, ItemScript(s.total, from, w, t));
    NothingHeld(s, w, [Complete(w), Fail(w)]);
  }

  /** Of the last two statements one applies. */
  lemma LastStatement(s: State, w: nat)
    requires w in s.phases && (s.phases[w] == Failing || s.phases[w] == Working(s.total))
    ensures Steps(s, [Complete(w), Fail(w)]) == if s.phases[w] == Failing then Step(s, Fail(w)) else Step(s, Complete(w))
  {
    StepsTwo(s, Complete(w), Fail(w));
  }

  lemma RangeNext(stored: multiset<nat>, lo: nat, i: nat)
    requires lo <= i
    ensures stored + Range(lo, i + 1) == stored + Range(lo, i) + multiset{i}
  {
    assert Range(lo, i + 1) == Range(lo, i) + multiset{i};
    hide Range;
  }

  /** The item in the database; `state` adds where the workers are. */
  class Queue {
    const total: nat
    var row: Row
    var stored: multiset<nat>
    ghost var state: State

    ghost predicate Valid()
      reads this
    {
      state.total == total && state.row == row && state.stored == stored
    }

    constructor (total: nat, maxAttempts: nat)
      ensures this.total == total && Valid() && state == Initial(total, maxAttempts)
    {
      this.total := total;
      row, stored := Row(Pending, 0, 0, maxAttempts), multiset{};
      state := Initial(total, maxAttempts);
    }

    /** Ends the attempt of a processing item. */
    method Attempt()
      requires row.status == Processing
      modifies this`row
      ensures row == Attempted(old(row))
    {
      var attempts := row.attempts + 1;
      row := row.(attempts := attempts, status := if attempts >= row.maxAttempts then Failed else Pending);
    }

    method RecoverStale()
      requires Valid()
      modifies this
      ensures Valid() && state == Step(old(state), Recover)
      ensures row == if old(row).status == Processing then Attempted(old(row)) else old(row)
    {
      if row.status == Processing {
        Attempt();
      }
      state := Step(state, Recover);
    }

    method ListPending(ghost w: nat) returns (item: Option<Row>)
      requires Valid() && w !in state.phases
      modifies this`state
      ensures Valid() && state == Step(old(state), List(w))
      ensures item == if row.status == Pending then Some(row) else None
    {
      state := Step(state, List(w));
      return if row.status == Pending then Some(row) else None;
    }

    method ClaimItem(ghost w: nat) returns (claimed: bool)
      requires Valid() && w in state.phases && state.phases[w].Listed?
      modifies this
      ensures Valid() && state == Step(old(state), Claim(w))
      ensures claimed == (old(row).status == Pending)
      ensures row == if claimed then old(row).(status := Processing) else old(row)
    {
      claimed := row.status == Pending;
      if claimed {
        row := row.(status := Processing);
      }
      state := Step(state, Claim(w));
    }

    method CompleteItem(ghost w: nat)
      requires Valid() && w in state.phases && state.phases[w] == Working(total)
      modifies this
      ensures Valid() && state == Step(old(state), Complete(w))
      ensures row == if old(row).status == Processing then old(row).(status := Completed) else old(row)
    {
      if row.status == Processing {
        row := row.(status := Completed);
      }
      state := Step(state, Complete(w));
    }

    method FailItem(ghost w: nat)
      requires Valid() && w in state.phases && state.phases[w] == Failing
      modifies this
      ensures Valid() && state == Step(old(state), Fail(w))
      ensures row == if old(row).status == Processing then Attempted(old(row)) else old(row)
    {
      if row.status == Processing {
        Attempt();
      }
      state := Step(state, Fail(w));
    }

    method InsertBatch(lo: nat, hi: nat)
      requires lo <= hi
      modifies this`stored
      ensures stored == old(stored) + Range(lo, hi)
    {
      for i := lo to hi
        invariant stored == old(stored) + Range(lo, i)
      {
        RangeNext(old(stored), lo, i);
        stored := stored + multiset{i};
      }
    }

    method CommitBatch(ghost w: nat, sofar: nat, next: nat)
      requires Valid() && w in state.phases && state.phases[w] == Working(sofar) && sofar < total && next == NextStop(sofar, total)
      modifies this
      ensures Valid() && state == Step(old(state), Commit(w))
      ensures w in state.phases && state.phases[w] == Saving(next)
      ensures row == old(row) && stored == old(stored) + Range(sofar, next)
    {
      CommitStep(state, sofar, w);
      hide Step;
      InsertBatch(sofar, next);
      state := Step(state, Commit(w));
    }

    method UpdateProgress(ghost w: nat, next: nat)
      requires Valid() && w in state.phases && state.phases[w] == Saving(next)
      modifies this
      ensures Valid() && state == Step(old(state), Save(w))
      ensures w in state.phases && state.phases[w] == Working(next)
      ensures row == old(row).(embedded := next)
    {
      SaveStep(state, w, next);
      row := row.(embedded := next);
      state := Step(state, Save(w));
    }

    /** The worker finds an error before or after its batch is stored. */
    ghost method GiveUp(w: nat, e: Event)
      requires Valid() && w in state.phases && OwnEvent(e, w)
      requires (e.BatchFails? && (state.phases[w].Claimed? || (state.phases[w].Working? && state.phases[w].sofar < total))) || (e.SaveFails? && state.phases[w].Saving?)
      modifies this`state
      ensures Valid() && state == Step(old(state), e)
      ensures w in state.phases && state.phases[w] == Failing
    {
      state := Step(state, e);
    }

    method StoreBatch(ghost w: nat, sofar: nat, n: nat, t: Tick) returns (ok: bool)
      requires Valid() && w in state.phases && state.phases[w] == Working(sofar) && sofar < total
      modifies this
      ensures Valid() && ok == (t.embeds(n) && t.saves(n))
      ensures var script := if !t.embeds(n) then [BatchFails(w)] else if !t.saves(n) then [Commit(w), SaveFails(w)] else [Commit(w), Save(w)];
              state == Steps(old(state), script)
      ensures w in state.phases && state.phases[w] == if ok then Working(NextStop(sofar, total)) else Failing
      ensures row == if ok then old(row).(embedded := NextStop(sofar, total)) else old(row)
    {
      hide Steps, Step;
      StepsOne(state, BatchFails(w));
      StepsTwo(state, Commit(w), SaveFails(w));
      StepsTwo(state, Commit(w), Save(w));
      if !t.embeds(n) {
        GiveUp(w, BatchFails(w));
        return false;
      }
      var next := if sofar + BATCH_SIZE < total then sofar + BATCH_SIZE else total;
      CommitBatch(w, sofar, next);
      if !t.saves(n) {
        GiveUp(w, SaveFails(w));
        return false;
      }
      UpdateProgress(w, next);
      return true;
    }

    method ProcessSingleItem(ghost w: nat, item: Row, t: Tick) returns (ok: bool)
      requires Valid() && w in state.phases && state.phases[w] == Claimed(item.embedded) && item.embedded <= total
      modifies this
      ensures Valid() && state == Steps(old(state), ItemScript(total, item.embedded, w, t))
      ensures w in state.phases && state.phases[w] == if ok then Working(total) else Failing
      ensures row.status == old(row).status
    {
      if !t.loads {
        StepsOne(state, BatchFails(w));
        state := Step(state, BatchFails(w));
        return false;
      }
      ghost var before := state;
      row := row.(embedded := item.embedded);
      state := Step(state, Begin(w));
      StepsOne(before, Begin(w));
      StepsAppend(before, [Begin(w)], Batches(total, item.embedded, w, t, 0));
      ok := EmbedBatches(w, item.embedded, t);
    }

    method EmbedBatches(ghost w: nat, from: nat, t: Tick) returns (ok: bool)
      requires Valid() && w in state.phases && state.phases[w] == Working(from) && from <= total
      modifies this
      ensures Valid() && state == Steps(old(state), Batches(total, from, w, t, 0))
      ensures w in state.phases && state.phases[w] == if ok then Working(total) else Failing
      ensures row.status == old(row).status
    {
      var embeddedSoFar, n := from, 0;
      while embeddedSoFar < total
        invariant Valid() && embeddedSoFar <= total
        invariant w in state.phases && state.phases[w] == Working(embeddedSoFar) && row.status == old(row).status
        invariant Steps(state, Batches(total, embeddedSoFar, w, t, n)) == Steps(old(state), Batches(total, from, w, t, 0))
        decreases total - embeddedSoFar
      {
        var stop := NextStop(embeddedSoFar, total);
        StepsAppend(state, [Commit(w), Save(w)], Batches(total, stop, w, t, n + 1));
        var done := StoreBatch(w, embeddedSoFar, n, t);
        if !done {
          return false;
        }
        embeddedSoFar, n := stop, n + 1;
      }
      return true;
    }

    method CancelItem()
      requires Valid()
      modifies this
      ensures Valid() && state == Step(old(state), Cancel)
      ensures row == if old(row).status == Pending then old(row).(status := Cancelled) else old(row)
    {
      if row.status == Pending {
        row := row.(status := Cancelled);
      }
      state := Step(state, Cancel);
    }

    /** What a worker does with an item it has listed. */
    method ProcessListed(ghost w: nat, item: Row, t: Tick) returns (completed: nat)
      requires Valid() && row.status == Pending && item.embedded == row.embedded <= total
      requires w in state.phases && state.phases[w] == Listed(row.embedded)
      modifies this
      ensures Valid() && state == Steps(old(state), (if t.cancelled then [Cancel] else []) + ClaimScript(total, item.embedded, w, t))
      ensures completed == if row.status == Completed then 1 else 0
    {
      hide Step, Steps, ItemScript;
      ghost var from := row.embedded;
      CancelFirst(state, w, t, from);
      if t.cancelled {
        AtListing(state, Cancel);
        CancelItem();
      }
      ScriptMiddle(state, w, t, from);
      Claiming(state, w);
      var claimed := ClaimItem(w);
      if !claimed {
        NothingListed(state, w, t, from);
        return 0;
      }
      var ok := ProcessSingleItem(w, item, t);
      LastStatement(state, w);
      if ok {
        CompleteItem(w);
        return 1;
      } else {
        FailItem(w);
        return 0;
      }
    }
  }
}
