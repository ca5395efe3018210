/** What every run of the embedding queue keeps, with any number of workers and with one at a time. */
module EmbedRuns {
  import opened Wrappers
  import opened Products
  import opened EmbedQueue
  import opened EmbedScript

  // ---------------------------------------------------------------- any number of workers

  /** The first n chunks are stored. */
  ghost predicate HasFirst(stored: multiset<nat>, n: nat) {
    forall i: nat :: i < n ==> i in stored
  }

  /** What a worker has stored, as far as it knows. */
  function Known(p: Phase): nat {
    match p
    case Listed(n) => n
    case Claimed(n) => n
    case Working(n) => n
    case Saving(n) => n
    case Failing => 0
  }

  ghost predicate Held(total: nat, stored: multiset<nat>, n: nat) {
    n <= total && HasFirst(stored, n)
  }

  ghost predicate Inv(s: State) {
    && Held(s.total, s.stored, s.row.embedded)
    && (forall w :: w in s.phases ==> Held(s.total, s.stored, Known(s.phases[w])))
    && (s.row.status == Completed ==> Held(s.total, s.stored, s.total))
    && (forall i :: i in s.stored ==> i < s.total)
  }

  lemma CommitStores(stored: multiset<nat>, lo: nat, hi: nat)
    requires HasFirst(stored, lo) && lo <= hi
    ensures HasFirst(stored + Range(lo, hi), hi)
    ensures forall i: nat :: i in stored + Range(lo, hi) <==> i in stored || lo <= i < hi
    ensures |stored + Range(lo, hi)| == |stored| + hi - lo
  {
    RangeMeaning(lo, hi);
  }

  /** Nothing stored is ever lost, and what a worker knows or writes down is stored. */
  lemma EffectIsHeld(e: Event, p: Phase, row: Row, stored: multiset<nat>, total: nat)
    requires Held(total, stored, row.embedded) && Held(total, stored, Known(p)) && forall i :: i in stored ==> i < total
    ensures var f := EffectOf(e, p, row, stored, total);
            && Held(total, f.stored, f.row.embedded) && (f.phase.Some? ==> Held(total, f.stored, Known(f.phase.value)))
            && (forall i :: i in f.stored ==> i < total) && stored <= f.stored
            && (f.row.status == Completed && row.status != Completed ==> Held(total, f.stored, total))
  {
    if e.Commit? && p.Working? {
      CommitStores(stored, p.sofar, NextStop(p.sofar, total));
    }
    hide HasFirst, Range;
  }

  lemma SettleKeepsInv(s: State, e: Event, w: nat)
    requires Inv(s) && w in s.phases
    ensures Inv(Settle(s, w, EffectOf(e, s.phases[w], s.row, s.stored, s.total)))
  {
    EffectIsHeld(e, s.phases[w], s.row, s.stored, s.total);
    hide EffectOf, Known;
    var f := EffectOf(e, s.phases[w], s.row, s.stored, s.total);
    assert forall n :: Held(s.total, s.stored, n) ==> Held(s.total, f.stored, n);
  }

  lemma StepKeepsInv(s: State, e: Event)
    requires Inv(s)
    ensures Inv(Step(s, e))
  {
    hide EffectOf;
    match e
    case Recover =>
    case Retry =>
    case Cancel =>
    case List(w) =>
    case _ =>
      if e.w in s.phases {
        SettleKeepsInv(s, e, e.w);
      }
  }

  lemma {:induction false} RunsKeepInv(s: State, events: seq<Event>)
    requires Inv(s)
    ensures Inv(Steps(s, events))
    decreases |events|
  {
    if events != [] {
      hide Step, Inv;
      StepKeepsInv(s, events[0]);
      RunsKeepInv(Step(s, events[0]), events[1..]);
    }
  }

  /** In every run every chunk below the saved progress is stored, and a completed item has all of its
      chunks stored, and no others. */
  lemma ProgressIsStored(total: nat, maxAttempts: nat, events: seq<Event>)
    ensures var s := Steps(Initial(total, maxAttempts), events);
            && HasFirst(s.stored, s.row.embedded)
            && (s.row.status == Completed ==> forall i: nat :: i < s.total <==> i in s.stored)
  {
    RunsKeepInv(Initial(total, maxAttempts), events);
  }

  /** A completed or cancelled item stays as it is, whatever slow workers still do. */
  lemma {:induction false} CompletedIsFinal(s: State, events: seq<Event>)
    requires s.row.status in {Completed, Cancelled}
    ensures Steps(s, events).row.status == s.row.status
    decreases |events|
  {
    if events != [] {
      CompletedIsFinal(Step(s, events[0]), events[1..]);
    }
  }

  // ---------------------------------------------------------------- attempts

  /** Attempts are used up exactly when the item has failed, and bound the claims since the last retry. */
  ghost predicate Attempts(s: State) {
    && s.row.maxAttempts >= 1
    && s.row.attempts <= s.row.maxAttempts
    && (s.row.status == Failed <==> s.row.attempts == s.row.maxAttempts)
    && s.claims <= Times(s.retries, s.row.maxAttempts) + s.row.attempts + if s.row.status in {Processing, Completed} then 1 else 0
  }

  lemma StepKeepsAttempts(s: State, e: Event)
    requires Attempts(s)
    ensures Attempts(Step(s, e)) && Step(s, e).row.maxAttempts == s.row.maxAttempts
  {
    assert Times(s.retries + 1, s.row.maxAttempts) == Times(s.retries, s.row.maxAttempts) + s.row.maxAttempts;
    hide Times;
  }

  /** An item fails for good exactly when its attempts are used up, and is claimed at most `maxAttempts` times until
      then or until it is retried by hand. */
  lemma {:induction false} ClaimsAreBounded(s: State, events: seq<Event>)
    requires Attempts(s)
    ensures var t := Steps(s, events); Attempts(t) && t.claims <= Times(t.retries + 1, t.row.maxAttempts)
    decreases |events|
  {
    if events != [] {
      hide Step;
      StepKeepsAttempts(s, events[0]);
      ClaimsAreBounded(Step(s, events[0]), events[1..]);
    } else {
      assert Times(s.retries + 1, s.row.maxAttempts) == Times(s.retries, s.row.maxAttempts) + s.row.maxAttempts;
    }
  }

  // ---------------------------------------------------------------- repeats by several workers

  /** A worker in this phase may still store chunk i. */
  predicate MayStore(p: Phase, i: nat) {
    match p
    case Claimed(n) => n <= i
    case Working(n) => n <= i
    case Saving(n) => n <= i
    case _ => false
  }

  function Storers(phases: map<nat, Phase>, i: nat): set<nat> {
    set w | w in phases && MayStore(phases[w], i)
  }

  /** Every copy of chunk i, and everyone who may still store one, has a claim of its own. */
  ghost predicate Covered(s: State, i: nat) {
    s.stored[i] + |Storers(s.phases, i)| <= s.claims
  }

  lemma EffectIsCovered(e: Event, p: Phase, row: Row, stored: multiset<nat>, total: nat, i: nat)
    ensures var f := EffectOf(e, p, row, stored, total);
            f.stored[i] + One(f.phase, i) <= stored[i] + One(Some(p), i) + f.claimed
  {
    if e.Commit? && p.Working? {
      RangeMeaning(p.sofar, NextStop(p.sofar, total));
    }
    hide Range;
  }

  function One(p: Option<Phase>, i: nat): nat {
    if p.Some? && MayStore(p.value, i) then 1 else 0
  }

  lemma StorersBut(phases: map<nat, Phase>, w: nat, i: nat)
    ensures |Storers(phases, i)| == |Storers(phases - {w}, i)| + One(if w in phases then Some(phases[w]) else None, i)
  {
    hide MayStore;
    var all, others := Storers(phases, i), Storers(phases - {w}, i);
    if w in phases && MayStore(phases[w], i) {
      assert all == others + {w};
    } else {
      assert all == others;
    }
  }

  lemma SettleIsCovered(s: State, e: Event, w: nat, i: nat)
    requires Covered(s, i) && w in s.phases
    ensures Covered(Settle(s, w, EffectOf(e, s.phases[w], s.row, s.stored, s.total)), i)
  {
    EffectIsCovered(e, s.phases[w], s.row, s.stored, s.total, i);
    hide EffectOf, MayStore, Storers;
    var t := Settle(s, w, EffectOf(e, s.phases[w], s.row, s.stored, s.total));
    StorersBut(s.phases, w, i);
    StorersBut(t.phases, w, i);
    assert t.phases - {w} == s.phases - {w};
  }

  lemma StepIsCovered(s: State, e: Event, i: nat)
    requires Covered(s, i)
    ensures Covered(Step(s, e), i)
  {
    hide EffectOf, Storers, Settle;
    match e
    case Recover =>
    case Retry =>
    case Cancel =>
    case List(w) =>
      StorersBut(s.phases, w, i);
      var t := Step(s, e);
      StorersBut(t.phases, w, i);
      assert t.phases - {w} == s.phases - {w};
    case _ =>
      if e.w in s.phases {
        SettleIsCovered(s, e, e.w, i);
      }
  }

  /** However many workers share an item, and however they are interleaved, no chunk is stored more often than
      the item is claimed. */
  lemma CopiesAreBounded(total: nat, maxAttempts: nat, events: seq<Event>, i: nat)
    ensures var s := Steps(Initial(total, maxAttempts), events);
            && s.stored[i] <= s.claims
            && (maxAttempts >= 1 ==> s.claims <= Times(s.retries + 1, maxAttempts))
  {
    RunsAreCovered(Initial(total, maxAttempts), events, i);
    if maxAttempts >= 1 {
      ClaimsAreBounded(Initial(total, maxAttempts), events);
      StepsKeepConstants(Initial(total, maxAttempts), events);
    }
  }

  lemma {:induction false} RunsAreCovered(s: State, events: seq<Event>, i: nat)
    requires Covered(s, i)
    ensures Covered(Steps(s, events), i)
    decreases |events|
  {
    if events != [] {
      hide Step, Covered;
      StepIsCovered(s, events[0], i);
      RunsAreCovered(Step(s, events[0]), events[1..], i);
    }
  }

  // ---------------------------------------------------------------- one worker at a time

  ghost predicate Alone(s: State) {
    forall v, w :: v in s.phases && w in s.phases ==> v == w
  }

  ghost predicate AlwaysAlone(s: State, events: seq<Event>)
    decreases |events|
  {
    Alone(s) && (events != [] ==> AlwaysAlone(Step(s, events[0]), events[1..]))
  }

  /** What the only worker holds agrees with the row, and it has not lost a batch for its claim yet. */
  ghost predicate Account(row: Row, claims: nat, lost: nat, p: Phase) {
    match p
    case Listed(n) => n == row.embedded && lost <= claims
    case Claimed(n) => n == row.embedded && lost < claims
    case Working(n) => n == row.embedded && lost < claims
    case Saving(n) => row.embedded < n <= row.embedded + BATCH_SIZE && lost < claims
    case Failing => lost <= claims
  }

  function Unsaved(row: Row, p: Option<Phase>): nat {
    if p.Some? && p.value.Saving? && p.value.sofar > row.embedded then p.value.sofar - row.embedded else 0
  }

  /** What is stored twice is accounted for by batches that were not saved. */
  ghost predicate Paid(row: Row, stored: multiset<nat>, lost: nat, p: Option<Phase>) {
    |stored| <= row.embedded + BATCH_SIZE * lost + Unsaved(row, p)
  }

  ghost predicate Frugal(s: State) {
    && Alone(s) && s.lost <= s.claims
    && (forall w :: w in s.phases ==> Account(s.row, s.claims, s.lost, s.phases[w]) && Paid(s.row, s.stored, s.lost, Some(s.phases[w])))
    && (s.phases == map[] ==> Paid(s.row, s.stored, s.lost, None))
  }

  lemma EffectIsFrugal(e: Event, p: Phase, row: Row, stored: multiset<nat>, total: nat, claims: nat, lost: nat)
    requires Account(row, claims, lost, p) && Paid(row, stored, lost, Some(p)) && lost <= claims
    ensures var f := EffectOf(e, p, row, stored, total);
            && lost + f.lost <= claims + f.claimed && Paid(f.row, f.stored, lost + f.lost, f.phase)
            && (f.phase.Some? ==> Account(f.row, claims + f.claimed, lost + f.lost, f.phase.value))
  {
    if e.Commit? && p.Working? {
      RangeMeaning(p.sofar, NextStop(p.sofar, total));
    }
    hide Range;
  }

  lemma WorkerIsFrugal(s: State, e: Event, w: nat)
    requires Frugal(s) && w in s.phases
    ensures Frugal(Settle(s, w, EffectOf(e, s.phases[w], s.row, s.stored, s.total)))
  {
    EffectIsFrugal(e, s.phases[w], s.row, s.stored, s.total, s.claims, s.lost);
    hide EffectOf, Account, Paid;
    assert s.phases.Keys == {w};
    assert s.phases - {w} == map[];
  }

  lemma StepIsFrugal(s: State, e: Event)
    requires Frugal(s) && Alone(Step(s, e))
    ensures Frugal(Step(s, e))
  {
    hide EffectOf;
    match e
    case Recover =>
    case Retry =>
    case Cancel =>
    case List(w) =>
      if w !in s.phases && s.row.status == Pending {
        NobodyElse(s, w);
      }
    case _ =>
      if e.w in s.phases {
        WorkerIsFrugal(s, e, e.w);
      }
  }

  lemma NobodyElse(s: State, w: nat)
    requires w !in s.phases && Alone(s.(phases := s.phases[w := Listed(s.row.embedded)]))
    ensures s.phases == map[]
  {
    var more := s.phases[w := Listed(s.row.embedded)];
    assert forall v :: v in s.phases ==> v in more && w in more;
    assert s.phases.Keys == {};
  }

  lemma {:induction false} RunsAreFrugal(s: State, events: seq<Event>)
    requires Frugal(s) && AlwaysAlone(s, events)
    ensures Frugal(Steps(s, events))
    decreases |events|
  {
    if events != [] {
      assert AlwaysAlone(Step(s, events[0]), events[1..]);
      hide Step, Frugal, Alone;
      StepIsFrugal(s, events[0]);
      RunsAreFrugal(Step(s, events[0]), events[1..]);
    }
  }

  /** With one worker at a time, each batch stored but not saved is the only work ever repeated, and there are
      no more of those than claims. */
  lemma RepeatsAreBounded(total: nat, maxAttempts: nat, events: seq<Event>)
    requires maxAttempts >= 1 && AlwaysAlone(Initial(total, maxAttempts), events)
    ensures var s := Steps(Initial(total, maxAttempts), events);
            && |s.stored| <= total + BATCH_SIZE * s.lost
            && s.lost <= s.claims <= Times(s.retries + 1, maxAttempts)
  {
    var s := Steps(Initial(total, maxAttempts), events);
    RunsAreFrugal(Initial(total, maxAttempts), events);
    RunsKeepInv(Initial(total, maxAttempts), events);
    ClaimsAreBounded(Initial(total, maxAttempts), events);
    StepsKeepConstants(Initial(total, maxAttempts), events);
    if w :| w in s.phases {
      assert Account(s.row, s.claims, s.lost, s.phases[w]) && Held(s.total, s.stored, Known(s.phases[w]));
    } else {
      assert s.phases == map[];
    }
  }

  /** With several workers more may be repeated: an item taken from a slow worker is stored by both. */
  lemma SlowWorkerRepeats() returns (events: seq<Event>)
    ensures var s := Steps(Initial(1, 5), events); s.lost == 0 && |s.stored| > s.total
  {
    hide Step, Steps, Range;
    var s := Initial(1, 5);
    var first := [List(0), Claim(0), Begin(0), Recover];
    var second := [List(1), Claim(1), Begin(1), Commit(0), Commit(1)];
    events := first + second;
    Beginning(s, 0);
    var slow := Step(Step(Step(s, List(0)), Claim(0)), Begin(0));
    RecoverStep(slow);
    var taken := Step(slow, Recover);
    Beginning(taken, 1);
    var both := Step(Step(Step(taken, List(1)), Claim(1)), Begin(1));
    CommitStep(both, 0, 0);
    CommitStep(Step(both, Commit(0)), 0, 1);
    RangeMeaning(0, 1);
    StepsAppend(s, first, second);
    StepsFour(s, first);
    StepsAppend(taken, second[..4], second[4..]);
    StepsFour(taken, second[..4]);
    StepsOne(Step(both, Commit(0)), Commit(1));
    assert second == second[..4] + second[4..] && second[4..] == [Commit(1)];
  }

  /** Saved progress may fall back: a slow worker whose item was taken begins where it had listed the item. */
  lemma ProgressFallsBack() returns (events: seq<Event>)
    ensures var s := Initial(200, 5);
            && |events| > 0
            && Steps(s, events[..|events| - 1]).row.embedded == 100 && Steps(s, events).row.embedded == 0
  {
    hide Step, Steps, Range;
    var s := Initial(200, 5);
    var first, second := [List(0), Claim(0), Recover, List(1)], [Claim(1), Begin(1), Commit(1), Save(1)];
    events := first + second + [Begin(0)];
    assert events[..8] == first + second;
    StepsAppend(s, first, second);
    StepsAppend(s, first + second, [Begin(0)]);
    StepsFour(s, first);
    var taken := Step(Step(Step(s, List(0)), Claim(0)), Recover);
    TakenFromSlow(s);
    Beginning(taken, 1);
    var begun := Step(Step(Step(taken, List(1)), Claim(1)), Begin(1));
    StepsFour(Step(taken, List(1)), second);
    CommitStep(begun, 0, 1);
    SaveStep(Step(begun, Commit(1)), 1, 100);
    var saved := Step(Step(begun, Commit(1)), Save(1));
    StepsOne(saved, Begin(0));
    BeginStep(saved, 0, 0);
  }

  lemma TakenFromSlow(s: State)
    requires s == Initial(200, 5)
    ensures var taken := Step(Step(Step(s, List(0)), Claim(0)), Recover);
            && taken.total == 200 && taken.row == Row(Pending, 0, 1, 5) && taken.phases == map[0 := Claimed(0)]
  {
  }

  lemma BeginStep(s: State, w: nat, from: nat)
    requires w in s.phases && s.phases[w] == Claimed(from)
    ensures Step(s, Begin(w)).row.embedded == from
  {
  }

  lemma RecoverStep(s: State)
    requires s.row.status == Processing
    ensures Step(s, Recover) == s.(row := Attempted(s.row))
  {
  }

  lemma {:induction false} StepsKeepConstants(s: State, events: seq<Event>)
    ensures Steps(s, events).total == s.total && Steps(s, events).row.maxAttempts == s.row.maxAttempts
    decreases |events|
  {
    if events != [] {
      StepsKeepConstants(Step(s, events[0]), events[1..]);
    }
  }
}
