/** Signals agents emit to reroute a workflow, and the resolution of conflicting ones. */
module Signals {

  datatype SignalKind = Request | Skip | Priority

  datatype Signal = Signal(kind: SignalKind, target: string, reason: string, source: string)

  predicate SameKey(s: Signal, t: Signal) {
    s.kind == t.kind && s.target == t.target
  }

  predicate Mentions(signals: seq<Signal>, kind: SignalKind, target: string) {
    exists s :: s in signals && s.kind == kind && s.target == target
  }

  /** What routing relies on: one signal per (target, kind), and no target both requested and skipped. */
  ghost predicate Resolved(signals: seq<Signal>) {
    && (forall i, j :: 0 <= i < j < |signals| ==> !SameKey(signals[i], signals[j]))
    && (forall s, t :: s in signals && t in signals && s.kind == Request && t.kind == Skip ==> s.target != t.target)
  }

  // ---------------------------------------------------------------- specification

  function FirstPerKey(signals: seq<Signal>): seq<Signal> {
    if signals == [] then []
    else
      var last := signals[|signals| - 1];
      var rest := FirstPerKey(signals[..|signals| - 1]);
      if Mentions(rest, last.kind, last.target) then rest else rest + [last]
  }

  predicate Overruled(s: Signal, signals: seq<Signal>) {
    s.kind == Skip && Mentions(signals, Request, s.target)
  }

  function DropOverruled(signals: seq<Signal>, all: seq<Signal>): seq<Signal> {
    if signals == [] then []
    else
      var last := signals[|signals| - 1];
      DropOverruled(signals[..|signals| - 1], all) + if Overruled(last, all) then [] else [last]
  }

  function Resolve(signals: seq<Signal>): seq<Signal> {
    var firsts := FirstPerKey(signals);
    DropOverruled(firsts, firsts)
  }

  // ---------------------------------------------------------------- the pass over the list

  method ResolveConflicts(signals: seq<Signal>) returns (result: seq<Signal>)
    ensures result == Resolve(signals)
    ensures Resolved(result)
  {
    ResolveIsResolved(signals);
    hide Resolved, FirstPerKey, Mentions;
    var firsts := KeepFirsts(signals);
    var requestTargets := RequestTargets(firsts);
    result := [];
    for i := 0 to |firsts|
      invariant result == DropOverruled(firsts[..i], firsts)
    {
      assert firsts[..i + 1][..i] == firsts[..i];
      if !(firsts[i].kind == Skip && firsts[i].target in requestTargets) {
        result := result + [firsts[i]];
      }
    }
    assert firsts[..|firsts|] == firsts;
  }

  method KeepFirsts(signals: seq<Signal>) returns (firsts: seq<Signal>)
    ensures firsts == FirstPerKey(signals)
  {
    var seen: map<(string, SignalKind), nat> := map[];
    firsts := [];
    for i := 0 to |signals|
      invariant firsts == FirstPerKey(signals[..i])
      invariant forall k, t :: (t, k) in seen <==> Mentions(firsts, k, t)
    {
      var sig := signals[i];
      var key := (sig.target, sig.kind);
      assert signals[..i + 1][..i] == signals[..i];
      if key !in seen {
        MentionsOneMore(firsts, sig);
        seen := seen[key := |firsts|];
        firsts := firsts + [sig];
      }
    }
    assert signals[..|signals|] == signals;
  }

  method RequestTargets(signals: seq<Signal>) returns (targets: seq<string>)
    ensures forall t :: t in targets <==> Mentions(signals, Request, t)
  {
    targets := [];
    for i := 0 to |signals|
      invariant forall t :: t in targets <==> Mentions(signals[..i], Request, t)
    {
      assert signals[..i + 1] == signals[..i] + [signals[i]];
      MentionsOneMore(signals[..i], signals[i]);
      if signals[i].kind == Request {
        targets := targets + [signals[i].target];
      }
    }
    assert signals[..|signals|] == signals;
  }

  lemma MentionsOneMore(signals: seq<Signal>, s: Signal)
    ensures forall k, t :: Mentions(signals + [s], k, t) <==> Mentions(signals, k, t) || (k == s.kind && t == s.target)
  {
    var more := signals + [s];
    assert s in more && forall x :: x in more <==> x in signals || x == s;
  }

  // ---------------------------------------------------------------- what resolution keeps

  /** `s` stands at position `i` and no earlier signal has its target and kind. */
  ghost predicate FirstAt(signals: seq<Signal>, i: nat, s: Signal) {
    i < |signals| && signals[i] == s && forall j :: 0 <= j < i ==> signals[j].kind != s.kind || signals[j].target != s.target
  }

  lemma MentionsAt(signals: seq<Signal>, kind: SignalKind, target: string)
    ensures Mentions(signals, kind, target) <==> exists j :: 0 <= j < |signals| && signals[j].kind == kind && signals[j].target == target
  {
    if Mentions(signals, kind, target) {
      var t :| t in signals && t.kind == kind && t.target == target;
      var j :| 0 <= j < |signals| && signals[j] == t;
    }
  }

  lemma FirstAtAppended(init: seq<Signal>, last: Signal, i: nat, s: Signal)
    ensures FirstAt(init + [last], i, s) <==>
            FirstAt(init, i, s) || (i == |init| && s == last && !Mentions(init, s.kind, s.target))
  {
    MentionsAt(init, s.kind, s.target);
    hide Mentions;
    var all := init + [last];
    assert forall j :: 0 <= j < |init| ==> all[j] == init[j];
  }

  lemma FirstAtOneMore(init: seq<Signal>, last: Signal)
    ensures forall i, s :: FirstAt(init + [last], i, s) <==>
              FirstAt(init, i, s) || (i == |init| && s == last && !Mentions(init, s.kind, s.target))
  {
    hide Mentions, FirstAt;
    forall i: nat, s
      ensures FirstAt(init + [last], i, s) <==>
              FirstAt(init, i, s) || (i == |init| && s == last && !Mentions(init, s.kind, s.target))
    {
      FirstAtAppended(init, last, i, s);
    }
  }

  lemma {:induction false} FirstsMeaning(signals: seq<Signal>)
    ensures forall i, j :: 0 <= i < j < |FirstPerKey(signals)| ==> !SameKey(FirstPerKey(signals)[i], FirstPerKey(signals)[j])
    ensures forall k, t :: Mentions(FirstPerKey(signals), k, t) <==> Mentions(signals, k, t)
    ensures forall s :: s in FirstPerKey(signals) <==> exists i :: FirstAt(signals, i, s)
  {
    if signals != [] {
      var n := |signals| - 1;
      var init, last := signals[..n], signals[n];
      FirstsMeaning(init);
      assert signals == init + [last];
      FirstAtOneMore(init, last);
      MentionsOneMore(init, last);
      var rest := FirstPerKey(init);
      MentionsOneMore(rest, last);
      hide FirstAt;
      if !Mentions(rest, last.kind, last.target) {
        var all := rest + [last];
        assert FirstAt(signals, n, last);
        forall i | 0 <= i < |rest| ensures !SameKey(all[i], last) {
          assert all[i] in rest;
        }
      }
    }
  }

  lemma {:induction false} DropMeaning(signals: seq<Signal>, all: seq<Signal>)
    requires forall i, j :: 0 <= i < j < |signals| ==> !SameKey(signals[i], signals[j])
    ensures forall s :: s in DropOverruled(signals, all) <==> s in signals && !Overruled(s, all)
    ensures forall i, j :: 0 <= i < j < |DropOverruled(signals, all)| ==>
              !SameKey(DropOverruled(signals, all)[i], DropOverruled(signals, all)[j])
  {
    if signals != [] {
      var init, last := signals[..|signals| - 1], signals[|signals| - 1];
      DropMeaning(init, all);
      assert signals == init + [last];
      var kept := DropOverruled(init, all);
      forall i | 0 <= i < |kept| ensures !SameKey(kept[i], last) {
        assert kept[i] in kept && kept[i] in init;
      }
    }
  }

  lemma ResolveIsResolved(signals: seq<Signal>)
    ensures Resolved(Resolve(signals))
  {
    FirstsMeaning(signals);
    DropMeaning(FirstPerKey(signals), FirstPerKey(signals));
  }

  /** A signal survives exactly when it is the first of its kind for its target and is not a skip of a
      target somebody requested, wherever in the list the request stands. */
  lemma Survives(signals: seq<Signal>, s: Signal)
    ensures s in Resolve(signals) <==>
              && (exists i :: FirstAt(signals, i, s))
              && !(s.kind == Skip && exists j :: 0 <= j < |signals| && signals[j].kind == Request && signals[j].target == s.target)
  {
    MentionsAt(signals, Request, s.target);
    FirstsMeaning(signals);
    DropMeaning(FirstPerKey(signals), FirstPerKey(signals));
  }

  ghost predicate Subsequence(a: seq<Signal>, b: seq<Signal>)
    decreases |b|
  {
    a == [] ||
    (b != [] &&
     (Subsequence(a, b[..|b| - 1]) ||
      (a[|a| - 1] == b[|b| - 1] && Subsequence(a[..|a| - 1], b[..|b| - 1]))))
  }

  lemma {:induction false} SubsequenceTransitive(a: seq<Signal>, b: seq<Signal>, c: seq<Signal>)
    requires Subsequence(a, b) && Subsequence(b, c)
    ensures Subsequence(a, c)
    decreases |b| + |c|
  {
    if a != [] {
      var c' := c[..|c| - 1];
      if Subsequence(b, c') {
        SubsequenceTransitive(a, b, c');
      } else if Subsequence(a, b[..|b| - 1]) {
        SubsequenceTransitive(a, b[..|b| - 1], c');
      } else {
        SubsequenceTransitive(a[..|a| - 1], b[..|b| - 1], c');
      }
    }
  }

  lemma {:induction false} FirstsInOrder(signals: seq<Signal>)
    ensures Subsequence(FirstPerKey(signals), signals)
  {
    if signals != [] {
      var init := signals[..|signals| - 1];
      FirstsInOrder(init);
      var all := FirstPerKey(signals);
      assert all == FirstPerKey(init) || all[..|all| - 1] == FirstPerKey(init);
    }
  }

  lemma {:induction false} DropInOrder(signals: seq<Signal>, all: seq<Signal>)
    ensures Subsequence(DropOverruled(signals, all), signals)
  {
    if signals != [] {
      var init := signals[..|signals| - 1];
      DropInOrder(init, all);
      var kept := DropOverruled(signals, all);
      assert kept == DropOverruled(init, all) || kept[..|kept| - 1] == DropOverruled(init, all);
    }
  }

  /** Resolution only deletes: the survivors keep their order. */
  lemma ResolveKeepsOrder(signals: seq<Signal>)
    ensures Subsequence(Resolve(signals), signals)
  {
    var firsts := FirstPerKey(signals);
    FirstsInOrder(signals);
    DropInOrder(firsts, firsts);
    SubsequenceTransitive(Resolve(signals), firsts, signals);
  }
}
