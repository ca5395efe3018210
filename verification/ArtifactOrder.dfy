/** In which order artifacts are numbered. */
module ArtifactOrder {
  import opened Wrappers
  import opened ArtifactIndex

  /** `x` stands before `y`. */
  ghost predicate Before(s: seq<Artifact>, x: Artifact, y: Artifact) {
    exists i, j :: 0 <= i < j < |s| && s[i] == x && s[j] == y
  }

  lemma BeforeJoined(a: seq<Artifact>, b: seq<Artifact>, x: Artifact, y: Artifact)
    ensures Before(a, x, y) || Before(b, x, y) || (x in a && y in b) ==> Before(a + b, x, y)
  {
    var all := a + b;
    if Before(a, x, y) {
      var i, j :| 0 <= i < j < |a| && a[i] == x && a[j] == y;
      assert all[i] == x && all[j] == y;
    } else if Before(b, x, y) {
      var i, j :| 0 <= i < j < |b| && b[i] == x && b[j] == y;
      assert all[|a| + i] == x && all[|a| + j] == y;
    } else if x in a && y in b {
      var i :| 0 <= i < |a| && a[i] == x;
      var j :| 0 <= j < |b| && b[j] == y;
      assert all[i] == x && all[|a| + j] == y;
    }
  }

  lemma BeforeLast(s: seq<Artifact>, x: Artifact, y: Artifact)
    requires s != [] && Before(s, x, y)
    ensures x in s[..|s| - 1] && (y == s[|s| - 1] || Before(s[..|s| - 1], x, y))
  {
    var i, j :| 0 <= i < j < |s| && s[i] == x && s[j] == y;
    assert s[..|s| - 1][i] == x;
    if j < |s| - 1 {
      assert s[..|s| - 1][j] == y;
    }
  }

  lemma {:induction false} FilterHolds(s: seq<Artifact>, keep: Artifact -> bool, x: Artifact)
    ensures x in Filter(s, keep) <==> x in s && keep(x)
  {
    if s != [] {
      FilterHolds(s[..|s| - 1], keep, x);
      assert s == s[..|s| - 1] + [s[|s| - 1]];
    }
  }

  lemma {:induction false} FilterKeepsOrder(s: seq<Artifact>, keep: Artifact -> bool, x: Artifact, y: Artifact)
    requires Before(s, x, y) && keep(x) && keep(y)
    ensures Before(Filter(s, keep), x, y)
  {
    hide Before;
    if s == [] {
      NothingBefore(x, y);
    } else {
      var init, last := s[..|s| - 1], s[|s| - 1];
      BeforeLast(s, x, y);
      FilterHolds(init, keep, x);
      if Before(init, x, y) {
        FilterKeepsOrder(init, keep, x, y);
      }
      BeforeJoined(Filter(init, keep), if keep(last) then [last] else [], x, y);
    }
  }

  lemma NothingBefore(x: Artifact, y: Artifact)
    ensures !Before([], x, y)
  {
  }

  /** Standing in a list of families: the sample or one of its children. */
  predicate InFamily(generated: seq<Artifact>, sample: Artifact, x: Artifact) {
    x == sample || (x in generated && x.parent == Some(sample.id))
  }

  lemma {:induction false} FamiliesHold(samples: seq<Artifact>, generated: seq<Artifact>, sample: Artifact, x: Artifact)
    requires sample in samples && InFamily(generated, sample, x)
    ensures x in Families(samples, generated)
  {
    var init, last := samples[..|samples| - 1], samples[|samples| - 1];
    assert samples == init + [last];
    FilterHolds(generated, (a: Artifact) => a.parent == Some(last.id), x);
    hide Filter;
    if sample != last {
      FamiliesHold(init, generated, sample, x);
    }
  }

  /** A family is listed before that of any later sample. */
  lemma {:induction false} FamiliesInOrder(
    samples: seq<Artifact>, generated: seq<Artifact>, s: Artifact, t: Artifact, x: Artifact, y: Artifact)
    requires Before(samples, s, t) && InFamily(generated, s, x) && InFamily(generated, t, y)
    ensures Before(Families(samples, generated), x, y)
  {
    hide Before, InFamily;
    if samples == [] {
      NothingBefore(s, t);
    } else {
      var init, last := samples[..|samples| - 1], samples[|samples| - 1];
      BeforeLast(samples, s, t);
      var before, family := Families(init, generated), [last] + ChildrenOf(generated, last.id);
      assert Families(samples, generated) == before + family;
      if t == last {
        FamiliesHold(init, generated, s, x);
        FamilyHolds(generated, last, y);
      } else {
        FamiliesInOrder(init, generated, s, t, x, y);
      }
      BeforeJoined(before, family, x, y);
    }
  }

  lemma FamilyHolds(generated: seq<Artifact>, sample: Artifact, x: Artifact)
    requires InFamily(generated, sample, x)
    ensures x in [sample] + ChildrenOf(generated, sample.id)
  {
    FilterHolds(generated, (a: Artifact) => a.parent == Some(sample.id), x);
    hide Filter;
  }

  /** Within a family the sample comes first, and its children keep their order. */
  lemma {:induction false} FamilyInOrder(samples: seq<Artifact>, generated: seq<Artifact>, s: Artifact, x: Artifact, y: Artifact)
    requires s in samples && y in generated && y.parent == Some(s.id)
    requires x == s || (Before(generated, x, y) && x.parent == Some(s.id))
    ensures Before(Families(samples, generated), x, y)
  {
    var init, last := samples[..|samples| - 1], samples[|samples| - 1];
    assert samples == init + [last];
    var keep := (a: Artifact) => a.parent == Some(last.id);
    var before, children := Families(init, generated), ChildrenOf(generated, last.id);
    FilterHolds(generated, keep, y);
    hide Before, Filter;
    assert Families(samples, generated) == before + ([last] + children);
    if s == last {
      if x != s {
        FilterKeepsOrder(generated, keep, x, y);
      }
      BeforeJoined([last], children, x, y);
    } else {
      FamilyInOrder(init, generated, s, x, y);
    }
    BeforeJoined(before, [last] + children, x, y);
  }

  /** Belongs to one of the samples. */
  ghost predicate HasFamily(artifacts: seq<Artifact>, x: Artifact, sample: Artifact) {
    && x in artifacts && sample in artifacts && sample.run == None
    && (x == sample || (x.run.Some? && x.parent == Some(sample.id)))
  }

  ghost predicate HasNone(artifacts: seq<Artifact>, x: Artifact) {
    x in artifacts && x.run.Some? && forall s :: s in artifacts && s.run == None ==> x.parent != Some(s.id)
  }

  lemma Belongs(artifacts: seq<Artifact>, x: Artifact, sample: Artifact)
    requires HasFamily(artifacts, x, sample)
    ensures sample in Uploaded(artifacts) && InFamily(Generated(artifacts), sample, x)
  {
    FilterHolds(artifacts, (a: Artifact) => IsUploaded(a), sample);
    FilterHolds(artifacts, (a: Artifact) => !IsUploaded(a), x);
    hide Filter;
  }

  lemma BelongsNowhere(artifacts: seq<Artifact>, x: Artifact)
    requires HasNone(artifacts, x)
    ensures x in Generated(artifacts) && !HasParentIn(x, Uploaded(artifacts))
  {
    FilterHolds(artifacts, (a: Artifact) => !IsUploaded(a), x);
    forall s ensures s in Uploaded(artifacts) <==> s in artifacts && IsUploaded(s) {
      FilterHolds(artifacts, (a: Artifact) => IsUploaded(a), s);
    }
    hide Filter, Generated, Uploaded;
    var samples := Uploaded(artifacts);
    forall i | 0 <= i < |samples| ensures x.parent != Some(samples[i].id) {
      assert samples[i] in samples;
    }
  }

  /** The numbers go by family, in the order of the samples, and within one first to the sample, then to its
      children in their order; who belongs to no sample comes last, again in order. */
  lemma ListedInOrder(artifacts: seq<Artifact>, x: Artifact, y: Artifact)
    ensures forall s, t :: HasFamily(artifacts, x, s) && HasFamily(artifacts, y, t) && Before(artifacts, s, t) ==>
              Before(Listed(artifacts), x, y)
    ensures HasFamily(artifacts, y, x) && x != y ==> Before(Listed(artifacts), x, y)
    ensures forall s :: HasFamily(artifacts, x, s) && HasFamily(artifacts, y, s) && s != x && s != y && Before(artifacts, x, y) ==>
              Before(Listed(artifacts), x, y)
    ensures forall s :: HasFamily(artifacts, x, s) && HasNone(artifacts, y) ==> Before(Listed(artifacts), x, y)
    ensures HasNone(artifacts, x) && HasNone(artifacts, y) && Before(artifacts, x, y) ==> Before(Listed(artifacts), x, y)
  {
    hide Before, Uploaded, Generated, Orphans, Families, InFamily, HasFamily, HasNone;
    var samples, generated := Uploaded(artifacts), Generated(artifacts);
    BeforeJoined(Families(samples, generated), Orphans(generated, samples), x, y);
    forall s, t | HasFamily(artifacts, x, s) && HasFamily(artifacts, y, t) && Before(artifacts, s, t)
      ensures Before(Listed(artifacts), x, y)
    {
      Belongs(artifacts, x, s);
      Belongs(artifacts, y, t);
      SamplesInOrder(artifacts, s, t, x, y);
      FamiliesInOrder(samples, generated, s, t, x, y);
    }
    forall s | HasFamily(artifacts, y, s) && s != y && (s == x || (HasFamily(artifacts, x, s) && s != x && Before(artifacts, x, y)))
      ensures Before(Listed(artifacts), x, y)
    {
      ChildrenInOrder(artifacts, s, x, y);
    }
    if HasNone(artifacts, y) {
      OrphansInOrder(artifacts, x, y);
    }
  }

  lemma SamplesInOrder(artifacts: seq<Artifact>, s: Artifact, t: Artifact, x: Artifact, y: Artifact)
    requires HasFamily(artifacts, x, s) && HasFamily(artifacts, y, t) && Before(artifacts, s, t)
    ensures Before(Uploaded(artifacts), s, t)
  {
    FilterKeepsOrder(artifacts, (a: Artifact) => IsUploaded(a), s, t);
    hide Filter, Before;
  }

  lemma GeneratedInOrder(artifacts: seq<Artifact>, x: Artifact, y: Artifact)
    requires x.run.Some? && y.run.Some? && Before(artifacts, x, y)
    ensures Before(Generated(artifacts), x, y)
  {
    FilterKeepsOrder(artifacts, (a: Artifact) => !IsUploaded(a), x, y);
    hide Filter, Before;
  }

  lemma ChildrenInOrder(artifacts: seq<Artifact>, s: Artifact, x: Artifact, y: Artifact)
    requires HasFamily(artifacts, y, s) && y != s
    requires x == s || (HasFamily(artifacts, x, s) && Before(artifacts, x, y))
    ensures Before(Listed(artifacts), x, y)
  {
    var samples, generated := Uploaded(artifacts), Generated(artifacts);
    hide Before, Uploaded, Generated, Orphans, Families;
    Belongs(artifacts, y, s);
    if x != s {
      Belongs(artifacts, x, s);
      GeneratedInOrder(artifacts, x, y);
    }
    FamilyInOrder(samples, generated, s, x, y);
    BeforeJoined(Families(samples, generated), Orphans(generated, samples), x, y);
  }

  lemma OrphansInOrder(artifacts: seq<Artifact>, x: Artifact, y: Artifact)
    requires HasNone(artifacts, y)
    ensures forall s :: HasFamily(artifacts, x, s) ==> Before(Listed(artifacts), x, y)
    ensures HasNone(artifacts, x) && Before(artifacts, x, y) ==> Before(Listed(artifacts), x, y)
  {
    var samples, generated := Uploaded(artifacts), Generated(artifacts);
    var keep := (a: Artifact) => !HasParentIn(a, samples);
    BelongsNowhere(artifacts, y);
    FilterHolds(generated, keep, y);
    hide Before, Uploaded, Generated, Families, Filter, HasFamily, InFamily, HasParentIn;
    BeforeJoined(Families(samples, generated), Orphans(generated, samples), x, y);
    if s :| HasFamily(artifacts, x, s) {
      Belongs(artifacts, x, s);
      FamiliesHold(samples, generated, s, x);
    }
    if HasNone(artifacts, x) && Before(artifacts, x, y) {
      BelongsNowhere(artifacts, x);
      GeneratedInOrder(artifacts, x, y);
      FilterKeepsOrder(generated, keep, x, y);
    }
  }
}
