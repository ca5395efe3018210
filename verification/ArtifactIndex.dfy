/** Artifact numbers: the listing put into the prompt, and the resolver of the numbers a model uses in tool calls. */
module ArtifactIndex {
  import opened Wrappers
  import opened Text
  import opened Multisets

  /** `run` is the tool run that generated it, `parent` the sample it was generated from. */
  datatype Artifact = Artifact(id: string, filename: string, description: Option<string>, run: Option<string>, parent: Option<string>)

  function Filter(s: seq<Artifact>, keep: Artifact -> bool): seq<Artifact> {
    if s == [] then []
    else
      var last := s[|s| - 1];
      Filter(s[..|s| - 1], keep) + if keep(last) then [last] else []
  }

  predicate IsUploaded(a: Artifact) { a.run == None }

  function Uploaded(artifacts: seq<Artifact>): seq<Artifact> { Filter(artifacts, (a: Artifact) => IsUploaded(a)) }

  function Generated(artifacts: seq<Artifact>): seq<Artifact> { Filter(artifacts, (a: Artifact) => !IsUploaded(a)) }

  function ChildrenOf(generated: seq<Artifact>, id: string): seq<Artifact> { Filter(generated, (a: Artifact) => a.parent == Some(id)) }

  function Ids(s: seq<Artifact>): seq<string> {
    if s == [] then [] else Ids(s[..|s| - 1]) + [s[|s| - 1].id]
  }

  predicate HasParentIn(a: Artifact, samples: seq<Artifact>) {
    a.parent.Some? && exists i :: 0 <= i < |samples| && samples[i].id == a.parent.value
  }

  /** Generated artifacts of none of these samples. */
  function Orphans(generated: seq<Artifact>, samples: seq<Artifact>): seq<Artifact> {
    Filter(generated, (a: Artifact) => !HasParentIn(a, samples))
  }

  /** Each sample followed by its children. */
  function Families(samples: seq<Artifact>, generated: seq<Artifact>): seq<Artifact> {
    if samples == [] then []
    else
      var last := samples[|samples| - 1];
      Families(samples[..|samples| - 1], generated) + [last] + ChildrenOf(generated, last.id)
  }

  /** The artifacts in the order of their numbers. */
  function Listed(artifacts: seq<Artifact>): seq<Artifact> {
    var samples, generated := Uploaded(artifacts), Generated(artifacts);
    Families(samples, generated) + Orphans(generated, samples)
  }

  // ---------------------------------------------------------------- the printed text

  function Ref(n: nat): string { "#" + Decimal(n) }

  function Caption(a: Artifact): string { if a.description.Some? then a.description.value else a.filename }

  function SampleLine(target: Option<string>): (nat, Artifact) -> string {
    (n: nat, a: Artifact) =>
      "### " + Ref(n) + (if target == Some(a.id) then " [TARGET]" else "") + " | " + a.filename +
      (if a.description.Some? then " | " + a.description.value else "") + "\n"
  }

  function ChildLine(): (nat, Artifact) -> string {
    (n: nat, a: Artifact) => "  - " + Ref(n) + " | " + Caption(a) + "\n"
  }

  function OrphanLine(): (nat, Artifact) -> string {
    (n: nat, a: Artifact) => "- " + Ref(n) + " | " + Caption(a) + "\n"
  }

  // The fixed text, sentence by sentence.

  function Heading(): string {
    "\n## Available Artifacts\n\n" + "Reference artifacts by their # number when calling tools (e.g. artifact_id: #1)." + "\n\n"
  }

  function ChildrenHeading(): string { "Generated (use file.read_range to inspect):" + "\n" }

  function OrphansHeading(): string { "### Other generated artifacts" + "\n" }

  function TargetLine(n: nat): string {
    "This thread targets sample " + Ref(n) + (" [TARGET]." + " Focus your analysis on this sample.") + "\n"
  }

  function Closing(): string {
    "Use the # numbers above in tool calls." + " Do NOT ask the user for artifact IDs." + "\n"
  }

  /** The prompt so far and the index map so far. */
  datatype Draft = Draft(text: string, ids: seq<string>)

  function Put(d: Draft, s: string): Draft { d.(text := d.text + s) }

  /** One artifact gets the next number. */
  function Entry(d: Draft, a: Artifact, line: (nat, Artifact) -> string): Draft {
    Draft(d.text + line(|d.ids| + 1, a), d.ids + [a.id])
  }

  function Entries(d: Draft, artifacts: seq<Artifact>, line: (nat, Artifact) -> string): Draft {
    if artifacts == [] then d
    else Entry(Entries(d, artifacts[..|artifacts| - 1], line), artifacts[|artifacts| - 1], line)
  }

  function WithFamily(d: Draft, a: Artifact, children: seq<Artifact>, target: Option<string>): Draft {
    var head := Entry(d, a, SampleLine(target));
    Put(if children == [] then head else Entries(Put(head, ChildrenHeading()), children, ChildLine()), "\n")
  }

  function WithFamilies(d: Draft, samples: seq<Artifact>, generated: seq<Artifact>, target: Option<string>): Draft {
    if samples == [] then d
    else
      var last := samples[|samples| - 1];
      WithFamily(WithFamilies(d, samples[..|samples| - 1], generated, target), last, ChildrenOf(generated, last.id), target)
  }

  function WithOrphans(d: Draft, orphans: seq<Artifact>): Draft {
    if orphans == [] then d else Put(Entries(Put(d, OrphansHeading()), orphans, OrphanLine()), "\n")
  }

  function Position(index: seq<string>, id: string): Option<nat> {
    if index == [] then None
    else if index[0] == id then Some(0)
    else
      match Position(index[1..], id)
      case None => None
      case Some(k) => Some(k + 1)
  }

  function WithTarget(d: Draft, target: Option<string>): Draft {
    if target.Some? && Position(d.ids, target.value).Some? then Put(d, TargetLine(Position(d.ids, target.value).value + 1)) else d
  }

  /** The whole artifact context behind a prompt. */
  function Context(prompt: string, artifacts: seq<Artifact>, target: Option<string>): Draft {
    if artifacts == [] then Draft(prompt, [])
    else
      var samples, generated := Uploaded(artifacts), Generated(artifacts);
      var families := WithFamilies(Draft(prompt + Heading(), []), samples, generated, target);
      Put(WithTarget(WithOrphans(families, Orphans(generated, samples)), target), Closing())
  }

  // ---------------------------------------------------------------- building it

  method AppendEntries(prompt: string, index: seq<string>, artifacts: seq<Artifact>, line: (nat, Artifact) -> string)
    returns (text: string, ids: seq<string>)
    ensures Draft(text, ids) == Entries(Draft(prompt, index), artifacts, line)
  {
    text, ids := prompt, index;
    for i := 0 to |artifacts|
      invariant Draft(text, ids) == Entries(Draft(prompt, index), artifacts[..i], line)
    {
      assert artifacts[..i + 1][..i] == artifacts[..i];
      ids := ids + [artifacts[i].id];
      text := text + line(|ids|, artifacts[i]);
    }
    assert artifacts[..|artifacts|] == artifacts;
  }

  method AppendFamily(prompt: string, index: seq<string>, a: Artifact, generated: seq<Artifact>, target: Option<string>)
    returns (text: string, ids: seq<string>)
    ensures Draft(text, ids) == WithFamily(Draft(prompt, index), a, ChildrenOf(generated, a.id), target)
  {
    hide SampleLine, ChildLine, ChildrenHeading, ChildrenOf, Entries;
    ids := index + [a.id];
    text := prompt + SampleLine(target)(|ids|, a);
    var children := ChildrenOf(generated, a.id);
    if children != [] {
      text, ids := AppendEntries(text + ChildrenHeading(), ids, children, ChildLine());
    }
    text := text + "\n";
  }

  method AppendArtifactContext(prompt: string, artifacts: seq<Artifact>, target: Option<string>)
    returns (text: string, index: seq<string>)
    ensures Draft(text, index) == Context(prompt, artifacts, target)
  {
    hide WithFamilies, WithOrphans, WithTarget, Orphans, Uploaded, Generated, Heading, Closing;
    if artifacts == [] {
      return prompt, [];
    }
    var samples, generated := Uploaded(artifacts), Generated(artifacts);
    text, index := AppendFamilies(prompt + Heading(), samples, generated, target);
    text, index := AppendOrphans(text, index, Orphans(generated, samples));
    text := AppendTarget(text, index, target);
    text := text + Closing();
  }

  method AppendOrphans(prompt: string, index: seq<string>, orphans: seq<Artifact>) returns (text: string, ids: seq<string>)
    ensures Draft(text, ids) == WithOrphans(Draft(prompt, index), orphans)
  {
    hide OrphansHeading, OrphanLine, Entries;
    text, ids := prompt, index;
    if orphans != [] {
      text, ids := AppendEntries(text + OrphansHeading(), ids, orphans, OrphanLine());
      text := text + "\n";
    }
  }

  method AppendTarget(prompt: string, index: seq<string>, target: Option<string>) returns (text: string)
    ensures Draft(text, index) == WithTarget(Draft(prompt, index), target)
  {
    hide TargetLine, Position;
    text := prompt;
    if target.Some? {
      var position := Position(index, target.value);
      if position.Some? {
        text := text + TargetLine(position.value + 1);
      }
    }
  }

  method AppendFamilies(prompt: string, samples: seq<Artifact>, generated: seq<Artifact>, target: Option<string>)
    returns (text: string, ids: seq<string>)
    ensures Draft(text, ids) == WithFamilies(Draft(prompt, []), samples, generated, target)
  {
    text, ids := prompt, [];
    for i := 0 to |samples|
      invariant Draft(text, ids) == WithFamilies(Draft(prompt, []), samples[..i], generated, target)
    {
      assert samples[..i + 1][..i] == samples[..i];
      text, ids := AppendFamily(text, ids, samples[i], generated, target);
    }
    assert samples[..|samples|] == samples;
  }

  // ---------------------------------------------------------------- every artifact once

  lemma {:induction false} FilterCounts(s: seq<Artifact>, keep: Artifact -> bool, a: Artifact)
    ensures multiset(Filter(s, keep))[a] == if keep(a) then multiset(s)[a] else 0
  {
    if s != [] {
      var init, last := s[..|s| - 1], s[|s| - 1];
      FilterCounts(init, keep, a);
      assert s == init + [last];
    }
  }

  ghost predicate DistinctIds(s: seq<Artifact>) {
    forall i, j :: 0 <= i < j < |s| ==> s[i].id != s[j].id
  }

  /** How often each generated artifact is listed with these samples. */
  lemma {:induction false} FamiliesCount(samples: seq<Artifact>, generated: seq<Artifact>, a: Artifact)
    requires DistinctIds(samples)
    ensures multiset(Families(samples, generated))[a] ==
            multiset(samples)[a] + if HasParentIn(a, samples) then multiset(generated)[a] else 0
  {
    hide Filter, HasParentIn, ChildrenOf;
    if samples == [] {
      NoParents(a);
    } else {
      var init, last := samples[..|samples| - 1], samples[|samples| - 1];
      FamiliesCount(init, generated, a);
      ChildrenCount(generated, last.id, a);
      ParentOneMore(samples, a);
      OneMore(init, last);
      assert samples == init + [last];
      CountParts(Families(init, generated), last, ChildrenOf(generated, last.id), a);
    }
  }

  lemma NoParents(a: Artifact)
    ensures !HasParentIn(a, [])
  {
  }

  lemma ChildrenCount(generated: seq<Artifact>, id: string, a: Artifact)
    ensures multiset(ChildrenOf(generated, id))[a] == if a.parent == Some(id) then multiset(generated)[a] else 0
  {
    FilterCounts(generated, (a: Artifact) => a.parent == Some(id), a);
    hide Filter;
  }

  lemma CountParts(s: seq<Artifact>, x: Artifact, t: seq<Artifact>, a: Artifact)
    ensures multiset(s + [x] + t)[a] == multiset(s)[a] + multiset([x])[a] + multiset(t)[a]
  {
  }

  lemma ParentOneMore(samples: seq<Artifact>, a: Artifact)
    requires samples != [] && DistinctIds(samples)
    ensures var init, last := samples[..|samples| - 1], samples[|samples| - 1];
            && (HasParentIn(a, samples) <==> HasParentIn(a, init) || a.parent == Some(last.id))
            && !(HasParentIn(a, init) && a.parent == Some(last.id))
  {
    var n := |samples| - 1;
    if HasParentIn(a, samples) {
      var i :| 0 <= i < |samples| && samples[i].id == a.parent.value;
      assert i < n ==> samples[..n][i].id == a.parent.value;
    }
  }

  lemma {:induction false} FilterKeepsDistinct(s: seq<Artifact>, keep: Artifact -> bool)
    requires DistinctIds(s)
    ensures DistinctIds(Filter(s, keep)) && forall a :: a in Filter(s, keep) ==> a in s
  {
    if s != [] {
      var init, last := s[..|s| - 1], s[|s| - 1];
      FilterKeepsDistinct(init, keep);
      forall i | 0 <= i < |Filter(init, keep)| ensures Filter(init, keep)[i].id != last.id {
        assert Filter(init, keep)[i] in init;
      }
    }
  }

  lemma ListedCounts(artifacts: seq<Artifact>, a: Artifact)
    requires DistinctIds(artifacts)
    ensures multiset(Listed(artifacts))[a] == multiset(artifacts)[a]
  {
    var samples, generated := Uploaded(artifacts), Generated(artifacts);
    FilterKeepsDistinct(artifacts, (a: Artifact) => IsUploaded(a));
    FamiliesCount(samples, generated, a);
    FilterCounts(artifacts, (a: Artifact) => IsUploaded(a), a);
    FilterCounts(artifacts, (a: Artifact) => !IsUploaded(a), a);
    FilterCounts(generated, (a: Artifact) => !HasParentIn(a, samples), a);
    hide Filter, HasParentIn, Families, IsUploaded;
  }

  /** Whatever parents are recorded, samples, children and orphans together are all artifacts, each once. */
  lemma ListedIsPermutation(artifacts: seq<Artifact>)
    requires DistinctIds(artifacts)
    ensures multiset(Listed(artifacts)) == multiset(artifacts) && DistinctIds(Listed(artifacts))
  {
    hide Listed, Heading, Closing, WithFamilies, WithOrphans, WithTarget, Put, Uploaded, Generated, Orphans;
    forall a ensures multiset(Listed(artifacts))[a] == multiset(artifacts)[a] {
      ListedCounts(artifacts, a);
    }
    SameDistinct(artifacts, Listed(artifacts));
  }

  lemma SameDistinct(s: seq<Artifact>, t: seq<Artifact>)
    requires DistinctIds(s) && multiset(t) == multiset(s)
    ensures DistinctIds(t)
  {
    forall i, j | 0 <= i < j < |t| ensures t[i].id != t[j].id {
      assert t[i] in multiset(s) && t[j] in multiset(s);
      var a :| 0 <= a < |s| && s[a] == t[i];
      var b :| 0 <= b < |s| && s[b] == t[j];
      if t[i] == t[j] {
        TwoOf(t, i, j);
        Once(s, a);
      }
    }
  }

  lemma Once(s: seq<Artifact>, a: nat)
    requires DistinctIds(s) && a < |s|
    ensures multiset(s)[s[a]] == 1
  {
    assert s == s[..a] + [s[a]] + s[a + 1..];
    assert s[a] !in s[..a] && s[a] !in s[a + 1..];
  }
}
