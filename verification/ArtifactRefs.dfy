/** What the artifact listing prints, and the resolver of the numbers a model takes from it. */
module ArtifactRefs {
  import opened Wrappers
  import opened Text
  import opened ArtifactIndex

  /** The line an artifact gets. */
  function LineOf(a: Artifact, n: nat, samples: seq<Artifact>, target: Option<string>): string {
    if a.run == None then SampleLine(target)(n, a) else if HasParentIn(a, samples) then ChildLine()(n, a) else OrphanLine()(n, a)
  }

  // ---------------------------------------------------------------- lines that print a reference

  const SAMPLE_LEAD := "### #"
  const CHILD_LEAD := "  - #"
  const ORPHAN_LEAD := "- #"

  /** Here a reference is printed as in a line of the listing. */
  predicate StartsEntry(s: string, at: nat) {
    OccursAt(s, SAMPLE_LEAD, at) || OccursAt(s, CHILD_LEAD, at) || OccursAt(s, ORPHAN_LEAD, at)
  }

  /** A line of the text behind `base` that prints a reference. */
  ghost predicate EntryLine(text: string, base: nat, p: nat) {
    base <= p < |text| && (p == base || text[p - 1] == '\n') && StartsEntry(text, p)
  }

  /** Behind one of its line breaks the text looks like a line of the listing. */
  ghost predicate Forges(w: string) {
    exists i :: 0 <= i < |w| && w[i] == '\n' && StartsEntry(w, i + 1)
  }

  /** Every reference printed at the start of a line is at one of these positions. */
  ghost predicate Genuine(text: string, base: nat, starts: seq<nat>) {
    forall p: nat :: EntryLine(text, base, p) ==> p in starts
  }

  predicate IsLine(w: string) { w != "" && w[|w| - 1] == '\n' }

  /** The text so far ends where a line starts. */
  predicate Open(text: string, base: nat) {
    base <= |text| && (|text| == base || text[|text| - 1] == '\n')
  }

  lemma LeadWithin(s: string, more: string, lead: string, at: nat)
    requires at < |s| && s[|s| - 1] == '\n' && '\n' !in lead
    ensures OccursAt(s + more, lead, at) <==> OccursAt(s, lead, at)
  {
    var all := s + more;
    if at + |lead| <= |s| {
      assert all[at..at + |lead|] == s[at..at + |lead|];
    } else if at + |lead| <= |all| {
      var k := |s| - 1 - at;
      assert all[at..at + |lead|][k] == '\n' && lead[k] in lead;
    }
  }

  lemma LeadBehind(s: string, more: string, lead: string, k: nat)
    ensures OccursAt(s + more, lead, |s| + k) <==> OccursAt(more, lead, k)
  {
    if k + |lead| <= |more| {
      assert (s + more)[|s| + k..|s| + k + |lead|] == more[k..k + |lead|];
    }
  }

  lemma StartsWithin(s: string, more: string, at: nat)
    requires at < |s| && s[|s| - 1] == '\n'
    ensures StartsEntry(s + more, at) <==> StartsEntry(s, at)
  {
    hide OccursAt;
    LeadWithin(s, more, SAMPLE_LEAD, at);
    LeadWithin(s, more, CHILD_LEAD, at);
    LeadWithin(s, more, ORPHAN_LEAD, at);
  }

  lemma StartsBehind(s: string, more: string, k: nat)
    ensures StartsEntry(s + more, |s| + k) <==> StartsEntry(more, k)
  {
    hide OccursAt;
    LeadBehind(s, more, SAMPLE_LEAD, k);
    LeadBehind(s, more, CHILD_LEAD, k);
    LeadBehind(s, more, ORPHAN_LEAD, k);
  }

  /** Where references are printed when a line is added. */
  lemma EntryLineMore(text: string, base: nat, w: string, p: nat)
    requires Open(text, base) && w != ""
    ensures EntryLine(text + w, base, p) <==>
            if p < |text| then EntryLine(text, base, p)
            else p - |text| < |w| && StartsEntry(w, p - |text|) && (p == |text| || w[p - |text| - 1] == '\n')
  {
    hide StartsEntry;
    if p < |text| {
      if base < |text| {
        StartsWithin(text, w, p);
      }
    } else if p - |text| < |w| {
      StartsBehind(text, w, p - |text|);
    }
  }

  /** A line without a reference keeps a text genuine, one with a reference at its start does if its position
      is noted; in both cases if nothing inside it looks like another line. */
  lemma GenuineMore(text: string, base: nat, w: string, starts: seq<nat>)
    requires Open(text, base) && w != "" && forall k :: 0 <= k < |starts| ==> starts[k] < |text|
    ensures !StartsEntry(w, 0) ==> (Genuine(text + w, base, starts) <==> Genuine(text, base, starts) && !Forges(w))
    ensures Genuine(text + w, base, starts + [|text|]) <==> Genuine(text, base, starts) && !Forges(w)
  {
    hide StartsEntry, Open, EntryLine;
    forall p: nat
      ensures EntryLine(text + w, base, p) <==>
              if p < |text| then EntryLine(text, base, p)
              else p - |text| < |w| && StartsEntry(w, p - |text|) && (p == |text| || w[p - |text| - 1] == '\n')
    {
      EntryLineMore(text, base, w, p);
    }
    EntryLinesEnd(text, base);
    if i :| 0 <= i < |w| && w[i] == '\n' && StartsEntry(w, i + 1) {
      StartsInside(w, i + 1);
      assert EntryLine(text + w, base, |text| + i + 1);
    }
    if !Forges(w) {
      forall p: nat | p > |text| ensures !EntryLine(text + w, base, p) {
        var i := p - |text| - 1;
        assert i < |w| && w[i] == '\n' ==> !StartsEntry(w, i + 1);
      }
    }
  }

  lemma StartsInside(w: string, at: nat)
    requires StartsEntry(w, at)
    ensures at < |w|
  {
  }

  lemma EntryLinesEnd(text: string, base: nat)
    ensures forall p: nat :: EntryLine(text, base, p) ==> p < |text|
  {
  }

  // ---------------------------------------------------------------- the listing, entry by entry

  /** The draft lists exactly these artifacts: in the map, and in the text, each with its own line and number at
      its position; and these are all lines with a reference if and only if no line forges another one. */
  ghost predicate Laid(d: Draft, base: nat, starts: seq<nat>, listed: seq<Artifact>, samples: seq<Artifact>, target: Option<string>) {
    && Open(d.text, base) && |d.ids| == |starts| == |listed|
    && (forall k :: 0 <= k < |listed| ==> d.ids[k] == listed[k].id && PrintedAt(d.text, base, starts[k], LineOf(listed[k], k + 1, samples, target)))
    && (Genuine(d.text, base, starts) <==> forall k :: 0 <= k < |listed| ==> !Forges(LineOf(listed[k], k + 1, samples, target)))
  }

  predicate PrintedAt(text: string, base: nat, at: nat, line: string) {
    base <= at < |text| && OccursAt(text, line, at)
  }

  lemma PrintedMore(text: string, more: string, base: nat, at: nat, line: string)
    requires PrintedAt(text, base, at, line)
    ensures PrintedAt(text + more, base, at, line)
  {
    assert (text + more)[at..at + |line|] == text[at..at + |line|];
  }

  lemma PrintedBehind(text: string, base: nat, line: string)
    requires base <= |text| && line != ""
    ensures PrintedAt(text + line, base, |text|, line)
  {
  }

  lemma StartsBefore(d: Draft, base: nat, starts: seq<nat>, listed: seq<Artifact>, samples: seq<Artifact>, target: Option<string>)
    requires Laid(d, base, starts, listed, samples, target)
    ensures forall k :: 0 <= k < |starts| ==> starts[k] < |d.text|
  {
    hide LineOf, Genuine, Forges, OccursAt;
  }

  /** A line that prints no reference. */
  ghost predicate Quiet(w: string) { IsLine(w) && !StartsEntry(w, 0) && !Forges(w) }

  lemma OpenMore(text: string, base: nat, w: string)
    requires Open(text, base) && IsLine(w)
    ensures Open(text + w, base)
  {
  }

  lemma PutLaid(d: Draft, w: string, base: nat, starts: seq<nat>, listed: seq<Artifact>, samples: seq<Artifact>, target: Option<string>)
    requires Laid(d, base, starts, listed, samples, target) && Quiet(w)
    ensures Laid(Put(d, w), base, starts, listed, samples, target)
  {
    hide LineOf, Genuine, Forges, PrintedAt, Open, StartsEntry;
    StartsBefore(d, base, starts, listed, samples, target);
    GenuineMore(d.text, base, w, starts);
    OpenMore(d.text, base, w);
    forall k | 0 <= k < |listed| ensures PrintedAt(d.text + w, base, starts[k], LineOf(listed[k], k + 1, samples, target)) {
      PrintedMore(d.text, w, base, starts[k], LineOf(listed[k], k + 1, samples, target));
    }
  }

  lemma EntryLaid(
    d: Draft, a: Artifact, line: (nat, Artifact) -> string,
    base: nat, starts: seq<nat>, listed: seq<Artifact>, samples: seq<Artifact>, target: Option<string>)
    requires Laid(d, base, starts, listed, samples, target) && line(|listed| + 1, a) == LineOf(a, |listed| + 1, samples, target)
    ensures Laid(Entry(d, a, line), base, starts + [|d.text|], listed + [a], samples, target)
  {
    hide LineOf, Genuine, Forges, PrintedAt, Open, StartsEntry;
    var w := LineOf(a, |listed| + 1, samples, target);
    var all, at := listed + [a], starts + [|d.text|];
    StartsBefore(d, base, starts, listed, samples, target);
    LineIsLine(a, |listed| + 1, samples, target);
    GenuineMore(d.text, base, w, starts);
    OpenMore(d.text, base, w);
    OpenInside(d.text, base);
    PrintedBehind(d.text, base, w);
    forall k | 0 <= k < |all| ensures PrintedAt(d.text + w, base, at[k], LineOf(all[k], k + 1, samples, target)) {
      if k < |listed| {
        PrintedMore(d.text, w, base, starts[k], LineOf(listed[k], k + 1, samples, target));
      }
    }
    NoneForges(listed, a, samples, target);
  }

  lemma NoneForges(listed: seq<Artifact>, a: Artifact, samples: seq<Artifact>, target: Option<string>)
    ensures (forall k :: 0 <= k < |listed| + 1 ==> !Forges(LineOf((listed + [a])[k], k + 1, samples, target))) <==>
            (forall k :: 0 <= k < |listed| ==> !Forges(LineOf(listed[k], k + 1, samples, target))) && !Forges(LineOf(a, |listed| + 1, samples, target))
  {
    hide LineOf, Forges;
    var all := listed + [a];
    assert all[|listed|] == a;
    assert forall k :: 0 <= k < |listed| ==> all[k] == listed[k];
  }

  lemma OpenInside(text: string, base: nat)
    requires Open(text, base)
    ensures base <= |text|
  {
  }

  lemma LineIsLine(a: Artifact, n: nat, samples: seq<Artifact>, target: Option<string>)
    ensures IsLine(LineOf(a, n, samples, target))
  {
    hide Decimal, HasParentIn;
  }

  lemma {:induction false} EntriesLaid(
    d: Draft, artifacts: seq<Artifact>, line: (nat, Artifact) -> string,
    base: nat, starts: seq<nat>, listed: seq<Artifact>, samples: seq<Artifact>, target: Option<string>)
    returns (at: seq<nat>)
    requires Laid(d, base, starts, listed, samples, target)
    requires forall n: nat, i :: 0 <= i < |artifacts| ==> line(n, artifacts[i]) == LineOf(artifacts[i], n, samples, target)
    ensures Laid(Entries(d, artifacts, line), base, at, listed + artifacts, samples, target)
  {
    hide LineOf, Laid;
    if artifacts == [] {
      at := starts;
      assert listed + artifacts == listed;
    } else {
      var init, last := artifacts[..|artifacts| - 1], artifacts[|artifacts| - 1];
      var before := EntriesLaid(d, init, line, base, starts, listed, samples, target);
      LaidLength(Entries(d, init, line), base, before, listed + init, samples, target);
      EntryLaid(Entries(d, init, line), last, line, base, before, listed + init, samples, target);
      at := before + [|Entries(d, init, line).text|];
      assert listed + artifacts == listed + init + [last];
    }
  }

  lemma LaidLength(d: Draft, base: nat, starts: seq<nat>, listed: seq<Artifact>, samples: seq<Artifact>, target: Option<string>)
    requires Laid(d, base, starts, listed, samples, target)
    ensures |d.ids| == |starts| == |listed|
  {
    hide LineOf, Genuine, Forges, PrintedAt;
  }

  // ---------------------------------------------------------------- lines without a reference

  lemma PlainIsQuiet(w: string)
    requires '\n' !in w && (w == "" || (w[0] != ' ' && w[0] != '-')) && (|w| > 4 ==> w[4] != '#')
    ensures Quiet(w + "\n")
  {
    var line := w + "\n";
    assert forall i :: 0 <= i < |line| && line[i] == '\n' ==> i == |w|;
    assert !StartsEntry(line, |line|);
    if |line| >= 5 {
      assert line[0..5][4] != '#';
    }
  }

  lemma EmptyLineIsQuiet()
    ensures Quiet("\n")
  {
    PlainIsQuiet("");
    assert "" + "\n" == "\n";
  }

  lemma PartsAreQuiet(a: string, b: string)
    requires '\n' !in a && '\n' !in b && |a| > 4 && a[0] != ' ' && a[0] != '-' && a[4] != '#'
    ensures Quiet(a + b + "\n")
  {
    hide Quiet;
    PlainIsQuiet(a + b);
  }

  lemma ChildrenHeadingIsQuiet()
    ensures Quiet(ChildrenHeading())
  {
    hide Quiet;
    PlainIsQuiet("Generated (use file.read_range to inspect):");
  }

  lemma OrphansHeadingIsQuiet()
    ensures Quiet(OrphansHeading())
  {
    hide Quiet;
    PlainIsQuiet("### Other generated artifacts");
  }

  lemma ClosingIsQuiet()
    ensures Quiet(Closing())
  {
    hide Quiet;
    PartsAreQuiet("Use the # numbers above in tool calls.", " Do NOT ask the user for artifact IDs.");
  }

  lemma HeadingsAreQuiet()
    ensures Quiet(ChildrenHeading()) && Quiet(OrphansHeading()) && Quiet(Closing())
  {
    hide Quiet, ChildrenHeading, OrphansHeading, Closing;
    ChildrenHeadingIsQuiet();
    OrphansHeadingIsQuiet();
    ClosingIsQuiet();
  }

  lemma RefIsPlain(n: nat)
    ensures '\n' !in Ref(n) && '|' !in Ref(n) && '\n' !in Decimal(n)
  {
    DecimalRoundTrip(n);
    hide Decimal, Number;
    assert forall c :: c in Decimal(n) ==> IsDigit(c);
  }

  lemma TargetIsQuiet(n: nat)
    ensures Quiet(TargetLine(n))
  {
    hide Ref, Quiet;
    RefIsPlain(n);
    var front, ref := "This thread targets sample ", Ref(n);
    TailParts(" [TARGET].", " Focus your analysis on this sample.");
    assert |front| > 4 && front[0] == 'T' && front[4] == ' ' && '\n' !in front;
    PartsAreQuiet(front + ref, " [TARGET]." + " Focus your analysis on this sample.");
  }

  lemma TailParts(a: string, b: string)
    requires '\n' !in a && '\n' !in b
    ensures '\n' !in a + b
  {
  }

  // ---------------------------------------------------------------- the whole listing

  lemma FamilyLaid(
    d: Draft, a: Artifact, children: seq<Artifact>,
    base: nat, starts: seq<nat>, listed: seq<Artifact>, samples: seq<Artifact>, target: Option<string>)
    returns (at: seq<nat>)
    requires Laid(d, base, starts, listed, samples, target) && IsUploaded(a)
    requires forall i :: 0 <= i < |children| ==> !IsUploaded(children[i]) && HasParentIn(children[i], samples)
    ensures Laid(WithFamily(d, a, children, target), base, at, listed + [a] + children, samples, target)
  {
    hide Laid, HasParentIn, Entries, ChildrenHeading, OrphansHeading, Closing, Quiet, SampleLine, ChildLine, OrphanLine;
    HeadingsAreQuiet();
    EmptyLineIsQuiet();
    LaidLength(d, base, starts, listed, samples, target);
    var head := Entry(d, a, SampleLine(target));
    EntryLaid(d, a, SampleLine(target), base, starts, listed, samples, target);
    at := starts + [|d.text|];
    if children == [] {
      assert listed + [a] + children == listed + [a];
      PutLaid(head, "\n", base, at, listed + [a], samples, target);
    } else {
      PutLaid(head, ChildrenHeading(), base, at, listed + [a], samples, target);
      at := EntriesLaid(Put(head, ChildrenHeading()), children, ChildLine(), base, at, listed + [a], samples, target);
      PutLaid(Entries(Put(head, ChildrenHeading()), children, ChildLine()), "\n", base, at, listed + [a] + children, samples, target);
    }
  }

  lemma {:induction false} FilterKeeps(s: seq<Artifact>, keep: Artifact -> bool)
    ensures forall i :: 0 <= i < |Filter(s, keep)| ==> Filter(s, keep)[i] in s && keep(Filter(s, keep)[i])
  {
    if s != [] {
      FilterKeeps(s[..|s| - 1], keep);
    }
  }

  lemma {:induction false} FamiliesLaid(
    d: Draft, base: nat, n: nat, samples: seq<Artifact>, generated: seq<Artifact>, target: Option<string>) returns (at: seq<nat>)
    requires d.ids == [] && base == |d.text| && n <= |samples|
    requires forall i :: 0 <= i < |samples| ==> IsUploaded(samples[i])
    requires forall i :: 0 <= i < |generated| ==> !IsUploaded(generated[i])
    ensures Laid(WithFamilies(d, samples[..n], generated, target), base, at, Families(samples[..n], generated), samples, target)
  {
    hide Laid, HasParentIn, WithFamily, IsUploaded, ChildrenOf;
    if n > 0 {
      var init, last := samples[..n - 1], samples[n - 1];
      assert samples[..n][..n - 1] == init;
      at := FamiliesLaid(d, base, n - 1, samples, generated, target);
      ChildrenHaveParents(samples, n - 1, generated);
      at := FamilyLaid(WithFamilies(d, init, generated, target), last, ChildrenOf(generated, last.id), base, at,
                       Families(init, generated), samples, target);
    } else {
      at := [];
      NothingLaid(d, base, samples, target);
    }
  }

  lemma NothingLaid(d: Draft, base: nat, samples: seq<Artifact>, target: Option<string>)
    requires d.ids == [] && base == |d.text|
    ensures Laid(d, base, [], [], samples, target)
  {
    hide StartsEntry;
  }

  lemma ChildrenHaveParents(samples: seq<Artifact>, k: nat, generated: seq<Artifact>)
    requires k < |samples| && forall i :: 0 <= i < |generated| ==> !IsUploaded(generated[i])
    ensures var children := ChildrenOf(generated, samples[k].id);
            forall i :: 0 <= i < |children| ==> !IsUploaded(children[i]) && HasParentIn(children[i], samples)
  {
    FilterKeeps(generated, (a: Artifact) => a.parent == Some(samples[k].id));
    hide Filter;
  }

  lemma Kinds(artifacts: seq<Artifact>)
    ensures var samples, generated := Uploaded(artifacts), Generated(artifacts);
            var orphans := Orphans(generated, samples);
            && (forall i :: 0 <= i < |samples| ==> IsUploaded(samples[i]))
            && (forall i :: 0 <= i < |generated| ==> !IsUploaded(generated[i]))
            && (forall i :: 0 <= i < |orphans| ==> !IsUploaded(orphans[i]) && !HasParentIn(orphans[i], samples))
  {
    var samples, generated := Uploaded(artifacts), Generated(artifacts);
    FilterKeeps(artifacts, (a: Artifact) => IsUploaded(a));
    FilterKeeps(artifacts, (a: Artifact) => !IsUploaded(a));
    FilterKeeps(generated, (a: Artifact) => !HasParentIn(a, samples));
    hide Filter, IsUploaded, HasParentIn;
  }

  lemma OrphansLaid(
    d: Draft, orphans: seq<Artifact>, base: nat, starts: seq<nat>, listed: seq<Artifact>, samples: seq<Artifact>, target: Option<string>)
    returns (at: seq<nat>)
    requires Laid(d, base, starts, listed, samples, target)
    requires forall i :: 0 <= i < |orphans| ==> !IsUploaded(orphans[i]) && !HasParentIn(orphans[i], samples)
    ensures Laid(WithOrphans(d, orphans), base, at, listed + orphans, samples, target)
  {
    hide Laid, HasParentIn, Entries, ChildrenHeading, OrphansHeading, Closing, Quiet, SampleLine, ChildLine, OrphanLine;
    at := starts;
    if orphans == [] {
      assert listed + orphans == listed;
    } else {
      HeadingsAreQuiet();
      EmptyLineIsQuiet();
      PutLaid(d, OrphansHeading(), base, at, listed, samples, target);
      at := EntriesLaid(Put(d, OrphansHeading()), orphans, OrphanLine(), base, at, listed, samples, target);
      PutLaid(Entries(Put(d, OrphansHeading()), orphans, OrphanLine()), "\n", base, at, listed + orphans, samples, target);
    }
  }

  lemma TargetLaid(d: Draft, base: nat, starts: seq<nat>, listed: seq<Artifact>, samples: seq<Artifact>, target: Option<string>)
    requires Laid(d, base, starts, listed, samples, target)
    ensures Laid(WithTarget(d, target), base, starts, listed, samples, target)
  {
    hide Laid, TargetLine, Position, Quiet;
    if target.Some? && Position(d.ids, target.value).Some? {
      TargetIsQuiet(Position(d.ids, target.value).value + 1);
      PutLaid(d, TargetLine(Position(d.ids, target.value).value + 1), base, starts, listed, samples, target);
    }
  }

  /** Where the listing starts. */
  function BaseOf(prompt: string): nat { |prompt + Heading()| }

  lemma ListingLaid(prompt: string, artifacts: seq<Artifact>, target: Option<string>) returns (at: seq<nat>)
    requires artifacts != []
    ensures Laid(Context(prompt, artifacts, target), BaseOf(prompt), at, Listed(artifacts), Uploaded(artifacts), target)
  {
    hide Laid, WithFamilies, WithOrphans, WithTarget, HasParentIn, Families, Orphans, Uploaded, Generated, Heading, Put, Quiet,
         ChildrenHeading, OrphansHeading, Closing, IsUploaded;
    var samples, generated := Uploaded(artifacts), Generated(artifacts);
    Kinds(artifacts);
    HeadingsAreQuiet();
    var start, base := Draft(prompt + Heading(), []), |prompt + Heading()|;
    at := FamiliesLaid(start, base, |samples|, samples, generated, target);
    assert samples[..|samples|] == samples;
    var families := WithFamilies(start, samples, generated, target);
    at := OrphansLaid(families, Orphans(generated, samples), base, at, Families(samples, generated), samples, target);
    var all := WithOrphans(families, Orphans(generated, samples));
    TargetLaid(all, base, at, Listed(artifacts), samples, target);
    PutLaid(WithTarget(all, target), Closing(), base, at, Listed(artifacts), samples, target);
  }

  // ---------------------------------------------------------------- what a name or description may hold

  /** A printed name or description of the artifact forges a line. */
  ghost predicate FieldForges(a: Artifact) {
    match a.description
    case None => Forges(a.filename)
    case Some(d) => Forges(d) || (a.run == None && Forges(a.filename))
  }

  const BAR := " | "

  lemma LeadCross(x: string, sep: string, y: string, lead: string, at: nat)
    requires at <= |x| && |lead| > 0 && lead[|lead| - 1] == '#' && '|' !in lead && '\n' !in lead
    requires sep == BAR || (sep == "\n" && y == "")
    ensures OccursAt(x + sep + y, lead, at) <==> OccursAt(x, lead, at)
  {
    var all := x + sep + y;
    if at + |lead| <= |x| {
      assert all[at..at + |lead|] == x[at..at + |lead|];
    } else if at + |lead| <= |all| {
      var k := |x| - at;
      assert all[at..at + |lead|][k] == sep[0];
      if k + 1 < |lead| && sep == BAR {
        assert all[at..at + |lead|][k + 1] == '|' && lead[k + 1] in lead;
      }
      if sep == "\n" {
        assert lead[k] in lead;
      }
    }
  }

  /** Between fields nothing can be forged. */
  lemma ForgesParts(x: string, sep: string, y: string)
    requires sep == BAR || (sep == "\n" && y == "")
    ensures Forges(x + sep + y) <==> Forges(x) || Forges(y)
  {
    hide StartsEntry;
    var all := x + sep + y;
    forall j: nat | 0 < j <= |x| ensures StartsEntry(all, j) <==> StartsEntry(x, j) {
      StartsCross(x, sep, y, j);
    }
    forall k: nat ensures StartsEntry(all, |x + sep| + k) <==> StartsEntry(y, k) {
      StartsBehind(x + sep, y, k);
    }
    if i :| 0 <= i < |x| && x[i] == '\n' && StartsEntry(x, i + 1) {
      assert all[i] == '\n' && StartsEntry(all, i + 1);
    }
    if i :| 0 <= i < |y| && y[i] == '\n' && StartsEntry(y, i + 1) {
      var j := |x + sep| + i;
      assert all[j] == '\n' && StartsEntry(all, |x + sep| + (i + 1));
    }
    if i :| 0 <= i < |all| && all[i] == '\n' && StartsEntry(all, i + 1) {
      if i < |x| {
        assert x[i] == '\n' && StartsEntry(x, i + 1);
      } else if i >= |x + sep| {
        assert y[i - |x + sep|] == '\n' && StartsEntry(all, |x + sep| + (i - |x + sep| + 1));
      } else {
        assert all[i] == sep[i - |x|];
        assert StartsEntry(all, |x + sep| + 0);
        NothingStarts(y);
      }
    }
  }

  lemma NothingStarts(y: string)
    ensures y == "" ==> !StartsEntry(y, 0)
  {
  }

  lemma StartsCross(x: string, sep: string, y: string, at: nat)
    requires at <= |x| && (sep == BAR || (sep == "\n" && y == ""))
    ensures StartsEntry(x + sep + y, at) <==> StartsEntry(x, at)
  {
    hide OccursAt;
    LeadCross(x, sep, y, SAMPLE_LEAD, at);
    LeadCross(x, sep, y, CHILD_LEAD, at);
    LeadCross(x, sep, y, ORPHAN_LEAD, at);
  }

  lemma PlainForgesNot(w: string)
    requires '\n' !in w
    ensures !Forges(w)
  {
  }

  /** The front of a line, up to the first field. */
  function FrontOf(a: Artifact, n: nat, samples: seq<Artifact>, target: Option<string>): string {
    if a.run == None then "### " + Ref(n) + (if target == Some(a.id) then " [TARGET]" else "")
    else if HasParentIn(a, samples) then "  - " + Ref(n)
    else "- " + Ref(n)
  }

  function FieldsOf(a: Artifact): string {
    match a.description
    case None => a.filename
    case Some(d) => if a.run == None then a.filename + BAR + d else d
  }

  lemma LineParts(a: Artifact, n: nat, samples: seq<Artifact>, target: Option<string>)
    ensures LineOf(a, n, samples, target) == FrontOf(a, n, samples, target) + BAR + FieldsOf(a) + "\n"
    ensures '\n' !in FrontOf(a, n, samples, target)
  {
    hide HasParentIn, Ref;
    RefIsPlain(n);
    var front, f := FrontOf(a, n, samples, target), a.filename;
    if IsUploaded(a) && a.description.Some? {
      assert front + BAR + f + (BAR + a.description.value) == front + BAR + (f + BAR + a.description.value);
    }
    if IsUploaded(a) && a.description.None? {
      assert front + BAR + f + "" == front + BAR + f;
    }
  }

  /** A line forges another one if and only if one of its fields does. */
  lemma LineForges(a: Artifact, n: nat, samples: seq<Artifact>, target: Option<string>)
    ensures Forges(LineOf(a, n, samples, target)) <==> FieldForges(a)
  {
    hide Forges, LineOf, FrontOf, HasParentIn;
    var front, fields := FrontOf(a, n, samples, target), FieldsOf(a);
    LineParts(a, n, samples, target);
    PlainForgesNot(front);
    PlainForgesNot("");
    ForgesParts(front, BAR, fields);
    ForgesParts(front + BAR + fields, "\n", "");
    assert front + BAR + fields + "\n" + "" == front + BAR + fields + "\n";
    if IsUploaded(a) && a.description.Some? {
      ForgesParts(a.filename, BAR, a.description.value);
    }
  }

  // ---------------------------------------------------------------- resolving them

  const USIZE: nat := 0x1_0000_0000_0000_0000

  /** An unsigned number with an optional plus sign. */
  function ParseUsize(s: string): Option<nat> {
    var digits := if s != "" && s[0] == '+' then s[1..] else s;
    if digits == "" || !AllDigits(digits) then None
    else if Number(digits) >= USIZE then None
    else Some(Number(digits))
  }

  function ResolveArtifactRef(s: string, index: seq<string>): Option<string> {
    var trimmed := Trim(s);
    if trimmed == "" || trimmed[0] != '#' then None
    else
      match ParseUsize(trimmed[1..])
      case None => None
      case Some(n) => if 1 <= n <= |index| then Some(index[n - 1]) else None
  }

  /** A printed reference resolves to what stands at its position, and to nothing beyond the list. */
  lemma RefResolves(n: nat, index: seq<string>)
    requires |index| < USIZE
    ensures ResolveArtifactRef(Ref(n), index) == if 1 <= n <= |index| then Some(index[n - 1]) else None
  {
    DecimalRoundTrip(n);
    var digits := Decimal(n);
    TrimmedIsFixed(Ref(n));
    assert Ref(n)[1..] == digits;
    assert IsDigit(digits[0]) && IsDigit(digits[|digits| - 1]);
    hide Decimal, Trim, Number;
  }

  /** The text is a reference to the number, between white space and perhaps with a plus sign. */
  ghost predicate RefersTo(s: string, n: nat) {
    exists digits :: IsNumeral(digits, n) && (Trimmed(s, "#" + digits) || Trimmed(s, "#+" + digits))
  }

  ghost predicate IsNumeral(digits: string, n: nat) {
    && digits != "" && AllDigits(digits) && Number(digits) == n < 0x1_0000_0000_0000_0000
  }

  lemma ResolvedRefers(s: string, index: seq<string>, id: string) returns (n: nat)
    requires ResolveArtifactRef(s, index) == Some(id)
    ensures RefersTo(s, n) && 1 <= n <= |index| && index[n - 1] == id
  {
    hide Trim, Trimmed, ParseUsize, IsNumeral;
    var trimmed := Trim(s);
    var tail := trimmed[1..];
    n := ParseUsize(tail).value;
    TrimIff(s, trimmed);
    UsizeRead(tail, n);
    assert trimmed == "#" + tail;
    if tail[0] == '+' {
      assert trimmed == "#+" + tail[1..];
    }
  }

  lemma RefersResolved(s: string, n: nat, digits: string)
    requires IsNumeral(digits, n) && (Trimmed(s, "#" + digits) || Trimmed(s, "#+" + digits))
    ensures var trimmed := Trim(s); trimmed != "" && trimmed[0] == '#' && ParseUsize(trimmed[1..]) == Some(n)
  {
    hide Trim, Trimmed, ParseUsize, IsNumeral;
    UsizeParses(digits, n);
    TrimIff(s, "#" + digits);
    TrimIff(s, "#+" + digits);
    assert ("#" + digits)[1..] == digits && ("#+" + digits)[1..] == "+" + digits;
  }

  /** A text resolves to an artifact if and only if it refers to a number that the listing gave to it. */
  lemma ResolvesIff(s: string, index: seq<string>, id: string)
    ensures ResolveArtifactRef(s, index) == Some(id) <==> exists n: nat :: RefersTo(s, n) && 1 <= n <= |index| && index[n - 1] == id
  {
    hide Trim, Trimmed, ParseUsize, IsNumeral;
    if ResolveArtifactRef(s, index) == Some(id) {
      var n := ResolvedRefers(s, index, id);
    }
    if n: nat :| RefersTo(s, n) && 1 <= n <= |index| && index[n - 1] == id {
      var digits :| IsNumeral(digits, n) && (Trimmed(s, "#" + digits) || Trimmed(s, "#+" + digits));
      RefersResolved(s, n, digits);
    }
  }

  lemma UsizeRead(t: string, n: nat)
    requires ParseUsize(t) == Some(n)
    ensures t != "" && IsNumeral(if t[0] == '+' then t[1..] else t, n)
  {
    hide Number, AllDigits;
  }

  lemma UsizeParses(digits: string, n: nat)
    requires IsNumeral(digits, n)
    ensures ParseUsize(digits) == Some(n) && ParseUsize("+" + digits) == Some(n)
  {
    hide Number;
    assert ("+" + digits)[1..] == digits;
  }

  lemma {:induction false} IdsAt(s: seq<Artifact>, k: nat)
    requires k < |s|
    ensures |Ids(s)| == |s| && Ids(s)[k] == s[k].id
  {
    if |s| > 1 {
      IdsAt(s[..|s| - 1], if k < |s| - 1 then k else 0);
    }
  }

  // ---------------------------------------------------------------- every printed reference

  /** Where the listing prints its lines: each artifact's line stands at its position, and these are all
      positions behind the heading where a line prints a reference if and only if no name or description holds
      a line break followed by what looks like one. */
  lemma ListingIsGenuineIff(prompt: string, artifacts: seq<Artifact>, target: Option<string>) returns (at: seq<nat>)
    requires artifacts != []
    ensures var d, listed := Context(prompt, artifacts, target), Listed(artifacts);
            && |at| == |listed|
            && (forall k :: 0 <= k < |listed| ==>
                  PrintedAt(d.text, BaseOf(prompt), at[k], LineOf(listed[k], k + 1, Uploaded(artifacts), target)))
            && (Genuine(d.text, BaseOf(prompt), at) <==> forall k :: 0 <= k < |listed| ==> !FieldForges(listed[k]))
  {
    hide Context, Listed, Uploaded, LineOf, Genuine, Forges, FieldForges, PrintedAt, BaseOf;
    at := ListingLaid(prompt, artifacts, target);
    LaidMeans(Context(prompt, artifacts, target), BaseOf(prompt), at, Listed(artifacts), Uploaded(artifacts), target);
  }

  lemma LaidMeans(d: Draft, base: nat, at: seq<nat>, listed: seq<Artifact>, samples: seq<Artifact>, target: Option<string>)
    requires Laid(d, base, at, listed, samples, target)
    ensures |at| == |listed| == |d.ids| && forall k :: 0 <= k < |listed| ==> d.ids[k] == listed[k].id
    ensures forall k :: 0 <= k < |listed| ==> PrintedAt(d.text, base, at[k], LineOf(listed[k], k + 1, samples, target))
    ensures Genuine(d.text, base, at) <==> forall k :: 0 <= k < |listed| ==> !FieldForges(listed[k])
  {
    hide LineOf, Genuine, Forges, FieldForges, PrintedAt, Open;
    forall k: nat ensures k < |listed| ==> (Forges(LineOf(listed[k], k + 1, samples, target)) <==> FieldForges(listed[k])) {
      if k < |listed| {
        LineForges(listed[k], k + 1, samples, target);
      }
    }
  }

  /** For artifacts with distinct ids the index map lists each of them once; each has its line with its number,
      and the reference printed there, and no other, resolves to it. */
  lemma PrintedReferencesResolve(prompt: string, artifacts: seq<Artifact>, target: Option<string>, k: nat) returns (at: nat)
    requires DistinctIds(artifacts) && |artifacts| < USIZE && k < |artifacts|
    ensures multiset(Listed(artifacts)) == multiset(artifacts)
    ensures Context(prompt, artifacts, target).ids == Ids(Listed(artifacts))
    ensures Resolves(Context(prompt, artifacts, target), BaseOf(prompt), Listed(artifacts), Uploaded(artifacts), target, k, at)
  {
    hide Listed, Context, DistinctIds, LineOf, Uploaded, BaseOf, PrintedAt, Genuine, FieldForges, Laid, Resolves;
    var listed, d := Listed(artifacts), Context(prompt, artifacts, target);
    ListedIsPermutation(artifacts);
    assert |multiset(listed)| == |multiset(artifacts)|;
    var starts := ListingLaid(prompt, artifacts, target);
    LaidMeans(d, BaseOf(prompt), starts, listed, Uploaded(artifacts), target);
    at := starts[k];
    IdsAt(listed, 0);
    forall i | 0 <= i < |listed| ensures Ids(listed)[i] == d.ids[i] {
      IdsAt(listed, i);
    }
    LineResolves(d, BaseOf(prompt), listed, Uploaded(artifacts), target, k, at);
  }

  /** At `at` stands the line of the artifact listed at `k`, and only the reference printed there resolves to it. */
  ghost predicate Resolves(d: Draft, base: nat, listed: seq<Artifact>, samples: seq<Artifact>, target: Option<string>, k: nat, at: nat) {
    && k < |listed| && PrintedAt(d.text, base, at, LineOf(listed[k], k + 1, samples, target))
    && PrintedAt(d.text, base, at, LeadOf(listed[k], samples) + Decimal(k + 1) + " ")
    && forall n: nat :: ResolveArtifactRef(Ref(n), d.ids) == Some(listed[k].id) <==> n == k + 1
  }

  function LeadOf(a: Artifact, samples: seq<Artifact>): string {
    if a.run == None then SAMPLE_LEAD else if HasParentIn(a, samples) then CHILD_LEAD else ORPHAN_LEAD
  }

  lemma LineStarts(a: Artifact, n: nat, samples: seq<Artifact>, target: Option<string>)
    ensures LeadOf(a, samples) + Decimal(n) + " " <= LineOf(a, n, samples, target)
  {
    hide HasParentIn, Decimal;
    var digits := Decimal(n);
    LineParts(a, n, samples, target);
    hide LineOf;
    var front := FrontOf(a, n, samples, target);
    assert "### " + ("#" + digits) == SAMPLE_LEAD + digits && "  - " + ("#" + digits) == CHILD_LEAD + digits && "- " + ("#" + digits) == ORPHAN_LEAD + digits;
    assert LeadOf(a, samples) + digits + " " <= front + BAR;
    assert front + BAR <= front + BAR + FieldsOf(a) + "\n";
  }

  lemma LineResolves(d: Draft, base: nat, listed: seq<Artifact>, samples: seq<Artifact>, target: Option<string>, k: nat, at: nat)
    requires DistinctIds(listed) && |listed| == |d.ids| < USIZE && k < |listed|
    requires forall i :: 0 <= i < |listed| ==> d.ids[i] == listed[i].id
    requires PrintedAt(d.text, base, at, LineOf(listed[k], k + 1, samples, target))
    ensures Resolves(d, base, listed, samples, target, k, at)
  {
    hide ResolveArtifactRef, LineOf, LeadOf, Decimal;
    OnlyOne(d.ids, listed, k);
    LineStarts(listed[k], k + 1, samples, target);
    PrefixPrinted(d.text, base, at, LeadOf(listed[k], samples) + Decimal(k + 1) + " ", LineOf(listed[k], k + 1, samples, target));
  }

  lemma PrefixPrinted(text: string, base: nat, at: nat, part: string, line: string)
    requires PrintedAt(text, base, at, line) && part <= line
    ensures PrintedAt(text, base, at, part)
  {
    assert text[at..at + |part|] == text[at..at + |line|][..|part|];
  }

  /** And when no name or description forges a line, every reference a line of the listing starts with is one
      of these: it resolves to the artifact whose line it stands in. */
  lemma EveryPrintedReference(prompt: string, artifacts: seq<Artifact>, target: Option<string>, p: nat) returns (k: nat)
    requires DistinctIds(artifacts) && |artifacts| < USIZE && artifacts != [] && forall a :: a in artifacts ==> !FieldForges(a)
    requires EntryLine(Context(prompt, artifacts, target).text, BaseOf(prompt), p)
    ensures Resolves(Context(prompt, artifacts, target), BaseOf(prompt), Listed(artifacts), Uploaded(artifacts), target, k, p)
  {
    hide Listed, Context, DistinctIds, LineOf, Uploaded, BaseOf, PrintedAt, FieldForges, Laid, Resolves, EntryLine;
    var listed, d := Listed(artifacts), Context(prompt, artifacts, target);
    ListedIsPermutation(artifacts);
    assert |multiset(listed)| == |multiset(artifacts)|;
    var starts := ListingLaid(prompt, artifacts, target);
    LaidMeans(d, BaseOf(prompt), starts, listed, Uploaded(artifacts), target);
    forall i | 0 <= i < |listed| ensures !FieldForges(listed[i]) {
      assert listed[i] in multiset(artifacts);
    }
    assert p in starts;
    k :| 0 <= k < |starts| && starts[k] == p;
    LineResolves(d, BaseOf(prompt), listed, Uploaded(artifacts), target, k, p);
  }

  // ---------------------------------------------------------------- the target

  lemma {:induction false} PositionMeaning(ids: seq<string>, id: string)
    ensures Position(ids, id) == None <==> id !in ids
    ensures Position(ids, id).Some? ==> Position(ids, id).value < |ids| && ids[Position(ids, id).value] == id
  {
    if ids != [] && ids[0] != id {
      PositionMeaning(ids[1..], id);
    }
  }

  /** The map holds the ids of the listed artifacts, and those are the given ones. */
  lemma MapHolds(prompt: string, artifacts: seq<Artifact>, target: Option<string>)
    requires DistinctIds(artifacts) && artifacts != []
    ensures var d, listed := Context(prompt, artifacts, target), Listed(artifacts);
            && |d.ids| == |listed| == |artifacts| && DistinctIds(listed)
            && (forall k :: 0 <= k < |listed| ==> d.ids[k] == listed[k].id && listed[k] in artifacts)
            && (forall a :: a in artifacts ==> a.id in d.ids)
  {
    hide Listed, Context, DistinctIds, LineOf, Uploaded, BaseOf, PrintedAt, Genuine, FieldForges, Laid;
    var listed, d := Listed(artifacts), Context(prompt, artifacts, target);
    ListedIsPermutation(artifacts);
    assert |multiset(listed)| == |multiset(artifacts)|;
    var starts := ListingLaid(prompt, artifacts, target);
    LaidMeans(d, BaseOf(prompt), starts, listed, Uploaded(artifacts), target);
    forall k | 0 <= k < |listed| ensures listed[k] in artifacts {
      assert listed[k] in multiset(artifacts);
    }
    forall a | a in artifacts ensures a.id in d.ids {
      assert a in multiset(listed);
      var k :| 0 <= k < |listed| && listed[k] == a;
      assert d.ids[k] == a.id;
    }
  }

  /** The number named as the thread's target is the one that resolves to it. */
  lemma TargetResolves(prompt: string, artifacts: seq<Artifact>, a: Artifact) returns (k: nat, before: string)
    requires DistinctIds(artifacts) && |artifacts| < USIZE && a in artifacts
    ensures var d := Context(prompt, artifacts, Some(a.id));
            && d.text == before + TargetLine(k + 1) + Closing()
            && forall n: nat :: ResolveArtifactRef(Ref(n), d.ids) == Some(a.id) <==> n == k + 1
  {
    hide Listed, DistinctIds, ResolveArtifactRef, Ref, TargetLine, Closing, Heading, Uploaded, Generated, Orphans, WithFamilies, WithOrphans;
    var d, listed := Context(prompt, artifacts, Some(a.id)), Listed(artifacts);
    MapHolds(prompt, artifacts, Some(a.id));
    PositionMeaning(d.ids, a.id);
    k := Position(d.ids, a.id).value;
    hide Position;
    var families := WithFamilies(Draft(prompt + Heading(), []), Uploaded(artifacts), Generated(artifacts), Some(a.id));
    before := WithOrphans(families, Orphans(Generated(artifacts), Uploaded(artifacts))).text;
    OnlyOne(d.ids, listed, k);
  }

  lemma OnlyOne(ids: seq<string>, listed: seq<Artifact>, k: nat)
    requires DistinctIds(listed) && |listed| == |ids| < USIZE && k < |listed|
    requires forall i :: 0 <= i < |listed| ==> ids[i] == listed[i].id
    ensures forall n: nat :: ResolveArtifactRef(Ref(n), ids) == Some(ids[k]) <==> n == k + 1
  {
    hide ResolveArtifactRef, Ref;
    forall n: nat ensures ResolveArtifactRef(Ref(n), ids) == Some(ids[k]) <==> n == k + 1 {
      RefResolves(n, ids);
      if 1 <= n <= |listed| {
        assert ids[n - 1] == listed[n - 1].id;
      }
    }
  }

  /** A target that is not among the artifacts is nowhere mentioned. */
  lemma UnknownTarget(prompt: string, artifacts: seq<Artifact>, id: string)
    requires DistinctIds(artifacts) && forall a :: a in artifacts ==> a.id != id
    ensures Context(prompt, artifacts, Some(id)) == Context(prompt, artifacts, None)
  {
    hide Listed, DistinctIds, TargetLine, Closing, Heading, Uploaded, Generated, Orphans, WithFamilies, WithOrphans, Position;
    if artifacts != [] {
      MapHolds(prompt, artifacts, Some(id));
      PositionMeaning(Context(prompt, artifacts, Some(id)).ids, id);
      SamplesAreGiven(artifacts);
      SameFamilies(Draft(prompt + Heading(), []), Uploaded(artifacts), Generated(artifacts), id);
    }
  }

  lemma SamplesAreGiven(artifacts: seq<Artifact>)
    ensures forall i :: 0 <= i < |Uploaded(artifacts)| ==> Uploaded(artifacts)[i] in artifacts
  {
    FilterKeeps(artifacts, (a: Artifact) => IsUploaded(a));
    hide Filter;
  }

  lemma {:induction false} SameFamilies(d: Draft, samples: seq<Artifact>, generated: seq<Artifact>, id: string)
    requires forall i :: 0 <= i < |samples| ==> samples[i].id != id
    ensures WithFamilies(d, samples, generated, Some(id)) == WithFamilies(d, samples, generated, None)
  {
    hide Ref, Entries, ChildrenHeading, ChildrenOf;
    if samples != [] {
      SameFamilies(d, samples[..|samples| - 1], generated, id);
    }
  }

  // ---------------------------------------------------------------- a description that forges a line

  lemma TwoListed(a: Artifact, b: Artifact)
    requires IsUploaded(a) && !IsUploaded(b) && b.parent == Some(a.id)
    ensures Listed([a, b]) == [a, b] && Uploaded([a, b]) == [a] && HasParentIn(b, [a])
  {
    hide Filter;
    var both := [a, b];
    assert both == [a] + [b] && [a] == [] + [a] && [b] == [] + [b];
    assert [a][0].id == b.parent.value;
    FilterNone((x: Artifact) => IsUploaded(x));
    FilterLast([], a, (x: Artifact) => IsUploaded(x));
    FilterLast([a], b, (x: Artifact) => IsUploaded(x));
    FilterNone((x: Artifact) => !IsUploaded(x));
    FilterLast([], a, (x: Artifact) => !IsUploaded(x));
    FilterLast([a], b, (x: Artifact) => !IsUploaded(x));
    FilterNone((x: Artifact) => x.parent == Some(a.id));
    FilterLast([], b, (x: Artifact) => x.parent == Some(a.id));
    FilterNone((x: Artifact) => !HasParentIn(x, [a]));
    FilterLast([], b, (x: Artifact) => !HasParentIn(x, [a]));
    assert Uploaded(both) == [a] && Generated(both) == [b];
    assert ChildrenOf([b], a.id) == [b] && Orphans([b], [a]) == [];
    FamiliesOfOne(a, [b]);
  }

  lemma FilterNone(keep: Artifact -> bool)
    ensures Filter([], keep) == []
  {
  }

  lemma FilterLast(s: seq<Artifact>, a: Artifact, keep: Artifact -> bool)
    ensures Filter(s + [a], keep) == if keep(a) then Filter(s, keep) + [a] else Filter(s, keep)
  {
    assert (s + [a])[..|s|] == s;
  }

  lemma FamiliesOfOne(a: Artifact, generated: seq<Artifact>)
    ensures Families([a], generated) == [a] + ChildrenOf(generated, a.id)
  {
    hide ChildrenOf;
    assert [a][..0] == [] && Families([], generated) == [];
  }

  /** A line inside another one. */
  lemma InnerLine(text: string, base: nat, at: nat, front: string, inner: string)
    requires PrintedAt(text, base, at, front + inner) && IsLine(front) && StartsEntry(inner, 0)
    ensures EntryLine(text, base, at + |front|) && PrintedAt(text, base, at + |front|, inner)
  {
    var p, line := at + |front|, front + inner;
    assert text[at..at + |line|] == line;
    assert text[p..p + |inner|] == line[|front|..];
    assert text[p - 1] == line[|front| - 1];
    StartsInPrinted(text, p, inner);
  }

  lemma StartsInPrinted(text: string, p: nat, inner: string)
    requires OccursAt(text, inner, p) && StartsEntry(inner, 0)
    ensures StartsEntry(text, p) && p < |text|
  {
    assert forall n: nat :: n <= |inner| ==> text[p..p + n] == inner[0..n];
  }

  function ForgedB(): Artifact { Artifact("c", "g", Some("x\n  - #1 | y"), Some("r"), Some("s")) }

  lemma ForgedLine(samples: seq<Artifact>)
    requires HasParentIn(ForgedB(), samples)
    ensures LineOf(ForgedB(), 2, samples, None) == "  - #2 | x\n" + "  - #1 | y\n"
  {
    hide HasParentIn;
    assert Decimal(2) == "2";
  }

  /** A line break in a description can print a reference beside something else: here `#1` is printed beside a
      generated artifact's text, while it resolves to the sample. */
  lemma DescriptionForgesALine(prompt: string) returns (artifacts: seq<Artifact>, p: nat)
    ensures DistinctIds(artifacts) && |artifacts| == 2
    ensures var d, listed := Context(prompt, artifacts, None), Listed(artifacts);
            && EntryLine(d.text, BaseOf(prompt), p) && PrintedAt(d.text, BaseOf(prompt), p, "  - #1 | y\n")
            && forall k :: 0 <= k < |listed| ==> !PrintedAt(d.text, BaseOf(prompt), p, LineOf(listed[k], k + 1, Uploaded(artifacts), None))
  {
    hide Context, Listed, Uploaded, BaseOf, Genuine, FieldForges, HasParentIn, StartsEntry, LineOf, EntryLine, PrintedAt;
    var a, b := Artifact("s", "f", None, None, None), ForgedB();
    artifacts := [a, b];
    TwoListed(a, b);
    var at := ListingIsGenuineIff(prompt, artifacts, None);
    ForgedLine([a]);
    var text := Context(prompt, artifacts, None).text;
    p := at[1] + |"  - #2 | x\n"|;
    InnerStarts();
    InnerLine(text, BaseOf(prompt), at[1], "  - #2 | x\n", "  - #1 | y\n");
    ForgedDiffers(text, BaseOf(prompt), p, a, [a]);
  }

  lemma InnerStarts()
    ensures StartsEntry("  - #1 | y\n", 0)
  {
    assert "  - #1 | y\n"[0..5] == CHILD_LEAD;
  }

  lemma ForgedDiffers(text: string, base: nat, p: nat, a: Artifact, samples: seq<Artifact>)
    requires PrintedAt(text, base, p, "  - #1 | y\n") && IsUploaded(a) && HasParentIn(ForgedB(), samples)
    ensures !PrintedAt(text, base, p, LineOf(a, 1, samples, None))
    ensures !PrintedAt(text, base, p, LineOf(ForgedB(), 2, samples, None))
  {
    ForgedLine(samples);
    LineStarts(a, 1, samples, None);
    var line := LineOf(a, 1, samples, None);
    assert line[0] == '#';
    assert ("  - #2 | x\n" + "  - #1 | y\n")[5] == '2';
    hide LineOf, HasParentIn, Decimal;
    var inner := "  - #1 | y\n";
    assert text[p..p + |inner|][0] == ' ' && text[p..p + |inner|][5] == '1';
    assert text[p] == ' ' && text[p + 5] == '1';
    if p + |line| <= |text| {
      assert text[p..p + |line|][0] == text[p];
    }
    var other := "  - #2 | x\n" + "  - #1 | y\n";
    if p + |other| <= |text| {
      assert text[p..p + |other|][5] == text[p + 5];
    }
  }
}
