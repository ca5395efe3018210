/** Repair of mistyped tool names against the registry.
    A name is a string of bytes, one `char` a byte, as the distance is computed on bytes. The registry
    lists its distinct names in any order, as it is a hash map. */
module ToolNames {
  import opened EditDistance
  import opened Multisets

  type Registry = seq<string>

  ghost predicate Distinct(names: Registry) {
    forall i, j :: 0 <= i < j < |names| ==> names[i] != names[j]
  }

  const MAX_TYPO: nat := 2

  /** The last dot-separated segment. */
  function LastSegment(name: string): string
    decreases |name|
  {
    if '.' !in name then name
    else if Last(name) == '.' then ""
    else LastSegment(Init(name)) + [Last(name)]
  }

  function IsSuffixOf(name: string): string -> bool { (full: string) => LastSegment(full) == name }

  function IsNear(name: string): string -> bool { (full: string) => Distance(name, full) <= MAX_TYPO }

  function Filter(names: Registry, keep: string -> bool): Registry {
    if names == [] then []
    else (if keep(names[0]) then [names[0]] else []) + Filter(names[1..], keep)
  }

  function FixupToolName(name: string, names: Registry): string {
    if name in names then name
    else
      var suffix := Filter(names, IsSuffixOf(name));
      if '.' !in name && |suffix| == 1 then suffix[0]
      else
        var close := Filter(names, IsNear(name));
        if |close| == 1 then close[0] else name
  }

  // ---------------------------------------------------------------- what it means

  /** `n` is the one registered name satisfying `p`. */
  ghost predicate TheOnly(n: string, names: Registry, p: string -> bool) {
    n in names && p(n) && forall m :: m in names && p(m) ==> m == n
  }

  /** The last segment is all there is, or what stands behind a dot. */
  ghost predicate EndsIn(full: string, last: string) {
    full == last || exists head :: full == head + "." + last
  }

  lemma EndsInMore(full: string, last: string, c: char)
    requires EndsIn(full, last)
    ensures EndsIn(full + [c], last + [c])
  {
    if full != last {
      var head :| full == head + "." + last;
      assert full + [c] == head + "." + (last + [c]);
    }
  }

  lemma {:induction false} SegmentMeaning(full: string)
    ensures '.' !in LastSegment(full) && EndsIn(full, LastSegment(full))
    decreases |full|
  {
    hide EndsIn;
    if '.' !in full {
      AllOfIt(full);
    } else {
      assert full == Init(full) + [Last(full)];
      if Last(full) == '.' {
        NothingBehind(Init(full));
      } else {
        SegmentMeaning(Init(full));
        EndsInMore(Init(full), LastSegment(Init(full)), Last(full));
      }
    }
  }

  lemma AllOfIt(full: string)
    ensures EndsIn(full, full)
  {
  }

  lemma NothingBehind(head: string)
    ensures EndsIn(head + ".", "")
  {
    assert head + "." == head + "." + "";
  }

  /** An undotted name is the last segment of itself and of the names that end in it behind a dot. */
  lemma SuffixIff(name: string, full: string)
    requires '.' !in name
    ensures IsSuffixOf(name)(full) <==> full == name || exists head :: full == head + "." + name
  {
    SegmentMeaning(full);
    if head :| full == head + "." + name {
      BehindLastDot(head, name);
    }
  }

  lemma {:induction false} BehindLastDot(head: string, name: string)
    requires '.' !in name
    ensures LastSegment(head + "." + name) == name
    decreases |name|
  {
    var full := head + "." + name;
    assert full[|head|] == '.';
    if name != "" {
      BehindLastDot(head, Init(name));
      assert Init(full) == head + "." + Init(name);
      assert Last(name) in name;
    }
  }

  lemma {:induction false} FilterMembers(names: Registry, p: string -> bool)
    ensures forall n :: n in Filter(names, p) <==> n in names && p(n)
  {
    if names != [] {
      FilterMembers(names[1..], p);
      assert names == [names[0]] + names[1..];
    }
  }

  lemma {:induction false} FilterDistinct(names: Registry, p: string -> bool)
    requires Distinct(names)
    ensures Distinct(Filter(names, p))
  {
    if names != [] {
      FilterDistinct(names[1..], p);
      FilterMembers(names[1..], p);
    }
  }

  lemma AtMostOne(names: Registry, n: string)
    requires Distinct(names) && forall i :: 0 <= i < |names| ==> names[i] == n
    ensures |names| <= 1
  {
    var first := if |names| > 1 then names[0] else n;
    var second := if |names| > 1 then names[1] else n;
    assert |names| <= 1 || first != second;
  }

  lemma {:induction false} FilterSingleton(names: Registry, p: string -> bool)
    requires Distinct(names)
    ensures |Filter(names, p)| == 1 <==> exists n :: TheOnly(n, names, p)
    ensures |Filter(names, p)| == 1 ==> TheOnly(Filter(names, p)[0], names, p)
  {
    var f := Filter(names, p);
    FilterMembers(names, p);
    FilterDistinct(names, p);
    if |f| == 1 {
      assert f[0] in f && TheOnly(f[0], names, p);
    }
    if n :| TheOnly(n, names, p) {
      assert n in f;
      forall i | 0 <= i < |f| ensures f[i] == n {
        assert f[i] in f;
      }
      AtMostOne(f, n);
    }
  }

  /** The repair, case by case: a registered name stays; otherwise an undotted name becomes the only
      registered name with that last segment; otherwise the only registered name within distance 2;
      otherwise it stays. */
  lemma FixupMeaning(name: string, names: Registry)
    requires Distinct(names)
    ensures name in names ==> FixupToolName(name, names) == name
    ensures forall n :: name !in names && '.' !in name && TheOnly(n, names, IsSuffixOf(name)) ==>
              FixupToolName(name, names) == n
    ensures '.' in name || !(exists m :: TheOnly(m, names, IsSuffixOf(name))) ==>
              forall n :: name !in names && TheOnly(n, names, IsNear(name)) ==> FixupToolName(name, names) == n
    ensures FixupToolName(name, names) != name ==>
              || ('.' !in name && TheOnly(FixupToolName(name, names), names, IsSuffixOf(name)))
              || TheOnly(FixupToolName(name, names), names, IsNear(name))
  {
    FilterSingleton(names, IsSuffixOf(name));
    FilterSingleton(names, IsNear(name));
  }

  /** Repairing twice changes nothing more. */
  lemma FixupIdempotent(name: string, names: Registry)
    requires Distinct(names)
    ensures FixupToolName(FixupToolName(name, names), names) == FixupToolName(name, names)
  {
    FixupMeaning(name, names);
  }

  /** The order in which the hash map lists its names does not matter. */
  lemma FixupIgnoresOrder(name: string, names: Registry, other: Registry)
    requires Distinct(names) && Distinct(other)
    requires forall n :: n in names <==> n in other
    ensures FixupToolName(name, names) == FixupToolName(name, other)
  {
    forall p: string -> bool ensures |Filter(names, p)| == 1 <==> |Filter(other, p)| == 1
      ensures |Filter(names, p)| == 1 ==> Filter(names, p)[0] == Filter(other, p)[0]
    {
      FilterSingleton(names, p);
      FilterSingleton(other, p);
      assert forall n :: TheOnly(n, names, p) <==> TheOnly(n, other, p);
    }
  }

  /** When registered names are far enough apart, every dotted name with at most two typos is repaired
      to the name that was meant, whatever the typos are. */
  lemma TyposAreRepaired(typo: string, meant: string, names: Registry)
    requires Distinct(names) && meant in names
    requires forall m, n :: m in names && n in names && m != n ==> Distance(m, n) > 2 * MAX_TYPO
    requires Distance(typo, meant) <= MAX_TYPO && '.' in typo
    ensures FixupToolName(typo, names) == meant
  {
    forall m | m in names && IsNear(typo)(m) ensures m == meant {
      Symmetric(typo, m);
      TriangleInequality(m, typo, meant);
    }
    ZeroOnlyForEqual(typo, typo);
    assert typo in names ==> IsNear(typo)(typo);
    assert TheOnly(meant, names, IsNear(typo));
    FixupMeaning(typo, names);
  }

  // ---------------------------------------------------------------- suggestions

  predicate Matches(tool: string, pattern: string) {
    || pattern == tool || pattern == "*"
    || (|pattern| >= 2 && pattern[|pattern| - 2..] == ".*" &&
        var prefix := pattern[..|pattern| - 2]; prefix <= tool && "." <= tool[|prefix|..])
  }

  /** A pattern stands for itself; `*` stands for every tool, and `p.*` for those whose names go on behind `p.`. */
  lemma MatchesIff(tool: string, pattern: string)
    ensures Matches(tool, pattern) <==>
            pattern == tool || pattern == "*" || exists p, rest :: pattern == p + ".*" && tool == p + "." + rest
  {
    if |pattern| >= 2 && pattern[|pattern| - 2..] == ".*" {
      var p := pattern[..|pattern| - 2];
      assert pattern == p + ".*";
      if p <= tool && "." <= tool[|p|..] {
        assert tool == p + "." + tool[|p| + 1..];
      }
    }
    if p, rest :| pattern == p + ".*" && tool == p + "." + rest {
      assert pattern[|pattern| - 2..] == ".*" && pattern[..|pattern| - 2] == p;
      assert tool[|p|..] == "." + rest;
    }
  }

  predicate IsAllowed(tool: string, patterns: seq<string>) {
    exists i :: 0 <= i < |patterns| && Matches(tool, patterns[i])
  }

  /** Behind everything at most as far. */
  function InsertByDistance(name: string, sorted: seq<string>, n: string): seq<string> {
    if sorted == [] then [n]
    else
      var last := sorted[|sorted| - 1];
      if Distance(name, last) <= Distance(name, n) then sorted + [n]
      else InsertByDistance(name, sorted[..|sorted| - 1], n) + [last]
  }

  /** A stable sort by distance. */
  function SortByDistance(name: string, names: seq<string>): seq<string> {
    if names == [] then [] else InsertByDistance(name, SortByDistance(name, names[..|names| - 1]), names[|names| - 1])
  }

  function IsCandidate(name: string, allowed: seq<string>, maxDist: nat): string -> bool {
    (n: string) => IsAllowed(n, allowed) && Distance(name, n) <= maxDist
  }

  function SuggestSimilarTools(name: string, names: Registry, allowed: seq<string>, max: nat, maxDist: nat): seq<string> {
    Take(SortByDistance(name, Filter(names, IsCandidate(name, allowed, maxDist))), max)
  }

  ghost predicate ByDistance(name: string, s: seq<string>) {
    forall i, j :: 0 <= i < j < |s| ==> Distance(name, s[i]) <= Distance(name, s[j])
  }

  lemma {:induction false} InsertCounts(name: string, sorted: seq<string>, n: string)
    ensures multiset(InsertByDistance(name, sorted, n)) == multiset(sorted) + multiset{n}
  {
    hide Distance;
    if sorted == [] {
      OneMore([], n);
      assert InsertByDistance(name, sorted, n) == [] + [n];
    } else {
      var init, last := sorted[..|sorted| - 1], sorted[|sorted| - 1];
      InsertCounts(name, init, n);
      OneMore(InsertByDistance(name, init, n), last);
      OneMore(init, last);
      OneMore(sorted, n);
      assert sorted == init + [last];
    }
  }

  lemma InsertMembers(name: string, sorted: seq<string>, n: string)
    ensures forall i :: 0 <= i < |InsertByDistance(name, sorted, n)| ==>
              InsertByDistance(name, sorted, n)[i] == n || InsertByDistance(name, sorted, n)[i] in sorted
  {
    InsertCounts(name, sorted, n);
    hide InsertByDistance;
    var r := InsertByDistance(name, sorted, n);
    assert forall i :: 0 <= i < |r| ==> r[i] in multiset(r);
  }

  lemma {:induction false} InsertKeepsOrder(name: string, sorted: seq<string>, n: string)
    requires ByDistance(name, sorted)
    ensures ByDistance(name, InsertByDistance(name, sorted, n))
  {
    hide Distance;
    if sorted != [] && Distance(name, sorted[|sorted| - 1]) > Distance(name, n) {
      var init, last := sorted[..|sorted| - 1], sorted[|sorted| - 1];
      InsertKeepsOrder(name, init, n);
      InsertMembers(name, init, n);
      assert InsertByDistance(name, sorted, n) == InsertByDistance(name, init, n) + [last];
      hide InsertByDistance;
      var r := InsertByDistance(name, init, n);
      forall i | 0 <= i < |r| ensures Distance(name, r[i]) <= Distance(name, last) {
      }
    }
  }

  lemma {:induction false} SortKeeps(name: string, names: seq<string>)
    ensures ByDistance(name, SortByDistance(name, names))
    ensures multiset(SortByDistance(name, names)) == multiset(names)
  {
    hide Distance, InsertByDistance, ByDistance;
    if names != [] {
      var init, last := names[..|names| - 1], names[|names| - 1];
      SortKeeps(name, init);
      InsertKeepsOrder(name, SortByDistance(name, init), last);
      InsertCounts(name, SortByDistance(name, init), last);
      assert names == init + [last];
    } else {
      assert ByDistance(name, []) by { NothingToSort(name); }
    }
  }

  lemma NothingToSort(name: string)
    ensures ByDistance(name, [])
  {
  }

  lemma DistinctByCount(s: seq<string>, t: seq<string>)
    requires Distinct(s) && multiset(t) == multiset(s)
    ensures Distinct(t)
  {
    forall i, j | 0 <= i < j < |t| ensures t[i] != t[j] {
      if t[i] == t[j] {
        TwoOf(t, i, j);
        OnlyOnce(s, t[i]);
      }
    }
  }

  lemma {:induction false} OnlyOnce(s: seq<string>, x: string)
    requires Distinct(s)
    ensures multiset(s)[x] <= 1
  {
    if s != [] {
      var init, last := s[..|s| - 1], s[|s| - 1];
      OnlyOnce(init, x);
      assert s == init + [last];
      assert last !in init;
    }
  }

  function Take(s: seq<string>, max: nat): seq<string> { if |s| > max then s[..max] else s }

  lemma FirstAreNearest(name: string, sorted: seq<string>, max: nat)
    requires ByDistance(name, sorted) && Distinct(sorted)
    ensures var r := Take(sorted, max);
            && Distinct(r) && ByDistance(name, r) && |r| <= max && (forall n :: n in r ==> n in sorted)
            && (forall n, m :: n in sorted && n !in r && m in r ==> Distance(name, m) <= Distance(name, n))
            && (|r| < max ==> r == sorted)
  {
    hide Distance;
    var r := Take(sorted, max);
    forall n, m | n in sorted && n !in r && m in r ensures Distance(name, m) <= Distance(name, n) {
      var j :| 0 <= j < |sorted| && sorted[j] == n;
      var i :| 0 <= i < |r| && r[i] == m;
      assert j >= |r| && sorted[i] == m;
    }
  }

  lemma SortedCandidates(name: string, names: Registry, allowed: seq<string>, maxDist: nat)
    requires Distinct(names)
    ensures var sorted := SortByDistance(name, Filter(names, IsCandidate(name, allowed, maxDist)));
            && ByDistance(name, sorted) && Distinct(sorted)
            && forall n :: n in sorted <==> n in names && IsAllowed(n, allowed) && Distance(name, n) <= maxDist
  {
    hide Distance, IsAllowed, Filter, SortByDistance, ByDistance;
    var candidates := Filter(names, IsCandidate(name, allowed, maxDist));
    FilterMembers(names, IsCandidate(name, allowed, maxDist));
    FilterDistinct(names, IsCandidate(name, allowed, maxDist));
    var sorted := SortByDistance(name, candidates);
    SortKeeps(name, candidates);
    DistinctByCount(candidates, sorted);
    assert forall n :: n in candidates <==> n in multiset(candidates);
    assert forall n :: n in sorted <==> n in multiset(sorted);
  }

  /** The suggestions are the nearest allowed names within the distance, nearest first: as many as wanted or all
      there are, each once, and none left out is nearer than one that is suggested. */
  lemma SuggestionsAreNearest(name: string, names: Registry, allowed: seq<string>, max: nat, maxDist: nat)
    requires Distinct(names)
    ensures var r := SuggestSimilarTools(name, names, allowed, max, maxDist);
            && Distinct(r) && ByDistance(name, r) && |r| <= max
            && (forall n :: n in r ==> n in names && IsAllowed(n, allowed) && Distance(name, n) <= maxDist)
            && (forall n, m :: n in names && IsAllowed(n, allowed) && Distance(name, n) <= maxDist && n !in r && m in r ==>
                  Distance(name, m) <= Distance(name, n))
            && (|r| < max ==> forall n :: n in names && IsAllowed(n, allowed) && Distance(name, n) <= maxDist ==> n in r)
  {
    hide Distance, IsAllowed, Filter, SortByDistance, ByDistance, Distinct, Take;
    SortedCandidates(name, names, allowed, maxDist);
    FirstAreNearest(name, SortByDistance(name, Filter(names, IsCandidate(name, allowed, maxDist))), max);
  }
}
