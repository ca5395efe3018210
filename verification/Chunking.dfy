/** Overlapping chunks of UTF-8 text, cut at the best delimiter of each window. */
module Chunking {
  import opened Wrappers
  import opened Text

  type Byte = b: int | 0 <= b < 256

  const MAX_CHUNKS: nat := 10_000

  datatype Chunk = Chunk(index: nat, offset: nat, length: nat, text: seq<Byte>, chunkLabel: string)

  // ---------------------------------------------------------------- characters

  predicate IsContinuation(t: seq<Byte>, i: nat) {
    i < |t| && 0x80 <= t[i] < 0xC0
  }

  predicate IsBoundary(t: seq<Byte>, i: nat) {
    i == 0 || i == |t| || (i < |t| && !IsContinuation(t, i))
  }

  ghost predicate FourContinuations(t: seq<Byte>, i: nat) {
    IsContinuation(t, i) && IsContinuation(t, i + 1) && IsContinuation(t, i + 2) && IsContinuation(t, i + 3)
  }

  /** A boundary among four consecutive positions. */
  ghost function NearBoundary(t: seq<Byte>, i: nat): (b: nat)
    requires !FourContinuations(t, i) && i + 3 < |t|
    ensures i <= b <= i + 3 && IsBoundary(t, b)
  {
    if IsBoundary(t, i) then i else if IsBoundary(t, i + 1) then i + 1 else if IsBoundary(t, i + 2) then i + 2 else i + 3
  }

  /** What is used of UTF-8: a continuation byte follows a non-ASCII byte, and at most three follow a lead. */
  ghost predicate Encoded(t: seq<Byte>) {
    && (forall i {:trigger IsContinuation(t, i)} :: 0 <= i < |t| && IsContinuation(t, i) ==> i > 0 && t[i - 1] >= 0x80)
    && (forall i: nat :: !FourContinuations(t, i))
  }

  /** Where the character at boundary `i` ends. */
  function CharEnd(t: seq<Byte>, i: nat): (e: nat)
    requires i < |t|
    ensures i < e <= |t| && IsBoundary(t, e)
    decreases |t| - i
  {
    if IsBoundary(t, i + 1) then i + 1 else CharEnd(t, i + 1)
  }

  lemma CharEndIsNext(t: seq<Byte>, i: nat, j: nat)
    requires i < j <= |t| && IsBoundary(t, j)
    ensures CharEnd(t, i) <= j
    decreases |t| - i
  {
  }

  /** Every character is at most `size` bytes wide. */
  ghost predicate Fits(t: seq<Byte>, size: nat) {
    forall i {:trigger CharEnd(t, i)} :: 0 <= i < |t| && IsBoundary(t, i) ==> CharEnd(t, i) <= i + size
  }

  predicate IsWhite(c: seq<Byte>) {
    || (|c| == 1 && (9 <= c[0] <= 13 || c[0] == 32))
    || c == [0xC2, 0x85] || c == [0xC2, 0xA0]
    || (|c| == 3 &&
        (|| c == [0xE1, 0x9A, 0x80]
         || (c[0] == 0xE2 && c[1] == 0x80 && (0x80 <= c[2] <= 0x8A || c[2] == 0xA8 || c[2] == 0xA9 || c[2] == 0xAF))
         || c == [0xE2, 0x81, 0x9F] || c == [0xE3, 0x80, 0x80]))
  }

  /** Nothing is left of the slice after trimming. */
  predicate IsBlank(t: seq<Byte>, lo: nat, hi: nat)
    requires hi <= |t|
  {
    forall i {:trigger CharEnd(t, i)} :: lo <= i < hi && IsBoundary(t, i) ==> IsWhite(t[i..CharEnd(t, i)])
  }

  function Floor(t: seq<Byte>, pos: nat): (p: nat)
    ensures p <= |t| && IsBoundary(t, p) && (pos <= |t| ==> p <= pos)
  {
    if pos >= |t| then |t|
    else if IsBoundary(t, pos) then pos
    else Floor(t, pos - 1)
  }

  method FloorCharBoundary(t: seq<Byte>, start: nat) returns (pos: nat)
    ensures pos == Floor(t, start)
  {
    pos := start;
    if pos >= |t| {
      return |t|;
    }
    while pos > 0 && !IsBoundary(t, pos)
      invariant pos < |t| && Floor(t, pos) == Floor(t, start)
    {
      pos := pos - 1;
    }
  }

  lemma FloorOfBoundary(t: seq<Byte>, i: nat)
    requires i <= |t| && IsBoundary(t, i)
    ensures Floor(t, i) == i
  {
  }

  lemma FloorIsGreatest(t: seq<Byte>, pos: nat, i: nat)
    requires i <= pos && i <= |t| && IsBoundary(t, i)
    ensures i <= Floor(t, pos)
  {
  }

  lemma FloorMonotone(t: seq<Byte>, p: nat, q: nat)
    requires p <= q
    ensures Floor(t, p) <= Floor(t, q)
  {
    if p < |t| {
      FloorIsGreatest(t, q, Floor(t, p));
    }
  }

  lemma FloorLosesLittle(t: seq<Byte>, pos: nat)
    requires Encoded(t) && pos <= |t|
    ensures pos <= Floor(t, pos) + 3
  {
    if 3 <= pos < |t| {
      FloorIsGreatest(t, pos, NearBoundary(t, pos - 3));
    }
  }

  lemma FourBytesFit(t: seq<Byte>, size: nat)
    requires Encoded(t) && size >= 4
    ensures Fits(t, size)
  {
    forall i | 0 <= i < |t| && IsBoundary(t, i) ensures CharEnd(t, i) <= i + size {
      if i + 4 < |t| {
        CharEndIsNext(t, i, NearBoundary(t, i + 1));
      }
    }
  }

  // ---------------------------------------------------------------- the cut

  const PARAGRAPH: seq<Byte> := [10, 10]
  const LINE: seq<Byte> := [10]
  const SENTENCE: seq<Byte> := [46, 32]
  const WORD: seq<Byte> := [32]

  predicate At(t: seq<Byte>, q: nat, pat: seq<Byte>) {
    q + |pat| <= |t| && t[q..q + |pat|] == pat
  }

  /** Last occurrence that lies inside [lo, hi). */
  function RFind(t: seq<Byte>, lo: nat, hi: nat, pat: seq<Byte>): (r: Option<nat>)
    requires lo <= hi <= |t| && pat != []
    ensures r.Some? ==> lo <= r.value && r.value + |pat| <= hi && At(t, r.value, pat)
    ensures r.Some? ==> forall q: nat :: r.value < q && q + |pat| <= hi ==> !At(t, q, pat)
    ensures r.None? ==> forall q: nat :: lo <= q && q + |pat| <= hi ==> !At(t, q, pat)
    decreases hi
  {
    if lo + |pat| > hi then None
    else if At(t, hi - |pat|, pat) then Some(hi - |pat|)
    else RFind(t, lo, hi - 1, pat)
  }

  /** Paragraph, else line, else sentence, else word, else a hard cut at `end`. */
  function FindBoundary(t: seq<Byte>, start: nat, end: nat): (b: nat)
    requires start <= end <= |t|
    ensures start <= b <= end && (start < end ==> start < b)
  {
    var paragraph := RFind(t, start, end, PARAGRAPH);
    if paragraph.Some? then paragraph.value + 2
    else
      var line := RFind(t, start, end, LINE);
      if line.Some? then line.value + 1
      else
        var sentence := RFind(t, start, end, SENTENCE);
        if sentence.Some? then sentence.value + 2
        else
          var word := RFind(t, start, end, WORD);
          if word.Some? then word.value + 1 else end
  }

  /** The delimiters are ASCII, and the longer ones end in a shorter one. */
  lemma Delimiters(t: seq<Byte>, q: nat)
    ensures At(t, q, PARAGRAPH) ==> At(t, q, LINE) && At(t, q + 1, LINE)
    ensures At(t, q, SENTENCE) ==> At(t, q + 1, WORD)
    ensures At(t, q, LINE) || At(t, q, WORD) ==> q < |t| && t[q] < 0x80
  {
    if At(t, q, PARAGRAPH) {
      assert t[q..q + 2][0] == 10 && t[q..q + 2][1] == 10;
    }
    if At(t, q, SENTENCE) {
      assert t[q..q + 2][1] == 32;
    }
    if At(t, q, LINE) || At(t, q, WORD) {
      assert t[q] == t[q..q + 1][0];
    }
  }

  /** The cut is between characters. */
  lemma CutIsBoundary(t: seq<Byte>, start: nat, end: nat)
    requires Encoded(t) && start <= end <= |t| && IsBoundary(t, end)
    ensures IsBoundary(t, FindBoundary(t, start, end))
  {
    hide At;
    var b := FindBoundary(t, start, end);
    if b != end {
      forall q: nat
        ensures At(t, q, PARAGRAPH) ==> At(t, q + 1, LINE)
        ensures At(t, q, SENTENCE) ==> At(t, q + 1, WORD)
      {
        Delimiters(t, q);
      }
      Delimiters(t, b - 1);
      assert At(t, b - 1, LINE) || At(t, b - 1, WORD);
    }
  }

  /** The best cut never moves backwards when the window slides forward from inside the old one: although
      the class of delimiter may change, and delimiters of two bytes may straddle either edge. */
  lemma CutMonotone(t: seq<Byte>, s: nat, e: nat, s': nat, e': nat)
    requires s <= e <= e' <= |t| && s <= s' <= FindBoundary(t, s, e) && s' <= e'
    ensures FindBoundary(t, s, e) <= FindBoundary(t, s', e')
  {
    hide At, RFind;
    forall q: nat
      ensures At(t, q, PARAGRAPH) ==> At(t, q, LINE) && At(t, q + 1, LINE)
      ensures At(t, q, SENTENCE) ==> At(t, q + 1, WORD)
    {
      Delimiters(t, q);
    }
  }

  // ---------------------------------------------------------------- one window

  function Least(x: nat, y: nat): nat { if x <= y then x else y }

  /** Where the window starting at `start` ends. */
  function WindowEnd(t: seq<Byte>, chunkSize: nat, start: nat): (b: nat)
    requires start <= |t| && IsBoundary(t, start)
    ensures b <= |t|
  {
    FloorMonotone(t, start, Least(start + chunkSize, |t|));
    var end := Floor(t, Least(start + chunkSize, |t|));
    if end >= |t| then |t| else FindBoundary(t, start, end)
  }

  /** Where the next window starts: `overlap` back from the cut, unless that makes no progress. */
  function NextStart(t: seq<Byte>, overlap: nat, start: nat, boundary: nat): (s: nat)
    requires boundary <= |t|
    ensures s <= boundary
  {
    var next := if overlap > 0 && boundary > overlap then Floor(t, boundary - overlap) else boundary;
    if next <= start then boundary else next
  }

  lemma WindowShape(t: seq<Byte>, chunkSize: nat, start: nat)
    requires Encoded(t) && start < |t| && IsBoundary(t, start)
    ensures var b := WindowEnd(t, chunkSize, start);
            start <= b <= start + chunkSize && IsBoundary(t, b) && (CharEnd(t, start) <= start + chunkSize ==> start < b)
  {
    hide FindBoundary, CharEnd, Encoded;
    var pos := Least(start + chunkSize, |t|);
    var end := Floor(t, pos);
    FloorMonotone(t, start, pos);
    FloorOfBoundary(t, start);
    FloorOfBoundary(t, CharEnd(t, start));
    if CharEnd(t, start) <= pos {
      FloorMonotone(t, CharEnd(t, start), pos);
    }
    hide Floor;
    if end < |t| {
      CutIsBoundary(t, start, end);
    }
  }

  lemma NextShape(t: seq<Byte>, overlap: nat, start: nat, boundary: nat)
    requires Encoded(t) && start < boundary <= |t| && IsBoundary(t, boundary)
    ensures var s := NextStart(t, overlap, start, boundary);
            start < s && IsBoundary(t, s) && boundary <= s + overlap + 3
  {
    if overlap > 0 && boundary > overlap {
      FloorLosesLittle(t, boundary - overlap);
    }
  }

  /** One iteration never ends a chunk before the previous one did. */
  lemma EndsMonotone(t: seq<Byte>, chunkSize: nat, overlap: nat, start: nat)
    requires Encoded(t) && start < |t| && IsBoundary(t, start) && CharEnd(t, start) <= start + chunkSize
    ensures var b := WindowEnd(t, chunkSize, start);
            var s := NextStart(t, overlap, start, b);
            IsBoundary(t, s) && b <= WindowEnd(t, chunkSize, s)
  {
    hide Floor, FindBoundary, NextStart, Encoded, CharEnd;
    var b := WindowEnd(t, chunkSize, start);
    WindowShape(t, chunkSize, start);
    NextShape(t, overlap, start, b);
    var s := NextStart(t, overlap, start, b);
    var p, q := Least(start + chunkSize, |t|), Least(s + chunkSize, |t|);
    FloorMonotone(t, p, q);
    FloorMonotone(t, start, p);
    FloorMonotone(t, s, q);
    FloorOfBoundary(t, start);
    FloorOfBoundary(t, s);
    if Floor(t, q) < |t| {
      CutMonotone(t, start, Floor(t, p), s, Floor(t, q));
    }
  }

  // ---------------------------------------------------------------- the loop

  function ChunkLabel(prefix: string, n: nat): string { prefix + "_chunk_" + Decimal(n) }

  /** The window [lo, hi) becomes chunk number `n` unless it is blank. */
  function ChunkOf(t: seq<Byte>, lo: nat, hi: nat, n: nat, prefix: string): seq<Chunk>
    requires lo <= hi <= |t|
  {
    if IsBlank(t, lo, hi) then []
    else [Chunk(n, lo, hi - lo, t[lo..hi], ChunkLabel(prefix, n))]
  }

  ghost predicate CanStart(t: seq<Byte>, chunkSize: nat, start: nat) {
    Encoded(t) && Fits(t, chunkSize) && start <= |t| && IsBoundary(t, start)
  }

  lemma Progress(t: seq<Byte>, chunkSize: nat, overlap: nat, start: nat)
    requires CanStart(t, chunkSize, start) && start < |t|
    ensures var b := WindowEnd(t, chunkSize, start);
            var next := NextStart(t, overlap, start, b);
            && start < b <= start + chunkSize && IsBoundary(t, b)
            && start < next && CanStart(t, chunkSize, next) && b <= next + overlap + 3
  {
    hide WindowEnd, NextStart;
    assert CharEnd(t, start) <= start + chunkSize;
    WindowShape(t, chunkSize, start);
    NextShape(t, overlap, start, WindowEnd(t, chunkSize, start));
  }

  /** The loop's result when it is about to look at `start` and has made `chunks`. */
  ghost function Chunked(
    t: seq<Byte>, chunkSize: nat, overlap: nat, prefix: string, start: nat, chunks: seq<Chunk>): seq<Chunk>
    requires CanStart(t, chunkSize, start)
    decreases |t| - start
  {
    if start >= |t| || |chunks| >= MAX_CHUNKS then chunks
    else
      Progress(t, chunkSize, overlap, start);
      var b := WindowEnd(t, chunkSize, start);
      var more := chunks + ChunkOf(t, start, b, |chunks|, prefix);
      if b >= |t| then more else Chunked(t, chunkSize, overlap, prefix, NextStart(t, overlap, start, b), more)
  }

  lemma WindowSteps(t: seq<Byte>, chunkSize: nat, start: nat)
    requires start < |t| && IsBoundary(t, start)
    ensures var end := Floor(t, Least(start + chunkSize, |t|));
            && start <= end
            && WindowEnd(t, chunkSize, start) == (if end >= |t| then |t| else FindBoundary(t, start, end))
  {
    hide Floor, FindBoundary;
    FloorMonotone(t, start, Least(start + chunkSize, |t|));
    FloorOfBoundary(t, start);
  }

  /** One turn: the end of the window at `start` and the start of the next one. */
  method CutWindow(t: seq<Byte>, chunkSize: nat, overlap: nat, start: nat) returns (boundary: nat, next: nat)
    requires start < |t| && IsBoundary(t, start)
    ensures boundary == WindowEnd(t, chunkSize, start)
    ensures next == NextStart(t, overlap, start, boundary)
  {
    hide FindBoundary, WindowEnd, IsBoundary;
    WindowSteps(t, chunkSize, start);
    var end := FloorCharBoundary(t, Least(start + chunkSize, |t|));
    if end >= |t| {
      boundary := |t|;
    } else {
      boundary := FindBoundary(t, start, end);
    }
    next := boundary;
    if overlap > 0 && boundary > overlap {
      next := FloorCharBoundary(t, boundary - overlap);
    }
    if next <= start {
      next := boundary;
    }
  }

  /** The loop, for sizes that no character exceeds. */
  method ChunkText(t: seq<Byte>, chunkSize: nat, overlap: nat, prefix: string) returns (chunks: seq<Chunk>)
    requires Encoded(t) && (chunkSize > 0 ==> Fits(t, chunkSize))
    ensures chunkSize == 0 ==> chunks == []
    ensures chunkSize > 0 ==> chunks == Chunked(t, chunkSize, overlap, prefix, 0, [])
  {
    chunks := [];
    if |t| == 0 || chunkSize == 0 {
      return;
    }
    var start := 0;
    while start < |t| && |chunks| < MAX_CHUNKS
      invariant CanStart(t, chunkSize, start)
      invariant Chunked(t, chunkSize, overlap, prefix, start, chunks) == Chunked(t, chunkSize, overlap, prefix, 0, [])
      decreases |t| - start
    {
      Progress(t, chunkSize, overlap, start);
      var boundary, next := CutWindow(t, chunkSize, overlap, start);
      chunks := chunks + ChunkOf(t, start, boundary, |chunks|, prefix);
      if boundary >= |t| {
        break;
      }
      start := next;
    }
  }
}
