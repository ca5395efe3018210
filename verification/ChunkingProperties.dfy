/** What every run of the chunker guarantees, and when it ends. */
module ChunkingProperties {
  import opened Chunking
  import opened Text

  // ---------------------------------------------------------------- windows

  /** The windows looked at from `start` to the end of the text, were there no cap on the chunks. */
  ghost function WindowsFrom(t: seq<Byte>, chunkSize: nat, overlap: nat, start: nat): seq<(nat, nat)>
    requires CanStart(t, chunkSize, start) && start < |t|
    decreases |t| - start
  {
    Progress(t, chunkSize, overlap, start);
    var b := WindowEnd(t, chunkSize, start);
    [(start, b)] + if b >= |t| then [] else WindowsFrom(t, chunkSize, overlap, NextStart(t, overlap, start, b))
  }

  /** `w` is followed by `v`: it starts later, ends no earlier, leaves no gap and overlaps by at most
      `overlap` + 3 bytes. */
  predicate Follows(w: (nat, nat), v: (nat, nat), overlap: nat) {
    w.0 < v.0 <= w.1 <= v.1 && w.1 <= v.0 + overlap + 3
  }

  ghost predicate IsWindow(t: seq<Byte>, chunkSize: nat, w: (nat, nat)) {
    w.0 < w.1 <= w.0 + chunkSize && w.1 <= |t| && IsBoundary(t, w.0) && IsBoundary(t, w.1)
  }

  /** The windows follow one another to the end of the text. */
  ghost predicate Tiles(t: seq<Byte>, chunkSize: nat, overlap: nat, ws: seq<(nat, nat)>) {
    && ws != [] && ws[|ws| - 1].1 == |t|
    && (forall i :: 0 <= i < |ws| ==> IsWindow(t, chunkSize, ws[i]))
    && (forall i, j :: 0 <= i && j == i + 1 < |ws| ==> Follows(ws[i], ws[j], overlap))
  }

  lemma PrependWindow(t: seq<Byte>, chunkSize: nat, overlap: nat, w: (nat, nat), rest: seq<(nat, nat)>)
    requires IsWindow(t, chunkSize, w) && Tiles(t, chunkSize, overlap, rest) && Follows(w, rest[0], overlap)
    ensures Tiles(t, chunkSize, overlap, [w] + rest)
  {
    hide IsWindow, Follows;
    var ws := [w] + rest;
    forall i, j | 0 <= i && j == i + 1 < |ws| ensures Follows(ws[i], ws[j], overlap) {
      if i > 0 {
        assert ws[i] == rest[i - 1] && ws[j] == rest[i];
      }
    }
  }

  /** The windows tile the text from `start` on: they begin there, follow one another without a gap and reach
      the end, and each holds between one and `chunkSize` bytes between character boundaries. */
  lemma {:induction false} WindowsTile(t: seq<Byte>, chunkSize: nat, overlap: nat, start: nat)
    requires CanStart(t, chunkSize, start) && start < |t|
    ensures var ws := WindowsFrom(t, chunkSize, overlap, start);
            Tiles(t, chunkSize, overlap, ws) && ws[0] == (start, WindowEnd(t, chunkSize, start))
    decreases |t| - start
  {
    Progress(t, chunkSize, overlap, start);
    EndsMonotone(t, chunkSize, overlap, start);
    hide WindowEnd, NextStart, IsBoundary;
    var b := WindowEnd(t, chunkSize, start);
    if b < |t| {
      var next := NextStart(t, overlap, start, b);
      WindowsTile(t, chunkSize, overlap, next);
      hide Tiles;
      PrependWindow(t, chunkSize, overlap, (start, b), WindowsFrom(t, chunkSize, overlap, next));
    }
  }

  // ---------------------------------------------------------------- where windows are cut

  /** No such delimiter lies whole in [start, end). */
  ghost predicate Lacks(t: seq<Byte>, start: nat, end: nat, pat: seq<Byte>) {
    forall q: nat :: start <= q && q + |pat| <= end ==> !At(t, q, pat)
  }

  /** The last such delimiter in [start, end) ends at `b`. */
  ghost predicate CutsBehind(t: seq<Byte>, start: nat, end: nat, pat: seq<Byte>, b: nat) {
    && start + |pat| <= b <= end && At(t, b - |pat|, pat)
    && forall q: nat :: b - |pat| < q && q + |pat| <= end ==> !At(t, q, pat)
  }

  /** The cut is behind the last paragraph break, else the last line break, else the last sentence, else the last
      word, else at the very end. */
  ghost predicate BestCut(t: seq<Byte>, start: nat, end: nat, b: nat) {
    if !Lacks(t, start, end, PARAGRAPH) then CutsBehind(t, start, end, PARAGRAPH, b)
    else if !Lacks(t, start, end, LINE) then CutsBehind(t, start, end, LINE, b)
    else if !Lacks(t, start, end, SENTENCE) then CutsBehind(t, start, end, SENTENCE, b)
    else if !Lacks(t, start, end, WORD) then CutsBehind(t, start, end, WORD, b)
    else b == end
  }

  lemma CutIsBest(t: seq<Byte>, start: nat, end: nat)
    requires start <= end <= |t|
    ensures BestCut(t, start, end, FindBoundary(t, start, end))
  {
    hide At, RFind;
    assert |PARAGRAPH| == |SENTENCE| == 2 && |LINE| == |WORD| == 1;
  }

  /** `p` is the last position up to `pos` between two characters. */
  ghost predicate LastBoundary(t: seq<Byte>, pos: nat, p: nat) {
    p <= pos && p <= |t| && IsBoundary(t, p) && forall i: nat :: p < i <= pos && i <= |t| ==> !IsBoundary(t, i)
  }

  /** A window that would reach the end of the text ends there; any other is cut at its best. */
  ghost predicate CutWell(t: seq<Byte>, chunkSize: nat, w: (nat, nat)) {
    if w.0 + chunkSize >= |t| then w.1 == |t|
    else exists end: nat :: LastBoundary(t, w.0 + chunkSize, end) && BestCut(t, w.0, end, w.1)
  }

  /** The next window starts `overlap` bytes back, at the last boundary up to there, if that is behind the start of
      this one; otherwise where this one ends. */
  ghost predicate OverlapsWell(t: seq<Byte>, overlap: nat, w: (nat, nat), v: (nat, nat)) {
    if overlap > 0 && w.1 > overlap && exists p: nat :: StartsBack(t, w, overlap, p)
    then StartsBack(t, w, overlap, v.0)
    else v.0 == w.1
  }

  ghost predicate StartsBack(t: seq<Byte>, w: (nat, nat), overlap: nat, p: nat)
    requires overlap <= w.1
  {
    w.0 < p && LastBoundary(t, w.1 - overlap, p)
  }

  lemma FloorIsLast(t: seq<Byte>, pos: nat)
    requires pos <= |t|
    ensures LastBoundary(t, pos, Floor(t, pos))
    ensures forall p: nat :: LastBoundary(t, pos, p) ==> p == Floor(t, pos)
  {
    hide IsBoundary;
    forall i: nat | i <= pos && IsBoundary(t, i) ensures i <= Floor(t, pos) {
      FloorIsGreatest(t, pos, i);
    }
  }

  lemma WindowCutWell(t: seq<Byte>, chunkSize: nat, overlap: nat, start: nat)
    requires CanStart(t, chunkSize, start) && start < |t|
    ensures var b := WindowEnd(t, chunkSize, start);
            && CutWell(t, chunkSize, (start, b))
            && forall e :: OverlapsWell(t, overlap, (start, b), (NextStart(t, overlap, start, b), e))
  {
    hide BestCut, LastBoundary, Floor, FindBoundary, IsBoundary, Encoded, Fits;
    var b := WindowEnd(t, chunkSize, start);
    var pos := start + chunkSize;
    WindowSteps(t, chunkSize, start);
    if overlap > 0 && b > overlap {
      FloorIsLast(t, b - overlap);
    }
    if pos < |t| {
      FloorIsLast(t, pos);
      FloorInside(t, pos);
      CutIsBest(t, start, Floor(t, pos));
    } else {
      FloorOfBoundary(t, |t|);
    }
  }

  lemma FloorInside(t: seq<Byte>, pos: nat)
    requires pos < |t|
    ensures Floor(t, pos) <= pos
  {
  }

  /** Every window is cut at the best delimiter it holds, and the next one starts `overlap` bytes back. */
  lemma {:induction false} WindowsCutWell(t: seq<Byte>, chunkSize: nat, overlap: nat, start: nat)
    requires CanStart(t, chunkSize, start) && start < |t|
    ensures var ws := WindowsFrom(t, chunkSize, overlap, start);
            && (forall i :: 0 <= i < |ws| ==> CutWell(t, chunkSize, ws[i]))
            && (forall i, j :: 0 <= i && j == i + 1 < |ws| ==> OverlapsWell(t, overlap, ws[i], ws[j]))
    decreases |t| - start
  {
    hide CutWell, OverlapsWell, WindowEnd, NextStart, IsBoundary, Encoded, Fits;
    Progress(t, chunkSize, overlap, start);
    WindowCutWell(t, chunkSize, overlap, start);
    var b := WindowEnd(t, chunkSize, start);
    if b < |t| {
      var next := NextStart(t, overlap, start, b);
      WindowsTile(t, chunkSize, overlap, next);
      WindowsCutWell(t, chunkSize, overlap, next);
      var rest := WindowsFrom(t, chunkSize, overlap, next);
      var ws := [(start, b)] + rest;
      forall i, j | 0 <= i && j == i + 1 < |ws| ensures OverlapsWell(t, overlap, ws[i], ws[j]) {
        if i > 0 {
          assert ws[i] == rest[i - 1] && ws[j] == rest[i];
        }
      }
    }
  }

  // ---------------------------------------------------------------- white space

  /** The encoding of a code point, by section 3 of RFC 3629. */
  function Utf8(n: nat): seq<Byte>
    requires n < 0x11_0000
  {
    if n < 0x80 then [n]
    else if n < 0x800 then [0xC0 + n / 0x40, 0x80 + n % 0x40]
    else if n < 0x1_0000 then [0xE0 + n / 0x1000, 0x80 + n / 0x40 % 0x40, 0x80 + n % 0x40]
    else [0xF0 + n / 0x4_0000, 0x80 + n / 0x1000 % 0x40, 0x80 + n / 0x40 % 0x40, 0x80 + n % 0x40]
  }

  /** A character counts as white exactly if it encodes white space. */
  lemma WhiteIff(n: nat)
    requires n < 0xD800 || 0xE000 <= n < 0x11_0000
    ensures IsWhite(Utf8(n)) <==> IsWhitespace(n as char)
  {
  }

  // ---------------------------------------------------------------- windows and chunks

  /** The windows that are not blank, numbered, up to the cap. */
  function Packed(t: seq<Byte>, windows: seq<(nat, nat)>, prefix: string, chunks: seq<Chunk>): seq<Chunk>
    requires forall i :: 0 <= i < |windows| ==> windows[i].0 <= windows[i].1 <= |t|
    decreases |windows|
  {
    if windows == [] || |chunks| >= MAX_CHUNKS then chunks
    else Packed(t, windows[1..], prefix, chunks + ChunkOf(t, windows[0].0, windows[0].1, |chunks|, prefix))
  }

  /** The chunks are exactly those windows. */
  lemma {:induction false} ChunksAreWindows(
    t: seq<Byte>, chunkSize: nat, overlap: nat, prefix: string, start: nat, chunks: seq<Chunk>)
    requires CanStart(t, chunkSize, start) && start < |t|
    ensures var ws := WindowsFrom(t, chunkSize, overlap, start);
            && (forall i :: 0 <= i < |ws| ==> ws[i].0 <= ws[i].1 <= |t|)
            && Chunked(t, chunkSize, overlap, prefix, start, chunks) == Packed(t, ws, prefix, chunks)
    decreases |t| - start
  {
    hide WindowEnd, NextStart, IsBoundary, ChunkOf, Follows;
    WindowsTile(t, chunkSize, overlap, start);
    Progress(t, chunkSize, overlap, start);
    var b := WindowEnd(t, chunkSize, start);
    var ws := WindowsFrom(t, chunkSize, overlap, start);
    if |chunks| < MAX_CHUNKS {
      var more := chunks + ChunkOf(t, start, b, |chunks|, prefix);
      if b < |t| {
        ChunksAreWindows(t, chunkSize, overlap, prefix, NextStart(t, overlap, start, b), more);
        assert ws[1..] == WindowsFrom(t, chunkSize, overlap, NextStart(t, overlap, start, b));
      } else {
        assert ws[1..] == [];
      }
    }
  }

  // ---------------------------------------------------------------- chunks

  /** Chunk number `i` is a verbatim slice of at most `chunkSize` bytes between character boundaries. */
  ghost predicate IsChunk(t: seq<Byte>, chunkSize: nat, prefix: string, c: Chunk, i: nat) {
    && c.index == i && c.chunkLabel == ChunkLabel(prefix, i)
    && 0 < c.length <= chunkSize && c.offset + c.length <= |t|
    && c.text == t[c.offset..c.offset + c.length]
    && IsBoundary(t, c.offset) && IsBoundary(t, c.offset + c.length)
    && !IsBlank(t, c.offset, c.offset + c.length)
  }

  function End(c: Chunk): nat { c.offset + c.length }

  ghost predicate Good(t: seq<Byte>, chunkSize: nat, prefix: string, chunks: seq<Chunk>) {
    && |chunks| <= MAX_CHUNKS
    && (forall i :: 0 <= i < |chunks| ==> IsChunk(t, chunkSize, prefix, chunks[i], i))
    && (forall i, j :: 0 <= i < j < |chunks| ==>
          chunks[i].offset < chunks[j].offset && End(chunks[i]) <= End(chunks[j]))
  }

  lemma PushGood(t: seq<Byte>, chunkSize: nat, prefix: string, chunks: seq<Chunk>, start: nat, b: nat)
    requires Good(t, chunkSize, prefix, chunks) && |chunks| < MAX_CHUNKS
    requires start < b <= start + chunkSize && b <= |t| && IsBoundary(t, start) && IsBoundary(t, b)
    requires forall i :: 0 <= i < |chunks| ==> chunks[i].offset < start && End(chunks[i]) <= b
    ensures Good(t, chunkSize, prefix, chunks + ChunkOf(t, start, b, |chunks|, prefix))
  {
    hide IsBlank, ChunkLabel;
    var more := chunks + ChunkOf(t, start, b, |chunks|, prefix);
    forall i | 0 <= i < |more| ensures IsChunk(t, chunkSize, prefix, more[i], i) {
      if i < |chunks| {
        assert more[i] == chunks[i];
      }
    }
  }

  lemma {:induction false} ChunkedGood(
    t: seq<Byte>, chunkSize: nat, overlap: nat, prefix: string, start: nat, chunks: seq<Chunk>)
    requires CanStart(t, chunkSize, start) && Good(t, chunkSize, prefix, chunks)
    requires forall i :: 0 <= i < |chunks| ==> chunks[i].offset < start && End(chunks[i]) <= WindowEnd(t, chunkSize, start)
    ensures Good(t, chunkSize, prefix, Chunked(t, chunkSize, overlap, prefix, start, chunks))
    decreases |t| - start
  {
    if start < |t| && |chunks| < MAX_CHUNKS {
      Progress(t, chunkSize, overlap, start);
      var b := WindowEnd(t, chunkSize, start);
      PushGood(t, chunkSize, prefix, chunks, start, b);
      if b < |t| {
        var next := NextStart(t, overlap, start, b);
        EndsMonotone(t, chunkSize, overlap, start);
        var more := chunks + ChunkOf(t, start, b, |chunks|, prefix);
        hide WindowEnd, NextStart, Good, IsBlank, IsBoundary;
        ChunkedGood(t, chunkSize, overlap, prefix, next, more);
      }
    }
  }

  /** Every chunk is a verbatim slice of at most `chunkSize` bytes on character boundaries, offsets strictly
      increase and no chunk ends before an earlier one does, for any text and any overlap. */
  lemma ChunksAreGood(t: seq<Byte>, chunkSize: nat, overlap: nat, prefix: string)
    requires Encoded(t) && Fits(t, chunkSize)
    ensures Good(t, chunkSize, prefix, Chunked(t, chunkSize, overlap, prefix, 0, []))
  {
    ChunkedGood(t, chunkSize, overlap, prefix, 0, []);
  }

  // ---------------------------------------------------------------- nothing is lost

  /** Some chunk holds the whole character at `i`. */
  ghost predicate Held(t: seq<Byte>, chunks: seq<Chunk>, i: nat)
    requires i < |t|
  {
    exists k :: 0 <= k < |chunks| && chunks[k].offset <= i && CharEnd(t, i) <= End(chunks[k])
  }

  ghost predicate HeldBelow(t: seq<Byte>, chunks: seq<Chunk>, limit: nat) {
    forall i :: 0 <= i < |t| && i < limit && IsBoundary(t, i) && !IsWhite(t[i..CharEnd(t, i)]) ==> Held(t, chunks, i)
  }

  lemma PushHolds(t: seq<Byte>, chunks: seq<Chunk>, start: nat, b: nat, prefix: string)
    requires HeldBelow(t, chunks, start) && start <= b <= |t| && IsBoundary(t, b)
    ensures HeldBelow(t, chunks + ChunkOf(t, start, b, |chunks|, prefix), b)
  {
    hide IsWhite, ChunkLabel, IsBoundary;
    var more := chunks + ChunkOf(t, start, b, |chunks|, prefix);
    forall i | 0 <= i < |t| && i < b && IsBoundary(t, i) && !IsWhite(t[i..CharEnd(t, i)])
      ensures Held(t, more, i)
    {
      if i < start {
        var k :| 0 <= k < |chunks| && chunks[k].offset <= i && CharEnd(t, i) <= End(chunks[k]);
        assert more[k] == chunks[k];
      } else {
        CharEndIsNext(t, i, b);
        assert !IsBlank(t, start, b);
        assert more[|chunks|].offset == start && End(more[|chunks|]) == b;
      }
    }
  }

  lemma {:induction false} ChunkedHolds(
    t: seq<Byte>, chunkSize: nat, overlap: nat, prefix: string, start: nat, chunks: seq<Chunk>)
    requires CanStart(t, chunkSize, start) && HeldBelow(t, chunks, start)
    ensures var result := Chunked(t, chunkSize, overlap, prefix, start, chunks);
            |result| < MAX_CHUNKS ==> HeldBelow(t, result, |t|)
    decreases |t| - start
  {
    if start < |t| && |chunks| < MAX_CHUNKS {
      Progress(t, chunkSize, overlap, start);
      var b := WindowEnd(t, chunkSize, start);
      var more := chunks + ChunkOf(t, start, b, |chunks|, prefix);
      PushHolds(t, chunks, start, b, prefix);
      if b < |t| {
        hide WindowEnd, ChunkOf, Held, IsBoundary, IsWhite;
        ChunkedHolds(t, chunkSize, overlap, prefix, NextStart(t, overlap, start, b), more);
      }
    }
  }

  /** Unless the cap on chunks is reached, every character that is not white space lies whole in a chunk. */
  lemma NothingIsLost(t: seq<Byte>, chunkSize: nat, overlap: nat, prefix: string, i: nat)
    requires Encoded(t) && Fits(t, chunkSize) && i < |t| && IsBoundary(t, i) && !IsWhite(t[i..CharEnd(t, i)])
    requires |Chunked(t, chunkSize, overlap, prefix, 0, [])| < MAX_CHUNKS
    ensures Held(t, Chunked(t, chunkSize, overlap, prefix, 0, []), i)
  {
    ChunkedHolds(t, chunkSize, overlap, prefix, 0, []);
  }

  // ---------------------------------------------------------------- when the loop ends

  /** The loop variables: where it stands and how many chunks it has made. */
  datatype Loop = Running(start: nat, made: nat) | Ended

  lemma NextOnBoundary(t: seq<Byte>, overlap: nat, start: nat, boundary: nat)
    requires start <= boundary <= |t| && IsBoundary(t, boundary)
    ensures start <= NextStart(t, overlap, start, boundary) && IsBoundary(t, NextStart(t, overlap, start, boundary))
    ensures start < boundary ==> start < NextStart(t, overlap, start, boundary)
  {
  }

  /** The loop after `n` turns, for any chunk size. */
  ghost function LoopAfter(t: seq<Byte>, chunkSize: nat, overlap: nat, n: nat): (l: Loop)
    requires Encoded(t)
    ensures l.Running? ==> l.start <= |t| && IsBoundary(t, l.start)
  {
    if n == 0 then Running(0, 0)
    else
      match LoopAfter(t, chunkSize, overlap, n - 1)
      case Ended => Ended
      case Running(start, made) =>
        if start >= |t| || made >= MAX_CHUNKS then Ended
        else
          WindowShape(t, chunkSize, start);
          var b := WindowEnd(t, chunkSize, start);
          NextOnBoundary(t, overlap, start, b);
          if b >= |t| then Ended
          else Running(NextStart(t, overlap, start, b), made + if IsBlank(t, start, b) then 0 else 1)
  }

  /** The call returns. */
  ghost predicate Ends(t: seq<Byte>, chunkSize: nat, overlap: nat)
    requires Encoded(t)
  {
    chunkSize == 0 || exists n: nat :: LoopAfter(t, chunkSize, overlap, n).Ended?
  }

  /** The loop has made as many chunks as it may. */
  ghost predicate Capped(l: Loop) {
    l.Running? && l.made == MAX_CHUNKS
  }

  lemma {:induction false} MovesOn(t: seq<Byte>, chunkSize: nat, overlap: nat, n: nat)
    requires Encoded(t) && Fits(t, chunkSize)
    ensures var l := LoopAfter(t, chunkSize, overlap, n); l.Running? ==> l.start >= n
  {
    hide WindowEnd, NextStart, IsBlank, Encoded, Fits, IsBoundary;
    if n > 0 {
      MovesOn(t, chunkSize, overlap, n - 1);
      var l := LoopAfter(t, chunkSize, overlap, n - 1);
      if l.Running? && l.start < |t| {
        assert CanStart(t, chunkSize, l.start);
        Progress(t, chunkSize, overlap, l.start);
      }
    }
  }

  /** At `p` stands a character wider than a chunk. */
  predicate WideAt(t: seq<Byte>, chunkSize: nat, p: nat) {
    p < |t| && IsBoundary(t, p) && CharEnd(t, p) > p + chunkSize
  }

  /** The loop never passes such a character. */
  lemma {:induction false} StaysBefore(t: seq<Byte>, chunkSize: nat, overlap: nat, n: nat, p: nat)
    requires Encoded(t) && WideAt(t, chunkSize, p)
    ensures var l := LoopAfter(t, chunkSize, overlap, n); l.Running? ==> l.made <= l.start <= p
  {
    hide WindowEnd, NextStart, IsBlank, IsBoundary, Encoded;
    if n > 0 {
      StaysBefore(t, chunkSize, overlap, n - 1, p);
      var l := LoopAfter(t, chunkSize, overlap, n - 1);
      if l.Running? {
        CutBefore(t, chunkSize, overlap, l.start, p);
      }
    }
  }

  lemma TurnEnds(t: seq<Byte>, chunkSize: nat, overlap: nat, n: nat)
    requires Encoded(t) && LoopAfter(t, chunkSize, overlap, n).Ended?
    ensures n > 0
    ensures var l := LoopAfter(t, chunkSize, overlap, n - 1);
            l.Ended? || l.start >= |t| || l.made >= MAX_CHUNKS || WindowEnd(t, chunkSize, l.start) >= |t|
  {
    hide IsBlank, WindowEnd, NextStart, IsBoundary, Encoded;
  }

  lemma {:induction false} EndsByCap(t: seq<Byte>, chunkSize: nat, overlap: nat, n: nat, p: nat) returns (m: nat)
    requires Encoded(t) && WideAt(t, chunkSize, p)
    requires LoopAfter(t, chunkSize, overlap, n).Ended?
    ensures Capped(LoopAfter(t, chunkSize, overlap, m))
  {
    hide LoopAfter, WindowEnd, NextStart, IsBlank, IsBoundary, Encoded, CharEnd;
    TurnEnds(t, chunkSize, overlap, n);
    m := n - 1;
    var l := LoopAfter(t, chunkSize, overlap, m);
    if l.Ended? {
      m := EndsByCap(t, chunkSize, overlap, m, p);
    } else {
      StaysBefore(t, chunkSize, overlap, m, p);
      MadeWithinCap(t, chunkSize, overlap, m);
      CutBefore(t, chunkSize, overlap, l.start, p);
    }
  }

  lemma {:induction false} MadeWithinCap(t: seq<Byte>, chunkSize: nat, overlap: nat, n: nat)
    requires Encoded(t)
    ensures var l := LoopAfter(t, chunkSize, overlap, n); l.Running? ==> l.made <= MAX_CHUNKS
  {
    hide IsBlank, WindowEnd, NextStart;
    if n > 0 {
      MadeWithinCap(t, chunkSize, overlap, n - 1);
    }
  }

  lemma CutBefore(t: seq<Byte>, chunkSize: nat, overlap: nat, start: nat, p: nat)
    requires Encoded(t) && WideAt(t, chunkSize, p)
    requires start <= p && IsBoundary(t, start)
    ensures var b := WindowEnd(t, chunkSize, start);
            && start <= b <= p && IsBoundary(t, b)
            && start <= NextStart(t, overlap, start, b) <= p
            && (!IsBlank(t, start, b) ==> start < NextStart(t, overlap, start, b))
  {
    hide IsBlank;
    WindowShape(t, chunkSize, start);
    var b := WindowEnd(t, chunkSize, start);
    if b > p {
      CharEndIsNext(t, p, b);
    }
    NextOnBoundary(t, overlap, start, b);
    if start == b {
      EmptyIsBlank(t, start);
    }
  }

  lemma EmptyIsBlank(t: seq<Byte>, i: nat)
    requires i <= |t|
    ensures IsBlank(t, i, i)
  {
  }

  lemma FitsEnds(t: seq<Byte>, chunkSize: nat, overlap: nat)
    requires Encoded(t) && Fits(t, chunkSize)
    ensures Ends(t, chunkSize, overlap)
  {
    hide LoopAfter;
    MovesOn(t, chunkSize, overlap, |t| + 1);
    assert LoopAfter(t, chunkSize, overlap, |t| + 1).Ended?;
  }

  lemma WideEndsByCap(t: seq<Byte>, chunkSize: nat, overlap: nat, p: nat)
    requires Encoded(t) && chunkSize > 0 && WideAt(t, chunkSize, p) && Ends(t, chunkSize, overlap)
    ensures exists n: nat :: Capped(LoopAfter(t, chunkSize, overlap, n))
    ensures p >= MAX_CHUNKS
  {
    hide LoopAfter, WideAt;
    var n: nat :| LoopAfter(t, chunkSize, overlap, n).Ended?;
    var m := EndsByCap(t, chunkSize, overlap, n, p);
    StaysBefore(t, chunkSize, overlap, m, p);
  }

  lemma NotFits(t: seq<Byte>, chunkSize: nat) returns (p: nat)
    requires !Fits(t, chunkSize)
    ensures WideAt(t, chunkSize, p)
  {
    p :| 0 <= p < |t| && IsBoundary(t, p) && CharEnd(t, p) > p + chunkSize;
  }

  lemma CapEnds(t: seq<Byte>, chunkSize: nat, overlap: nat, n: nat)
    requires Encoded(t) && Capped(LoopAfter(t, chunkSize, overlap, n))
    ensures Ends(t, chunkSize, overlap)
  {
    hide WindowEnd, NextStart, IsBlank, IsBoundary, Encoded;
    assert LoopAfter(t, chunkSize, overlap, n + 1).Ended?;
  }

  /** When every character fits, the call returns. Otherwise it returns if and only if it reaches the cap on
      chunks, which takes a byte a chunk: so with a wide character at an offset below the cap it never returns,
      and a text no longer than the cap is chunked to an end if and only if every character fits or the size is zero. */
  lemma EndsIffFits(t: seq<Byte>, chunkSize: nat, overlap: nat)
    requires Encoded(t)
    ensures Fits(t, chunkSize) ==> Ends(t, chunkSize, overlap)
    ensures chunkSize > 0 && !Fits(t, chunkSize) ==>
              (Ends(t, chunkSize, overlap) <==> exists n: nat :: Capped(LoopAfter(t, chunkSize, overlap, n)))
    ensures chunkSize > 0 && (exists p :: 0 <= p < MAX_CHUNKS && WideAt(t, chunkSize, p)) ==> !Ends(t, chunkSize, overlap)
    ensures |t| <= MAX_CHUNKS ==> (Ends(t, chunkSize, overlap) <==> chunkSize == 0 || Fits(t, chunkSize))
  {
    hide LoopAfter, Fits, Encoded;
    if Fits(t, chunkSize) {
      FitsEnds(t, chunkSize, overlap);
    } else if chunkSize > 0 && Ends(t, chunkSize, overlap) {
      var p := NotFits(t, chunkSize);
      WideEndsByCap(t, chunkSize, overlap, p);
    } else if n: nat :| Capped(LoopAfter(t, chunkSize, overlap, n)) {
      CapEnds(t, chunkSize, overlap, n);
    }
    if chunkSize > 0 && Ends(t, chunkSize, overlap) {
      forall p | 0 <= p < MAX_CHUNKS ensures !WideAt(t, chunkSize, p) {
        if WideAt(t, chunkSize, p) {
          WideEndsByCap(t, chunkSize, overlap, p);
        }
      }
    }
  }

  /** A two-byte character and a chunk size of one: the loop does not end. */
  lemma StallsOnWideCharacter()
    ensures Encoded([0xC3, 0xA9]) && !Ends([0xC3, 0xA9], 1, 0)
  {
    var t: seq<Byte> := [0xC3, 0xA9];
    assert !IsBoundary(t, 1);
    assert CharEnd(t, 0) == 2;
    assert !Fits(t, 1);
    EndsIffFits(t, 1, 0);
  }
}
