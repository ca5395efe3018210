/** Which signals are read from a text: exactly those in the documented form, at every mark of every line. */
module SignalMarks {
  import opened Wrappers
  import opened Text
  import opened Signals
  import opened SignalParser

  // ---------------------------------------------------------------- one mark

  /** From `at` to the end of the line stands the documented form of the signal: mark, kind, target and reason; behind
      the reason there may be quotes and punctuation, and around it white space. */
  ghost predicate ReadsAt(line: string, at: nat, s: Signal, source: string) {
    && at <= |line| && IsAgentName(s.target) && s.source == source
    && exists tail, junk :: Form(line[at..], s, tail, junk)
  }

  function Word(kind: SignalKind): string {
    if kind == Request then "request" else if kind == Skip then "skip" else "priority"
  }

  ghost predicate Form(text: string, s: Signal, tail: string, junk: string) {
    && text == "signal:" + Word(s.kind) + ":" + s.target + ":" + tail + junk
    && AllAre(junk, IsTrailer) && tail != "" && !IsTrailer(tail[|tail| - 1]) && Trimmed(tail, s.reason)
  }

  lemma KindNames(kind: SignalKind)
    ensures KindOf(Word(kind)) == Some(kind) && ':' !in Word(kind)
  {
    assert forall c :: c in Word(kind) ==> 'a' <= c <= 'z';
  }

  lemma KindIs(name: string, kind: SignalKind)
    requires KindOf(name) == Some(kind)
    ensures name == Word(kind)
  {
  }

  lemma NameHasNoColon(name: string)
    requires IsAgentName(name)
    ensures ':' !in name
  {
    assert forall c :: c in name ==> IsNameChar(c);
  }

  lemma FormIsRead(text: string, s: Signal, tail: string, junk: string)
    requires Form(text, s, tail, junk) && IsAgentName(s.target)
    ensures SignalAt(text, 0, s.source) == [s]
  {
    hide ParseOne, Trim, TrimEnd, IsTrailer, IsAgentName, KindOf, Word, Trimmed, AllAre;
    var body := Word(s.kind) + ":" + s.target + ":" + tail;
    var raw := MARK + body;
    assert text == raw + junk;
    TrimEndIs(raw, junk, IsTrailer);
    assert text[0..] == text && raw[|MARK|..] == body;
    KindNames(s.kind);
    NameHasNoColon(s.target);
    TrimIff(tail, s.reason);
    PartsParse(Word(s.kind), tail, s);
  }

  lemma ReadHasForm(text: string, s: Signal, source: string) returns (tail: string, junk: string)
    requires SignalAt(text, 0, source) == [s]
    ensures Form(text, s, tail, junk) && IsAgentName(s.target) && s.source == source
  {
    hide TrimEnd, Trim, IsTrailer, IsAgentName, KindOf, Word, Trimmed, AllAre;
    assert text[0..] == text;
    var raw := TrimEnd(text, IsTrailer);
    junk := TrimEndLeaves(text, IsTrailer);
    TrimmedEnds(text, IsTrailer);
    var rest := raw[|MARK|..];
    tail := ParsedTail(rest, s, source);
    assert raw == MARK + rest;
    assert raw[|raw| - 1] == tail[|tail| - 1];
  }

  lemma ParsedTail(rest: string, s: Signal, source: string) returns (tail: string)
    requires ParseOne(rest, source) == Some(s)
    ensures rest == Word(s.kind) + ":" + s.target + ":" + tail
    ensures IsAgentName(s.target) && s.source == source && tail != "" && Trimmed(tail, s.reason)
  {
    hide IsAgentName, KindOf, Word, Trim, Trimmed, Find;
    var i := Find(rest, ":", 0).value;
    var behind := rest[i + 1..];
    NothingTrims();
    var j := Find(behind, ":", 0).value;
    tail := behind[j + 1..];
    TrimIff(tail, s.reason);
    KindIs(rest[..i], s.kind);
    ColonAt(rest, i);
    ColonAt(behind, j);
    SameJoin(Word(s.kind), s.target, tail);
  }

  lemma ColonAt(s: string, i: nat)
    requires Find(s, ":", 0) == Some(i)
    ensures i < |s| && s == s[..i] + ":" + s[i + 1..]
  {
    hide Find;
    assert s[i..i + 1] == ":";
  }

  lemma NothingTrims()
    ensures Trim("") == ""
  {
  }

  lemma SignalAtIff(line: string, at: nat, s: Signal, source: string)
    requires at <= |line|
    ensures SignalAt(line, at, source) == [s] <==> ReadsAt(line, at, s, source)
  {
    hide Form, ParseOne, TrimEnd;
    SameText(line, at, source);
    if SignalAt(line, at, source) == [s] {
      var tail, junk := ReadHasForm(line[at..], s, source);
    }
    if ReadsAt(line, at, s, source) {
      var tail, junk :| Form(line[at..], s, tail, junk);
      FormIsRead(line[at..], s, tail, junk);
    }
  }

  lemma SameText(line: string, at: nat, source: string)
    requires at <= |line|
    ensures SignalAt(line, at, source) == SignalAt(line[at..], 0, source)
  {
    assert line[at..][0..] == line[at..];
  }

  // ---------------------------------------------------------------- every mark of every line

  /** Marks do not overlap. */
  lemma MarksAreApart(line: string, p: nat, q: nat)
    requires OccursAt(line, MARK, p) && p < q < p + |MARK|
    ensures !OccursAt(line, MARK, q)
  {
    assert line[q] == line[p..p + |MARK|][q - p] != 's';
  }

  lemma MarkIsThere(line: string, at: nat, s: Signal, source: string)
    requires ReadsAt(line, at, s, source)
    ensures OccursAt(line, MARK, at)
  {
    hide AllAre, Trimmed, IsTrailer, Word;
    var tail, junk :| Form(line[at..], s, tail, junk);
    assert MARK <= line[at..];
    assert line[at..at + |MARK|] == line[at..][..|MARK|];
  }

  /** The m-th signal is read at `at[m]`, from left to right, and wherever one can be read from `lo` on, it is. */
  ghost predicate ReadFrom(line: string, lo: nat, source: string, signals: seq<Signal>, at: seq<nat>) {
    && |at| == |signals|
    && (forall m :: 0 <= m < |at| ==> at[m] >= lo && ReadsAt(line, at[m], signals[m], source))
    && (forall m, n :: 0 <= m < n < |at| ==> at[m] < at[n])
    && (forall p: nat, s :: p >= lo && ReadsAt(line, p, s, source) ==> p in at)
  }

  lemma ReadNowhere(line: string, lo: nat, source: string)
    requires Find(line, MARK, lo) == None
    ensures ReadFrom(line, lo, source, [], [])
  {
    hide ReadsAt, Find;
    forall p: nat, s | p >= lo ensures !ReadsAt(line, p, s, source) {
      if ReadsAt(line, p, s, source) {
        MarkIsThere(line, p, s, source);
      }
    }
  }

  /** Between two marks nothing is read. */
  lemma ReadNext(line: string, lo: nat, p: nat, source: string, q: nat, s: Signal)
    requires Find(line, MARK, lo) == Some(p) && q >= lo && ReadsAt(line, q, s, source)
    ensures q == p || q >= p + |MARK|
  {
    hide ReadsAt, Find;
    MarkIsThere(line, q, s, source);
    if p < q < p + |MARK| {
      MarksAreApart(line, p, q);
    }
  }

  lemma ReadBefore(line: string, lo: nat, p: nat, mid: nat, source: string, first: Signal, rest: seq<Signal>, at: seq<nat>)
    requires lo <= p < mid && ReadsAt(line, p, first, source) && ReadFrom(line, mid, source, rest, at)
    requires forall q: nat, s :: q >= lo && ReadsAt(line, q, s, source) ==> q == p || q >= mid
    ensures ReadFrom(line, lo, source, [first] + rest, [p] + at)
  {
    hide ReadsAt;
    var all, signals := [p] + at, [first] + rest;
    forall m | 0 <= m < |all| ensures all[m] >= lo && ReadsAt(line, all[m], signals[m], source) {
      assert m > 0 ==> all[m] == at[m - 1] && signals[m] == rest[m - 1];
    }
  }

  lemma ReadOneMore(line: string, lo: nat, p: nat, source: string, rest: seq<Signal>, at: seq<nat>)
    requires Find(line, MARK, lo) == Some(p) && ReadFrom(line, p + |MARK|, source, rest, at)
    ensures SignalAt(line, p, source) == [] ==> ReadFrom(line, lo, source, rest, at)
    ensures SignalAt(line, p, source) != [] ==> ReadFrom(line, lo, source, SignalAt(line, p, source) + rest, [p] + at)
  {
    OneMark(line, p, source);
    hide ReadsAt, SignalAt, Find, OccursAt;
    forall q: nat, s | q >= lo && ReadsAt(line, q, s, source) ensures q == p || q >= p + |MARK| {
      ReadNext(line, lo, p, source, q, s);
    }
    if SignalAt(line, p, source) != [] {
      assert SignalAt(line, p, source) == [SignalAt(line, p, source)[0]];
      ReadBefore(line, lo, p, p + |MARK|, source, SignalAt(line, p, source)[0], rest, at);
    }
  }

  lemma {:induction false} LineReads(line: string, lo: nat, source: string) returns (at: seq<nat>)
    ensures ReadFrom(line, lo, source, LineSignals(line, lo, source), at)
    decreases |line| - lo
  {
    hide ReadFrom, SignalAt, Find;
    match Find(line, MARK, lo)
    case None =>
      at := [];
      ReadNowhere(line, lo, source);
    case Some(p) =>
      at := LineReads(line, p + |MARK|, source);
      var rest := LineSignals(line, p + |MARK|, source);
      ReadOneMore(line, lo, p, source, rest, at);
      assert [] + rest == rest;
      at := if SignalAt(line, p, source) == [] then at else [p] + at;
  }

  lemma OneMark(line: string, p: nat, source: string)
    requires p <= |line|
    ensures |SignalAt(line, p, source)| <= 1
    ensures forall s :: SignalAt(line, p, source) == [s] <==> ReadsAt(line, p, s, source)
  {
    hide ReadsAt, ParseOne, TrimEnd;
    forall s ensures SignalAt(line, p, source) == [s] <==> ReadsAt(line, p, s, source) {
      SignalAtIff(line, p, s, source);
    }
  }

  /** The same over the lines of a text: the m-th signal is read in line `at[m].0`. */
  ghost predicate ReadFromLines(lines: seq<string>, source: string, signals: seq<Signal>, at: seq<(nat, nat)>) {
    && |at| == |signals|
    && (forall m :: 0 <= m < |at| ==> at[m].0 < |lines| && ReadsAt(lines[at[m].0], at[m].1, signals[m], source))
    && (forall m, n :: 0 <= m < n < |at| ==> Before(at[m], at[n]))
    && (forall i: nat, p: nat, s :: i < |lines| && ReadsAt(lines[i], p, s, source) ==> (i, p) in at)
  }

  predicate Before(x: (nat, nat), y: (nat, nat)) { x.0 < y.0 || (x.0 == y.0 && x.1 < y.1) }

  function OnLine(i: nat, at: seq<nat>): seq<(nat, nat)> {
    seq(|at|, m requires 0 <= m < |at| => (i, at[m]))
  }

  lemma LineMore(
    init: seq<string>, line: string, source: string, signals: seq<Signal>, at: seq<(nat, nat)>, here: seq<Signal>, places: seq<nat>)
    requires ReadFromLines(init, source, signals, at) && ReadFrom(line, 0, source, here, places)
    ensures ReadFromLines(init + [line], source, signals + here, at + OnLine(|init|, places))
  {
    hide ReadsAt;
    var n, lines, all, read := |init|, init + [line], at + OnLine(|init|, places), signals + here;
    forall m | 0 <= m < |all| ensures all[m].0 < |lines| && ReadsAt(lines[all[m].0], all[m].1, read[m], source) {
      assert if m < |at| then all[m] == at[m] && read[m] == signals[m] else all[m] == (n, places[m - |at|]) && read[m] == here[m - |at|];
    }
    OrderKept(at, n, places);
    forall i: nat, p: nat, s | i < |lines| && ReadsAt(lines[i], p, s, source) ensures (i, p) in all {
      if i < n {
        assert ReadsAt(init[i], p, s, source);
      } else {
        OnLineHolds(n, places, p);
      }
    }
  }

  lemma OrderKept(at: seq<(nat, nat)>, n: nat, places: seq<nat>)
    requires forall i, j :: 0 <= i < j < |at| ==> Before(at[i], at[j])
    requires forall i :: 0 <= i < |at| ==> at[i].0 < n
    requires forall i, j :: 0 <= i < j < |places| ==> places[i] < places[j]
    ensures var all := at + OnLine(n, places); forall i, j :: 0 <= i < j < |all| ==> Before(all[i], all[j])
  {
    var all := at + OnLine(n, places);
    forall i, j | 0 <= i < j < |all| ensures Before(all[i], all[j]) {
      assert all[i] == if i < |at| then at[i] else (n, places[i - |at|]);
      assert all[j] == if j < |at| then at[j] else (n, places[j - |at|]);
    }
  }

  lemma OnLineHolds(i: nat, at: seq<nat>, p: nat)
    requires p in at
    ensures (i, p) in OnLine(i, at)
  {
    var m :| 0 <= m < |at| && at[m] == p;
    assert OnLine(i, at)[m] == (i, p);
  }

  lemma {:induction false} LinesRead(lines: seq<string>, source: string) returns (at: seq<(nat, nat)>)
    ensures ReadFromLines(lines, source, LinesSignals(lines, source), at)
  {
    hide ReadFromLines, LineSignals, ReadFrom;
    if lines == [] {
      at := [];
      NothingRead(source);
    } else {
      var n := |lines| - 1;
      at := LinesRead(lines[..n], source);
      var places := LineReads(lines[n], 0, source);
      LineMore(lines[..n], lines[n], source, LinesSignals(lines[..n], source), at, LineSignals(lines[n], 0, source), places);
      assert lines == lines[..n] + [lines[n]];
      at := at + OnLine(n, places);
    }
  }

  lemma NothingRead(source: string)
    ensures ReadFromLines([], source, [], [])
  {
  }

  /** From any text exactly the signals are read that stand in one of its lines in the documented form, each
      where it stands and in the order of the text. */
  lemma ParsedIff(content: string, source: string) returns (at: seq<(nat, nat)>)
    ensures ReadFromLines(Lines(content), source, Parsed(content, source), at)
  {
    hide ReadFromLines, LinesSignals, Lines;
    at := LinesRead(Lines(content), source);
  }

  // ---------------------------------------------------------------- lines

  /** The lines with their ends put back. */
  function Rejoined(lines: seq<string>, ends: seq<string>): string
    requires |lines| == |ends|
  {
    if lines == [] then "" else lines[0] + ends[0] + Rejoined(lines[1..], ends[1..])
  }

  /** Line `i` holds no line feed and ends in one, with the carriage return before it if there is one, or it is
      the last and ends with the text. */
  ghost predicate EndsProperly(lines: seq<string>, ends: seq<string>, i: nat)
    requires i < |lines| == |ends|
  {
    '\n' !in lines[i] &&
    (ends[i] == "\r\n"
     || (ends[i] == "\n" && (lines[i] != "" ==> lines[i][|lines[i]| - 1] != '\r'))
     || (ends[i] == "" && i == |lines| - 1 && lines[i] != ""))
  }

  /** How the lines of `content` end. */
  ghost predicate EndWith(content: string, lines: seq<string>, ends: seq<string>) {
    && |ends| == |lines| && Rejoined(lines, ends) == content
    && forall i: nat :: i < |lines| ==> EndsProperly(lines, ends, i)
  }

  lemma LineBefore(line: string, rest: string, lines: seq<string>, ends: seq<string>)
    requires '\n' !in line && EndWith(rest, lines, ends)
    ensures var end := if line != "" && line[|line| - 1] == '\r' then "\r\n" else "\n";
            EndWith(line + "\n" + rest, [StripCarriageReturn(line)] + lines, [end] + ends)
  {
    var end := if line != "" && line[|line| - 1] == '\r' then "\r\n" else "\n";
    var all, more := [StripCarriageReturn(line)] + lines, [end] + ends;
    assert StripCarriageReturn(line) + end == line + "\n";
    assert all[1..] == lines && more[1..] == ends;
    forall k: nat | k < |all| ensures EndsProperly(all, more, k) {
      if k > 0 {
        assert EndsProperly(lines, ends, k - 1);
      }
    }
  }

  /** The lines of a text, put together again with their ends, are the text. */
  lemma {:induction false} LinesMeaning(content: string) returns (ends: seq<string>)
    ensures EndWith(content, Lines(content), ends)
    decreases |content|
  {
    hide Find, EndWith, StripCarriageReturn;
    if content == "" {
      ends := [];
      NoLinesEnd();
    } else {
      match Find(content, "\n", 0)
      case None =>
        ends := [""];
        NoFeed(content, |content|);
        assert content[..|content|] == content;
        LastLineEnds(content);
      case Some(i) =>
        NoFeed(content, i);
        var line, rest := content[..i], content[i + 1..];
        FeedAt(content, i);
        ends := LinesMeaning(rest);
        LineBefore(line, rest, Lines(rest), ends);
        ends := [if line != "" && line[|line| - 1] == '\r' then "\r\n" else "\n"] + ends;
    }
  }

  lemma NoLinesEnd()
    ensures EndWith("", [], [])
  {
  }

  lemma LastLineEnds(content: string)
    requires content != "" && '\n' !in content
    ensures EndWith(content, [content], [""])
  {
    assert [content][1..] == [] && [""][1..] == [];
    assert content + "" + "" == content;
  }

  lemma FeedAt(content: string, i: nat)
    requires OccursAt(content, "\n", i)
    ensures i < |content| && content == content[..i] + "\n" + content[i + 1..]
  {
    assert content[i..i + 1] == "\n";
  }

  lemma NoFeed(content: string, n: nat)
    requires n <= |content| && forall i: nat :: i < n ==> !OccursAt(content, "\n", i)
    ensures '\n' !in content[..n]
  {
    forall i: nat | i < n ensures content[i] != '\n' {
      assert !OccursAt(content, "\n", i);
      assert content[i..i + 1] == [content[i]];
    }
  }
}
