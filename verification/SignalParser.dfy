/** Reading signals out of agent prose, and why the documented form always reads back. */
module SignalParser {
  import opened Wrappers
  import opened Text
  import opened Signals

  const MARK := "signal:"

  predicate IsTrailer(c: char) { c in "`'\",." }

  predicate IsNameChar(c: char) {
    'a' <= c <= 'z' || 'A' <= c <= 'Z' || '0' <= c <= '9' || c == '-' || c == '_'
  }

  predicate IsAgentName(s: string) {
    s != "" && forall i :: 0 <= i < |s| ==> IsNameChar(s[i])
  }

  function KindName(kind: SignalKind): string {
    match kind
    case Request => "request"
    case Skip => "skip"
    case Priority => "priority"
  }

  function KindOf(s: string): Option<SignalKind> {
    if s == "request" then Some(Request)
    else if s == "skip" then Some(Skip)
    else if s == "priority" then Some(Priority)
    else None
  }

  /** The text after the mark: kind, target and reason, split at the first two colons. */
  function ParseOne(rest: string, source: string): Option<Signal> {
    match Find(rest, ":", 0)
    case None => None
    case Some(i) =>
      var tail := rest[i + 1..];
      var j := Find(tail, ":", 0);
      var target := if j.Some? then tail[..j.value] else tail;
      var reason := Trim(if j.Some? then tail[j.value + 1..] else "");
      var kind := KindOf(rest[..i]);
      if kind.Some? && IsAgentName(target) && reason != "" then Some(Signal(kind.value, target, reason, source))
      else None
  }

  /** The signal at a mark, up to the end of the line without its trailing quotes and punctuation. */
  function SignalAt(line: string, at: nat, source: string): seq<Signal>
    requires at <= |line|
  {
    var raw := TrimEnd(line[at..], IsTrailer);
    if MARK <= raw then
      match ParseOne(raw[|MARK|..], source)
      case Some(sig) => [sig]
      case None => []
    else []
  }

  function LineSignals(line: string, from: nat, source: string): seq<Signal>
    decreases |line| - from
  {
    match Find(line, MARK, from)
    case None => []
    case Some(at) => SignalAt(line, at, source) + LineSignals(line, at + |MARK|, source)
  }

  function LinesSignals(lines: seq<string>, source: string): seq<Signal> {
    if lines == [] then [] else LinesSignals(lines[..|lines| - 1], source) + LineSignals(lines[|lines| - 1], 0, source)
  }

  function Parsed(content: string, source: string): seq<Signal> {
    LinesSignals(Lines(content), source)
  }

  method ParseSignals(content: string, source: string) returns (signals: seq<Signal>)
    ensures signals == Parsed(content, source)
  {
    hide SignalAt, Find, Lines;
    signals := [];
    var lines := Lines(content);
    for i := 0 to |lines|
      invariant signals == LinesSignals(lines[..i], source)
    {
      var line := lines[i];
      ghost var before := signals;
      var searchFrom := 0;
      var pos := Find(line, MARK, searchFrom);
      while pos.Some?
        invariant pos == Find(line, MARK, searchFrom)
        invariant signals + LineSignals(line, searchFrom, source) == before + LineSignals(line, 0, source)
        decreases |line| - searchFrom
      {
        signals := signals + SignalAt(line, pos.value, source);
        searchFrom := pos.value + |MARK|;
        pos := Find(line, MARK, searchFrom);
      }
      assert lines[..i + 1][..i] == lines[..i];
    }
    assert lines[..|lines|] == lines;
  }

  // ---------------------------------------------------------------- what comes out is valid

  ghost predicate Valid(s: Signal, source: string) {
    && IsAgentName(s.target) && s.source == source
    && s.reason != "" && !IsWhitespace(s.reason[0]) && !IsWhitespace(s.reason[|s.reason| - 1])
  }

  lemma SignalAtValid(line: string, at: nat, source: string)
    requires at <= |line|
    ensures forall s :: s in SignalAt(line, at, source) ==> Valid(s, source)
  {
    hide Find, TrimEnd, Trim;
    var raw := TrimEnd(line[at..], IsTrailer);
    if MARK <= raw {
      var parsed := ParseOne(raw[|MARK|..], source);
      assert parsed.Some? ==> Valid(parsed.value, source);
    }
  }

  lemma {:induction false} LineSignalsValid(line: string, from: nat, source: string)
    ensures forall s :: s in LineSignals(line, from, source) ==> Valid(s, source)
    decreases |line| - from
  {
    hide SignalAt, Valid, Find;
    match Find(line, MARK, from)
    case None =>
    case Some(at) =>
      SignalAtValid(line, at, source);
      LineSignalsValid(line, at + |MARK|, source);
  }

  lemma {:induction false} LinesSignalsValid(lines: seq<string>, source: string)
    ensures forall s :: s in LinesSignals(lines, source) ==> Valid(s, source)
  {
    if lines != [] {
      LinesSignalsValid(lines[..|lines| - 1], source);
      LineSignalsValid(lines[|lines| - 1], 0, source);
    }
  }

  /** Whatever an agent writes, every signal read from it has a well-formed target, a trimmed non-empty
      reason and the agent as its source. */
  lemma ParsedValid(content: string, source: string)
    ensures forall s :: s in Parsed(content, source) ==> Valid(s, source)
  {
    LinesSignalsValid(Lines(content), source);
  }

  // ---------------------------------------------------------------- the documented form

  function Print(s: Signal): string {
    MARK + KindName(s.kind) + ":" + s.target + ":" + s.reason
  }

  /** One signal a line. */
  function PrintAll(signals: seq<Signal>): string {
    if signals == [] then "" else Print(signals[0]) + "\n" + PrintAll(signals[1..])
  }

  predicate EndsInSignal(s: string) {
    |s| >= 6 && s[|s| - 6..] == "signal"
  }

  /** A valid signal whose line has no second mark and loses nothing to trimming. */
  ghost predicate Printable(s: Signal, source: string) {
    && Valid(s, source)
    && '\n' !in s.reason
    && !IsTrailer(s.reason[|s.reason| - 1])
    && !Contains(s.reason, MARK)
    && !EndsInSignal(s.target)
  }

  lemma FindColon(head: string, tail: string)
    requires ':' !in head
    ensures Find(head + ":" + tail, ":", 0) == Some(|head|)
  {
    var s := head + ":" + tail;
    assert OccursAt(s, ":", |head|);
    forall i: nat | i < |head| ensures !OccursAt(s, ":", i) {
      assert s[i..i + 1] == [head[i]];
    }
  }

  lemma PlainParts(s: Signal, source: string)
    requires Printable(s, source)
    ensures ':' !in KindName(s.kind) && ':' !in s.target
    ensures '\n' !in Print(s)
  {
    hide Contains, EndsInSignal;
    assert forall c :: c in s.target ==> IsNameChar(c);
    assert forall c :: c in KindName(s.kind) ==> 'a' <= c <= 'z';
    assert forall c :: c in MARK ==> c == ':' || 'a' <= c <= 'z';
    assert forall c :: c in Print(s) ==> c in MARK || c in KindName(s.kind) || c == ':' || c in s.target || c in s.reason;
  }

  lemma SplitAtColon(head: string, tail: string)
    requires ':' !in head
    ensures var s := head + ":" + tail; Find(s, ":", 0) == Some(|head|) && s[..|head|] == head && s[|head| + 1..] == tail
  {
    hide Find;
    FindColon(head, tail);
  }

  lemma PartsParse(kind: string, rest: string, s: Signal)
    requires KindOf(kind) == Some(s.kind) && ':' !in kind && ':' !in s.target
    requires IsAgentName(s.target) && s.reason != "" && Trim(rest) == s.reason
    ensures ParseOne(kind + ":" + s.target + ":" + rest, s.source) == Some(s)
  {
    hide Find, Trim, IsAgentName, KindOf;
    var tail := s.target + ":" + rest;
    SplitAtColon(kind, tail);
    SplitAtColon(s.target, rest);
    SameJoin(kind, s.target, rest);
  }

  lemma SameJoin(a: string, b: string, c: string)
    ensures a + ":" + b + ":" + c == a + ":" + (b + ":" + c)
  {
  }

  lemma PrintedParts(s: Signal, source: string)
    requires Printable(s, source)
    ensures ParseOne(Print(s)[|MARK|..], source) == Some(s)
  {
    hide ParseOne, Find, Trim, Contains, EndsInSignal;
    PlainParts(s, source);
    TrimmedIsFixed(s.reason);
    PartsParse(KindName(s.kind), s.reason, s);
    assert Print(s)[|MARK|..] == KindName(s.kind) + ":" + s.target + ":" + s.reason;
  }

  /** No second mark: its colon would have to be one of the line's own, and what precedes those is not
      the rest of a mark. */
  lemma SingleMark(s: Signal, source: string, at: nat)
    requires Printable(s, source) && at >= |MARK|
    ensures !OccursAt(Print(s), MARK, at)
  {
    hide Valid;
    var a := |MARK| + |KindName(s.kind)|;
    var b := a + 1 + |s.target|;
    if at + |MARK| <= |Print(s)| {
      if at <= b {
        NoMarkAcross(s, source, at, a, b);
      } else {
        assert Print(s)[at..at + |MARK|] == s.reason[at - b - 1..at - b - 1 + |MARK|];
        assert !OccursAt(s.reason, MARK, at - b - 1);
      }
    }
  }

  lemma NoMarkAcross(s: Signal, source: string, at: nat, a: nat, b: nat)
    requires Printable(s, source) && a == |MARK| + |KindName(s.kind)| && b == a + 1 + |s.target|
    requires |MARK| <= at <= b && at + |MARK| <= |Print(s)|
    ensures Print(s)[at..at + |MARK|] != MARK
  {
    hide Valid, Contains;
    var line := Print(s);
    var w := line[at..at + |MARK|];
    PlainParts(s, source);
    assert line[a] == ':' && line[b] == ':' && line[a - 1] == KindName(s.kind)[|KindName(s.kind)| - 1];
    if at + 6 < a {
      assert w[6] == KindName(s.kind)[at + 6 - |MARK|];
    } else if at + 6 == a {
      assert w[5] != MARK[5];
    } else if at <= a {
      assert w[a - at] != MARK[a - at];
    } else if at + 6 < b {
      assert w[6] == s.target[at + 6 - a - 1];
    } else if at + 6 == b {
      assert w[..6] == s.target[|s.target| - 6..];
      assert w[..6] != MARK[..6];
    } else {
      assert w[b - at] != MARK[b - at];
    }
  }

  lemma PrintedLine(s: Signal, source: string)
    requires Printable(s, source)
    ensures LineSignals(Print(s), 0, source) == [s]
  {
    hide ParseOne, Contains;
    var line := Print(s);
    PrintedParts(s, source);
    assert OccursAt(line, MARK, 0);
    assert line[0..] == line && line[|line| - 1] == s.reason[|s.reason| - 1];
    assert SignalAt(line, 0, source) == [s];
    forall at: nat | at >= |MARK| ensures !OccursAt(line, MARK, at) {
      SingleMark(s, source, at);
    }
    assert Find(line, MARK, |MARK|) == None;
  }

  lemma FirstLine(line: string, rest: string)
    requires '\n' !in line && (line == "" || line[|line| - 1] != '\r')
    ensures Lines(line + "\n" + rest) == [line] + Lines(rest)
  {
    var s := line + "\n" + rest;
    assert OccursAt(s, "\n", |line|);
    forall i: nat | i < |line| ensures !OccursAt(s, "\n", i) {
      assert s[i..i + 1] == [line[i]];
    }
    assert s[..|line|] == line && s[|line| + 1..] == rest;
  }

  lemma SignalsLast(lines: seq<string>, line: string, source: string)
    ensures LinesSignals(lines + [line], source) == LinesSignals(lines, source) + LineSignals(line, 0, source)
  {
    hide LineSignals;
    assert (lines + [line])[..|lines|] == lines;
  }

  lemma Associate(a: seq<Signal>, b: seq<Signal>, c: seq<Signal>)
    ensures a + b + c == a + (b + c)
  {
  }

  lemma {:induction false} FirstLineSignals(line: string, lines: seq<string>, source: string)
    ensures LinesSignals([line] + lines, source) == LineSignals(line, 0, source) + LinesSignals(lines, source)
  {
    hide LinesSignals, LineSignals;
    if lines == [] {
      SignalsLast([], line, source);
      NoLines(source);
      assert [line] + lines == [] + [line];
    } else {
      var init, last := lines[..|lines| - 1], lines[|lines| - 1];
      FirstLineSignals(line, init, source);
      SignalsLast([line] + init, last, source);
      SignalsLast(init, last, source);
      assert [line] + lines == [line] + init + [last] && lines == init + [last];
      Associate(LineSignals(line, 0, source), LinesSignals(init, source), LineSignals(last, 0, source));
    }
  }

  lemma NoLines(source: string)
    ensures LinesSignals([], source) == []
  {
  }

  /** Printing any list of printable signals one a line and parsing it gives the list back. */
  lemma {:induction false} PrintThenParse(signals: seq<Signal>, source: string)
    requires forall s :: s in signals ==> Printable(s, source)
    ensures Parsed(PrintAll(signals), source) == signals
  {
    if signals != [] {
      var s := signals[0];
      PrintThenParse(signals[1..], source);
      PlainParts(s, source);
      assert Print(s)[|Print(s)| - 1] == s.reason[|s.reason| - 1];
      FirstLine(Print(s), PrintAll(signals[1..]));
      FirstLineSignals(Print(s), Lines(PrintAll(signals[1..])), source);
      PrintedLine(s, source);
    }
  }
}
