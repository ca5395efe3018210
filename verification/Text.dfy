/** Text operations the runtime takes from its standard library. */
module Text {
  import opened Wrappers

  /** Unicode White_Space. */
  predicate IsWhitespace(c: char) {
    var n := c as int;
    || 9 <= n <= 13 || n == 0x20 || n == 0x85 || n == 0xA0 || n == 0x1680 || 0x2000 <= n <= 0x200A
    || n == 0x2028 || n == 0x2029 || n == 0x202F || n == 0x205F || n == 0x3000
  }

  function TrimStart(s: string): string {
    if s != "" && IsWhitespace(s[0]) then TrimStart(s[1..]) else s
  }

  function TrimEnd(s: string, strip: char -> bool): string {
    if s != "" && strip(s[|s| - 1]) then TrimEnd(s[..|s| - 1], strip) else s
  }

  function Trim(s: string): (t: string)
    ensures t != "" ==> !IsWhitespace(t[0]) && !IsWhitespace(t[|t| - 1])
  {
    TrimmedEnds(TrimStart(s), IsWhitespace);
    TrimmedStart(s);
    TrimEnd(TrimStart(s), IsWhitespace)
  }

  lemma {:induction false} TrimmedEnds(s: string, strip: char -> bool)
    ensures TrimEnd(s, strip) <= s
    ensures TrimEnd(s, strip) != "" ==> !strip(TrimEnd(s, strip)[|TrimEnd(s, strip)| - 1])
  {
    if s != "" && strip(s[|s| - 1]) {
      TrimmedEnds(s[..|s| - 1], strip);
    }
  }

  lemma {:induction false} TrimmedStart(s: string)
    ensures TrimStart(s) != "" ==> !IsWhitespace(TrimStart(s)[0])
  {
    if s != "" && IsWhitespace(s[0]) {
      TrimmedStart(s[1..]);
    }
  }

  lemma TrimmedIsFixed(s: string)
    requires s != "" && !IsWhitespace(s[0]) && !IsWhitespace(s[|s| - 1])
    ensures Trim(s) == s
  {
  }

  ghost predicate AllAre(s: string, strip: char -> bool) {
    forall c :: c in s ==> strip(c)
  }

  lemma {:induction false} TrimEndIs(w: string, junk: string, strip: char -> bool)
    requires AllAre(junk, strip) && (w != "" ==> !strip(w[|w| - 1]))
    ensures TrimEnd(w + junk, strip) == w
    decreases |junk|
  {
    if junk == "" {
      assert w + junk == w;
    } else {
      TrimEndIs(w, junk[..|junk| - 1], strip);
      assert (w + junk)[..|w + junk| - 1] == w + junk[..|junk| - 1];
    }
  }

  lemma {:induction false} TrimEndLeaves(s: string, strip: char -> bool) returns (junk: string)
    ensures s == TrimEnd(s, strip) + junk && AllAre(junk, strip)
  {
    junk := "";
    if s != "" && strip(s[|s| - 1]) {
      var n := |s| - 1;
      junk := TrimEndLeaves(s[..n], strip);
      junk := junk + [s[n]];
    }
  }

  lemma {:induction false} TrimStartLeaves(s: string) returns (space: string)
    ensures s == space + TrimStart(s) && AllAre(space, IsWhitespace)
  {
    space := "";
    if s != "" && IsWhitespace(s[0]) {
      space := TrimStartLeaves(s[1..]);
      space := [s[0]] + space;
    }
  }

  lemma {:induction false} TrimStartIs(space: string, w: string)
    requires AllAre(space, IsWhitespace) && (w != "" ==> !IsWhitespace(w[0]))
    ensures TrimStart(space + w) == w
    decreases |space|
  {
    if space == "" {
      assert space + w == w;
    } else {
      TrimStartIs(space[1..], w);
      assert (space + w)[1..] == space[1..] + w;
    }
  }

  /** `r` is what stands in `s` between white space. */
  ghost predicate Trimmed(s: string, r: string) {
    && r != "" && !IsWhitespace(r[0]) && !IsWhitespace(r[|r| - 1])
    && exists before, behind :: s == before + r + behind && AllAre(before, IsWhitespace) && AllAre(behind, IsWhitespace)
  }

  lemma TrimIff(s: string, r: string)
    ensures Trim(s) == r != "" <==> Trimmed(s, r)
  {
    hide AllAre;
    if Trim(s) == r != "" {
      var before := TrimStartLeaves(s);
      var behind := TrimEndLeaves(TrimStart(s), IsWhitespace);
      assert s == before + (r + behind) == before + r + behind;
    }
    if Trimmed(s, r) {
      var before, behind :| s == before + r + behind && AllAre(before, IsWhitespace) && AllAre(behind, IsWhitespace);
      assert s == before + (r + behind);
      TrimStartIs(before, r + behind);
      TrimEndIs(r, behind, IsWhitespace);
    }
  }

  predicate OccursAt(s: string, pat: string, at: nat) {
    at + |pat| <= |s| && s[at..at + |pat|] == pat
  }

  predicate Contains(s: string, pat: string) {
    exists at: nat :: at <= |s| && OccursAt(s, pat, at)
  }

  /** First occurrence at or after `from`. */
  function Find(s: string, pat: string, from: nat): (r: Option<nat>)
    ensures r.Some? ==> from <= r.value && OccursAt(s, pat, r.value) && forall i: nat :: from <= i < r.value ==> !OccursAt(s, pat, i)
    ensures r.None? ==> forall i: nat :: from <= i ==> !OccursAt(s, pat, i)
    decreases |s| - from
  {
    if from + |pat| > |s| then None
    else if OccursAt(s, pat, from) then Some(from)
    else Find(s, pat, from + 1)
  }

  function StripCarriageReturn(s: string): string {
    if s != "" && s[|s| - 1] == '\r' then s[..|s| - 1] else s
  }

  /** Lines end at a line feed, with the carriage return before it; the last one may lack both. */
  function Lines(s: string): seq<string>
    decreases |s|
  {
    if s == "" then []
    else
      match Find(s, "\n", 0)
      case None => [s]
      case Some(i) => [StripCarriageReturn(s[..i])] + Lines(s[i + 1..])
  }

  predicate IsDigit(c: char) { '0' <= c <= '9' }

  function DigitValue(c: char): nat
    requires IsDigit(c)
  {
    c as int - '0' as int
  }

  function DigitChar(n: nat): char
    requires n < 10
  {
    ('0' as int + n) as char
  }

  function Decimal(n: nat): string {
    if n < 10 then [DigitChar(n)] else Decimal(n / 10) + [DigitChar(n % 10)]
  }

  predicate AllDigits(s: string) { forall i :: 0 <= i < |s| ==> IsDigit(s[i]) }

  function Number(s: string): nat
    requires AllDigits(s)
  {
    if s == "" then 0 else 10 * Number(s[..|s| - 1]) + DigitValue(s[|s| - 1])
  }

  lemma {:induction false} DecimalRoundTrip(n: nat)
    ensures Decimal(n) != "" && AllDigits(Decimal(n))
    ensures Number(Decimal(n)) == n
  {
    if n < 10 {
      assert Decimal(n)[..0] == "";
    } else {
      DecimalRoundTrip(n / 10);
      assert Decimal(n)[..|Decimal(n)| - 1] == Decimal(n / 10);
    }
  }
}
