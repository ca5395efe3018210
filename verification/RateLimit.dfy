/** The in-memory rate limiter: one token bucket per key. Time and tokens are real numbers. */
module RateLimit {
  import opened Wrappers

  datatype Bucket = Bucket(tokens: real, lastRefill: real)

  type Buckets = map<string, Bucket>

  /** A request of a key at a time. */
  datatype Request = Request(key: string, now: real)

  /** The limit is at least one request a minute. */
  function MaxTokens(perMinute: nat): real { (if perMinute < 1 then 1 else perMinute) as real }

  function Rate(max: real): real { max / 60.0 }

  /** What the rate puts back in that time. */
  function Earned(max: real, seconds: real): real { seconds * Rate(max) }

  function Least(x: real, y: real): real { if x <= y then x else y }

  /** Time since the last refill; a clock read before it counts as no time. */
  function Elapsed(b: Bucket, now: real): real {
    if now >= b.lastRefill then now - b.lastRefill else 0.0
  }

  function Refilled(b: Bucket, max: real, now: real): Bucket {
    Bucket(Least(b.tokens + Earned(max, Elapsed(b, now)), max), now)
  }

  /** The bucket after a request, and how long to wait if it is denied. */
  function Take(b: Bucket, max: real, now: real): (Bucket, Option<real>)
    requires max >= 1.0
  {
    var r := Refilled(b, max, now);
    if r.tokens >= 1.0 then (r.(tokens := r.tokens - 1.0), None) else (r, Some((1.0 - r.tokens) / Rate(max)))
  }

  function BucketOf(buckets: Buckets, max: real, r: Request): Bucket {
    if r.key in buckets then buckets[r.key] else Bucket(max, r.now)
  }

  function After(buckets: Buckets, max: real, r: Request): (Buckets, Option<real>)
    requires max >= 1.0
  {
    var (b, wait) := Take(BucketOf(buckets, max, r), max, r.now);
    (buckets[r.key := b], wait)
  }

  /** The buckets after a run of requests, and the answers. */
  function Run(max: real, requests: seq<Request>): (Buckets, seq<Option<real>>)
    requires max >= 1.0
  {
    if requests == [] then (map[], [])
    else
      var (buckets, answers) := Run(max, requests[..|requests| - 1]);
      var (next, wait) := After(buckets, max, requests[|requests| - 1]);
      (next, answers + [wait])
  }

  // ---------------------------------------------------------------- the limiter in place

  class RateLimiter {
    const max: real
    var buckets: Buckets

    constructor (perMinute: nat)
      ensures max == MaxTokens(perMinute) && max >= 1.0 && buckets == map[]
    {
      max := MaxTokens(perMinute);
      buckets := map[];
    }

    method Check(key: string, now: real) returns (wait: Option<real>)
      requires max >= 1.0
      modifies this`buckets
      ensures (buckets, wait) == After(old(buckets), max, Request(key, now))
    {
      var bucket := if key in buckets then buckets[key] else Bucket(max, now);
      var elapsed := Elapsed(bucket, now);
      bucket := Bucket(Least(bucket.tokens + Earned(max, elapsed), max), now);
      if bucket.tokens >= 1.0 {
        bucket := bucket.(tokens := bucket.tokens - 1.0);
        buckets := buckets[key := bucket];
        return None;
      }
      buckets := buckets[key := bucket];
      var deficit := 1.0 - bucket.tokens;
      return Some(deficit / Rate(max));
    }

    /** A run of requests. */
    method Serve(requests: seq<Request>) returns (answers: seq<Option<real>>)
      requires max >= 1.0 && buckets == map[]
      modifies this`buckets
      ensures (buckets, answers) == Run(max, requests)
    {
      answers := [];
      for i := 0 to |requests|
        invariant (buckets, answers) == Run(max, requests[..i])
      {
        assert requests[..i + 1][..i] == requests[..i];
        var wait := Check(requests[i].key, requests[i].now);
        answers := answers + [wait];
      }
      assert requests[..|requests|] == requests;
    }
  }

  // ---------------------------------------------------------------- how many requests a window admits

  /** Requests of the key admitted among those from `lo` on. */
  function Admitted(max: real, requests: seq<Request>, key: string, lo: nat): nat
    requires max >= 1.0
  {
    if |requests| <= lo then 0
    else
      var n := |requests| - 1;
      Admitted(max, requests[..n], key, lo) +
      if requests[n].key == key && After(Run(max, requests[..n]).0, max, requests[n]).1 == None then 1 else 0
  }

  ghost predicate ValidBucket(b: Bucket, max: real) { 0.0 <= b.tokens <= max }

  lemma TakeKeepsValid(b: Bucket, max: real, now: real)
    requires max >= 1.0 && ValidBucket(b, max)
    ensures ValidBucket(Take(b, max, now).0, max)
  {
    EarnedSplits(max, 0.0, 0.0, Elapsed(b, now));
  }

  lemma {:induction false} BucketsAreValid(max: real, requests: seq<Request>)
    requires max >= 1.0
    ensures forall key :: key in Run(max, requests).0 ==> ValidBucket(Run(max, requests).0[key], max)
  {
    if requests != [] {
      var n := |requests| - 1;
      BucketsAreValid(max, requests[..n]);
      TakeKeepsValid(BucketOf(Run(max, requests[..n]).0, max, requests[n]), max, requests[n].now);
      hide Take, ValidBucket;
      assert ValidBucket(Bucket(max, requests[n].now), max) by { FullIsValid(max, requests[n].now); }
    }
  }

  lemma FullIsValid(max: real, now: real)
    requires max >= 1.0
    ensures ValidBucket(Bucket(max, now), max)
  {
  }

  /** A token is only ever spent on an admitted request, and they come back at the rate. */
  lemma TakeSpends(b: Bucket, max: real, now: real)
    requires max >= 1.0 && ValidBucket(b, max)
    ensures var (c, wait) := Take(b, max, now);
            && c.lastRefill == now
            && c.tokens + (if wait == None then 1.0 else 0.0) <= b.tokens + Earned(max, Elapsed(b, now))
            && c.tokens + (if wait == None then 1.0 else 0.0) <= max
  {
    hide Earned, Elapsed;
  }

  lemma EarnedSplits(max: real, a: real, b: real, c: real)
    requires max >= 1.0 && a <= b <= c
    ensures Earned(max, c - a) == Earned(max, b - a) + Earned(max, c - b)
    ensures Earned(max, c - a) >= 0.0
  {
    var r := Rate(max);
    assert r >= 0.0;
    hide Rate;
    NonNegative(c - a, r);
    assert (c - a) * r == (b - a) * r + (c - b) * r;
  }

  lemma NonNegative(x: real, y: real)
    requires x >= 0.0 && y >= 0.0
    ensures x * y >= 0.0
  {
  }

  /** Time the key's bucket has counted as passed in the window since its first admission there. */
  function Forward(max: real, requests: seq<Request>, key: string, lo: nat): real
    requires max >= 1.0
  {
    if |requests| <= lo then 0.0
    else
      var n := |requests| - 1;
      Forward(max, requests[..n], key, lo) +
      if requests[n].key == key && Admitted(max, requests[..n], key, lo) > 0
      then Elapsed(BucketOf(Run(max, requests[..n]).0, max, requests[n]), requests[n].now)
      else 0.0
  }

  /** What the key's bucket still allows once `count` requests of the window are admitted. */
  ghost predicate Spent(b: Bucket, max: real, forward: real, count: nat) {
    if count == 0 then forward == 0.0
    else forward >= 0.0 && count as real + b.tokens <= max + Earned(max, forward)
  }

  lemma TakeKeepsSpent(b: Bucket, max: real, forward: real, now: real, count: nat)
    requires max >= 1.0 && ValidBucket(b, max) && Spent(b, max, forward, count)
    ensures var (c, wait) := Take(b, max, now);
            Spent(c, max, if count > 0 then forward + Elapsed(b, now) else forward, if wait == None then count + 1 else count)
  {
    TakeSpends(b, max, now);
    assert Elapsed(b, now) >= 0.0;
    hide Take, Earned, ValidBucket, Elapsed;
    EarnedSplits(max, 0.0, 0.0, forward);
    EarnedSplits(max, 0.0, forward, forward + Elapsed(b, now));
  }

  lemma {:induction false} SpentInWindow(max: real, requests: seq<Request>, key: string, lo: nat)
    requires max >= 1.0 && lo <= |requests|
    ensures var count, forward := Admitted(max, requests, key, lo), Forward(max, requests, key, lo);
            if key in Run(max, requests).0 then Spent(Run(max, requests).0[key], max, forward, count)
            else count == 0 && forward == 0.0
  {
    hide Take, ValidBucket, Spent, Run, Earned, Elapsed;
    if lo < |requests| {
      var n := |requests| - 1;
      var before := requests[..n];
      var buckets := Run(max, before).0;
      BucketsAreValid(max, before);
      FullIsValid(max, requests[n].now);
      SpentInWindow(max, before, key, lo);
      RunLast(max, requests);
      if requests[n].key == key {
        var b := BucketOf(buckets, max, requests[n]);
        NothingSpent(b, max);
        TakeKeepsSpent(b, max, Forward(max, before, key, lo), requests[n].now, Admitted(max, before, key, lo));
      }
    } else if key in Run(max, requests).0 {
      NothingSpent(Run(max, requests).0[key], max);
    }
  }

  lemma RunLast(max: real, requests: seq<Request>)
    requires max >= 1.0 && requests != []
    ensures var n := |requests| - 1;
            var (next, wait) := After(Run(max, requests[..n]).0, max, requests[n]);
            Run(max, requests) == (next, Run(max, requests[..n]).1 + [wait])
  {
  }

  lemma NothingSpent(b: Bucket, max: real)
    ensures Spent(b, max, 0.0, 0)
  {
  }

  /** Over any window of any run, whatever the clock readings and whatever other requests there are, a key is
      admitted at most as often as the bucket is big plus what the rate puts back in the time its own bucket
      counts as passed. */
  lemma WindowBound(max: real, requests: seq<Request>, key: string, lo: nat)
    requires max >= 1.0 && lo <= |requests|
    ensures Forward(max, requests, key, lo) >= 0.0
    ensures Admitted(max, requests, key, lo) as real <= max + Earned(max, Forward(max, requests, key, lo))
  {
    SpentInWindow(max, requests, key, lo);
    BucketsAreValid(max, requests);
    hide Run, Admitted, Earned, Forward;
    EarnedSplits(max, 0.0, 0.0, 0.0);
    if Admitted(max, requests, key, lo) > 0 {
      assert ValidBucket(Run(max, requests).0[key], max);
    } else {
      NothingEarned(max);
    }
  }

  lemma NothingEarned(max: real)
    ensures Earned(max, 0.0) == 0.0
  {
  }

  /** The key's own requests from `lo` on read the clock in order; those of other keys need not. */
  ghost predicate KeyInOrder(requests: seq<Request>, key: string, lo: nat) {
    forall i, j :: lo <= i < j < |requests| && requests[i].key == key && requests[j].key == key ==> requests[i].now <= requests[j].now
  }

  /** The key's own requests from `lo` on read times in [from, to]. */
  ghost predicate KeyWithin(requests: seq<Request>, key: string, lo: nat, from: real, to: real) {
    forall i :: lo <= i < |requests| && requests[i].key == key ==> from <= requests[i].now <= to
  }

  lemma {:induction false} ForwardInOrder(max: real, requests: seq<Request>, key: string, lo: nat, from: real, to: real)
    returns (last: nat)
    requires max >= 1.0 && lo <= |requests| && KeyInOrder(requests, key, lo) && KeyWithin(requests, key, lo, from, to)
    ensures if Admitted(max, requests, key, lo) == 0 then Forward(max, requests, key, lo) == 0.0
            else && lo <= last < |requests| && requests[last].key == key
                 && key in Run(max, requests).0 && Run(max, requests).0[key].lastRefill == requests[last].now
                 && Forward(max, requests, key, lo) <= requests[last].now - from
  {
    last := 0;
    if lo < |requests| {
      hide Take, Run;
      var n := |requests| - 1;
      last := ForwardInOrder(max, requests[..n], key, lo, from, to);
      RunLast(max, requests);
      if requests[n].key == key {
        TakeSetsClock(BucketOf(Run(max, requests[..n]).0, max, requests[n]), max, requests[n].now);
        last := n;
      }
    }
  }

  lemma TakeSetsClock(b: Bucket, max: real, now: real)
    requires max >= 1.0
    ensures Take(b, max, now).0.lastRefill == now
  {
  }

  /** So when the key's own requests come in clock order within `to - from` seconds, that time is the bound. */
  lemma OrderedWindowBound(max: real, requests: seq<Request>, key: string, lo: nat, from: real, to: real)
    requires max >= 1.0 && lo <= |requests| && from <= to
    requires KeyInOrder(requests, key, lo) && KeyWithin(requests, key, lo, from, to)
    ensures Forward(max, requests, key, lo) <= to - from
    ensures Admitted(max, requests, key, lo) as real <= max + Earned(max, to - from)
  {
    var last := ForwardInOrder(max, requests, key, lo, from, to);
    WindowBound(max, requests, key, lo);
    hide Run, Admitted, Forward, Earned;
    EarnedSplits(max, 0.0, Forward(max, requests, key, lo), to - from);
    EarnedSplits(max, Forward(max, requests, key, lo), Forward(max, requests, key, lo), to - from);
  }

  /** The clock is read before the bucket is locked, so nothing enforces that order. A request that comes late
      with an old reading turns the bucket's clock back, and the same minute is counted, and earned, twice. */
  lemma OldReadingEarnsTwice() returns (requests: seq<Request>)
    ensures |requests| == 4 && KeyWithin(requests, "k", 0, 0.0, 60.0) && !KeyInOrder(requests, "k", 0)
    ensures Forward(1.0, requests, "k", 0) == 120.0
    ensures Admitted(1.0, requests, "k", 0) as real > 1.0 + Earned(1.0, 60.0)
  {
    TakeThrice();
    Earned60();
    RunNone();
    hide Take, Run, Admitted, Earned, Forward;
    var one, two, three := [Request("k", 0.0)], [Request("k", 0.0), Request("k", 60.0)], [Request("k", 0.0), Request("k", 60.0), Request("k", 0.0)];
    requests := three + [Request("k", 60.0)];
    assert requests[1].now > requests[2].now;
    assert one == [] + [Request("k", 0.0)] && two == one + [Request("k", 60.0)] && three == two + [Request("k", 0.0)];
    OnlyKey([], Bucket(1.0, 0.0), 0.0);
    OnlyKey(one, Bucket(0.0, 0.0), 60.0);
    OnlyKey(two, Bucket(0.0, 60.0), 0.0);
    OnlyKey(three, Bucket(0.0, 0.0), 60.0);
  }

  lemma TakeThrice()
    ensures Take(Bucket(1.0, 0.0), 1.0, 0.0) == (Bucket(0.0, 0.0), None)
    ensures Take(Bucket(0.0, 0.0), 1.0, 60.0) == (Bucket(0.0, 60.0), None)
    ensures Take(Bucket(0.0, 60.0), 1.0, 0.0).0 == Bucket(0.0, 0.0) && Take(Bucket(0.0, 60.0), 1.0, 0.0).1.Some?
  {
    Earned60();
    hide Earned, Rate;
  }

  lemma Earned60()
    ensures Earned(1.0, 60.0) == 1.0 && Earned(1.0, 0.0) == 0.0
  {
  }

  lemma RunNone()
    ensures Run(1.0, []).0 == map[] && Admitted(1.0, [], "k", 0) == 0 && Forward(1.0, [], "k", 0) == 0.0
  {
  }

  lemma OnlyKey(requests: seq<Request>, b: Bucket, now: real)
    requires Run(1.0, requests).0 == (if requests == [] then map[] else map["k" := b]) && (requests == [] ==> b == Bucket(1.0, now))
    ensures var (c, wait) := Take(b, 1.0, now);
            && Run(1.0, requests + [Request("k", now)]).0 == map["k" := c]
            && Admitted(1.0, requests + [Request("k", now)], "k", 0) == Admitted(1.0, requests, "k", 0) + (if wait == None then 1 else 0)
            && Forward(1.0, requests + [Request("k", now)], "k", 0) ==
               Forward(1.0, requests, "k", 0) + if Admitted(1.0, requests, "k", 0) > 0 then Elapsed(b, now) else 0.0
  {
    var all := requests + [Request("k", now)];
    assert all[..|requests|] == requests;
    RunLast(1.0, all);
    hide Take, Run;
  }

  // ---------------------------------------------------------------- denied requests

  /** A denied request at `t` is not noticed later: the three readings are in order, or in the opposite order, or
      the bucket would be full by then anyhow. */
  ghost predicate NoTrace(b: Bucket, max: real, t: real, later: real) {
    || b.lastRefill <= t <= later
    || later <= t <= b.lastRefill
    || b.tokens + Earned(max, Elapsed(b, later)) >= max
  }

  lemma EarnedGrows(max: real, x: real, y: real)
    requires max >= 1.0
    ensures 0.0 <= x <= y ==> 0.0 <= Earned(max, x) <= Earned(max, y)
    ensures 0.0 <= x < y ==> Earned(max, x) < Earned(max, y)
  {
    var r := Rate(max);
    assert r > 0.0;
    hide Rate;
    if 0.0 <= x <= y {
      NonNegative(x, r);
      NonNegative(y - x, r);
      assert y * r == x * r + (y - x) * r;
      if x < y {
        assert (y - x) * r > 0.0;
      }
    }
  }

  /** A denied request changes nothing for a later one, neither refill nor answer, if and only if it leaves no
      trace; so it never does when the clock readings are in order. */
  lemma DeniedLeavesNoTrace(b: Bucket, max: real, t: real, later: real)
    requires max >= 1.0 && ValidBucket(b, max) && Take(b, max, t).1.Some?
    ensures Refilled(Take(b, max, t).0, max, later) == Refilled(b, max, later) <==> NoTrace(b, max, t, later)
    ensures Take(Take(b, max, t).0, max, later) == Take(b, max, later) <==> NoTrace(b, max, t, later)
  {
    RefilledTwice(b, max, t, later);
    SameRefill(Take(b, max, t).0, b, max, later);
  }

  lemma RefilledTwice(b: Bucket, max: real, t: real, later: real)
    requires max >= 1.0 && ValidBucket(b, max) && Take(b, max, t).1.Some?
    ensures Refilled(Take(b, max, t).0, max, later) == Refilled(b, max, later) <==> NoTrace(b, max, t, later)
    ensures Refilled(Take(b, max, t).0, max, later).tokens >= Refilled(b, max, later).tokens
  {
    NothingEarned(max);
    var c := Take(b, max, t).0;
    assert c == Bucket(b.tokens + Earned(max, Elapsed(b, t)), t);
    EarnedGrows(max, 0.0, Elapsed(b, t));
    EarnedGrows(max, 0.0, Elapsed(c, later));
    EarnedGrows(max, Elapsed(b, later), Elapsed(c, later));
    EarnedGrows(max, 0.0, Elapsed(b, later));
    if b.lastRefill <= t <= later {
      EarnedSplits(max, b.lastRefill, t, later);
    } else if b.lastRefill <= later <= t {
      EarnedGrows(max, Elapsed(b, later), Elapsed(b, t));
    }
    hide Earned;
  }

  /** A request answers by the refilled bucket alone. */
  lemma SameRefill(c: Bucket, d: Bucket, max: real, t: real)
    requires max >= 1.0
    ensures Take(c, max, t) == Take(d, max, t) <==> Refilled(c, max, t) == Refilled(d, max, t)
  {
    hide Refilled;
    var x, y := Refilled(c, max, t), Refilled(d, max, t);
    SameClock(c, d, max, t);
    if Take(c, max, t) == Take(d, max, t) {
      assert x.tokens == y.tokens;
    }
  }

  lemma SameClock(c: Bucket, d: Bucket, max: real, t: real)
    ensures Refilled(c, max, t).lastRefill == Refilled(d, max, t).lastRefill == t
  {
  }

  /** Out of order it is noticed: a request denied on its own is admitted after a denied one with an old reading. */
  lemma OldPollIsNoticed() returns (b: Bucket, t: real, later: real)
    ensures ValidBucket(b, 1.0) && Take(b, 1.0, t).1.Some?
    ensures Take(b, 1.0, later).1.Some? && Take(Take(b, 1.0, t).0, 1.0, later).1 == None
  {
    b, t, later := Bucket(0.0, 60.0), 0.0, 60.0;
    TakeThrice();
    DeniedAtOnce();
  }

  lemma DeniedAtOnce()
    ensures Take(Bucket(0.0, 60.0), 1.0, 60.0).1.Some?
  {
    Earned60();
    hide Earned, Rate;
  }

  /** The bucket and answers of one key's requests at these times. */
  function Polls(b: Bucket, max: real, times: seq<real>): (Bucket, seq<Option<real>>)
    requires max >= 1.0
  {
    if times == [] then (b, [])
    else
      var (c, answers) := Polls(b, max, times[..|times| - 1]);
      var (d, wait) := Take(c, max, times[|times| - 1]);
      (d, answers + [wait])
  }

  ghost predicate Ordered(from: real, times: seq<real>) {
    && (forall i :: 0 <= i < |times| ==> from <= times[i])
    && (forall i, j :: 0 <= i < j < |times| ==> times[i] <= times[j])
  }

  /** The times at which the request was admitted. */
  function Admissions(b: Bucket, max: real, times: seq<real>): seq<real>
    requires max >= 1.0
  {
    if times == [] then []
    else
      var n := |times| - 1;
      Admissions(b, max, times[..n]) + if Take(Polls(b, max, times[..n]).0, max, times[n]).1 == None then [times[n]] else []
  }

  lemma PollsLast(b: Bucket, max: real, times: seq<real>, t: real)
    requires max >= 1.0
    ensures Polls(b, max, times + [t]).0 == Take(Polls(b, max, times).0, max, t).0
    ensures Polls(b, max, times + [t]).1 == Polls(b, max, times).1 + [Take(Polls(b, max, times).0, max, t).1]
  {
    assert (times + [t])[..|times|] == times;
    hide Take;
  }

  lemma AdmissionsLast(b: Bucket, max: real, times: seq<real>, t: real)
    requires max >= 1.0
    ensures var kept := Admissions(b, max, times);
            Admissions(b, max, times + [t]) == if Take(Polls(b, max, times).0, max, t).1 == None then kept + [t] else kept
  {
    assert (times + [t])[..|times|] == times;
    hide Take, Polls;
  }

  lemma {:induction false} PollsKeepValid(b: Bucket, max: real, times: seq<real>)
    requires max >= 1.0 && ValidBucket(b, max)
    ensures ValidBucket(Polls(b, max, times).0, max)
  {
    hide Take, ValidBucket;
    if times != [] {
      PollsKeepValid(b, max, times[..|times| - 1]);
      TakeKeepsValid(Polls(b, max, times[..|times| - 1]).0, max, times[|times| - 1]);
    }
  }

  /** No denied request of these leaves a trace at the next one, the last one at `later`. */
  ghost predicate Traceless(b: Bucket, max: real, times: seq<real>, later: real)
    requires max >= 1.0
    decreases |times|
  {
    times == [] ||
    var init, t := times[..|times| - 1], times[|times| - 1];
    && Traceless(b, max, init, t)
    && LeavesNone(Polls(b, max, Admissions(b, max, init)).0, max, t, later)
  }

  ghost predicate LeavesNone(d: Bucket, max: real, t: real, later: real)
    requires max >= 1.0
  {
    Take(d, max, t).1.Some? ==> NoTrace(d, max, t, later)
  }

  /** The bucket before `later` of all requests, and of the admitted ones only. */
  lemma OnePoll(c: Bucket, d: Bucket, max: real, t: real, later: real)
    requires max >= 1.0 && ValidBucket(d, max) && Take(c, max, t) == Take(d, max, t)
    ensures var kept := if Take(d, max, t).1 == None then Take(d, max, t).0 else d;
            Take(Take(c, max, t).0, max, later) == Take(kept, max, later) <==> LeavesNone(d, max, t, later)
  {
    if Take(d, max, t).1.Some? {
      DeniedLeavesNoTrace(d, max, t, later);
    }
  }

  /** However often a client polls in vain, its next request is answered as if it had made its successful
      requests only, if and only if the last vain one leaves no trace, the others before it leaving none. */
  lemma {:induction false} PollingIsFree(b: Bucket, max: real, times: seq<real>, later: real)
    requires max >= 1.0 && ValidBucket(b, max)
    requires times != [] ==> Traceless(b, max, times[..|times| - 1], times[|times| - 1])
    ensures Take(Polls(b, max, times).0, max, later) == Take(Polls(b, max, Admissions(b, max, times)).0, max, later)
            <==> Traceless(b, max, times, later)
    decreases |times|
  {
    if times != [] {
      hide Take, ValidBucket, Polls, Admissions, LeavesNone;
      var init, t := times[..|times| - 1], times[|times| - 1];
      assert times == init + [t];
      assert init != [] ==> Traceless(b, max, init[..|init| - 1], init[|init| - 1]);
      PollingIsFree(b, max, init, t);
      var kept := Admissions(b, max, init);
      PollsKeepValid(b, max, kept);
      OnePoll(Polls(b, max, init).0, Polls(b, max, kept).0, max, t, later);
      AdmissionsLast(b, max, init, t);
      PollsLast(b, max, init, t);
      PollsLast(b, max, kept, t);
    }
  }

  lemma OrderedPrefix(from: real, times: seq<real>, later: real)
    requires times != [] && Ordered(from, times + [later])
    ensures var n := |times| - 1; Ordered(from, times[..n] + [times[n]]) && times[n] <= later
  {
    assert times[..|times| - 1] + [times[|times| - 1]] == times;
    assert forall i :: 0 <= i < |times| ==> (times + [later])[i] == times[i];
    assert (times + [later])[|times|] == later;
  }

  lemma {:induction false} AdmissionsAreBefore(b: Bucket, max: real, times: seq<real>, later: real)
    requires max >= 1.0 && Ordered(b.lastRefill, times + [later])
    ensures Polls(b, max, Admissions(b, max, times)).0.lastRefill <= later
    decreases |times|
  {
    if times == [] {
      assert (times + [later])[0] == later;
    } else {
      hide Take, Polls, Admissions, Ordered;
      var init, t := times[..|times| - 1], times[|times| - 1];
      assert times == init + [t];
      OrderedPrefix(b.lastRefill, times, later);
      AdmissionsAreBefore(b, max, init, t);
      AdmissionsLast(b, max, init, t);
      PollsLast(b, max, Admissions(b, max, init), t);
      TakeSetsClock(Polls(b, max, Admissions(b, max, init)).0, max, t);
    }
  }

  /** With the client's clock readings in order no vain request ever leaves a trace. */
  lemma {:induction false} OrderedIsTraceless(b: Bucket, max: real, times: seq<real>, later: real)
    requires max >= 1.0 && Ordered(b.lastRefill, times + [later])
    ensures Traceless(b, max, times, later)
    decreases |times|
  {
    if times != [] {
      hide Take, Polls, Admissions, Ordered;
      OrderedPrefix(b.lastRefill, times, later);
      var init, t := times[..|times| - 1], times[|times| - 1];
      OrderedIsTraceless(b, max, init, t);
      AdmissionsAreBefore(b, max, init, t);
    }
  }

  // ---------------------------------------------------------------- more requests, more admissions

  /** Whatever comes at whatever time, `c` is at most `k` tokens behind `d`. */
  ghost predicate Covers(c: Bucket, d: Bucket, k: nat, max: real) {
    forall x :: Behind(c, d, k, max, x)
  }

  ghost predicate Behind(c: Bucket, d: Bucket, k: nat, max: real, x: real) {
    Refilled(c, max, x).tokens + k as real >= Refilled(d, max, x).tokens
  }

  lemma RefillingEarlier(b: Bucket, max: real, t: real, x: real)
    requires max >= 1.0 && ValidBucket(b, max)
    ensures Refilled(Refilled(b, max, t), max, x).tokens >= Refilled(b, max, x).tokens
  {
    NothingEarned(max);
    EarnedGrows(max, 0.0, Elapsed(b, t));
    EarnedGrows(max, 0.0, Elapsed(Refilled(b, max, t), x));
    EarnedGrows(max, Elapsed(b, x), Elapsed(b, t));
    if b.lastRefill <= t <= x {
      EarnedSplits(max, b.lastRefill, t, x);
    }
    EarnedGrows(max, Elapsed(b, x), Elapsed(Refilled(b, max, t), x));
    hide Earned;
  }

  lemma OneTokenLess(b: Bucket, max: real, x: real)
    ensures Refilled(b.(tokens := b.tokens - 1.0), max, x).tokens + 1.0 >= Refilled(b, max, x).tokens
  {
    hide Earned;
  }

  /** A request of `c` alone costs it at most the token it is given for. */
  lemma ExtraCovers(c: Bucket, d: Bucket, k: nat, max: real, t: real)
    requires max >= 1.0 && ValidBucket(c, max) && Covers(c, d, k, max)
    ensures var (e, wait) := Take(c, max, t); Covers(e, d, if wait == None then k + 1 else k, max)
  {
    var (e, wait) := Take(c, max, t);
    var j := if wait == None then k + 1 else k;
    forall x ensures Behind(e, d, j, max, x) {
      assert Behind(c, d, k, max, x);
      RefillingEarlier(c, max, t, x);
      OneTokenLess(Refilled(c, max, t), max, x);
      hide Refilled;
    }
  }

  /** After a request of both, at the same time, the count of admissions still makes up for the tokens. */
  lemma SharedCovers(c: Bucket, d: Bucket, k: nat, max: real, t: real)
    requires max >= 1.0 && Covers(c, d, k, max)
    ensures var (e, wait) := Take(c, max, t);
            var (f, wait') := Take(d, max, t);
            var j := k + (if wait == None then 1 else 0) - if wait' == None then 1 else 0;
            j >= 0 && Covers(e, f, j, max)
  {
    assert Behind(c, d, k, max, t);
    var e, f := Take(c, max, t).0, Take(d, max, t).0;
    var j := k + (if Take(c, max, t).1 == None then 1 else 0) - if Take(d, max, t).1 == None then 1 else 0;
    assert e.lastRefill == f.lastRefill && e.tokens + j as real >= f.tokens && j >= 0;
    forall x ensures Behind(e, f, j, max, x) {
      SameTimeBehind(e, f, j, max, x);
    }
  }

  lemma SameTimeBehind(e: Bucket, f: Bucket, j: nat, max: real, x: real)
    requires e.lastRefill == f.lastRefill && e.tokens + j as real >= f.tokens
    ensures Behind(e, f, j, max, x)
  {
    hide Earned;
  }

  /** How many of these requests are admitted. */
  function Granted(b: Bucket, max: real, times: seq<real>): nat
    requires max >= 1.0
  {
    if times == [] then 0
    else
      var n := |times| - 1;
      Granted(b, max, times[..n]) + if Take(Polls(b, max, times[..n]).0, max, times[n]).1 == None then 1 else 0
  }

  lemma GrantedLast(b: Bucket, max: real, times: seq<real>, t: real)
    requires max >= 1.0
    ensures Granted(b, max, times + [t]) ==
            Granted(b, max, times) + if Take(Polls(b, max, times).0, max, t).1 == None then 1 else 0
  {
    assert (times + [t])[..|times|] == times;
    hide Take, Polls;
  }

  /** A request of a client, and whether it is one of its extra ones. */
  datatype Poll = Poll(now: real, extra: bool)

  function AllTimes(polls: seq<Poll>): seq<real> {
    if polls == [] then [] else AllTimes(polls[..|polls| - 1]) + [polls[|polls| - 1].now]
  }

  function PlainTimes(polls: seq<Poll>): seq<real> {
    if polls == [] then []
    else
      var last := polls[|polls| - 1];
      PlainTimes(polls[..|polls| - 1]) + if last.extra then [] else [last.now]
  }

  lemma {:induction false} PollsCover(c: Bucket, d: Bucket, max: real, polls: seq<Poll>)
    requires max >= 1.0 && ValidBucket(c, max) && Covers(c, d, 0, max)
    ensures var all, plain := AllTimes(polls), PlainTimes(polls);
            var k := Granted(c, max, all) - Granted(d, max, plain);
            k >= 0 && Covers(Polls(c, max, all).0, Polls(d, max, plain).0, k, max)
  {
    hide Take, Covers, Polls, Granted, ValidBucket;
    if polls == [] {
      NoPolls(c, max);
      NoPolls(d, max);
    } else {
      var init, last := polls[..|polls| - 1], polls[|polls| - 1];
      PollsCover(c, d, max, init);
      var all, plain := AllTimes(init), PlainTimes(init);
      var k := Granted(c, max, all) - Granted(d, max, plain);
      PollsKeepValid(c, max, all);
      PollsLast(c, max, all, last.now);
      GrantedLast(c, max, all, last.now);
      if last.extra {
        ExtraCovers(Polls(c, max, all).0, Polls(d, max, plain).0, k, max, last.now);
        assert plain + [] == plain;
      } else {
        PollsLast(d, max, plain, last.now);
        GrantedLast(d, max, plain, last.now);
        SharedCovers(Polls(c, max, all).0, Polls(d, max, plain).0, k, max, last.now);
      }
    }
  }

  lemma NoPolls(b: Bucket, max: real)
    requires max >= 1.0
    ensures Polls(b, max, []) == (b, []) && Granted(b, max, []) == 0
  {
  }

  /** Whatever the clock readings, extra requests, in vain or not, never make the number of admissions smaller. */
  lemma ExtraRequestsNeverCost(b: Bucket, max: real, polls: seq<Poll>)
    requires max >= 1.0 && ValidBucket(b, max)
    ensures Granted(b, max, AllTimes(polls)) >= Granted(b, max, PlainTimes(polls))
  {
    assert forall x :: Behind(b, b, 0, max, x);
    PollsCover(b, b, max, polls);
  }

  // ---------------------------------------------------------------- how long to wait

  lemma EarnedInverse(max: real, deficit: real, seconds: real)
    requires max >= 1.0
    ensures Earned(max, seconds) >= deficit <==> seconds >= deficit / Rate(max)
  {
    var r := Rate(max);
    assert r > 0.0;
    hide Rate;
    DivideBoth(deficit, seconds, r);
  }

  lemma DivideBoth(x: real, y: real, r: real)
    requires r > 0.0
    ensures y * r >= x <==> y >= x / r
  {
    assert x == (x / r) * r;
    if y >= x / r {
      NonNegative(y - x / r, r);
    } else {
      NonNegative(x / r - y, r);
      assert (x / r - y) * r > 0.0;
    }
  }

  /** After a denial the next request, vain ones aside, is admitted exactly when the time told has passed. */
  lemma RetryAfterIsExact(b: Bucket, max: real, t: real, later: real)
    requires max >= 1.0 && ValidBucket(b, max) && Take(b, max, t).1.Some?
    ensures Take(b, max, t).1.value > 0.0
    ensures Take(Take(b, max, t).0, max, later).1 == None <==> later >= t + Take(b, max, t).1.value
  {
    var (c, wait) := Take(b, max, t);
    EarnedInverse(max, 1.0 - c.tokens, later - t);
    EarnedInverse(max, 1.0 - c.tokens, 0.0);
    assert Earned(max, 0.0) == 0.0;
    hide Earned, Rate;
  }

  // ---------------------------------------------------------------- in numbers

  /** In x minutes without a request a bucket gets x times the limit back, up to the limit. */
  lemma RefillInNumbers(b: Bucket, max: real, x: real)
    requires max >= 1.0 && x >= 0.0
    ensures var tokens := b.tokens + x * max;
            Refilled(b, max, b.lastRefill + x * 60.0) == Bucket(if tokens <= max then tokens else max, b.lastRefill + x * 60.0)
  {
    var t := b.lastRefill + x * 60.0;
    assert Elapsed(b, t) == x * 60.0;
    assert x * 60.0 * (max / 60.0) == x * max;
    hide Elapsed;
  }

  /** How many requests a minute a limit stands for. */
  function PerMinute(limit: nat): nat { if limit == 0 then 1 else limit }

  /** Some requests of one key, all at the same time. */
  function Burst(key: string, t: real, n: nat): seq<Request> {
    if n == 0 then [] else Burst(key, t, n - 1) + [Request(key, t)]
  }

  /** What is left of a new bucket after that many requests at once. */
  function Remaining(limit: nat, n: nat): nat { if n < PerMinute(limit) then PerMinute(limit) - n else 0 }

  lemma {:induction false} BurstLeaves(limit: nat, key: string, t: real, n: nat)
    ensures |Burst(key, t, n)| == n
    ensures var buckets := Run(MaxTokens(limit), Burst(key, t, n)).0;
            if n == 0 then buckets == map[] else key in buckets && buckets[key] == Bucket(Remaining(limit, n) as real, t)
  {
    if n > 0 {
      hide Run, Take;
      BurstLeaves(limit, key, t, n - 1);
      var max, before := MaxTokens(limit), Burst(key, t, n - 1);
      assert Burst(key, t, n)[..n - 1] == before;
      RunLast(max, Burst(key, t, n));
      OneOfBurst(limit, Remaining(limit, n - 1), t);
    }
    if n == 0 {
      assert Run(MaxTokens(limit), []).0 == map[];
    }
  }

  lemma OneOfBurst(limit: nat, left: nat, t: real)
    requires left <= PerMinute(limit)
    ensures var max := MaxTokens(limit);
            var (b, wait) := Take(Bucket(left as real, t), max, t);
            if left > 0 then b == Bucket((left - 1) as real, t) && wait == None
            else b == Bucket(0.0, t) && wait.Some? && wait.value * max == 60.0
  {
    var max := MaxTokens(limit);
    assert Earned(max, 0.0) == 0.0;
    assert 1.0 / (max / 60.0) * max == 60.0;
    hide Earned;
  }

  /** Of requests at the same time a new client gets exactly its limit through; the next is told to wait for as
      long as one token takes. */
  lemma BurstIsLimit(limit: nat, key: string, t: real, n: nat)
    requires n > 0
    ensures var max := MaxTokens(limit);
            var wait := After(Run(max, Burst(key, t, n - 1)).0, max, Request(key, t)).1;
            && Run(max, Burst(key, t, n)).1 == Run(max, Burst(key, t, n - 1)).1 + [wait]
            && (wait == None <==> n <= PerMinute(limit))
            && (wait.Some? ==> wait.value * (PerMinute(limit) as real) == 60.0)
  {
    hide Take, Run, Burst;
    BurstBucket(limit, key, t, n - 1);
    BurstGrows(MaxTokens(limit), key, t, n);
    OneOfBurst(limit, Remaining(limit, n - 1), t);
  }

  lemma BurstBucket(limit: nat, key: string, t: real, n: nat)
    ensures BucketOf(Run(MaxTokens(limit), Burst(key, t, n)).0, MaxTokens(limit), Request(key, t)) == Bucket(Remaining(limit, n) as real, t)
  {
    hide Run;
    BurstLeaves(limit, key, t, n);
  }

  lemma BurstGrows(max: real, key: string, t: real, n: nat)
    requires max >= 1.0 && n > 0
    ensures Run(max, Burst(key, t, n)).1 ==
            Run(max, Burst(key, t, n - 1)).1 + [After(Run(max, Burst(key, t, n - 1)).0, max, Request(key, t)).1]
  {
    hide Run, After;
    assert Burst(key, t, n)[..|Burst(key, t, n)| - 1] == Burst(key, t, n - 1);
    RunLast(max, Burst(key, t, n));
  }

  // ---------------------------------------------------------------- keys

  function TimesOf(requests: seq<Request>, key: string): seq<real> {
    if requests == [] then []
    else
      var last := requests[|requests| - 1];
      TimesOf(requests[..|requests| - 1], key) + if last.key == key then [last.now] else []
  }

  /** Answers to the requests of the key. */
  function AnswersTo(requests: seq<Request>, answers: seq<Option<real>>, key: string): seq<Option<real>>
    requires |answers| == |requests|
  {
    if requests == [] then []
    else
      var n := |requests| - 1;
      AnswersTo(requests[..n], answers[..n], key) + if requests[n].key == key then [answers[n]] else []
  }

  /** A key's bucket and answers are those of a full bucket at its first request and of its own requests. */
  ghost predicate Private(max: real, buckets: Buckets, own: seq<Option<real>>, times: seq<real>, key: string)
    requires max >= 1.0
  {
    if times == [] then key !in buckets && own == []
    else key in buckets && (buckets[key], own) == Polls(Bucket(max, times[0]), max, times)
  }

  lemma StaysPrivate(max: real, buckets: Buckets, own: seq<Option<real>>, times: seq<real>, key: string, r: Request)
    requires max >= 1.0 && Private(max, buckets, own, times, key)
    ensures var (next, wait) := After(buckets, max, r);
            Private(max, next, if r.key == key then own + [wait] else own, if r.key == key then times + [r.now] else times, key)
  {
    hide Take, Polls;
    if r.key == key {
      var b := Bucket(max, (times + [r.now])[0]);
      PollsLast(b, max, times, r.now);
      PollsNone(b, max);
    }
  }

  /** Each key is answered as if it had the limiter to itself. */
  lemma {:induction false} KeysAreIndependent(max: real, requests: seq<Request>, key: string)
    requires max >= 1.0
    ensures |Run(max, requests).1| == |requests|
    ensures var (buckets, answers) := Run(max, requests);
            Private(max, buckets, AnswersTo(requests, answers, key), TimesOf(requests, key), key)
  {
    if requests != [] {
      hide After, Run, Private;
      var init, last := requests[..|requests| - 1], requests[|requests| - 1];
      KeysAreIndependent(max, init, key);
      RunLast(max, requests);
      var (buckets, answers) := Run(max, requests);
      assert answers[..|init|] == Run(max, init).1;
      var own, times := AnswersTo(init, Run(max, init).1, key), TimesOf(init, key);
      StaysPrivate(max, Run(max, init).0, own, times, key, last);
      assert own + [] == own && times + [] == times;
    }
  }

  lemma PollsNone(b: Bucket, max: real)
    requires max >= 1.0
    ensures Polls(b, max, []) == (b, [])
  {
  }
}
