/** Edit distance: the two-row table used to repair tool names, and what it computes.
    `Distance` is the recursion the table tabulates. It is tied to an independent notion, scripts of
    single insertions, deletions and replacements at arbitrary positions, and shown to be a metric. */
module EditDistance {

  function Min(x: nat, y: nat): nat { if x <= y then x else y }

  function Mismatch<T(==)>(x: T, y: T): nat { if x == y then 0 else 1 }

  function Init<T>(s: seq<T>): seq<T>
    requires s != []
  {
    s[..|s| - 1]
  }

  function Last<T>(s: seq<T>): T
    requires s != []
  {
    s[|s| - 1]
  }

  function Distance<T(==)>(a: seq<T>, b: seq<T>): nat
    decreases |a| + |b|
  {
    if a == [] then |b|
    else if b == [] then |a|
    else
      Min(Min(Distance(Init(a), b) + 1, Distance(a, Init(b)) + 1),
          Distance(Init(a), Init(b)) + Mismatch(Last(a), Last(b)))
  }

  lemma Border<T>(a: seq<T>, b: seq<T>)
    requires a == [] || b == []
    ensures Distance(a, b) == |a| + |b|
  {
  }

  /** The recursion read from the end of both texts. */
  lemma LastCell<T>(a: seq<T>, b: seq<T>, x: T, y: T)
    ensures Distance(a + [x], b + [y]) ==
            Min(Min(Distance(a, b + [y]) + 1, Distance(a + [x], b) + 1), Distance(a, b) + Mismatch(x, y))
  {
    var s, t := a + [x], b + [y];
    assert Init(s) == a && Init(t) == b;
  }

  lemma Cell<T>(a: seq<T>, b: seq<T>, i: nat, j: nat)
    requires 1 <= i <= |a| && 1 <= j <= |b|
    ensures Distance(a[..i], b[..j]) ==
            Min(Min(Distance(a[..i - 1], b[..j]) + 1, Distance(a[..i], b[..j - 1]) + 1),
                Distance(a[..i - 1], b[..j - 1]) + Mismatch(a[i - 1], b[j - 1]))
  {
    hide Distance;
    assert a[..i] == a[..i - 1] + [a[i - 1]] && b[..j] == b[..j - 1] + [b[j - 1]];
    LastCell(a[..i - 1], b[..j - 1], a[i - 1], b[j - 1]);
  }

  /** The table: two rows, filled left to right and swapped after each one. */
  method Levenshtein<T(==)>(a: seq<T>, b: seq<T>) returns (d: nat)
    ensures d == Distance(a, b)
  {
    hide Distance;
    var m, n := |a|, |b|;
    var prev := new nat[n + 1](j => j);
    var curr := new nat[n + 1](j => 0);
    forall j | 0 <= j <= n ensures prev[j] == Distance(a[..0], b[..j]) {
      Border(a[..0], b[..j]);
    }
    for i := 1 to m + 1
      invariant prev.Length == curr.Length == n + 1 && prev != curr && fresh(prev) && fresh(curr)
      invariant forall j :: 0 <= j <= n ==> prev[j] == Distance(a[..i - 1], b[..j])
    {
      curr[0] := i;
      Border(a[..i], b[..0]);
      for j := 1 to n + 1
        invariant forall k :: 0 <= k <= n ==> prev[k] == Distance(a[..i - 1], b[..k])
        invariant forall k :: 0 <= k < j ==> curr[k] == Distance(a[..i], b[..k])
      {
        var cost := if a[i - 1] == b[j - 1] then 0 else 1;
        curr[j] := Min(Min(prev[j] + 1, curr[j - 1] + 1), prev[j - 1] + cost);
        Cell(a, b, i, j);
      }
      prev, curr := curr, prev;
    }
    d := prev[n];
    assert a[..m] == a && b[..n] == b;
  }

  // ---------------------------------------------------------------- one step of the recursion

  lemma ExtendLeft<T>(a: seq<T>, b: seq<T>, x: T)
    ensures Distance(a + [x], b) <= Distance(a, b) + 1
  {
    if b != [] {
      assert b == Init(b) + [Last(b)];
      LastCell(a, Init(b), x, Last(b));
    }
  }

  lemma ExtendRight<T>(a: seq<T>, b: seq<T>, y: T)
    ensures Distance(a, b + [y]) <= Distance(a, b) + 1
  {
    if a != [] {
      assert a == Init(a) + [Last(a)];
      LastCell(Init(a), b, Last(a), y);
    }
  }

  // ---------------------------------------------------------------- a metric

  lemma {:induction false} ZeroOnlyForEqual<T>(a: seq<T>, b: seq<T>)
    ensures Distance(a, b) == 0 <==> a == b
    decreases |a|
  {
    if a != [] && b != [] {
      ZeroOnlyForEqual(Init(a), Init(b));
      assert a == Init(a) + [Last(a)] && b == Init(b) + [Last(b)];
    }
  }

  lemma {:induction false} Symmetric<T>(a: seq<T>, b: seq<T>)
    ensures Distance(a, b) == Distance(b, a)
    decreases |a| + |b|
  {
    if a != [] && b != [] {
      Symmetric(Init(a), b);
      Symmetric(a, Init(b));
      Symmetric(Init(a), Init(b));
    }
  }

  lemma {:induction false} LengthGap<T>(a: seq<T>, b: seq<T>)
    ensures |a| <= |b| + Distance(a, b)
    decreases |a| + |b|
  {
    if a != [] && b != [] {
      LengthGap(Init(a), b);
      LengthGap(a, Init(b));
      LengthGap(Init(a), Init(b));
    }
  }

  lemma {:induction false} TriangleInequality<T>(a: seq<T>, b: seq<T>, c: seq<T>)
    ensures Distance(a, c) <= Distance(a, b) + Distance(b, c)
    decreases |a| + |b| + |c|, 1
  {
    hide Distance;
    if a == [] {
      Symmetric(b, c);
      LengthGap(c, b);
      Border(a, b);
      Border(a, c);
    } else if c == [] {
      LengthGap(a, b);
      Border(a, c);
      Border(b, c);
    } else if b == [] {
      TriangleInequality(Init(a), b, c);
      assert a == Init(a) + [Last(a)];
      ExtendLeft(Init(a), c, Last(a));
      Border(a, b);
      Border(Init(a), b);
    } else {
      TriangleSteps(Init(a), Init(b), Init(c), Last(a), Last(b), Last(c));
      assert a == Init(a) + [Last(a)] && b == Init(b) + [Last(b)] && c == Init(c) + [Last(c)];
    }
  }

  lemma {:induction false} TriangleSteps<T>(a: seq<T>, b: seq<T>, c: seq<T>, x: T, y: T, z: T)
    ensures Distance(a + [x], c + [z]) <= Distance(a + [x], b + [y]) + Distance(b + [y], c + [z])
    decreases |a| + |b| + |c| + 3, 0
  {
    hide Distance;
    TriangleInequality(a, b + [y], c + [z]);
    TriangleInequality(a + [x], b + [y], c);
    TriangleInequality(a + [x], b, c + [z]);
    TriangleInequality(a + [x], b, c);
    TriangleInequality(a, b, c + [z]);
    TriangleInequality(a, b, c);
    LastCell(a, b, x, y);
    LastCell(b, c, y, z);
    LastCell(a, c, x, z);
  }

  // ---------------------------------------------------------------- edit scripts

  /** One edit, at any position of the current text. */
  datatype Edit<T> = Insert(at: nat, x: T) | Delete(at: nat) | Replace(at: nat, x: T)

  predicate Applies<T>(e: Edit<T>, s: seq<T>) {
    if e.Insert? then e.at <= |s| else e.at < |s|
  }

  function Apply<T>(e: Edit<T>, s: seq<T>): seq<T>
    requires Applies(e, s)
  {
    match e
    case Insert(at, x) => s[..at] + [x] + s[at..]
    case Delete(at) => s[..at] + s[at + 1..]
    case Replace(at, x) => s[..at] + [x] + s[at + 1..]
  }

  /** The script turns `a` into `b`. */
  ghost predicate Turns<T(!new)>(script: seq<Edit<T>>, a: seq<T>, b: seq<T>) {
    if script == [] then a == b
    else Applies(script[0], a) && Turns(script[1..], Apply(script[0], a), b)
  }

  lemma {:induction false} TurnsThen<T(!new)>(s: seq<Edit<T>>, t: seq<Edit<T>>, a: seq<T>, b: seq<T>, c: seq<T>)
    requires Turns(s, a, b) && Turns(t, b, c)
    ensures Turns(s + t, a, c)
  {
    hide Apply, Applies;
    if s == [] {
      assert s + t == t;
    } else {
      TurnsThen(s[1..], t, Apply(s[0], a), b, c);
      assert (s + t)[1..] == s[1..] + t;
    }
  }

  lemma ApplyBefore<T>(e: Edit<T>, a: seq<T>, x: T)
    requires Applies(e, a)
    ensures Applies(e, a + [x]) && Apply(e, a + [x]) == Apply(e, a) + [x]
  {
    var s := a + [x];
    assert s[..e.at] == a[..e.at] && s[e.at..] == a[e.at..] + [x];
    if !e.Insert? {
      assert s[e.at + 1..] == a[e.at + 1..] + [x];
    }
  }

  /** A script still works with an untouched element behind the text. */
  lemma {:induction false} TurnsBefore<T(!new)>(s: seq<Edit<T>>, a: seq<T>, b: seq<T>, x: T)
    requires Turns(s, a, b)
    ensures Turns(s, a + [x], b + [x])
  {
    hide Apply, Applies;
    if s != [] {
      TurnsBefore(s[1..], Apply(s[0], a), b, x);
      ApplyBefore(s[0], a, x);
    }
  }

  /** Some script has exactly `Distance` edits. */
  lemma {:induction false} BestScript<T(!new)>(a: seq<T>, b: seq<T>) returns (s: seq<Edit<T>>)
    ensures Turns(s, a, b) && |s| == Distance(a, b)
    decreases |a| + |b|
  {
    s := [];
    assert a == b ==> Turns(s, a, b);
    hide Distance, Turns;
    if a == [] && b == [] {
      Border(a, b);
    } else if b == [] {
      s := BestScript(Init(a), b);
      s := DeleteFirst(a, b, s);
      Border(a, b);
      Border(Init(a), b);
    } else if a == [] {
      s := BestScript(a, Init(b));
      s := InsertLast(a, b, s);
      Border(a, b);
      Border(a, Init(b));
    } else {
      assert a == Init(a) + [Last(a)] && b == Init(b) + [Last(b)];
      LastCell(Init(a), Init(b), Last(a), Last(b));
      if Distance(a, b) == Distance(Init(a), b) + 1 {
        s := BestScript(Init(a), b);
        s := DeleteFirst(a, b, s);
      } else if Distance(a, b) == Distance(a, Init(b)) + 1 {
        s := BestScript(a, Init(b));
        s := InsertLast(a, b, s);
      } else {
        s := BestScript(Init(a), Init(b));
        s := ReplaceLast(a, b, s);
      }
    }
  }

  lemma DeleteFirst<T(!new)>(a: seq<T>, b: seq<T>, s: seq<Edit<T>>) returns (t: seq<Edit<T>>)
    requires a != [] && Turns(s, Init(a), b)
    ensures Turns(t, a, b) && |t| == |s| + 1
  {
    var e: Edit<T> := Delete(|a| - 1);
    t := [e] + s;
    assert Apply(e, a) == Init(a) && t[1..] == s;
  }

  lemma InsertLast<T(!new)>(a: seq<T>, b: seq<T>, s: seq<Edit<T>>) returns (t: seq<Edit<T>>)
    requires b != [] && Turns(s, a, Init(b))
    ensures Turns(t, a, b) && |t| == |s| + 1
  {
    var e := Insert(|b| - 1, Last(b));
    assert Apply(e, Init(b)) == b;
    assert Turns([e], Init(b), b);
    t := s + [e];
    TurnsThen(s, [e], a, Init(b), b);
  }

  lemma ReplaceLast<T(!new)>(a: seq<T>, b: seq<T>, s: seq<Edit<T>>) returns (t: seq<Edit<T>>)
    requires a != [] && b != [] && Turns(s, Init(a), Init(b))
    ensures Turns(t, a, b) && |t| == |s| + Mismatch(Last(a), Last(b))
  {
    hide Turns;
    var m := Init(b) + [Last(a)];
    TurnsBefore(s, Init(a), Init(b), Last(a));
    assert a == Init(a) + [Last(a)] && b == Init(b) + [Last(b)];
    t := s;
    if Last(a) != Last(b) {
      ReplaceOnce(Init(b), Last(a), Last(b));
      t := s + [Replace(|b| - 1, Last(b))];
      TurnsThen(s, [Replace(|b| - 1, Last(b))], a, m, b);
    }
  }

  lemma ReplaceOnce<T(!new)>(s: seq<T>, x: T, y: T)
    ensures Turns([Replace(|s|, y)], s + [x], s + [y])
  {
    assert Apply(Replace(|s|, y), s + [x]) == s + [y];
  }

  lemma {:induction false} CommonSuffix<T>(a: seq<T>, b: seq<T>, q: seq<T>)
    ensures Distance(a + q, b + q) <= Distance(a, b)
  {
    hide Distance;
    if q == [] {
      assert a + q == a && b + q == b;
    } else {
      CommonSuffix(a, b, Init(q));
      LastCell(a + Init(q), b + Init(q), Last(q), Last(q));
      assert a + q == a + Init(q) + [Last(q)] && b + q == b + Init(q) + [Last(q)];
    }
  }

  lemma {:induction false} OneEditIsNear<T>(e: Edit<T>, s: seq<T>)
    requires Applies(e, s)
    ensures Distance(s, Apply(e, s)) <= 1
  {
    hide Distance;
    var p := s[..e.at];
    ZeroOnlyForEqual(p, p);
    match e
    case Insert(at, x) =>
      ExtendRight(p, p, x);
      CommonSuffix(p, p + [x], s[at..]);
      assert s == p + s[at..];
    case Delete(at) =>
      ExtendLeft(p, p, s[at]);
      CommonSuffix(p + [s[at]], p, s[at + 1..]);
      assert s == p + [s[at]] + s[at + 1..];
    case Replace(at, x) =>
      LastCell(p, p, s[at], x);
      CommonSuffix(p + [s[at]], p + [x], s[at + 1..]);
      assert s == p + [s[at]] + s[at + 1..];
  }

  /** No script is shorter than `Distance`. */
  lemma {:induction false} NoShorterScript<T(!new)>(s: seq<Edit<T>>, a: seq<T>, b: seq<T>)
    requires Turns(s, a, b)
    ensures Distance(a, b) <= |s|
  {
    if s == [] {
      ZeroOnlyForEqual(a, b);
    } else {
      var m := Apply(s[0], a);
      NoShorterScript(s[1..], m, b);
      OneEditIsNear(s[0], a);
      TriangleInequality(a, m, b);
    }
  }

  /** `Distance` is the length of a shortest edit script. */
  lemma DistanceIsShortest<T(!new)>(a: seq<T>, b: seq<T>)
    ensures exists s: seq<Edit<T>> :: Turns(s, a, b) && |s| == Distance(a, b)
    ensures forall s: seq<Edit<T>> :: Turns(s, a, b) ==> Distance(a, b) <= |s|
  {
    var best := BestScript(a, b);
    forall s: seq<Edit<T>> | Turns(s, a, b) ensures Distance(a, b) <= |s| {
      NoShorterScript(s, a, b);
    }
  }
}
