/** What every tree of runs looks like. */
module FanTrees {
  import opened Products
  import opened FanOut

  // ---------------------------------------------------------------- one fan

  ghost predicate IsChild(child: Node, fan: Fan) { child in fan.children }

  ghost predicate IsFan(fan: Fan, node: Node) { fan in node.fans }

  /** The node is the whole run at its path. */
  ghost predicate IsRun(env: Environment, node: Node) {
    node.depth <= MAX_FANOUT_DEPTH && node == Tree(env, node.path, node.sha256, node.depth, node.visited)
  }

  lemma {:induction false} FansMeaning(env: Environment, path: Path, depth: nat, visited: set<string>, batches: seq<Batch>)
    requires depth < MAX_FANOUT_DEPTH
    ensures |Fans(env, path, depth, visited, batches)| == |batches|
    ensures forall k :: 0 <= k < |batches| ==>
              Fans(env, path, depth, visited, batches)[k] == FanFor(env, path, depth, visited, k, batches[k])
  {
    if batches != [] {
      hide FanFor;
      FansMeaning(env, path, depth, visited, batches[..|batches| - 1]);
    }
  }

  /** Positions of the artifacts that get a child, in order. */
  function Spawning(visited: set<string>, found: seq<Found>): seq<nat> {
    if found == [] then []
    else
      var i := |found| - 1;
      Spawning(visited, found[..i]) + if Spawns(visited, found[i]) then [i] else []
  }

  lemma {:induction false} SpawningMeaning(visited: set<string>, found: seq<Found>)
    ensures var at := Spawning(visited, found);
            && (forall m :: 0 <= m < |at| ==> at[m] < |found| && Spawns(visited, found[at[m]]))
            && (forall m, n :: 0 <= m < n < |at| ==> at[m] < at[n])
            && (forall i: nat :: i < |found| && Spawns(visited, found[i]) ==> i in at)
            && |at| <= |found|
  {
    hide Spawns;
    if found != [] {
      SpawningMeaning(visited, found[..|found| - 1]);
    }
  }

  /** The m-th child is the run for the m-th artifact that gets one, at the path of that artifact. */
  ghost predicate ChildAt(
    env: Environment, path: Path, depth: nat, known: set<string>, k: nat, found: seq<Found>, i: nat, child: Node)
    requires depth < MAX_FANOUT_DEPTH
  {
    i < |found| && child == Tree(env, path + [(k, i)], found[i].sha256, depth + 1, known)
  }

  /** Exactly the artifacts of unvisited hash whose thread could be created get a child, one each, in order. */
  lemma {:induction false} ChildrenMeaning(
    env: Environment, path: Path, depth: nat, visited: set<string>, known: set<string>, k: nat, found: seq<Found>)
    requires depth < MAX_FANOUT_DEPTH
    ensures var children, at := Children(env, path, depth, visited, known, k, found), Spawning(visited, found);
            |children| == |at| && forall m :: 0 <= m < |at| ==> ChildAt(env, path, depth, known, k, found, at[m], children[m])
  {
    hide Tree, Spawns;
    if found != [] {
      var i := |found| - 1;
      ChildrenMeaning(env, path, depth, visited, known, k, found[..i]);
      SpawningMeaning(visited, found[..i]);
    }
  }

  lemma TreeIsRun(env: Environment, path: Path, sha256: string, depth: nat, visited: set<string>)
    requires depth <= MAX_FANOUT_DEPTH
    ensures var t := Tree(env, path, sha256, depth, visited);
            IsRun(env, t) && t.path == path && t.sha256 == sha256 && t.depth == depth && t.visited == visited
  {
  }

  lemma {:induction false} Outcomes(env: Environment, children: seq<Node>)
    ensures Succeeded(env, children, true) + Succeeded(env, children, false) == |children|
  {
    if children != [] {
      Outcomes(env, children[..|children| - 1]);
    }
  }

  /** Every fan of a run: at most the cap, every child accounted for as completed or failed, each one level
      down, new to the run, and aware of everything the run and all its siblings are about. */
  ghost predicate GoodFan(env: Environment, node: Node, fan: Fan) {
    && fan.completed + fan.failed == |fan.children| <= MAX_FANOUT_CHILDREN
    && forall c :: IsChild(c, fan) ==>
         && IsRun(env, c) && c.depth == node.depth + 1 && c.sha256 !in node.visited && node.visited <= c.visited
         && forall d :: IsChild(d, fan) ==> d.sha256 in c.visited
  }

  lemma FanIsGood(env: Environment, node: Node, k: nat, batch: Batch)
    requires node.depth < MAX_FANOUT_DEPTH
    ensures GoodFan(env, node, FanFor(env, node.path, node.depth, node.visited, k, batch))
  {
    hide Tree, Children, Succeeded, IsRun, ChildAt, Hashes, Spawning, Spawns;
    var fan := FanFor(env, node.path, node.depth, node.visited, k, batch);
    var capped := Capped(batch.found);
    var known := node.visited + Hashes(capped);
    Outcomes(env, fan.children);
    ChildrenMeaning(env, node.path, node.depth, node.visited, known, k, capped);
    SpawningMeaning(node.visited, capped);
    var at := Spawning(node.visited, capped);
    forall c | IsChild(c, fan)
      ensures c.sha256 in known && c.sha256 !in node.visited && c.visited == known && IsRun(env, c) && c.depth == node.depth + 1
    {
      var m :| 0 <= m < |fan.children| && fan.children[m] == c;
      assert ChildAt(env, node.path, node.depth, known, k, capped, at[m], c);
      ChildKnows(env, node.path, node.depth, node.visited, known, k, capped, at[m], c);
    }
  }

  lemma ChildKnows(
    env: Environment, path: Path, depth: nat, visited: set<string>, known: set<string>, k: nat, found: seq<Found>, i: nat, c: Node)
    requires depth < MAX_FANOUT_DEPTH && ChildAt(env, path, depth, known, k, found, i, c)
    requires Spawns(visited, found[i]) && Hashes(found) <= known
    ensures c.sha256 in known && c.sha256 !in visited && c.visited == known && IsRun(env, c) && c.depth == depth + 1
    ensures c.sha256 == found[i].sha256 && c.path == path + [(k, i)]
  {
    TreeIsRun(env, path + [(k, i)], found[i].sha256, depth + 1, known);
    hide IsRun, Tree;
    assert found[i].sha256 in Hashes(found);
  }

  lemma EveryFanIsGood(env: Environment, node: Node, fan: Fan)
    requires IsRun(env, node) && IsFan(fan, node)
    ensures node.depth < MAX_FANOUT_DEPTH && GoodFan(env, node, fan)
    ensures |node.fans| == |env.batches(node.path)|
  {
    var batches := env.batches(node.path);
    assert node.depth < MAX_FANOUT_DEPTH && node.fans == Fans(env, node.path, node.depth, node.visited, batches);
    hide Tree, Fans, FanFor, IsRun, GoodFan;
    FansMeaning(env, node.path, node.depth, node.visited, batches);
    var k :| 0 <= k < |node.fans| && node.fans[k] == fan;
    FanIsGood(env, node, k, batches[k]);
  }

  // ---------------------------------------------------------------- what a fan holds of its batch

  /** Positions of the children whose runs end as asked. */
  function Ending(env: Environment, children: seq<Node>, ok: bool): set<nat> {
    set m: nat | m < |children| && env.succeeds(children[m].path) == ok
  }

  lemma {:induction false} SucceededCounts(env: Environment, children: seq<Node>, ok: bool)
    ensures Succeeded(env, children, ok) == |Ending(env, children, ok)|
  {
    hide Ending;
    if children == [] {
      NoneEnds(env, ok);
    } else {
      SucceededCounts(env, children[..|children| - 1], ok);
      OneMoreEnds(env, children, ok);
    }
  }

  lemma NoneEnds(env: Environment, ok: bool)
    ensures Ending(env, [], ok) == {}
  {
  }

  lemma OneMoreEnds(env: Environment, children: seq<Node>, ok: bool)
    requires children != []
    ensures var n := |children| - 1;
            |Ending(env, children, ok)| == |Ending(env, children[..n], ok)| + if env.succeeds(children[n].path) == ok then 1 else 0
  {
    var n := |children| - 1;
    var before := Ending(env, children[..n], ok);
    assert n !in before;
    assert Ending(env, children, ok) == if env.succeeds(children[n].path) == ok then before + {n} else before;
  }

  /** How much of a batch is looked at. */
  function Looked(batch: Batch): nat { if |batch.found| < 50 then |batch.found| else 50 }

  /** The m-th child is for the artifact at `at[m]`: of the first fifty of the batch exactly those of a hash that the
      run does not know and with a thread. */
  ghost predicate HoldsBatch(env: Environment, node: Node, k: nat, batch: Batch, fan: Fan, at: seq<nat>) {
    && fan.parent == batch.parent && |at| == |fan.children|
    && (forall i: nat :: i in at <==> i < Looked(batch) && batch.found[i].sha256 !in node.visited && batch.found[i].threadCreated)
    && (forall m, n :: 0 <= m < n < |at| ==> at[m] < at[n])
    && (forall m :: 0 <= m < |at| ==> IsChildFor(env, node, k, batch, at[m], fan.children[m]))
    && fan.completed == |Ending(env, fan.children, true)| && fan.failed == |Ending(env, fan.children, false)|
  }

  /** The run at the path of the artifact, about its hash, that knows what its parent does and all hashes looked at. */
  ghost predicate IsChildFor(env: Environment, node: Node, k: nat, batch: Batch, i: nat, child: Node) {
    && i < |batch.found|
    && IsRun(env, child) && child.path == node.path + [(k, i)] && child.sha256 == batch.found[i].sha256
    && child.depth == node.depth + 1
    && child.visited == node.visited + set j | 0 <= j < Looked(batch) :: batch.found[j].sha256
  }

  lemma FanHoldsBatch(env: Environment, node: Node, k: nat, batch: Batch) returns (at: seq<nat>)
    requires node.depth < MAX_FANOUT_DEPTH
    ensures HoldsBatch(env, node, k, batch, FanFor(env, node.path, node.depth, node.visited, k, batch), at)
  {
    hide Tree, Children, Succeeded, IsRun, Ending, Hashes, Spawning, IsChildFor;
    var fan := FanFor(env, node.path, node.depth, node.visited, k, batch);
    at := Spawning(node.visited, Capped(batch.found));
    SucceededCounts(env, fan.children, true);
    SucceededCounts(env, fan.children, false);
    SpawningMeaning(node.visited, Capped(batch.found));
    ChildrenForBatch(env, node, k, batch);
  }

  lemma ChildrenForBatch(env: Environment, node: Node, k: nat, batch: Batch)
    requires node.depth < MAX_FANOUT_DEPTH
    ensures var children, at := FanFor(env, node.path, node.depth, node.visited, k, batch).children, Spawning(node.visited, Capped(batch.found));
            |children| == |at| && forall m :: 0 <= m < |at| ==> IsChildFor(env, node, k, batch, at[m], children[m])
  {
    hide Tree, Children, Succeeded, IsRun, Hashes, Spawning;
    var capped := Capped(batch.found);
    var known := node.visited + Hashes(capped);
    var children, at := FanFor(env, node.path, node.depth, node.visited, k, batch).children, Spawning(node.visited, capped);
    ChildrenMeaning(env, node.path, node.depth, node.visited, known, k, capped);
    SpawningMeaning(node.visited, capped);
    HashesLooked(batch);
    forall m | 0 <= m < |at| ensures IsChildFor(env, node, k, batch, at[m], children[m]) {
      ChildKnows(env, node.path, node.depth, node.visited, known, k, capped, at[m], children[m]);
    }
  }

  lemma HashesLooked(batch: Batch)
    ensures Hashes(Capped(batch.found)) == set j | 0 <= j < Looked(batch) :: batch.found[j].sha256
  {
  }

  ghost predicate HoldsTheBatch(env: Environment, node: Node, k: nat, batch: Batch, fan: Fan) {
    exists at :: HoldsBatch(env, node, k, batch, fan, at)
  }

  lemma FanIsTheBatch(env: Environment, node: Node, k: nat, batch: Batch)
    requires node.depth < MAX_FANOUT_DEPTH
    ensures HoldsTheBatch(env, node, k, batch, FanFor(env, node.path, node.depth, node.visited, k, batch))
  {
    hide HoldsBatch, FanFor;
    var at := FanHoldsBatch(env, node, k, batch);
  }

  lemma FansAre(env: Environment, node: Node)
    requires IsRun(env, node)
    ensures node.fans ==
            if node.depth < MAX_FANOUT_DEPTH then Fans(env, node.path, node.depth, node.visited, env.batches(node.path)) else []
    ensures node.depth <= MAX_FANOUT_DEPTH
  {
    hide Fans;
  }

  /** A run above the depth limit has a fan for each of its batches, in order, and one at the limit has none. */
  lemma FansHoldBatches(env: Environment, node: Node)
    requires IsRun(env, node)
    ensures node.depth == 3 ==> node.fans == []
    ensures node.depth < 3 ==>
              && |node.fans| == |env.batches(node.path)|
              && forall k: nat :: k < |node.fans| ==> HoldsTheBatch(env, node, k, env.batches(node.path)[k], node.fans[k])
  {
    hide Tree, Fans, FanFor, HoldsBatch, IsRun, HoldsTheBatch;
    FansAre(env, node);
    if node.depth < MAX_FANOUT_DEPTH {
      var batches := env.batches(node.path);
      FansMeaning(env, node.path, node.depth, node.visited, batches);
      forall k: nat | k < |node.fans| ensures HoldsTheBatch(env, node, k, batches[k], node.fans[k]) {
        FanIsTheBatch(env, node, k, batches[k]);
      }
    }
  }

  // ---------------------------------------------------------------- ancestor chains

  ghost predicate Spawned(node: Node, child: Node) {
    exists fan :: IsFan(fan, node) && IsChild(child, fan)
  }

  /** Each run of the chain spawned the next one. */
  ghost predicate Chain(nodes: seq<Node>) {
    forall i, j :: 0 <= i && j == i + 1 < |nodes| ==> Spawned(nodes[i], nodes[j])
  }

  lemma SpawnStep(env: Environment, node: Node, child: Node)
    requires IsRun(env, node) && Spawned(node, child)
    ensures IsRun(env, child) && child.depth == node.depth + 1 <= MAX_FANOUT_DEPTH
    ensures child.sha256 !in node.visited && child.sha256 in child.visited && node.visited <= child.visited
  {
    var fan :| IsFan(fan, node) && IsChild(child, fan);
    EveryFanIsGood(env, node, fan);
  }

  /** Down a chain from any run: one level a step, hashes pile up, and each is new. */
  lemma {:induction false} DownTheChain(env: Environment, nodes: seq<Node>)
    requires nodes != [] && Chain(nodes) && IsRun(env, nodes[0])
    ensures var last := nodes[|nodes| - 1];
            IsRun(env, last) && last.depth == nodes[0].depth + |nodes| - 1
    ensures forall i :: 0 <= i < |nodes| ==> nodes[i].visited <= nodes[|nodes| - 1].visited
    ensures forall i :: 0 < i < |nodes| ==> nodes[i].sha256 in nodes[i].visited
    ensures forall i, j :: 0 < i < j < |nodes| ==> nodes[i].sha256 != nodes[j].sha256
    ensures forall j :: 0 < j < |nodes| ==> nodes[j].sha256 !in nodes[0].visited
  {
    if |nodes| > 1 {
      hide IsRun, Spawned;
      var init := nodes[..|nodes| - 1];
      DownTheChain(env, init);
      SpawnStep(env, nodes[|nodes| - 2], nodes[|nodes| - 1]);
      assert init[|init| - 1] == nodes[|nodes| - 2];
      assert forall i :: 0 <= i < |init| ==> init[i] == nodes[i];
    }
  }

  /** No run is deeper than the limit, and along any chain of ancestors the spawned hashes all differ. */
  lemma ChainsAreShortAndNew(env: Environment, nodes: seq<Node>)
    requires nodes != [] && Chain(nodes)
    requires nodes[0] == Tree(env, [], nodes[0].sha256, 0, {})
    ensures |nodes| <= MAX_FANOUT_DEPTH + 1 && nodes[|nodes| - 1].depth == |nodes| - 1
    ensures forall i, j :: 0 < i < j < |nodes| ==> nodes[i].sha256 != nodes[j].sha256
  {
    hide Tree;
    TreeIsRun(env, [], nodes[0].sha256, 0, {});
    DownTheChain(env, nodes);
  }

  /** Nothing below a child repeats the hash of one of its siblings in the same batch. */
  lemma NephewsDiffer(env: Environment, node: Node, fan: Fan, uncle: Node, below: seq<Node>)
    requires IsRun(env, node) && IsFan(fan, node) && IsChild(uncle, fan)
    requires |below| > 1 && Chain(below) && IsChild(below[0], fan)
    ensures below[|below| - 1].sha256 != uncle.sha256
  {
    hide IsRun, Chain;
    EveryFanIsGood(env, node, fan);
    DownTheChain(env, below);
  }

  // ---------------------------------------------------------------- how big a tree can get

  function Size(node: Node): nat
    decreases node, 1
  {
    1 + FansSize(node.fans)
  }

  function FansSize(fans: seq<Fan>): nat
    decreases fans
  {
    if fans == [] then 0 else FansSize(fans[..|fans| - 1]) + NodesSize(fans[|fans| - 1].children)
  }

  function NodesSize(nodes: seq<Node>): nat
    decreases nodes
  {
    if nodes == [] then 0 else NodesSize(nodes[..|nodes| - 1]) + Size(nodes[|nodes| - 1])
  }

  /** The most runs in a tree with `levels` levels below the root, `batches` batches a run and a full batch each. */
  function FullTree(batches: nat, levels: nat): nat {
    if levels == 0 then 1 else 1 + Times(batches, Times(MAX_FANOUT_CHILDREN, FullTree(batches, levels - 1)))
  }

  lemma {:induction false} NodesSizeBound(nodes: seq<Node>, each: nat)
    requires forall i :: 0 <= i < |nodes| ==> Size(nodes[i]) <= each
    ensures NodesSize(nodes) <= Times(|nodes|, each)
  {
    hide Size;
    if nodes != [] {
      NodesSizeBound(nodes[..|nodes| - 1], each);
    }
  }

  lemma {:induction false} FansSizeBound(fans: seq<Fan>, each: nat)
    requires forall i :: 0 <= i < |fans| ==> NodesSize(fans[i].children) <= each
    ensures FansSize(fans) <= Times(|fans|, each)
  {
    hide NodesSize;
    if fans != [] {
      FansSizeBound(fans[..|fans| - 1], each);
    }
  }

  lemma FanSizeBound(env: Environment, node: Node, fan: Fan, batches: nat, each: nat)
    requires IsRun(env, node) && IsFan(fan, node) && forall p :: |env.batches(p)| <= batches
    requires each == FullTree(batches, MAX_FANOUT_DEPTH - node.depth - 1)
    ensures NodesSize(fan.children) <= Times(MAX_FANOUT_CHILDREN, each)
    decreases MAX_FANOUT_DEPTH - node.depth, 0
  {
    EveryFanIsGood(env, node, fan);
    hide IsRun, Size, NodesSize, FullTree, Times;
    forall i | 0 <= i < |fan.children| ensures Size(fan.children[i]) <= each {
      assert IsChild(fan.children[i], fan);
      SizeBound(env, fan.children[i], batches);
    }
    NodesSizeBound(fan.children, each);
    TimesGrows(|fan.children|, MAX_FANOUT_CHILDREN, each);
  }

  /** If no run finds more than `batches` batches, a tree is no bigger than the full one. */
  lemma {:induction false} SizeBound(env: Environment, node: Node, batches: nat)
    requires IsRun(env, node) && forall p :: |env.batches(p)| <= batches
    ensures Size(node) <= FullTree(batches, MAX_FANOUT_DEPTH - node.depth)
    decreases MAX_FANOUT_DEPTH - node.depth, 1
  {
    hide IsRun, NodesSize, GoodFan, Times, FansSize;
    var levels := MAX_FANOUT_DEPTH - node.depth;
    if node.fans == [] {
      NoFans();
    } else {
      assert IsFan(node.fans[0], node);
      EveryFanIsGood(env, node, node.fans[0]);
      var each := FullTree(batches, levels - 1);
      forall i | 0 <= i < |node.fans| ensures NodesSize(node.fans[i].children) <= Times(MAX_FANOUT_CHILDREN, each) {
        assert IsFan(node.fans[i], node);
        FanSizeBound(env, node, node.fans[i], batches, each);
      }
      FansSizeBound(node.fans, Times(MAX_FANOUT_CHILDREN, each));
      TimesGrows(|node.fans|, batches, Times(MAX_FANOUT_CHILDREN, each));
    }
  }

  lemma NoFans()
    ensures FansSize([]) == 0
  {
  }

  lemma OneLevel(batches: nat, levels: nat)
    requires levels > 0
    ensures FullTree(batches, levels) == 1 + MAX_FANOUT_CHILDREN * batches * FullTree(batches, levels - 1)
  {
    hide Times;
    TimesTwice(batches, FullTree(batches, levels - 1));
  }

  /** In numbers: 1 + n + n*n + n*n*n runs for n = 50 batches a run. */
  lemma FullTreeInNumbers(batches: nat)
    ensures var n := MAX_FANOUT_CHILDREN * batches; FullTree(batches, MAX_FANOUT_DEPTH) == 1 + n * (1 + n * (1 + n))
  {
    var n := MAX_FANOUT_CHILDREN * batches;
    assert FullTree(batches, 0) == 1;
    hide FullTree;
    OneLevel(batches, 1);
    OneLevel(batches, 2);
    OneLevel(batches, 3);
    assert FullTree(batches, 1) == 1 + n;
    assert FullTree(batches, 2) == 1 + n * (1 + n);
  }

  lemma TimesTwice(batches: nat, each: nat)
    ensures Times(batches, Times(MAX_FANOUT_CHILDREN, each)) == MAX_FANOUT_CHILDREN * batches * each
  {
    TimesIsProduct(MAX_FANOUT_CHILDREN, each);
    TimesIsProduct(batches, MAX_FANOUT_CHILDREN * each);
    assert batches * (MAX_FANOUT_CHILDREN * each) == MAX_FANOUT_CHILDREN * batches * each;
  }
}
