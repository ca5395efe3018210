/** Recursive fan-out: a workflow that finds extracted artifacts runs itself on each of them in a child thread.
    Which artifacts each run finds, whether their threads can be created and whether their runs succeed is up
    to an environment that knows every run by its path from the root. */
module FanOut {
  const MAX_FANOUT_DEPTH: nat := 3
  const MAX_FANOUT_CHILDREN: nat := 50

  /** From the root down: the position of the batch in the run, and of the artifact in the batch. */
  type Path = seq<(nat, nat)>

  datatype Found = Found(sha256: string, threadCreated: bool)

  /** The artifacts one group of steps extracted from one parent artifact. */
  datatype Batch = Batch(parent: string, found: seq<Found>)

  datatype Environment = Environment(batches: Path -> seq<Batch>, succeeds: Path -> bool)

  /** One run and everything it spawned. */
  datatype Node = Node(path: Path, sha256: string, depth: nat, visited: set<string>, fans: seq<Fan>)

  datatype Fan = Fan(parent: string, children: seq<Node>, completed: nat, failed: nat)

  function Capped(found: seq<Found>): seq<Found> {
    if |found| > MAX_FANOUT_CHILDREN then found[..MAX_FANOUT_CHILDREN] else found
  }

  function Hashes(found: seq<Found>): set<string> {
    set i | 0 <= i < |found| :: found[i].sha256
  }

  predicate Spawns(visited: set<string>, f: Found) {
    f.sha256 !in visited && f.threadCreated
  }

  // ---------------------------------------------------------------- the tree as a function

  function Tree(env: Environment, path: Path, sha256: string, depth: nat, visited: set<string>): Node
    requires depth <= MAX_FANOUT_DEPTH
    decreases MAX_FANOUT_DEPTH - depth, 2, 0
  {
    Node(path, sha256, depth, visited,
         if depth < MAX_FANOUT_DEPTH then Fans(env, path, depth, visited, env.batches(path)) else [])
  }

  function Fans(env: Environment, path: Path, depth: nat, visited: set<string>, batches: seq<Batch>): seq<Fan>
    requires depth < MAX_FANOUT_DEPTH
    decreases MAX_FANOUT_DEPTH - depth, 1, |batches|
  {
    if batches == [] then []
    else
      var k := |batches| - 1;
      Fans(env, path, depth, visited, batches[..k]) + [FanFor(env, path, depth, visited, k, batches[k])]
  }

  function FanFor(env: Environment, path: Path, depth: nat, visited: set<string>, k: nat, batch: Batch): Fan
    requires depth < MAX_FANOUT_DEPTH
    decreases MAX_FANOUT_DEPTH - depth, 0, |batch.found| + 1
  {
    var capped := Capped(batch.found);
    var children := Children(env, path, depth, visited, visited + Hashes(capped), k, capped);
    Fan(batch.parent, children, Succeeded(env, children, true), Succeeded(env, children, false))
  }

  /** The children of one batch; all of them know all the hashes of the batch. */
  function Children(
    env: Environment, path: Path, depth: nat, visited: set<string>, known: set<string>, k: nat, found: seq<Found>): seq<Node>
    requires depth < MAX_FANOUT_DEPTH
    decreases MAX_FANOUT_DEPTH - depth, 0, |found|
  {
    if found == [] then []
    else
      var i := |found| - 1;
      Children(env, path, depth, visited, known, k, found[..i]) +
      if Spawns(visited, found[i]) then [Tree(env, path + [(k, i)], found[i].sha256, depth + 1, known)] else []
  }

  /** How many of these runs end as asked. */
  function Succeeded(env: Environment, children: seq<Node>, ok: bool): nat {
    if children == [] then 0
    else
      var last := children[|children| - 1];
      Succeeded(env, children[..|children| - 1], ok) + if env.succeeds(last.path) == ok then 1 else 0
  }

  // ---------------------------------------------------------------- the run itself

  method ExecuteWorkflow(env: Environment, path: Path, sha256: string, depth: nat, visited: set<string>) returns (node: Node)
    requires depth <= MAX_FANOUT_DEPTH
    ensures node == Tree(env, path, sha256, depth, visited)
    decreases MAX_FANOUT_DEPTH - depth, 1
  {
    var fans: seq<Fan> := [];
    if depth < MAX_FANOUT_DEPTH {
      var batches := env.batches(path);
      for k := 0 to |batches|
        invariant fans == Fans(env, path, depth, visited, batches[..k])
      {
        assert batches[..k + 1][..k] == batches[..k];
        var fan := SpawnChildren(env, path, depth, visited, k, batches[k]);
        fans := fans + [fan];
      }
      assert batches[..|batches|] == batches;
    }
    node := Node(path, sha256, depth, visited, fans);
  }

  method SpawnChildren(env: Environment, path: Path, depth: nat, visited: set<string>, k: nat, batch: Batch) returns (fan: Fan)
    requires depth < MAX_FANOUT_DEPTH
    ensures fan == FanFor(env, path, depth, visited, k, batch)
    decreases MAX_FANOUT_DEPTH - depth, 0
  {
    hide Tree, Children, Hashes, Succeeded;
    var capped := if |batch.found| > MAX_FANOUT_CHILDREN then batch.found[..MAX_FANOUT_CHILDREN] else batch.found;
    var hashes := CollectHashes(capped);
    var children := Spawn(env, path, depth, visited, visited + hashes, k, capped);
    var completed, failed := Await(env, children);
    fan := Fan(batch.parent, children, completed, failed);
  }

  method CollectHashes(found: seq<Found>) returns (hashes: set<string>)
    ensures hashes == Hashes(found)
  {
    hashes := {};
    for i := 0 to |found|
      invariant hashes == Hashes(found[..i])
    {
      hashes := hashes + {found[i].sha256};
    }
    assert found[..|found|] == found;
  }

  method Spawn(
    env: Environment, path: Path, depth: nat, visited: set<string>, childVisited: set<string>, k: nat, found: seq<Found>)
    returns (children: seq<Node>)
    requires depth < MAX_FANOUT_DEPTH
    ensures children == Children(env, path, depth, visited, childVisited, k, found)
    decreases MAX_FANOUT_DEPTH - depth - 1, 2
  {
    children := [];
    for i := 0 to |found|
      invariant children == Children(env, path, depth, visited, childVisited, k, found[..i])
    {
      assert found[..i + 1][..i] == found[..i];
      if found[i].sha256 in visited {
        continue;
      }
      if !found[i].threadCreated {
        continue;
      }
      var child := ExecuteWorkflow(env, path + [(k, i)], found[i].sha256, depth + 1, childVisited);
      children := children + [child];
    }
    assert found[..|found|] == found;
  }

  method Await(env: Environment, children: seq<Node>) returns (completed: nat, failed: nat)
    ensures completed == Succeeded(env, children, true) && failed == Succeeded(env, children, false)
  {
    completed, failed := 0, 0;
    for i := 0 to |children|
      invariant completed == Succeeded(env, children[..i], true) && failed == Succeeded(env, children[..i], false)
    {
      assert children[..i + 1][..i] == children[..i];
      if env.succeeds(children[i].path) {
        completed := completed + 1;
      } else {
        failed := failed + 1;
      }
    }
    assert children[..|children|] == children;
  }
}
