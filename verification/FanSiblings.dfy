/** Siblings of one batch, and when they repeat a hash. */
module FanSiblings {
  import opened FanOut
  import opened FanTrees

  ghost predicate ShareHash(children: seq<Node>) {
    exists m, n :: 0 <= m < n < |children| && children[m].sha256 == children[n].sha256
  }

  ghost predicate SpawnTwice(visited: set<string>, found: seq<Found>) {
    exists i, j :: 0 <= i < j < |found| && Spawns(visited, found[i]) && Spawns(visited, found[j]) && found[i].sha256 == found[j].sha256
  }

  /** Siblings share a hash if and only if two artifacts of the batch do that both get a child: only the
      parent's own history is consulted. */
  lemma SiblingsRepeatIff(env: Environment, path: Path, depth: nat, visited: set<string>, k: nat, batch: Batch)
    requires depth < MAX_FANOUT_DEPTH
    ensures ShareHash(FanFor(env, path, depth, visited, k, batch).children) <==> SpawnTwice(visited, Capped(batch.found))
  {
    hide Tree, Children, Succeeded, Spawning, Hashes, ShareHash, SpawnTwice, Capped;
    var capped := Capped(batch.found);
    ChildrenHashes(env, path, depth, visited, visited + Hashes(capped), k, capped);
    HashesRepeat(visited, capped, Children(env, path, depth, visited, visited + Hashes(capped), k, capped));
  }

  ghost predicate HashesOf(visited: set<string>, found: seq<Found>, children: seq<Node>) {
    var at := Spawning(visited, found);
    |children| == |at| && forall m :: 0 <= m < |at| ==> at[m] < |found| && children[m].sha256 == found[at[m]].sha256
  }

  lemma ChildrenHashes(
    env: Environment, path: Path, depth: nat, visited: set<string>, known: set<string>, k: nat, found: seq<Found>)
    requires depth < MAX_FANOUT_DEPTH
    ensures HashesOf(visited, found, Children(env, path, depth, visited, known, k, found))
  {
    hide Tree, Children, Spawning;
    ChildrenMeaning(env, path, depth, visited, known, k, found);
    var children, at := Children(env, path, depth, visited, known, k, found), Spawning(visited, found);
    forall m | 0 <= m < |at| ensures at[m] < |found| && children[m].sha256 == found[at[m]].sha256 {
      assert ChildAt(env, path, depth, known, k, found, at[m], children[m]);
      TreeIsRun(env, path + [(k, at[m])], found[at[m]].sha256, depth + 1, known);
    }
  }

  lemma HashesRepeat(visited: set<string>, found: seq<Found>, children: seq<Node>)
    requires HashesOf(visited, found, children)
    ensures ShareHash(children) <==> SpawnTwice(visited, found)
  {
    hide Spawning, Spawns, ShareHash, SpawnTwice, HashesOf;
    if ShareHash(children) {
      SharedIsSpawned(visited, found, children);
    }
    if SpawnTwice(visited, found) {
      SpawnedIsShared(visited, found, children);
    }
  }

  lemma SharedIsSpawned(visited: set<string>, found: seq<Found>, children: seq<Node>)
    requires HashesOf(visited, found, children) && ShareHash(children)
    ensures SpawnTwice(visited, found)
  {
    hide Spawning, Spawns;
    var at := Spawning(visited, found);
    SpawningMeaning(visited, found);
    var m, n :| 0 <= m < n < |children| && children[m].sha256 == children[n].sha256;
    assert at[m] < at[n] && Spawns(visited, found[at[m]]) && Spawns(visited, found[at[n]]);
  }

  lemma SpawnedIsShared(visited: set<string>, found: seq<Found>, children: seq<Node>)
    requires HashesOf(visited, found, children) && SpawnTwice(visited, found)
    ensures ShareHash(children)
  {
    hide Spawning, Spawns;
    var at := Spawning(visited, found);
    SpawningMeaning(visited, found);
    var i: nat, j: nat :| i < j < |found| && Spawns(visited, found[i]) && Spawns(visited, found[j]) && found[i].sha256 == found[j].sha256;
    var m :| 0 <= m < |at| && at[m] == i;
    var n :| 0 <= n < |at| && at[n] == j;
    assert m < n;
  }

  /** And they can: a tree with two children of one hash. */
  lemma SiblingsMayRepeat() returns (env: Environment)
    ensures var root := Tree(env, [], "", 0, {});
            && |root.fans| == 1 && |root.fans[0].children| == 2
            && root.fans[0].children[0].sha256 == root.fans[0].children[1].sha256
  {
    var twice := [Found("x", true), Found("x", true)];
    env := Environment((p: Path) => [Batch("a", twice)], (p: Path) => true);
    RootFans(env);
    FansMeaning(env, [], 0, {}, env.batches([]));
    hide Tree, Fans, FanFor;
    TwoChildren(env, twice);
    FanChildren(env, Batch("a", twice));
  }

  lemma TwoChildren(env: Environment, twice: seq<Found>)
    requires twice == [Found("x", true), Found("x", true)]
    ensures var known := {} + Hashes(twice);
            var children := Children(env, [], 0, {}, known, 0, twice);
            && |children| == 2 && children[0].sha256 == children[1].sha256
  {
    var known := {} + Hashes(twice);
    TreeIsRun(env, [(0, 0)], "x", 1, known);
    TreeIsRun(env, [(0, 1)], "x", 1, known);
    hide Tree, Hashes;
    assert twice[..1][..0] == [] && [] + [(0, 0)] == [(0, 0)] && [] + [(0, 1)] == [(0, 1)];
    assert Children(env, [], 0, {}, known, 0, []) == [];
    assert Children(env, [], 0, {}, known, 0, twice[..1]) == [Tree(env, [(0, 0)], "x", 1, known)];
  }

  lemma FanChildren(env: Environment, batch: Batch)
    ensures var capped := Capped(batch.found);
            FanFor(env, [], 0, {}, 0, batch).children == Children(env, [], 0, {}, {} + Hashes(capped), 0, capped)
  {
  }

  lemma RootFans(env: Environment)
    ensures Tree(env, [], "", 0, {}).fans == Fans(env, [], 0, {}, env.batches([]))
  {
  }
}
