/** Which keyslots need which: a rank that falls along the needs of every keyslot exists
    exactly when no keyslot needs itself, directly or through others. */
module KeyGraph {
  import opened Config

  /** The keyslots each keyslot needs. */
  type Graph = map<Name, set<Name>>

  predicate Step(g: Graph, a: Name, b: Name) {
    a in g && b in g && b in g[a]
  }

  /** Each keyslot of the chain needs the next one. */
  predicate Chain(g: Graph, path: seq<Name>) {
    forall i | 0 <= i < |path| - 1 :: Step(g, path[i], path[i + 1])
  }

  /** A chain of keyslots that returns to its start. */
  predicate Cycle(g: Graph, path: seq<Name>) {
    |path| >= 2 && path[0] == path[|path| - 1] && Chain(g, path)
  }

  ghost predicate Acyclic(g: Graph) {
    forall path: seq<Name> :: !Cycle(g, path)
  }

  ghost predicate Falls(g: Graph, rank: Name -> nat) {
    forall a, b | Step(g, a, b) :: rank(b) < rank(a)
  }

  lemma {:induction false} FallsAlong(g: Graph, rank: Name -> nat, path: seq<Name>)
    requires Falls(g, rank) && Chain(g, path) && |path| >= 2
    ensures rank(path[|path| - 1]) < rank(path[0])
  {
    var n := |path|;
    assert Step(g, path[n - 2], path[n - 1]);
    if n > 2 { FallsAlong(g, rank, path[..n - 1]); }
  }

  ghost predicate NeedsNone(g: Graph, a: Name) {
    forall b :: !Step(g, a, b)
  }

  lemma Next(g: Graph, a: Name) returns (b: Name)
    requires a in g && !NeedsNone(g, a)
    ensures Step(g, a, b)
  {
    b :| Step(g, a, b);
  }

  /** Where every keyslot needs another one, a chain never has to stop. */
  lemma {:induction false} Walk(g: Graph, start: Name, n: nat) returns (path: seq<Name>)
    requires start in g && forall a | a in g :: !NeedsNone(g, a)
    ensures |path| == n + 1 && Chain(g, path) && forall a | a in path :: a in g
  {
    hide NeedsNone;
    if n == 0 {
      path := [start];
    } else {
      var up := Walk(g, start, n - 1);
      var b := Next(g, up[n - 1]);
      path := up + [b];
    }
  }

  /** A chain longer than there are keyslots comes by one of them twice. */
  lemma LongChainCycles(g: Graph, path: seq<Name>)
    requires |path| > |g| && Chain(g, path) && forall a | a in path :: a in g
    ensures !Acyclic(g)
  {
    if forall i, j | 0 <= i < j < |path| :: path[i] != path[j] {
      DistinctBounded(path, g.Keys);
    } else {
      var i, j :| 0 <= i < j < |path| && path[i] == path[j];
      assert Cycle(g, path[i..j + 1]);
    }
  }

  lemma SomeNeedsNone(g: Graph) returns (a: Name)
    requires Acyclic(g) && g != map[]
    ensures a in g && NeedsNone(g, a)
  {
    hide NeedsNone, Acyclic, Chain;
    if forall x | x in g :: !NeedsNone(g, x) {
      var start :| start in g;
      var path := Walk(g, start, |g|);
      LongChainCycles(g, path);
    }
    a :| a in g && NeedsNone(g, a);
  }

  lemma PartCycle(g: Graph, a: Name, path: seq<Name>)
    ensures Cycle(g - {a}, path) ==> Cycle(g, path)
  {
  }

  /** Take away a keyslot that needs no other, and rank it below all that are left. */
  lemma {:induction false} RankExists(g: Graph) returns (rank: Name -> nat)
    requires Acyclic(g)
    ensures Falls(g, rank)
    decreases |g|
  {
    if g == map[] {
      rank := _ => 0;
    } else {
      var a := SomeNeedsNone(g);
      forall path: seq<Name> ensures !Cycle(g - {a}, path) { PartCycle(g, a, path); }
      assert (g - {a}).Keys == g.Keys - {a};
      var rest := RankExists(g - {a});
      rank := (x: Name) => if x == a then 0 else rest(x) + 1;
      forall x, y | Step(g, x, y) ensures rank(y) < rank(x) {
        if y != a { assert Step(g - {a}, x, y); }
      }
    }
  }

  /** A rank exists if and only if no chain of needs returns to its start. */
  lemma RankExact(g: Graph)
    ensures Acyclic(g) <==> exists rank: Name -> nat :: Falls(g, rank)
  {
    if Acyclic(g) {
      var rank := RankExists(g);
      assert Falls(g, rank);
    }
    if rank: Name -> nat :| Falls(g, rank) {
      forall path: seq<Name> ensures !Cycle(g, path) {
        if Cycle(g, path) { FallsAlong(g, rank, path); }
      }
    }
  }

  ghost function SomeRank(g: Graph): (rank: Name -> nat)
    requires Acyclic(g)
    ensures Falls(g, rank)
  {
    RankExact(g);
    var rank: Name -> nat :| Falls(g, rank);
    rank
  }
}
