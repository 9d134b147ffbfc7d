/** The configuration and the path from a root partition to a requested one
    (src/config.rs:37-94, src/main.rs:367-384). */
module Config {
  import opened Streams

  type Name = string

  datatype Partition = Partition(name: Name, uuid: string, parent: Option<Name>, keyslot: Option<Name>)

  datatype Source = Stdin | File(partition: Name, file: string)

  datatype Config = Config(partitions: map<Name, Partition>, keyslots: map<Name, Source>)

  // ----- paths -----

  /** Neighbours are parent-linked, the first is a root, the last is `name`. */
  predicate ValidPath(c: Config, name: Name, path: seq<Name>) {
    && path != []
    && path[|path| - 1] == name
    && (forall i | 0 <= i < |path| :: path[i] in c.partitions)
    && c.partitions[path[0]].parent == None
    && (forall i | 1 <= i < |path| :: c.partitions[path[i]].parent == Some(path[i - 1]))
  }

  /** The path found by following parents for at most `n` steps. */
  function Climb(c: Config, name: Name, n: nat): Option<seq<Name>>
    decreases n
  {
    if name !in c.partitions then None
    else
      match c.partitions[name].parent
      case None => Some([name])
      case Some(parent) =>
        if n == 0 then None
        else
          match Climb(c, parent, n - 1)
          case None => None
          case Some(path) => Some(path + [name])
  }

  /** The parent chain ends in a root and never leaves the configuration. */
  predicate Grounded(c: Config, name: Name) {
    Climb(c, name, |c.partitions|).Some?
  }

  function PathOf(c: Config, name: Name): (path: seq<Name>)
    requires Grounded(c, name)
    ensures ValidPath(c, name, path)
  {
    ClimbValid(c, name, |c.partitions|);
    Climb(c, name, |c.partitions|).value
  }

  lemma {:induction false} ClimbValid(c: Config, name: Name, n: nat)
    requires Climb(c, name, n).Some?
    ensures ValidPath(c, name, Climb(c, name, n).value) && |Climb(c, name, n).value| <= n + 1
    decreases n
  {
    if c.partitions[name].parent.Some? {
      var parent := c.partitions[name].parent.value;
      ClimbValid(c, parent, n - 1);
    }
  }

  lemma {:induction false} ClimbFinds(c: Config, name: Name, path: seq<Name>, n: nat)
    requires ValidPath(c, name, path) && |path| <= n + 1
    ensures Climb(c, name, n) == Some(path)
    decreases n
  {
    if |path| > 1 {
      var up := path[..|path| - 1];
      ClimbFinds(c, path[|path| - 2], up, n - 1);
      assert path == up + [name];
    } else {
      assert path == [name];
    }
  }

  /** Two equal entries would have equal parents, down to a root that has one. */
  lemma {:induction false} NoRepeat(c: Config, name: Name, path: seq<Name>, i: nat, j: nat)
    requires ValidPath(c, name, path) && i < j < |path|
    ensures path[i] != path[j]
  {
    assert c.partitions[path[j]].parent == Some(path[j - 1]);
    if i > 0 {
      NoRepeat(c, name, path, i - 1, j - 1);
      assert c.partitions[path[i]].parent == Some(path[i - 1]);
    }
  }

  lemma {:induction false} DistinctBounded<T>(s: seq<T>, all: set<T>)
    requires forall i, j | 0 <= i < j < |s| :: s[i] != s[j]
    requires forall x | x in s :: x in all
    ensures |s| <= |all|
  {
    if s != [] {
      var last, rest := s[|s| - 1], s[..|s| - 1];
      assert forall x | x in rest :: x != last;
      DistinctBounded(rest, all - {last});
    }
  }

  lemma PathBounded(c: Config, name: Name, path: seq<Name>)
    requires ValidPath(c, name, path)
    ensures forall i, j | 0 <= i < j < |path| :: path[i] != path[j]
    ensures |path| <= |c.partitions|
  {
    forall i, j | 0 <= i < j < |path| ensures path[i] != path[j] {
      NoRepeat(c, name, path, i, j);
    }
    DistinctBounded(path, c.partitions.Keys);
  }

  /** A root-first, parent-linked path to a partition exists exactly when its parent
      chain is closed and acyclic; it is the only one and has no duplicates. */
  lemma PathExists(c: Config, name: Name)
    ensures Grounded(c, name) <==> exists path :: ValidPath(c, name, path)
    ensures forall path | ValidPath(c, name, path) ::
      && Grounded(c, name) && path == PathOf(c, name)
      && |path| <= |c.partitions|
      && forall i, j | 0 <= i < j < |path| :: path[i] != path[j]
  {
    forall path | ValidPath(c, name, path)
      ensures Grounded(c, name) && path == PathOf(c, name) && |path| <= |c.partitions|
      ensures forall i, j | 0 <= i < j < |path| :: path[i] != path[j]
    {
      PathBounded(c, name, path);
      ClimbFinds(c, name, path, |c.partitions|);
    }
    if Grounded(c, name) {
      assert ValidPath(c, name, PathOf(c, name));
    }
  }

  function Reversed<T>(s: seq<T>): (r: seq<T>)
    ensures |r| == |s|
    ensures forall i | 0 <= i < |s| :: r[i] == s[|s| - 1 - i]
  {
    if s == [] then [] else Reversed(s[1..]) + [s[0]]
  }

  // ----- the loop -----

  /** The name looked up in round `i` of the loop; None once a root has been seen or a
      name was missing. */
  function Ancestor(c: Config, name: Name, i: nat): Option<Name> {
    if i == 0 then Some(name)
    else
      match Ancestor(c, name, i - 1)
      case None => None
      case Some(n) => if n in c.partitions then c.partitions[n].parent else None
  }

  ghost predicate Terminates(c: Config, name: Name) {
    exists n: nat :: Ancestor(c, name, n).None?
  }

  /** Rounds `i` and `j` look up the same name. */
  predicate Repeats(c: Config, name: Name, i: nat, j: nat) {
    i < j && Ancestor(c, name, j).Some? && Ancestor(c, name, i) == Ancestor(c, name, j)
  }

  lemma {:induction false} SameOnwards(c: Config, name: Name, i: nat, j: nat, k: nat)
    requires Ancestor(c, name, i) == Ancestor(c, name, j)
    ensures Ancestor(c, name, i + k) == Ancestor(c, name, j + k)
  {
    if k > 0 { SameOnwards(c, name, i, j, k - 1); }
  }

  lemma {:induction false} NoneOnwards(c: Config, name: Name, i: nat, j: nat)
    requires i <= j && Ancestor(c, name, i).None?
    ensures Ancestor(c, name, j).None?
  {
    if i < j { NoneOnwards(c, name, i, j - 1); }
  }

  /** After a repeated name every round repeats an earlier one. */
  lemma {:induction false} RepeatsForever(c: Config, name: Name, i: nat, j: nat, n: nat)
    requires Repeats(c, name, i, j)
    ensures Ancestor(c, name, n).Some?
  {
    if n <= j {
      if Ancestor(c, name, n).None? { NoneOnwards(c, name, n, j); }
    } else {
      SameOnwards(c, name, i, j, n - j);
      RepeatsForever(c, name, i, j, i + (n - j));
    }
  }

  lemma {:induction false} AncestorInside(c: Config, name: Name, i: nat)
    requires Ancestor(c, name, i + 1).Some?
    ensures Ancestor(c, name, i).Some? && Ancestor(c, name, i).value in c.partitions
  {
  }

  /** Parent chains end if and only if no name comes twice, and then after at most one
      round more than there are partitions. */
  lemma ChainEnds(c: Config, name: Name)
    ensures Terminates(c, name) <==> forall i: nat, j: nat :: !Repeats(c, name, i, j)
    ensures Terminates(c, name) ==> Ancestor(c, name, |c.partitions| + 1).None?
  {
    if i: nat, j: nat :| Repeats(c, name, i, j) {
      forall n: nat ensures Ancestor(c, name, n).Some? { RepeatsForever(c, name, i, j, n); }
    } else if Ancestor(c, name, |c.partitions| + 1).Some? {
      Pigeonhole(c, name);
    }
  }

  lemma Pigeonhole(c: Config, name: Name)
    requires Ancestor(c, name, |c.partitions| + 1).Some?
    ensures exists i: nat, j: nat :: Repeats(c, name, i, j)
  {
    var n := |c.partitions| + 1;
    forall i: nat | i < n ensures Ancestor(c, name, i).Some? && Ancestor(c, name, i).value in c.partitions {
      if Ancestor(c, name, i + 1).None? { NoneOnwards(c, name, i + 1, n); }
      AncestorInside(c, name, i);
    }
    var s := seq(n, i requires 0 <= i < n => Ancestor(c, name, i).value);
    if forall i, j | 0 <= i < j < |s| :: s[i] != s[j] {
      DistinctBounded(s, c.partitions.Keys);
    } else {
      var i, j :| 0 <= i < j < |s| && s[i] == s[j];
      assert Repeats(c, name, i, j);
    }
  }

  /** Along a path the rounds go up to its root. */
  lemma {:induction false} AncestorOnPath(c: Config, name: Name, path: seq<Name>, i: nat)
    requires ValidPath(c, name, path)
    ensures Ancestor(c, name, i) == if i < |path| then Some(path[|path| - 1 - i]) else None
  {
    if i > 0 {
      AncestorOnPath(c, name, path, i - 1);
      if i < |path| { assert c.partitions[path[|path| - i]].parent == Some(path[|path| - i - 1]); }
    }
  }

  lemma GroundedTerminates(c: Config, name: Name)
    requires Grounded(c, name)
    ensures Terminates(c, name)
  {
    var path := PathOf(c, name);
    AncestorOnPath(c, name, path, |path|);
  }

  /** The path-building loop of `resolve_and_read_file`: the path of a grounded chain, or
      None for the panic at a missing partition. Other chains never end. */
  method ResolvePath(c: Config, name: Name) returns (path: Option<seq<Name>>, ghost rounds: nat)
    requires Terminates(c, name)
    ensures path == if Grounded(c, name) then Some(PathOf(c, name)) else None
    ensures rounds <= |c.partitions| + 1
    ensures path.Some? ==> rounds == |path.value|
  {
    ChainEnds(c, name);
    ghost var bound := |c.partitions| + 1;
    var partitions := [];
    var current := name;
    rounds := 1;
    while true
      invariant 1 <= rounds == |partitions| + 1 <= bound
      invariant Ancestor(c, name, |partitions|) == Some(current)
      invariant partitions != [] ==> partitions[0] == name
      invariant forall p | p in partitions :: p in c.partitions
      invariant forall i | 1 <= i < |partitions| :: c.partitions[partitions[i - 1]].parent == Some(partitions[i])
      invariant partitions != [] ==> c.partitions[partitions[|partitions| - 1]].parent == Some(current)
      decreases bound - rounds
    {
      if current !in c.partitions {
        MissingIsUngrounded(c, name, |partitions|);
        return None, rounds;
      }
      var partition := c.partitions[current];
      partitions := partitions + [current];
      match partition.parent {
        case Some(parent) => current := parent;
        case None => break;
      }
      rounds := rounds + 1;
    }
    path := Some(Reversed(partitions));
    assert ValidPath(c, name, path.value);
    PathExists(c, name);
  }

  lemma MissingIsUngrounded(c: Config, name: Name, i: nat)
    requires Ancestor(c, name, i).Some? && Ancestor(c, name, i).value !in c.partitions
    ensures !Grounded(c, name)
  {
    if Grounded(c, name) { AncestorOnPath(c, name, PathOf(c, name), i); }
  }
}
