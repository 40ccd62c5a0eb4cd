/**
 The cache cleanup walk over a file system that it changes while walking, proved to leave exactly the
 paths that a one-line filter keeps. File operations are taken to succeed.
 */
module CacheCleanup {
  import opened Common

  type Path = seq<string>

  /** What `symlink_metadata` tells: it never looks behind a link. */
  datatype Node = File(size: nat, modified: Option<int>) | Dir | Symlink(target: Path) | Special

  type Nodes = map<Path, Node>

  function Parent(p: Path): Path
    requires p != []
  {
    p[..|p| - 1]
  }

  /** Everything below a path hangs in a directory. */
  ghost predicate WellFormed(nodes: Nodes, path: Path) {
    forall p :: p in nodes && path < p ==> Parent(p) in nodes && nodes[Parent(p)].Dir?
  }

  predicate IsOld(n: Node, cutoff: int) {
    n.File? && n.modified.Some? && n.modified.value <= cutoff
  }

  // ---- the filter ----

  predicate KeptLeaf(nodes: Nodes, p: Path, cutoff: int) {
    p in nodes && !nodes[p].Dir? && !IsOld(nodes[p], cutoff)
  }

  /** A leaf stays unless it is an old file; a directory stays if it is the root or a leaf below it stays. */
  ghost predicate Survives(nodes: Nodes, p: Path, root: Path, cutoff: int)
    requires p in nodes
  {
    if nodes[p].Dir? then p == root || exists q :: p < q && KeptLeaf(nodes, q, cutoff)
    else !IsOld(nodes[p], cutoff)
  }

  ghost predicate Stays(nodes: Nodes, p: Path, path: Path, root: Path, cutoff: int) {
    p in nodes && (path <= p ==> Survives(nodes, p, root, cutoff))
  }

  ghost function Cleaned(nodes: Nodes, path: Path, root: Path, cutoff: int): (r: Nodes)
    ensures forall p :: p in r <==> Stays(nodes, p, path, root, cutoff)
    ensures forall p :: p in r ==> p in nodes && r[p] == nodes[p]
  {
    map p | p in nodes && Stays(nodes, p, path, root, cutoff) :: nodes[p]
  }

  function Below(nodes: Nodes, path: Path): set<Path> {
    set p | p in nodes && path <= p
  }

  /** The old files below a path. */
  function Candidates(nodes: Nodes, path: Path, cutoff: int): set<Path> {
    set p | p in nodes && path <= p && IsOld(nodes[p], cutoff)
  }

  /** The directories below a path that the walk removes. */
  ghost function Emptied(nodes: Nodes, path: Path, root: Path, cutoff: int): set<Path> {
    set p | p in nodes && path <= p && nodes[p].Dir? && !Survives(nodes, p, root, cutoff)
  }

  function Size(nodes: Nodes, p: Path): nat {
    if p in nodes && nodes[p].File? then nodes[p].size else 0
  }

  ghost function Total(nodes: Nodes, paths: set<Path>): nat {
    if paths == {} then 0
    else
      var p :| p in paths;
      Size(nodes, p) + Total(nodes, paths - {p})
  }

  lemma {:induction false} TotalWithout(nodes: Nodes, paths: set<Path>, x: Path)
    requires x in paths
    ensures Total(nodes, paths) == Size(nodes, x) + Total(nodes, paths - {x})
  {
    var p :| p in paths && Total(nodes, paths) == Size(nodes, p) + Total(nodes, paths - {p});
    if p != x {
      TotalWithout(nodes, paths - {p}, x);
      TotalWithout(nodes, paths - {x}, p);
      assert paths - {p} - {x} == paths - {x} - {p};
    }
  }

  lemma {:induction false} TotalOfUnion(nodes: Nodes, a: set<Path>, b: set<Path>)
    requires a !! b
    ensures Total(nodes, a + b) == Total(nodes, a) + Total(nodes, b)
  {
    if a == {} {
      assert a + b == b;
    } else {
      var x :| x in a;
      TotalWithout(nodes, a, x);
      TotalWithout(nodes, a + b, x);
      assert a + b - {x} == (a - {x}) + b;
      TotalOfUnion(nodes, a - {x}, b);
    }
  }

  lemma {:induction false} TotalDependsOnSizes(nodes: Nodes, others: Nodes, paths: set<Path>)
    requires forall p :: p in paths ==> Size(nodes, p) == Size(others, p)
    ensures Total(nodes, paths) == Total(others, paths)
  {
    if paths != {} {
      var x :| x in paths;
      TotalWithout(nodes, paths, x);
      TotalWithout(others, paths, x);
      TotalDependsOnSizes(nodes, others, paths - {x});
    }
  }

  // ---- what the filter means ----

  lemma {:induction false} DirectoriesWeighNothing(nodes: Nodes, paths: set<Path>)
    requires forall p :: p in paths ==> p in nodes && nodes[p].Dir?
    ensures Total(nodes, paths) == 0
  {
    if paths != {} {
      var x :| x in paths;
      TotalWithout(nodes, paths, x);
      DirectoriesWeighNothing(nodes, paths - {x});
    }
  }

  /** Every path is either left, an old file, or an emptied directory; the bytes that go are the candidates' bytes. */
  lemma NothingUnaccounted(nodes: Nodes, path: Path, root: Path, cutoff: int)
    ensures var left := Below(Cleaned(nodes, path, root, cutoff), path);
            var files, directories := Candidates(nodes, path, cutoff), Emptied(nodes, path, root, cutoff);
            && left !! files !! directories
            && Below(nodes, path) == left + files + directories
            && |Below(nodes, path)| == |left| + |files| + |directories|
            && Total(nodes, Below(nodes, path))
               == Total(Cleaned(nodes, path, root, cutoff), left) + Total(nodes, files)
  {
    var now := Cleaned(nodes, path, root, cutoff);
    var left := Below(now, path);
    var files, directories := Candidates(nodes, path, cutoff), Emptied(nodes, path, root, cutoff);
    assert Below(nodes, path) == left + files + directories;
    TotalOfUnion(nodes, left, files);
    TotalOfUnion(nodes, left + files, directories);
    DirectoriesWeighNothing(nodes, directories);
    TotalDependsOnSizes(nodes, now, left);
  }

  /** What is left is still a tree below the root: no survivor loses its directory. */
  lemma CleaningKeepsTheTree(nodes: Nodes, root: Path, cutoff: int)
    requires WellFormed(nodes, root)
    ensures WellFormed(Cleaned(nodes, root, root, cutoff), root)
  {
    var left := Cleaned(nodes, root, root, cutoff);
    forall p | p in left && root < p
      ensures Parent(p) in left && left[Parent(p)].Dir?
    {
      if nodes[p].Dir? {
        var q :| p < q && KeptLeaf(nodes, q, cutoff);
        assert Parent(p) < q;
      } else {
        assert Parent(p) < p && KeptLeaf(nodes, p, cutoff);
      }
    }
  }

  /** A second pass over the same tree finds nothing more to remove. */
  lemma CleaningTwiceIsCleaningOnce(nodes: Nodes, root: Path, cutoff: int)
    ensures var left := Cleaned(nodes, root, root, cutoff);
            && Cleaned(left, root, root, cutoff) == left
            && Candidates(left, root, cutoff) == {} && Emptied(left, root, root, cutoff) == {}
  {
    var left := Cleaned(nodes, root, root, cutoff);
    forall p | p in left && root <= p
      ensures Survives(left, p, root, cutoff)
    {
      if nodes[p].Dir? && p != root {
        var q :| p < q && KeptLeaf(nodes, q, cutoff);
        assert KeptLeaf(left, q, cutoff);
      }
    }
    assert Cleaned(left, root, root, cutoff) == left;
  }

  /**
   At or below the root a file is left exactly when it has no time or one after the cutoff, links and
   special files always are, and a directory is left exactly when it is the root or holds one of these.
   */
  lemma LeftIff(nodes: Nodes, root: Path, cutoff: int, p: Path)
    requires p in nodes && root <= p
    ensures var left := Cleaned(nodes, root, root, cutoff);
            p in left <==> match nodes[p]
                           case File(_, modified) => modified.None? || modified.value > cutoff
                           case Dir => p == root || exists q :: q in left && p < q && !left[q].Dir?
                           case _ => true
  {
    var left := Cleaned(nodes, root, root, cutoff);
    if nodes[p].Dir? {
      forall q | p < q
        ensures q in left && !left[q].Dir? <==> KeptLeaf(nodes, q, cutoff)
      {
        assert root <= q;
      }
    }
  }

  /** A later cutoff never leaves more. */
  lemma LaterLeavesLess(nodes: Nodes, root: Path, earlier: int, later: int)
    requires earlier <= later
    ensures var more, fewer := Cleaned(nodes, root, root, earlier), Cleaned(nodes, root, root, later);
            forall p :: p in fewer ==> p in more && fewer[p] == more[p]
  {
    forall p | p in nodes && root <= p && Survives(nodes, p, root, later)
      ensures Survives(nodes, p, root, earlier)
    {
      if nodes[p].Dir? && p != root {
        var q :| p < q && KeptLeaf(nodes, q, later);
        assert KeptLeaf(nodes, q, earlier);
      }
    }
  }

  // ---- one child after another ----

  /** The name of the child of `path` that p lies at or below. */
  function Child(path: Path, p: Path): string
    requires path < p
  {
    p[|path|]
  }

  function Names(nodes: Nodes, path: Path): set<string> {
    set p | p in nodes && path < p && |p| == |path| + 1 :: Child(path, p)
  }

  /** What is left once the children in `done` are cleaned. */
  ghost function CleanedIn(nodes: Nodes, path: Path, done: set<string>, root: Path, cutoff: int): (r: Nodes)
    ensures forall p :: p in r <==>
              p in nodes && (path < p && Child(path, p) in done ==> Survives(nodes, p, root, cutoff))
    ensures forall p :: p in r ==> p in nodes && r[p] == nodes[p]
  {
    map p | p in nodes && (path < p && Child(path, p) in done ==> Survives(nodes, p, root, cutoff)) :: nodes[p]
  }

  ghost function In(paths: set<Path>, path: Path, done: set<string>): set<Path> {
    set p | p in paths && path < p && Child(path, p) in done
  }

  ghost predicate SameBelow(a: Nodes, b: Nodes, path: Path) {
    forall p :: path <= p ==> (p in a <==> p in b) && (p in a ==> a[p] == b[p])
  }

  lemma SameBelowSame(a: Nodes, b: Nodes, path: Path, root: Path, cutoff: int)
    requires SameBelow(a, b, path)
    ensures forall p :: p in a && path <= p ==> Survives(a, p, root, cutoff) == Survives(b, p, root, cutoff)
    ensures Candidates(a, path, cutoff) == Candidates(b, path, cutoff)
    ensures Below(a, path) == Below(b, path)
    ensures WellFormed(a, path) ==> WellFormed(b, path)
    ensures Total(a, Candidates(a, path, cutoff)) == Total(b, Candidates(b, path, cutoff))
  {
    forall p | p in a && path <= p
      ensures Survives(a, p, root, cutoff) == Survives(b, p, root, cutoff)
    {
      assert forall q :: p < q ==> KeptLeaf(a, q, cutoff) == KeptLeaf(b, q, cutoff);
    }
    assert Candidates(a, path, cutoff) == Candidates(b, path, cutoff);
    assert Below(a, path) == Below(b, path);
    TotalDependsOnSizes(a, b, Candidates(a, path, cutoff));
    if WellFormed(a, path) {
      forall p | p in b && path < p
        ensures Parent(p) in b && b[Parent(p)].Dir?
      {
        assert path <= Parent(p);
      }
    }
  }

  lemma {:induction false} AncestorThere(nodes: Nodes, path: Path, p: Path)
    requires WellFormed(nodes, path) && p in nodes && path < p
    ensures p[..|path| + 1] in nodes && Child(path, p) in Names(nodes, path)
    ensures |p| > |path| + 1 ==> nodes[p[..|path| + 1]].Dir?
    decreases |p|
  {
    if |p| > |path| + 1 {
      assert path < Parent(p);
      AncestorThere(nodes, path, Parent(p));
      assert Parent(p)[..|path| + 1] == p[..|path| + 1];
      assert Child(path, Parent(p)) == Child(path, p);
    } else {
      assert p[..|path| + 1] == p;
    }
  }

  lemma UntouchedChild(nodes: Nodes, path: Path, done: set<string>, name: string, root: Path, cutoff: int)
    requires name !in done
    ensures SameBelow(nodes, CleanedIn(nodes, path, done, root, cutoff), path + [name])
    ensures forall p :: path + [name] <= p <==> path < p && Child(path, p) == name
  {
    assert forall p :: path + [name] <= p <==> path < p && Child(path, p) == name;
    hide Survives;
  }

  lemma OneMoreChild(nodes: Nodes, path: Path, done: set<string>, name: string, root: Path, cutoff: int)
    requires name !in done
    ensures SameBelow(nodes, CleanedIn(nodes, path, done, root, cutoff), path + [name])
    ensures Cleaned(CleanedIn(nodes, path, done, root, cutoff), path + [name], root, cutoff)
         == CleanedIn(nodes, path, done + {name}, root, cutoff)
  {
    hide Survives, SameBelow, Child, CleanedIn, Cleaned;
    UntouchedChild(nodes, path, done, name, root, cutoff);
    var now := CleanedIn(nodes, path, done, root, cutoff);
    SameBelowSame(nodes, now, path + [name], root, cutoff);
    assert Cleaned(now, path + [name], root, cutoff) == CleanedIn(nodes, path, done + {name}, root, cutoff);
  }

  lemma InOneMore(paths: set<Path>, path: Path, done: set<string>, name: string, more: set<Path>)
    requires name !in done
    requires forall p :: p in more <==> p in paths && path + [name] <= p
    ensures In(paths, path, done + {name}) == In(paths, path, done) + more
    ensures In(paths, path, done) !! more
    ensures |In(paths, path, done + {name})| == |In(paths, path, done)| + |more|
  {
    assert forall p :: path + [name] <= p <==> path < p && Child(path, p) == name;
    assert In(paths, path, done + {name}) == In(paths, path, done) + more;
  }

  /** After all children: a directory's own entries are gone exactly when no leaf below it stays. */
  lemma EmptyWhenNothingStays(nodes: Nodes, path: Path, root: Path, cutoff: int)
    requires WellFormed(nodes, path) && path in nodes && nodes[path].Dir? && root <= path
    ensures var left := CleanedIn(nodes, path, Names(nodes, path), root, cutoff);
            Names(left, path) == {} <==> !exists q :: path < q && KeptLeaf(nodes, q, cutoff)
  {
    var left := CleanedIn(nodes, path, Names(nodes, path), root, cutoff);
    if q :| path < q && KeptLeaf(nodes, q, cutoff) {
      AncestorThere(nodes, path, q);
      var child := q[..|path| + 1];
      assert child in left by {
        assert child == q || child < q;
      }
      assert Child(path, child) in Names(left, path);
    }
    if name :| name in Names(left, path) {
      var p :| p in left && path < p && |p| == |path| + 1 && Child(path, p) == name;
      assert Child(path, p) in Names(nodes, path);
      assert Survives(nodes, p, root, cutoff);
      if nodes[p].Dir? {
        var q :| p < q && KeptLeaf(nodes, q, cutoff);
        assert path < q;
      } else {
        assert KeptLeaf(nodes, p, cutoff);
      }
    }
  }

  /** Every path below a directory is the directory or lies at or below a child of it. */
  lemma BelowIsChildren(nodes: Nodes, path: Path)
    requires WellFormed(nodes, path)
    ensures forall p :: p in nodes && path <= p ==> p == path || (path < p && Child(path, p) in Names(nodes, path))
  {
    forall p | p in nodes && path <= p && p != path
      ensures path < p && Child(path, p) in Names(nodes, path)
    {
      AncestorThere(nodes, path, p);
    }
  }

  /** A directory stays when it is the root or something is left in it. */
  lemma DirectoryStays(nodes: Nodes, path: Path, root: Path, cutoff: int)
    requires WellFormed(nodes, path) && path in nodes && nodes[path].Dir? && root <= path
    ensures var left := CleanedIn(nodes, path, Names(nodes, path), root, cutoff);
            Survives(nodes, path, root, cutoff) <==> path == root || Names(left, path) != {}
  {
    EmptyWhenNothingStays(nodes, path, root, cutoff);
    hide Names, WellFormed, CleanedIn, KeptLeaf;
  }

  /** What is below a directory is cleaned with its children, and then the directory is left. */
  lemma CleanedByChildren(nodes: Nodes, path: Path, names: set<string>, root: Path, cutoff: int)
    requires path in nodes
    requires forall p :: p in nodes && path <= p ==> p == path || (path < p && Child(path, p) in names)
    ensures var left := CleanedIn(nodes, path, names, root, cutoff);
            && path in left
            && Cleaned(nodes, path, root, cutoff)
               == (if Survives(nodes, path, root, cutoff) then left else left - {path})
  {
    hide Survives, CleanedIn, Cleaned, Child;
  }

  /** Cleaning all children and then the directory itself is the filter. */
  lemma DirectoryDone(nodes: Nodes, path: Path, root: Path, cutoff: int)
    requires WellFormed(nodes, path) && path in nodes && nodes[path].Dir? && root <= path
    ensures var left := CleanedIn(nodes, path, Names(nodes, path), root, cutoff);
            && path in left
            && Cleaned(nodes, path, root, cutoff)
               == (if path != root && Names(left, path) == {} then left - {path} else left)
  {
    hide *;
    DirectoryStays(nodes, path, root, cutoff);
    BelowIsChildren(nodes, path);
    CleanedByChildren(nodes, path, Names(nodes, path), root, cutoff);
  }

  lemma DirectoryCandidates(nodes: Nodes, path: Path, cutoff: int)
    requires WellFormed(nodes, path) && path in nodes && nodes[path].Dir?
    ensures In(Candidates(nodes, path, cutoff), path, Names(nodes, path)) == Candidates(nodes, path, cutoff)
  {
    BelowIsChildren(nodes, path);
    hide Names, WellFormed;
  }

  lemma DirectoryEmptied(nodes: Nodes, path: Path, root: Path, cutoff: int)
    requires WellFormed(nodes, path) && path in nodes && nodes[path].Dir? && root <= path
    ensures var left := CleanedIn(nodes, path, Names(nodes, path), root, cutoff);
            var gone := In(Emptied(nodes, path, root, cutoff), path, Names(nodes, path));
            && path !in gone
            && Emptied(nodes, path, root, cutoff)
               == (if path != root && Names(left, path) == {} then gone + {path} else gone)
  {
    DirectoryStays(nodes, path, root, cutoff);
    BelowIsChildren(nodes, path);
    hide Names, WellFormed, Survives, CleanedIn;
  }

  // ---- the walk ----

  class FileSystem {
    var nodes: Nodes

    constructor (start: Nodes)
      ensures nodes == start
    {
      nodes := start;
    }

    method ReadDir(path: Path) returns (names: set<string>)
      ensures names == Names(nodes, path)
    {
      names := Names(nodes, path);
    }

    method Remove(path: Path)
      modifies this
      ensures nodes == old(nodes) - {path}
    {
      nodes := nodes - {path};
    }
  }

  datatype Counts = Counts(candidateFiles: nat, candidateBytes: U64, removedFiles: nat, removedBytes: U64,
                           removedDirectories: nat)

  class CleanupResult {
    const dryRun: bool
    var counts: Counts

    constructor (dryRun: bool)
      ensures this.dryRun == dryRun && counts == Counts(0, 0, 0, 0, 0)
    {
      this.dryRun := dryRun;
      counts := Counts(0, 0, 0, 0, 0);
    }
  }

  /** The counters after so many more candidates and emptied directories; byte sums saturate. */
  function Plus(c: Counts, dryRun: bool, files: nat, bytes: nat, directories: nat): Counts {
    var candidates := c.(candidateFiles := c.candidateFiles + files,
                         candidateBytes := Saturated(c.candidateBytes + bytes));
    if dryRun then candidates
    else candidates.(removedFiles := c.removedFiles + files, removedBytes := Saturated(c.removedBytes + bytes),
                     removedDirectories := c.removedDirectories + directories)
  }

  /** What cleaning a path adds to the counters. */
  ghost function Tally(c: Counts, dryRun: bool, nodes: Nodes, path: Path, root: Path, cutoff: int): Counts {
    var candidates := Candidates(nodes, path, cutoff);
    Plus(c, dryRun, |candidates|, Total(nodes, candidates), |Emptied(nodes, path, root, cutoff)|)
  }

  /** What cleaning some of a directory's children adds. */
  ghost function TallyIn(c: Counts, dryRun: bool, nodes: Nodes, path: Path, done: set<string>, root: Path,
                         cutoff: int): Counts {
    var candidates := In(Candidates(nodes, path, cutoff), path, done);
    Plus(c, dryRun, |candidates|, Total(nodes, candidates), |In(Emptied(nodes, path, root, cutoff), path, done)|)
  }

  lemma PlusPlus(c: Counts, dryRun: bool, f1: nat, b1: nat, d1: nat, f2: nat, b2: nat, d2: nat)
    ensures Plus(Plus(c, dryRun, f1, b1, d1), dryRun, f2, b2, d2) == Plus(c, dryRun, f1 + f2, b1 + b2, d1 + d2)
  {
  }

  lemma CandidatesBelow(nodes: Nodes, now: Nodes, path: Path, name: string, root: Path, cutoff: int)
    requires SameBelow(nodes, now, path + [name])
    ensures forall p :: p in Candidates(now, path + [name], cutoff) <==>
                    p in Candidates(nodes, path, cutoff) && path + [name] <= p
    ensures var g := Candidates(now, path + [name], cutoff); Total(nodes, g) == Total(now, g)
  {
    SameBelowSame(nodes, now, path + [name], root, cutoff);
    hide Total;
    assert forall p :: p in nodes && path + [name] <= p ==> path <= p;
  }

  lemma EmptiedBelow(nodes: Nodes, now: Nodes, path: Path, name: string, root: Path, cutoff: int)
    requires SameBelow(nodes, now, path + [name])
    ensures forall p :: p in Emptied(now, path + [name], root, cutoff) <==>
                    p in Emptied(nodes, path, root, cutoff) && path + [name] <= p
  {
    SameBelowSame(nodes, now, path + [name], root, cutoff);
    hide Survives;
    assert forall p :: p in nodes && path + [name] <= p ==> path <= p;
  }

  lemma TallyOneMore(c: Counts, dryRun: bool, nodes: Nodes, now: Nodes, path: Path, done: set<string>, name: string,
                     root: Path, cutoff: int)
    requires name !in done && SameBelow(nodes, now, path + [name])
    ensures Tally(TallyIn(c, dryRun, nodes, path, done, root, cutoff), dryRun, now, path + [name], root, cutoff)
         == TallyIn(c, dryRun, nodes, path, done + {name}, root, cutoff)
  {
    hide Candidates, Emptied, In, Plus, Total, SameBelow;
    var child := path + [name];
    var candidates, emptied := Candidates(nodes, path, cutoff), Emptied(nodes, path, root, cutoff);
    CandidatesBelow(nodes, now, path, name, root, cutoff);
    EmptiedBelow(nodes, now, path, name, root, cutoff);
    InOneMore(candidates, path, done, name, Candidates(now, child, cutoff));
    InOneMore(emptied, path, done, name, Emptied(now, child, root, cutoff));
    var f, g := In(candidates, path, done), Candidates(now, child, cutoff);
    TotalOfUnion(nodes, f, g);
    PlusPlus(c, dryRun, |f|, Total(nodes, f), |In(emptied, path, done)|, |g|, Total(nodes, g),
             |Emptied(now, child, root, cutoff)|);
  }

  /**
   The walk. For real it leaves exactly the filtered tree; as a dry run it changes nothing. Either way
   it counts the old files below the path, and for real what it removed.
   */
  method CleanupTree(fs: FileSystem, path: Path, root: Path, cutoff: int, result: CleanupResult)
    requires path in fs.nodes && root <= path && WellFormed(fs.nodes, path)
    modifies fs, result
    ensures fs.nodes == if result.dryRun then old(fs.nodes) else Cleaned(old(fs.nodes), path, root, cutoff)
    ensures result.counts == Tally(old(result.counts), result.dryRun, old(fs.nodes), path, root, cutoff)
    decreases Below(fs.nodes, path), 1
  {
    var node := fs.nodes[path];
    if node.Dir? {
      CleanupDirectory(fs, path, root, cutoff, result);
      return;
    }
    LeafDone(fs.nodes, path, root, cutoff);
    if node.File? && IsOld(node, cutoff) {
      var c := result.counts;
      c := c.(candidateFiles := c.candidateFiles + 1, candidateBytes := Saturated(c.candidateBytes + node.size));
      if !result.dryRun {
        fs.Remove(path);
        c := c.(removedFiles := c.removedFiles + 1, removedBytes := Saturated(c.removedBytes + node.size));
      }
      result.counts := c;
    }
  }

  method CleanupDirectory(fs: FileSystem, path: Path, root: Path, cutoff: int, result: CleanupResult)
    requires path in fs.nodes && fs.nodes[path].Dir? && root <= path && WellFormed(fs.nodes, path)
    modifies fs, result
    ensures fs.nodes == if result.dryRun then old(fs.nodes) else Cleaned(old(fs.nodes), path, root, cutoff)
    ensures result.counts == Tally(old(result.counts), result.dryRun, old(fs.nodes), path, root, cutoff)
    decreases Below(fs.nodes, path), 0
  {
    hide Cleaned, CleanedIn, Tally, TallyIn, Below, Names, WellFormed, Emptied, Candidates;
    ghost var start, counts := fs.nodes, result.counts;
    ghost var done: set<string> := {};
    NoChildren(start, path, root, cutoff, counts, result.dryRun);
    var rest := fs.ReadDir(path);
    while rest != {}
      invariant rest == Names(start, path) - done && done <= Names(start, path)
      invariant fs.nodes == if result.dryRun then start else CleanedIn(start, path, done, root, cutoff)
      invariant result.counts == TallyIn(counts, result.dryRun, start, path, done, root, cutoff)
      decreases rest
    {
      var name :| name in rest;
      OneMoreChild(start, path, done, name, root, cutoff);
      ChildSmaller(start, fs.nodes, path, name);
      TallyOneMore(counts, result.dryRun, start, fs.nodes, path, done, name, root, cutoff);
      CleanupTree(fs, path + [name], root, cutoff, result);
      rest, done := rest - {name}, done + {name};
    }
    assert done == Names(start, path);
    DirectoryDone(start, path, root, cutoff);
    var entries := fs.ReadDir(path);
    if !result.dryRun && path != root && entries == {} {
      fs.Remove(path);
      result.counts := result.counts.(removedDirectories := result.counts.removedDirectories + 1);
    }
    assert result.counts == Tally(counts, result.dryRun, start, path, root, cutoff) by {
      DirectoryTally(counts, result.dryRun, start, path, root, cutoff);
    }
  }

  lemma NoChildren(nodes: Nodes, path: Path, root: Path, cutoff: int, c: Counts, dryRun: bool)
    ensures CleanedIn(nodes, path, {}, root, cutoff) == nodes
    ensures TallyIn(c, dryRun, nodes, path, {}, root, cutoff) == c
  {
    assert In(Candidates(nodes, path, cutoff), path, {}) == {};
    assert In(Emptied(nodes, path, root, cutoff), path, {}) == {};
  }

  lemma ChildSmaller(nodes: Nodes, now: Nodes, path: Path, name: string)
    requires path in nodes && WellFormed(nodes, path) && name in Names(nodes, path)
    requires SameBelow(nodes, now, path + [name])
    ensures path + [name] in now && WellFormed(now, path + [name])
    ensures Below(now, path + [name]) < Below(nodes, path)
  {
    var child := path + [name];
    SameBelowSame(nodes, now, child, path, 0);
    var p :| p in nodes && path < p && |p| == |path| + 1 && Child(path, p) == name;
    assert p == child;
    assert forall p :: p in nodes && child < p ==> path < p;
    assert path in Below(nodes, path) && path !in Below(now, child);
  }

  /** The counters after the children and the directory itself. */
  lemma DirectoryTally(c: Counts, dryRun: bool, nodes: Nodes, path: Path, root: Path, cutoff: int)
    requires WellFormed(nodes, path) && path in nodes && nodes[path].Dir? && root <= path
    ensures var left := CleanedIn(nodes, path, Names(nodes, path), root, cutoff);
            var children := TallyIn(c, dryRun, nodes, path, Names(nodes, path), root, cutoff);
            Tally(c, dryRun, nodes, path, root, cutoff)
            == if !dryRun && path != root && Names(left, path) == {}
               then children.(removedDirectories := children.removedDirectories + 1) else children
  {
    hide Cleaned, CleanedIn, Names, WellFormed, Emptied, Candidates;
    DirectoryCandidates(nodes, path, cutoff);
    DirectoryEmptied(nodes, path, root, cutoff);
  }

  lemma LeafDone(nodes: Nodes, path: Path, root: Path, cutoff: int)
    requires path in nodes && !nodes[path].Dir? && WellFormed(nodes, path)
    ensures Cleaned(nodes, path, root, cutoff) == if IsOld(nodes[path], cutoff) then nodes - {path} else nodes
    ensures Candidates(nodes, path, cutoff) == if IsOld(nodes[path], cutoff) then {path} else {}
    ensures Total(nodes, Candidates(nodes, path, cutoff)) == if IsOld(nodes[path], cutoff) then nodes[path].size else 0
    ensures Emptied(nodes, path, root, cutoff) == {}
  {
    forall p | p in nodes && path < p
      ensures false
    {
      NothingBelowLeaf(nodes, path, p);
    }
    assert forall p :: p in nodes && path <= p ==> p == path;
    assert Cleaned(nodes, path, root, cutoff) == if IsOld(nodes[path], cutoff) then nodes - {path} else nodes;
    if IsOld(nodes[path], cutoff) {
      TotalWithout(nodes, {path}, path);
      assert {path} - {path} == {};
    }
  }

  lemma {:induction false} NothingBelowLeaf(nodes: Nodes, path: Path, p: Path)
    requires path in nodes && !nodes[path].Dir? && WellFormed(nodes, path) && p in nodes && path < p
    ensures false
    decreases |p|
  {
    if Parent(p) != path {
      NothingBelowLeaf(nodes, path, Parent(p));
    }
  }
}
