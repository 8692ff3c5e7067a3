/** Depth-first search of a front-end file and the local files it imports for a tenant identifier. */
module ImportSearch {
  import opened Common

  type File = string

  /** A source file: whether its text names a tenant identifier, and for each import the paths it may stand for. */
  datatype Source = Source(mentions: bool, imports: seq<seq<File>>)

  /** The front-end sources: the root every local import must stay under, and the files that exist. */
  datatype Tree = Tree(root: string, files: map<File, Source>)

  /** The first candidate that is a file under the root; an import that is not local has no candidates. */
  function Resolve(t: Tree, candidates: seq<File>): Option<File> {
    var i := FirstIndex(candidates, (c: File) => t.root <= c && c in t.files);
    if i < |candidates| then Some(candidates[i]) else None
  }

  /**
   * An import stands for the earliest of its candidates that is a file under
   * the root, whatever is missing before it.
   */
  lemma ResolveSays(t: Tree, candidates: seq<File>, file: File)
    ensures Resolve(t, candidates) == Some(file) <==>
      exists i :: 0 <= i < |candidates| && candidates[i] == file && file in t.files && t.root <= file
                  && forall j :: 0 <= j < i ==> candidates[j] !in t.files || !(t.root <= candidates[j])
    ensures Resolve(t, candidates).None? <==> forall c :: c in candidates && c in t.files ==> !(t.root <= c)
  {
    var i := FirstIndex(candidates, (c: File) => t.root <= c && c in t.files);
    if i < |candidates| {
      assert candidates[i] in candidates;
    }
  }

  /** `a` imports `b`. */
  predicate Imports(t: Tree, a: File, b: File) {
    a in t.files && exists i :: 0 <= i < |t.files[a].imports| && Resolve(t, t.files[a].imports[i]) == Some(b)
  }

  ghost predicate Chain(t: Tree, p: seq<File>) {
    |p| > 0 && forall i :: 0 <= i < |p| - 1 ==> Imports(t, p[i], p[i + 1])
  }

  /** `b` can be reached from `a` through resolvable local imports. */
  ghost predicate Reaches(t: Tree, a: File, b: File) {
    exists p :: Chain(t, p) && p[0] == a && p[|p| - 1] == b
  }

  ghost predicate ReachesMention(t: Tree, a: File) {
    exists b :: Reaches(t, a, b) && b in t.files && t.files[b].mentions
  }

  lemma ReachesItself(t: Tree, a: File)
    ensures Reaches(t, a, a)
  {
    assert Chain(t, [a]);
  }

  lemma ReachesThrough(t: Tree, a: File, b: File)
    requires Imports(t, a, b) && ReachesMention(t, b)
    ensures ReachesMention(t, a)
  {
    var c :| Reaches(t, b, c) && c in t.files && t.files[c].mentions;
    var p :| Chain(t, p) && p[0] == b && p[|p| - 1] == c;
    var q := [a] + p;
    assert Chain(t, q) by {
      forall i | 0 <= i < |q| - 1 ensures Imports(t, q[i], q[i + 1]) {
        if i > 0 {
          assert q[i] == p[i - 1] && q[i + 1] == p[i];
        }
      }
    }
    assert Reaches(t, a, c);
  }

  /** Files that were searched to the end: none mentions a tenant, and their imports were all searched too. */
  ghost predicate Exhausted(t: Tree, done: set<File>, seen: set<File>) {
    forall f :: f in done ==> f in t.files && !t.files[f].mentions && forall g :: Imports(t, f, g) ==> g in seen
  }

  lemma {:induction false} ChainStaysInside(t: Tree, seen: set<File>, p: seq<File>)
    requires Exhausted(t, seen, seen) && Chain(t, p) && p[0] in seen
    ensures p[|p| - 1] in seen
  {
    if |p| > 1 {
      assert Imports(t, p[0], p[1]);
      assert Chain(t, p[1..]);
      ChainStaysInside(t, seen, p[1..]);
    }
  }

  lemma NothingToFind(t: Tree, seen: set<File>, a: File)
    requires Exhausted(t, seen, seen) && a in seen
    ensures !ReachesMention(t, a)
  {
    forall b | Reaches(t, a, b) ensures b in t.files && !t.files[b].mentions {
      var p :| Chain(t, p) && p[0] == a && p[|p| - 1] == b;
      ChainStaysInside(t, seen, p);
    }
  }

  /** A file that does not exist imports nothing. */
  lemma MissingReachesNothing(t: Tree, a: File)
    requires a !in t.files
    ensures !ReachesMention(t, a)
  {
    forall b | Reaches(t, a, b) ensures b == a {
      var p :| Chain(t, p) && p[0] == a && p[|p| - 1] == b;
      assert |p| > 1 ==> Imports(t, p[0], p[1]);
    }
  }

  /** The search, with the set of visited files that all its recursive calls share. */
  class Search {
    const tree: Tree
    var seen: set<File>

    constructor (tree: Tree)
      ensures this.tree == tree && seen == {}
    {
      this.tree := tree;
      seen := {};
    }

    /** Looks at one file and, until something is found, at what it imports. Cycles end at visited files. */
    method Visit(file: File) returns (found: bool)
      modifies `seen
      decreases tree.files.Keys - seen
      ensures old(seen) <= seen
      ensures found ==> ReachesMention(tree, file)
      ensures !found ==> (file in tree.files ==> file in seen) && Exhausted(tree, seen - old(seen), seen)
    {
      if file in seen || file !in tree.files {
        return false;
      }
      seen := seen + {file};
      var source := tree.files[file];
      if source.mentions {
        ReachesItself(tree, file);
        return true;
      }
      for i := 0 to |source.imports|
        invariant old(seen) + {file} <= seen
        invariant Exhausted(tree, seen - old(seen) - {file}, seen)
        invariant forall k :: 0 <= k < i ==>
          var target := Resolve(tree, source.imports[k]); target.Some? ==> target.value in seen
      {
        var target := Resolve(tree, source.imports[i]);
        if target.Some? {
          ghost var before := seen;
          assert Imports(tree, file, target.value);
          var there := Visit(target.value);
          if there {
            ReachesThrough(tree, file, target.value);
            return true;
          }
          ExhaustedGrows(tree, before - old(seen) - {file}, before, seen);
        }
      }
      return false;
    }
  }

  lemma ExhaustedGrows(t: Tree, done: set<File>, seen: set<File>, more: set<File>)
    requires Exhausted(t, done, seen) && seen <= more
    ensures Exhausted(t, done, more)
  {
  }

  /** On any import graph, cyclic or not: true exactly when a reachable file mentions a tenant. */
  method FileReferencesTenant(tree: Tree, file: File) returns (found: bool)
    ensures found <==> ReachesMention(tree, file)
  {
    var search := new Search(tree);
    found := search.Visit(file);
    if !found {
      if file in tree.files {
        assert search.seen - {} == search.seen;
        NothingToFind(tree, search.seen, file);
      } else {
        MissingReachesNothing(tree, file);
      }
    }
  }
}
