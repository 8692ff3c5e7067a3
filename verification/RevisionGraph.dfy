/** The migration graph guard: orphan pointers and heads, and what passing says about the graph. */
module RevisionGraph {
  import opened Common

  type Revision = string

  /** One migration file: its revision and the revisions it follows (none for a base, several for a merge). */
  datatype Row = Row(rev: Revision, downs: seq<Revision>)

  type Edge = (Revision, Revision) -> bool

  function Revisions(rows: seq<Row>): set<Revision> {
    set row | row in rows :: row.rev
  }

  /** Some file declares `a` and names `b` as one of its down revisions. */
  predicate Follows(rows: seq<Row>, a: Revision, b: Revision) {
    exists row :: row in rows && row.rev == a && b in row.downs
  }

  predicate IsHead(rows: seq<Row>, h: Revision) {
    h in Revisions(rows) && forall row :: row in rows ==> h !in row.downs
  }

  ghost predicate OrphanFree(rows: seq<Row>) {
    forall row, d :: row in rows && d in row.downs ==> d in Revisions(rows)
  }

  ghost predicate OnlyHead(rows: seq<Row>, h: Revision) {
    forall r :: IsHead(rows, r) <==> r == h
  }

  // ---- The guard ----

  /** The orphan pointers and the heads, as the guard's loops and comprehensions collect them. */
  method CheckGraph(rows: seq<Row>) returns (orphans: seq<(nat, Revision)>, heads: set<Revision>, passes: bool)
    ensures forall i: nat, d :: (i, d) in orphans <==> i < |rows| && d in rows[i].downs && d !in Revisions(rows)
    ensures forall r :: r in heads <==> IsHead(rows, r)
    ensures passes <==> OrphanFree(rows) && exists h :: OnlyHead(rows, h)
  {
    var all := set row | row in rows :: row.rev;
    orphans := [];
    for i := 0 to |rows|
      invariant forall k: nat, d :: (k, d) in orphans <==> k < i && d in rows[k].downs && d !in all
    {
      var downs := rows[i].downs;
      for j := 0 to |downs|
        invariant forall k: nat, d :: (k, d) in orphans <==>
          (k < i && d in rows[k].downs && d !in all) || (k == i && d in downs[..j] && d !in all)
      {
        assert downs[..j + 1] == downs[..j] + [downs[j]];
        if downs[j] !in all {
          orphans := orphans + [(i, downs[j])];
        }
      }
      assert downs[..|downs|] == downs;
    }
    var pointedAt := set row, d | row in rows && d in row.downs :: d;
    heads := all - pointedAt;
    assert forall r :: r in heads <==> IsHead(rows, r);
    passes := orphans == [] && |heads| == 1;
    NoOrphans(rows, orphans);
    OneHead(rows, heads);
  }

  lemma NoOrphans(rows: seq<Row>, orphans: seq<(nat, Revision)>)
    requires forall i: nat, d :: (i, d) in orphans <==> i < |rows| && d in rows[i].downs && d !in Revisions(rows)
    ensures orphans == [] <==> OrphanFree(rows)
  {
    if orphans != [] {
      var (i, d) := orphans[0];
      assert (i, d) in orphans && rows[i] in rows;
    } else {
      forall row, d | row in rows && d in row.downs ensures d in Revisions(rows) {
        var i: nat :| i < |rows| && rows[i] == row;
        assert (i, d) !in orphans;
      }
    }
  }

  lemma OneHead(rows: seq<Row>, heads: set<Revision>)
    requires forall r :: r in heads <==> IsHead(rows, r)
    ensures |heads| == 1 <==> exists h :: OnlyHead(rows, h)
  {
    if |heads| == 1 {
      var h :| h in heads;
      assert |heads - {h}| == 0;
      forall r ensures IsHead(rows, r) <==> r == h {
        assert r in heads <==> r == h || r in heads - {h};
      }
      assert OnlyHead(rows, h);
    }
    forall h | OnlyHead(rows, h) ensures |heads| == 1 {
      assert heads == {h};
    }
  }

  // ---- Paths and cycles ----

  ghost predicate Chain(e: Edge, p: seq<Revision>) {
    forall i :: 0 <= i < |p| - 1 ==> e(p[i], p[i + 1])
  }

  ghost predicate Cycle(e: Edge, p: seq<Revision>) {
    |p| >= 2 && p[0] == p[|p| - 1] && Chain(e, p)
  }

  ghost predicate Within(p: seq<Revision>, inside: set<Revision>) {
    forall i :: 0 <= i < |p| ==> p[i] in inside
  }

  function EdgeOf(rows: seq<Row>): Edge {
    (a, b) => Follows(rows, a, b)
  }

  ghost predicate HasCycle(rows: seq<Row>, inside: set<Revision>) {
    exists p :: Cycle(EdgeOf(rows), p) && Within(p, inside)
  }

  /** Applying `head` applies `r` first. */
  ghost predicate Ancestor(rows: seq<Row>, r: Revision, head: Revision) {
    exists p :: |p| > 0 && Chain(EdgeOf(rows), p) && p[0] == head && p[|p| - 1] == r
  }

  ghost predicate HasNext(e: Edge, inside: set<Revision>, a: Revision) {
    exists b :: b in inside && e(a, b)
  }

  /** Every member of the set has an edge to a member. */
  ghost predicate Onward(e: Edge, inside: set<Revision>) {
    forall a :: a in inside ==> HasNext(e, inside, a)
  }

  lemma IsNext(e: Edge, inside: set<Revision>, a: Revision, b: Revision)
    requires b in inside && e(a, b)
    ensures HasNext(e, inside, a)
  {
  }

  lemma TakeNext(e: Edge, inside: set<Revision>, a: Revision) returns (b: Revision)
    requires HasNext(e, inside, a)
    ensures b in inside && e(a, b)
  {
    b :| b in inside && e(a, b);
  }

  /** A finite set one can always go on in holds a cycle: the walk must come back. */
  lemma {:induction false} WalkComesBack(e: Edge, inside: set<Revision>, walk: seq<Revision>)
    returns (cycle: seq<Revision>)
    requires Onward(e, inside)
    requires |walk| > 0 && Chain(e, walk) && Within(walk, inside)
    ensures Cycle(e, cycle) && Within(cycle, inside)
    decreases inside - (set r | r in walk)
  {
    hide HasNext;
    var last := walk[|walk| - 1];
    assert HasNext(e, inside, last);
    hide Onward;
    var next := TakeNext(e, inside, last);
    var longer := walk + [next];
    assert Chain(e, longer);
    if next in walk {
      var j :| 0 <= j < |walk| && walk[j] == next;
      cycle := longer[j..];
    } else {
      assert next in longer;
      assert (set r | r in longer) == (set r | r in walk) + {next};
      cycle := WalkComesBack(e, inside, longer);
    }
  }

  function Backwards(p: seq<Revision>): (r: seq<Revision>)
    ensures |r| == |p|
  {
    seq(|p|, i requires 0 <= i < |p| => p[|p| - 1 - i])
  }

  function Against(rows: seq<Row>): Edge {
    (b, a) => Follows(rows, a, b)
  }

  lemma EveryoneFollows(rows: seq<Row>, inside: set<Revision>)
    requires inside != {} && Onward(EdgeOf(rows), inside)
    ensures HasCycle(rows, inside)
  {
    hide Onward;
    var start :| start in inside;
    var p := WalkComesBack(EdgeOf(rows), inside, [start]);
  }

  lemma EveryoneFollowed(rows: seq<Row>, inside: set<Revision>)
    requires inside != {} && Onward(Against(rows), inside)
    ensures HasCycle(rows, inside)
  {
    hide Onward;
    var start :| start in inside;
    var p := WalkComesBack(Against(rows), inside, [start]);
    var q := Backwards(p);
    forall i | 0 <= i < |q| - 1 ensures EdgeOf(rows)(q[i], q[i + 1]) {
      var k := |p| - 2 - i;
      assert Against(rows)(p[k], p[k + 1]);
    }
    assert Cycle(EdgeOf(rows), q) && Within(q, inside);
  }

  lemma CycleInLarger(rows: seq<Row>, inside: set<Revision>, larger: set<Revision>)
    requires HasCycle(rows, inside) && inside <= larger
    ensures HasCycle(rows, larger)
  {
    var p :| Cycle(EdgeOf(rows), p) && Within(p, inside);
    assert Within(p, larger);
  }

  lemma CycleIsDeclared(rows: seq<Row>, p: seq<Revision>)
    requires Cycle(EdgeOf(rows), p)
    ensures Within(p, Revisions(rows))
  {
    forall i | 0 <= i < |p| - 1 ensures p[i] in Revisions(rows) {
      assert EdgeOf(rows)(p[i], p[i + 1]);
    }
  }

  // ---- What the head check says ----

  lemma PointedAt(rows: seq<Row>, r: Revision) returns (a: Revision)
    requires r in Revisions(rows) && !IsHead(rows, r)
    ensures a in Revisions(rows) && Follows(rows, a, r)
  {
    var row :| row in rows && r in row.downs;
    a := row.rev;
  }

  lemma Declared(rows: seq<Row>, i: nat)
    requires i < |rows|
    ensures rows[i].rev in Revisions(rows)
  {
  }

  /** Revisions without any head contain a cycle, orphan pointers or not. */
  lemma NoHeadMeansCycle(rows: seq<Row>)
    requires rows != [] && forall r :: !IsHead(rows, r)
    ensures HasCycle(rows, Revisions(rows))
  {
    hide Revisions, IsHead, Follows, HasNext;
    forall b | b in Revisions(rows) ensures HasNext(Against(rows), Revisions(rows), b) {
      var a := PointedAt(rows, b);
      IsNext(Against(rows), Revisions(rows), b, a);
    }
    Declared(rows, 0);
    EveryoneFollowed(rows, Revisions(rows));
  }

  ghost function Unreached(rows: seq<Row>, head: Revision): set<Revision> {
    set r | r in Revisions(rows) && !Ancestor(rows, r, head)
  }

  lemma AncestorExtends(rows: seq<Row>, a: Revision, b: Revision, head: Revision)
    requires Ancestor(rows, a, head) && Follows(rows, a, b)
    ensures Ancestor(rows, b, head)
  {
    var p :| |p| > 0 && Chain(EdgeOf(rows), p) && p[0] == head && p[|p| - 1] == a;
    var q := p + [b];
    assert Chain(EdgeOf(rows), q);
    assert q[0] == head && q[|q| - 1] == b;
  }

  /** With one head, every revision is its ancestor exactly when no cycle runs outside its ancestors. */
  lemma HeadCoversIff(rows: seq<Row>, head: Revision)
    requires OnlyHead(rows, head)
    ensures (forall r :: r in Revisions(rows) ==> Ancestor(rows, r, head)) <==> !HasCycle(rows, Unreached(rows, head))
  {
    hide Onward, Revisions, Ancestor, OnlyHead;
    var outside := Unreached(rows, head);
    if outside == {} {
      forall r | r in Revisions(rows) ensures Ancestor(rows, r, head) {
        assert r !in outside;
      }
      forall p | Cycle(EdgeOf(rows), p) ensures !Within(p, outside) {
        assert p[0] !in outside;
      }
    } else {
      UnreachedIsFollowed(rows, head);
      EveryoneFollowed(rows, outside);
      var r :| r in outside;
    }
  }

  lemma UnreachedIsFollowed(rows: seq<Row>, head: Revision)
    requires OnlyHead(rows, head)
    ensures Onward(Against(rows), Unreached(rows, head))
  {
    hide Revisions, IsHead, Follows, Ancestor, HasNext;
    var outside := Unreached(rows, head);
    AncestorOfItself(rows, head);
    forall b | b in outside ensures HasNext(Against(rows), outside, b) {
      var a := PointedAt(rows, b);
      if Ancestor(rows, a, head) {
        AncestorExtends(rows, a, b, head);
        assert false;
      }
      IsNext(Against(rows), outside, b, a);
    }
  }

  lemma AncestorOfItself(rows: seq<Row>, r: Revision)
    ensures Ancestor(rows, r, r)
  {
    assert Chain(EdgeOf(rows), [r]);
  }

  /** An acyclic graph with one head: every revision is an ancestor of the head. */
  lemma AcyclicHeadCovers(rows: seq<Row>, head: Revision)
    requires OnlyHead(rows, head) && !HasCycle(rows, Revisions(rows))
    ensures forall r :: r in Revisions(rows) ==> Ancestor(rows, r, head)
  {
    forall p | Cycle(EdgeOf(rows), p) ensures !Within(p, Unreached(rows, head)) {
      CycleIsDeclared(rows, p);
    }
    HeadCoversIff(rows, head);
  }

  // ---- Upgrading ----

  /** Every revision of the sequence comes once, after all the revisions it follows. */
  ghost predicate AppliesInOrder(rows: seq<Row>, s: seq<Revision>) {
    && Distinct(s)
    && forall i, b :: 0 <= i < |s| && Follows(rows, s[i], b) ==> b in s[..i]
  }

  ghost predicate UpgradeOrder(rows: seq<Row>, s: seq<Revision>) {
    AppliesInOrder(rows, s) && forall r :: r in s <==> r in Revisions(rows)
  }

  /** Some revision outside `s` follows only revisions of `s`, or the rest holds a cycle. */
  lemma NextReady(rows: seq<Row>, s: seq<Revision>) returns (r: Revision)
    requires OrphanFree(rows) && !HasCycle(rows, Revisions(rows))
    requires exists r :: r in Revisions(rows) && r !in s
    ensures r in Revisions(rows) && r !in s && forall b :: Follows(rows, r, b) ==> b in s
  {
    var rest := set r | r in Revisions(rows) && r !in s;
    var missing :| missing in Revisions(rows) && missing !in s;
    assert missing in rest;
    assert !Onward(EdgeOf(rows), rest) by {
      hide HasNext;
      if Onward(EdgeOf(rows), rest) {
        EveryoneFollows(rows, rest);
        CycleInLarger(rows, rest, Revisions(rows));
      }
    }
    r :| r in rest && !HasNext(EdgeOf(rows), rest, r);
    forall b | Follows(rows, r, b) ensures b in s {
      assert !EdgeOf(rows)(r, b) || b !in rest;
    }
  }

  lemma {:induction false} ExtendOrder(rows: seq<Row>, s: seq<Revision>) returns (order: seq<Revision>)
    requires OrphanFree(rows) && !HasCycle(rows, Revisions(rows))
    requires AppliesInOrder(rows, s) && forall r :: r in s ==> r in Revisions(rows)
    ensures UpgradeOrder(rows, order)
    decreases Revisions(rows) - (set r | r in s)
  {
    if forall r :: r in Revisions(rows) ==> r in s {
      order := s;
    } else {
      hide HasCycle, Follows, OrphanFree;
      var r := NextReady(rows, s);
      var longer := s + [r];
      forall i, b | 0 <= i < |longer| && Follows(rows, longer[i], b) ensures b in longer[..i] {
        assert longer[..i] == s[..i];
        assert i == |s| ==> s[..i] == s;
      }
      assert r in longer && (set x | x in longer) == (set x | x in s) + {r};
      order := ExtendOrder(rows, longer);
    }
  }

  /** In an order of application a chain of down revisions only moves to earlier places. */
  lemma {:induction false} ChainMovesBack(rows: seq<Row>, s: seq<Revision>, p: seq<Revision>, i: nat) returns (j: nat)
    requires AppliesInOrder(rows, s) && |p| > 0 && Chain(EdgeOf(rows), p)
    requires i < |s| && s[i] == p[0]
    ensures j <= i && s[j] == p[|p| - 1] && (|p| > 1 ==> j < i)
  {
    j := i;
    if |p| > 1 {
      assert EdgeOf(rows)(p[0], p[1]);
      assert Follows(rows, s[i], p[1]);
      var k :| 0 <= k < i && s[..i][k] == p[1];
      assert Chain(EdgeOf(rows), p[1..]) by {
        forall m | 0 <= m < |p[1..]| - 1 ensures EdgeOf(rows)(p[1..][m], p[1..][m + 1]) {
          assert EdgeOf(rows)(p[m + 1], p[m + 2]);
        }
      }
      j := ChainMovesBack(rows, s, p[1..], k);
    }
  }

  /** Without orphan pointers the migrations can be applied in order exactly when the graph has no cycle. */
  lemma UpgradeOrderIff(rows: seq<Row>)
    requires OrphanFree(rows)
    ensures (exists s :: UpgradeOrder(rows, s)) <==> !HasCycle(rows, Revisions(rows))
  {
    if !HasCycle(rows, Revisions(rows)) {
      var s := ExtendOrder(rows, []);
    }
    forall s, p | UpgradeOrder(rows, s) && Cycle(EdgeOf(rows), p) ensures false {
      CycleIsDeclared(rows, p);
      assert p[0] in Revisions(rows);
      var i :| 0 <= i < |s| && s[i] == p[0];
      var j := ChainMovesBack(rows, s, p, i);
    }
  }

  lemma LastIsNotFollowed(rows: seq<Row>, s: seq<Revision>, row: Row)
    requires UpgradeOrder(rows, s) && |s| > 0 && row in rows
    ensures s[|s| - 1] !in row.downs
  {
    assert row.rev in Revisions(rows);
    var i :| 0 <= i < |s| && s[i] == row.rev;
    assert s[|s| - 1] !in s[..i];
    assert !Follows(rows, s[i], s[|s| - 1]);
  }

  /** Every order of application ends with the head, so upgrading to the head is upgrading completely. */
  lemma OrderEndsAtHead(rows: seq<Row>, head: Revision, s: seq<Revision>)
    requires OnlyHead(rows, head) && UpgradeOrder(rows, s)
    ensures |s| > 0 && s[|s| - 1] == head
  {
    assert IsHead(rows, head);
    assert head in s;
    forall row | row in rows ensures s[|s| - 1] !in row.downs {
      LastIsNotFollowed(rows, s, row);
    }
    assert IsHead(rows, s[|s| - 1]);
  }

  function DetachedCycle(a: Revision, b: Revision, x: Revision, y: Revision): seq<Row> {
    [Row(a, []), Row(b, [a]), Row(x, [y]), Row(y, [x])]
  }

  lemma DetachedEdges(a: Revision, b: Revision, x: Revision, y: Revision, p: Revision, q: Revision)
    ensures Follows(DetachedCycle(a, b, x, y), p, q) <==> (p, q) in {(b, a), (x, y), (y, x)}
  {
    var rows := DetachedCycle(a, b, x, y);
    assert rows[1].downs[0] == a && rows[2].downs[0] == y && rows[3].downs[0] == x;
    assert rows[1] in rows && rows[2] in rows && rows[3] in rows;
  }

  /** The guard alone does not exclude cycles: two revisions following each other beside a sound pair pass it. */
  lemma DetachedCyclePasses(a: Revision, b: Revision, x: Revision, y: Revision)
    requires Distinct([a, b, x, y])
    ensures var rows := DetachedCycle(a, b, x, y);
            && OrphanFree(rows) && OnlyHead(rows, b)
            && HasCycle(rows, Revisions(rows)) && x in Revisions(rows) && !Ancestor(rows, x, b)
  {
    var rows := DetachedCycle(a, b, x, y);
    var four := [a, b, x, y];
    assert four[0] != four[1] && four[0] != four[2] && four[1] != four[2] && four[1] != four[3];
    assert rows[0] in rows && rows[1] in rows && rows[2] in rows && rows[3] in rows;
    assert Revisions(rows) == {a, b, x, y};
    assert OrphanFree(rows);
    assert rows[1].downs[0] == a && rows[2].downs[0] == y && rows[3].downs[0] == x;
    assert OnlyHead(rows, b);
    DetachedEdges(a, b, x, y, x, y);
    DetachedEdges(a, b, x, y, y, x);
    assert Cycle(EdgeOf(rows), [x, y, x]) && Within([x, y, x], Revisions(rows));
    forall q | |q| > 0 && Chain(EdgeOf(rows), q) && q[0] == b ensures q[|q| - 1] != x {
      StaysInPair(a, b, x, y, q);
    }
  }

  lemma {:induction false} StaysInPair(a: Revision, b: Revision, x: Revision, y: Revision, q: seq<Revision>)
    requires a != x && b != x && a != y && b != y
    requires |q| > 0 && Chain(EdgeOf(DetachedCycle(a, b, x, y)), q) && q[0] in {a, b}
    ensures q[|q| - 1] in {a, b}
  {
    hide Follows;
    var e := EdgeOf(DetachedCycle(a, b, x, y));
    if |q| > 1 {
      assert e(q[0], q[1]);
      DetachedEdges(a, b, x, y, q[0], q[1]);
      assert Chain(e, q[1..]) by {
        forall m | 0 <= m < |q[1..]| - 1 ensures e(q[1..][m], q[1..][m + 1]) {
          assert e(q[m + 1], q[m + 2]);
        }
      }
      StaysInPair(a, b, x, y, q[1..]);
    }
  }
}
