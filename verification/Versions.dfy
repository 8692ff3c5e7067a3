/** Version keys of the dependency guard and the order it compares them in. */
module Versions {

  /** Release stages in the order the guard sorts their letters: a, b, rc, and no letter last. */
  datatype Stage = Alpha | Beta | Candidate | Final

  /** A parsed version; `post` is -1 without a post-release, `dev` is `NO_DEV` without a dev segment. */
  datatype Key = Key(epoch: nat, release: seq<nat>, stage: Stage, pre: nat, post: int, dev: nat)

  const NO_DEV: nat := 0x4000_0000

  type Version = k: Key | |k.release| > 0 && k.post >= -1
    witness Key(0, [0], Final, 0, -1, 0)

  function Rank(s: Stage): nat {
    match s
    case Alpha => 0
    case Beta => 1
    case Candidate => 2
    case Final => 3
  }

  /** Comparison of two tuples, element by element; a proper prefix comes first. */
  predicate LexLess(x: seq<int>, y: seq<int>) {
    y != [] && (x == [] || x[0] < y[0] || (x[0] == y[0] && LexLess(x[1..], y[1..])))
  }

  function Zeros(n: nat): seq<int> {
    seq(n, _ => 0)
  }

  function Pad(release: seq<nat>, width: nat): seq<int>
    requires |release| <= width
  {
    release + Zeros(width - |release|)
  }

  function Tail(v: Version): seq<int> {
    [Rank(v.stage), v.pre, v.post, v.dev]
  }

  /** The tuple compared when releases are padded to `width` parts. */
  function PaddedKey(v: Version, width: nat): seq<int>
    requires |v.release| <= width
  {
    [v.epoch] + Pad(v.release, width) + Tail(v)
  }

  function Width(a: Version, b: Version): nat {
    if |a.release| < |b.release| then |b.release| else |a.release|
  }

  predicate Eq(a: Version, b: Version) {
    PaddedKey(a, Width(a, b)) == PaddedKey(b, Width(a, b))
  }

  predicate Lt(a: Version, b: Version) {
    LexLess(PaddedKey(a, Width(a, b)), PaddedKey(b, Width(a, b)))
  }

  predicate Le(a: Version, b: Version) {
    Eq(a, b) || Lt(a, b)
  }

  predicate Gt(a: Version, b: Version) {
    !Le(a, b)
  }

  predicate Ge(a: Version, b: Version) {
    !Lt(a, b)
  }

  // ---- The reference order: releases as infinite sequences that end in zeros ----

  function Part(v: Version, i: nat): nat {
    if i < |v.release| then v.release[i] else 0
  }

  ghost predicate AgreeBelow(a: Version, b: Version, k: nat) {
    forall j: nat :: j < k ==> Part(a, j) == Part(b, j)
  }

  ghost predicate LessAt(a: Version, b: Version, k: nat) {
    Part(a, k) < Part(b, k) && AgreeBelow(a, b, k)
  }

  ghost predicate SameRelease(a: Version, b: Version) {
    forall j: nat :: Part(a, j) == Part(b, j)
  }

  ghost predicate Precedes(a: Version, b: Version) {
    a.epoch < b.epoch
    || (a.epoch == b.epoch && exists k: nat :: LessAt(a, b, k))
    || (a.epoch == b.epoch && SameRelease(a, b) && LexLess(Tail(a), Tail(b)))
  }

  ghost predicate Same(a: Version, b: Version) {
    a.epoch == b.epoch && SameRelease(a, b) && Tail(a) == Tail(b)
  }

  /** Alpha before beta before candidate before final. */
  predicate EarlierStage(s: Stage, t: Stage) {
    match s
    case Alpha => t in {Beta, Candidate, Final}
    case Beta => t in {Candidate, Final}
    case Candidate => t == Final
    case Final => false
  }

  /**
   * Within one release: by stage, then by the stage's number, then by
   * post-release, with none first, then by dev release, with none last.
   */
  lemma WithinRelease(a: Version, b: Version)
    requires a.epoch == b.epoch && SameRelease(a, b)
    ensures Precedes(a, b) <==>
      || EarlierStage(a.stage, b.stage)
      || (a.stage == b.stage && a.pre < b.pre)
      || (a.stage == b.stage && a.pre == b.pre && a.post < b.post)
      || (a.stage == b.stage && a.pre == b.pre && a.post == b.post && a.dev < b.dev)
  {
    assert forall k: nat :: !LessAt(a, b, k);
    var x, y := Tail(a), Tail(b);
    assert x[0] < y[0] <==> EarlierStage(a.stage, b.stage);
    assert x[0] == y[0] <==> a.stage == b.stage;
    hide LexLess;
    var p, q := [a.pre, a.post, a.dev], [b.pre, b.post, b.dev];
    assert x == [x[0]] + p && y == [y[0]] + q;
    LexStep(x[0], p, y[0], q);
    assert p == [a.pre] + [a.post, a.dev] && q == [b.pre] + [b.post, b.dev];
    LexStep(a.pre, [a.post, a.dev], b.pre, [b.post, b.dev]);
    assert [a.post, a.dev] == [a.post] + [a.dev] && [b.post, b.dev] == [b.post] + [b.dev];
    LexStep(a.post, [a.dev], b.post, [b.dev]);
    assert [a.dev] == [a.dev] + [] && [b.dev] == [b.dev] + [];
    LexStep(a.dev, [], b.dev, []);
    NothingLess([]);
  }

  lemma LexStep(m: int, x: seq<int>, n: int, y: seq<int>)
    ensures LexLess([m] + x, [n] + y) <==> m < n || (m == n && LexLess(x, y))
  {
    assert ([m] + x)[1..] == x && ([n] + y)[1..] == y;
  }

  lemma NothingLess(x: seq<int>)
    ensures !LexLess(x, [])
  {
  }

  /** 1.0a2, 1.0b1, 1.0rc1, 1.0.dev3, 1.0 and 1.0.post1, in the guard's order: it has dev releases follow candidates. */
  lemma ReleaseCycle()
    ensures var v := (stage, pre, post, dev) => Key(0, [1, 0], stage, pre, post, dev);
      && Lt(v(Alpha, 2, -1, NO_DEV), v(Beta, 1, -1, NO_DEV))
      && Lt(v(Beta, 1, -1, NO_DEV), v(Candidate, 1, -1, NO_DEV))
      && Lt(v(Candidate, 1, -1, NO_DEV), v(Final, 0, -1, 3))
      && Lt(v(Final, 0, -1, 3), v(Final, 0, -1, NO_DEV))
      && Lt(v(Final, 0, -1, NO_DEV), v(Final, 0, 1, NO_DEV))
  {
    hide Precedes, Lt;
    var a: Version, b: Version := Key(0, [1, 0], Alpha, 2, -1, NO_DEV), Key(0, [1, 0], Beta, 1, -1, NO_DEV);
    var c: Version, d: Version := Key(0, [1, 0], Candidate, 1, -1, NO_DEV), Key(0, [1, 0], Final, 0, -1, 3);
    var e: Version, f: Version := Key(0, [1, 0], Final, 0, -1, NO_DEV), Key(0, [1, 0], Final, 0, 1, NO_DEV);
    OperatorsMean(a, b);
    OperatorsMean(b, c);
    OperatorsMean(c, d);
    OperatorsMean(d, e);
    OperatorsMean(e, f);
    WithinRelease(a, b);
    WithinRelease(b, c);
    WithinRelease(c, d);
    WithinRelease(d, e);
    WithinRelease(e, f);
  }

  // ---- Tuple comparison ----

  lemma {:induction false} LexFirstDifference(x: seq<int>, y: seq<int>)
    requires |x| == |y|
    ensures LexLess(x, y) <==> exists k :: 0 <= k < |x| && x[k] < y[k] && x[..k] == y[..k]
  {
    if x != [] {
      LexFirstDifference(x[1..], y[1..]);
      if x[0] == y[0] && LexLess(x[1..], y[1..]) {
        var k :| 0 <= k < |x| - 1 && x[1..][k] < y[1..][k] && x[1..][..k] == y[1..][..k];
        assert x[..k + 1] == [x[0]] + x[1..][..k] && y[..k + 1] == [y[0]] + y[1..][..k];
        assert x[k + 1] < y[k + 1];
      } else if x[0] < y[0] {
        assert x[..0] == y[..0];
      }
      forall k | 0 < k < |x| && x[k] < y[k] && x[..k] == y[..k] ensures LexLess(x, y) {
        assert x[0] == x[..k][0] == y[0];
        assert x[1..][k - 1] < y[1..][k - 1];
        assert x[1..][..k - 1] == x[..k][1..] == y[1..][..k - 1];
      }
    }
  }

  /** Tuples of one length: exactly one of less, equal and greater. */
  lemma {:induction false} LexTotal(x: seq<int>, y: seq<int>)
    requires |x| == |y|
    ensures LexLess(x, y) || x == y || LexLess(y, x)
    ensures !(LexLess(x, y) && LexLess(y, x)) && !(x == y && LexLess(x, y))
  {
    if x != [] {
      LexTotal(x[1..], y[1..]);
      assert x == [x[0]] + x[1..] && y == [y[0]] + y[1..];
    }
  }

  lemma {:induction false} LexTransitive(x: seq<int>, y: seq<int>, z: seq<int>)
    requires LexLess(x, y) && LexLess(y, z)
    ensures LexLess(x, z)
  {
    if x != [] && x[0] == y[0] == z[0] {
      LexTransitive(x[1..], y[1..], z[1..]);
    }
  }

  lemma {:induction false} LexSplit(x: seq<int>, y: seq<int>, p: seq<int>, q: seq<int>)
    requires |x| == |y|
    ensures LexLess(x + p, y + q) <==> LexLess(x, y) || (x == y && LexLess(p, q))
  {
    if x == [] {
      assert x + p == p && y + q == q;
    } else {
      LexSplit(x[1..], y[1..], p, q);
      assert (x + p)[1..] == x[1..] + p && (y + q)[1..] == y[1..] + q;
      assert x == [x[0]] + x[1..] && y == [y[0]] + y[1..];
    }
  }

  lemma PadAt(v: Version, w: nat, i: nat)
    requires |v.release| <= w && i < w
    ensures Pad(v.release, w)[i] == Part(v, i)
  {
  }

  lemma PadEqual(a: Version, b: Version, w: nat)
    requires |a.release| <= w && |b.release| <= w
    ensures Pad(a.release, w) == Pad(b.release, w) <==> SameRelease(a, b)
  {
    var x, y := Pad(a.release, w), Pad(b.release, w);
    if x == y {
      forall j: nat ensures Part(a, j) == Part(b, j) {
        if j < w {
          PadAt(a, w, j);
          PadAt(b, w, j);
        }
      }
    }
    if SameRelease(a, b) {
      forall i | 0 <= i < w ensures x[i] == y[i] {
        PadAt(a, w, i);
        PadAt(b, w, i);
      }
    }
  }

  lemma PadLess(a: Version, b: Version, w: nat)
    requires |a.release| <= w && |b.release| <= w
    ensures LexLess(Pad(a.release, w), Pad(b.release, w)) <==> exists k: nat :: LessAt(a, b, k)
  {
    var x, y := Pad(a.release, w), Pad(b.release, w);
    LexFirstDifference(x, y);
    forall i | 0 <= i < w ensures x[i] == Part(a, i) && y[i] == Part(b, i) {
      PadAt(a, w, i);
      PadAt(b, w, i);
    }
    if LexLess(x, y) {
      var k :| 0 <= k < w && x[k] < y[k] && x[..k] == y[..k];
      forall j: nat | j < k ensures Part(a, j) == Part(b, j) {
        assert x[..k][j] == y[..k][j];
      }
      assert LessAt(a, b, k);
    }
    forall k: nat | LessAt(a, b, k) ensures LexLess(x, y) {
      assert x[..k] == y[..k];
    }
  }

  /** Padding to any common width gives the same order: lexicographic on zero-extended releases. */
  lemma AnyWidth(a: Version, b: Version, w: nat)
    requires |a.release| <= w && |b.release| <= w
    ensures LexLess(PaddedKey(a, w), PaddedKey(b, w)) <==> Precedes(a, b)
    ensures PaddedKey(a, w) == PaddedKey(b, w) <==> Same(a, b)
  {
    var x, y := [a.epoch] + Pad(a.release, w), [b.epoch] + Pad(b.release, w);
    LexSplit(x, y, Tail(a), Tail(b));
    LexSplit([a.epoch], [b.epoch], Pad(a.release, w), Pad(b.release, w));
    PadEqual(a, b, w);
    PadLess(a, b, w);
    assert x == y <==> a.epoch == b.epoch && Pad(a.release, w) == Pad(b.release, w) by {
      assert x[0] == a.epoch && x[1..] == Pad(a.release, w);
      assert y[0] == b.epoch && y[1..] == Pad(b.release, w);
    }
    assert PaddedKey(a, w) == PaddedKey(b, w) <==> x == y && Tail(a) == Tail(b) by {
      assert PaddedKey(a, w)[..|x|] == x && PaddedKey(a, w)[|x|..] == Tail(a);
      assert PaddedKey(b, w)[..|y|] == y && PaddedKey(b, w)[|y|..] == Tail(b);
    }
    assert LexLess([a.epoch], [b.epoch]) <==> a.epoch < b.epoch;
  }

  /** The five comparison operators in terms of the reference order. */
  lemma OperatorsMean(a: Version, b: Version)
    ensures Eq(a, b) <==> Same(a, b)
    ensures Lt(a, b) <==> Precedes(a, b)
    ensures Le(a, b) <==> !Precedes(b, a)
    ensures Gt(a, b) <==> Precedes(b, a)
    ensures Ge(a, b) <==> !Precedes(a, b)
  {
    hide Precedes, Same, PaddedKey, LexLess;
    AnyWidth(a, b, Width(a, b));
    AnyWidth(b, a, Width(a, b));
    PrecedesTotal(a, b);
  }

  lemma PrecedesTotal(a: Version, b: Version)
    ensures Precedes(a, b) || Same(a, b) || Precedes(b, a)
    ensures !(Precedes(a, b) && Precedes(b, a))
    ensures Same(a, b) ==> !Precedes(a, b) && !Precedes(b, a)
  {
    hide Precedes, Same, LexLess;
    var w := Width(a, b);
    AnyWidth(a, b, w);
    AnyWidth(b, a, w);
    LexTotal(PaddedKey(a, w), PaddedKey(b, w));
    LexTotal(PaddedKey(b, w), PaddedKey(a, w));
  }

  lemma PrecedesTransitive(a: Version, b: Version, c: Version)
    ensures Precedes(a, b) && Precedes(b, c) ==> Precedes(a, c)
    ensures !Precedes(b, a) && !Precedes(c, b) ==> !Precedes(c, a)
    ensures Same(a, b) ==> (Precedes(a, c) <==> Precedes(b, c)) && (Precedes(c, a) <==> Precedes(c, b))
  {
    hide Precedes, Same, LexLess, PaddedKey;
    var w := |a.release| + |b.release| + |c.release|;
    AnyWidth(a, b, w);
    AnyWidth(b, a, w);
    AnyWidth(b, c, w);
    AnyWidth(c, b, w);
    AnyWidth(a, c, w);
    AnyWidth(c, a, w);
    var x, y, z := PaddedKey(a, w), PaddedKey(b, w), PaddedKey(c, w);
    PaddedLength(a, w);
    PaddedLength(b, w);
    PaddedLength(c, w);
    LexTotal(x, y);
    LexTotal(y, z);
    if LexLess(x, y) && LexLess(y, z) {
      LexTransitive(x, y, z);
    }
    LexTotal(x, z);
  }

  lemma PaddedLength(v: Version, w: nat)
    requires |v.release| <= w
    ensures |PaddedKey(v, w)| == w + 5
  {
  }

  /** A total preorder whose ties are exactly `Eq`, although each pair is padded to its own width. */
  lemma TotalPreorder(a: Version, b: Version, c: Version)
    ensures Le(a, a) && (Le(a, b) || Le(b, a))
    ensures Le(a, b) && Le(b, c) ==> Le(a, c)
    ensures Lt(a, b) && Lt(b, c) ==> Lt(a, c)
    ensures Eq(a, b) <==> Le(a, b) && Le(b, a)
    ensures Gt(a, b) <==> Lt(b, a)
    ensures Ge(a, b) <==> Le(b, a)
    ensures Eq(a, b) ==> (Lt(a, c) <==> Lt(b, c)) && (Lt(c, a) <==> Lt(c, b))
  {
    hide Precedes, Same, Lt, Eq, Le, Gt, Ge;
    OperatorsMean(a, a);
    OperatorsMean(a, b);
    OperatorsMean(b, a);
    OperatorsMean(b, c);
    OperatorsMean(a, c);
    OperatorsMean(c, a);
    OperatorsMean(c, b);
    PrecedesTotal(a, a);
    PrecedesTotal(a, b);
    PrecedesTransitive(a, b, c);
  }

  /** Trailing zeros are invisible to the order. */
  lemma TrailingZeros(v: Version, n: nat)
    ensures Eq(v, v.(release := v.release + Zeros(n)))
  {
    hide Eq;
    var u: Version := v.(release := v.release + Zeros(n));
    assert SameRelease(v, u);
    OperatorsMean(v, u);
  }

  // ---- Prefix matches ----

  /** `==X.*`: the first parts of the release, as written, are `want`. */
  predicate PrefixMatch(v: Version, want: seq<nat>) {
    want <= v.release
  }

  /** The first part in which a long enough release leaves the prefix. */
  lemma FirstMismatch(v: Version, want: seq<nat>) returns (m: nat)
    requires |v.release| >= |want| && !PrefixMatch(v, want)
    ensures m < |want| && v.release[m] != want[m] && v.release[..m] == want[..m]
  {
    m := 0;
    while m < |want| && v.release[m] == want[m]
      invariant m <= |want| && v.release[..m] == want[..m]
    {
      assert v.release[..m + 1] == v.release[..m] + [v.release[m]];
      assert want[..m + 1] == want[..m] + [want[m]];
      m := m + 1;
    }
    assert want[..|want|] == want;
  }

  /** The least version whose release starts with `want` with its last part raised by one. */
  function UpperBound(epoch: nat, want: seq<nat>): Version
    requires |want| > 0
  {
    Key(epoch, want[..|want| - 1] + [want[|want| - 1] + 1], Alpha, 0, -1, 0)
  }

  /** A release starting with `want` comes before the upper bound of `want`. */
  lemma MatchIsBelow(v: Version, want: seq<nat>)
    requires |want| > 0 && PrefixMatch(v, want)
    ensures Precedes(v, UpperBound(v.epoch, want))
  {
    var u := UpperBound(v.epoch, want);
    assert LessAt(v, u, |want| - 1);
  }

  /** The first part in which two releases of one epoch differ decides their order. */
  lemma MismatchDecides(v: Version, b: Version, m: nat)
    requires v.epoch == b.epoch && AgreeBelow(v, b, m) && Part(v, m) != Part(b, m)
    ensures Precedes(v, b) <==> Part(v, m) < Part(b, m)
  {
    if Part(v, m) < Part(b, m) {
      assert LessAt(v, b, m);
    } else {
      assert LessAt(b, v, m);
      assert Precedes(b, v);
      PrecedesTotal(v, b);
    }
  }

  /** Leaving the prefix upwards in a release of at least its length reaches the upper bound. */
  lemma MismatchAboveIsOut(v: Version, want: seq<nat>, m: nat)
    requires m < |want| <= |v.release| && v.release[m] > want[m] && v.release[..m] == want[..m]
    ensures !Precedes(v, UpperBound(v.epoch, want))
  {
    hide LexLess;
    var u := UpperBound(v.epoch, want);
    forall j: nat | j < m ensures Part(v, j) == Part(u, j) {
      assert v.release[..m][j] == want[..m][j];
    }
    if Part(v, m) != Part(u, m) {
      MismatchDecides(v, u, m);
    } else {
      assert m == |want| - 1;
      assert forall k: nat :: k > m ==> Part(u, k) == 0;
      assert forall k: nat :: !LessAt(v, u, k);
      LeastTail(v, u);
    }
  }

  lemma LeastTail(v: Version, u: Version)
    requires Tail(u) == [0, 0, -1, 0]
    ensures !LexLess(Tail(v), Tail(u))
  {
    LexFirstDifference(Tail(v), Tail(u));
  }

  /** Among versions at or above one that matches, matching is staying below the upper bound. */
  lemma MatchIffBelow(b: Version, v: Version, want: seq<nat>)
    requires |want| > 0 && PrefixMatch(b, want) && |v.release| >= |want|
    requires v.epoch == b.epoch && !Precedes(v, b)
    ensures PrefixMatch(v, want) <==> Precedes(v, UpperBound(b.epoch, want))
  {
    hide Precedes;
    if PrefixMatch(v, want) {
      MatchIsBelow(v, want);
    } else {
      var m := FirstMismatch(v, want);
      assert AgreeBelow(v, b, m) by {
        forall j: nat | j < m ensures Part(v, j) == Part(b, j) {
          assert v.release[..m][j] == want[..m][j];
        }
      }
      MismatchDecides(v, b, m);
      MismatchAboveIsOut(v, want, m);
    }
  }

  /** Between two matching versions of one epoch every long enough version matches. */
  lemma MatchesHaveNoGaps(p: Version, v: Version, q: Version, want: seq<nat>)
    requires PrefixMatch(p, want) && PrefixMatch(q, want) && |v.release| >= |want|
    requires p.epoch == v.epoch == q.epoch && !Precedes(v, p) && !Precedes(q, v)
    ensures PrefixMatch(v, want)
  {
    hide Precedes;
    if |want| > 0 {
      MatchIsBelow(q, want);
      PrecedesTotal(v, q);
      PrecedesTransitive(v, q, UpperBound(p.epoch, want));
      MatchIffBelow(p, v, want);
    }
  }

  // ----- Least versions

  function Least(): Version {
    Key(0, [0], Alpha, 0, -1, 0)
  }

  /** The least version after `v`: its last key part raised by one. */
  function Next(v: Version): Version {
    v.(dev := v.dev + 1)
  }

  lemma NothingBeforeLeast(v: Version)
    ensures !Precedes(v, Least())
  {
    hide LexLess;
    LeastTail(v, Least());
    assert forall k: nat :: !LessAt(v, Least(), k);
  }

  lemma {:induction false} LexNext(x: seq<int>, y: seq<int>)
    requires |x| == |y| > 0
    ensures LexLess(x, y) <==> !LexLess(y, x[..|x| - 1] + [x[|x| - 1] + 1])
  {
    var z := x[..|x| - 1] + [x[|x| - 1] + 1];
    if |x| > 1 {
      LexNext(x[1..], y[1..]);
      assert z[1..] == x[1..][..|x| - 2] + [x[1..][|x| - 2] + 1];
      assert z[0] == x[0];
    } else {
      assert x[1..] == [] && y[1..] == [] && z == [x[0] + 1];
    }
  }

  /** Being after `v` is being at or after the next version. */
  lemma AfterIsAtNext(v: Version, u: Version)
    ensures Precedes(v, u) <==> !Precedes(u, Next(v))
  {
    hide Precedes, LexLess, Pad;
    var w := Width(v, u);
    AnyWidth(v, u, w);
    AnyWidth(u, Next(v), w);
    var x := PaddedKey(v, w);
    assert PaddedKey(Next(v), w) == x[..|x| - 1] + [x[|x| - 1] + 1];
    PaddedLength(v, w);
    PaddedLength(u, w);
    LexNext(x, PaddedKey(u, w));
  }
}
