/** Small value types and sequence facts shared by the other modules. */
module Common {

  datatype Option<+T> = None | Some(value: T)

  function Min(a: nat, b: nat): nat {
    if a <= b then a else b
  }

  /** Position of the first element for which `p` holds, or `|s|` when there is none. */
  function FirstIndex<T>(s: seq<T>, p: T -> bool): (i: nat)
    ensures i <= |s|
    ensures i < |s| ==> p(s[i])
    ensures forall k :: 0 <= k < i ==> !p(s[k])
  {
    if s == [] then 0
    else if p(s[0]) then 0
    else 1 + FirstIndex(s[1..], p)
  }

  /** The elements of `s` that satisfy `p`, in order. */
  function Filter<T(!new)>(s: seq<T>, p: T -> bool): (r: seq<T>)
    ensures forall x :: x in r <==> x in s && p(x)
    ensures |r| <= |s|
  {
    if s == [] then []
    else
      var rest := Filter(s[..|s| - 1], p);
      if p(s[|s| - 1]) then rest + [s[|s| - 1]] else rest
  }

  lemma {:induction false} FilterAppend<T(!new)>(s: seq<T>, t: seq<T>, p: T -> bool)
    ensures Filter(s + t, p) == Filter(s, p) + Filter(t, p)
  {
    if t == [] {
      assert s + t == s;
    } else {
      var n := |t| - 1;
      assert (s + t)[..|s + t| - 1] == s + t[..n];
      FilterAppend(s, t[..n], p);
    }
  }

  /** Filtering twice is filtering by both conditions. */
  lemma {:induction false} FilterNarrow<T(!new)>(s: seq<T>, p: T -> bool, q: T -> bool)
    requires forall x :: x in s && q(x) ==> p(x)
    ensures Filter(Filter(s, p), q) == Filter(s, q)
  {
    if s != [] {
      var n := |s| - 1;
      FilterNarrow(s[..n], p, q);
      if p(s[n]) {
        FilterAppend(Filter(s[..n], p), [s[n]], q);
        assert Filter([s[n]], q) == if q(s[n]) then [s[n]] else [] by {
          assert [s[n]][..0] == [];
        }
      }
    }
  }

  /** A kept element sits in the filtered sequence at the number of elements kept before it. */
  lemma FilterAt<T(!new)>(s: seq<T>, p: T -> bool, i: nat)
    requires i < |s| && p(s[i])
    ensures |Filter(s[..i], p)| < |Filter(s, p)|
    ensures Filter(s, p)[|Filter(s[..i], p)|] == s[i]
  {
    assert s[..i + 1][..i] == s[..i];
    assert Filter(s[..i + 1], p) == Filter(s[..i], p) + [s[i]];
    assert s == s[..i + 1] + s[i + 1..];
    FilterAppend(s[..i + 1], s[i + 1..], p);
  }

  lemma FilterCountMonotone<T(!new)>(s: seq<T>, p: T -> bool, i: nat, j: nat)
    requires i <= j <= |s|
    ensures |Filter(s[..i], p)| <= |Filter(s[..j], p)|
  {
    assert s[..j] == s[..i] + s[i..j];
    FilterAppend(s[..i], s[i..j], p);
  }

  /** A prefix of the filtered sequence filters a prefix of the sequence. */
  lemma {:induction false} FilterPrefix<T(!new)>(s: seq<T>, p: T -> bool, z: nat) returns (k: nat)
    requires z <= |Filter(s, p)|
    ensures k <= |s| && Filter(s[..k], p) == Filter(s, p)[..z]
  {
    if z == |Filter(s, p)| {
      k := |s|;
      assert s[..k] == s;
    } else {
      var n := |s| - 1;
      k := FilterPrefix(s[..n], p, z);
      assert s[..n][..k] == s[..k];
    }
  }

  lemma {:induction false} FilterDrops<T(!new)>(s: seq<T>, p: T -> bool, x: T)
    requires x in s && !p(x)
    ensures |Filter(s, p)| < |s|
  {
    var n := |s| - 1;
    if s[n] != x {
      FilterDrops(s[..n], p, x);
    }
  }

  ghost predicate Distinct<T>(s: seq<T>) {
    forall i, j :: 0 <= i < j < |s| ==> s[i] != s[j]
  }

  lemma {:induction false} FilterDistinct<T(!new)>(s: seq<T>, p: T -> bool)
    requires Distinct(s)
    ensures Distinct(Filter(s, p))
  {
    if s != [] {
      var n := |s| - 1;
      FilterDistinct(s[..n], p);
      assert s[n] !in s[..n];
    }
  }

  lemma FilterLast<T(!new)>(s: seq<T>, p: T -> bool, j: nat)
    requires j < |s| && p(s[j])
    ensures |Filter(s[..j + 1], p)| == |Filter(s[..j], p)| + 1
  {
    assert s[..j + 1][..j] == s[..j];
  }

  /** Filtering keeps the order: what is at or before a kept element stays at or before it, and conversely. */
  lemma FilterOrder<T(!new)>(s: seq<T>, p: T -> bool, i: nat, j: nat, a: nat)
    requires Distinct(s) && i < |s| && j < |s| && p(s[i])
    requires a < |Filter(s, p)| && Filter(s, p)[a] == s[j]
    ensures i <= j ==> exists b :: 0 <= b <= a && Filter(s, p)[b] == s[i]
    ensures j < i ==> forall b :: 0 <= b <= a ==> Filter(s, p)[b] != s[i]
  {
    hide Filter;
    var kept := Filter(s, p);
    assert s[j] in kept;
    FilterAt(s, p, i);
    FilterAt(s, p, j);
    FilterDistinct(s, p);
    var x, y := |Filter(s[..i], p)|, |Filter(s[..j], p)|;
    assert kept[y] == kept[a];
    assert y == a;
    if i <= j {
      FilterCountMonotone(s, p, i, j);
    } else {
      FilterCountMonotone(s, p, j + 1, i);
      FilterLast(s, p, j);
      assert x > a;
    }
  }

  /**
   * An element at or before the end of a slice of the kept ones is in the
   * slice, or at or before the element preceding it.
   */
  lemma FilterSlice<T(!new)>(s: seq<T>, p: T -> bool, b: nat, e: nat, i: nat, j: nat) returns (j0: nat)
    requires Distinct(s) && i <= j < |s| && p(s[i])
    requires b < e <= |Filter(s, p)| && Filter(s, p)[e - 1] == s[j]
    ensures s[i] in Filter(s, p)[b..e] || (b > 0 && i <= j0 < |s| && s[j0] == Filter(s, p)[b - 1])
  {
    hide Filter;
    var kept := Filter(s, p);
    FilterOrder(s, p, i, j, e - 1);
    var a :| 0 <= a <= e - 1 && kept[a] == s[i];
    j0 := 0;
    if a >= b {
      assert kept[b..e][a - b] == s[i];
    } else {
      assert kept[b - 1] in s;
      j0 :| 0 <= j0 < |s| && s[j0] == kept[b - 1];
      if j0 < i {
        FilterOrder(s, p, i, j0, b - 1);
        assert false;
      }
    }
  }
}
