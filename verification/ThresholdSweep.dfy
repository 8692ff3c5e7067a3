/** The threshold sweep of the suggestion evaluation and the auto-apply threshold it recommends. */
module ThresholdSweep {
  import opened Common

  /**
   * One scored answer: whether it names something, its confidence when there is
   * one, and whether the label allows it.
   */
  datatype Scored = Scored(acts: bool, confidence: Option<real>, correct: bool)

  datatype Row = Row(threshold: real, applied: nat, wrong: nat)

  const SWEEP: seq<real> := [0.5, 0.6, 0.7, 0.8, 0.85, 0.9, 0.95, 0.98]

  ghost predicate Ascending(s: seq<real>) {
    forall i, j :: 0 <= i < j < |s| ==> s[i] < s[j]
  }

  /** The sorted set of `s` and `t`. */
  function Including(s: seq<real>, t: real): (r: seq<real>)
    ensures forall x :: x in r <==> x in s || x == t
    ensures Ascending(s) ==> Ascending(r)
  {
    if s == [] then [t]
    else if t < s[0] then [t] + s
    else if t == s[0] then s
    else
      var rest := Including(s[1..], t);
      assert Ascending(s) ==> Ascending(s[1..]) && forall x :: x in rest ==> s[0] < x;
      AscendingCons(s[0], rest);
      [s[0]] + rest
  }

  lemma AscendingCons(x: real, s: seq<real>)
    ensures Ascending(s) && (forall y :: y in s ==> x < y) ==> Ascending([x] + s)
  {
    var r := [x] + s;
    forall i, j | Ascending(s) && (forall y :: y in s ==> x < y) && 0 <= i < j < |r| ensures r[i] < r[j] {
      assert s[j - 1] in s && r[j] == s[j - 1] && (i > 0 ==> r[i] == s[i - 1]);
    }
  }

  /** The answer would be applied without review at this threshold. */
  predicate Applied(s: Scored, threshold: real) {
    s.acts && s.confidence.Some? && s.confidence.value >= threshold
  }

  predicate WronglyApplied(s: Scored, threshold: real) {
    Applied(s, threshold) && !s.correct
  }

  /** How many answers a threshold applies, and how many of them wrongly. */
  function AppliedCount(scored: seq<Scored>, threshold: real): nat {
    if scored == [] then 0
    else AppliedCount(scored[..|scored| - 1], threshold) + if Applied(scored[|scored| - 1], threshold) then 1 else 0
  }

  function WrongCount(scored: seq<Scored>, threshold: real): nat {
    if scored == [] then 0
    else WrongCount(scored[..|scored| - 1], threshold) + if WronglyApplied(scored[|scored| - 1], threshold) then 1
      else 0
  }

  ghost predicate SomeApplied(scored: seq<Scored>, threshold: real) {
    exists s :: s in scored && Applied(s, threshold)
  }

  ghost predicate SomeWrong(scored: seq<Scored>, threshold: real) {
    exists s :: s in scored && WronglyApplied(s, threshold)
  }

  /**
   * Raising the threshold only removes answers, in order: what a higher one
   * applies is filtered from the lower one's.
   */
  lemma AppliedIsNested(scored: seq<Scored>, low: real, high: real)
    requires low <= high
    ensures Filter(Filter(scored, s => Applied(s, low)), s => Applied(s, high)) == Filter(scored, s => Applied(s, high))
    ensures SomeApplied(scored, high) ==> SomeApplied(scored, low)
    ensures SomeWrong(scored, high) ==> SomeWrong(scored, low)
  {
    FilterNarrow(scored, s => Applied(s, low), s => Applied(s, high));
    if SomeApplied(scored, high) {
      var s :| s in scored && Applied(s, high);
      assert Applied(s, low);
    }
    if SomeWrong(scored, high) {
      var s :| s in scored && WronglyApplied(s, high);
      assert WronglyApplied(s, low);
    }
  }

  lemma {:induction false} Counts(scored: seq<Scored>, threshold: real)
    ensures |Filter(scored, s => Applied(s, threshold))| == AppliedCount(scored, threshold)
    ensures |Filter(Filter(scored, s => Applied(s, threshold)), (s: Scored) => !s.correct)|
      == WrongCount(scored, threshold)
  {
    if scored != [] {
      var n := |scored| - 1;
      Counts(scored[..n], threshold);
      if Applied(scored[n], threshold) {
        var before := Filter(scored[..n], s => Applied(s, threshold));
        assert (before + [scored[n]])[..|before|] == before;
      }
    }
  }

  lemma {:induction false} CountsTell(scored: seq<Scored>, threshold: real)
    ensures AppliedCount(scored, threshold) > 0 <==> SomeApplied(scored, threshold)
    ensures WrongCount(scored, threshold) > 0 <==> SomeWrong(scored, threshold)
  {
    if scored != [] {
      var n := |scored| - 1;
      CountsTell(scored[..n], threshold);
      assert forall s :: s in scored <==> s in scored[..n] || s == scored[n];
    }
  }

  /** The counts are those of the answers that act with a confidence at or above the threshold. */
  lemma {:induction false} CountsAre(scored: seq<Scored>, threshold: real)
    ensures AppliedCount(scored, threshold) == |Acting(scored, threshold)|
    ensures WrongCount(scored, threshold) == |Mistaken(scored, threshold)|
  {
    if scored != [] {
      var n := |scored| - 1;
      CountsAre(scored[..n], threshold);
      OneMoreActing(scored, threshold);
    }
  }

  lemma OneMoreActing(scored: seq<Scored>, threshold: real)
    requires scored != []
    ensures var n := |scored| - 1; var last := scored[n];
      var acts := last.acts && last.confidence.Some? && last.confidence.value >= threshold;
      && n !in Acting(scored[..n], threshold) && n !in Mistaken(scored[..n], threshold)
      && Acting(scored, threshold) == Acting(scored[..n], threshold) + (if acts then {n} else {})
      && Mistaken(scored, threshold) == Mistaken(scored[..n], threshold) + (if acts && !last.correct then {n} else {})
  {
    var n := |scored| - 1;
    assert forall i :: 0 <= i < n ==> scored[..n][i] == scored[i];
  }

  /** Positions of the answers that name something with at least this confidence. */
  function Acting(scored: seq<Scored>, threshold: real): set<nat> {
    set i: nat | i < |scored| && scored[i].acts && scored[i].confidence.Some? && scored[i].confidence.value >= threshold
  }

  function Mistaken(scored: seq<Scored>, threshold: real): set<nat> {
    set i: nat | i in Acting(scored, threshold) && !scored[i].correct
  }

  ghost predicate Tells(scored: seq<Scored>, row: Row) {
    row.applied == AppliedCount(scored, row.threshold) && row.wrong == WrongCount(scored, row.threshold)
  }

  lemma TellsCounts(scored: seq<Scored>, row: Row)
    requires Tells(scored, row)
    ensures row.applied == |Acting(scored, row.threshold)| && row.wrong == |Mistaken(scored, row.threshold)|
  {
    CountsAre(scored, row.threshold);
  }

  method Measure(scored: seq<Scored>, threshold: real) returns (row: Row)
    ensures row.threshold == threshold && Tells(scored, row)
    ensures row.applied == |Acting(scored, threshold)|
    ensures row.wrong == |Mistaken(scored, threshold)|
  {
    CountsAre(scored, threshold);
    var applied := Filter(scored, s => Applied(s, threshold));
    var wrong := Filter(applied, (s: Scored) => !s.correct);
    row := Row(threshold, |applied|, |wrong|);
    Counts(scored, threshold);
  }

  /** A threshold at which something is applied and nothing wrongly. */
  predicate Safe(floor: real, row: Row) {
    row.threshold >= floor && row.applied > 0 && row.wrong == 0
  }

  /**
   * The recommendation is a swept threshold at or above the floor at which something is applied;
   * at it and at every higher one no wrong answer is applied, and every swept threshold
   * from the floor up to it applies a wrong answer. Without one, no swept threshold is safe.
   */
  method Summarize(scored: seq<Scored>, current: real, floor: real) returns (sweep: seq<Row>, recommended: Option<real>)
    ensures |sweep| == |Including(SWEEP, current)|
    ensures forall i :: 0 <= i < |sweep| ==>
      sweep[i].threshold == Including(SWEEP, current)[i] && Tells(scored, sweep[i])
      && sweep[i].applied == |Acting(scored, sweep[i].threshold)|
      && sweep[i].wrong == |Mistaken(scored, sweep[i].threshold)|
    ensures recommended.Some? ==>
      var best := recommended.value;
      && (best in SWEEP || best == current) && best >= floor && SomeApplied(scored, best)
      && (forall t: real :: t >= best ==> !SomeWrong(scored, t))
      && (forall t :: (t in SWEEP || t == current) && floor <= t < best ==> SomeWrong(scored, t))
    ensures recommended.None? ==>
      forall t :: (t in SWEEP || t == current) && t >= floor ==> SomeWrong(scored, t) || !SomeApplied(scored, t)
  {
    hide SomeApplied, SomeWrong, Tells, Acting, Mistaken;
    var thresholds := Including(SWEEP, current);
    sweep := [];
    for i := 0 to |thresholds|
      invariant |sweep| == i
      invariant forall k :: 0 <= k < i ==> sweep[k].threshold == thresholds[k] && Tells(scored, sweep[k])
    {
      var row := Measure(scored, thresholds[i]);
      sweep := sweep + [row];
    }
    forall k | 0 <= k < |sweep|
      ensures sweep[k].applied == |Acting(scored, sweep[k].threshold)|
      ensures sweep[k].wrong == |Mistaken(scored, sweep[k].threshold)|
    {
      TellsCounts(scored, sweep[k]);
    }
    var i := FirstIndex(sweep, row => Safe(floor, row));
    if i < |sweep| {
      recommended := Some(sweep[i].threshold);
      FirstSafeIsBest(scored, thresholds, sweep, floor, i);
    } else {
      recommended := None;
      forall t | t in thresholds && t >= floor ensures SomeWrong(scored, t) || !SomeApplied(scored, t) {
        var k :| 0 <= k < |thresholds| && thresholds[k] == t;
        SafeMeans(scored, floor, sweep[k]);
      }
    }
  }

  lemma SafeMeans(scored: seq<Scored>, floor: real, row: Row)
    requires Tells(scored, row)
    ensures Safe(floor, row) <==>
      row.threshold >= floor && SomeApplied(scored, row.threshold) && !SomeWrong(scored, row.threshold)
  {
    CountsTell(scored, row.threshold);
  }

  lemma FirstSafeIsBest(scored: seq<Scored>, thresholds: seq<real>, sweep: seq<Row>, floor: real, i: nat)
    requires Ascending(thresholds) && |sweep| == |thresholds| && i < |sweep|
    requires forall k :: 0 <= k < |sweep| ==> sweep[k].threshold == thresholds[k] && Tells(scored, sweep[k])
    requires Safe(floor, sweep[i]) && forall k :: 0 <= k < i ==> !Safe(floor, sweep[k])
    ensures thresholds[i] >= floor && SomeApplied(scored, thresholds[i])
    ensures forall t: real :: t >= thresholds[i] ==> !SomeWrong(scored, t)
    ensures forall t :: t in thresholds && floor <= t < thresholds[i] ==> SomeWrong(scored, t)
  {
    hide SomeApplied, SomeWrong, Tells;
    var best := thresholds[i];
    SafeMeans(scored, floor, sweep[i]);
    forall t: real | t >= best ensures !SomeWrong(scored, t) {
      AppliedIsNested(scored, best, t);
    }
    forall t | t in thresholds && floor <= t < best ensures SomeWrong(scored, t) {
      var k :| 0 <= k < |thresholds| && thresholds[k] == t;
      AppliedIsNested(scored, t, best);
      SafeMeans(scored, floor, sweep[k]);
    }
  }
}
