/**
 * Repeated bounded, resumed runs with nothing failing settle, and they settle
 * on the store that one unbounded pass would have left.
 */
module BackfillConvergence {
  import opened Common
  import opened Canonical
  import opened Reconstruction
  import opened BackfillRules
  import opened BackfillResume

  /** An execute run with a state file whose whole worklist was inserted, committed and saved. */
  predicate Healthy(run: Run, legacy: seq<LegacyRow>, p: Progress) {
    var work := Worklist(legacy, p, run);
    && run.resume && run.limit != Some(0)
    && (forall r :: r in legacy ==> r.id !in run.fails)
    && RowsIn(work, run.batchSize, run.committed) == |work|
    && RowsIn(work, run.batchSize, run.saved) == |work|
  }

  function After(u: Setup, legacy: seq<LegacyRow>, p: Progress, runs: nat -> Run, n: nat): Progress {
    if n == 0 then p else Step(u, legacy, After(u, legacy, p, runs, n - 1), runs(n - 1))
  }

  ghost predicate AllHealthy(u: Setup, legacy: seq<LegacyRow>, p: Progress, runs: nat -> Run) {
    forall i: nat :: Healthy(runs(i), legacy, After(u, legacy, p, runs, i))
  }

  lemma HealthyAt(u: Setup, legacy: seq<LegacyRow>, p: Progress, runs: nat -> Run, i: nat)
    requires AllHealthy(u, legacy, p, runs)
    ensures Healthy(runs(i), legacy, After(u, legacy, p, runs, i))
  {
    hide Healthy, After;
  }

  function Ahead(legacy: seq<LegacyRow>, p: Progress): seq<LegacyRow> {
    Remaining(Orphans(p.store, legacy), p.cursor, true)
  }

  /** Nothing is left to look at, and every orphan left has been refused. */
  ghost predicate Settled(u: Setup, legacy: seq<LegacyRow>, p: Progress) {
    && Ahead(legacy, p) == []
    && forall r :: r in Orphans(p.store, legacy) ==> Decide(u, p.store, r).Skip?
  }

  /** A healthy run applies its whole worklist and leaves the cursor on the last row. */
  lemma HealthyStep(u: Setup, legacy: seq<LegacyRow>, p: Progress, run: Run)
    requires Healthy(run, legacy, p)
    ensures var work, q := Worklist(legacy, p, run), Step(u, legacy, p, run);
      && q.store == ApplyAll(u, p.store, work, {})
      && q.cursor == (if work == [] then p.cursor else Some(work[|work| - 1].id))
      && work <= Ahead(legacy, p)
      && (work == [] <==> Ahead(legacy, p) == [])
  {
    hide ApplyAll, RowsIn, Filter, FirstIndex;
    var work := Worklist(legacy, p, run);
    assert work[..|work|] == work;
    assert forall r :: r in work ==> r in legacy;
    FailsElsewhere(u, p.store, work, run.fails);
  }

  // ----- Settling

  /** Every orphan at or before the cursor has been refused. */
  ghost predicate RefusedBehind(u: Setup, legacy: seq<LegacyRow>, p: Progress) {
    forall i, j :: 0 <= i <= j < |legacy| && p.cursor == Some(legacy[j].id) && Orphan(p.store, legacy[i])
      ==> Decide(u, p.store, legacy[i]).Skip?
  }

  lemma StepRefuses(u: Setup, legacy: seq<LegacyRow>, p: Progress, run: Run, i: nat, j: nat)
    requires DistinctIds(legacy) && Healthy(run, legacy, p) && RefusedBehind(u, legacy, p)
    requires 0 <= i <= j < |legacy| && Step(u, legacy, p, run).cursor == Some(legacy[j].id)
    requires Orphan(Step(u, legacy, p, run).store, legacy[i])
    ensures Decide(u, Step(u, legacy, p, run).store, legacy[i]).Skip?
  {
    hide Step, Healthy, Worklist, RowsIn, Decide, ApplyAll, Orphan;
    var work := Worklist(legacy, p, run);
    HealthyStep(u, legacy, p, run);
    var t := ApplyAll(u, p.store, work, {});
    ApplyAllGrows(u, p.store, work, {});
    OrphanShrinks(p.store, t, legacy[i]);
    if work != [] {
      BehindNewCursor(legacy, p, run, |work|, i, j);
      assert work[..|work|] == work;
    }
    if legacy[i] in work {
      var k :| 0 <= k < |work| && work[k] == legacy[i];
      RowSettled(u, p.store, work, {}, k);
    } else {
      RefusalIsPermanent(u, p.store, t, legacy[i]);
    }
  }

  lemma StepKeepsRefusals(u: Setup, legacy: seq<LegacyRow>, p: Progress, run: Run)
    requires DistinctIds(legacy) && Healthy(run, legacy, p) && RefusedBehind(u, legacy, p)
    ensures RefusedBehind(u, legacy, Step(u, legacy, p, run))
  {
    var q := Step(u, legacy, p, run);
    forall i, j | 0 <= i <= j < |legacy| && q.cursor == Some(legacy[j].id) && Orphan(q.store, legacy[i])
      ensures Decide(u, q.store, legacy[i]).Skip?
    {
      StepRefuses(u, legacy, p, run, i, j);
    }
  }

  /** With nothing ahead of the cursor, being refused behind it is being refused everywhere. */
  lemma NothingAheadIsSettled(u: Setup, legacy: seq<LegacyRow>, p: Progress)
    requires DistinctIds(legacy) && RefusedBehind(u, legacy, p) && Ahead(legacy, p) == []
    ensures Settled(u, legacy, p)
  {
    var all := Orphans(p.store, legacy);
    forall r | r in all ensures Decide(u, p.store, r).Skip? {
      var n := |all| - 1;
      assert StartIndex(all, p.cursor, true) == |all|;
      assert all[n] in legacy;
      var i :| 0 <= i < |legacy| && legacy[i] == r;
      var j :| 0 <= j < |legacy| && legacy[j] == all[n];
      OrphanOrder(p.store, legacy, i, j, n);
    }
  }

  /** The first row of a worklist that would be written is written. */
  lemma SomethingWritten(u: Setup, s: Store, work: seq<LegacyRow>) returns (i: nat)
    requires exists r :: r in work && Decide(u, s, r).Write?
    ensures i < |work| && !Orphan(ApplyAll(u, s, work, {}), work[i])
  {
    hide Decide, ApplyAll;
    i := FirstIndex(work, r => Decide(u, s, r).Write?);
    assert i < |work|;
    NothingToWrite(u, s, work[..i], {});
    WriteFacts(u, s, work[i]);
    RowSettled(u, s, work, {}, i);
  }

  lemma FewerOrphans(s: Store, t: Store, legacy: seq<LegacyRow>, r: LegacyRow)
    requires Grown(s, t) && r in Orphans(s, legacy) && !Orphan(t, r)
    ensures |Orphans(t, legacy)| < |Orphans(s, legacy)|
  {
    forall x | x in legacy && Orphan(t, x) ensures Orphan(s, x) {
      OrphanShrinks(s, t, x);
    }
    FilterNarrow(legacy, x => Orphan(s, x), x => Orphan(t, x));
    FilterDrops(Orphans(s, legacy), x => Orphan(t, x), r);
  }

  /** A healthy run with something ahead leaves fewer orphans, or as many and less ahead. */
  lemma StepProgresses(u: Setup, legacy: seq<LegacyRow>, p: Progress, run: Run)
    requires DistinctIds(legacy) && Healthy(run, legacy, p) && Ahead(legacy, p) != []
    ensures var q := Step(u, legacy, p, run);
      || |Orphans(q.store, legacy)| < |Orphans(p.store, legacy)|
      || (q.store == p.store && |Ahead(legacy, q)| < |Ahead(legacy, p)|)
  {
    var work := Worklist(legacy, p, run);
    HealthyStep(u, legacy, p, run);
    if exists r :: r in work && Decide(u, p.store, r).Write? {
      var i := SomethingWritten(u, p.store, work);
      ApplyAllGrows(u, p.store, work, {});
      assert work[i] in Orphans(p.store, legacy);
      FewerOrphans(p.store, ApplyAll(u, p.store, work, {}), legacy, work[i]);
    } else {
      NothingToWrite(u, p.store, work, {});
      CursorAdvances(legacy, p, work);
    }
  }

  lemma CursorAdvances(legacy: seq<LegacyRow>, p: Progress, work: seq<LegacyRow>)
    requires DistinctIds(legacy) && work != [] && work <= Ahead(legacy, p)
    ensures |Ahead(legacy, p.(cursor := Some(work[|work| - 1].id)))| < |Ahead(legacy, p)|
  {
    var all := Orphans(p.store, legacy);
    var b, n := StartIndex(all, p.cursor, true), |work|;
    FilterKeepsDistinct(legacy, row => Orphan(p.store, row));
    assert all[b + n - 1] == work[n - 1];
    var c := StartIndex(all, Some(work[n - 1].id), true);
    assert c == b + n;
  }

  function Triangle(n: nat): (t: nat)
    ensures 2 * t == n * (n + 1)
  {
    if n == 0 then 0 else Triangle(n - 1) + n
  }

  lemma {:induction false} TriangleGrows(m: nat, n: nat)
    requires m <= n
    ensures Triangle(m) <= Triangle(n)
  {
    if m < n {
      TriangleGrows(m, n - 1);
    }
  }

  /** Runs that may still be needed with so many orphans, so many of them ahead of the cursor. */
  function Rounds(orphans: nat, ahead: nat): nat {
    if orphans == 0 then 0 else ahead + Triangle(orphans - 1)
  }

  lemma RoundsShrink(orphans: nat, ahead: nat, orphans': nat, ahead': nat)
    requires 0 < ahead <= orphans && ahead' <= orphans'
    requires orphans' < orphans || (orphans' == orphans && ahead' < ahead)
    ensures Rounds(orphans', ahead') < Rounds(orphans, ahead)
  {
    if 0 < orphans' < orphans {
      TriangleGrows(orphans', orphans - 1);
    }
  }

  function RoundsAt(legacy: seq<LegacyRow>, p: Progress): nat {
    Rounds(|Orphans(p.store, legacy)|, |Ahead(legacy, p)|)
  }

  lemma StepUsesARound(u: Setup, legacy: seq<LegacyRow>, p: Progress, run: Run)
    requires DistinctIds(legacy) && Healthy(run, legacy, p) && Ahead(legacy, p) != []
    ensures RoundsAt(legacy, Step(u, legacy, p, run)) < RoundsAt(legacy, p)
  {
    hide Healthy, Step, Orphans, Rounds, FirstIndex;
    var q := Step(u, legacy, p, run);
    StepProgresses(u, legacy, p, run);
    RoundsShrink(|Orphans(p.store, legacy)|, |Ahead(legacy, p)|, |Orphans(q.store, legacy)|, |Ahead(legacy, q)|);
  }

  /** Healthy runs settle: orphans left, then orphans ahead of the cursor, go down, which bounds how many it takes. */
  lemma {:induction false} RunsSettle(u: Setup, legacy: seq<LegacyRow>, p: Progress, runs: nat -> Run, k: nat)
    returns (n: nat)
    requires DistinctIds(legacy) && AllHealthy(u, legacy, p, runs)
    requires RefusedBehind(u, legacy, After(u, legacy, p, runs, k))
    ensures k <= n <= k + RoundsAt(legacy, After(u, legacy, p, runs, k))
    ensures Settled(u, legacy, After(u, legacy, p, runs, n))
    decreases RoundsAt(legacy, After(u, legacy, p, runs, k))
  {
    hide Step, Ahead, Settled, RefusedBehind, AllHealthy, Healthy, RoundsAt;
    var here := After(u, legacy, p, runs, k);
    if Ahead(legacy, here) == [] {
      NothingAheadIsSettled(u, legacy, here);
      n := k;
    } else {
      assert After(u, legacy, p, runs, k + 1) == Step(u, legacy, here, runs(k));
      HealthyAt(u, legacy, p, runs, k);
      StepKeepsRefusals(u, legacy, here, runs(k));
      StepUsesARound(u, legacy, here, runs(k));
      n := RunsSettle(u, legacy, p, runs, k + 1);
    }
  }

  // ----- What they settle on

  /** UUID text holds no separator. */
  ghost predicate PlainIds(legacy: seq<LegacyRow>) {
    forall r :: r in legacy ==> '|' !in r.id
  }

  lemma SamePreimageSameId(x: Externals, a: Event, b: Event)
    requires Preimage(x, a) == Preimage(x, b)
    requires '|' !in a.eventId && '|' !in b.eventId
    ensures a.eventId == b.eventId
  {
    var ra := RestOfPreimage(x, a);
    var rb := RestOfPreimage(x, b);
    var m, n := |a.eventId|, |b.eventId|;
    var whole := Preimage(x, a);
    assert whole[..m] == a.eventId && whole[m] == '|';
    assert whole[..n] == b.eventId && whole[n] == '|';
    assert forall i :: 0 <= i < m ==> whole[i] == a.eventId[i];
    assert forall i :: 0 <= i < n ==> whole[i] == b.eventId[i];
    assert m == n;
  }

  lemma RestOfPreimage(x: Externals, e: Event) returns (rest: string)
    ensures Preimage(x, e) == e.eventId + "|" + rest
  {
    var fields := [
      e.eventType, e.tlc, OrEmpty(e.productReference), x.showQuantity(e.quantity), e.unitOfMeasure,
      OrEmpty(e.fromFacility), OrEmpty(e.toFacility), e.timestamp, x.dumpKdes(e.kdes)];
    rest := JoinPipe(fields);
    JoinPipeConcat([e.eventId], fields);
    assert [e.eventId] + fields == [
      e.eventId, e.eventType, e.tlc, OrEmpty(e.productReference), x.showQuantity(e.quantity), e.unitOfMeasure,
      OrEmpty(e.fromFacility), OrEmpty(e.toFacility), e.timestamp, x.dumpKdes(e.kdes)];
  }

  predicate Unprovable(u: Setup, r: LegacyRow) {
    Reconstruct(u.x, r, Active).Refused?
  }

  lemma UnprovableIsSkipped(u: Setup, s: Store, r: LegacyRow)
    requires Unprovable(u, r)
    ensures Decide(u, s, r).Skip?
  {
    StatusIrrelevant(u.x, r, ResolveStatus(s, r).0, Active);
  }

  lemma ApplyLast(u: Setup, s: Store, rows: seq<LegacyRow>, r: LegacyRow)
    ensures ApplyAll(u, s, rows + [r], {}) == Apply(u, ApplyAll(u, s, rows, {}), r, {})
  {
    assert (rows + [r])[..|rows|] == rows;
  }

  /** Rows that can never be proven may be dropped from a pass. */
  lemma {:induction false} UnprovableRowsDoNotMatter(u: Setup, s: Store, rows: seq<LegacyRow>, p: LegacyRow -> bool)
    requires forall r :: r in rows && !p(r) ==> Unprovable(u, r)
    ensures ApplyAll(u, s, Filter(rows, p), {}) == ApplyAll(u, s, rows, {})
  {
    if rows != [] {
      var n := |rows| - 1;
      var init, last := rows[..n], rows[n];
      assert rows == init + [last];
      UnprovableRowsDoNotMatter(u, s, init, p);
      ApplyLast(u, s, init, last);
      ApplyLast(u, s, Filter(init, p), last);
      if !p(last) {
        assert last in rows;
        UnprovableIsSkipped(u, ApplyAll(u, s, init, {}), last);
      }
    }
  }

  /** The state after the first `q` of the original orphans, with the cursor on one of them. */
  ghost predicate AtFrontier(u: Setup, s0: Store, a: seq<LegacyRow>, p: Progress, q: nat) {
    && q <= |a|
    && p.store == ApplyAll(u, s0, a[..q], {})
    && (p.cursor.Some? ==> exists i :: 0 <= i < q && a[i].id == p.cursor.value)
  }

  ghost predicate Standing(u: Setup, s0: Store, legacy: seq<LegacyRow>, a: seq<LegacyRow>) {
    CollisionFree(u.x) && PlainIds(legacy) && DistinctIds(legacy) && a == Orphans(s0, legacy)
  }

  lemma ProvenIsOwnTwin(x: Externals, r: LegacyRow)
    requires Reconstruct(x, r, Active).Proven?
    ensures var e := Reconstruct(x, r, Active).event; Hash(x, e) == r.sha256 && e.eventId == r.id
  {
    var splits := Hypotheses(r.locationGln);
    var f := FirstIndex(splits, h => Reproduces(x, r, Active, h));
    assert Reproduces(x, r, Active, splits[f]);
  }

  /** Two rows that share a hash cannot both be proven. */
  lemma SharedHashUnprovable(u: Setup, c: CanonicalRow, r0: LegacyRow, r: LegacyRow)
    requires CollisionFree(u.x) && '|' !in r0.id && '|' !in r.id && r0.id != r.id
    requires FaithfulTwin(u.x, c, r0) && c.sha256 == r.sha256
    ensures Unprovable(u, r)
  {
    if !Unprovable(u, r) {
      ProvenIsOwnTwin(u.x, r);
      SamePreimageSameId(u.x, c.event, Reconstruct(u.x, r, Active).event);
      assert false;
    }
  }

  /** A hash the pass brought in came with the faithful twin of one of its rows. */
  lemma HashSource(u: Setup, s0: Store, rows: seq<LegacyRow>, r: LegacyRow) returns (c: CanonicalRow, j: nat)
    requires Orphan(s0, r) && !Orphan(ApplyAll(u, s0, rows, {}), r)
    ensures j < |rows| && FaithfulTwin(u.x, c, rows[j]) && c.sha256 == r.sha256
  {
    hide ApplyAll, FaithfulTwin;
    var s := ApplyAll(u, s0, rows, {});
    var k :| k in s && s[k].sha256 == r.sha256;
    ApplyAllGrows(u, s0, rows, {});
    StoreStaysVerifiable(u, s0, rows, {});
    assert k !in s0;
    c := s[k];
    var r0 :| r0 in rows && r0.id == k && FaithfulTwin(u.x, s[k], r0);
    j :| 0 <= j < |rows| && rows[j] == r0;
  }

  /** A later original orphan whose hash has turned up in the store was never provable. */
  lemma LateTwinIsUnprovable(u: Setup, s0: Store, legacy: seq<LegacyRow>, a: seq<LegacyRow>, q: nat, i: nat)
    requires Standing(u, s0, legacy, a) && q <= i < |a|
    requires !Orphan(ApplyAll(u, s0, a[..q], {}), a[i])
    ensures Unprovable(u, a[i])
  {
    hide Filter, ApplyAll, FaithfulTwin, Unprovable, CollisionFree;
    FilterKeepsDistinct(legacy, row => Orphan(s0, row));
    assert a[i] in a;
    var c, j := HashSource(u, s0, a[..q], a[i]);
    assert a[j] in a;
    SharedHashUnprovable(u, c, a[j], a[i]);
  }

  function LeftOf(s: Store, a: seq<LegacyRow>, q: nat): seq<LegacyRow>
    requires q <= |a|
  {
    Orphans(s, a[..q])
  }

  function RightOf(s: Store, a: seq<LegacyRow>, q: nat): seq<LegacyRow>
    requires q <= |a|
  {
    Orphans(s, a[q..])
  }

  /** The orphan list is what is left of the first `q` original orphans, then what is left of the rest. */
  lemma OrphansAtFrontier(u: Setup, s0: Store, legacy: seq<LegacyRow>, a: seq<LegacyRow>, q: nat)
    requires a == Orphans(s0, legacy) && q <= |a|
    ensures var s := ApplyAll(u, s0, a[..q], {});
      Orphans(s, legacy) == LeftOf(s, a, q) + RightOf(s, a, q)
  {
    hide Filter, ApplyAll;
    var s := ApplyAll(u, s0, a[..q], {});
    ApplyAllGrows(u, s0, a[..q], {});
    forall x | x in legacy && Orphan(s, x) ensures Orphan(s0, x) {
      OrphanShrinks(s0, s, x);
    }
    FilterNarrow(legacy, x => Orphan(s0, x), x => Orphan(s, x));
    assert a == a[..q] + a[q..];
    FilterAppend(a[..q], a[q..], x => Orphan(s, x));
  }

  lemma LeftIsWithin(s: Store, a: seq<LegacyRow>, q: nat)
    requires q <= |a|
    ensures forall r :: r in LeftOf(s, a, q) ==> r in a[..q]
  {
  }

  lemma LeftIsRefused(u: Setup, s0: Store, a: seq<LegacyRow>, q: nat, s: Store)
    requires q <= |a| && s == ApplyAll(u, s0, a[..q], {})
    ensures forall r :: r in LeftOf(s, a, q) ==> Decide(u, s, r).Skip?
  {
    forall r | r in LeftOf(s, a, q) ensures Decide(u, s, r).Skip? {
      var i :| 0 <= i < q && a[..q][i] == r;
      RowSettled(u, s0, a[..q], {}, i);
    }
  }

  lemma DroppedAreUnprovable(u: Setup, s0: Store, legacy: seq<LegacyRow>, a: seq<LegacyRow>, q: nat)
    requires Standing(u, s0, legacy, a) && q <= |a|
    ensures var s := ApplyAll(u, s0, a[..q], {});
      forall r :: r in a[q..] && !Orphan(s, r) ==> Unprovable(u, r)
  {
    hide Filter, ApplyAll, Unprovable, Orphan, CollisionFree;
    var s := ApplyAll(u, s0, a[..q], {});
    forall r | r in a[q..] && !Orphan(s, r) ensures Unprovable(u, r) {
      var i :| 0 <= i < |a| - q && a[q..][i] == r;
      LateTwinIsUnprovable(u, s0, legacy, a, q, q + i);
    }
  }

  /** A run at the frontier starts no later than the frontier. */
  lemma StartsAtOrBefore(s: Store, a: seq<LegacyRow>, q: nat, cursor: Option<string>)
    requires DistinctIds(a) && q <= |a|
    requires cursor.Some? ==> exists i :: 0 <= i < q && a[i].id == cursor.value
    ensures StartIndex(LeftOf(s, a, q) + RightOf(s, a, q), cursor, true) <= |LeftOf(s, a, q)|
  {
    var left, right := LeftOf(s, a, q), RightOf(s, a, q);
    forall r | r in right ensures cursor != Some(r.id) {
      var i :| 0 <= i < |a| - q && a[q..][i] == r;
      if cursor.Some? {
        var j :| 0 <= j < q && a[j].id == cursor.value;
        assert a[q + i].id != a[j].id;
      }
    }
    var b := StartIndex(left + right, cursor, true);
    forall k | |left| <= k < |left + right| ensures cursor != Some((left + right)[k].id) {
      assert (left + right)[k] == right[k - |left|];
    }
  }

  lemma SkipsThenRest(u: Setup, s: Store, skips: seq<LegacyRow>, rest: seq<LegacyRow>)
    requires forall r :: r in skips ==> Decide(u, s, r).Skip?
    ensures ApplyAll(u, s, skips + rest, {}) == ApplyAll(u, s, rest, {})
  {
    ApplyAllAppend(u, s, skips, rest, {});
    NothingToWrite(u, s, skips, {});
  }

  lemma LastIsBelow(a: seq<LegacyRow>, q: nat, r: LegacyRow)
    requires q <= |a| && r in a[..q]
    ensures exists i :: 0 <= i < q && a[i].id == r.id
  {
    var i :| 0 <= i < q && a[..q][i] == r;
  }

  /** Applying a slice of the orphan list that reaches `z` rows past the frontier moves the frontier. */
  lemma SliceMovesFrontier(u: Setup, s0: Store, legacy: seq<LegacyRow>, a: seq<LegacyRow>, q: nat, b: nat, z: nat)
    returns (q': nat)
    requires Standing(u, s0, legacy, a) && q <= |a|
    requires var s := ApplyAll(u, s0, a[..q], {}); b <= |LeftOf(s, a, q)| && z <= |RightOf(s, a, q)|
    ensures var s := ApplyAll(u, s0, a[..q], {});
      && q <= q' <= |a|
      && ApplyAll(u, s, LeftOf(s, a, q)[b..] + RightOf(s, a, q)[..z], {}) == ApplyAll(u, s0, a[..q'], {})
      && forall r :: r in RightOf(s, a, q)[..z] ==> r in a[..q']
  {
    hide Filter, ApplyAll, Decide, Unprovable;
    var s := ApplyAll(u, s0, a[..q], {});
    var o := (row: LegacyRow) => Orphan(s, row);
    var left, right := LeftOf(s, a, q), RightOf(s, a, q);
    LeftIsRefused(u, s0, a, q, s);
    DroppedAreUnprovable(u, s0, legacy, a, q);
    assert forall r :: r in left[b..] ==> r in left;
    SkipsThenRest(u, s, left[b..], right[..z]);
    var k := FilterPrefix(a[q..], o, z);
    q' := q + k;
    assert a[q..][..k] == a[q..q'];
    assert forall r :: r in a[q..q'] ==> r in a[q..];
    UnprovableRowsDoNotMatter(u, s, a[q..q'], o);
    assert a[..q'] == a[..q] + a[q..q'];
    ApplyAllAppend(u, s0, a[..q], a[q..q'], {});
  }

  /** What lies ahead at the frontier: some rows already refused, then what is left of the rest. */
  lemma AheadAtFrontier(u: Setup, s0: Store, legacy: seq<LegacyRow>, a: seq<LegacyRow>, p: Progress, q: nat)
    returns (b: nat)
    requires Standing(u, s0, legacy, a) && AtFrontier(u, s0, a, p, q)
    ensures b <= |LeftOf(p.store, a, q)|
    ensures Ahead(legacy, p) == LeftOf(p.store, a, q)[b..] + RightOf(p.store, a, q)
  {
    hide Filter, ApplyAll, CollisionFree, LeftOf, RightOf;
    OrphansAtFrontier(u, s0, legacy, a, q);
    FilterKeepsDistinct(legacy, row => Orphan(s0, row));
    StartsAtOrBefore(p.store, a, q, p.cursor);
    b := StartIndex(Orphans(p.store, legacy), p.cursor, true);
  }

  /** A healthy run moves the frontier forward, or leaves it where it is. */
  lemma FrontierMoves(u: Setup, s0: Store, legacy: seq<LegacyRow>, a: seq<LegacyRow>, p: Progress, q: nat,
                      work: seq<LegacyRow>)
    returns (q': nat)
    requires Standing(u, s0, legacy, a) && AtFrontier(u, s0, a, p, q)
    requires work <= Ahead(legacy, p)
    ensures q' <= |a| && ApplyAll(u, p.store, work, {}) == ApplyAll(u, s0, a[..q'], {})
    ensures q <= q' && (work != [] ==> work[|work| - 1] in a[..q'])
  {
    hide Filter, Apply, Decide, LeftOf, RightOf, Standing, Ahead;
    var left, right := LeftOf(p.store, a, q), RightOf(p.store, a, q);
    var b := AheadAtFrontier(u, s0, legacy, a, p, q);
    assert work <= left[b..] + right;
    if |work| <= |left| - b {
      q' := q;
      assert work == left[b..b + |work|];
      assert forall r :: r in work ==> r in left;
      LeftIsRefused(u, s0, a, q, p.store);
      LeftIsWithin(p.store, a, q);
      NothingToWrite(u, p.store, work, {});
    } else {
      var z := |work| - (|left| - b);
      assert work == left[b..] + right[..z];
      q' := SliceMovesFrontier(u, s0, legacy, a, q, b, z);
      assert work[|work| - 1] == right[..z][z - 1];
    }
  }

  /** With no orphan left beyond the frontier, what lies beyond it changes nothing. */
  lemma NothingBeyond(u: Setup, s0: Store, legacy: seq<LegacyRow>, a: seq<LegacyRow>, q: nat)
    requires Standing(u, s0, legacy, a) && q <= |a|
    requires RightOf(ApplyAll(u, s0, a[..q], {}), a, q) == []
    ensures ApplyAll(u, s0, a[..q], {}) == ApplyAll(u, s0, a, {})
  {
    hide Filter, Unprovable, Orphan, Standing, Decide;
    var s := ApplyAll(u, s0, a[..q], {});
    DroppedAreUnprovable(u, s0, legacy, a, q);
    UnprovableRowsDoNotMatter(u, s, a[q..], row => Orphan(s, row));
    assert a == a[..q] + a[q..];
    ApplyAllAppend(u, s0, a[..q], a[q..], {});
  }

  /** A settled frontier is the end. */
  lemma SettledFrontierIsFullPass(u: Setup, s0: Store, legacy: seq<LegacyRow>, a: seq<LegacyRow>, p: Progress, q: nat)
    requires Standing(u, s0, legacy, a) && AtFrontier(u, s0, a, p, q) && Ahead(legacy, p) == []
    ensures p.store == ApplyAll(u, s0, a, {})
  {
    hide Filter, ApplyAll, Standing, LeftOf, RightOf, Ahead;
    var b := AheadAtFrontier(u, s0, legacy, a, p, q);
    NothingBeyond(u, s0, legacy, a, q);
  }

  lemma StepMovesFrontier(u: Setup, s0: Store, legacy: seq<LegacyRow>, a: seq<LegacyRow>, p: Progress, q: nat, run: Run)
    returns (q': nat)
    requires Standing(u, s0, legacy, a) && AtFrontier(u, s0, a, p, q) && Healthy(run, legacy, p)
    ensures AtFrontier(u, s0, a, Step(u, legacy, p, run), q')
  {
    hide Filter, ApplyAll, Decide, CollisionFree, Healthy;
    var work := Worklist(legacy, p, run);
    HealthyStep(u, legacy, p, run);
    q' := FrontierMoves(u, s0, legacy, a, p, q, work);
    if work != [] {
      LastIsBelow(a, q', work[|work| - 1]);
    }
  }

  lemma {:induction false} AlwaysAtFrontier(u: Setup, s0: Store, legacy: seq<LegacyRow>, a: seq<LegacyRow>,
                                            runs: nat -> Run, n: nat)
    returns (q: nat)
    requires Standing(u, s0, legacy, a) && AllHealthy(u, legacy, Progress(s0, None, {}), runs)
    ensures AtFrontier(u, s0, a, After(u, legacy, Progress(s0, None, {}), runs, n), q)
  {
    hide Step, AtFrontier, AllHealthy, Healthy, Standing;
    if n == 0 {
      q := 0;
      StartsAtFrontier(u, s0, a);
    } else {
      var before := After(u, legacy, Progress(s0, None, {}), runs, n - 1);
      q := AlwaysAtFrontier(u, s0, legacy, a, runs, n - 1);
      HealthyAt(u, legacy, Progress(s0, None, {}), runs, n - 1);
      q := StepMovesFrontier(u, s0, legacy, a, before, q, runs(n - 1));
    }
  }

  lemma StartsAtFrontier(u: Setup, s0: Store, a: seq<LegacyRow>)
    ensures AtFrontier(u, s0, a, Progress(s0, None, {}), 0)
  {
    assert a[..0] == [];
  }

  lemma SettledStep(u: Setup, legacy: seq<LegacyRow>, p: Progress, run: Run)
    requires Healthy(run, legacy, p) && Settled(u, legacy, p)
    ensures Step(u, legacy, p, run).store == p.store && Step(u, legacy, p, run).cursor == p.cursor
    ensures Settled(u, legacy, Step(u, legacy, p, run))
  {
    HealthyStep(u, legacy, p, run);
  }

  lemma {:induction false} SettledStays(u: Setup, legacy: seq<LegacyRow>, p: Progress, runs: nat -> Run, k: nat, n: nat)
    requires AllHealthy(u, legacy, p, runs)
    requires k <= n && Settled(u, legacy, After(u, legacy, p, runs, k))
    ensures After(u, legacy, p, runs, n).store == After(u, legacy, p, runs, k).store
    ensures After(u, legacy, p, runs, n).cursor == After(u, legacy, p, runs, k).cursor
    ensures Settled(u, legacy, After(u, legacy, p, runs, n))
  {
    hide Step, Settled, AllHealthy, Healthy;
    if k < n {
      SettledStays(u, legacy, p, runs, k, n - 1);
      var before := After(u, legacy, p, runs, n - 1);
      HealthyAt(u, legacy, p, runs, n - 1);
      SettledStep(u, legacy, before, runs(n - 1));
    }
  }

  /** Every remaining orphan is refused, and the store is what one unbounded pass would have left. */
  ghost predicate FullPassReached(u: Setup, s0: Store, legacy: seq<LegacyRow>, p: Progress) {
    && p.store == ApplyAll(u, s0, Orphans(s0, legacy), {})
    && forall r :: r in Orphans(p.store, legacy) ==> Decide(u, p.store, r).Skip?
  }

  /**
   * Started afresh, bounded resumed runs reach a point from which on nothing
   * changes: every orphan left is refused, and the store is exactly the one a
   * single unbounded pass over the original orphans would have left. With `n`
   * orphans to begin with it takes at most `n * (n + 1) / 2` runs.
   */
  lemma BoundedRunsReachFullPass(u: Setup, s0: Store, legacy: seq<LegacyRow>, runs: nat -> Run)
    requires CollisionFree(u.x) && PlainIds(legacy) && DistinctIds(legacy)
    requires AllHealthy(u, legacy, Progress(s0, None, {}), runs)
    ensures forall n: nat :: n >= Triangle(|Orphans(s0, legacy)|) ==>
      FullPassReached(u, s0, legacy, After(u, legacy, Progress(s0, None, {}), runs, n))
  {
    var start, a := Progress(s0, None, {}), Orphans(s0, legacy);
    var k := RunsSettle(u, legacy, start, runs, 0);
    assert k <= Triangle(|a|) by {
      StartingRounds(legacy, start);
    }
    var q := AlwaysAtFrontier(u, s0, legacy, a, runs, k);
    SettledFrontierIsFullPass(u, s0, legacy, a, After(u, legacy, start, runs, k), q);
    forall n: nat | n >= k ensures FullPassReached(u, s0, legacy, After(u, legacy, start, runs, n)) {
      SettledStays(u, legacy, start, runs, k, n);
    }
  }

  lemma StartingRounds(legacy: seq<LegacyRow>, p: Progress)
    ensures RoundsAt(legacy, p) <= Triangle(|Orphans(p.store, legacy)|)
  {
    hide Orphans, FirstIndex;
  }
}
