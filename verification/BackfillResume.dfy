/**
 * Runs of the backfill over one tenant and a fixed legacy store: batches,
 * the resume cursor, `--limit`, and what any sequence of runs comes to.
 */
module BackfillResume {
  import opened Common
  import opened Canonical
  import opened Reconstruction
  import opened BackfillRules

  /** Durable state between runs, and the ids examined in batches that committed. */
  datatype Progress = Progress(store: Store, cursor: Option<string>, examined: set<string>)

  /**
   * One run: its arguments, the rows whose insert raises, and how far it got
   * before it finished, failed or was killed: batches committed, and of those
   * how many had their cursor saved.
   */
  datatype Run = Run(
    limit: Option<nat>, resume: bool, batchSize: nat, fails: set<string>,
    committed: nat, saved: nat)

  predicate Sensible(run: Run) {
    run.batchSize >= 1 && run.saved <= run.committed
  }

  /** The orphans a run starts from, after the cursor when the cursor is still an orphan. */
  function Remaining(all: seq<LegacyRow>, cursor: Option<string>, resume: bool): seq<LegacyRow> {
    all[StartIndex(all, cursor, resume)..]
  }

  function StartIndex(all: seq<LegacyRow>, cursor: Option<string>, resume: bool): (b: nat)
    ensures b <= |all|
    ensures b > 0 ==> resume && cursor == Some(all[b - 1].id)
    ensures b == 0 && resume ==> forall r :: r in all ==> cursor != Some(r.id)
  {
    var i := FirstIndex(all, (r: LegacyRow) => cursor == Some(r.id));
    if resume && i < |all| then i + 1 else 0
  }

  function Worklist(legacy: seq<LegacyRow>, p: Progress, run: Run): seq<LegacyRow> {
    Limited(Remaining(Orphans(p.store, legacy), p.cursor, run.resume), run.limit)
  }

  function Limited(rest: seq<LegacyRow>, limit: Option<nat>): seq<LegacyRow> {
    if limit.None? then rest else rest[..Min(limit.value, |rest|)]
  }

  /** Rows in the first `batches` batches of a worklist. */
  function RowsIn(work: seq<LegacyRow>, batchSize: nat, batches: nat): (n: nat)
    ensures n <= |work|
  {
    Min(batches * batchSize, |work|)
  }

  function Ids(rows: seq<LegacyRow>): set<string> {
    set r | r in rows :: r.id
  }

  function Step(u: Setup, legacy: seq<LegacyRow>, p: Progress, run: Run): Progress {
    var work := Worklist(legacy, p, run);
    var n := RowsIn(work, run.batchSize, run.committed);
    var m := RowsIn(work, run.batchSize, run.saved);
    Progress(
      ApplyAll(u, p.store, work[..n], run.fails),
      if m == 0 then p.cursor else Some(work[m - 1].id),
      p.examined + Ids(work[..n]))
  }

  /** Runs one after another, each with its own setup. */
  function Steps(legacy: seq<LegacyRow>, p: Progress, runs: seq<(Setup, Run)>): Progress {
    if runs == [] then p
    else
      var (u, run) := runs[|runs| - 1];
      Step(u, legacy, Steps(legacy, p, runs[..|runs| - 1]), run)
  }

  // ----- Order facts about the orphan list

  lemma {:induction false} FilterKeepsDistinct(rows: seq<LegacyRow>, p: LegacyRow -> bool)
    requires DistinctIds(rows)
    ensures DistinctIds(Filter(rows, p))
  {
    if rows != [] {
      var n := |rows| - 1;
      FilterKeepsDistinct(rows[..n], p);
      forall r | r in Filter(rows[..n], p) ensures r.id != rows[n].id {
        var i :| 0 <= i < n && rows[..n][i] == r;
      }
    }
  }

  /** Being earlier in the legacy order is being earlier in the orphan list. */
  lemma OrphanOrder(s: Store, legacy: seq<LegacyRow>, i: nat, j: nat, a: nat)
    requires DistinctIds(legacy) && i < |legacy| && j < |legacy|
    requires Orphan(s, legacy[i])
    requires a < |Orphans(s, legacy)| && Orphans(s, legacy)[a] == legacy[j]
    ensures i <= j ==> exists b :: 0 <= b <= a && Orphans(s, legacy)[b] == legacy[i]
    ensures j < i ==> forall b :: 0 <= b <= a ==> Orphans(s, legacy)[b] != legacy[i]
  {
    FilterOrder(legacy, row => Orphan(s, row), i, j, a);
  }

  // ----- Resuming skips nothing

  /** Every orphan at or before the cursor has been examined. */
  ghost predicate NothingSkipped(legacy: seq<LegacyRow>, p: Progress) {
    forall i, j :: 0 <= i <= j < |legacy| && p.cursor == Some(legacy[j].id) && Orphan(p.store, legacy[i])
      ==> legacy[i].id in p.examined
  }

  /**
   * When a run moves the cursor to its `m`-th row, an orphan at or before the
   * new cursor is among those `m` rows or was at or before the old cursor.
   */
  lemma BehindNewCursor(legacy: seq<LegacyRow>, p: Progress, run: Run, m: nat, i: nat, j: nat)
    requires DistinctIds(legacy)
    requires 0 < m <= |Worklist(legacy, p, run)|
    requires 0 <= i <= j < |legacy| && legacy[j].id == Worklist(legacy, p, run)[m - 1].id
    requires Orphan(p.store, legacy[i])
    ensures legacy[i] in Worklist(legacy, p, run)[..m]
         || exists j0 :: i <= j0 < |legacy| && p.cursor == Some(legacy[j0].id)
  {
    hide Filter, FirstIndex;
    var all := Orphans(p.store, legacy);
    var b := StartIndex(all, p.cursor, run.resume);
    var work := Worklist(legacy, p, run);
    var last := work[m - 1];
    assert last == all[b + m - 1] && work[..m] == all[b..b + m];
    assert last in legacy;
    assert last == legacy[j] by {
      var j' :| 0 <= j' < |legacy| && legacy[j'] == last;
      assert j' == j;
    }
    var j0 := FilterSlice(legacy, row => Orphan(p.store, row), b, b + m, i, j);
  }

  lemma MoreBatchesMoreRows(work: seq<LegacyRow>, batchSize: nat, few: nat, many: nat)
    requires few <= many
    ensures RowsIn(work, batchSize, few) <= RowsIn(work, batchSize, many)
  {
    assert many * batchSize == few * batchSize + (many - few) * batchSize;
    assert (many - few) * batchSize >= 0;
  }

  lemma StepSkipsNothing(u: Setup, legacy: seq<LegacyRow>, p: Progress, run: Run)
    requires DistinctIds(legacy) && Sensible(run) && NothingSkipped(legacy, p)
    ensures NothingSkipped(legacy, Step(u, legacy, p, run))
  {
    var q := Step(u, legacy, p, run);
    forall i, j | 0 <= i <= j < |legacy| && q.cursor == Some(legacy[j].id) && Orphan(q.store, legacy[i])
      ensures legacy[i].id in q.examined
    {
      StepExamines(u, legacy, p, run, i, j);
    }
  }

  lemma StepExamines(u: Setup, legacy: seq<LegacyRow>, p: Progress, run: Run, i: nat, j: nat)
    requires DistinctIds(legacy) && Sensible(run) && NothingSkipped(legacy, p)
    requires 0 <= i <= j < |legacy| && Step(u, legacy, p, run).cursor == Some(legacy[j].id)
    requires Orphan(Step(u, legacy, p, run).store, legacy[i])
    ensures legacy[i].id in Step(u, legacy, p, run).examined
  {
    var work := Worklist(legacy, p, run);
    var n, m := RowsIn(work, run.batchSize, run.committed), RowsIn(work, run.batchSize, run.saved);
    MoreBatchesMoreRows(work, run.batchSize, run.saved, run.committed);
    ApplyAllGrows(u, p.store, work[..n], run.fails);
    OrphanShrinks(p.store, ApplyAll(u, p.store, work[..n], run.fails), legacy[i]);
    if m > 0 {
      BehindNewCursor(legacy, p, run, m, i, j);
      assert legacy[i] in work[..m] ==> legacy[i] in work[..n] by {
        assert work[..n][..m] == work[..m];
      }
    }
  }

  /**
   * However runs end, an orphan the next resuming run would not look at has
   * already been examined in a batch that committed.
   */
  lemma {:induction false} ResumeSkipsNothing(legacy: seq<LegacyRow>, s: Store, runs: seq<(Setup, Run)>)
    requires DistinctIds(legacy)
    requires forall r :: r in runs ==> Sensible(r.1)
    ensures var p := Steps(legacy, Progress(s, None, {}), runs);
      && NothingSkipped(legacy, p)
      && forall r :: r in Orphans(p.store, legacy) && r !in Remaining(Orphans(p.store, legacy), p.cursor, true)
           ==> r.id in p.examined
  {
    var start := Progress(s, None, {});
    var p := Steps(legacy, start, runs);
    if runs != [] {
      var n := |runs| - 1;
      ResumeSkipsNothing(legacy, s, runs[..n]);
      assert runs[n] in runs;
      StepSkipsNothing(runs[n].0, legacy, Steps(legacy, start, runs[..n]), runs[n].1);
    }
    var all := Orphans(p.store, legacy);
    var b := StartIndex(all, p.cursor, true);
    forall r | r in all && r !in all[b..] ensures r.id in p.examined {
      SkippedIsBehind(legacy, p, r);
    }
  }

  lemma SkippedIsBehind(legacy: seq<LegacyRow>, p: Progress, r: LegacyRow)
    requires DistinctIds(legacy) && NothingSkipped(legacy, p)
    requires r in Orphans(p.store, legacy) && r !in Remaining(Orphans(p.store, legacy), p.cursor, true)
    ensures r.id in p.examined
  {
    var all := Orphans(p.store, legacy);
    var b := StartIndex(all, p.cursor, true);
    var a :| 0 <= a < |all| && all[a] == r;
    forall k | b <= k < |all| ensures all[k] in all[b..] {
      assert all[b..][k - b] == all[k];
    }
    assert a < b;
    assert all[b - 1] in legacy;
    var i :| 0 <= i < |legacy| && legacy[i] == r;
    var j :| 0 <= j < |legacy| && legacy[j] == all[b - 1];
    OrphanOrder(p.store, legacy, i, j, b - 1);
  }
}
