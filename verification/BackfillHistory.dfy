/** Runs of the script one after another: what any history of runs keeps, and where undisturbed ones end. */
module BackfillHistory {
  import opened Common
  import opened Canonical
  import opened Reconstruction
  import opened BackfillRules
  import opened BackfillResume
  import opened BackfillConvergence
  import opened BackfillSteps
  import opened BackfillRun

  // ----- The limit can be exceeded

  lemma LoneWork(row: LegacyRow, run: Run)
    requires run.limit == Some(1)
    ensures Worklist([row], Progress(map[], None, {}), run) == [row]
  {
    assert [row][..0] == [];
    assert Orphans(map[], [row]) == [row];
  }

  lemma LoneCommitFails(a: Args, f: Faults, tenant: string, row: LegacyRow, share: Share)
    requires a.execute && a.batchSize == 1 && !Unopened(f, tenant) && !f.fetches(tenant, 0) && !f.queries(row.id)
    requires f.commits(tenant, 0) == Fails && Fits(a, f, tenant, map[], [row], share)
    ensures share.raised && share.examined == 1
  {
    assert RowsIn([row], 1, 0) == 0 && RowsIn([row], 1, 1) == 1;
    assert Batch([row], 1, 0) == [row];
    assert HaltsAt(a, f, tenant, 0, Batch([row], 1, 0));
    assert share.stop == 0;
    assert Reach(f, [row]) == 1;
  }

  /** A limit of one, two tenants with one orphan each, and the first one's commit fails: two rows are examined. */
  method LimitOverrun(u: Setup, row: LegacyRow) returns (examined: nat)
    ensures examined == 2
  {
    var a := Args(u, true, 1, Some(1), true, true, false);
    var f := Faults(_ => false, (_, _) => false, _ => false, {},
                    (t, _) => if t == "a" then Fails else Lands, (_, _) => false, (_, _) => false);
    var legacy := map["a" := [row], "b" := [row]];
    var run := new Backfill(a, f, legacy, map[], map[]);
    ghost var x := run.Seen();
    var exitCode, shares, kept := run.RunTenants(["a", "b"]);
    OverrunShares(a, f, legacy, row, shares, kept, x, run.Seen());
    examined := run.summary.examined;
  }

  lemma {:induction false} OverrunShares(a: Args, f: Faults, legacy: map<string, seq<LegacyRow>>, row: LegacyRow,
                      shares: seq<Share>, kept: seq<nat>, x: Image, y: Image)
    requires a.execute && a.batchSize == 1 && a.limit == Some(1)
    requires !Unopened(f, "a") && !f.fetches("a", 0) && !f.queries(row.id) && f.commits("a", 0) == Fails
      && Quiet(f, "b", [row])
    requires legacy == map["a" := [row], "b" := [row]]
    requires x.canonical == map[] && x.cursors == map[]
    requires RunSoFar(a, f, legacy, ["a", "b"], shares, kept, x, y) && (|shares| == 2 || Charged(shares) == 1)
    ensures Charged(shares) + Uncharged(shares) == 2
  {
    hide Shared, RunSoFar, Metered, Quiet, Unopened, Distinct;
    TwoTenants();
    RunIsMetered(a, f, legacy, ["a", "b"], shares, kept, x, y);
    if |shares| > 0 {
      FirstShare(a, f, legacy, row, shares, kept, x, y);
    }
    if |shares| == 2 {
      SecondShare(a, f, legacy, row, shares, kept, x, y);
    }
  }

  lemma TwoTenants()
    ensures Distinct(["a", "b"])
  {
    assert ["a", "b"][0] == "a" && ["a", "b"][1] == "b";
  }

  lemma RunIsMetered(a: Args, f: Faults, legacy: map<string, seq<LegacyRow>>, tenants: seq<string>,
                     shares: seq<Share>, kept: seq<nat>, x: Image, y: Image)
    requires RunSoFar(a, f, legacy, tenants, shares, kept, x, y)
    ensures Metered(a.limit, shares) && |shares| <= |tenants|
    ensures a.execute && Distinct(tenants) ==> Shared(a, f, legacy, tenants, shares, kept, x, y)
  {
    hide Metered, Shared, Distinct;
  }

  lemma {:induction false} FirstShare(a: Args, f: Faults, legacy: map<string, seq<LegacyRow>>, row: LegacyRow,
                   shares: seq<Share>, kept: seq<nat>, x: Image, y: Image)
    requires a.execute && a.batchSize == 1 && a.limit == Some(1)
    requires !Unopened(f, "a") && !f.fetches("a", 0) && !f.queries(row.id) && f.commits("a", 0) == Fails
    requires legacy == map["a" := [row], "b" := [row]]
    requires x.canonical == map[] && x.cursors == map[] && |shares| > 0
    requires Shared(a, f, legacy, ["a", "b"], shares, kept, x, y) && Metered(a.limit, shares)
    ensures shares[0].raised && shares[0].examined == 1 && Charged(shares[..1]) == 0 && Uncharged(shares[..1]) == 1
    ensures |shares| == 1 ==> Charged(shares) == 0
  {
    hide Fits, Worklist, Step, Charged, Uncharged;
    FirstTally(shares);
    LoneWork(row, shares[0].run);
    assert ["a", "b"][0] == "a";
    assert Served(a, f, RowsOf(legacy, "a"), "a", shares[0], kept[0], x, y);
    LoneCommitFails(a, f, "a", row, shares[0]);
  }

  lemma {:induction false} FirstTally(shares: seq<Share>)
    requires |shares| > 0
    ensures Charged(shares[..0]) == 0
    ensures Charged(shares[..1]) == (if shares[0].raised then 0 else shares[0].examined)
    ensures Uncharged(shares[..1]) == (if shares[0].raised then shares[0].examined else 0)
    ensures |shares| == 1 ==> shares[..1] == shares
  {
    assert shares[..1][..0] == [];
  }

  lemma {:induction false} SecondShare(a: Args, f: Faults, legacy: map<string, seq<LegacyRow>>, row: LegacyRow,
                    shares: seq<Share>, kept: seq<nat>, x: Image, y: Image)
    requires a.execute && a.batchSize == 1 && a.limit == Some(1) && Quiet(f, "b", [row])
    requires legacy == map["a" := [row], "b" := [row]]
    requires x.canonical == map[] && x.cursors == map[] && |shares| == 2 && Charged(shares[..1]) == 0
    requires Shared(a, f, legacy, ["a", "b"], shares, kept, x, y) && Metered(a.limit, shares)
    ensures !shares[1].raised && shares[1].examined == 1
  {
    hide Fits, Worklist, Step, Quiet, Charged;
    assert shares[1].run.limit == Some(1);
    LoneWork(row, shares[1].run);
    assert ["a", "b"][1] == "b";
    assert Served(a, f, RowsOf(legacy, "b"), "b", shares[1], kept[1], x, y);
    QuietCompletes(a, f, "b", [row], map[], [row], shares[1]);
    ShareFacts(a, f, "b", map[], [row], shares[1]);
  }

  // ----- Durable rows can be reported as rolled back

  /**
   * A batch of one writable row whose commit raises after landing: durable,
   * reported as rolled back, and not counted.
   */
  method RolledBackYetDurable(u: Setup, row: LegacyRow) returns (run: Backfill)
    requires Decide(u, map[], row).Write?
    ensures Durable(run.canonical, Key("a", row.id))
    ensures run.report == [RolledBack([Key("a", row.id)])]
    ensures run.counted == [] && run.summary.backfilled == 0
  {
    var a := Args(u, true, 1, None, true, true, true);
    var f := Faults(_ => false, (_, _) => false, _ => false, {}, (_, _) => LandsThenRaises, (_, _) => false,
      (_, _) => false);
    assert Raising(a, f, row);
    hide Raising, Decide, ApplyAll, BatchDesk, ClosingRecords, BatchOk, Landed, CountAll, LostIn, ErrorsIn, ExaminedIn,
      InsertedKeys, WouldKeys, Reported, Handled, Backfill.Valid, Backfill.Told, StoreOf;
    run := new Backfill(a, f, map["a" := [row]], map[], map[]);
    ghost var d := run.DeskNow().(working := StoreOf(map[], "a"));
    var ok := run.ProcessBatch("a", [row], 0);
    LoneBatch(a, f, row, d, map[], run.canonical);
  }

  /** The faults and arguments of the witness. */
  ghost predicate Raising(a: Args, f: Faults, row: LegacyRow) {
    && a.execute && a.reporting && f.inserts == {} && !f.queries(row.id)
    && !f.fetches("a", 0) && f.commits("a", 0) == LandsThenRaises
  }

  lemma LoneBatch(a: Args, f: Faults, row: LegacyRow, d: Desk, canonical: Stores, canonical': Stores)
    requires Raising(a, f, row) && canonical == map[] && d.working == StoreOf(canonical, "a") && d.pending == []
    requires Decide(a.setup, map[], row).Write?
    requires canonical' == if Landed(a, f, "a", 0, [row])
                           then canonical["a" := ApplyAll(a.setup, d.working, [row], f.inserts)] else canonical
    ensures !BatchOk(a, f, "a", 0, [row]) && Durable(canonical', Key("a", row.id))
    ensures var e := BatchDesk(a, f, "a", 0, d, [row]);
      && e.summary == d.summary.Examine() && e.report == d.report
      && ClosingRecords(a, f, "a", 0, e, [row]) == [RolledBack([Key("a", row.id)])]
  {
    hide Decide, Reached, ApplyAll, Reach;
    LoneInsert(a, f, row, d);
  }

  lemma LoneInsert(a: Args, f: Faults, row: LegacyRow, d: Desk)
    requires a.execute && f.inserts == {} && !f.queries(row.id) && d.working == map[] && d.pending == []
    requires Decide(a.setup, map[], row).Write?
    ensures Reach(f, [row]) == 1
    ensures var e, c := Reached(a, f, "a", d, [row]), Decide(a.setup, map[], row);
      && e == d.(summary := d.summary.Examine(), working := map[row.id := c.row],
        pending := [Pending(Key("a", row.id), c.shape)])
      && PendingKeys(e.pending) == [Key("a", row.id)]
      && ApplyAll(a.setup, map[], [row], f.inserts) == map[row.id := c.row]
  {
    hide Decide;
    assert [row][..1] == [row] && [row][..0] == [];
    assert HandleRows(a, f, "a", d, [row]) == HandleRow(a, f, "a", d, row);
  }

  // ----- Any history of runs

  /**
   * One start of the script. A killed run leaves what a run leaves whose next
   * step raises and that serves no further tenant.
   */
  datatype Invocation = Invocation(args: Args, faults: Faults, tenants: seq<string>)

  /** What the script accepts: a batch size of at least one, and no tenant twice. */
  ghost predicate Standard(v: Invocation) {
    v.args.batchSize >= 1 && Distinct(v.tenants)
  }

  /** A tenant's store and saved cursor are those of these runs in the store model. */
  ghost predicate Tracks(rows: seq<LegacyRow>, s0: Store, runs: seq<(Setup, Run)>, store: Store,
                         cursor: Option<string>) {
    && (forall r :: r in runs ==> Sensible(r.1))
    && Steps(rows, Progress(s0, None, {}), runs).store == store
    && Steps(rows, Progress(s0, None, {}), runs).cursor == cursor
  }

  /** What the runs examined does not bear on where the next one goes. */
  lemma StepIgnoresExamined(u: Setup, rows: seq<LegacyRow>, p: Progress, q: Progress, run: Run)
    requires p.store == q.store && p.cursor == q.cursor
    ensures Step(u, rows, p, run).store == Step(u, rows, q, run).store
    ensures Step(u, rows, p, run).cursor == Step(u, rows, q, run).cursor
  {
    hide Orphans, Remaining, Limited, ApplyAll, RowsIn;
  }

  lemma {:induction false} TracksMore(u: Setup, rows: seq<LegacyRow>, s0: Store, runs: seq<(Setup, Run)>, p: Progress,
                                      run: Run)
    requires Tracks(rows, s0, runs, p.store, p.cursor) && Sensible(run)
    ensures Tracks(rows, s0, runs + [(u, run)], Step(u, rows, p, run).store, Step(u, rows, p, run).cursor)
  {
    hide Step, Sensible;
    var more := runs + [(u, run)];
    assert more[..|more| - 1] == runs;
    StepIgnoresExamined(u, rows, Steps(rows, Progress(s0, None, {}), runs), p, run);
  }

  type History = map<string, seq<(Setup, Run)>>

  function RunsOf(history: History, t: string): seq<(Setup, Run)> {
    if t in history then history[t] else []
  }

  /** A share as a run of the store model: without a state file it resumes from nothing and saves nothing. */
  function RunIn(v: Invocation, share: Share, kept: nat): (Setup, Run) {
    (v.args.setup, if v.args.stateFile then share.run.(saved := kept) else share.run.(resume := false, saved := 0))
  }

  /** A tenant's history with its share of one more run, if it got one. */
  function Recorded(v: Invocation, history: History, shares: seq<Share>, kept: seq<nat>, t: string): seq<(Setup, Run)>
    requires |shares| == |kept| <= |v.tenants|
  {
    var k := FirstIndex(v.tenants[..|shares|], (x: string) => x == t);
    if k < |shares| then RunsOf(history, t) + [RunIn(v, shares[k], kept[k])] else RunsOf(history, t)
  }

  /** The state a run starts from: the cursors of the state file when there is one, none otherwise. */
  ghost predicate Loaded(v: Invocation, x: Image) {
    x.cursors == if v.args.stateFile then x.saved else map[]
  }

  /** A run without a state file is one that neither resumes nor saves. */
  lemma UnsavedRun(u: Setup, rows: seq<LegacyRow>, p: Progress, q: Progress, run: Run)
    requires p.cursor == None && p.store == q.store
    ensures var idle := run.(resume := false, saved := 0);
      Step(u, rows, q, idle).store == Step(u, rows, p, run).store && Step(u, rows, q, idle).cursor == q.cursor
  {
    hide Orphans, Limited, ApplyAll;
    var idle := run.(resume := false, saved := 0);
    var all := Orphans(p.store, rows);
    assert StartIndex(all, None, run.resume) == 0 == StartIndex(all, q.cursor, false);
    assert Worklist(rows, p, run) == Worklist(rows, q, idle);
  }

  /** A run takes every tenant one step further in the store model, or leaves it. */
  lemma TenantTracks(v: Invocation, legacy: map<string, seq<LegacyRow>>, s0: Store, history: History,
                     shares: seq<Share>, kept: seq<nat>, x: Image, y: Image, t: string)
    requires v.args.execute && v.args.batchSize >= 1 && Loaded(v, x)
    requires Shared(v.args, v.faults, legacy, v.tenants, shares, kept, x, y)
    requires Tracks(RowsOf(legacy, t), s0, RunsOf(history, t), StoreOf(x.canonical, t), CursorOf(x.saved, t))
    ensures Tracks(RowsOf(legacy, t), s0, Recorded(v, history, shares, kept, t), StoreOf(y.canonical, t),
      CursorOf(y.saved, t))
  {
    hide Tracks, Step, StoreOf, Worklist, RowsOf, Fits, Claims;
    var k := FirstIndex(v.tenants[..|shares|], (z: string) => z == t);
    if k < |shares| {
      assert v.tenants[k] == t;
      var rows, p := RowsOf(legacy, t), StartAt(x, t);
      assert Served(v.args, v.faults, rows, t, shares[k], kept[k], x, y);
      ShareFacts(v.args, v.faults, t, p.store, Worklist(rows, p, shares[k].run), shares[k]);
      var q, run := Progress(p.store, CursorOf(x.saved, t), {}), RunIn(v, shares[k], kept[k]).1;
      if v.args.stateFile {
        SavedIsIdle(v.args.setup, rows, p, shares[k].run, kept[k]);
      } else {
        UnsavedRun(v.args.setup, rows, p, q, shares[k].run);
      }
      TracksMore(v.args.setup, rows, s0, RunsOf(history, t), q, run);
    } else {
      assert Untouched(v.args, t, x, y);
    }
  }

  lemma SavedIsIdle(u: Setup, rows: seq<LegacyRow>, p: Progress, run: Run, saved: nat)
    ensures Step(u, rows, p, run.(saved := saved)).store == Step(u, rows, p, run).store
  {
    hide ApplyAll, RowsIn, Worklist;
    WorklistIgnoresSaves(rows, p, run, saved);
  }

  /** What a history of runs leaves of one tenant: a run of the store model, and no orphan passed over. */
  ghost predicate Accountable(rows: seq<LegacyRow>, s0: Store, runs: seq<(Setup, Run)>, store: Store,
                              cursor: Option<string>) {
    && Tracks(rows, s0, runs, store, cursor)
    && (DistinctIds(rows) ==>
          forall r :: r in Orphans(store, rows) && r !in Remaining(Orphans(store, rows), cursor, true)
            ==> r.id in Steps(rows, Progress(s0, None, {}), runs).examined)
  }

  lemma TracksSkipNothing(rows: seq<LegacyRow>, s0: Store, runs: seq<(Setup, Run)>, store: Store,
                          cursor: Option<string>)
    requires Tracks(rows, s0, runs, store, cursor)
    ensures Accountable(rows, s0, runs, store, cursor)
  {
    hide Orphans, Remaining, Sensible;
    if DistinctIds(rows) {
      ResumeSkipsNothing(rows, s0, runs);
    }
  }

  ghost predicate AllTrack(legacy: map<string, seq<LegacyRow>>, canonical0: Stores, history: History,
                           canonical: Stores, saved: map<string, string>) {
    forall t :: Tracks(RowsOf(legacy, t), StoreOf(canonical0, t), RunsOf(history, t), StoreOf(canonical, t),
      CursorOf(saved, t))
  }

  /** What a run starts from: the durable stores, the state file's cursors when there is one, and no claims. */
  function Loading(v: Invocation, canonical: Stores, saved: map<string, string>): Image {
    Image(canonical, if v.args.stateFile then saved else map[], saved, [], [], 0, 0, 0)
  }

  /**
   * One run with these shares led from one state to the other, and an execute
   * run's shares are its part of the history.
   */
  ghost predicate TookWith(v: Invocation, legacy: map<string, seq<LegacyRow>>,
                           canonical: Stores, saved: map<string, string>, history: History,
                           canonical': Stores, saved': map<string, string>, history': History,
                           shares: seq<Share>, kept: seq<nat>, y: Image) {
    && RunSoFar(v.args, v.faults, legacy, v.tenants, shares, kept, Loading(v, canonical, saved), y)
    && (|shares| == |v.tenants| || v.args.limit == Some(Charged(shares)))
    && canonical' == y.canonical && saved' == y.saved
    && (if v.args.execute
        then |shares| == |kept| && forall t :: RunsOf(history', t) == Recorded(v, history, shares, kept, t)
        else history' == history)
  }

  /** One run of the script, under its own arguments and faults, led from one state to the other. */
  ghost predicate Took(v: Invocation, legacy: map<string, seq<LegacyRow>>,
                       canonical: Stores, saved: map<string, string>, history: History,
                       canonical': Stores, saved': map<string, string>, history': History) {
    exists shares, kept, y ::
      TookWith(v, legacy, canonical, saved, history, canonical', saved', history', shares, kept, y)
  }

  /** Stores, state file and history are what these runs, one after another, led to. */
  ghost predicate Arose(legacy: map<string, seq<LegacyRow>>, canonical0: Stores, invocations: seq<Invocation>,
                        canonical: Stores, saved: map<string, string>, history: History) {
    if invocations == [] then canonical == canonical0 && saved == map[] && history == map[]
    else
      var n := |invocations| - 1;
      exists c, s, h ::
        && Arose(legacy, canonical0, invocations[..n], c, s, h)
        && Took(invocations[n], legacy, c, s, h, canonical, saved, history)
  }

  lemma AroseMore(legacy: map<string, seq<LegacyRow>>, canonical0: Stores, invocations: seq<Invocation>, v: Invocation,
                  canonical: Stores, saved: map<string, string>, history: History,
                  canonical': Stores, saved': map<string, string>, history': History)
    requires Arose(legacy, canonical0, invocations, canonical, saved, history)
    requires Took(v, legacy, canonical, saved, history, canonical', saved', history')
    ensures Arose(legacy, canonical0, invocations + [v], canonical', saved', history')
  {
    hide Took;
    assert (invocations + [v])[..|invocations|] == invocations;
  }

  /** A run takes every tenant from a run of the store model to one. */
  lemma TookTracks(v: Invocation, legacy: map<string, seq<LegacyRow>>, canonical0: Stores,
                   canonical: Stores, saved: map<string, string>, history: History,
                   canonical': Stores, saved': map<string, string>, history': History)
    requires Standard(v) && AllTrack(legacy, canonical0, history, canonical, saved)
    requires Took(v, legacy, canonical, saved, history, canonical', saved', history')
    ensures AllTrack(legacy, canonical0, history', canonical', saved')
  {
    hide Tracks, RowsOf, StoreOf, CursorOf, Shared, Charged, Uncharged, LostBy, ErrorsBy, Metered, Distinct, Claims,
      FitsFrom, Recorded, RunsOf;
    var shares, kept, y :|
      TookWith(v, legacy, canonical, saved, history, canonical', saved', history', shares, kept, y);
    if v.args.execute {
      forall t ensures
        Tracks(RowsOf(legacy, t), StoreOf(canonical0, t), RunsOf(history', t), StoreOf(canonical', t),
          CursorOf(saved', t))
      {
        TenantTracks(v, legacy, StoreOf(canonical0, t), history, shares, kept, Loading(v, canonical, saved), y, t);
      }
    }
  }

  /**
   * However the runs of a history go, each tenant's store and state file are
   * those of the runs recorded for it, and no orphan the next run would pass
   * over is unexamined by them.
   */
  lemma {:induction false} HistoryIsAccountable(legacy: map<string, seq<LegacyRow>>, canonical0: Stores,
                                                invocations: seq<Invocation>, canonical: Stores,
                                                saved: map<string, string>, history: History)
    requires forall v :: v in invocations ==> Standard(v)
    requires Arose(legacy, canonical0, invocations, canonical, saved, history)
    ensures AllTrack(legacy, canonical0, history, canonical, saved)
    ensures forall t ::
      Accountable(RowsOf(legacy, t), StoreOf(canonical0, t), RunsOf(history, t), StoreOf(canonical, t),
        CursorOf(saved, t))
  {
    hide Accountable, Tracks, RowsOf, StoreOf, CursorOf, Took, RunsOf, Standard;
    if invocations == [] {
      NothingYet(legacy, canonical0);
    } else {
      var n := |invocations| - 1;
      var c, s, h :|
        && Arose(legacy, canonical0, invocations[..n], c, s, h)
        && Took(invocations[n], legacy, c, s, h, canonical, saved, history);
      HistoryIsAccountable(legacy, canonical0, invocations[..n], c, s, h);
      TookTracks(invocations[n], legacy, canonical0, c, s, h, canonical, saved, history);
    }
    forall t ensures
      Accountable(RowsOf(legacy, t), StoreOf(canonical0, t), RunsOf(history, t), StoreOf(canonical, t),
        CursorOf(saved, t))
    {
      TracksSkipNothing(RowsOf(legacy, t), StoreOf(canonical0, t), RunsOf(history, t), StoreOf(canonical, t),
        CursorOf(saved, t));
    }
  }

  /**
   * Any runs of the script, dry or not, with a state file or without, whatever
   * of them raises: stores and state file arise from these runs, whose shares
   * the history records, and each tenant is accountable by its own.
   */
  method RunScripts(legacy: map<string, seq<LegacyRow>>, canonical0: Stores, invocations: seq<Invocation>)
    returns (canonical: Stores, saved: map<string, string>, ghost history: History)
    requires forall v :: v in invocations ==> Standard(v)
    ensures Arose(legacy, canonical0, invocations, canonical, saved, history)
    ensures forall t ::
      Accountable(RowsOf(legacy, t), StoreOf(canonical0, t), RunsOf(history, t), StoreOf(canonical, t),
        CursorOf(saved, t))
  {
    hide *;
    canonical, saved, history := canonical0, map[], map[];
    NoRunsYet(legacy, canonical0, invocations);
    for i := 0 to |invocations|
      invariant Arose(legacy, canonical0, invocations[..i], canonical, saved, history)
    {
      ghost var c, s, h := canonical, saved, history;
      canonical, saved, history := RunOnce(legacy, invocations[i], canonical, saved, history);
      AroseMore(legacy, canonical0, invocations[..i], invocations[i], c, s, h, canonical, saved, history);
      assert invocations[..i + 1] == invocations[..i] + [invocations[i]];
    }
    assert invocations[..|invocations|] == invocations;
    HistoryIsAccountable(legacy, canonical0, invocations, canonical, saved, history);
  }

  lemma NoRunsYet(legacy: map<string, seq<LegacyRow>>, canonical0: Stores, invocations: seq<Invocation>)
    ensures Arose(legacy, canonical0, invocations[..0], canonical0, map[], map[])
  {
  }

  lemma NothingYet(legacy: map<string, seq<LegacyRow>>, canonical0: Stores)
    ensures AllTrack(legacy, canonical0, map[], canonical0, map[])
  {
  }

  method RunOnce(legacy: map<string, seq<LegacyRow>>, v: Invocation,
                 canonical: Stores, saved: map<string, string>, ghost history: History)
    returns (canonical': Stores, saved': map<string, string>, ghost history': History)
    requires Standard(v)
    ensures Took(v, legacy, canonical, saved, history, canonical', saved', history')
  {
    hide RunSoFar, Recorded, RunsOf, Charged, Uncharged, LostBy, ErrorsBy, AllQuiet, Distinct;
    var run := new Backfill(v.args, v.faults, legacy, canonical, saved);
    var exitCode, shares, kept := run.RunTenants(v.tenants);
    ghost var x, y := Loading(v, canonical, saved), run.Seen();
    canonical', saved', history' := run.canonical, run.saved, history;
    if v.args.execute {
      ExecuteShares(v, legacy, shares, kept, x, y);
      history' := Recording(v, history, shares, kept, legacy, x, y);
    }
    assert TookWith(v, legacy, canonical, saved, history, canonical', saved', history', shares, kept, y);
  }

  lemma ExecuteShares(v: Invocation, legacy: map<string, seq<LegacyRow>>, shares: seq<Share>, kept: seq<nat>, x: Image,
                      y: Image)
    requires Standard(v) && v.args.execute && RunSoFar(v.args, v.faults, legacy, v.tenants, shares, kept, x, y)
    ensures Shared(v.args, v.faults, legacy, v.tenants, shares, kept, x, y)
  {
    hide Shared, Metered, Distinct;
  }

  lemma Recording(v: Invocation, history: History, shares: seq<Share>, kept: seq<nat>,
                  legacy: map<string, seq<LegacyRow>>, x: Image, y: Image)
    returns (history': History)
    requires Shared(v.args, v.faults, legacy, v.tenants, shares, kept, x, y)
    ensures |shares| == |kept| <= |v.tenants|
    ensures forall t :: RunsOf(history', t) == Recorded(v, history, shares, kept, t)
  {
    hide FirstIndex, Served, Untouched, Claims;
    var reached := set i | 0 <= i < |shares| :: v.tenants[i];
    history' := map t | t in history.Keys + reached :: Recorded(v, history, shares, kept, t);
    forall t ensures RunsOf(history', t) == Recorded(v, history, shares, kept, t) {
      var k := FirstIndex(v.tenants[..|shares|], (z: string) => z == t);
      assert k < |shares| ==> v.tenants[k] == t;
    }
  }

  // ----- Undisturbed runs, again and again

  /** A tenant's state between runs. */
  function At(canonical: Stores, saved: map<string, string>, tenant: string): Progress {
    Progress(StoreOf(canonical, tenant), CursorOf(saved, tenant), {})
  }

  predicate Agrees(p: Progress, q: Progress) {
    p.store == q.store && p.cursor == q.cursor
  }

  /** The rows are such that settling is known to reach the full pass. */
  ghost predicate Regular(u: Setup, rows: seq<LegacyRow>) {
    CollisionFree(u.x) && PlainIds(rows) && DistinctIds(rows)
  }

  /** What has been passed is refused, and the store is that of a full pass so far. */
  ghost predicate OnCourse(u: Setup, s0: Store, rows: seq<LegacyRow>, p: Progress) {
    RefusedBehind(u, rows, p) && exists q :: AtFrontier(u, s0, Orphans(s0, rows), p, q)
  }

  lemma OnCourseStarts(u: Setup, s0: Store, rows: seq<LegacyRow>)
    ensures OnCourse(u, s0, rows, Progress(s0, None, {}))
  {
    hide Orphans, AtFrontier;
    StartsAtFrontier(u, s0, Orphans(s0, rows));
  }

  lemma OnCourseGoesOn(u: Setup, s0: Store, rows: seq<LegacyRow>, p: Progress, run: Run, q: Progress)
    requires Regular(u, rows) && OnCourse(u, s0, rows, p) && Healthy(run, rows, p) && Agrees(q, Step(u, rows, p, run))
    ensures OnCourse(u, s0, rows, q)
  {
    hide Orphans, Healthy, Step, CollisionFree, PlainIds, RefusedBehind, AtFrontier, DistinctIds;
    var k :| AtFrontier(u, s0, Orphans(s0, rows), p, k);
    StepKeepsRefusals(u, rows, p, run);
    var k' := StepMovesFrontier(u, s0, rows, Orphans(s0, rows), p, k, run);
    OnCourseAgrees(u, s0, rows, Step(u, rows, p, run), q);
  }

  lemma OnCourseAgrees(u: Setup, s0: Store, rows: seq<LegacyRow>, p: Progress, q: Progress)
    requires Agrees(q, p) && OnCourse(u, s0, rows, p)
    ensures OnCourse(u, s0, rows, q)
  {
    hide Orphans, ApplyAll, Decide;
    var k :| AtFrontier(u, s0, Orphans(s0, rows), p, k);
    assert AtFrontier(u, s0, Orphans(s0, rows), q, k);
  }

  lemma OnCourseEnds(u: Setup, s0: Store, rows: seq<LegacyRow>, p: Progress)
    requires Regular(u, rows) && OnCourse(u, s0, rows, p) && Ahead(rows, p) == []
    ensures FullPassReached(u, s0, rows, p)
  {
    hide Orphans, Ahead, ApplyAll, Decide, CollisionFree, PlainIds, RefusedBehind, AtFrontier, DistinctIds;
    var k :| AtFrontier(u, s0, Orphans(s0, rows), p, k);
    NothingAheadIsSettled(u, rows, p);
    SettledFrontierIsFullPass(u, s0, rows, Orphans(s0, rows), p, k);
  }

  /** An undisturbed run leaves a tenant as it is or takes it through a whole run of the store model. */
  ghost predicate Advanced(u: Setup, rows: seq<LegacyRow>, p: Progress, q: Progress) {
    Agrees(q, p) || exists run :: Healthy(run, rows, p) && Agrees(q, Step(u, rows, p, run))
  }

  lemma AgreeingRounds(rows: seq<LegacyRow>, p: Progress, q: Progress)
    requires Agrees(q, p)
    ensures Ahead(rows, q) == Ahead(rows, p) && RoundsAt(rows, q) == RoundsAt(rows, p)
  {
    hide Orphans, Remaining, Rounds;
  }

  lemma AdvancedRounds(u: Setup, rows: seq<LegacyRow>, p: Progress, q: Progress)
    requires DistinctIds(rows) && Advanced(u, rows, p, q)
    ensures RoundsAt(rows, q) <= RoundsAt(rows, p)
    ensures Ahead(rows, p) == [] ==> Ahead(rows, q) == []
    ensures Ahead(rows, p) != [] && !Agrees(q, p) ==> RoundsAt(rows, q) < RoundsAt(rows, p)
  {
    hide RoundsAt, Ahead, Healthy, Step, DistinctIds, Worklist;
    if Agrees(q, p) {
      AgreeingRounds(rows, p, q);
    } else {
      var run :| Healthy(run, rows, p) && Agrees(q, Step(u, rows, p, run));
      AgreeingRounds(rows, Step(u, rows, p, run), q);
      if Ahead(rows, p) == [] {
        HealthyStep(u, rows, p, run);
        assert false;
      } else {
        StepUsesARound(u, rows, p, run);
      }
    }
  }

  lemma QuietShareIsHealthy(a: Args, f: Faults, tenant: string, rows: seq<LegacyRow>, p: Progress, share: Share)
    requires a.batchSize >= 1 && a.resume && share.run.limit != Some(0) && Quiet(f, tenant, rows)
    requires Fits(a, f, tenant, p.store, Worklist(rows, p, share.run), share)
    ensures Healthy(share.run, rows, p)
  {
    hide RowsIn, Orphans, Remaining, Limited, StopsAt, ExaminedAt, LostAt, ErrorsAt;
    WorkIsLegacy(rows, p, share.run);
    QuietCompletes(a, f, tenant, rows, p.store, Worklist(rows, p, share.run), share);
    ShareFacts(a, f, tenant, p.store, Worklist(rows, p, share.run), share);
  }

  lemma QuietShareSavesAll(a: Args, f: Faults, tenant: string, rows: seq<LegacyRow>, p: Progress, share: Share)
    requires a.batchSize >= 1 && Quiet(f, tenant, rows)
    requires Fits(a, f, tenant, p.store, Worklist(rows, p, share.run), share)
    ensures !share.raised && share.counted == share.run.saved && share.run.resume == a.resume
  {
    hide RowsIn, Orphans, Remaining, Limited, StopsAt, ExaminedAt, LostAt, ErrorsAt;
    WorkIsLegacy(rows, p, share.run);
    QuietCompletes(a, f, tenant, rows, p.store, Worklist(rows, p, share.run), share);
  }

  lemma NothingAllowed(u: Setup, rows: seq<LegacyRow>, p: Progress, run: Run)
    requires run.limit == Some(0)
    ensures Worklist(rows, p, run) == [] && Agrees(Step(u, rows, p, run), p)
  {
    hide Orphans, Remaining;
  }

  /** The setting of an undisturbed run over these tenants, and what it led to. */
  ghost predicate QuietlyRan(a: Args, f: Faults, legacy: map<string, seq<LegacyRow>>, tenants: seq<string>,
                             shares: seq<Share>, kept: seq<nat>, x: Image, y: Image) {
    && a.execute && a.stateFile && a.resume && a.batchSize >= 1 && a.limit != Some(0) && x.saved == x.cursors
    && Distinct(tenants) && AllQuiet(f, legacy, tenants)
    && RunSoFar(a, f, legacy, tenants, shares, kept, x, y)
    && (|shares| == |tenants| || a.limit == Some(Charged(shares)))
  }

  /** What such a run did for its tenant number `k`, if it reached it. */
  lemma QuietlyServed(a: Args, f: Faults, legacy: map<string, seq<LegacyRow>>, tenants: seq<string>,
                      shares: seq<Share>, kept: seq<nat>, x: Image, y: Image, k: nat)
    requires QuietlyRan(a, f, legacy, tenants, shares, kept, x, y) && k < |shares|
    ensures |shares| == |kept| <= |tenants|
    ensures Quiet(f, tenants[k], RowsOf(legacy, tenants[k]))
    ensures Served(a, f, RowsOf(legacy, tenants[k]), tenants[k], shares[k], kept[k], x, y)
    ensures shares[k].run.limit == Left(a.limit, Charged(shares[..k]))
    ensures At(x.canonical, x.saved, tenants[k]) == StartAt(x, tenants[k])
  {
    hide Served, Quiet, Untouched, Claims, Charged;
    assert tenants[k] in tenants;
  }

  lemma QuietTenantAdvances(a: Args, f: Faults, legacy: map<string, seq<LegacyRow>>, tenants: seq<string>,
                            shares: seq<Share>, kept: seq<nat>, x: Image, y: Image, k: nat)
    requires QuietlyRan(a, f, legacy, tenants, shares, kept, x, y) && k < |tenants|
    ensures Advanced(a.setup, RowsOf(legacy, tenants[k]), At(x.canonical, x.saved, tenants[k]),
                     At(y.canonical, y.saved, tenants[k]))
    ensures k < |shares| && shares[k].run.limit != Some(0) ==>
      exists run ::
        && Healthy(run, RowsOf(legacy, tenants[k]), At(x.canonical, x.saved, tenants[k]))
        && Agrees(At(y.canonical, y.saved, tenants[k]),
                  Step(a.setup, RowsOf(legacy, tenants[k]), At(x.canonical, x.saved, tenants[k]), run))
  {
    hide QuietlyRan, Quiet, Fits, Healthy, Step, Worklist, RowsOf, StoreOf, CursorOf, Left, Charged;
    if k < |shares| {
      QuietlyServed(a, f, legacy, tenants, shares, kept, x, y, k);
      QuietShareAdvances(a, f, RowsOf(legacy, tenants[k]), tenants[k], shares[k], kept[k], x, y) by {
        QuietSetting(a, f, legacy, tenants, shares, kept, x, y);
      }
    } else {
      QuietlyUntouched(a, f, legacy, tenants, shares, kept, x, y, k);
    }
  }

  lemma QuietSetting(a: Args, f: Faults, legacy: map<string, seq<LegacyRow>>, tenants: seq<string>,
                     shares: seq<Share>, kept: seq<nat>, x: Image, y: Image)
    requires QuietlyRan(a, f, legacy, tenants, shares, kept, x, y)
    ensures a.execute && a.stateFile && a.resume && a.batchSize >= 1 && x.saved == x.cursors
  {
  }

  lemma QuietShareAdvances(a: Args, f: Faults, rows: seq<LegacyRow>, tenant: string, share: Share, kept: nat,
                           x: Image, y: Image)
    requires a.stateFile && a.resume && a.batchSize >= 1 && x.saved == x.cursors
    requires Quiet(f, tenant, rows) && Served(a, f, rows, tenant, share, kept, x, y)
    ensures var p, q := At(x.canonical, x.saved, tenant), At(y.canonical, y.saved, tenant);
      && Agrees(q, Step(a.setup, rows, p, share.run))
      && (if share.run.limit == Some(0) then Agrees(q, p) else Healthy(share.run, rows, p))
  {
    hide Quiet, Fits, Healthy, Step, Worklist, StoreOf, CursorOf;
    var p := StartAt(x, tenant);
    QuietShareSavesAll(a, f, tenant, rows, p, share);
    assert share.run.(saved := share.run.saved) == share.run;
    if share.run.limit == Some(0) {
      NothingAllowed(a.setup, rows, p, share.run);
    } else {
      QuietShareIsHealthy(a, f, tenant, rows, p, share);
    }
  }

  lemma QuietlyUntouched(a: Args, f: Faults, legacy: map<string, seq<LegacyRow>>, tenants: seq<string>,
                         shares: seq<Share>, kept: seq<nat>, x: Image, y: Image, k: nat)
    requires QuietlyRan(a, f, legacy, tenants, shares, kept, x, y) && |shares| <= k < |tenants|
    ensures Agrees(At(y.canonical, y.saved, tenants[k]), At(x.canonical, x.saved, tenants[k]))
  {
    hide Served, Quiet, Claims, Charged, Metered;
    assert tenants[k] !in tenants[..|shares|];
    assert Untouched(a, tenants[k], x, y);
  }

  /** Tenants with nothing ahead of their cursors use up nothing of the limit. */
  lemma {:induction false} NothingChargedBefore(a: Args, f: Faults, legacy: map<string, seq<LegacyRow>>,
                                                tenants: seq<string>, shares: seq<Share>, kept: seq<nat>,
                                                x: Image, y: Image, k: nat)
    requires QuietlyRan(a, f, legacy, tenants, shares, kept, x, y) && k <= |shares| && |shares| <= |tenants|
    requires forall j :: 0 <= j < k ==> Ahead(RowsOf(legacy, tenants[j]), At(x.canonical, x.saved, tenants[j])) == []
    ensures Charged(shares[..k]) == 0
  {
    hide QuietlyRan, Quiet, Fits, Worklist, RowsOf, StoreOf, CursorOf, Left, Ahead, Step;
    if k > 0 {
      NothingChargedBefore(a, f, legacy, tenants, shares, kept, x, y, k - 1);
      QuietlyServed(a, f, legacy, tenants, shares, kept, x, y, k - 1);
      QuietSetting(a, f, legacy, tenants, shares, kept, x, y);
      var rows, p, share := RowsOf(legacy, tenants[k - 1]), StartAt(x, tenants[k - 1]), shares[k - 1];
      ShareFacts(a, f, tenants[k - 1], p.store, Worklist(rows, p, share.run), share);
      WorkIsAhead(rows, p, share.run);
      QuietShareSavesAll(a, f, tenants[k - 1], rows, p, share);
      assert shares[..k][..k - 1] == shares[..k - 1];
    }
  }

  lemma WorkIsAhead(rows: seq<LegacyRow>, p: Progress, run: Run)
    ensures run.resume ==> |Worklist(rows, p, run)| <= |Ahead(rows, p)|
  {
    hide Orphans, FirstIndex;
  }

  /** The first tenant with something ahead of its cursor gets the whole limit, and uses a round. */
  lemma FirstAheadProgresses(a: Args, f: Faults, legacy: map<string, seq<LegacyRow>>, tenants: seq<string>,
                             shares: seq<Share>, kept: seq<nat>, x: Image, y: Image, k: nat)
    requires QuietlyRan(a, f, legacy, tenants, shares, kept, x, y) && k < |tenants|
    requires DistinctIds(RowsOf(legacy, tenants[k]))
    requires forall j :: 0 <= j < k ==> Ahead(RowsOf(legacy, tenants[j]), At(x.canonical, x.saved, tenants[j])) == []
    requires Ahead(RowsOf(legacy, tenants[k]), At(x.canonical, x.saved, tenants[k])) != []
    ensures RoundsAt(RowsOf(legacy, tenants[k]), At(y.canonical, y.saved, tenants[k]))
      < RoundsAt(RowsOf(legacy, tenants[k]), At(x.canonical, x.saved, tenants[k]))
  {
    hide QuietlyRan, RowsOf, StoreOf, CursorOf, Ahead, Step, Healthy, RoundsAt, DistinctIds, Charged;
    QuietlyReaches(a, f, legacy, tenants, shares, kept, x, y);
    var reached := if k < |shares| then k else |shares|;
    NothingChargedBefore(a, f, legacy, tenants, shares, kept, x, y, reached);
    assert shares[..|shares|] == shares;
    QuietlyServed(a, f, legacy, tenants, shares, kept, x, y, k);
    QuietTenantAdvances(a, f, legacy, tenants, shares, kept, x, y, k);
    var rows, p, q := RowsOf(legacy, tenants[k]), At(x.canonical, x.saved, tenants[k]),
      At(y.canonical, y.saved, tenants[k]);
    var run :| Healthy(run, rows, p) && Agrees(q, Step(a.setup, rows, p, run));
    StepUsesARound(a.setup, rows, p, run);
    AgreeingRounds(rows, Step(a.setup, rows, p, run), q);
  }

  lemma QuietlyReaches(a: Args, f: Faults, legacy: map<string, seq<LegacyRow>>, tenants: seq<string>,
                       shares: seq<Share>, kept: seq<nat>, x: Image, y: Image)
    requires QuietlyRan(a, f, legacy, tenants, shares, kept, x, y)
    ensures |shares| <= |tenants| && (|shares| == |tenants| || a.limit == Some(Charged(shares))) && a.limit != Some(0)
  {
  }

  // ----- Several tenants under one limit

  /** Rounds the tenants may still need between them. */
  function RoundsOver(legacy: map<string, seq<LegacyRow>>, tenants: seq<string>,
                      canonical: Stores, saved: map<string, string>): nat {
    if tenants == [] then 0
    else
      var t := tenants[|tenants| - 1];
      RoundsOver(legacy, tenants[..|tenants| - 1], canonical, saved)
      + RoundsAt(RowsOf(legacy, t), At(canonical, saved, t))
  }

  /** Runs that are enough: for each tenant, `n * (n + 1) / 2` of them for its `n` orphans. */
  function Enough(legacy: map<string, seq<LegacyRow>>, tenants: seq<string>, canonical: Stores): nat {
    if tenants == [] then 0
    else
      var t := tenants[|tenants| - 1];
      Enough(legacy, tenants[..|tenants| - 1], canonical)
      + Triangle(|Orphans(StoreOf(canonical, t), RowsOf(legacy, t))|)
  }

  lemma {:induction false} EnoughToStart(legacy: map<string, seq<LegacyRow>>, tenants: seq<string>, canonical: Stores)
    ensures RoundsOver(legacy, tenants, canonical, map[]) <= Enough(legacy, tenants, canonical)
  {
    hide RoundsAt, Triangle, Orphans;
    if tenants != [] {
      var t := tenants[|tenants| - 1];
      EnoughToStart(legacy, tenants[..|tenants| - 1], canonical);
      StartingRounds(RowsOf(legacy, t), At(canonical, map[], t));
    }
  }

  /** Some tenant still has something ahead of its cursor. */
  ghost predicate Unfinished(legacy: map<string, seq<LegacyRow>>, tenants: seq<string>,
                             canonical: Stores, saved: map<string, string>) {
    exists k :: 0 <= k < |tenants| && Ahead(RowsOf(legacy, tenants[k]), At(canonical, saved, tenants[k])) != []
  }

  lemma FirstAhead(legacy: map<string, seq<LegacyRow>>, tenants: seq<string>, canonical: Stores, saved: map<string,
                   string>)
    returns (k: nat)
    requires Unfinished(legacy, tenants, canonical, saved)
    ensures k < |tenants| && Ahead(RowsOf(legacy, tenants[k]), At(canonical, saved, tenants[k])) != []
    ensures forall j :: 0 <= j < k ==> Ahead(RowsOf(legacy, tenants[j]), At(canonical, saved, tenants[j])) == []
  {
    hide Ahead, RowsOf;
    k := 0;
    while Ahead(RowsOf(legacy, tenants[k]), At(canonical, saved, tenants[k])) == []
      invariant k < |tenants|
      invariant forall j :: 0 <= j < k ==> Ahead(RowsOf(legacy, tenants[j]), At(canonical, saved, tenants[j])) == []
      invariant exists i ::
        k <= i < |tenants| && Ahead(RowsOf(legacy, tenants[i]), At(canonical, saved, tenants[i])) != []
      decreases |tenants| - k
    {
      k := k + 1;
    }
  }

  /** Rounds that go up for no tenant and down for one go down in all. */
  lemma {:induction false} RoundsAddUp(legacy: map<string, seq<LegacyRow>>, tenants: seq<string>,
                                       c: Stores, s: map<string, string>, c': Stores, s': map<string, string>, k: int)
    requires forall j :: 0 <= j < |tenants| ==>
      RoundsAt(RowsOf(legacy, tenants[j]), At(c', s', tenants[j])) <= RoundsAt(RowsOf(legacy, tenants[j]),
        At(c, s, tenants[j]))
    requires 0 <= k < |tenants| ==>
      RoundsAt(RowsOf(legacy, tenants[k]), At(c', s', tenants[k])) < RoundsAt(RowsOf(legacy, tenants[k]),
        At(c, s, tenants[k]))
    ensures RoundsOver(legacy, tenants, c', s') <= RoundsOver(legacy, tenants, c, s)
    ensures 0 <= k < |tenants| ==> RoundsOver(legacy, tenants, c', s') < RoundsOver(legacy, tenants, c, s)
  {
    hide RoundsAt, At, RowsOf;
    if tenants != [] {
      RoundsAddUp(legacy, tenants[..|tenants| - 1], c, s, c', s', k);
    }
  }

  /** An undisturbed run uses a round while some tenant is unfinished, and finishes nobody twice. */
  lemma QuietRunUsesARound(a: Args, f: Faults, legacy: map<string, seq<LegacyRow>>, tenants: seq<string>,
                           shares: seq<Share>, kept: seq<nat>, x: Image, y: Image)
    requires QuietlyRan(a, f, legacy, tenants, shares, kept, x, y)
    requires forall t :: t in tenants ==> DistinctIds(RowsOf(legacy, t))
    ensures Unfinished(legacy, tenants, x.canonical, x.saved) ==>
      RoundsOver(legacy, tenants, y.canonical, y.saved) < RoundsOver(legacy, tenants, x.canonical, x.saved)
    ensures Unfinished(legacy, tenants, y.canonical, y.saved) ==> Unfinished(legacy, tenants, x.canonical, x.saved)
  {
    hide QuietlyRan, RowsOf, At, Ahead, RoundsAt, DistinctIds, Advanced;
    forall j | 0 <= j < |tenants|
      ensures var rows := RowsOf(legacy, tenants[j]);
        var p, q := At(x.canonical, x.saved, tenants[j]), At(y.canonical, y.saved, tenants[j]);
        RoundsAt(rows, q) <= RoundsAt(rows, p) && (Ahead(rows, p) == [] ==> Ahead(rows, q) == [])
    {
      QuietTenantAdvances(a, f, legacy, tenants, shares, kept, x, y, j);
      AdvancedRounds(a.setup, RowsOf(legacy, tenants[j]), At(x.canonical, x.saved, tenants[j]),
                     At(y.canonical, y.saved, tenants[j]));
    }
    if Unfinished(legacy, tenants, x.canonical, x.saved) {
      var k := FirstAhead(legacy, tenants, x.canonical, x.saved);
      FirstAheadProgresses(a, f, legacy, tenants, shares, kept, x, y, k);
      RoundsAddUp(legacy, tenants, x.canonical, x.saved, y.canonical, y.saved, k);
    }
  }

  ghost predicate AllOnCourse(u: Setup, legacy: map<string, seq<LegacyRow>>, tenants: seq<string>, canonical0: Stores,
                              canonical: Stores, saved: map<string, string>) {
    forall k :: 0 <= k < |tenants| ==>
      OnCourse(u, StoreOf(canonical0, tenants[k]), RowsOf(legacy, tenants[k]), At(canonical, saved, tenants[k]))
  }

  lemma AllStart(u: Setup, legacy: map<string, seq<LegacyRow>>, tenants: seq<string>, canonical0: Stores)
    ensures AllOnCourse(u, legacy, tenants, canonical0, canonical0, map[])
  {
    hide OnCourse;
    forall k | 0 <= k < |tenants|
      ensures OnCourse(u, StoreOf(canonical0, tenants[k]), RowsOf(legacy, tenants[k]),
        At(canonical0, map[], tenants[k]))
    {
      OnCourseStarts(u, StoreOf(canonical0, tenants[k]), RowsOf(legacy, tenants[k]));
    }
  }

  ghost predicate AllRegular(u: Setup, legacy: map<string, seq<LegacyRow>>, tenants: seq<string>) {
    forall t :: t in tenants ==> Regular(u, RowsOf(legacy, t))
  }

  lemma QuietRunKeepsCourse(a: Args, f: Faults, legacy: map<string, seq<LegacyRow>>, tenants: seq<string>,
                            canonical0: Stores, shares: seq<Share>, kept: seq<nat>, x: Image, y: Image)
    requires QuietlyRan(a, f, legacy, tenants, shares, kept, x, y) && AllRegular(a.setup, legacy, tenants)
    requires AllOnCourse(a.setup, legacy, tenants, canonical0, x.canonical, x.saved)
    ensures AllOnCourse(a.setup, legacy, tenants, canonical0, y.canonical, y.saved)
  {
    hide QuietlyRan, RowsOf, At, OnCourse, Regular, Healthy, Step, StoreOf;
    forall k | 0 <= k < |tenants|
      ensures OnCourse(a.setup, StoreOf(canonical0, tenants[k]), RowsOf(legacy, tenants[k]),
                       At(y.canonical, y.saved, tenants[k]))
    {
      var s0, rows := StoreOf(canonical0, tenants[k]), RowsOf(legacy, tenants[k]);
      var p, q := At(x.canonical, x.saved, tenants[k]), At(y.canonical, y.saved, tenants[k]);
      QuietTenantAdvances(a, f, legacy, tenants, shares, kept, x, y, k);
      if Agrees(q, p) {
        OnCourseAgrees(a.setup, s0, rows, p, q);
      } else {
        var run :| Healthy(run, rows, p) && Agrees(q, Step(a.setup, rows, p, run));
        OnCourseGoesOn(a.setup, s0, rows, p, run, q);
      }
    }
  }

  /** Where a number of undisturbed runs has led. */
  ghost predicate Underway(a: Args, legacy: map<string, seq<LegacyRow>>, tenants: seq<string>, canonical0: Stores,
                           runs: nat,
                           canonical: Stores, saved: map<string, string>) {
    && AllOnCourse(a.setup, legacy, tenants, canonical0, canonical, saved)
    && (Unfinished(legacy, tenants, canonical, saved) ==>
          RoundsOver(legacy, tenants, canonical, saved) + runs <= Enough(legacy, tenants, canonical0))
  }

  lemma UnderwayStarts(a: Args, legacy: map<string, seq<LegacyRow>>, tenants: seq<string>, canonical0: Stores)
    ensures Underway(a, legacy, tenants, canonical0, 0, canonical0, map[])
  {
    hide AllOnCourse, Unfinished, RoundsOver, Enough;
    AllStart(a.setup, legacy, tenants, canonical0);
    EnoughToStart(legacy, tenants, canonical0);
  }

  lemma UnderwayGoesOn(a: Args, f: Faults, legacy: map<string, seq<LegacyRow>>, tenants: seq<string>,
                       canonical0: Stores, runs: nat, shares: seq<Share>, kept: seq<nat>, x: Image, y: Image)
    requires QuietlyRan(a, f, legacy, tenants, shares, kept, x, y) && AllRegular(a.setup, legacy, tenants)
    requires Underway(a, legacy, tenants, canonical0, runs, x.canonical, x.saved)
    ensures Underway(a, legacy, tenants, canonical0, runs + 1, y.canonical, y.saved)
  {
    hide QuietlyRan, AllOnCourse, Unfinished, RoundsOver, Enough, CollisionFree, PlainIds, DistinctIds;
    QuietRunUsesARound(a, f, legacy, tenants, shares, kept, x, y);
    QuietRunKeepsCourse(a, f, legacy, tenants, canonical0, shares, kept, x, y);
  }

  lemma {:induction false} UnfinishedNeedsARound(legacy: map<string, seq<LegacyRow>>, tenants: seq<string>,
                                                 canonical: Stores, saved: map<string, string>, k: nat)
    requires k < |tenants| && Ahead(RowsOf(legacy, tenants[k]), At(canonical, saved, tenants[k])) != []
    ensures RoundsOver(legacy, tenants, canonical, saved) > 0
  {
    hide Ahead, RowsOf, At, RoundsAt;
    if k == |tenants| - 1 {
      AheadNeedsARound(RowsOf(legacy, tenants[k]), At(canonical, saved, tenants[k]));
    } else {
      UnfinishedNeedsARound(legacy, tenants[..|tenants| - 1], canonical, saved, k);
    }
  }

  lemma AheadNeedsARound(rows: seq<LegacyRow>, p: Progress)
    requires Ahead(rows, p) != []
    ensures RoundsAt(rows, p) > 0
  {
    hide Orphans, FirstIndex, Triangle;
  }

  lemma EnoughRuns(a: Args, legacy: map<string, seq<LegacyRow>>, tenants: seq<string>, canonical0: Stores, runs: nat,
                   canonical: Stores, saved: map<string, string>, k: nat)
    requires AllRegular(a.setup, legacy, tenants) && k < |tenants| && runs >= Enough(legacy, tenants, canonical0)
    requires Underway(a, legacy, tenants, canonical0, runs, canonical, saved)
    ensures FullPassReached(a.setup, StoreOf(canonical0, tenants[k]), RowsOf(legacy, tenants[k]),
                            At(canonical, saved, tenants[k]))
  {
    hide RowsOf, At, OnCourse, Regular, StoreOf, Ahead, RoundsOver, Enough, FullPassReached;
    if Ahead(RowsOf(legacy, tenants[k]), At(canonical, saved, tenants[k])) != [] {
      UnfinishedNeedsARound(legacy, tenants, canonical, saved, k);
      assert false;
    }
    OnCourseEnds(a.setup, StoreOf(canonical0, tenants[k]), RowsOf(legacy, tenants[k]),
      At(canonical, saved, tenants[k]));
  }

  /**
   * The script run `n` times over the same tenants with a state file, a limit
   * of at least one that they share, and nothing raising. Once `n` reaches the
   * sum of `m * (m + 1) / 2` over the tenants, each with its `m` orphans to
   * begin with, every remaining orphan of every tenant is refused and each
   * store is the one a single unbounded pass would have left.
   */
  method RepeatRuns(a: Args, faults: nat -> Faults, legacy: map<string, seq<LegacyRow>>, tenants: seq<string>,
                    canonical0: Stores, n: nat)
    returns (canonical: Stores, saved: map<string, string>)
    requires a.execute && a.stateFile && a.resume && a.batchSize >= 1 && a.limit != Some(0) && Distinct(tenants)
    requires forall i: nat :: AllQuiet(faults(i), legacy, tenants)
    ensures AllRegular(a.setup, legacy, tenants) && n >= Enough(legacy, tenants, canonical0) ==>
      forall k :: 0 <= k < |tenants| ==>
        FullPassReached(a.setup, StoreOf(canonical0, tenants[k]), RowsOf(legacy, tenants[k]),
                        At(canonical, saved, tenants[k]))
  {
    hide AllQuiet, RunSoFar, Charged, Uncharged, LostBy, ErrorsBy, AllRegular, Underway, Enough, FullPassReached,
      Distinct,
      StoreOf, RowsOf, At;
    canonical, saved := canonical0, map[];
    UnderwayStarts(a, legacy, tenants, canonical0);
    for i := 0 to n
      invariant AllRegular(a.setup, legacy, tenants) ==> Underway(a, legacy, tenants, canonical0, i, canonical, saved)
    {
      var run := new Backfill(a, faults(i), legacy, canonical, saved);
      ghost var x := run.Seen();
      var exitCode, shares, kept := run.RunTenants(tenants);
      assert QuietlyRan(a, faults(i), legacy, tenants, shares, kept, x, run.Seen());
      if AllRegular(a.setup, legacy, tenants) {
        UnderwayGoesOn(a, faults(i), legacy, tenants, canonical0, i, shares, kept, x, run.Seen());
      }
      canonical, saved := run.canonical, run.saved;
    }
    if AllRegular(a.setup, legacy, tenants) && n >= Enough(legacy, tenants, canonical0) {
      forall k | 0 <= k < |tenants|
        ensures FullPassReached(a.setup, StoreOf(canonical0, tenants[k]), RowsOf(legacy, tenants[k]),
                                At(canonical, saved, tenants[k]))
      {
        EnoughRuns(a, legacy, tenants, canonical0, n, canonical, saved, k);
      }
    }
  }
}
