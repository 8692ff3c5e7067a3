/**
 * What the backfill's steps amount to, on values: rows handled in an open
 * transaction, batches that commit or are lost, a tenant's walk up to its first
 * failing step, and the shares of the tenants in a run.
 */
module BackfillSteps {
  import opened Common
  import opened Canonical
  import opened Reconstruction
  import opened BackfillRules
  import opened BackfillResume

  datatype Key = Key(tenant: string, id: string)

  datatype Record =
    | Backfilled(key: Key)
    | WouldBackfillRow(key: Key)
    | Skipped(key: Key, reason: Reason)
    | RolledBack(keys: seq<Key>)

  datatype Pending = Pending(key: Key, shape: Shape)

  datatype Args = Args(
    setup: Setup, execute: bool, batchSize: nat, limit: Option<nat>,
    resume: bool, stateFile: bool, reporting: bool)

  /** An outer commit that raises may have landed all the same. */
  datatype CommitFate = Lands | Fails | LandsThenRaises

  /** Which steps of the run raise. Session 0 of a tenant lists its orphans, session `k + 1` is that of batch `k`. */
  datatype Faults = Faults(
    opens: string -> bool,
    fetches: (string, nat) -> bool,
    queries: string -> bool,
    inserts: set<string>,
    commits: (string, nat) -> CommitFate,
    closes: (string, nat) -> bool,
    saves: (string, nat) -> bool)

  type Stores = map<string, Store>

  function StoreOf(all: Stores, tenant: string): Store {
    if tenant in all then all[tenant] else map[]
  }

  predicate Durable(all: Stores, key: Key) {
    key.id in StoreOf(all, key.tenant)
  }

  /** Nothing that `a` holds is missing or different in `b`. */
  ghost predicate Kept(a: Stores, b: Stores) {
    forall t, k :: k in StoreOf(a, t) ==> k in StoreOf(b, t) && StoreOf(b, t)[k] == StoreOf(a, t)[k]
  }

  /** What an observer sees at one instant. */
  datatype Snapshot = Snapshot(canonical: Stores, counted: seq<Key>, report: seq<Record>)

  /** Every row counted or reported as backfilled is in the durable store. */
  ghost predicate Honest(s: Snapshot) {
    && (forall key :: key in s.counted ==> Durable(s.canonical, key))
    && (forall key :: Backfilled(key) in s.report ==> Durable(s.canonical, key))
  }

  /** Every past state was honest, and nothing that was ever durable has gone. */
  ghost predicate Past(trace: seq<Snapshot>, canonical: Stores) {
    forall s :: s in trace ==> Honest(s) && Kept(s.canonical, canonical)
  }

  lemma PastExtends(trace: seq<Snapshot>, s: Snapshot)
    requires Past(trace, s.canonical) && Honest(s)
    ensures Past(trace + [s], s.canonical)
  {
  }

  lemma PastSurvivesCommit(s: Snapshot, trace: seq<Snapshot>, canonical: Stores)
    requires Past(trace, s.canonical) && Honest(s) && Kept(s.canonical, canonical)
    ensures Past(trace, canonical) && Honest(s.(canonical := canonical))
  {
    assert forall key :: Durable(s.canonical, key) ==> Durable(canonical, key);
  }

  lemma HonestCount(s: Snapshot, key: Key)
    requires Honest(s) && Durable(s.canonical, key)
    ensures Honest(s.(counted := s.counted + [key]))
  {
  }

  lemma HonestEmit(s: Snapshot, r: Record)
    requires Honest(s) && (r.Backfilled? ==> Durable(s.canonical, r.key))
    ensures Honest(s.(report := s.report + [r]))
  {
  }

  /** The run's counters. */
  datatype Summary = Summary(
    legacyTotal: nat, alreadyPresent: nat, orphansFound: nat, examined: nat,
    backfilled: nat, skipped: nat, errors: nat,
    byReason: multiset<Reason>, byShape: multiset<Shape>)
  {
    function Examine(): Summary {
      this.(examined := examined + 1)
    }

    function Skip(reason: Reason): Summary {
      this.(skipped := skipped + 1, byReason := byReason + multiset{reason})
    }

    function Backfill(shape: Shape): Summary {
      this.(backfilled := backfilled + 1, byShape := byShape + multiset{shape})
    }

    function Open(total: nat, orphans: nat): Summary
      requires orphans <= total
    {
      this.(legacyTotal := legacyTotal + total,
            alreadyPresent := alreadyPresent + (total - orphans),
            orphansFound := orphansFound + orphans)
    }
  }

  /** The counters account for every examined row: counted, refused, lost with its batch, buffered or in hand. */
  ghost predicate Balanced(s: Summary, counted: nat, lost: nat, buffered: nat, inHand: nat) {
    && s.examined == s.backfilled + s.skipped + lost + buffered + inHand
    && |s.byReason| == s.skipped
    && |s.byShape| == s.backfilled
    && s.alreadyPresent + s.orphansFound == s.legacyTotal
    && s.backfilled == counted
  }

  lemma BalancedSteps(s: Summary, counted: nat, lost: nat, buffered: nat, inHand: nat, reason: Reason, shape: Shape)
    requires Balanced(s, counted, lost, buffered, inHand)
    ensures Balanced(s.Examine(), counted, lost, buffered, inHand + 1)
    ensures inHand > 0 ==>
      && Balanced(s.Skip(reason), counted, lost, buffered, inHand - 1)
      && Balanced(s.Backfill(shape), counted + 1, lost, buffered, inHand - 1)
      && Balanced(s, counted, lost + inHand, buffered, 0)
      && Balanced(s, counted, lost, buffered + 1, inHand - 1)
    ensures buffered > 0 ==> Balanced(s.Backfill(shape), counted + 1, lost, buffered - 1, inHand)
    ensures Balanced(s, counted, lost + buffered, 0, inHand)
  {
  }

  function Keys(tenant: string, rows: seq<LegacyRow>): (keys: seq<Key>)
    ensures |keys| == |rows|
    ensures forall i :: 0 <= i < |rows| ==> keys[i] == Key(tenant, rows[i].id)
  {
    seq(|rows|, i requires 0 <= i < |rows| => Key(tenant, rows[i].id))
  }

  function PendingKeys(pending: seq<Pending>): (keys: seq<Key>)
    ensures |keys| == |pending|
    ensures forall i :: 0 <= i < |pending| ==> keys[i] == pending[i].key
  {
    seq(|pending|, i requires 0 <= i < |pending| => pending[i].key)
  }

  /** The keys of the rows an execute pass inserts, and of those a dry pass names. */
  function InsertedKeys(tenant: string, u: Setup, s: Store, rows: seq<LegacyRow>, fails: set<string>): seq<Key> {
    Keys(tenant, Inserted(u, s, rows, fails))
  }

  function WouldKeys(tenant: string, u: Setup, s: Store, rows: seq<LegacyRow>): seq<Key> {
    Keys(tenant, WouldBackfill(u, s, rows))
  }

  /** How many rows of a pass may be written and have their insert raise. */
  function FailedInserts(u: Setup, s: Store, rows: seq<LegacyRow>, fails: set<string>): nat {
    if rows == [] then 0
    else
      var n := |rows| - 1;
      FailedInserts(u, s, rows[..n], fails)
      + if Decide(u, ApplyAll(u, s, rows[..n], fails), rows[n]).Write? && rows[n].id in fails then 1 else 0
  }

  lemma {:induction false} FailedInsertsAppend(u: Setup, s: Store, a: seq<LegacyRow>, b: seq<LegacyRow>,
                                               fails: set<string>)
    ensures FailedInserts(u, s, a + b, fails)
      == FailedInserts(u, s, a, fails) + FailedInserts(u, ApplyAll(u, s, a, fails), b, fails)
  {
    hide Decide, Apply;
    if b == [] {
      assert a + b == a;
    } else {
      var n := |b| - 1;
      assert (a + b)[..|a + b| - 1] == a + b[..n];
      FailedInsertsAppend(u, s, a, b[..n], fails);
      ApplyAllAppend(u, s, a, b[..n], fails);
    }
  }

  /** The keys a report claims as backfilled. */
  ghost function Reported(report: seq<Record>): set<Key> {
    set r | r in report && r.Backfilled? :: r.key
  }

  lemma ReportedAppend(report: seq<Record>, r: Record)
    ensures Reported(report + [r]) == if r.Backfilled? then Reported(report) + {r.key} else Reported(report)
  {
    var more := report + [r];
    assert forall x :: x in more <==> x in report || x == r;
    forall key ensures key in Reported(more) <==> key in Reported(report) || (r.Backfilled? && key == r.key) {
      assert key in Reported(more) <==> Backfilled(key) in more;
      assert key in Reported(report) <==> Backfilled(key) in report;
    }
  }

  /** One more row of a pass. */
  lemma OneMoreRow(u: Setup, s: Store, rows: seq<LegacyRow>, i: nat, fails: set<string>, tenant: string)
    requires i < |rows|
    ensures ApplyAll(u, s, rows[..i + 1], fails) == Apply(u, ApplyAll(u, s, rows[..i], fails), rows[i], fails)
    ensures InsertedKeys(tenant, u, s, rows[..i + 1], fails)
      == InsertedKeys(tenant, u, s, rows[..i], fails)
       + (if Decide(u, ApplyAll(u, s, rows[..i], fails), rows[i]).Write? && rows[i].id !in fails
          then [Key(tenant, rows[i].id)] else [])
    ensures WouldKeys(tenant, u, s, rows[..i + 1])
      == WouldKeys(tenant, u, s, rows[..i])
       + (if Decide(u, s, rows[i]).Write? then [Key(tenant, rows[i].id)] else [])
    ensures FailedInserts(u, s, rows[..i + 1], fails)
      == FailedInserts(u, s, rows[..i], fails)
       + (if Decide(u, ApplyAll(u, s, rows[..i], fails), rows[i]).Write? && rows[i].id in fails then 1 else 0)
  {
    hide Decide, Apply;
    var more := rows[..i + 1];
    assert more[..i] == rows[..i] && more[i] == rows[i];
    KeysAppend(tenant, Inserted(u, s, rows[..i], fails), [rows[i]]);
    KeysAppend(tenant, WouldBackfill(u, s, rows[..i]), [rows[i]]);
    assert Keys(tenant, [rows[i]]) == [Key(tenant, rows[i].id)];
  }

  /** Passes over consecutive chunks add up. */
  lemma {:induction false} InsertedAppend(u: Setup, s: Store, a: seq<LegacyRow>, b: seq<LegacyRow>, fails: set<string>)
    ensures Inserted(u, s, a + b, fails) == Inserted(u, s, a, fails) + Inserted(u, ApplyAll(u, s, a, fails), b, fails)
  {
    hide Decide, Apply;
    if b == [] {
      assert a + b == a;
    } else {
      var n := |b| - 1;
      assert (a + b)[..|a + b| - 1] == a + b[..n];
      InsertedAppend(u, s, a, b[..n], fails);
      ApplyAllAppend(u, s, a, b[..n], fails);
    }
  }

  lemma KeysAppend(tenant: string, a: seq<LegacyRow>, b: seq<LegacyRow>)
    ensures Keys(tenant, a + b) == Keys(tenant, a) + Keys(tenant, b)
  {
  }

  lemma ChunksAddUp(u: Setup, s: Store, work: seq<LegacyRow>, i: nat, j: nat, fails: set<string>, tenant: string)
    requires i <= j <= |work|
    ensures ApplyAll(u, s, work[..j], fails) == ApplyAll(u, ApplyAll(u, s, work[..i], fails), work[i..j], fails)
    ensures InsertedKeys(tenant, u, s, work[..j], fails)
      == InsertedKeys(tenant, u, s, work[..i], fails)
       + InsertedKeys(tenant, u, ApplyAll(u, s, work[..i], fails), work[i..j], fails)
    ensures WouldKeys(tenant, u, s, work[..j])
      == WouldKeys(tenant, u, s, work[..i]) + WouldKeys(tenant, u, s, work[i..j])
    ensures FailedInserts(u, s, work[..j], fails)
      == FailedInserts(u, s, work[..i], fails)
       + FailedInserts(u, ApplyAll(u, s, work[..i], fails), work[i..j], fails)
  {
    hide Decide, Apply, Filter;
    assert work[..j] == work[..i] + work[i..j];
    ApplyAllAppend(u, s, work[..i], work[i..j], fails);
    InsertedAppend(u, s, work[..i], work[i..j], fails);
    FailedInsertsAppend(u, s, work[..i], work[i..j], fails);
    FilterAppend(work[..i], work[i..j], r => Decide(u, s, r).Write?);
    KeysAppend(tenant, Inserted(u, s, work[..i], fails),
      Inserted(u, ApplyAll(u, s, work[..i], fails), work[i..j], fails));
    KeysAppend(tenant, WouldBackfill(u, s, work[..i]), WouldBackfill(u, s, work[i..j]));
  }

  lemma EmptyPass(u: Setup, s: Store, work: seq<LegacyRow>, fails: set<string>, tenant: string)
    ensures ApplyAll(u, s, work[..0], fails) == s
    ensures InsertedKeys(tenant, u, s, work[..0], fails) == []
    ensures WouldKeys(tenant, u, s, work[..0]) == []
    ensures FailedInserts(u, s, work[..0], fails) == 0
  {
  }

  /** Nothing but this tenant's entry differs. */
  ghost predicate OnlyTenant<T(!new)>(a: map<string, T>, b: map<string, T>, tenant: string) {
    forall t :: t != tenant ==> (t in a <==> t in b) && (t in a ==> a[t] == b[t])
  }

  function CursorOf(cursors: map<string, string>, tenant: string): Option<string> {
    if tenant in cursors then Some(cursors[tenant]) else None
  }

  lemma CommitKeeps(u: Setup, all: Stores, tenant: string, rows: seq<LegacyRow>, fails: set<string>)
    ensures var t := ApplyAll(u, StoreOf(all, tenant), rows, fails);
      && Kept(all, all[tenant := t])
      && forall key :: key in InsertedKeys(tenant, u, StoreOf(all, tenant), rows, fails) ==>
        Durable(all[tenant := t], key)
  {
    hide Decide, Apply;
    ApplyAllGrows(u, StoreOf(all, tenant), rows, fails);
    StoreContents(u, StoreOf(all, tenant), rows, fails);
  }

  /** A run takes up the first of the orphans that remain, as many as its limit allows. */
  lemma WorklistWithinLimit(rows: seq<LegacyRow>, p: Progress, run: Run)
    ensures var work, rest := Worklist(rows, p, run), Remaining(Orphans(p.store, rows), p.cursor, run.resume);
      && work <= rest
      && (run.limit.None? ==> work == rest)
      && (run.limit.Some? ==> |work| == if run.limit.value < |rest| then run.limit.value else |rest|)
  {
    hide Remaining, Orphans;
  }

  // ----- Rows in an open transaction

  /** What a batch changes before it commits. */
  datatype Desk = Desk(working: Store, pending: seq<Pending>, summary: Summary, report: seq<Record>, would: seq<Key>)

  /** The report with one more record, when a report was asked for. */
  function Logged(a: Args, report: seq<Record>, r: Record): seq<Record> {
    if a.reporting then report + [r] else report
  }

  /**
   * One row whose queries do not raise: refused, named by a dry run, refused by
   * its insert, or inserted and buffered.
   */
  function HandleRow(a: Args, f: Faults, tenant: string, d: Desk, row: LegacyRow): Desk {
    var key, s := Key(tenant, row.id), d.summary.Examine();
    match Decide(a.setup, d.working, row)
    case Skip(reason) => d.(summary := s.Skip(reason), report := Logged(a, d.report, Skipped(key, reason)))
    case Write(c, shape, _, _) =>
      if !a.execute then
        d.(summary := s.Backfill(shape), would := d.would + [key], report := Logged(a, d.report, WouldBackfillRow(key)))
      else if row.id in f.inserts then
        d.(summary := s.Skip(InsertFailed).(errors := s.errors + 1),
          report := Logged(a, d.report, Skipped(key, InsertFailed)))
      else
        d.(summary := s, working := d.working[row.id := c], pending := d.pending + [Pending(key, shape)])
  }

  /**
   * What a row comes to, counter by counter: a refusal is counted and reported
   * with its reason and changes nothing else; a dry run counts and reports what
   * would be written; an insert that raises is a refusal and an error; any other
   * insert is in the transaction and the buffer, uncounted and unreported.
   */
  lemma RowSays(a: Args, f: Faults, tenant: string, d: Desk, row: LegacyRow)
    ensures var e, c := HandleRow(a, f, tenant, d, row), Decide(a.setup, d.working, row);
      var key, refused := Key(tenant, row.id), c.Skip? || (a.execute && row.id in f.inserts);
      var reason, inserted := if c.Skip? then c.reason else InsertFailed, a.execute && !refused;
      && e.summary.examined == d.summary.examined + 1
      && e.summary.skipped == d.summary.skipped + (if refused then 1 else 0)
      && e.summary.byReason == d.summary.byReason + (if refused then multiset{reason} else multiset{})
      && e.summary.errors == d.summary.errors + (if refused && c.Write? then 1 else 0)
      && e.summary.backfilled == d.summary.backfilled + (if refused || inserted then 0 else 1)
      && e.summary.byShape == d.summary.byShape + (if refused || inserted then multiset{} else multiset{c.shape})
      && e.working == (if inserted then d.working[row.id := c.row] else d.working)
      && e.pending == d.pending + (if inserted then [Pending(key, c.shape)] else [])
      && e.would == d.would + (if refused || inserted then [] else [key])
      && e.report == d.report
          + (if !a.reporting || inserted then []
             else if refused then [Skipped(key, reason)] else [WouldBackfillRow(key)])
  {
    hide Decide;
  }

  function HandleRows(a: Args, f: Faults, tenant: string, d: Desk, rows: seq<LegacyRow>): Desk {
    if rows == [] then d
    else HandleRow(a, f, tenant, HandleRows(a, f, tenant, d, rows[..|rows| - 1]), rows[|rows| - 1])
  }

  /** Rows before the first one whose queries raise. */
  function Reach(f: Faults, rows: seq<LegacyRow>): (n: nat)
    ensures n <= |rows|
  {
    FirstIndex(rows, (r: LegacyRow) => f.queries(r.id))
  }

  /** The desk when the rows are done or a query has raised; the row in hand then counts as examined. */
  function Reached(a: Args, f: Faults, tenant: string, d: Desk, rows: seq<LegacyRow>): Desk {
    var n := Reach(f, rows);
    var e := HandleRows(a, f, tenant, d, rows[..n]);
    if n < |rows| then e.(summary := e.summary.Examine()) else e
  }

  lemma HandledRow(a: Args, f: Faults, tenant: string, d: Desk, row: LegacyRow)
    ensures var e := HandleRow(a, f, tenant, d, row);
      var written := Decide(a.setup, d.working, row).Write?;
      && e.summary.examined == d.summary.examined + 1
      && e.summary.errors == d.summary.errors + (if a.execute && written && row.id in f.inserts then 1 else 0)
      && Reported(e.report) == Reported(d.report)
      && (a.execute ==>
            && e.working == Apply(a.setup, d.working, row, f.inserts) && e.would == d.would
            && PendingKeys(e.pending)
              == PendingKeys(d.pending) + (if written && row.id !in f.inserts then [Key(tenant, row.id)] else []))
      && (!a.execute ==>
            && e.working == d.working && e.pending == d.pending
            && e.would == d.would + (if written then [Key(tenant, row.id)] else []))
  {
    hide Decide, Reported;
    var key := Key(tenant, row.id);
    ReportedAppend(d.report, WouldBackfillRow(key));
    ReportedAppend(d.report, Skipped(key, InsertFailed));
    var verdict := Decide(a.setup, d.working, row);
    if verdict.Skip? {
      ReportedAppend(d.report, Skipped(key, verdict.reason));
    }
  }

  /**
   * What handling rows comes to: the pass of the store model, its inserted rows
   * buffered in order, nothing claimed yet.
   */
  lemma {:induction false} HandledRows(a: Args, f: Faults, tenant: string, d: Desk, rows: seq<LegacyRow>)
    ensures var e := HandleRows(a, f, tenant, d, rows);
      && e.summary.examined == d.summary.examined + |rows|
      && e.summary.errors
        == d.summary.errors + (if a.execute then FailedInserts(a.setup, d.working, rows, f.inserts) else 0)
      && Reported(e.report) == Reported(d.report)
      && (a.execute ==>
            && e.working == ApplyAll(a.setup, d.working, rows, f.inserts) && e.would == d.would
            && PendingKeys(e.pending)
              == PendingKeys(d.pending) + InsertedKeys(tenant, a.setup, d.working, rows, f.inserts))
      && (!a.execute ==>
            && e.working == d.working && e.pending == d.pending
            && e.would == d.would + WouldKeys(tenant, a.setup, d.working, rows))
  {
    hide HandleRow, Apply, Decide, Reported, InsertedKeys, WouldKeys, FailedInserts;
    if rows == [] {
      EmptyPass(a.setup, d.working, rows, f.inserts, tenant);
      assert rows[..0] == rows;
    } else {
      var n := |rows| - 1;
      HandledRows(a, f, tenant, d, rows[..n]);
      HandledRow(a, f, tenant, HandleRows(a, f, tenant, d, rows[..n]), rows[n]);
      OneMoreRow(a.setup, d.working, rows, n, f.inserts, tenant);
      assert rows[..n + 1] == rows;
    }
  }

  /** The counters after the buffered successes of a committed batch, oldest first. */
  function CountAll(s: Summary, pending: seq<Pending>): Summary
    decreases |pending|
  {
    if pending == [] then s else CountAll(s.Backfill(pending[0].shape), pending[1..])
  }

  lemma {:induction false} CountAllKeeps(s: Summary, pending: seq<Pending>)
    ensures CountAll(s, pending).examined == s.examined && CountAll(s, pending).errors == s.errors
    decreases |pending|
  {
    if pending != [] {
      CountAllKeeps(s.Backfill(pending[0].shape), pending[1..]);
    }
  }

  function BackfillRecords(pending: seq<Pending>): seq<Record> {
    seq(|pending|, i requires 0 <= i < |pending| => Backfilled(pending[i].key))
  }

  lemma NothingPending(all: seq<Pending>)
    ensures PendingKeys(all[..0]) == [] && BackfillRecords(all[..0]) == []
  {
  }

  lemma NextPending(all: seq<Pending>, i: nat)
    requires i < |all|
    ensures all[i..] != [] && all[i..][0] == all[i] && all[i..][1..] == all[i + 1..]
    ensures all[i].key in PendingKeys(all)
    ensures PendingKeys(all[..i + 1]) == PendingKeys(all[..i]) + [all[i].key]
    ensures BackfillRecords(all[..i + 1]) == BackfillRecords(all[..i]) + [Backfilled(all[i].key)]
  {
    assert PendingKeys(all)[i] == all[i].key;
  }

  lemma {:induction false} ReportedAll(report: seq<Record>, pending: seq<Pending>)
    ensures Reported(report + BackfillRecords(pending)) == Reported(report) + set key | key in PendingKeys(pending)
  {
    hide Reported;
    var n := |pending| - 1;
    if pending == [] {
      assert report + BackfillRecords(pending) == report;
    } else {
      ReportedAll(report, pending[..n]);
      assert report + BackfillRecords(pending)
        == (report + BackfillRecords(pending[..n])) + [Backfilled(pending[n].key)];
      ReportedAppend(report + BackfillRecords(pending[..n]), Backfilled(pending[n].key));
      assert PendingKeys(pending) == PendingKeys(pending[..n]) + [pending[n].key];
    }
  }

  // ----- One batch

  /** The batch ran to the end of its session: its rows, its commit and its close. */
  predicate BatchOk(a: Args, f: Faults, tenant: string, k: nat, chunk: seq<LegacyRow>) {
    && !f.fetches(tenant, k) && Reach(f, chunk) == |chunk|
    && (a.execute ==> f.commits(tenant, k) == Lands)
    && !f.closes(tenant, k + 1)
  }

  /** The batch's inserts are durable, whether or not the script came to know. */
  predicate Landed(a: Args, f: Faults, tenant: string, k: nat, chunk: seq<LegacyRow>) {
    a.execute && !f.fetches(tenant, k) && Reach(f, chunk) == |chunk| && f.commits(tenant, k) != Fails
  }

  /** When a batch goes through, and when its inserts are durable, step by step. */
  lemma BatchFates(a: Args, f: Faults, tenant: string, k: nat, chunk: seq<LegacyRow>)
    ensures var handled := !f.fetches(tenant, k) && forall r :: r in chunk ==> !f.queries(r.id);
      && (BatchOk(a, f, tenant, k, chunk) <==>
            handled && (!a.execute || f.commits(tenant, k) == Lands) && !f.closes(tenant, k + 1))
      && (Landed(a, f, tenant, k, chunk) <==>
            handled && a.execute && f.commits(tenant, k) in {Lands, LandsThenRaises})
      && (HaltsAt(a, f, tenant, k, chunk) <==>
            || !handled || (a.execute && f.commits(tenant, k) in {Fails, LandsThenRaises}) || f.closes(tenant, k + 1)
            || (a.execute && a.stateFile && f.saves(tenant, k)))
  {
    var n := Reach(f, chunk);
    if n < |chunk| {
      assert chunk[n] in chunk;
    } else {
      forall r | r in chunk ensures !f.queries(r.id) {
        var i :| 0 <= i < |chunk| && chunk[i] == r;
      }
    }
  }

  /** Something of the batch raises, its cursor's save included. */
  predicate HaltsAt(a: Args, f: Faults, tenant: string, k: nat, chunk: seq<LegacyRow>) {
    !BatchOk(a, f, tenant, k, chunk) || (a.execute && a.stateFile && f.saves(tenant, k))
  }

  function Handled(f: Faults, tenant: string, k: nat, chunk: seq<LegacyRow>): (n: nat)
    ensures n <= |chunk|
  {
    if f.fetches(tenant, k) then 0 else Reach(f, chunk)
  }

  function ExaminedIn(f: Faults, tenant: string, k: nat, chunk: seq<LegacyRow>): (n: nat)
    ensures n <= |chunk|
  {
    if f.fetches(tenant, k) then 0 else Min(Reach(f, chunk) + 1, |chunk|)
  }

  /**
   * Rows a batch examines and never accounts for: the one in hand when a query
   * raises, and inserts that go uncounted.
   */
  function LostIn(a: Args, f: Faults, tenant: string, k: nat, s: Store, chunk: seq<LegacyRow>): nat {
    if f.fetches(tenant, k) then 0
    else
      var n := Reach(f, chunk);
      (if n < |chunk| then 1 else 0)
      + (if a.execute && !BatchOk(a, f, tenant, k, chunk) then |Inserted(a.setup, s, chunk[..n], f.inserts)| else 0)
  }

  function ErrorsIn(a: Args, f: Faults, tenant: string, k: nat, s: Store, chunk: seq<LegacyRow>): nat {
    if a.execute then FailedInserts(a.setup, s, chunk[..Handled(f, tenant, k, chunk)], f.inserts) else 0
  }

  /** The desk when the batch's rows are done with. */
  function BatchDesk(a: Args, f: Faults, tenant: string, k: nat, d: Desk, chunk: seq<LegacyRow>): Desk {
    if f.fetches(tenant, k) then d else Reached(a, f, tenant, d, chunk)
  }

  /** The records a batch leaves after those of its rows. */
  function ClosingRecords(a: Args, f: Faults, tenant: string, k: nat, e: Desk, chunk: seq<LegacyRow>): seq<Record> {
    if !a.reporting || !a.execute || e.pending == [] then []
    else if BatchOk(a, f, tenant, k, chunk) then BackfillRecords(e.pending)
    else if Reach(f, chunk) == |chunk| && f.commits(tenant, k) == Lands then []
    else [RolledBack(PendingKeys(e.pending))]
  }

  /** What the rows of a batch come to, up to where they get. */
  lemma BatchDeskMeans(a: Args, f: Faults, tenant: string, k: nat, d: Desk, chunk: seq<LegacyRow>)
    requires d.pending == []
    ensures var e, n := BatchDesk(a, f, tenant, k, d, chunk), Handled(f, tenant, k, chunk);
      && e.summary.examined == d.summary.examined + ExaminedIn(f, tenant, k, chunk)
      && e.summary.errors == d.summary.errors + ErrorsIn(a, f, tenant, k, d.working, chunk)
      && Reported(e.report) == Reported(d.report) && (f.fetches(tenant, k) ==> e.pending == [])
      && (a.execute ==>
            && e.would == d.would
            && e.working == ApplyAll(a.setup, d.working, chunk[..n], f.inserts)
            && PendingKeys(e.pending) == InsertedKeys(tenant, a.setup, d.working, chunk[..n], f.inserts)
            && |e.pending| == |Inserted(a.setup, d.working, chunk[..n], f.inserts)|)
      && (!a.execute ==> e.pending == [] && e.would == d.would + WouldKeys(tenant, a.setup, d.working, chunk[..n]))
  {
    hide HandleRows, ApplyAll, Inserted, Reported, WouldBackfill, FirstIndex, FailedInserts;
    var n := Handled(f, tenant, k, chunk);
    HandledRows(a, f, tenant, d, chunk[..n]);
    EmptyPass(a.setup, d.working, chunk, f.inserts, tenant);
    assert PendingKeys(d.pending) == [];
    var e := BatchDesk(a, f, tenant, k, d, chunk);
    assert a.execute ==> |e.pending| == |PendingKeys(e.pending)|;
  }

  lemma DryBuffersNothing(a: Args, f: Faults, tenant: string, k: nat, d: Desk, chunk: seq<LegacyRow>)
    requires d.pending == []
    ensures !a.execute ==> BatchDesk(a, f, tenant, k, d, chunk).pending == []
  {
    hide BatchDesk, ApplyAll, InsertedKeys, WouldKeys, Inserted, Reported;
    BatchDeskMeans(a, f, tenant, k, d, chunk);
  }

  /** Where a batch leaves everything, given the desk `e` its rows left. */
  ghost predicate BatchClosed(a: Args, f: Faults, tenant: string, k: nat, chunk: seq<LegacyRow>, e: Desk,
                              canonical: Stores, counted: seq<Key>, lost: nat,
                              canonical': Stores, counted': seq<Key>, lost': nat, d': Desk) {
    var ok := BatchOk(a, f, tenant, k, chunk);
    && canonical' == (if Landed(a, f, tenant, k, chunk) then canonical[tenant := e.working] else canonical)
    && counted' == counted + (if ok && a.execute then PendingKeys(e.pending) else [])
    && lost'
      == lost + (if ok then 0 else |e.pending|) + (if !f.fetches(tenant, k) && Reach(f, chunk) < |chunk| then 1 else 0)
    && d'.pending == [] && d'.would == e.would
    && d'.summary == (if ok && a.execute then CountAll(e.summary, e.pending) else e.summary)
    && d'.report == e.report + ClosingRecords(a, f, tenant, k, e, chunk)
  }

  /** The same in terms of the store model: what is durable, what is claimed, what is lost. */
  lemma BatchMeans(a: Args, f: Faults, tenant: string, k: nat, chunk: seq<LegacyRow>, d: Desk,
                   canonical: Stores, counted: seq<Key>, lost: nat,
                   canonical': Stores, counted': seq<Key>, lost': nat, d': Desk)
    requires d.pending == [] && d.working == StoreOf(canonical, tenant)
    requires BatchClosed(a, f, tenant, k, chunk, BatchDesk(a, f, tenant, k, d, chunk), canonical, counted, lost,
      canonical', counted', lost', d')
    ensures var ok := BatchOk(a, f, tenant, k, chunk);
      && canonical' == (if Landed(a, f, tenant, k, chunk)
                        then canonical[tenant := ApplyAll(a.setup, d.working, chunk, f.inserts)] else canonical)
      && counted'
        == counted + (if ok && a.execute then InsertedKeys(tenant, a.setup, d.working, chunk, f.inserts) else [])
      && d'.would
        == d.would
        + (if a.execute then [] else WouldKeys(tenant, a.setup, d.working, chunk[..Handled(f, tenant, k, chunk)]))
      && d'.summary.examined == d.summary.examined + ExaminedIn(f, tenant, k, chunk)
      && d'.summary.errors == d.summary.errors + ErrorsIn(a, f, tenant, k, d.working, chunk)
      && lost' == lost + LostIn(a, f, tenant, k, d.working, chunk)
      && (a.reporting ==> Reported(d'.report) == Reported(d.report) + set key | key in counted'[|counted|..])
  {
    hide BatchDesk, ApplyAll, InsertedKeys, WouldKeys, Inserted, Reported, ClosingRecords, CountAll, ErrorsIn;
    var e := BatchDesk(a, f, tenant, k, d, chunk);
    BatchDeskMeans(a, f, tenant, k, d, chunk);
    CountAllKeeps(e.summary, e.pending);
    assert Handled(f, tenant, k, chunk) == |chunk| ==> chunk[..Handled(f, tenant, k, chunk)] == chunk;
    assert d.would + [] == d.would;
    ClosingReport(a, f, tenant, k, e, chunk);
    assert counted'[|counted|..] == ClaimedBy(a, f, tenant, k, e, chunk);
  }

  /** A pass inserts only rows whose ids were free before it. */
  lemma {:induction false} InsertedAreNew(u: Setup, s: Store, rows: seq<LegacyRow>, fails: set<string>)
    ensures forall r :: r in Inserted(u, s, rows, fails) ==> r.id !in s
  {
    hide Decide, Apply;
    if rows != [] {
      var n := |rows| - 1;
      InsertedAreNew(u, s, rows[..n], fails);
      ApplyAllGrows(u, s, rows[..n], fails);
      if Decide(u, ApplyAll(u, s, rows[..n], fails), rows[n]).Write? {
        WriteFacts(u, ApplyAll(u, s, rows[..n], fails), rows[n]);
      }
    }
  }

  /** The buffered rows of a batch were not durable before it, and are in the transaction's view. */
  lemma BufferedAreNew(a: Args, f: Faults, tenant: string, k: nat, d: Desk, chunk: seq<LegacyRow>, key: Key)
    requires a.execute && d.pending == []
    requires key in PendingKeys(BatchDesk(a, f, tenant, k, d, chunk).pending)
    ensures key.tenant == tenant && key.id !in d.working && key.id in BatchDesk(a, f, tenant, k, d, chunk).working
  {
    hide BatchDesk, ApplyAll, Inserted, Reported;
    var n := Handled(f, tenant, k, chunk);
    BatchDeskMeans(a, f, tenant, k, d, chunk);
    InsertedAreNew(a.setup, d.working, chunk[..n], f.inserts);
    StoreContents(a.setup, d.working, chunk[..n], f.inserts);
    var ins := Inserted(a.setup, d.working, chunk[..n], f.inserts);
    var i :| 0 <= i < |ins| && Keys(tenant, ins)[i] == key;
    assert ins[i] in ins;
  }

  /**
   * Of the rows a batch buffered, the report says that they were rolled back
   * while they are in the durable store exactly when the rows were all handled
   * and the commit raised after landing.
   */
  lemma RolledBackYetDurableIff(a: Args, f: Faults, tenant: string, k: nat, chunk: seq<LegacyRow>, d: Desk,
                                canonical: Stores, counted: seq<Key>, lost: nat,
                                canonical': Stores, counted': seq<Key>, lost': nat, d': Desk, key: Key)
    requires a.execute && a.reporting && d.pending == [] && d.working == StoreOf(canonical, tenant)
    requires BatchClosed(a, f, tenant, k, chunk, BatchDesk(a, f, tenant, k, d, chunk), canonical, counted, lost,
      canonical', counted', lost', d')
    requires key in PendingKeys(BatchDesk(a, f, tenant, k, d, chunk).pending)
    ensures var e := BatchDesk(a, f, tenant, k, d, chunk);
      && d'.report == e.report + ClosingRecords(a, f, tenant, k, e, chunk)
      && (RolledBack(PendingKeys(e.pending)) in ClosingRecords(a, f, tenant, k, e, chunk) && Durable(canonical', key)
          <==> !f.fetches(tenant, k) && Reach(f, chunk) == |chunk| && f.commits(tenant, k) == LandsThenRaises)
  {
    hide BatchDesk, FirstIndex, CountAll;
    var e := BatchDesk(a, f, tenant, k, d, chunk);
    BufferedAreNew(a, f, tenant, k, d, chunk, key);
    assert RolledBack(PendingKeys(e.pending)) !in BackfillRecords(e.pending);
  }

  function ClaimedBy(a: Args, f: Faults, tenant: string, k: nat, e: Desk, chunk: seq<LegacyRow>): seq<Key> {
    if BatchOk(a, f, tenant, k, chunk) && a.execute then PendingKeys(e.pending) else []
  }

  /** A batch's closing records claim exactly the buffered rows, and only when the batch went through. */
  lemma ClosingReport(a: Args, f: Faults, tenant: string, k: nat, e: Desk, chunk: seq<LegacyRow>)
    ensures a.reporting ==>
      Reported(e.report + ClosingRecords(a, f, tenant, k, e, chunk))
      == Reported(e.report) + set key | key in ClaimedBy(a, f, tenant, k, e, chunk)
  {
    hide Reported, BatchOk;
    ReportedAll(e.report, e.pending);
    ReportedAppend(e.report, RolledBack(PendingKeys(e.pending)));
    assert e.report + [] == e.report;
  }

  // ----- The counters against the report

  /** The reasons of the rows a report refuses. */
  function Reasons(report: seq<Record>): multiset<Reason> {
    if report == [] then multiset{}
    else
      var r := report[|report| - 1];
      Reasons(report[..|report| - 1]) + if r.Skipped? then multiset{r.reason} else multiset{}
  }

  /** How many rows a report backfills, or would. */
  function Successes(report: seq<Record>): nat {
    if report == [] then 0
    else
      var r := report[|report| - 1];
      Successes(report[..|report| - 1]) + if r.Backfilled? || r.WouldBackfillRow? then 1 else 0
  }

  /** The counters of refusals, by reason, and of successes are those of the report. */
  ghost predicate Tallied(report: seq<Record>, s: Summary) {
    s.byReason == Reasons(report) && s.backfilled == Successes(report)
  }

  lemma TallyAppend(report: seq<Record>, r: Record)
    ensures Reasons(report + [r]) == if r.Skipped? then Reasons(report) + multiset{r.reason} else Reasons(report)
    ensures Successes(report + [r]) == Successes(report) + if r.Backfilled? || r.WouldBackfillRow? then 1 else 0
  {
    assert (report + [r])[..|report|] == report;
  }

  lemma RowTallies(a: Args, f: Faults, tenant: string, d: Desk, row: LegacyRow)
    requires a.reporting && Tallied(d.report, d.summary)
    ensures var e := HandleRow(a, f, tenant, d, row); Tallied(e.report, e.summary)
  {
    hide Decide, Reasons, Successes;
    var key, verdict := Key(tenant, row.id), Decide(a.setup, d.working, row);
    TallyAppend(d.report, WouldBackfillRow(key));
    TallyAppend(d.report, Skipped(key, InsertFailed));
    if verdict.Skip? {
      TallyAppend(d.report, Skipped(key, verdict.reason));
    }
  }

  lemma {:induction false} RowsTally(a: Args, f: Faults, tenant: string, d: Desk, rows: seq<LegacyRow>)
    requires a.reporting && Tallied(d.report, d.summary)
    ensures var e := HandleRows(a, f, tenant, d, rows); Tallied(e.report, e.summary)
  {
    hide HandleRow, Tallied;
    if rows != [] {
      var n := |rows| - 1;
      RowsTally(a, f, tenant, d, rows[..n]);
      RowTallies(a, f, tenant, HandleRows(a, f, tenant, d, rows[..n]), rows[n]);
    }
  }

  /** Counting the buffered successes and reporting them keep in step. */
  lemma {:induction false} CountAllTallies(report: seq<Record>, s: Summary, pending: seq<Pending>)
    requires Tallied(report, s)
    ensures Tallied(report + BackfillRecords(pending), CountAll(s, pending))
    decreases |pending|
  {
    hide Reasons, Successes;
    if pending == [] {
      assert report + BackfillRecords(pending) == report;
    } else {
      var next := Backfilled(pending[0].key);
      TallyAppend(report, next);
      CountAllTallies(report + [next], s.Backfill(pending[0].shape), pending[1..]);
      assert report + BackfillRecords(pending) == report + [next] + BackfillRecords(pending[1..]);
    }
  }

  /** The counts of the buffered successes of a batch, one by one or together. */
  lemma {:induction false} CountAllSays(s: Summary, pending: seq<Pending>)
    ensures var t := CountAll(s, pending);
      && t.backfilled == s.backfilled + |pending|
      && t.byShape == s.byShape + multiset(Shapes(pending))
      && t == s.(backfilled := t.backfilled, byShape := t.byShape)
    decreases |pending|
  {
    if pending != [] {
      CountAllSays(s.Backfill(pending[0].shape), pending[1..]);
      assert Shapes(pending) == [pending[0].shape] + Shapes(pending[1..]);
    }
  }

  function Shapes(pending: seq<Pending>): seq<Shape> {
    seq(|pending|, i requires 0 <= i < |pending| => pending[i].shape)
  }

  /** However a batch ends, its counters and its records stay in step. */
  lemma BatchTallies(a: Args, f: Faults, tenant: string, k: nat, d: Desk, chunk: seq<LegacyRow>)
    requires a.reporting && d.pending == [] && Tallied(d.report, d.summary)
    ensures var e := BatchDesk(a, f, tenant, k, d, chunk);
      Tallied(e.report + ClosingRecords(a, f, tenant, k, e, chunk),
        if BatchOk(a, f, tenant, k, chunk) && a.execute then CountAll(e.summary, e.pending) else e.summary)
  {
    hide HandleRows, FirstIndex, BatchOk, Reasons, Successes;
    var e := BatchDesk(a, f, tenant, k, d, chunk);
    RowsTally(a, f, tenant, d, chunk[..Reach(f, chunk)]);
    CountAllTallies(e.report, e.summary, e.pending);
    TallyAppend(e.report, RolledBack(PendingKeys(e.pending)));
    assert e.report + [] == e.report;
    assert BackfillRecords([]) == [];
  }

  // ----- One tenant

  /** The durable state, the claims made about it, and how many rows were examined, lost to the counts, and in error. */
  datatype Image = Image(
    canonical: Stores, cursors: map<string, string>, saved: map<string, string>,
    counted: seq<Key>, would: seq<Key>, examined: nat, lost: nat, errors: nat)

  /** One batch and, when it went through, its cursor. */
  ghost predicate BatchTaken(a: Args, f: Faults, tenant: string, k: nat, chunk: seq<LegacyRow>, x: Image, y: Image)
    requires chunk != []
  {
    var s, ok := StoreOf(x.canonical, tenant), BatchOk(a, f, tenant, k, chunk) && a.execute;
    && y.canonical == (if Landed(a, f, tenant, k, chunk)
                       then x.canonical[tenant := ApplyAll(a.setup, s, chunk, f.inserts)] else x.canonical)
    && y.counted == x.counted + (if ok then InsertedKeys(tenant, a.setup, s, chunk, f.inserts) else [])
    && y.would
      == x.would + (if a.execute then [] else WouldKeys(tenant, a.setup, s, chunk[..Handled(f, tenant, k, chunk)]))
    && y.cursors == (if ok then x.cursors[tenant := chunk[|chunk| - 1].id] else x.cursors)
    && y.saved == (if ok && a.stateFile && !f.saves(tenant, k) then y.cursors else x.saved)
    && y.examined == x.examined + ExaminedIn(f, tenant, k, chunk)
    && y.lost == x.lost + LostIn(a, f, tenant, k, s, chunk)
    && y.errors == x.errors + ErrorsIn(a, f, tenant, k, s, chunk)
  }

  /** The rows of batch `k`. */
  function Batch(work: seq<LegacyRow>, batchSize: nat, k: nat): seq<LegacyRow> {
    var i, j := RowsIn(work, batchSize, k), RowsIn(work, batchSize, k + 1);
    if i <= j then work[i..j] else []
  }

  lemma NextBatch(work: seq<LegacyRow>, batchSize: nat, k: nat)
    requires batchSize >= 1 && RowsIn(work, batchSize, k) < |work|
    ensures var i, j := RowsIn(work, batchSize, k), RowsIn(work, batchSize, k + 1);
      && j == Min(i + batchSize, |work|) && i < j
      && Batch(work, batchSize, k) == work[i..j] && work[i..j] != []
  {
    assert (k + 1) * batchSize == k * batchSize + batchSize;
  }

  /** The tenant's walk stops before batch `stop`: the worklist is done, or that batch halts it. */
  ghost predicate StopsAt(a: Args, f: Faults, tenant: string, work: seq<LegacyRow>, stop: nat) {
    && (forall k :: 0 <= k < stop ==> !HaltsAt(a, f, tenant, k, Batch(work, a.batchSize, k)))
    && (RowsIn(work, a.batchSize, stop) < |work| ==> HaltsAt(a, f, tenant, stop, Batch(work, a.batchSize, stop)))
  }

  predicate Halted(a: Args, work: seq<LegacyRow>, stop: nat) {
    RowsIn(work, a.batchSize, stop) < |work|
  }

  /** Batches whose inserts are durable when the walk has stopped. */
  function CommittedAt(a: Args, f: Faults, tenant: string, work: seq<LegacyRow>, stop: nat): (n: nat)
    ensures stop <= n
  {
    stop + if Halted(a, work, stop) && Landed(a, f, tenant, stop, Batch(work, a.batchSize, stop)) then 1 else 0
  }

  /** Batches whose inserts have been counted and reported, and whose cursor has been taken. */
  function CountedAt(a: Args, f: Faults, tenant: string, work: seq<LegacyRow>, stop: nat): (n: nat)
    ensures stop <= n <= CommittedAt(a, f, tenant, work, stop)
  {
    stop + if a.execute && Halted(a, work, stop)
      && BatchOk(a, f, tenant, stop, Batch(work, a.batchSize, stop)) then 1 else 0
  }

  function ExaminedAt(a: Args, f: Faults, tenant: string, work: seq<LegacyRow>, stop: nat): nat {
    RowsIn(work, a.batchSize, stop)
    + if Halted(a, work, stop) then ExaminedIn(f, tenant, stop, Batch(work, a.batchSize, stop)) else 0
  }

  function HandledAt(a: Args, f: Faults, tenant: string, work: seq<LegacyRow>, stop: nat): nat {
    RowsIn(work, a.batchSize, stop)
    + if Halted(a, work, stop) then Handled(f, tenant, stop, Batch(work, a.batchSize, stop)) else 0
  }

  function LostAt(a: Args, f: Faults, tenant: string, s0: Store, work: seq<LegacyRow>, stop: nat): nat {
    if !Halted(a, work, stop) then 0
    else
      var i := RowsIn(work, a.batchSize, stop);
      LostIn(a, f, tenant, stop, ApplyAll(a.setup, s0, work[..i], f.inserts), Batch(work, a.batchSize, stop))
  }

  function ErrorsAt(a: Args, f: Faults, tenant: string, s0: Store, work: seq<LegacyRow>, stop: nat): nat {
    if a.execute then FailedInserts(a.setup, s0, work[..Min(HandledAt(a, f, tenant, work, stop), |work|)], f.inserts)
      else 0
  }

  function AdvancedTo(cursors: map<string, string>, tenant: string, work: seq<LegacyRow>, n: nat): map<string, string>
    requires n <= |work|
  {
    if n == 0 then cursors else cursors[tenant := work[n - 1].id]
  }

  ghost predicate StoreStands(a: Args, f: Faults, tenant: string, work: seq<LegacyRow>, n: nat, x: Image, y: Image)
    requires n <= |work|
  {
    && OnlyTenant(x.canonical, y.canonical, tenant)
    && StoreOf(y.canonical, tenant) == ApplyAll(a.setup, StoreOf(x.canonical, tenant), work[..n], f.inserts)
  }

  ghost predicate CountsStand(a: Args, f: Faults, tenant: string, work: seq<LegacyRow>, n: nat, x: Image, y: Image)
    requires n <= |work|
  {
    && y.counted == x.counted + InsertedKeys(tenant, a.setup, StoreOf(x.canonical, tenant), work[..n], f.inserts)
    && y.would == x.would
  }

  ghost predicate CursorsStand(a: Args, tenant: string, work: seq<LegacyRow>, taken: nat, saved: nat, x: Image,
                               y: Image)
    requires taken <= |work| && saved <= |work|
  {
    && y.cursors == AdvancedTo(x.cursors, tenant, work, taken)
    && y.saved == if a.stateFile && saved > 0 then AdvancedTo(x.cursors, tenant, work, saved) else x.saved
  }

  /** Where an execute run stands for one tenant: the rows behind what is durable, counted and remembered, and saved. */
  ghost predicate Stands(a: Args, f: Faults, tenant: string, work: seq<LegacyRow>, durable: nat, counted: nat,
                         saved: nat,
                         x: Image, y: Image)
    requires durable <= |work| && counted <= |work| && saved <= |work|
  {
    && StoreStands(a, f, tenant, work, durable, x, y)
    && CountsStand(a, f, tenant, work, counted, x, y)
    && CursorsStand(a, tenant, work, counted, saved, x, y)
  }

  /** Where a dry run stands after `n` rows: nothing durable has changed. */
  ghost predicate Rehearsed(a: Args, tenant: string, work: seq<LegacyRow>, n: nat, x: Image, y: Image) {
    && n <= |work|
    && y == x.(would := y.would, examined := y.examined, lost := y.lost, errors := y.errors)
    && y.would == x.would + WouldKeys(tenant, a.setup, StoreOf(x.canonical, tenant), work[..n])
  }

  /** The errors of the rows handled. */
  ghost predicate ErrorsStand(a: Args, f: Faults, tenant: string, work: seq<LegacyRow>, n: nat, x: Image, y: Image) {
    && n <= |work|
    && y.errors == x.errors
         + if a.execute then FailedInserts(a.setup, StoreOf(x.canonical, tenant), work[..n], f.inserts) else 0
  }

  /** After `k` whole batches. */
  ghost predicate Walked(a: Args, f: Faults, tenant: string, work: seq<LegacyRow>, k: nat, x: Image, y: Image) {
    var n := RowsIn(work, a.batchSize, k);
    && (if a.execute then Stands(a, f, tenant, work, n, n, n, x, y) else Rehearsed(a, tenant, work, n, x, y))
    && y.examined == x.examined + n && y.lost == x.lost && ErrorsStand(a, f, tenant, work, n, x, y)
  }

  /** After the walk: exactly what each step that raised left undone. */
  ghost predicate Ended(a: Args, f: Faults, tenant: string, work: seq<LegacyRow>, stop: nat, x: Image, y: Image) {
    && (if a.execute
        then Stands(a, f, tenant, work,
                    RowsIn(work, a.batchSize, CommittedAt(a, f, tenant, work, stop)),
                    RowsIn(work, a.batchSize, CountedAt(a, f, tenant, work, stop)),
                    RowsIn(work, a.batchSize, stop), x, y)
        else Rehearsed(a, tenant, work, HandledAt(a, f, tenant, work, stop), x, y))
    && y.examined == x.examined + ExaminedAt(a, f, tenant, work, stop)
    && y.lost == x.lost + LostAt(a, f, tenant, StoreOf(x.canonical, tenant), work, stop)
    && ErrorsStand(a, f, tenant, work, HandledAt(a, f, tenant, work, stop), x, y)
  }

  lemma WalkStarts(a: Args, f: Faults, tenant: string, work: seq<LegacyRow>, x: Image)
    ensures Walked(a, f, tenant, work, 0, x, x)
  {
    EmptyPass(a.setup, StoreOf(x.canonical, tenant), work, f.inserts, tenant);
  }

  /** One more batch on top of whole batches, whatever became of it. */
  lemma BatchStands(a: Args, f: Faults, tenant: string, work: seq<LegacyRow>, k: nat, i: nat, j: nat, x: Image,
                    y: Image, z: Image)
    requires i < j <= |work| && a.execute
    requires Stands(a, f, tenant, work, i, i, i, x, y) && BatchTaken(a, f, tenant, k, work[i..j], y, z)
    ensures var ok := BatchOk(a, f, tenant, k, work[i..j]);
      Stands(a, f, tenant, work,
             if Landed(a, f, tenant, k, work[i..j]) then j else i,
             if ok then j else i,
             if ok && a.stateFile && !f.saves(tenant, k) then j else i, x, z)
  {
    hide CountsStand, CursorsStand, ApplyAll, InsertedKeys, WouldKeys, LostIn, ErrorsIn, ExaminedIn, BatchOk, Landed,
      BatchTaken, Inserted;
    var s0 := StoreOf(x.canonical, tenant);
    ChunksAddUp(a.setup, s0, work, i, j, f.inserts, tenant);
    BatchStore(a, f, tenant, work, k, i, j, x, y, z);
    BatchCounts(a, f, tenant, work, k, i, j, x, y, z);
    BatchCursors(a, f, tenant, work, k, i, j, x, y, z);
  }

  lemma BatchStore(a: Args, f: Faults, tenant: string, work: seq<LegacyRow>, k: nat, i: nat, j: nat, x: Image, y: Image,
                   z: Image)
    requires i < j <= |work| && StoreStands(a, f, tenant, work, i, x, y)
      && BatchTaken(a, f, tenant, k, work[i..j], y, z)
    ensures StoreStands(a, f, tenant, work, if Landed(a, f, tenant, k, work[i..j]) then j else i, x, z)
  {
    hide ApplyAll, InsertedKeys, WouldKeys, LostIn, ErrorsIn, ExaminedIn, BatchOk, Landed;
    ChunksAddUp(a.setup, StoreOf(x.canonical, tenant), work, i, j, f.inserts, tenant);
  }

  lemma BatchClaims(a: Args, f: Faults, tenant: string, k: nat, chunk: seq<LegacyRow>, y: Image, z: Image)
    requires chunk != [] && a.execute && BatchTaken(a, f, tenant, k, chunk, y, z)
    ensures z.would == y.would
    ensures z.counted == if BatchOk(a, f, tenant, k, chunk)
                         then y.counted + InsertedKeys(tenant, a.setup, StoreOf(y.canonical, tenant), chunk, f.inserts)
                         else y.counted
  {
    hide ApplyAll, InsertedKeys, WouldKeys, LostIn, ErrorsIn, ExaminedIn, BatchOk, Landed, Handled, StoreOf;
  }

  lemma BatchCounts(a: Args, f: Faults, tenant: string, work: seq<LegacyRow>, k: nat, i: nat, j: nat, x: Image,
                    y: Image, z: Image)
    requires i < j <= |work| && a.execute && StoreStands(a, f, tenant, work, i, x, y)
      && CountsStand(a, f, tenant, work, i, x, y)
    requires BatchTaken(a, f, tenant, k, work[i..j], y, z)
    ensures CountsStand(a, f, tenant, work, if BatchOk(a, f, tenant, k, work[i..j]) then j else i, x, z)
  {
    hide BatchTaken, ApplyAll, InsertedKeys, WouldKeys, FailedInserts, BatchOk, StoreOf;
    var s0 := StoreOf(x.canonical, tenant);
    BatchClaims(a, f, tenant, k, work[i..j], y, z);
    ChunksAddUp(a.setup, s0, work, i, j, f.inserts, tenant);
    var p, q := InsertedKeys(tenant, a.setup, s0, work[..i], f.inserts),
                InsertedKeys(tenant, a.setup, ApplyAll(a.setup, s0, work[..i], f.inserts), work[i..j], f.inserts);
    assert (x.counted + p) + q == x.counted + (p + q);
  }

  lemma BatchCursors(a: Args, f: Faults, tenant: string, work: seq<LegacyRow>, k: nat, i: nat, j: nat, x: Image,
                     y: Image, z: Image)
    requires i < j <= |work| && a.execute && CursorsStand(a, tenant, work, i, i, x, y)
    requires BatchTaken(a, f, tenant, k, work[i..j], y, z)
    ensures var ok := BatchOk(a, f, tenant, k, work[i..j]);
      CursorsStand(a, tenant, work, if ok then j else i, if ok && a.stateFile
        && !f.saves(tenant, k) then j else i, x, z)
  {
    hide ApplyAll, InsertedKeys, WouldKeys, LostIn, ErrorsIn, ExaminedIn, BatchOk, Landed, StoreOf;
    assert work[i..j][j - i - 1] == work[j - 1];
  }

  lemma BatchRehearsed(a: Args, f: Faults, tenant: string, work: seq<LegacyRow>, k: nat, i: nat, j: nat, x: Image,
                       y: Image, z: Image)
    requires i < j <= |work| && !a.execute
    requires Rehearsed(a, tenant, work, i, x, y) && BatchTaken(a, f, tenant, k, work[i..j], y, z)
    ensures Rehearsed(a, tenant, work, i + Handled(f, tenant, k, work[i..j]), x, z)
  {
    hide ApplyAll, InsertedKeys, WouldKeys, LostIn, ErrorsIn, ExaminedIn, BatchOk, Handled;
    var s0, m := StoreOf(x.canonical, tenant), i + Handled(f, tenant, k, work[i..j]);
    assert work[i..j][..m - i] == work[i..m];
    ChunksAddUp(a.setup, s0, work, i, m, {}, tenant);
    var p, q := WouldKeys(tenant, a.setup, s0, work[..i]), WouldKeys(tenant, a.setup, s0, work[i..m]);
    assert (x.would + p) + q == x.would + (p + q);
  }

  lemma BatchErrors(a: Args, f: Faults, tenant: string, work: seq<LegacyRow>, k: nat, i: nat, j: nat, x: Image,
                    y: Image, z: Image)
    requires i < j <= |work| && ErrorsStand(a, f, tenant, work, i, x, y)
      && BatchTaken(a, f, tenant, k, work[i..j], y, z)
    requires a.execute ==> StoreStands(a, f, tenant, work, i, x, y)
    ensures ErrorsStand(a, f, tenant, work, i + Handled(f, tenant, k, work[i..j]), x, z)
  {
    hide ApplyAll, InsertedKeys, WouldKeys, LostIn, ExaminedIn, BatchOk, Landed, Handled, FailedInserts;
    var m := i + Handled(f, tenant, k, work[i..j]);
    assert work[i..j][..m - i] == work[i..m];
    ChunksAddUp(a.setup, StoreOf(x.canonical, tenant), work, i, m, f.inserts, tenant);
  }

  lemma OkBatch(a: Args, f: Faults, tenant: string, k: nat, s: Store, chunk: seq<LegacyRow>)
    requires BatchOk(a, f, tenant, k, chunk)
    ensures Landed(a, f, tenant, k, chunk) == a.execute
    ensures Handled(f, tenant, k, chunk) == ExaminedIn(f, tenant, k, chunk) == |chunk|
    ensures LostIn(a, f, tenant, k, s, chunk) == 0
  {
  }

  lemma BatchWalked(a: Args, f: Faults, tenant: string, work: seq<LegacyRow>, k: nat, x: Image, y: Image, z: Image)
    requires a.batchSize >= 1 && RowsIn(work, a.batchSize, k) < |work|
    requires Walked(a, f, tenant, work, k, x, y)
    requires Batch(work, a.batchSize, k) != [] && BatchTaken(a, f, tenant, k, Batch(work, a.batchSize, k), y, z)
    requires !HaltsAt(a, f, tenant, k, Batch(work, a.batchSize, k))
    ensures Walked(a, f, tenant, work, k + 1, x, z)
  {
    hide RowsIn, Stands, Rehearsed, BatchOk, Landed, Handled, ExaminedIn, LostIn, ErrorsIn, Batch, ApplyAll,
      InsertedKeys, WouldKeys, ErrorsStand;
    var chunk := Batch(work, a.batchSize, k);
    NextBatch(work, a.batchSize, k);
    var i, j := RowsIn(work, a.batchSize, k), RowsIn(work, a.batchSize, k + 1);
    if a.execute {
      StandsAfter(a, f, tenant, work, i, i, i, x, y);
    }
    BatchErrors(a, f, tenant, work, k, i, j, x, y, z);
    OkBatch(a, f, tenant, k, StoreOf(y.canonical, tenant), chunk);
    if a.execute {
      BatchStands(a, f, tenant, work, k, i, j, x, y, z);
      if !a.stateFile {
        SavedIrrelevant(a, f, tenant, work, j, j, i, j, x, z);
      }
    } else {
      BatchRehearsed(a, f, tenant, work, k, i, j, x, y, z);
    }
  }

  lemma SavedIrrelevant(a: Args, f: Faults, tenant: string, work: seq<LegacyRow>, n: nat, c: nat, m1: nat, m2: nat,
                        x: Image, y: Image)
    requires n <= |work| && c <= |work| && m1 <= |work| && m2 <= |work| && !a.stateFile
    requires Stands(a, f, tenant, work, n, c, m1, x, y)
    ensures Stands(a, f, tenant, work, n, c, m2, x, y)
  {
  }

  lemma WalkEnds(a: Args, f: Faults, tenant: string, work: seq<LegacyRow>, k: nat, x: Image, y: Image)
    requires RowsIn(work, a.batchSize, k) == |work| && Walked(a, f, tenant, work, k, x, y)
    ensures Ended(a, f, tenant, work, k, x, y)
  {
    hide Stands, Rehearsed, RowsIn, ErrorsStand;
  }

  lemma WalkHalts(a: Args, f: Faults, tenant: string, work: seq<LegacyRow>, k: nat, x: Image, y: Image, z: Image)
    requires a.batchSize >= 1 && RowsIn(work, a.batchSize, k) < |work|
    requires Walked(a, f, tenant, work, k, x, y)
    requires Batch(work, a.batchSize, k) != [] && BatchTaken(a, f, tenant, k, Batch(work, a.batchSize, k), y, z)
    requires HaltsAt(a, f, tenant, k, Batch(work, a.batchSize, k))
    ensures Ended(a, f, tenant, work, k, x, z)
  {
    hide RowsIn, Stands, Rehearsed, BatchOk, Landed, Handled, ExaminedIn, LostIn, ErrorsIn, Batch, ApplyAll,
      InsertedKeys, WouldKeys, ErrorsStand;
    var chunk := Batch(work, a.batchSize, k);
    NextBatch(work, a.batchSize, k);
    var i, j := RowsIn(work, a.batchSize, k), RowsIn(work, a.batchSize, k + 1);
    if a.execute {
      StandsAfter(a, f, tenant, work, i, i, i, x, y);
    }
    BatchErrors(a, f, tenant, work, k, i, j, x, y, z);
    if a.execute {
      if BatchOk(a, f, tenant, k, chunk) {
        OkBatch(a, f, tenant, k, StoreOf(y.canonical, tenant), chunk);
      }
      BatchStands(a, f, tenant, work, k, i, j, x, y, z);
    } else {
      BatchRehearsed(a, f, tenant, work, k, i, j, x, y, z);
      assert LostAt(a, f, tenant, StoreOf(x.canonical, tenant), work, k)
        == LostIn(a, f, tenant, k, StoreOf(y.canonical, tenant), chunk) by {
        DryLossIgnoresStore(a, f, tenant, k, chunk, StoreOf(y.canonical, tenant),
          ApplyAll(a.setup, StoreOf(x.canonical, tenant), work[..i], f.inserts));
      }
    }
  }

  lemma StandsAfter(a: Args, f: Faults, tenant: string, work: seq<LegacyRow>, n: nat, c: nat, m: nat, x: Image,
                    y: Image)
    requires n <= |work| && c <= |work| && m <= |work| && Stands(a, f, tenant, work, n, c, m, x, y)
    ensures StoreStands(a, f, tenant, work, n, x, y)
    ensures StoreOf(y.canonical, tenant) == ApplyAll(a.setup, StoreOf(x.canonical, tenant), work[..n], f.inserts)
  {
  }

  lemma DryLossIgnoresStore(a: Args, f: Faults, tenant: string, k: nat, chunk: seq<LegacyRow>, s: Store, t: Store)
    requires !a.execute
    ensures LostIn(a, f, tenant, k, s, chunk) == LostIn(a, f, tenant, k, t, chunk)
  {
  }

  /** After `k` whole batches, none of which halted the walk. */
  ghost predicate OnTheWay(a: Args, f: Faults, tenant: string, work: seq<LegacyRow>, k: nat, x: Image, y: Image) {
    && (forall j :: 0 <= j < k ==> !HaltsAt(a, f, tenant, j, Batch(work, a.batchSize, j)))
    && Walked(a, f, tenant, work, k, x, y)
  }

  lemma WalkBegins(a: Args, f: Faults, tenant: string, work: seq<LegacyRow>, x: Image)
    ensures RowsIn(work, a.batchSize, 0) == 0 && OnTheWay(a, f, tenant, work, 0, x, x)
  {
    hide Walked;
    WalkStarts(a, f, tenant, work, x);
  }

  lemma WalkGoesOn(a: Args, f: Faults, tenant: string, work: seq<LegacyRow>, k: nat, chunk: seq<LegacyRow>, x: Image,
                   y: Image, z: Image)
    requires a.batchSize >= 1 && RowsIn(work, a.batchSize, k) < |work| && OnTheWay(a, f, tenant, work, k, x, y)
    requires chunk != [] && chunk == Batch(work, a.batchSize, k) && BatchTaken(a, f, tenant, k, chunk, y, z)
    ensures if HaltsAt(a, f, tenant, k, chunk)
            then StopsAt(a, f, tenant, work, k) && Halted(a, work, k) && Ended(a, f, tenant, work, k, x, z)
            else OnTheWay(a, f, tenant, work, k + 1, x, z)
  {
    hide Walked, Ended, BatchTaken, RowsIn, HaltsAt, Batch;
    if HaltsAt(a, f, tenant, k, chunk) {
      WalkHalts(a, f, tenant, work, k, x, y, z);
    } else {
      BatchWalked(a, f, tenant, work, k, x, y, z);
    }
  }

  lemma WalkIsDone(a: Args, f: Faults, tenant: string, work: seq<LegacyRow>, k: nat, x: Image, y: Image)
    requires RowsIn(work, a.batchSize, k) == |work| && OnTheWay(a, f, tenant, work, k, x, y)
    ensures StopsAt(a, f, tenant, work, k) && !Halted(a, work, k) && Ended(a, f, tenant, work, k, x, y)
  {
    hide Walked, Ended, RowsIn, HaltsAt, Batch;
    WalkEnds(a, f, tenant, work, k, x, y);
  }

  // ----- Shares of a run

  predicate Unopened(f: Faults, tenant: string) {
    f.opens(tenant) || f.closes(tenant, 0)
  }

  /** What one tenant got of a run: its run in the store model, where it stopped, and its account. */
  datatype Share = Share(run: Run, stop: nat, counted: nat, examined: nat, lost: nat, errors: nat, raised: bool)

  function ShareAt(a: Args, f: Faults, tenant: string, s0: Store, work: seq<LegacyRow>, limit: Option<nat>,
                   stop: nat): Share {
    if Unopened(f, tenant) then
      Share(Run(limit, a.resume, a.batchSize, f.inserts, 0, 0), 0, 0, 0, 0, 0, true)
    else
      Share(Run(limit, a.resume, a.batchSize, f.inserts, CommittedAt(a, f, tenant, work, stop), stop), stop,
            CountedAt(a, f, tenant, work, stop), ExaminedAt(a, f, tenant, work, stop),
            LostAt(a, f, tenant, s0, work, stop), ErrorsAt(a, f, tenant, s0, work, stop), Halted(a, work, stop))
  }

  /** The share is the one the faults allow. */
  ghost predicate Fits(a: Args, f: Faults, tenant: string, s0: Store, work: seq<LegacyRow>, share: Share) {
    && (Unopened(f, tenant) || StopsAt(a, f, tenant, work, share.stop))
    && share == ShareAt(a, f, tenant, s0, work, share.run.limit, share.stop)
  }

  ghost predicate TenantEnded(a: Args, f: Faults, tenant: string, work: seq<LegacyRow>, stop: nat, x: Image, y: Image) {
    if Unopened(f, tenant) then y == x else Ended(a, f, tenant, work, stop, x, y)
  }

  lemma LossWithinExamined(a: Args, f: Faults, tenant: string, k: nat, s: Store, chunk: seq<LegacyRow>)
    ensures LostIn(a, f, tenant, k, s, chunk) <= ExaminedIn(f, tenant, k, chunk)
  {
    InsertedWithin(a.setup, s, chunk[..Handled(f, tenant, k, chunk)], f.inserts);
  }

  lemma {:induction false} InsertedWithin(u: Setup, s: Store, rows: seq<LegacyRow>, fails: set<string>)
    ensures |Inserted(u, s, rows, fails)| <= |rows|
  {
    hide Decide, ApplyAll;
    if rows != [] {
      InsertedWithin(u, s, rows[..|rows| - 1], fails);
    }
  }

  /** A share that did not raise covers its worklist and loses nothing; any share stays within its worklist. */
  lemma ShareFacts(a: Args, f: Faults, tenant: string, s0: Store, work: seq<LegacyRow>, share: Share)
    requires a.batchSize >= 1 && Fits(a, f, tenant, s0, work, share)
    ensures share.lost <= share.examined <= |work|
    ensures Sensible(share.run) && share.run.saved <= share.counted <= share.run.committed
    ensures !share.raised ==>
      && share.lost == 0 && share.examined == |work|
      && RowsIn(work, a.batchSize, share.run.committed) == |work|
      && RowsIn(work, a.batchSize, share.run.saved) == |work|
  {
    hide RowsIn, ExaminedIn, LostIn, Batch, BatchOk, Landed, ApplyAll;
    if !Unopened(f, tenant) && Halted(a, work, share.stop) {
      NextBatch(work, a.batchSize, share.stop);
      var i, chunk := RowsIn(work, a.batchSize, share.stop), Batch(work, a.batchSize, share.stop);
      LossWithinExamined(a, f, tenant, share.stop, ApplyAll(a.setup, s0, work[..i], f.inserts), chunk);
    }
  }

  /** No step of the tenant raises. */
  ghost predicate Quiet(f: Faults, tenant: string, rows: seq<LegacyRow>) {
    && !Unopened(f, tenant)
    && (forall k: nat :: !f.fetches(tenant, k) && f.commits(tenant, k) == Lands && !f.saves(tenant, k))
    && (forall k: nat :: !f.closes(tenant, k))
    && (forall r :: r in rows ==> !f.queries(r.id) && r.id !in f.inserts)
  }

  lemma QuietBatch(a: Args, f: Faults, tenant: string, rows: seq<LegacyRow>, k: nat, chunk: seq<LegacyRow>)
    requires Quiet(f, tenant, rows) && forall r :: r in chunk ==> r in rows
    ensures !HaltsAt(a, f, tenant, k, chunk)
  {
    assert forall r :: r in chunk ==> !f.queries(r.id);
  }

  /** A tenant none of whose steps raises gets its whole worklist done, committed and saved. */
  lemma QuietCompletes(a: Args, f: Faults, tenant: string, rows: seq<LegacyRow>, s0: Store, work: seq<LegacyRow>,
                       share: Share)
    requires a.batchSize >= 1 && Quiet(f, tenant, rows) && (forall r :: r in work ==> r in rows)
    requires Fits(a, f, tenant, s0, work, share)
    ensures !share.raised
  {
    hide RowsIn, HaltsAt, ExaminedIn, LostIn, CommittedAt, CountedAt, ExaminedAt, LostAt;
    QuietBatch(a, f, tenant, rows, share.stop, Batch(work, a.batchSize, share.stop));
  }

  // ----- Shares add up

  /** Rows charged against the limit: those of the tenants that did not raise. */
  function Charged(shares: seq<Share>): nat {
    if shares == [] then 0
    else Charged(shares[..|shares| - 1]) + if shares[|shares| - 1].raised then 0 else shares[|shares| - 1].examined
  }

  /** Rows examined for tenants that raised. */
  function Uncharged(shares: seq<Share>): nat {
    if shares == [] then 0
    else Uncharged(shares[..|shares| - 1]) + if shares[|shares| - 1].raised then shares[|shares| - 1].examined else 0
  }

  function LostBy(shares: seq<Share>): nat {
    if shares == [] then 0 else LostBy(shares[..|shares| - 1]) + shares[|shares| - 1].lost
  }

  /** Failed inserts, and tenants that raised. */
  function ErrorsBy(shares: seq<Share>): nat {
    if shares == [] then 0
    else
      var share := shares[|shares| - 1];
      ErrorsBy(shares[..|shares| - 1]) + share.errors + if share.raised then 1 else 0
  }

  lemma {:induction false} NoErrorsIff(shares: seq<Share>)
    ensures ErrorsBy(shares) == 0 <==> forall k :: 0 <= k < |shares| ==> !shares[k].raised && shares[k].errors == 0
  {
    if shares != [] {
      NoErrorsIff(shares[..|shares| - 1]);
    }
  }

  function Left(limit: Option<nat>, charged: nat): Option<nat> {
    if limit.None? then None else Some(if charged <= limit.value then limit.value - charged else 0)
  }

  /** Each tenant was given what the rows charged before it left of the limit, and kept to it. */
  ghost predicate Metered(limit: Option<nat>, shares: seq<Share>) {
    forall k :: 0 <= k < |shares| ==>
      && shares[k].run.limit == Left(limit, Charged(shares[..k]))
      && (limit.Some? ==> shares[k].examined <= shares[k].run.limit.value)
      && shares[k].lost <= shares[k].examined
      && (!shares[k].raised ==> shares[k].lost == 0)
  }

  lemma MeteredMore(limit: Option<nat>, shares: seq<Share>, share: Share)
    requires Metered(limit, shares) && share.run.limit == Left(limit, Charged(shares))
    requires limit.Some? ==> share.examined <= share.run.limit.value
    requires share.lost <= share.examined && (!share.raised ==> share.lost == 0)
    ensures Metered(limit, shares + [share])
    ensures Charged(shares + [share]) == Charged(shares) + if share.raised then 0 else share.examined
    ensures Uncharged(shares + [share]) == Uncharged(shares) + if share.raised then share.examined else 0
    ensures LostBy(shares + [share]) == LostBy(shares) + share.lost
    ensures ErrorsBy(shares + [share]) == ErrorsBy(shares) + share.errors + if share.raised then 1 else 0
  {
    var more := shares + [share];
    assert more[..|shares|] == shares;
    assert forall k :: 0 <= k < |shares| ==> more[..k] == shares[..k];
  }

  lemma MeteredPrefix(limit: Option<nat>, shares: seq<Share>)
    requires Metered(limit, shares) && shares != []
    ensures Metered(limit, shares[..|shares| - 1])
    ensures limit.Some? ==> shares[|shares| - 1].examined + Charged(shares[..|shares| - 1]) <= limit.value
                            || shares[|shares| - 1].examined == 0
    ensures shares[|shares| - 1].lost <= shares[|shares| - 1].examined
    ensures !shares[|shares| - 1].raised ==> shares[|shares| - 1].lost == 0
  {
    hide Charged;
    var before := shares[..|shares| - 1];
    assert forall k :: 0 <= k < |before| ==> before[..k] == shares[..k];
  }

  /** Metered shares charge no more than the limit, and lose only rows of tenants that raised. */
  lemma {:induction false} MeteredTotals(limit: Option<nat>, shares: seq<Share>)
    requires Metered(limit, shares)
    ensures limit.Some? ==> Charged(shares) <= limit.value
    ensures (forall k :: 0 <= k < |shares| ==> !shares[k].raised) ==> Uncharged(shares) == 0
    ensures LostBy(shares) <= Uncharged(shares)
  {
    hide Metered;
    if shares != [] {
      MeteredPrefix(limit, shares);
      MeteredTotals(limit, shares[..|shares| - 1]);
    }
  }

  /** No tenant examines more than the limit, so a run examines at most the limit for each. */
  lemma {:induction false} MeteredBound(limit: nat, shares: seq<Share>)
    requires Metered(Some(limit), shares)
    ensures Charged(shares) + Uncharged(shares) <= limit * |shares|
  {
    hide Metered;
    if shares != [] {
      MeteredPrefix(Some(limit), shares);
      MeteredBound(limit, shares[..|shares| - 1]);
      assert limit * |shares| == limit * (|shares| - 1) + limit;
    }
  }

  /** The store model's state one tenant starts a run from. */
  function StartAt(x: Image, tenant: string): Progress {
    Progress(StoreOf(x.canonical, tenant), CursorOf(x.cursors, tenant), {})
  }

  function RowsOf(legacy: map<string, seq<LegacyRow>>, tenant: string): seq<LegacyRow> {
    if tenant in legacy then legacy[tenant] else []
  }

  /**
   * One tenant's share of a run, seen at the run's end: its store and its cursor
   * in memory are those of the store model's run, and so is its saved cursor,
   * with `kept` batches saved (a later tenant's save also writes this one's cursor).
   */
  ghost predicate Served(a: Args, f: Faults, rows: seq<LegacyRow>, tenant: string, share: Share, kept: nat, x: Image,
                         y: Image) {
    var p := StartAt(x, tenant);
    && Fits(a, f, tenant, p.store, Worklist(rows, p, share.run), share)
    && (kept == share.run.saved || kept == share.counted)
    && StoreOf(y.canonical, tenant) == Step(a.setup, rows, p, share.run).store
    && CursorOf(y.cursors, tenant) == Step(a.setup, rows, p, share.run.(saved := share.counted)).cursor
    && (a.stateFile && x.saved == x.cursors ==>
          CursorOf(y.saved, tenant) == Step(a.setup, rows, p, share.run.(saved := kept)).cursor)
  }

  ghost predicate Untouched(a: Args, tenant: string, x: Image, y: Image) {
    && StoreOf(y.canonical, tenant) == StoreOf(x.canonical, tenant)
    && CursorOf(y.cursors, tenant) == CursorOf(x.cursors, tenant)
    && (a.stateFile && x.saved == x.cursors ==> CursorOf(y.saved, tenant) == CursorOf(x.saved, tenant))
  }

  /** The keys a tenant's share adds to those counted, or in a dry run to those named. */
  function ClaimsOf(a: Args, f: Faults, tenant: string, s0: Store, work: seq<LegacyRow>, share: Share): seq<Key> {
    if Unopened(f, tenant) then []
    else if a.execute then InsertedKeys(tenant, a.setup, s0, work[..RowsIn(work, a.batchSize, share.counted)],
      f.inserts)
    else WouldKeys(tenant, a.setup, s0, work[..Min(HandledAt(a, f, tenant, work, share.stop), |work|)])
  }

  /** What the shares of a run claim, tenant after tenant, each from where the run began. */
  function Claims(a: Args, f: Faults, legacy: map<string, seq<LegacyRow>>, tenants: seq<string>, shares: seq<Share>,
                  x: Image): seq<Key>
    requires |shares| <= |tenants|
  {
    if shares == [] then []
    else
      var n := |shares| - 1;
      Claims(a, f, legacy, tenants, shares[..n], x) + ShareClaims(a, f, legacy, tenants[n], shares[n], x)
  }

  function ShareClaims(a: Args, f: Faults, legacy: map<string, seq<LegacyRow>>, tenant: string, share: Share,
                       x: Image): seq<Key> {
    var p := StartAt(x, tenant);
    ClaimsOf(a, f, tenant, p.store, Worklist(RowsOf(legacy, tenant), p, share.run), share)
  }

  /** In a dry run every share is the one its faults allow, from where the run began, and exactly its rows are named. */
  ghost predicate DryShared(a: Args, f: Faults, legacy: map<string, seq<LegacyRow>>, tenants: seq<string>,
                            shares: seq<Share>, x: Image, y: Image) {
    && |shares| <= |tenants|
    && (forall k :: 0 <= k < |shares| ==> FitsFrom(a, f, legacy, tenants[k], shares[k], x))
    && y == x.(would := y.would, examined := y.examined, lost := y.lost, errors := y.errors)
    && y.would == x.would + Claims(a, f, legacy, tenants, shares, x)
  }

  ghost predicate FitsFrom(a: Args, f: Faults, legacy: map<string, seq<LegacyRow>>, tenant: string, share: Share,
                           x: Image) {
    var p := StartAt(x, tenant);
    Fits(a, f, tenant, p.store, Worklist(RowsOf(legacy, tenant), p, share.run), share)
  }

  /** Every tenant reached was served from where the run began, and no other tenant has been touched. */
  ghost predicate Shared(a: Args, f: Faults, legacy: map<string, seq<LegacyRow>>, tenants: seq<string>,
                         shares: seq<Share>, kept: seq<nat>, x: Image, y: Image) {
    && |shares| == |kept| <= |tenants|
    && (forall k :: 0 <= k < |shares| ==>
      Served(a, f, RowsOf(legacy, tenants[k]), tenants[k], shares[k], kept[k], x, y))
    && (forall t :: t !in tenants[..|shares|] ==> Untouched(a, t, x, y))
    && y.counted == x.counted + Claims(a, f, legacy, tenants, shares, x) && y.would == x.would
    && (!a.stateFile ==> y.saved == x.saved)
  }

  lemma WorklistIgnoresSaves(rows: seq<LegacyRow>, p: Progress, run: Run, saved: nat)
    ensures Worklist(rows, p, run.(saved := saved)) == Worklist(rows, p, run)
  {
    hide Orphans, Remaining, Limited;
  }

  lemma StepFields(u: Setup, rows: seq<LegacyRow>, p: Progress, run: Run, saved: nat)
    ensures var work, m := Worklist(rows, p, run), RowsIn(Worklist(rows, p, run), run.batchSize, saved);
      && Step(u, rows, p, run).store
        == ApplyAll(u, p.store, work[..RowsIn(work, run.batchSize, run.committed)], run.fails)
      && Step(u, rows, p, run.(saved := saved)).cursor == (if m == 0 then p.cursor else Some(work[m - 1].id))
  {
    hide Worklist, RowsIn, ApplyAll;
    WorklistIgnoresSaves(rows, p, run, saved);
  }

  /** A tenant's walk ends as its run in the store model does. */
  lemma ExecutedIsStep(a: Args, f: Faults, rows: seq<LegacyRow>, tenant: string, share: Share, y: Image, z: Image)
    requires a.execute
    requires var p := StartAt(y, tenant); var work := Worklist(rows, p, share.run);
      Fits(a, f, tenant, p.store, work, share) && TenantEnded(a, f, tenant, work, share.stop, y, z)
    ensures var p := StartAt(y, tenant);
      && StoreOf(z.canonical, tenant) == Step(a.setup, rows, p, share.run).store
      && CursorOf(z.cursors, tenant) == Step(a.setup, rows, p, share.run.(saved := share.counted)).cursor
      && (a.stateFile && CursorOf(y.saved, tenant) == p.cursor ==>
            CursorOf(z.saved, tenant) == Step(a.setup, rows, p, share.run).cursor)
  {
    hide ApplyAll, Step, Worklist, Batch, BatchOk, Landed, LostAt, ExaminedAt, CommittedAt, CountedAt, StopsAt,
      CountsStand;
    var p := StartAt(y, tenant);
    var work := Worklist(rows, p, share.run);
    StepFields(a.setup, rows, p, share.run, share.counted);
    StepFields(a.setup, rows, p, share.run, share.run.saved);
    assert share.run.(saved := share.run.saved) == share.run;
    if Unopened(f, tenant) {
      EmptyPass(a.setup, p.store, work, f.inserts, tenant);
    }
  }

  /** A tenant's walk leaves the others alone, except that a save writes their cursors too. */
  lemma ExecutedLeavesOthers(a: Args, f: Faults, tenant: string, work: seq<LegacyRow>, stop: nat, y: Image, z: Image,
                             t: string)
    requires a.execute && TenantEnded(a, f, tenant, work, stop, y, z) && t != tenant
    ensures StoreOf(z.canonical, t) == StoreOf(y.canonical, t) && CursorOf(z.cursors, t) == CursorOf(y.cursors, t)
    ensures CursorOf(z.saved, t) == if z.saved == y.saved then CursorOf(y.saved, t) else CursorOf(y.cursors, t)
  {
    hide ApplyAll, Batch, BatchOk, Landed, LostAt, ExaminedAt, CommittedAt, CountedAt, CountsStand;
  }

  /** Seen after one more tenant, an earlier one is as it was, its cursor perhaps saved further. */
  lemma ServedStill(a: Args, f: Faults, rows: seq<LegacyRow>, t: string, share: Share, kept: nat, x: Image, y: Image,
                    z: Image)
    requires Served(a, f, rows, t, share, kept, x, y)
    requires StoreOf(z.canonical, t) == StoreOf(y.canonical, t) && CursorOf(z.cursors, t) == CursorOf(y.cursors, t)
    requires CursorOf(z.saved, t) == if z.saved == y.saved then CursorOf(y.saved, t) else CursorOf(y.cursors, t)
    ensures Served(a, f, rows, t, share, if z.saved == y.saved then kept else share.counted, x, z)
  {
    hide Fits, Step, StoreOf, CursorOf, Worklist;
  }

  lemma OneMoreTenant(a: Args, f: Faults, legacy: map<string, seq<LegacyRow>>, tenants: seq<string>,
                      shares: seq<Share>, kept: seq<nat>, share: Share, x: Image, y: Image, z: Image)
    returns (more: seq<nat>)
    requires a.execute && Distinct(tenants) && |shares| < |tenants| && Shared(a, f, legacy, tenants, shares, kept, x, y)
    requires var tenant := tenants[|shares|]; var p := StartAt(y, tenant); var work := Worklist(RowsOf(legacy, tenant),
      p, share.run);
      Fits(a, f, tenant, p.store, work, share) && TenantEnded(a, f, tenant, work, share.stop, y, z)
    ensures Shared(a, f, legacy, tenants, shares + [share], more, x, z)
    ensures |more| > 0 && more[|more| - 1] == share.run.saved
  {
    hide Fits, TenantEnded, Step, StoreOf, CursorOf, Worklist, Served, Untouched, RowsOf, Claims;
    var n, tenant := |shares|, tenants[|shares|];
    var p, rows := StartAt(y, tenant), RowsOf(legacy, tenant);
    var work := Worklist(rows, p, share.run);
    assert tenant !in tenants[..n];
    StartUntouched(a, tenant, x, y);
    more := seq(n, i requires 0 <= i < n => if z.saved == y.saved then kept[i] else shares[i].counted)
      + [share.run.saved];
    forall k | 0 <= k < n ensures Served(a, f, RowsOf(legacy, tenants[k]), tenants[k], shares[k], more[k], x, z) {
      assert tenants[k] != tenant;
      ExecutedLeavesOthers(a, f, tenant, work, share.stop, y, z, tenants[k]);
      ServedStill(a, f, RowsOf(legacy, tenants[k]), tenants[k], shares[k], kept[k], x, y, z);
    }
    ServedNow(a, f, rows, tenant, share, x, y, z);
    assert Shared(a, f, legacy, tenants, shares, kept, x, y);
    MoreClaims(a, f, legacy, tenants, shares, share, x, y, z);
    assert tenants[..n + 1] == tenants[..n] + [tenant];
    forall t | t !in tenants[..n + 1] ensures Untouched(a, t, x, z) {
      ExecutedLeavesOthers(a, f, tenant, work, share.stop, y, z, t);
      StillUntouched(a, t, x, y, z);
    }
  }

  /** What one tenant's share adds to the accounts. */
  lemma TenantAccount(a: Args, f: Faults, tenant: string, work: seq<LegacyRow>, share: Share, x: Image, y: Image)
    requires Fits(a, f, tenant, StoreOf(x.canonical, tenant), work, share)
      && TenantEnded(a, f, tenant, work, share.stop, x, y)
    ensures y.examined == x.examined + share.examined && y.lost == x.lost + share.lost
      && y.errors == x.errors + share.errors
    ensures var claims := ClaimsOf(a, f, tenant, StoreOf(x.canonical, tenant), work, share);
      && (a.execute ==> y.counted == x.counted + claims && y.would == x.would && (!a.stateFile ==> y.saved == x.saved))
      && (!a.execute ==>
            && y == x.(would := y.would, examined := y.examined, lost := y.lost, errors := y.errors)
            && y.would == x.would + claims)
  {
    hide StopsAt, StoreStands, CommittedAt, CountedAt, ExaminedAt, LostAt, HandledAt, RowsIn, WouldKeys, InsertedKeys,
      FailedInserts;
  }

  lemma MoreClaims(a: Args, f: Faults, legacy: map<string, seq<LegacyRow>>, tenants: seq<string>,
                   shares: seq<Share>, share: Share, x: Image, y: Image, z: Image)
    requires |shares| < |tenants| && StartAt(x, tenants[|shares|]) == StartAt(y, tenants[|shares|])
    requires var tenant := tenants[|shares|]; var p := StartAt(y, tenant); var work := Worklist(RowsOf(legacy, tenant),
      p, share.run);
      Fits(a, f, tenant, p.store, work, share) && TenantEnded(a, f, tenant, work, share.stop, y, z)
    ensures a.execute && y.counted == x.counted + Claims(a, f, legacy, tenants, shares, x) && y.would == x.would ==>
      z.counted == x.counted + Claims(a, f, legacy, tenants, shares + [share], x) && z.would == x.would
    ensures !a.execute && y.would == x.would + Claims(a, f, legacy, tenants, shares, x) ==>
      z.would == x.would + Claims(a, f, legacy, tenants, shares + [share], x)
    ensures a.execute && !a.stateFile ==> z.saved == y.saved
  {
    hide Fits, TenantEnded, StoreOf, CursorOf, Worklist, RowsOf, ClaimsOf;
    var tenant := tenants[|shares|];
    var work := Worklist(RowsOf(legacy, tenant), StartAt(y, tenant), share.run);
    TenantAccount(a, f, tenant, work, share, y, z);
    assert (shares + [share])[..|shares|] == shares;
    var p, q := Claims(a, f, legacy, tenants, shares, x), ShareClaims(a, f, legacy, tenant, share, x);
    assert x.counted + (p + q) == (x.counted + p) + q && x.would + (p + q) == (x.would + p) + q;
  }

  lemma StartUntouched(a: Args, tenant: string, x: Image, y: Image)
    requires Untouched(a, tenant, x, y)
    ensures StartAt(x, tenant) == StartAt(y, tenant)
    ensures a.stateFile && x.saved == x.cursors ==> CursorOf(y.saved, tenant) == StartAt(y, tenant).cursor
  {
  }

  lemma StillUntouched(a: Args, t: string, x: Image, y: Image, z: Image)
    requires Untouched(a, t, x, y)
    requires StoreOf(z.canonical, t) == StoreOf(y.canonical, t) && CursorOf(z.cursors, t) == CursorOf(y.cursors, t)
    requires CursorOf(z.saved, t) == if z.saved == y.saved then CursorOf(y.saved, t) else CursorOf(y.cursors, t)
    ensures Untouched(a, t, x, z)
  {
    hide StoreOf, CursorOf;
  }

  lemma ServedNow(a: Args, f: Faults, rows: seq<LegacyRow>, tenant: string, share: Share, x: Image, y: Image, z: Image)
    requires a.execute && Untouched(a, tenant, x, y)
    requires var p := StartAt(y, tenant); var work := Worklist(rows, p, share.run);
      Fits(a, f, tenant, p.store, work, share) && TenantEnded(a, f, tenant, work, share.stop, y, z)
    ensures Served(a, f, rows, tenant, share, share.run.saved, x, z)
  {
    hide Fits, TenantEnded, Step, StoreOf, CursorOf, Worklist, Untouched;
    StartUntouched(a, tenant, x, y);
    ExecutedIsStep(a, f, rows, tenant, share, y, z);
    assert share.run.(saved := share.run.saved) == share.run;
  }

  /** A tenant's run before it is known how far it gets. */
  function RunFor(a: Args, f: Faults, limit: Option<nat>): Run {
    Run(limit, a.resume, a.batchSize, f.inserts, 0, 0)
  }

  lemma ShareIs(a: Args, f: Faults, tenant: string, rows: seq<LegacyRow>, limit: Option<nat>, stop: nat, n: nat,
                raised: bool, x: Image, y: Image)
    requires a.batchSize >= 1
    requires var work := Worklist(rows, StartAt(x, tenant), RunFor(a, f, limit));
      && (raised <==> Unopened(f, tenant) || Halted(a, work, stop)) && (!raised ==> n == |work|)
      && (if Unopened(f, tenant) then stop == 0 && y == x
          else StopsAt(a, f, tenant, work, stop) && Ended(a, f, tenant, work, stop, x, y))
    ensures var s0 := StoreOf(x.canonical, tenant);
      var share := ShareAt(a, f, tenant, s0, Worklist(rows, StartAt(x, tenant), RunFor(a, f, limit)), limit, stop);
      var work := Worklist(rows, StartAt(x, tenant), share.run);
      && share.run.limit == limit && raised == share.raised && (!raised ==> n == share.examined)
      && Fits(a, f, tenant, s0, work, share) && TenantEnded(a, f, tenant, work, share.stop, x, y)
      && (Quiet(f, tenant, rows) ==> !raised)
  {
    hide Orphans, Remaining, Limited, Halted, StopsAt, Ended, CommittedAt, CountedAt, ExaminedAt, LostAt, Quiet,
      CursorOf, StoreOf, RowsIn;
    var s0, guess := StoreOf(x.canonical, tenant), Worklist(rows, StartAt(x, tenant), RunFor(a, f, limit));
    var share := ShareAt(a, f, tenant, s0, guess, limit, stop);
    var work := Worklist(rows, StartAt(x, tenant), share.run);
    assert work == guess;
    ShareFacts(a, f, tenant, s0, work, share);
    if Quiet(f, tenant, rows) {
      WorkIsLegacy(rows, StartAt(x, tenant), share.run);
      QuietCompletes(a, f, tenant, rows, s0, work, share);
    }
  }

  lemma WorkIsLegacy(rows: seq<LegacyRow>, p: Progress, run: Run)
    ensures forall r :: r in Worklist(rows, p, run) ==> r in rows
  {
    hide FirstIndex;
  }

  // ----- Whole runs

  /**
   * A run after the shares of some of its tenants: rows examined are those
   * charged against the limit and those of tenants that raised, rows lost are
   * the shares' losses, errors are failed inserts and tenants that raised, and
   * every tenant stands where its share left it.
   */
  ghost predicate RunSoFar(a: Args, f: Faults, legacy: map<string, seq<LegacyRow>>, tenants: seq<string>,
                           shares: seq<Share>, kept: seq<nat>, x: Image, y: Image) {
    && |shares| <= |tenants| && Metered(a.limit, shares)
    && y.examined == x.examined + Charged(shares) + Uncharged(shares)
    && y.lost == x.lost + LostBy(shares)
    && y.errors == x.errors + ErrorsBy(shares)
    && (a.execute && Distinct(tenants) ==> Shared(a, f, legacy, tenants, shares, kept, x, y))
    && (!a.execute ==> DryShared(a, f, legacy, tenants, shares, x, y))
  }

  lemma RunBegins(a: Args, f: Faults, legacy: map<string, seq<LegacyRow>>, tenants: seq<string>, x: Image)
    ensures RunSoFar(a, f, legacy, tenants, [], [], x, x) && Charged([]) == 0
  {
  }

  /** The run counts a tenant that raised as one more error. */
  function Charge(z: Image, share: Share): Image {
    z.(errors := z.errors + if share.raised then 1 else 0)
  }

  lemma RunGoesOn(a: Args, f: Faults, legacy: map<string, seq<LegacyRow>>, tenants: seq<string>,
                  shares: seq<Share>, kept: seq<nat>, share: Share, x: Image, y: Image, z: Image)
    returns (more: seq<nat>)
    requires a.batchSize >= 1 && |shares| < |tenants| && RunSoFar(a, f, legacy, tenants, shares, kept, x, y)
    requires share.run.limit == Left(a.limit, Charged(shares))
    requires var tenant := tenants[|shares|]; var p := StartAt(y, tenant); var work := Worklist(RowsOf(legacy, tenant),
      p, share.run);
      Fits(a, f, tenant, p.store, work, share) && TenantEnded(a, f, tenant, work, share.stop, y, z)
    ensures RunSoFar(a, f, legacy, tenants, shares + [share], more, x, Charge(z, share))
    ensures Charged(shares + [share]) == Charged(shares) + if share.raised then 0 else share.examined
  {
    hide Fits, TenantEnded, Worklist, RowsOf, Shared, DryShared, Distinct, StoreOf, CursorOf, Metered, ClaimsOf,
      Charged, Uncharged, LostBy, ErrorsBy;
    var tenant := tenants[|shares|];
    var work := Worklist(RowsOf(legacy, tenant), StartAt(y, tenant), share.run);
    TenantAccount(a, f, tenant, work, share, y, z);
    ShareFacts(a, f, tenant, StoreOf(y.canonical, tenant), work, share);
    WorklistWithinLimit(RowsOf(legacy, tenant), StartAt(y, tenant), share.run);
    MeteredMore(a.limit, shares, share);
    more := [];
    if !a.execute {
      MoreDry(a, f, legacy, tenants, shares, share, x, y, z);
    } else if Distinct(tenants) {
      more := OneMoreTenant(a, f, legacy, tenants, shares, kept, share, x, y, z);
    }
    ErrorsAside(a, f, legacy, tenants, shares + [share], more, x, z, Charge(z, share));
  }

  lemma ErrorsAside(a: Args, f: Faults, legacy: map<string, seq<LegacyRow>>, tenants: seq<string>,
                    shares: seq<Share>, kept: seq<nat>, x: Image, y: Image, z: Image)
    requires z == y.(errors := z.errors)
    ensures Shared(a, f, legacy, tenants, shares, kept, x, y) ==> Shared(a, f, legacy, tenants, shares, kept, x, z)
    ensures DryShared(a, f, legacy, tenants, shares, x, y) ==> DryShared(a, f, legacy, tenants, shares, x, z)
  {
    hide Fits, FitsFrom, Step, Worklist, RowsOf, Claims;
  }

  lemma MoreDry(a: Args, f: Faults, legacy: map<string, seq<LegacyRow>>, tenants: seq<string>,
                shares: seq<Share>, share: Share, x: Image, y: Image, z: Image)
    requires !a.execute && |shares| < |tenants| && DryShared(a, f, legacy, tenants, shares, x, y)
    requires var tenant := tenants[|shares|]; var p := StartAt(y, tenant); var work := Worklist(RowsOf(legacy, tenant),
      p, share.run);
      Fits(a, f, tenant, p.store, work, share) && TenantEnded(a, f, tenant, work, share.stop, y, z)
    ensures DryShared(a, f, legacy, tenants, shares + [share], x, z)
  {
    hide Fits, TenantEnded, Worklist, RowsOf, StoreOf, CursorOf, Claims, ClaimsOf;
    var tenant := tenants[|shares|];
    assert StartAt(x, tenant) == StartAt(y, tenant);
    TenantAccount(a, f, tenant, Worklist(RowsOf(legacy, tenant), StartAt(y, tenant), share.run), share, y, z);
    MoreClaims(a, f, legacy, tenants, shares, share, x, y, z);
  }

  lemma {:induction false} NoFailedInserts(u: Setup, s: Store, rows: seq<LegacyRow>, fails: set<string>)
    requires forall r :: r in rows ==> r.id !in fails
    ensures FailedInserts(u, s, rows, fails) == 0
  {
    hide Decide, ApplyAll;
    if rows != [] {
      NoFailedInserts(u, s, rows[..|rows| - 1], fails);
    }
  }

  /** A tenant none of whose steps raises has no error to its account. */
  lemma QuietShare(a: Args, f: Faults, legacy: map<string, seq<LegacyRow>>, tenant: string, share: Share, x: Image)
    requires a.batchSize >= 1 && Quiet(f, tenant, RowsOf(legacy, tenant)) && FitsFrom(a, f, legacy, tenant, share, x)
    ensures !share.raised && share.errors == 0
  {
    hide Worklist, RowsOf, StopsAt, ExaminedAt, LostAt, CommittedAt, CountedAt, HandledAt;
    var rows, p := RowsOf(legacy, tenant), StartAt(x, tenant);
    var work := Worklist(rows, p, share.run);
    WorkIsLegacy(rows, p, share.run);
    QuietCompletes(a, f, tenant, rows, p.store, work, share);
    NoFailedInserts(a.setup, p.store, work[..Min(HandledAt(a, f, tenant, work, share.stop), |work|)], f.inserts);
  }

  /** Every tenant is spared. */
  ghost predicate AllQuiet(f: Faults, legacy: map<string, seq<LegacyRow>>, tenants: seq<string>) {
    forall t :: t in tenants ==> Quiet(f, t, RowsOf(legacy, t))
  }

  lemma RunShareFits(a: Args, f: Faults, legacy: map<string, seq<LegacyRow>>, tenants: seq<string>,
                     shares: seq<Share>, kept: seq<nat>, x: Image, y: Image, k: nat)
    requires RunSoFar(a, f, legacy, tenants, shares, kept, x, y) && (a.execute ==> Distinct(tenants)) && k < |shares|
    ensures FitsFrom(a, f, legacy, tenants[k], shares[k], x)
  {
    hide Fits, Step, Worklist, RowsOf, Claims, StoreOf, CursorOf, Metered;
    if a.execute {
      assert Served(a, f, RowsOf(legacy, tenants[k]), tenants[k], shares[k], kept[k], x, y);
    }
  }

  /** When no step of any tenant raises, dry or not, the limit holds, nothing is lost and nothing is in error. */
  lemma QuietRun(a: Args, f: Faults, legacy: map<string, seq<LegacyRow>>, tenants: seq<string>,
                 shares: seq<Share>, kept: seq<nat>, x: Image, y: Image)
    requires a.batchSize >= 1 && (a.execute ==> Distinct(tenants)) && AllQuiet(f, legacy, tenants)
    requires RunSoFar(a, f, legacy, tenants, shares, kept, x, y)
    ensures forall k :: 0 <= k < |shares| ==> !shares[k].raised
    ensures a.limit.Some? ==> y.examined - x.examined <= a.limit.value
    ensures y.lost == x.lost && y.errors == x.errors
  {
    hide Quiet, FitsFrom, Charged, Uncharged, LostBy, ErrorsBy, Metered, Shared, DryShared;
    forall k | 0 <= k < |shares| ensures !shares[k].raised && shares[k].errors == 0 {
      RunShareFits(a, f, legacy, tenants, shares, kept, x, y, k);
      QuietShare(a, f, legacy, tenants[k], shares[k], x);
    }
    RunTotals(a, f, legacy, tenants, shares, kept, x, y);
    NoErrorsIff(shares);
  }

  /** The limit is exceeded exactly when the tenants that raised examined more than the others left of it. */
  lemma RunTotals(a: Args, f: Faults, legacy: map<string, seq<LegacyRow>>, tenants: seq<string>,
                  shares: seq<Share>, kept: seq<nat>, x: Image, y: Image)
    requires RunSoFar(a, f, legacy, tenants, shares, kept, x, y)
    ensures y.examined == x.examined + Charged(shares) + Uncharged(shares)
    ensures y.lost == x.lost + LostBy(shares) && y.errors == x.errors + ErrorsBy(shares)
    ensures a.limit.Some? ==>
      && Charged(shares) <= a.limit.value
      && (y.examined - x.examined > a.limit.value <==> Uncharged(shares) > a.limit.value - Charged(shares))
      && y.examined - x.examined <= a.limit.value * |shares|
    ensures (forall k :: 0 <= k < |shares| ==> !shares[k].raised) ==> Uncharged(shares) == 0 && y.lost == x.lost
  {
    hide Shared, DryShared, Charged, Uncharged, LostBy, ErrorsBy, Metered;
    MeteredTotals(a.limit, shares);
    if a.limit.Some? {
      MeteredBound(a.limit.value, shares);
    }
  }

  lemma ChargedWithin(a: Args, f: Faults, legacy: map<string, seq<LegacyRow>>, tenants: seq<string>,
                      shares: seq<Share>, kept: seq<nat>, x: Image, y: Image)
    requires RunSoFar(a, f, legacy, tenants, shares, kept, x, y)
    ensures a.limit.Some? ==> Charged(shares) <= a.limit.value
  {
    hide Shared, DryShared, Metered, Charged, Uncharged, LostBy, ErrorsBy;
    MeteredTotals(a.limit, shares);
  }
}
