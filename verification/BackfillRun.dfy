/**
 * The script's own state and steps: batches in transactions, each insert in a
 * savepoint, successes buffered until the outer commit lands, counters, the
 * audit report and the resume cursor. Every step that changes anything is
 * recorded, so that what is claimed holds wherever a run is cut off.
 */
module BackfillRun {
  import opened Common
  import opened Canonical
  import opened Reconstruction
  import opened BackfillRules
  import opened BackfillResume
  import opened BackfillSteps

  /** Status first, then proof by hash, then the two conflict checks. */
  method Judge(u: Setup, store: Store, row: LegacyRow) returns (d: Decision)
    ensures d == Decide(u, store, row)
    ensures d.Write? ==> FaithfulTwin(u.x, d.row, row) && row.id !in store && !KeyTaken(store, d.row.idempotencyKey)
    ensures d.Write? ==>
      && (d.row.event.status == Rejected <==> row.validationStatus == "rejected")
      && (d.row.event.status == Superseded <==>
            row.validationStatus != "rejected" && exists k :: k in store && store[k].supersedes == Some(row.id))
      && (d.row.event.status == Active <==>
            row.validationStatus != "rejected" && forall k :: k in store ==> store[k].supersedes != Some(row.id))
      && (d.assumed <==> d.row.event.status == Active)
    ensures d.Write? ==>
      && d.row
        == CanonicalRow(d.row.event, row.sha256, row.chainHash, IdempotencyKey(u.x, d.row.event), row.ingestedAt, None)
      && Reconstruct(u.x, row, d.row.event.status) == Proven(d.row.event, d.shape, d.productNulled)
    ensures var r := Reconstruct(u.x, row, Active);
      var ambiguous := u.refuseAssumed && row.validationStatus != "rejected"
                       && forall k :: k in store ==> store[k].supersedes != Some(row.id);
      var taken := r.Proven? && exists k :: k in store && store[k].idempotencyKey == IdempotencyKey(u.x, r.event);
      && (d == Decision.Skip(StatusAmbiguous) <==> ambiguous)
      && (d == Decision.Skip(EventIdTaken) <==> !ambiguous && r.Proven? && row.id in store)
      && (d == Decision.Skip(IdempotencyCollision) <==> !ambiguous && row.id !in store && taken)
      && (d.Write? <==> !ambiguous && r.Proven? && row.id !in store && !taken)
      && (!ambiguous && r.Refused? ==> d == Decision.Skip(r.reason))
  {
    RefusalSays(u, store, row);
    if Decide(u, store, row).Write? {
      StatusSays(u, store, row);
      WriteSays(u, store, row);
      WritesFaithfulTwin(u, store, row);
    }
    d := Examine(u, store, row);
  }

  method Examine(u: Setup, store: Store, row: LegacyRow) returns (d: Decision)
    ensures d == Decide(u, store, row)
    ensures d.Write? ==> row.id !in store && !KeyTaken(store, d.row.idempotencyKey)
  {
    hide Reconstruct;
    var (status, assumed) := ResolveStatus(store, row);
    if assumed && u.refuseAssumed {
      return Decision.Skip(StatusAmbiguous);
    }
    var outcome := RunReconstruct(u.x, row, status);
    if outcome.Refused? {
      return Decision.Skip(outcome.reason);
    }
    var c := CanonicalOf(u.x, row, outcome.event);
    if row.id in store {
      return Decision.Skip(EventIdTaken);
    }
    if KeyTaken(store, c.idempotencyKey) {
      return Decision.Skip(IdempotencyCollision);
    }
    return Write(c, outcome.shape, outcome.productNulled, assumed);
  }

  class Backfill {
    const args: Args
    const faults: Faults
    const legacy: map<string, seq<LegacyRow>>

    var canonical: Stores            // committed rows
    var working: Store               // what the open transaction sees
    var pending: seq<Pending>        // inserted in the open transaction, not yet counted
    var summary: Summary
    var report: seq<Record>
    var cursors: map<string, string>
    var saved: map<string, string>   // the state file

    ghost var counted: seq<Key>      // rows counted as backfilled, in order
    ghost var would: seq<Key>        // rows a dry run counted, in order
    ghost var lost: nat              // rows examined in batches that raised and never accounted for
    ghost var trace: seq<Snapshot>

    ghost function Now(): Snapshot
      reads `canonical, `counted, `report
    {
      Snapshot(canonical, counted, report)
    }

    ghost predicate Sound()
      reads `canonical, `counted, `report, `trace, `would, `pending
    {
      && args.batchSize >= 1
      && Honest(Now())
      && Past(trace, canonical)
      && (if args.execute then would == [] else counted == [] && pending == [])
    }

    ghost predicate Accounted(inHand: nat)
      reads `summary, `counted, `would, `lost, `pending
    {
      Balanced(summary, |counted| + |would|, lost, |pending|, inHand)
    }

    ghost predicate Valid()
      reads `canonical, `counted, `report, `trace, `would, `pending, `summary, `lost
    {
      Sound() && Accounted(0)
    }

    lemma SomeBatchSize()
      requires Valid()
      ensures args.batchSize >= 1
    {
    }

    /** A report, when there is one, claims exactly the rows counted, and refuses for the reasons counted. */
    ghost predicate Told()
      reads `report, `counted, `summary
    {
      args.reporting ==> Reported(report) == (set key | key in counted) && Tallied(report, summary)
    }

    ghost function DeskNow(): Desk
      reads `working, `pending, `summary, `report, `would
    {
      Desk(working, pending, summary, report, would)
    }

    ghost function Seen(): Image
      reads `canonical, `cursors, `saved, `counted, `would, `summary, `lost
    {
      Image(canonical, cursors, saved, counted, would, summary.examined, lost, summary.errors)
    }

    constructor (args: Args, faults: Faults, legacy: map<string, seq<LegacyRow>>,
                 canonical: Stores, saved: map<string, string>)
      requires args.batchSize >= 1
      ensures Valid()
      ensures this.args == args && this.faults == faults && this.legacy == legacy
      ensures Seen() == Image(canonical, if args.stateFile then saved else map[], saved, [], [], 0, 0, 0)
      ensures report == [] && trace == [] && pending == [] && Told()
      ensures summary == Summary(0, 0, 0, 0, 0, 0, 0, multiset{}, multiset{})
    {
      this.args, this.faults, this.legacy := args, faults, legacy;
      this.canonical, this.saved := canonical, saved;
      this.cursors := if args.stateFile then saved else map[];
      working, pending, report := map[], [], [];
      summary := Summary(0, 0, 0, 0, 0, 0, 0, multiset{}, multiset{});
      counted, would, lost, trace := [], [], 0, [];
    }

    // ----- Single steps, each one an instant at which the run may be cut off

    /** Records the instant. */
    ghost method Tick()
      requires Sound()
      modifies `trace
      ensures Sound()
      ensures trace == old(trace) + [Now()]
    {
      hide Honest, Past;
      PastExtends(trace, Now());
      trace := trace + [Now()];
    }

    /** Appends one audit record, when a report was asked for. */
    method Emit(r: Record)
      requires Sound()
      requires r.Backfilled? ==> Durable(canonical, r.key)
      modifies `report, `trace
      ensures Sound()
      ensures report == Logged(args, old(report), r)
      ensures trace == old(trace) + [Now()]
    {
      hide Honest, Past, Durable;
      if args.reporting {
        HonestEmit(Now(), r);
        report := report + [r];
      }
      Tick();
    }

    /** Counts the row in hand as refused and reports it. */
    method Skip(key: Key, reason: Reason)
      requires Sound() && Accounted(1)
      modifies `summary, `report, `trace
      ensures Valid()
      ensures summary == old(summary).Skip(reason)
      ensures report == Logged(args, old(report), Skipped(key, reason))
      ensures old(trace) < trace
    {
      hide Honest, Past, Balanced;
      BalancedSteps(summary, |counted| + |would|, lost, |pending|, 1, reason, Neither);
      summary := summary.Skip(reason);
      Tick();
      Emit(Skipped(key, reason));
    }

    /** A dry run counts and reports the row in hand at once. */
    method CountWould(key: Key, shape: Shape)
      requires Sound() && Accounted(1) && !args.execute
      modifies `summary, `would, `report, `trace
      ensures Valid()
      ensures would == old(would) + [key]
      ensures summary == old(summary).Backfill(shape)
      ensures report == Logged(args, old(report), WouldBackfillRow(key))
      ensures old(trace) < trace
    {
      hide Honest, Past, Balanced;
      BalancedSteps(summary, |counted| + |would|, lost, |pending|, 1, InsertFailed, shape);
      summary := summary.Backfill(shape);
      would := would + [key];
      Tick();
      Emit(WouldBackfillRow(key));
    }

    /** Counts and reports the oldest buffered success, whose row is durable by now. */
    method ApplyOldest()
      requires Valid() && pending != [] && args.execute
      requires Durable(canonical, pending[0].key)
      modifies `summary, `counted, `pending, `report, `trace
      ensures Valid()
      ensures pending == old(pending)[1..]
      ensures counted == old(counted) + [old(pending)[0].key]
      ensures summary == old(summary).Backfill(old(pending)[0].shape)
      ensures report == Logged(args, old(report), Backfilled(old(pending)[0].key))
      ensures old(trace) < trace
    {
      hide Honest, Past, Durable, Balanced;
      var item := pending[0];
      BalancedSteps(summary, |counted| + |would|, lost, |pending|, 0, InsertFailed, item.shape);
      HonestCount(Now(), item.key);
      pending := pending[1..];
      summary := summary.Backfill(item.shape);
      counted := counted + [item.key];
      Tick();
      Emit(Backfilled(item.key));
    }

    /** The outer commit: the transaction's view becomes the durable store. */
    method Commit(tenant: string)
      requires Valid()
      requires Kept(canonical, canonical[tenant := working])
      modifies `canonical, `trace
      ensures Valid()
      ensures canonical == old(canonical)[tenant := working]
      ensures trace == old(trace) + [Now()]
    {
      hide Honest, Past, Kept, Balanced;
      PastSurvivesCommit(Now(), trace, canonical[tenant := working]);
      canonical := canonical[tenant := working];
      Tick();
    }

    /** The session's close raised: the buffer goes with the exception. */
    method Discard()
      requires Valid()
      modifies `pending, `lost
      ensures Valid()
      ensures pending == []
      ensures lost == old(lost) + |old(pending)|
    {
      hide Honest, Past, Balanced;
      BalancedSteps(summary, |counted| + |would|, lost, |pending|, 0, InsertFailed, Neither);
      lost := lost + |pending|;
      pending := [];
    }

    /** The outer rollback: buffered successes are dropped and reported as rolled back. */
    method Rollback()
      requires Valid()
      modifies `pending, `lost, `report, `trace
      ensures Valid()
      ensures pending == []
      ensures lost == old(lost) + |old(pending)|
      ensures old(trace) <= trace
      ensures report == if old(pending) != [] then Logged(args, old(report), RolledBack(PendingKeys(old(pending))))
        else old(report)
    {
      hide Honest, Past, Balanced;
      var dropped := PendingKeys(pending);
      Discard();
      if dropped != [] {
        Emit(RolledBack(dropped));
      }
    }

    // ----- One row

    /** Decides one row against what the transaction sees, and inserts it in its savepoint when it may be written. */
    method ProcessRow(tenant: string, row: LegacyRow) returns (raised: bool)
      requires Valid()
      modifies `working, `pending, `summary, `report, `would, `lost, `trace
      ensures Valid() && old(trace) <= trace
      ensures raised <==> faults.queries(row.id)
      ensures DeskNow() == if raised then old(DeskNow()).(summary := old(summary).Examine())
                           else HandleRow(args, faults, tenant, old(DeskNow()), row)
      ensures lost == old(lost) + if raised then 1 else 0
    {
      hide Sound, Balanced, Decide, Reconstruct, FaithfulTwin, KeyTaken, IdempotencyKey;
      TakeUp();
      var key := Key(tenant, row.id);
      if faults.queries(row.id) {
        Abandon();
        return true;
      }
      raised := false;
      var d := Judge(args.setup, working, row);
      if d.Skip? {
        Skip(key, d.reason);
      } else if !args.execute {
        CountWould(key, d.shape);
      } else if row.id in faults.inserts {
        SkipFailedInsert(key);
      } else {
        Insert(key, d.row, d.shape);
      }
    }

    /** Counts a row as examined; it is in hand until it is decided. */
    method TakeUp()
      requires Valid()
      modifies `summary
      ensures Sound() && Accounted(1)
      ensures summary == old(summary).Examine()
    {
      hide Honest, Past, Balanced;
      BalancedSteps(summary, |counted| + |would|, lost, |pending|, 0, InsertFailed, Neither);
      summary := summary.Examine();
    }

    /** A query raised: the row in hand is lost with its batch. */
    ghost method Abandon()
      requires Sound() && Accounted(1)
      modifies `lost
      ensures Valid()
      ensures lost == old(lost) + 1
    {
      hide Honest, Past, Balanced;
      BalancedSteps(summary, |counted| + |would|, lost, |pending|, 1, InsertFailed, Neither);
      lost := lost + 1;
    }

    /** The savepoint was released: the row is in the open transaction, and its success is buffered. */
    method Insert(key: Key, c: CanonicalRow, shape: Shape)
      requires Sound() && Accounted(1) && args.execute
      modifies `working, `pending
      ensures Valid()
      ensures working == old(working)[key.id := c]
      ensures pending == old(pending) + [Pending(key, shape)]
    {
      hide Honest, Past, Balanced;
      BalancedSteps(summary, |counted| + |would|, lost, |pending|, 1, InsertFailed, Neither);
      working := working[key.id := c];
      pending := pending + [Pending(key, shape)];
    }

    /** The savepoint was rolled back: the row counts as refused and the run as having erred. */
    method SkipFailedInsert(key: Key)
      requires Sound() && Accounted(1)
      modifies `summary, `report, `trace
      ensures Valid()
      ensures summary == old(summary).Skip(InsertFailed).(errors := old(summary.errors) + 1)
      ensures report == Logged(args, old(report), Skipped(key, InsertFailed))
      ensures old(trace) < trace
    {
      Skip(key, InsertFailed);
      summary := summary.(errors := summary.errors + 1);
    }

    // ----- One batch

    /** All rows of a batch inside its transaction, up to the first one whose queries raise. */
    method ProcessRows(tenant: string, rows: seq<LegacyRow>) returns (raised: bool)
      requires Valid()
      modifies `working, `pending, `summary, `report, `would, `lost, `trace
      ensures Valid() && old(trace) <= trace
      ensures raised <==> Reach(faults, rows) < |rows|
      ensures DeskNow() == Reached(args, faults, tenant, old(DeskNow()), rows)
      ensures lost == old(lost) + if raised then 1 else 0
    {
      hide Valid, HandleRow;
      ghost var d := DeskNow();
      for i := 0 to |rows|
        invariant Valid() && old(trace) <= trace
        invariant forall j :: 0 <= j < i ==> !faults.queries(rows[j].id)
        invariant DeskNow() == HandleRows(args, faults, tenant, d, rows[..i])
        invariant lost == old(lost)
      {
        raised := ProcessRow(tenant, rows[i]);
        if raised {
          return;
        }
        assert rows[..i + 1][..i] == rows[..i];
      }
      assert rows[..|rows|] == rows;
      raised := false;
    }

    /** Counts and reports every buffered success of a batch that has just committed, oldest first. */
    method ApplyPending()
      requires Valid() && args.execute
      requires forall key :: key in PendingKeys(pending) ==> Durable(canonical, key)
      modifies `summary, `counted, `pending, `report, `trace
      ensures Valid() && pending == [] && old(trace) <= trace
      ensures summary == CountAll(old(summary), old(pending))
      ensures counted == old(counted) + PendingKeys(old(pending))
      ensures report == old(report) + if args.reporting then BackfillRecords(old(pending)) else []
    {
      hide Valid, Durable, PendingKeys, BackfillRecords;
      ghost var all, done := pending, 0;
      assert PendingKeys(all[..0]) == [] && BackfillRecords(all[..0]) == [] by { NothingPending(all); }
      while pending != []
        invariant Valid() && old(trace) <= trace
        invariant 0 <= done <= |all| && pending == all[done..]
        invariant CountAll(summary, pending) == CountAll(old(summary), all)
        invariant counted == old(counted) + PendingKeys(all[..done])
        invariant report == old(report) + if args.reporting then BackfillRecords(all[..done]) else []
        decreases |pending|
      {
        NextPending(all, done);
        ApplyOldest();
        done := done + 1;
      }
      assert all[..|all|] == all;
    }

    /** A batch's session, from its first query to its close. */
    method RunBatch(tenant: string, chunk: seq<LegacyRow>, k: nat) returns (ok: bool)
      requires Valid() && pending == []
      modifies `canonical, `working, `pending, `summary, `report, `counted, `would, `lost, `trace
      ensures Valid() && old(trace) <= trace
      ensures ok <==> BatchOk(args, faults, tenant, k, chunk)
      ensures var d := old(DeskNow()).(working := StoreOf(old(canonical), tenant));
        BatchClosed(args, faults, tenant, k, chunk, BatchDesk(args, faults, tenant, k, d, chunk),
                    old(canonical), old(counted), old(lost), canonical, counted, lost, DeskNow())
    {
      hide Valid, HandleRows, Durable, Kept, StoreOf, CountAll, FirstIndex;
      working := StoreOf(canonical, tenant);
      ghost var d := DeskNow();
      if faults.fetches(tenant, k) {
        Rollback();
        assert report + [] == report && counted + [] == counted;
        return false;
      }
      var raised := ProcessRows(tenant, chunk);
      DryBuffersNothing(args, faults, tenant, k, d, chunk);
      if raised {
        Rollback();
        assert report + [] == report && counted + [] == counted;
        return false;
      }
      if args.execute {
        CommitFacts(tenant, chunk, k, d);
      }
      ok := CloseBatch(tenant, chunk, k);
    }

    /** The end of a session all of whose rows are done: the commit, the close, and then the claims. */
    method CloseBatch(tenant: string, chunk: seq<LegacyRow>, k: nat) returns (ok: bool)
      requires Valid() && !faults.fetches(tenant, k) && Reach(faults, chunk) == |chunk|
      requires args.execute ==>
        && Kept(canonical, canonical[tenant := working])
        && forall key :: key in PendingKeys(pending) ==> Durable(canonical[tenant := working], key)
      requires !args.execute ==> pending == []
      modifies `canonical, `pending, `summary, `report, `counted, `lost, `trace
      ensures Valid() && old(trace) <= trace
      ensures ok <==> BatchOk(args, faults, tenant, k, chunk)
      ensures BatchClosed(args, faults, tenant, k, chunk, old(DeskNow()),
                          old(canonical), old(counted), old(lost), canonical, counted, lost, DeskNow())
    {
      hide Valid, Reach, Durable, Kept, CountAll;
      if args.execute {
        if faults.commits(tenant, k) != Fails {
          Commit(tenant);
        }
        if faults.commits(tenant, k) != Lands {
          Rollback();
          assert report + [] == report && counted + [] == counted;
          return false;
        }
      }
      if faults.closes(tenant, k + 1) {
        Discard();
        assert report + [] == report && counted + [] == counted;
        return false;
      }
      if args.execute {
        ApplyPending();
        assert BackfillRecords([]) == [];
      }
      assert report + [] == report && counted + [] == counted;
      return true;
    }

    /** Committing the transaction keeps what is durable and makes the buffered rows durable. */
    lemma CommitFacts(tenant: string, chunk: seq<LegacyRow>, k: nat, d: Desk)
      requires args.execute && d.pending == [] && d.working == StoreOf(canonical, tenant)
      requires !faults.fetches(tenant, k) && Reach(faults, chunk) == |chunk|
        && DeskNow() == Reached(args, faults, tenant, d, chunk)
      ensures Kept(canonical, canonical[tenant := working])
      ensures forall key :: key in PendingKeys(pending) ==> Durable(canonical[tenant := working], key)
    {
      hide HandleRows, Durable, Kept, ApplyAll, InsertedKeys, WouldKeys, FirstIndex, Inserted;
      BatchDeskMeans(args, faults, tenant, k, d, chunk);
      assert chunk[..|chunk|] == chunk;
      CommitKeeps(args.setup, canonical, tenant, chunk, faults.inserts);
    }

    /**
     * One batch: its inserts become durable and are then counted and reported,
     * or it raises and none of them is, whether or not its commit landed.
     */
    method ProcessBatch(tenant: string, chunk: seq<LegacyRow>, k: nat) returns (ok: bool)
      requires Valid() && pending == []
      modifies `canonical, `working, `pending, `summary, `report, `counted, `would, `lost, `trace
      ensures Valid() && pending == [] && old(trace) <= trace
      ensures ok <==> BatchOk(args, faults, tenant, k, chunk)
      ensures var s := StoreOf(old(canonical), tenant);
        && canonical == (if Landed(args, faults, tenant, k, chunk)
                         then old(canonical)[tenant := ApplyAll(args.setup, s, chunk, faults.inserts)]
                           else old(canonical))
        && counted == old(counted)
             + (if ok && args.execute then InsertedKeys(tenant, args.setup, s, chunk, faults.inserts) else [])
        && would == old(would)
             + (if args.execute then []
                else WouldKeys(tenant, args.setup, s, chunk[..Handled(faults, tenant, k, chunk)]))
        && summary.examined == old(summary.examined) + ExaminedIn(faults, tenant, k, chunk)
        && lost == old(lost) + LostIn(args, faults, tenant, k, s, chunk)
        && summary.errors == old(summary.errors) + ErrorsIn(args, faults, tenant, k, s, chunk)
      ensures args.reporting ==> Reported(report) == Reported(old(report)) + set key | key in counted[|old(counted)|..]
      ensures args.reporting && old(Tallied(report, summary)) ==> Tallied(report, summary)
      ensures var e := BatchDesk(args, faults, tenant, k, old(DeskNow()).(working := StoreOf(old(canonical), tenant)),
        chunk);
        && summary == (if ok && args.execute then CountAll(e.summary, e.pending) else e.summary)
        && report == e.report + ClosingRecords(args, faults, tenant, k, e, chunk)
    {
      hide Valid, BatchDesk, BatchOk, Landed, LostIn, ErrorsIn, ExaminedIn, Handled, Reported, ApplyAll, InsertedKeys,
        WouldKeys, ClosingRecords, CountAll, Tallied;
      ghost var d, canonical0, counted0, lost0 := DeskNow().(working := StoreOf(canonical, tenant)), canonical, counted,
        lost;
      if args.reporting && Tallied(report, summary) {
        BatchTallies(args, faults, tenant, k, d, chunk);
      }
      ok := RunBatch(tenant, chunk, k);
      BatchMeans(args, faults, tenant, k, chunk, d, canonical0, counted0, lost0, canonical, counted, lost, DeskNow());
    }

    // ----- One tenant

    ghost function WorkOf(tenant: string, run: Run): seq<LegacyRow>
      reads `canonical, `cursors, `saved, `counted, `would, `summary, `lost
    {
      Worklist(RowsOf(legacy, tenant), StartAt(Seen(), tenant), run)
    }

    /** Counts a tenant's legacy rows and lists its orphans. */
    method OpenTenant(tenant: string) returns (all: seq<LegacyRow>)
      requires Valid()
      modifies `summary
      ensures Valid()
      ensures all == Orphans(StoreOf(canonical, tenant), RowsOf(legacy, tenant))
      ensures summary == old(summary).Open(|RowsOf(legacy, tenant)|, |all|)
      ensures forall r :: r in all <==>
        r in RowsOf(legacy, tenant)
        && forall k :: k in StoreOf(canonical, tenant) ==> StoreOf(canonical, tenant)[k].sha256 != r.sha256
      ensures summary.orphansFound == old(summary.orphansFound) + |all|
      ensures summary.alreadyPresent + |all| == old(summary.alreadyPresent) + |RowsOf(legacy, tenant)|
      ensures summary == old(summary).(legacyTotal := summary.legacyTotal, orphansFound := summary.orphansFound,
        alreadyPresent := summary.alreadyPresent)
      ensures old(Told()) ==> Told()
    {
      hide Sound, Reported, Reasons, Successes;
      all := Orphans(StoreOf(canonical, tenant), RowsOf(legacy, tenant));
      summary := summary.Open(|RowsOf(legacy, tenant)|, |all|);
    }

    /** Remembers the last row of a committed batch, and writes the state file when there is one. */
    method Advance(tenant: string, id: string, k: nat) returns (raised: bool)
      modifies `cursors, `saved
      ensures cursors == old(cursors)[tenant := id]
      ensures raised <==> args.stateFile && faults.saves(tenant, k)
      ensures saved == if args.stateFile && !raised then cursors else old(saved)
    {
      cursors := cursors[tenant := id];
      if args.stateFile {
        if faults.saves(tenant, k) {
          return true;
        }
        saved := cursors;
      }
      return false;
    }

    /** A batch and, when it went through, its cursor. */
    method BatchAndCursor(tenant: string, chunk: seq<LegacyRow>, k: nat) returns (raised: bool)
      requires Valid() && pending == [] && chunk != []
      modifies this
      ensures Valid() && pending == [] && old(trace) <= trace && (old(Told()) ==> Told())
      ensures raised <==> HaltsAt(args, faults, tenant, k, chunk)
      ensures BatchTaken(args, faults, tenant, k, chunk, old(Seen()), Seen())
    {
      hide Honest, Past, Balanced, BatchOk, Landed, LostIn, ErrorsIn, ExaminedIn, Handled, ApplyAll, InsertedKeys,
        WouldKeys,
        Reported, BatchDesk, ClosingRecords, CountAll, StoreOf, Tallied;
      ghost var counted0 := counted;
      var ok := ProcessBatch(tenant, chunk, k);
      assert counted == counted0 + counted[|counted0|..];
      raised := !ok;
      if ok && args.execute {
        raised := Advance(tenant, chunk[|chunk| - 1].id, k);
      }
    }

    /** The batches of a worklist, up to the first one that raises. */
    method ProcessBatches(tenant: string, work: seq<LegacyRow>) returns (n: nat, raised: bool, stop: nat)
      requires Valid() && pending == []
      modifies this
      ensures Valid() && pending == [] && old(trace) <= trace && (old(Told()) ==> Told())
      ensures StopsAt(args, faults, tenant, work, stop)
      ensures raised <==> Halted(args, work, stop)
      ensures !raised ==> n == |work|
      ensures Ended(args, faults, tenant, work, stop, old(Seen()), Seen())
    {
      hide *;
      ghost var start, trace0, told := Seen(), trace, Told();
      SomeBatchSize();
      WalkBegins(args, faults, tenant, work, start);
      n, raised, stop := 0, false, 0;
      while n < |work|
        invariant Valid() && pending == [] && trace0 <= trace && (told ==> Told())
        invariant n == RowsIn(work, args.batchSize, stop)
        invariant OnTheWay(args, faults, tenant, work, stop, start, Seen())
        decreases |work| - n
      {
        NextBatch(work, args.batchSize, stop);
        var j := Min(n + args.batchSize, |work|);
        ghost var before := Seen();
        raised := BatchAndCursor(tenant, work[n..j], stop);
        WalkGoesOn(args, faults, tenant, work, stop, work[n..j], start, before, Seen());
        if raised {
          return;
        }
        n, stop := j, stop + 1;
      }
      WalkIsDone(args, faults, tenant, work, stop, start, Seen());
      raised := false;
    }

    /** Counts the tenant, lists its orphans after the cursor and within the limit, and works through them. */
    method WalkTenant(tenant: string, remaining: Option<nat>) returns (n: nat, raised: bool, stop: nat)
      requires Valid() && pending == []
      modifies this
      ensures Valid() && pending == [] && old(trace) <= trace && (old(Told()) ==> Told())
      ensures var work := old(WorkOf(tenant, RunFor(args, faults, remaining)));
        && (raised <==> Unopened(faults, tenant) || Halted(args, work, stop)) && (!raised ==> n == |work|)
        && (Unopened(faults, tenant) ==> stop == 0 && Seen() == old(Seen()))
        && (!Unopened(faults, tenant) ==>
              && StopsAt(args, faults, tenant, work, stop)
              && Ended(args, faults, tenant, work, stop, old(Seen()), Seen()))
    {
      hide Valid, Told, Ended, StopsAt, Halted, Orphans, Remaining, Limited, CursorOf, StoreOf;
      n, raised, stop := 0, true, 0;
      if !faults.opens(tenant) {
        ghost var x := Seen();
        var all := OpenTenant(tenant);
        assert Seen() == x;
        if !faults.closes(tenant, 0) {
          var work := Limited(Remaining(all, CursorOf(cursors, tenant), args.resume), remaining);
          n, raised, stop := ProcessBatches(tenant, work);
        }
      }
    }

    /**
     * One tenant's share of a run. Wherever it stops, everything durable,
     * claimed and lost is what the faults of its steps leave; without any, its
     * whole worklist is done.
     */
    method ProcessTenant(tenant: string, remaining: Option<nat>) returns (n: nat, raised: bool, ghost share: Share)
      requires Valid() && pending == []
      modifies this
      ensures Valid() && pending == [] && old(trace) <= trace && (old(Told()) ==> Told())
      ensures share.run.limit == remaining && raised == share.raised && (!raised ==> n == share.examined)
      ensures Fits(args, faults, tenant, StoreOf(old(canonical), tenant), old(WorkOf(tenant, share.run)), share)
      ensures TenantEnded(args, faults, tenant, old(WorkOf(tenant, share.run)), share.stop, old(Seen()), Seen())
      ensures Quiet(faults, tenant, RowsOf(legacy, tenant)) ==> !raised
    {
      hide Valid, Told, Ended, StopsAt, Halted, Unopened, Worklist, StartAt, RunFor, ShareAt, Fits, TenantEnded, Quiet,
        RowsOf, StoreOf;
      SomeBatchSize();
      ghost var x := Seen();
      ghost var work := WorkOf(tenant, RunFor(args, faults, remaining));
      var stop;
      n, raised, stop := WalkTenant(tenant, remaining);
      share := ShareAt(args, faults, tenant, StoreOf(x.canonical, tenant), work, remaining, stop);
      ShareIs(args, faults, tenant, RowsOf(legacy, tenant), remaining, stop, n, raised, x, Seen());
    }

    // ----- The whole run

    method CountError()
      requires Valid()
      modifies `summary
      ensures Valid()
      ensures summary == old(summary).(errors := old(summary.errors) + 1)
      ensures old(Told()) ==> Told()
    {
      hide Sound, Reported, Reasons, Successes;
      summary := summary.(errors := summary.errors + 1);
    }

    /** One tenant; when it raises, the run has erred and none of its examined rows is charged. */
    method ServeTenant(tenant: string, remaining: Option<nat>) returns (charge: nat, ghost share: Share, ghost z: Image)
      requires Valid() && pending == []
      modifies this
      ensures Valid() && pending == [] && old(trace) <= trace && (old(Told()) ==> Told())
      ensures share.run.limit == remaining && charge == if share.raised then 0 else share.examined
      ensures Fits(args, faults, tenant, StoreOf(old(canonical), tenant), old(WorkOf(tenant, share.run)), share)
      ensures TenantEnded(args, faults, tenant, old(WorkOf(tenant, share.run)), share.stop, old(Seen()), z)
      ensures Seen() == Charge(z, share)
    {
      hide Valid, Told, Fits, TenantEnded, WorkOf, StoreOf, Quiet;
      var n, raised, s := ProcessTenant(tenant, remaining);
      share, charge, z := s, n, Seen();
      if raised {
        charge := 0;
        CountError();
      }
    }

    /**
     * The tenants in turn; a tenant that raises does not stop the others, and
     * its examined rows are not charged against the limit. `shares` is what each
     * tenant reached got, `kept` how many of its batches have their cursor saved.
     */
    method RunTenants(tenants: seq<string>) returns (exitCode: nat, ghost shares: seq<Share>, ghost kept: seq<nat>)
      requires Valid() && pending == []
      modifies this
      ensures Valid() && pending == [] && old(trace) <= trace && (old(Told()) ==> Told())
      ensures RunSoFar(args, faults, legacy, tenants, shares, kept, old(Seen()), Seen())
      ensures |shares| == |tenants| || args.limit == Some(Charged(shares))
      ensures summary.examined == old(summary.examined) + Charged(shares) + Uncharged(shares)
      ensures args.limit.Some? ==>
        && Charged(shares) <= args.limit.value
        && (summary.examined - old(summary.examined) > args.limit.value
            <==> Uncharged(shares) > args.limit.value - Charged(shares))
        && summary.examined - old(summary.examined) <= args.limit.value * |shares|
      ensures lost == old(lost) + LostBy(shares)
      ensures (forall k :: 0 <= k < |shares| ==> !shares[k].raised) ==> Uncharged(shares) == 0 && lost == old(lost)
      ensures exitCode == 0 || exitCode == 1
      ensures exitCode == 0
         <==> (old(summary.errors) == 0 && forall k :: 0 <= k < |shares| ==> !shares[k].raised && shares[k].errors == 0)
      ensures AllQuiet(faults, legacy, tenants) && (args.execute ==> Distinct(tenants)) ==>
        && (args.limit.Some? ==> summary.examined - old(summary.examined) <= args.limit.value)
        && lost == old(lost) && summary.errors == old(summary.errors)
    {
      hide Valid, Told, RunSoFar, Fits, TenantEnded, Charged, Uncharged, LostBy, ErrorsBy, StoreOf, Worklist, RowsOf,
        AllQuiet, Distinct;
      SomeBatchSize();
      ghost var x, trace0, told := Seen(), trace, Told();
      var total := 0;
      shares, kept := [], [];
      RunBegins(args, faults, legacy, tenants, x);
      for i := 0 to |tenants|
        invariant Valid() && pending == [] && trace0 <= trace && (told ==> Told())
        invariant |shares| == i && total == Charged(shares)
        invariant RunSoFar(args, faults, legacy, tenants, shares, kept, x, Seen())
      {
        var remaining := if args.limit.None? then None
                         else Some(if total <= args.limit.value then args.limit.value - total else 0);
        if remaining == Some(0) {
          assert args.limit == Some(Charged(shares)) by {
            ChargedWithin(args, faults, legacy, tenants, shares, kept, x, Seen());
          }
          break;
        }
        ghost var y := Seen();
        var charge, share, z := ServeTenant(tenants[i], remaining);
        kept := RunGoesOn(args, faults, legacy, tenants, shares, kept, share, x, y, z);
        shares := shares + [share];
        total := total + charge;
      }
      exitCode := if summary.errors > 0 then 1 else 0;
      RunTotals(args, faults, legacy, tenants, shares, kept, x, Seen());
      NoErrorsIff(shares);
      if AllQuiet(faults, legacy, tenants) && (args.execute ==> Distinct(tenants)) {
        QuietRun(args, faults, legacy, tenants, shares, kept, x, Seen());
      }
    }
  }
}
