/**
 * The per-row decision of the canonical backfill and what a pass over one
 * tenant's orphans does to that tenant's canonical store.
 */
module BackfillRules {
  import opened Common
  import opened Canonical
  import opened Reconstruction

  /** One tenant's canonical rows, by event id. */
  type Store = map<string, CanonicalRow>

  /** Library code, and whether `--status-ambiguous=skip` was asked for. */
  datatype Setup = Setup(x: Externals, refuseAssumed: bool)

  datatype Decision =
    | Skip(reason: Reason)
    | Write(row: CanonicalRow, shape: Shape, productNulled: bool, assumed: bool)

  predicate HasSuperseder(store: Store, id: string) {
    exists k :: k in store && store[k].supersedes == Some(id)
  }

  predicate KeyTaken(store: Store, key: string) {
    exists k :: k in store && store[k].idempotencyKey == key
  }

  /** No canonical row carries this row's hash. */
  predicate Orphan(store: Store, row: LegacyRow) {
    !exists k :: k in store && store[k].sha256 == row.sha256
  }

  function Orphans(store: Store, legacy: seq<LegacyRow>): seq<LegacyRow> {
    Filter(legacy, row => Orphan(store, row))
  }

  /** The status a row is given, and whether it is only an assumption. */
  function ResolveStatus(store: Store, row: LegacyRow): (Status, bool) {
    if row.validationStatus == "rejected" then (Rejected, false)
    else if HasSuperseder(store, row.id) then (Superseded, false)
    else (Active, true)
  }

  function CanonicalOf(x: Externals, row: LegacyRow, e: Event): CanonicalRow {
    CanonicalRow(e, row.sha256, row.chainHash, IdempotencyKey(x, e), row.ingestedAt, None)
  }

  function Decide(u: Setup, store: Store, row: LegacyRow): Decision {
    var (status, assumed) := ResolveStatus(store, row);
    if assumed && u.refuseAssumed then Skip(StatusAmbiguous)
    else
      match Reconstruct(u.x, row, status)
      case Refused(reason) => Skip(reason)
      case Proven(event, shape, productNulled) =>
        var c := CanonicalOf(u.x, row, event);
        if row.id in store then Skip(EventIdTaken)
        else if KeyTaken(store, c.idempotencyKey) then Skip(IdempotencyCollision)
        else Write(c, shape, productNulled, assumed)
  }

  /** The store after one row, when the inserts of the rows in `fails` raise. */
  function Apply(u: Setup, store: Store, row: LegacyRow, fails: set<string>): Store {
    var d := Decide(u, store, row);
    if d.Write? && row.id !in fails then store[row.id := d.row] else store
  }

  function ApplyAll(u: Setup, store: Store, rows: seq<LegacyRow>, fails: set<string>): Store {
    if rows == [] then store
    else Apply(u, ApplyAll(u, store, rows[..|rows| - 1], fails), rows[|rows| - 1], fails)
  }

  ghost predicate DistinctIds(rows: seq<LegacyRow>) {
    forall i, j :: 0 <= i < j < |rows| ==> rows[i].id != rows[j].id
  }

  /** What a written row is known to be. */
  lemma WriteFacts(u: Setup, s: Store, row: LegacyRow)
    requires Decide(u, s, row).Write?
    ensures var c := Decide(u, s, row).row;
      row.id !in s && c.sha256 == row.sha256 && c.supersedes == None && c.event.eventId == row.id
  {
  }

  // ----- What the answer means

  /** The status a written row gets, and when it is only an assumption. */
  lemma StatusSays(u: Setup, store: Store, row: LegacyRow)
    requires Decide(u, store, row).Write?
    ensures var d := Decide(u, store, row);
      && (d.row.event.status == Rejected <==> row.validationStatus == "rejected")
      && (d.row.event.status == Superseded <==>
            row.validationStatus != "rejected" && exists k :: k in store && store[k].supersedes == Some(row.id))
      && (d.row.event.status == Active <==>
            row.validationStatus != "rejected" && forall k :: k in store ==> store[k].supersedes != Some(row.id))
      && (d.assumed <==> d.row.event.status == Active)
  {
    hide Hash, Recomputes;
    var (status, _) := ResolveStatus(store, row);
    ProofSays(u.x, row, status);
  }

  /**
   * The event a written row stores: the proven reading, under its own
   * idempotency key and the legacy hash and chain.
   */
  lemma WriteSays(u: Setup, store: Store, row: LegacyRow)
    requires Decide(u, store, row).Write?
    ensures var d := Decide(u, store, row);
      && d.row
        == CanonicalRow(d.row.event, row.sha256, row.chainHash, IdempotencyKey(u.x, d.row.event), row.ingestedAt, None)
      && Reconstruct(u.x, row, d.row.event.status) == Proven(d.row.event, d.shape, d.productNulled)
      && (d.productNulled <==> row.productDescription == "")
  {
    hide Hash, Recomputes;
    var (status, _) := ResolveStatus(store, row);
    ProofSays(u.x, row, status);
  }

  /** Each refusal with the condition under which it is given; whether a row is proven does not depend on its status. */
  lemma RefusalSays(u: Setup, store: Store, row: LegacyRow)
    ensures var d, r := Decide(u, store, row), Reconstruct(u.x, row, Active);
      var ambiguous := u.refuseAssumed && row.validationStatus != "rejected"
                       && forall k :: k in store ==> store[k].supersedes != Some(row.id);
      var taken := r.Proven? && exists k :: k in store && store[k].idempotencyKey == IdempotencyKey(u.x, r.event);
      && (d == Decision.Skip(StatusAmbiguous) <==> ambiguous)
      && (d == Decision.Skip(EventIdTaken) <==> !ambiguous && r.Proven? && row.id in store)
      && (d == Decision.Skip(IdempotencyCollision) <==> !ambiguous && row.id !in store && taken)
      && (d.Write? <==> !ambiguous && r.Proven? && row.id !in store && !taken)
      && (!ambiguous && r.Refused? ==> d == Decision.Skip(r.reason))
  {
    hide Hash, Recomputes, NativeText, FieldsAccepted, SomeReadingRecomputes;
    var (status, _) := ResolveStatus(store, row);
    StatusIrrelevant(u.x, row, status, Active);
    var r := Reconstruct(u.x, row, status);
    ReconstructSays(u.x, row, Active);
    assert r.Proven? ==> IdempotencyKey(u.x, r.event) == IdempotencyKey(u.x, Reconstruct(u.x, row, Active).event);
  }

  // ----- Growth

  /** `t` holds all of `s`, and what it adds supersedes nothing: the only growth this script causes. */
  ghost predicate Grown(s: Store, t: Store) {
    && (forall k :: k in s ==> k in t && t[k] == s[k])
    && (forall k :: k in t && k !in s ==> t[k].supersedes == None)
  }

  lemma {:induction false} ApplyAllGrows(u: Setup, s: Store, rows: seq<LegacyRow>, fails: set<string>)
    ensures Grown(s, ApplyAll(u, s, rows, fails))
  {
    hide Decide;
    if rows != [] {
      var n := |rows| - 1;
      var mid := ApplyAll(u, s, rows[..n], fails);
      ApplyAllGrows(u, s, rows[..n], fails);
      if Decide(u, mid, rows[n]).Write? {
        WriteFacts(u, mid, rows[n]);
      }
    }
  }

  lemma {:induction false} ApplyAllAppend(u: Setup, s: Store, a: seq<LegacyRow>, b: seq<LegacyRow>, fails: set<string>)
    ensures ApplyAll(u, s, a + b, fails) == ApplyAll(u, ApplyAll(u, s, a, fails), b, fails)
  {
    if b == [] {
      assert a + b == a;
    } else {
      var n := |b| - 1;
      assert (a + b)[..|a + b| - 1] == a + b[..n];
      ApplyAllAppend(u, s, a, b[..n], fails);
    }
  }

  lemma OrphanShrinks(s: Store, t: Store, row: LegacyRow)
    requires Grown(s, t) && Orphan(t, row)
    ensures Orphan(s, row)
  {
    forall k | k in s ensures s[k].sha256 != row.sha256 {
      assert t[k].sha256 != row.sha256;
    }
  }

  lemma SameStatus(s: Store, t: Store, row: LegacyRow)
    requires Grown(s, t)
    ensures ResolveStatus(s, row) == ResolveStatus(t, row)
  {
    if HasSuperseder(s, row.id) {
      var k :| k in s && s[k].supersedes == Some(row.id);
      assert t[k].supersedes == Some(row.id);
    }
  }

  /** A refusal outlives any growth the script causes. */
  lemma RefusalIsPermanent(u: Setup, s: Store, t: Store, row: LegacyRow)
    requires Grown(s, t)
    requires Decide(u, s, row).Skip?
    ensures Decide(u, t, row).Skip?
  {
    SameStatus(s, t, row);
    var d := Decide(u, s, row);
    if d.reason == IdempotencyCollision && Reconstruct(u.x, row, ResolveStatus(s, row).0).Proven? {
      var e := Reconstruct(u.x, row, ResolveStatus(s, row).0).event;
      var key := CanonicalOf(u.x, row, e).idempotencyKey;
      if KeyTaken(s, key) {
        var k :| k in s && s[k].idempotencyKey == key;
        assert t[k].idempotencyKey == key;
      }
    }
  }

  /** A written row is no orphan any more; a refused one stays refused to the end of the pass and beyond. */
  lemma RowSettled(u: Setup, s: Store, rows: seq<LegacyRow>, fails: set<string>, i: nat)
    requires i < |rows|
    requires rows[i].id !in fails
    ensures var t := ApplyAll(u, s, rows, fails);
      Orphan(t, rows[i]) ==> Decide(u, t, rows[i]).Skip?
    ensures var d := Decide(u, ApplyAll(u, s, rows[..i], fails), rows[i]);
      var t := ApplyAll(u, s, rows, fails);
      if d.Write? then rows[i].id in t && t[rows[i].id] == d.row else Decide(u, t, rows[i]).Skip?
  {
    hide Decide;
    var before := ApplyAll(u, s, rows[..i], fails);
    var after := ApplyAll(u, s, rows[..i + 1], fails);
    var t := ApplyAll(u, s, rows, fails);
    var d := Decide(u, before, rows[i]);
    assert rows[..i + 1][..i] == rows[..i];
    assert after == Apply(u, before, rows[i], fails);
    assert rows == rows[..i + 1] + rows[i + 1..];
    ApplyAllAppend(u, s, rows[..i + 1], rows[i + 1..], fails);
    ApplyAllGrows(u, after, rows[i + 1..], fails);
    if d.Write? {
      WriteFacts(u, before, rows[i]);
      assert t[rows[i].id] == d.row;
    } else {
      RefusalIsPermanent(u, after, t, rows[i]);
    }
  }

  lemma {:induction false} NothingToWrite(u: Setup, s: Store, rows: seq<LegacyRow>, fails: set<string>)
    requires forall r :: r in rows ==> Decide(u, s, r).Skip?
    ensures ApplyAll(u, s, rows, fails) == s
  {
    if rows != [] {
      NothingToWrite(u, s, rows[..|rows| - 1], fails);
      assert rows[|rows| - 1] in rows;
    }
  }

  /** After a full pass every remaining orphan is refused, so a second full pass writes nothing. */
  lemma SecondPassWritesNothing(u: Setup, s: Store, legacy: seq<LegacyRow>)
    ensures var t := ApplyAll(u, s, Orphans(s, legacy), {});
      && (forall r :: r in Orphans(t, legacy) ==> Decide(u, t, r).Skip?)
      && ApplyAll(u, t, Orphans(t, legacy), {}) == t
  {
    hide Decide, ApplyAll;
    var rows := Orphans(s, legacy);
    var t := ApplyAll(u, s, rows, {});
    ApplyAllGrows(u, s, rows, {});
    forall r | r in Orphans(t, legacy) ensures Decide(u, t, r).Skip? {
      OrphanShrinks(s, t, r);
      assert r in rows;
      var i :| 0 <= i < |rows| && rows[i] == r;
      RowSettled(u, s, rows, {}, i);
    }
    NothingToWrite(u, t, Orphans(t, legacy), {});
  }

  /** Failing inserts of other rows make no difference. */
  lemma {:induction false} FailsElsewhere(u: Setup, s: Store, rows: seq<LegacyRow>, fails: set<string>)
    requires forall r :: r in rows ==> r.id !in fails
    ensures ApplyAll(u, s, rows, fails) == ApplyAll(u, s, rows, {})
  {
    hide Decide;
    if rows != [] {
      FailsElsewhere(u, s, rows[..|rows| - 1], fails);
      assert rows[|rows| - 1] in rows;
    }
  }

  // ----- Every run keeps the store verifiable

  /** A row this script may add for `row`: it recomputes to its own hash and maps back to what `row` carried. */
  ghost predicate FaithfulTwin(x: Externals, c: CanonicalRow, row: LegacyRow) {
    && c.event.eventId == row.id
    && c.sha256 == row.sha256
    && Verifies(x, c)
    && Forward(x, c.event, c.chainHash, c.ingestedAt) == Carried(row)
  }

  lemma WritesFaithfulTwin(u: Setup, s: Store, row: LegacyRow)
    requires Decide(u, s, row).Write?
    ensures FaithfulTwin(u.x, Decide(u, s, row).row, row)
  {
    ProvenMapsBack(u.x, row, ResolveStatus(s, row).0);
  }

  /** Whatever inserts fail, each row a pass adds is the faithful twin of one of its legacy rows. */
  lemma {:induction false} StoreStaysVerifiable(u: Setup, s: Store, rows: seq<LegacyRow>, fails: set<string>)
    ensures var t := ApplyAll(u, s, rows, fails);
      forall k :: k in t && k !in s ==> exists r :: r in rows && r.id == k && FaithfulTwin(u.x, t[k], r)
    ensures (forall k :: k in s ==> Verifies(u.x, s[k])) ==>
      var t := ApplyAll(u, s, rows, fails);
      forall k :: k in t ==> Verifies(u.x, t[k])
  {
    hide Decide;
    ApplyAllGrows(u, s, rows, fails);
    if rows != [] {
      var n := |rows| - 1;
      var mid := ApplyAll(u, s, rows[..n], fails);
      var t := ApplyAll(u, s, rows, fails);
      StoreStaysVerifiable(u, s, rows[..n], fails);
      forall k | k in t && k !in s
        ensures exists r :: r in rows && r.id == k && FaithfulTwin(u.x, t[k], r)
      {
        if k in mid && t[k] == mid[k] {
          var r :| r in rows[..n] && r.id == k && FaithfulTwin(u.x, mid[k], r);
          assert r in rows;
        } else {
          WritesFaithfulTwin(u, mid, rows[n]);
          assert rows[n] in rows;
        }
      }
    }
  }

  // ----- Execute against dry run

  /** The rows a dry run reports as "would_backfill": every row is judged against the same store. */
  function WouldBackfill(u: Setup, s: Store, rows: seq<LegacyRow>): seq<LegacyRow> {
    Filter(rows, r => Decide(u, s, r).Write?)
  }

  /** The rows an execute run inserts. */
  function Inserted(u: Setup, s: Store, rows: seq<LegacyRow>, fails: set<string>): (ins: seq<LegacyRow>)
    ensures forall r :: r in ins ==> r in rows && r.id !in fails
  {
    if rows == [] then []
    else
      var n := |rows| - 1;
      var before := Inserted(u, s, rows[..n], fails);
      if Decide(u, ApplyAll(u, s, rows[..n], fails), rows[n]).Write? && rows[n].id !in fails
      then before + [rows[n]]
      else before
  }

  /** The idempotency key a provable row would be stored under. */
  function RowKey(u: Setup, row: LegacyRow): Option<string> {
    match Reconstruct(u.x, row, Active)
    case Refused(_) => None
    case Proven(e, _, _) => Some(IdempotencyKey(u.x, e))
  }

  lemma WrittenKey(u: Setup, s: Store, row: LegacyRow)
    requires Decide(u, s, row).Write?
    ensures RowKey(u, row) == Some(Decide(u, s, row).row.idempotencyKey)
  {
    StatusIrrelevant(u.x, row, ResolveStatus(s, row).0, Active);
  }

  lemma {:induction false} ExecuteWithinDryRun(u: Setup, s: Store, rows: seq<LegacyRow>, fails: set<string>)
    ensures forall r :: r in Inserted(u, s, rows, fails) ==> r in WouldBackfill(u, s, rows)
  {
    hide Decide;
    if rows != [] {
      var n := |rows| - 1;
      ExecuteWithinDryRun(u, s, rows[..n], fails);
      ApplyAllGrows(u, s, rows[..n], fails);
      if Decide(u, s, rows[n]).Skip? {
        RefusalIsPermanent(u, s, ApplyAll(u, s, rows[..n], fails), rows[n]);
      }
    }
  }

  /** What the store holds after a pass: the old rows, and one row under the id and key of each inserted one. */
  lemma {:induction false} StoreContents(u: Setup, s: Store, rows: seq<LegacyRow>, fails: set<string>)
    ensures var t, ins := ApplyAll(u, s, rows, fails), Inserted(u, s, rows, fails);
      && (forall k :: k in s ==> k in t && t[k] == s[k])
      && (forall k :: k in t ==>
            k in s || exists r :: r in ins && r.id == k && RowKey(u, r) == Some(t[k].idempotencyKey))
      && (forall r :: r in ins ==> r.id in t && RowKey(u, r) == Some(t[r.id].idempotencyKey))
  {
    hide Decide, RowKey;
    ApplyAllGrows(u, s, rows, fails);
    if rows != [] {
      var n := |rows| - 1;
      var mid, t := ApplyAll(u, s, rows[..n], fails), ApplyAll(u, s, rows, fails);
      var before, ins := Inserted(u, s, rows[..n], fails), Inserted(u, s, rows, fails);
      StoreContents(u, s, rows[..n], fails);
      if Decide(u, mid, rows[n]).Write? && rows[n].id !in fails {
        WrittenKey(u, mid, rows[n]);
        WriteFacts(u, mid, rows[n]);
        assert rows[n] in ins;
        forall r | r in ins ensures r.id in t && RowKey(u, r) == Some(t[r.id].idempotencyKey) {
          if r in before {
            assert r.id in mid;
          }
        }
        forall k | k in t && k !in s
          ensures exists r :: r in ins && r.id == k && RowKey(u, r) == Some(t[k].idempotencyKey)
        {
          if k != rows[n].id {
            var r :| r in before && r.id == k && RowKey(u, r) == Some(mid[k].idempotencyKey);
            assert r in ins;
          }
        }
      }
    }
  }

  /** A row that would be backfilled and that no earlier such row beats to its idempotency key. */
  ghost predicate FirstOfItsKey(u: Setup, s: Store, rows: seq<LegacyRow>, i: nat)
    requires i < |rows|
  {
    && Decide(u, s, rows[i]).Write?
    && forall j :: 0 <= j < i && Decide(u, s, rows[j]).Write? ==> RowKey(u, rows[j]) != RowKey(u, rows[i])
  }

  /** On a grown store a would-be row is held up only by its id or its key. */
  lemma StillWritten(u: Setup, s: Store, t: Store, row: LegacyRow)
    requires Grown(s, t) && Decide(u, s, row).Write?
    ensures RowKey(u, row).Some?
    ensures Decide(u, t, row).Write? <==> row.id !in t && !KeyTaken(t, RowKey(u, row).value)
    ensures Decide(u, t, row).Write? ==> Decide(u, t, row).row.idempotencyKey == RowKey(u, row).value
  {
    SameStatus(s, t, row);
    WrittenKey(u, s, row);
  }

  /** The pass has not used the id of a row it has not reached. */
  lemma UnreachedId(u: Setup, s: Store, rows: seq<LegacyRow>, i: nat)
    requires DistinctIds(rows) && i < |rows| && rows[i].id !in s
    ensures rows[i].id !in ApplyAll(u, s, rows[..i], {})
  {
    StoreContents(u, s, rows[..i], {});
    forall r | r in rows[..i] ensures r.id != rows[i].id {
      var j :| 0 <= j < i && rows[..i][j] == r;
    }
  }

  /** A key the pass has put in the store belongs to an earlier would-be row. */
  lemma KeyHolder(u: Setup, s: Store, rows: seq<LegacyRow>, i: nat, key: string) returns (j: nat)
    requires i <= |rows|
    requires !KeyTaken(s, key) && KeyTaken(ApplyAll(u, s, rows[..i], {}), key)
    ensures j < i && Decide(u, s, rows[j]).Write? && RowKey(u, rows[j]) == Some(key)
  {
    hide Decide, RowKey, ApplyAll, Inserted;
    var mid := ApplyAll(u, s, rows[..i], {});
    StoreContents(u, s, rows[..i], {});
    ExecuteWithinDryRun(u, s, rows[..i], {});
    ApplyAllGrows(u, s, rows[..i], {});
    var k :| k in mid && mid[k].idempotencyKey == key;
    var r :| r in rows[..i] && Decide(u, s, r).Write? && RowKey(u, r) == Some(key);
    j :| 0 <= j < i && rows[..i][j] == r;
  }

  lemma PrefixGrows(u: Setup, s: Store, rows: seq<LegacyRow>, j: nat, i: nat, fails: set<string>)
    requires j <= i <= |rows|
    ensures Grown(ApplyAll(u, s, rows[..j], fails), ApplyAll(u, s, rows[..i], fails))
  {
    assert rows[..i] == rows[..j] + rows[j..i];
    ApplyAllAppend(u, s, rows[..j], rows[j..i], fails);
    ApplyAllGrows(u, ApplyAll(u, s, rows[..j], fails), rows[j..i], fails);
  }

  lemma KeyTakenGrows(s: Store, t: Store, key: string)
    requires Grown(s, t) && KeyTaken(s, key)
    ensures KeyTaken(t, key)
  {
    var k :| k in s && s[k].idempotencyKey == key;
    assert t[k].idempotencyKey == key;
  }

  /** Once a would-be row has been reached, its key is in the store: its own, or that of the row that beat it. */
  lemma KeyHolderStays(u: Setup, s: Store, rows: seq<LegacyRow>, j: nat, i: nat)
    requires DistinctIds(rows) && j < i <= |rows|
    requires Decide(u, s, rows[j]).Write? && RowKey(u, rows[j]).Some?
    ensures KeyTaken(ApplyAll(u, s, rows[..i], {}), RowKey(u, rows[j]).value)
  {
    hide Decide, RowKey;
    var key := RowKey(u, rows[j]).value;
    var before, next := ApplyAll(u, s, rows[..j], {}), ApplyAll(u, s, rows[..j + 1], {});
    ApplyAllGrows(u, s, rows[..j], {});
    StillWritten(u, s, s, rows[j]);
    StillWritten(u, s, before, rows[j]);
    UnreachedId(u, s, rows, j);
    if KeyTaken(before, key) {
      PrefixGrows(u, s, rows, j, i, {});
      KeyTakenGrows(before, ApplyAll(u, s, rows[..i], {}), key);
    } else {
      assert rows[..j + 1][..j] == rows[..j];
      assert next[rows[j].id].idempotencyKey == key;
      PrefixGrows(u, s, rows, j + 1, i, {});
      KeyTakenGrows(next, ApplyAll(u, s, rows[..i], {}), key);
    }
  }

  lemma WrittenIffFirst(u: Setup, s: Store, rows: seq<LegacyRow>, i: nat)
    requires DistinctIds(rows) && i < |rows|
    ensures Decide(u, ApplyAll(u, s, rows[..i], {}), rows[i]).Write? <==> FirstOfItsKey(u, s, rows, i)
  {
    var mid := ApplyAll(u, s, rows[..i], {});
    ApplyAllGrows(u, s, rows[..i], {});
    if Decide(u, s, rows[i]).Skip? {
      RefusalIsPermanent(u, s, mid, rows[i]);
    } else {
      StillWritten(u, s, s, rows[i]);
      StillWritten(u, s, mid, rows[i]);
      UnreachedId(u, s, rows, i);
      var key := RowKey(u, rows[i]).value;
      if KeyTaken(mid, key) {
        var j := KeyHolder(u, s, rows, i, key);
      }
      forall j | 0 <= j < i && Decide(u, s, rows[j]).Write? && RowKey(u, rows[j]) == Some(key)
        ensures KeyTaken(mid, key)
      {
        KeyHolderStays(u, s, rows, j, i);
        StillWritten(u, s, s, rows[j]);
      }
    }
  }

  lemma {:induction false} InsertedIffWritten(u: Setup, s: Store, rows: seq<LegacyRow>, i: nat)
    requires DistinctIds(rows) && i < |rows|
    ensures rows[i] in Inserted(u, s, rows, {})
       <==> Decide(u, ApplyAll(u, s, rows[..i], {}), rows[i]).Write?
    decreases |rows|
  {
    hide Decide, ApplyAll;
    var n := |rows| - 1;
    var before, last := Inserted(u, s, rows[..n], {}), rows[n];
    assert Inserted(u, s, rows, {})
        == if Decide(u, ApplyAll(u, s, rows[..n], {}), last).Write? then before + [last] else before;
    if i < n {
      assert rows[..n][..i] == rows[..i];
      InsertedIffWritten(u, s, rows[..n], i);
      assert rows[i].id != last.id;
    } else {
      forall r | r in before ensures r.id != last.id {
        var j :| 0 <= j < n && rows[..n][j] == r;
      }
    }
  }

  /** With no failing insert, execute writes exactly the first would-be row of each idempotency key. */
  lemma ExecuteIsFirstPerKey(u: Setup, s: Store, rows: seq<LegacyRow>, i: nat)
    requires DistinctIds(rows) && i < |rows|
    ensures rows[i] in Inserted(u, s, rows, {}) <==> FirstOfItsKey(u, s, rows, i)
  {
    WrittenIffFirst(u, s, rows, i);
    InsertedIffWritten(u, s, rows, i);
  }

  /** Dry run and execute name the same rows exactly when no two would-be rows share an idempotency key. */
  lemma DryRunIsExactIff(u: Setup, s: Store, rows: seq<LegacyRow>)
    requires DistinctIds(rows)
    ensures (forall r :: r in WouldBackfill(u, s, rows) <==> r in Inserted(u, s, rows, {}))
       <==> (forall i, j :: 0 <= i < j < |rows| && Decide(u, s, rows[i]).Write? && Decide(u, s, rows[j]).Write?
                            ==> RowKey(u, rows[i]) != RowKey(u, rows[j]))
  {
    ExecuteWithinDryRun(u, s, rows, {});
    forall i | 0 <= i < |rows| ensures rows[i] in Inserted(u, s, rows, {}) <==> FirstOfItsKey(u, s, rows, i) {
      ExecuteIsFirstPerKey(u, s, rows, i);
    }
  }
}
