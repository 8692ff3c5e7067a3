/**
 * The two stores' row shapes, the canonical hash preimage and the forward
 * mapping that projects a canonical event onto a legacy row.
 */
module Canonical {
  import opened Common

  /** A key data element: JSON null, or any other value named by its JSON text. */
  datatype Json = Null | Value(text: string)

  type Kdes = map<string, Json>

  datatype Status = Active | Superseded | Rejected | Draft

  datatype Epcis = Epcis(eventType: Option<string>, action: Option<string>, bizStep: Option<string>)

  datatype Event = Event(
    eventId: string,
    tenantId: string,
    source: string,
    sourceRecordId: Option<string>,
    eventType: string,
    timestamp: string,
    productReference: Option<string>,
    tlc: string,
    quantity: real,
    unitOfMeasure: string,
    fromFacility: Option<string>,
    toFacility: Option<string>,
    kdes: Kdes,
    status: Status,
    epcis: Epcis)

  datatype LegacyRow = LegacyRow(
    id: string,
    tenantId: string,
    eventType: string,
    tlc: string,
    productDescription: string,
    quantity: real,
    unitOfMeasure: string,
    locationGln: Option<string>,
    locationName: Option<string>,
    timestamp: string,
    source: string,
    sourceEventId: Option<string>,
    sha256: string,
    chainHash: string,
    epcis: Epcis,
    validationStatus: string,
    ingestedAt: int,
    kdes: Kdes)

  /** One canonical table row: the event's columns and the columns kept beside it. */
  datatype CanonicalRow = CanonicalRow(
    event: Event,
    sha256: string,
    chainHash: string,
    idempotencyKey: string,
    ingestedAt: int,
    supersedes: Option<string>)

  /** What the idempotency key is computed from. */
  datatype Identity = Identity(
    eventType: string, tlc: string, timestamp: string, source: string,
    fromFacility: string, toFacility: string, kdes: Kdes)

  /** Library code the scripts call: hashing and text rendering. */
  datatype Externals = Externals(
    sha256: string -> string,
    showQuantity: real -> string,
    dumpKdes: Kdes -> string,
    dumpStableKdes: Kdes -> string,
    dumpIdentity: Identity -> string)

  /** SHA-256 has no collision among the preimages in play. */
  ghost predicate CollisionFree(x: Externals) {
    forall a, b :: x.sha256(a) == x.sha256(b) ==> a == b
  }

  const CTE_TYPES: set<string> := {
    "harvesting", "cooling", "initial_packing", "first_land_based_receiving",
    "shipping", "receiving", "transformation"}

  const SOURCES: set<string> := {
    "webhook_api", "csv_upload", "xlsx_upload", "epcis_api", "epcis_xml",
    "edi", "manual", "mobile_capture", "supplier_portal", "legacy_v002"}

  /** What the event model's field validators demand. */
  predicate ModelAccepts(source: string, eventType: string, tlc: string, quantity: real) {
    source in SOURCES && eventType in CTE_TYPES && |tlc| >= 3 && quantity >= 0.0
  }

  predicate WellFormed(e: Event) {
    ModelAccepts(e.source, e.eventType, e.tlc, e.quantity)
  }

  /** Python's `value or ""`. */
  function OrEmpty(o: Option<string>): string {
    if o.None? then "" else o.value
  }

  /** NULL and '' are not told apart by any hash. */
  predicate SameReference(a: Option<string>, b: Option<string>) {
    OrEmpty(a) == OrEmpty(b)
  }

  function JoinPipe(fields: seq<string>): string {
    if fields == [] then ""
    else if |fields| == 1 then fields[0]
    else fields[0] + "|" + JoinPipe(fields[1..])
  }

  function Preimage(x: Externals, e: Event): string {
    JoinPipe([
      e.eventId, e.eventType, e.tlc, OrEmpty(e.productReference),
      x.showQuantity(e.quantity), e.unitOfMeasure,
      OrEmpty(e.fromFacility), OrEmpty(e.toFacility),
      e.timestamp, x.dumpKdes(e.kdes)])
  }

  function Hash(x: Externals, e: Event): string {
    x.sha256(Preimage(x, e))
  }

  function IdempotencyKey(x: Externals, e: Event): string {
    x.sha256(x.dumpIdentity(Identity(
      e.eventType, e.tlc, e.timestamp, e.source,
      OrEmpty(e.fromFacility), OrEmpty(e.toFacility), e.kdes)))
  }

  /** The stored columns recompute to the stored hash. */
  predicate Verifies(x: Externals, c: CanonicalRow) {
    Hash(x, c.event) == c.sha256
  }

  function DropNulls(kdes: Kdes): Kdes {
    map k | k in kdes && kdes[k] != Null :: kdes[k]
  }

  function ValidationStatus(s: Status): string {
    if s == Rejected then "rejected" else "valid"
  }

  /** `from_facility or to_facility`. */
  function Location(e: Event): Option<string> {
    if OrEmpty(e.fromFacility) != "" then e.fromFacility else e.toFacility
  }

  /** The legacy row the dual write produces for an event. */
  function Forward(x: Externals, e: Event, chainHash: string, ingestedAt: int): LegacyRow {
    LegacyRow(
      e.eventId, e.tenantId, e.eventType, e.tlc, OrEmpty(e.productReference),
      e.quantity, e.unitOfMeasure, Location(e), Location(e), e.timestamp,
      e.source, e.sourceRecordId, Hash(x, e), chainHash, e.epcis,
      ValidationStatus(e.status), ingestedAt, DropNulls(e.kdes))
  }

  /**
   * What the dual write loses: null KDEs, one of two facilities, NULL products
   * and every status but rejection.
   */
  lemma ForwardSays(x: Externals, e: Event, chainHash: string, ingestedAt: int)
    ensures var row, f := Forward(x, e, chainHash, ingestedAt), e.fromFacility;
      && (forall k :: k in row.kdes <==> k in e.kdes && e.kdes[k] != Null)
      && (forall k :: k in row.kdes ==> row.kdes[k] == e.kdes[k])
      && row.locationGln == row.locationName
      && (row.locationGln == f || (f in {None, Some("")} && row.locationGln == e.toFacility))
      && (f in {None, Some("")} ==> row.locationGln == e.toFacility)
      && (e.productReference == Some(row.productDescription)
          || (e.productReference == None && row.productDescription == ""))
      && row.validationStatus in {"rejected", "valid"}
      && (row.validationStatus == "rejected" <==> e.status == Rejected)
      && row.id == e.eventId && row.source == e.source && row.timestamp == e.timestamp && row.epcis == e.epcis
      && row.sha256 == Hash(x, e) && row.chainHash == chainHash
  {
    assert "rejected" != "valid";
    hide Hash;
  }

  // ----- The texts that are hashed, spelled out

  /** The ten fields of the preimage in their order, one separator between each two. */
  lemma PreimageText(x: Externals, e: Event)
    ensures Preimage(x, e)
         == e.eventId + "|" + e.eventType + "|" + e.tlc + "|" + OrEmpty(e.productReference) + "|"
          + x.showQuantity(e.quantity) + "|" + e.unitOfMeasure + "|"
          + OrEmpty(e.fromFacility) + "|" + OrEmpty(e.toFacility) + "|" + e.timestamp + "|" + x.dumpKdes(e.kdes)
  {
    var fields := [
      e.eventId, e.eventType, e.tlc, OrEmpty(e.productReference),
      x.showQuantity(e.quantity), e.unitOfMeasure,
      OrEmpty(e.fromFacility), OrEmpty(e.toFacility),
      e.timestamp, x.dumpKdes(e.kdes)];
    JoinPipeTen(fields);
  }

  /** Joining one field more adds a separator and the field. */
  lemma JoinPipeStep(f: seq<string>, n: nat)
    requires 0 < n < |f|
    ensures JoinPipe(f[..n + 1]) == JoinPipe(f[..n]) + "|" + f[n]
  {
    JoinPipeConcat(f[..n], f[n..n + 1]);
    assert f[..n + 1] == f[..n] + f[n..n + 1];
  }

  lemma JoinPipeFirst(f: seq<string>)
    requires |f| > 0
    ensures JoinPipe(f[..1]) == f[0] && JoinPipe(f[..|f|]) == JoinPipe(f)
  {
    assert f[..|f|] == f;
  }

  lemma JoinPipeTen(f: seq<string>)
    requires |f| == 10
    ensures JoinPipe(f) == f[0] + "|" + f[1] + "|" + f[2] + "|" + f[3] + "|" + f[4] + "|"
                         + f[5] + "|" + f[6] + "|" + f[7] + "|" + f[8] + "|" + f[9]
  {
    hide JoinPipe;
    JoinPipeFirst(f);
    JoinPipeStep(f, 1);
    JoinPipeStep(f, 2);
    JoinPipeStep(f, 3);
    JoinPipeStep(f, 4);
    JoinPipeStep(f, 5);
    JoinPipeStep(f, 6);
    JoinPipeStep(f, 7);
    JoinPipeStep(f, 8);
    JoinPipeStep(f, 9);
  }

  /** Rendering an identity is injective: nothing it holds is lost. */
  ghost predicate IdentityFaithful(x: Externals) {
    forall a, b :: x.dumpIdentity(a) == x.dumpIdentity(b) ==> a == b
  }

  /** Events share an idempotency key exactly when they agree on what identifies them, NULL and '' alike. */
  lemma SameKeyIff(x: Externals, a: Event, b: Event)
    requires CollisionFree(x) && IdentityFaithful(x)
    ensures IdempotencyKey(x, a) == IdempotencyKey(x, b)
       <==> (&& a.eventType == b.eventType && a.tlc == b.tlc && a.timestamp == b.timestamp && a.source == b.source
             && (a.fromFacility == b.fromFacility
               || (a.fromFacility in {None, Some("")} && b.fromFacility in {None, Some("")}))
             && (a.toFacility == b.toFacility || (a.toFacility in {None, Some("")} && b.toFacility in {None, Some("")}))
             && a.kdes == b.kdes)
  {
  }

  // ----- How the preimage splits around the two facility fields

  lemma {:induction false} JoinPipeConcat(a: seq<string>, b: seq<string>)
    requires a != [] && b != []
    ensures JoinPipe(a + b) == JoinPipe(a) + "|" + JoinPipe(b)
  {
    if |a| == 1 {
      assert (a + b)[1..] == b;
    } else {
      assert (a + b)[1..] == a[1..] + b;
      JoinPipeConcat(a[1..], b);
      assert a[0] + "|" + (JoinPipe(a[1..]) + "|" + JoinPipe(b))
          == (a[0] + "|" + JoinPipe(a[1..])) + "|" + JoinPipe(b);
    }
  }

  function BeforeFacilities(x: Externals, e: Event): string {
    JoinPipe([
      e.eventId, e.eventType, e.tlc, OrEmpty(e.productReference),
      x.showQuantity(e.quantity), e.unitOfMeasure])
  }

  function AfterFacilities(x: Externals, e: Event): string {
    JoinPipe([e.timestamp, x.dumpKdes(e.kdes)])
  }

  function Facilities(f: Option<string>, t: Option<string>): string {
    OrEmpty(f) + "|" + OrEmpty(t)
  }

  lemma PreimageSplit(x: Externals, e: Event)
    ensures Preimage(x, e)
         == BeforeFacilities(x, e) + "|" + Facilities(e.fromFacility, e.toFacility) + "|" + AfterFacilities(x, e)
  {
    var a := [
      e.eventId, e.eventType, e.tlc, OrEmpty(e.productReference),
      x.showQuantity(e.quantity), e.unitOfMeasure];
    var b := [OrEmpty(e.fromFacility), OrEmpty(e.toFacility)];
    var c := [e.timestamp, x.dumpKdes(e.kdes)];
    JoinPipeConcat(b, c);
    JoinPipeConcat(a, b + c);
    assert JoinPipe(b) == Facilities(e.fromFacility, e.toFacility) by {
      assert b[1..] == [OrEmpty(e.toFacility)];
    }
    assert a + (b + c) == [
      e.eventId, e.eventType, e.tlc, OrEmpty(e.productReference),
      x.showQuantity(e.quantity), e.unitOfMeasure,
      OrEmpty(e.fromFacility), OrEmpty(e.toFacility),
      e.timestamp, x.dumpKdes(e.kdes)];
  }

  lemma CancelAround(head: string, m: string, n: string, tail: string)
    ensures head + m + tail == head + n + tail <==> m == n
  {
    if head + m + tail == head + n + tail {
      var l, r := head + m + tail, head + n + tail;
      assert |l| == |r|;
      assert l[|head|..|head| + |m|] == m;
      assert r[|head|..|head| + |n|] == n;
    }
  }

  /** Events that agree outside the facility fields hash alike exactly when the facility text agrees. */
  lemma SameHashSameFacilities(x: Externals, a: Event, b: Event)
    requires CollisionFree(x)
    requires BeforeFacilities(x, a) == BeforeFacilities(x, b)
    requires AfterFacilities(x, a) == AfterFacilities(x, b)
    ensures Hash(x, a) == Hash(x, b)
       <==> Facilities(a.fromFacility, a.toFacility) == Facilities(b.fromFacility, b.toFacility)
  {
    PreimageSplit(x, a);
    PreimageSplit(x, b);
    var head, tail := BeforeFacilities(x, a) + "|", "|" + AfterFacilities(x, a);
    var m, n := Facilities(a.fromFacility, a.toFacility), Facilities(b.fromFacility, b.toFacility);
    assert Preimage(x, a) == head + m + tail;
    assert Preimage(x, b) == head + n + tail;
    CancelAround(head, m, n, tail);
  }
}
