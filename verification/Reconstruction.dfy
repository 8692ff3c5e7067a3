/**
 * Inverting the dual write: each way of splitting the legacy location into a
 * from/to pair is tried, and one is accepted only when it reproduces the
 * stored hash.
 */
module Reconstruction {
  import opened Common
  import opened Canonical

  datatype Shape = FromOnly | ToOnly | FromAndTo | Neither

  datatype Split = Split(shape: Shape, fromFacility: Option<string>, toFacility: Option<string>)

  datatype Reason =
    | LegacyNative
    | HashUnreconstructible
    | NotCanonicalShaped
    | QuantityNotPositive
    | EventIdTaken
    | IdempotencyCollision
    | StatusAmbiguous
    | InsertFailed

  datatype Outcome =
    | Proven(event: Event, shape: Shape, productNulled: bool)
    | Refused(reason: Reason)

  function Hypotheses(gln: Option<string>): seq<Split> {
    if OrEmpty(gln) == "" then [Split(Neither, None, None)]
    else [Split(FromOnly, gln, None), Split(ToOnly, None, gln), Split(FromAndTo, gln, gln)]
  }

  /** The candidate event for one split; the model's validators look at none of the split's fields. */
  function Candidate(row: LegacyRow, s: Split, status: Status): Event {
    Event(
      row.id, row.tenantId, row.source, row.sourceEventId, row.eventType, row.timestamp,
      if row.productDescription != "" then Some(row.productDescription) else None,
      row.tlc, row.quantity, row.unitOfMeasure, s.fromFacility, s.toFacility,
      row.kdes, status, row.epcis)
  }

  predicate Buildable(row: LegacyRow) {
    ModelAccepts(row.source, row.eventType, row.tlc, row.quantity)
  }

  const UNHASHED_KDES: set<string> := {"product_description", "description", "item_description"}

  /** The legacy-native formula: one location, no product, description KDEs left out. */
  predicate MatchesLegacyFormula(x: Externals, row: LegacyRow) {
    x.sha256(JoinPipe([
      row.id, row.eventType, row.tlc, x.showQuantity(row.quantity), row.unitOfMeasure,
      OrEmpty(row.locationGln), row.timestamp,
      x.dumpStableKdes(row.kdes - UNHASHED_KDES)])) == row.sha256
  }

  predicate Reproduces(x: Externals, row: LegacyRow, status: Status, s: Split) {
    Hash(x, Candidate(row, s, status)) == row.sha256
  }

  /** What a row is decided to be: the first split that reproduces the hash, or the most specific refusal. */
  function Reconstruct(x: Externals, row: LegacyRow, status: Status): Outcome {
    if row.quantity <= 0.0 then Refused(QuantityNotPositive)
    else
      var splits := Hypotheses(row.locationGln);
      var i := FirstIndex(splits, s => Reproduces(x, row, status, s));
      if Buildable(row) && i < |splits| then
        Proven(Candidate(row, splits[i], status), splits[i].shape, row.productDescription == "")
      else if MatchesLegacyFormula(x, row) then Refused(LegacyNative)
      else if !Buildable(row) then Refused(NotCanonicalShaped)
      else Refused(HashUnreconstructible)
  }

  // ----- What the answer means

  /** What a legacy-native writer hashes for a row: one location, no product, description KDEs left out. */
  function NativeText(x: Externals, row: LegacyRow): string {
    row.id + "|" + row.eventType + "|" + row.tlc + "|" + x.showQuantity(row.quantity) + "|" + row.unitOfMeasure + "|"
    + (if row.locationGln.None? then "" else row.locationGln.value) + "|" + row.timestamp + "|"
    + x.dumpStableKdes(map k | k in row.kdes && k !in {"product_description", "description", "item_description"}
                         :: row.kdes[k])
  }

  /** The row as a legacy-native writer stores it. */
  function NativeRow(x: Externals, row: LegacyRow): LegacyRow {
    row.(sha256 := x.sha256(NativeText(x, row)))
  }

  lemma NativeFormula(x: Externals, row: LegacyRow)
    ensures MatchesLegacyFormula(x, row) <==> row.sha256 == x.sha256(NativeText(x, row))
  {
    var stable := row.kdes - UNHASHED_KDES;
    assert stable == map k | k in row.kdes && k !in {"product_description", "description", "item_description"}
                       :: row.kdes[k];
    var f := [
      row.id, row.eventType, row.tlc, x.showQuantity(row.quantity), row.unitOfMeasure,
      OrEmpty(row.locationGln), row.timestamp, x.dumpStableKdes(stable)];
    assert MatchesLegacyFormula(x, row) <==> row.sha256 == x.sha256(JoinPipe(f));
    hide JoinPipe, MatchesLegacyFormula;
    JoinPipeFirst(f);
    JoinPipeStep(f, 1);
    JoinPipeStep(f, 2);
    JoinPipeStep(f, 3);
    JoinPipeStep(f, 4);
    JoinPipeStep(f, 5);
    JoinPipeStep(f, 6);
    JoinPipeStep(f, 7);
  }

  /** The event a row is read as when these are its facilities. */
  function EventFrom(row: LegacyRow, f: Option<string>, t: Option<string>, status: Status): Event {
    Event(
      row.id, row.tenantId, row.source, row.sourceEventId, row.eventType, row.timestamp,
      if row.productDescription == "" then None else Some(row.productDescription),
      row.tlc, row.quantity, row.unitOfMeasure, f, t, row.kdes, status, row.epcis)
  }

  /** With these facilities the row's hash is reproduced. */
  predicate Recomputes(x: Externals, row: LegacyRow, f: Option<string>, t: Option<string>, status: Status) {
    Hash(x, EventFrom(row, f, t, status)) == row.sha256
  }

  /** One of the ways to read the row's location reproduces its hash: no location, an origin, a destination, or both. */
  predicate SomeReadingRecomputes(x: Externals, row: LegacyRow, status: Status) {
    if row.locationGln in {None, Some("")} then Recomputes(x, row, None, None, status)
    else
      || Recomputes(x, row, row.locationGln, None, status)
      || Recomputes(x, row, None, row.locationGln, status)
      || Recomputes(x, row, row.locationGln, row.locationGln, status)
  }

  /** The event model's rules on the row's own fields. */
  predicate FieldsAccepted(row: LegacyRow) {
    && row.source in {
         "webhook_api", "csv_upload", "xlsx_upload", "epcis_api", "epcis_xml", "edi", "manual", "mobile_capture",
         "supplier_portal", "legacy_v002"}
    && row.eventType in {
         "harvesting", "cooling", "initial_packing", "first_land_based_receiving", "shipping", "receiving",
         "transformation"}
    && |row.tlc| >= 3 && row.quantity >= 0.0
  }

  /** Each answer with the condition under which it is given. */
  lemma ReconstructSays(x: Externals, row: LegacyRow, status: Status)
    ensures var r, native := Reconstruct(x, row, status), row.sha256 == x.sha256(NativeText(x, row));
      && (r.Proven? <==> row.quantity > 0.0 && FieldsAccepted(row) && SomeReadingRecomputes(x, row, status))
      && (r == Refused(QuantityNotPositive) <==> row.quantity <= 0.0)
      && (r == Refused(LegacyNative) <==>
            row.quantity > 0.0 && !(FieldsAccepted(row) && SomeReadingRecomputes(x, row, status)) && native)
      && (r == Refused(NotCanonicalShaped) <==> row.quantity > 0.0 && !native && !FieldsAccepted(row))
      && (r == Refused(HashUnreconstructible) <==>
            row.quantity > 0.0 && !native && FieldsAccepted(row) && !SomeReadingRecomputes(x, row, status))
  {
    hide Hash, MatchesLegacyFormula, NativeText;
    NativeFormula(x, row);
    ReadingsAreSplits(x, row, status);
  }

  lemma ReadingsAreSplits(x: Externals, row: LegacyRow, status: Status)
    ensures var splits := Hypotheses(row.locationGln);
      && (SomeReadingRecomputes(x, row, status) <==>
            exists i :: 0 <= i < |splits| && Reproduces(x, row, status, splits[i]))
  {
    hide Hash;
    var splits := Hypotheses(row.locationGln);
    assert forall s :: Reproduces(x, row, status, s) <==> Recomputes(x, row, s.fromFacility, s.toFacility, status);
    if OrEmpty(row.locationGln) == "" {
      assert splits[0] == Split(Neither, None, None);
    } else {
      var g := row.locationGln;
      assert splits[0].fromFacility == g && splits[0].toFacility == None;
      assert splits[1].fromFacility == None && splits[1].toFacility == g;
      assert splits[2].fromFacility == g && splits[2].toFacility == g;
    }
  }

  /**
   * What a proof says: the row read with the first facilities that reproduce
   * its hash, and the name of that reading.
   */
  lemma ProofSays(x: Externals, row: LegacyRow, status: Status)
    requires Reconstruct(x, row, status).Proven?
    ensures var r, g := Reconstruct(x, row, status), row.locationGln;
      && (r.productNulled <==> row.productDescription == "")
      && Hash(x, r.event) == row.sha256
      && match r.shape
         case Neither => g in {None, Some("")} && r.event == EventFrom(row, None, None, status)
         case FromOnly => g !in {None, Some("")} && r.event == EventFrom(row, g, None, status)
         case ToOnly =>
           && g !in {None, Some("")} && r.event == EventFrom(row, None, g, status)
           && !Recomputes(x, row, g, None, status)
         case FromAndTo =>
           && g !in {None, Some("")} && r.event == EventFrom(row, g, g, status)
           && !Recomputes(x, row, g, None, status) && !Recomputes(x, row, None, g, status)
  {
    hide Hash;
    var splits := Hypotheses(row.locationGln);
    var i := FirstIndex(splits, s => Reproduces(x, row, status, s));
    if OrEmpty(row.locationGln) != "" {
      assert splits[0] == Split(FromOnly, row.locationGln, None) && splits[1] == Split(ToOnly, None, row.locationGln);
      assert i > 1 ==> !Reproduces(x, row, status, splits[1]);
    }
    assert forall s :: Reproduces(x, row, status, s) <==> Recomputes(x, row, s.fromFacility, s.toFacility, status);
  }

  /** The search loop, leaving early on the first proof or on the first model error. */
  method RunReconstruct(x: Externals, row: LegacyRow, status: Status) returns (r: Outcome)
    ensures r == Reconstruct(x, row, status)
    ensures r.Proven? ==> Hash(x, r.event) == row.sha256
    ensures var native := row.sha256 == x.sha256(NativeText(x, row));
      && (r.Proven? <==> row.quantity > 0.0 && FieldsAccepted(row) && SomeReadingRecomputes(x, row, status))
      && (r == Refused(QuantityNotPositive) <==> row.quantity <= 0.0)
      && (r == Refused(LegacyNative) <==>
            row.quantity > 0.0 && !(FieldsAccepted(row) && SomeReadingRecomputes(x, row, status)) && native)
      && (r == Refused(NotCanonicalShaped) <==> row.quantity > 0.0 && !native && !FieldsAccepted(row))
      && (r == Refused(HashUnreconstructible) <==>
            row.quantity > 0.0 && !native && FieldsAccepted(row) && !SomeReadingRecomputes(x, row, status))
  {
    hide NativeText, SomeReadingRecomputes, FieldsAccepted;
    ReconstructSays(x, row, status);
    r := SearchSplits(x, row, status);
  }

  method SearchSplits(x: Externals, row: LegacyRow, status: Status) returns (r: Outcome)
    ensures r == Reconstruct(x, row, status)
    ensures r.Proven? ==> Hash(x, r.event) == row.sha256
  {
    if row.quantity <= 0.0 {
      return Refused(QuantityNotPositive);
    }
    var splits := Hypotheses(row.locationGln);
    ghost var first := FirstIndex(splits, s => Reproduces(x, row, status, s));
    var modelError := false;
    var i := 0;
    while i < |splits|
      invariant 0 <= i <= |splits|
      invariant !modelError
      invariant forall k :: 0 <= k < i ==> !Reproduces(x, row, status, splits[k])
      invariant Buildable(row) || i == 0
    {
      if !Buildable(row) {
        modelError := true;
        break;
      }
      var candidate := Candidate(row, splits[i], status);
      if Hash(x, candidate) == row.sha256 {
        assert Reproduces(x, row, status, splits[i]);
        assert first == i;
        return Proven(candidate, splits[i].shape, row.productDescription == "");
      }
      i := i + 1;
    }
    assert !modelError ==> first == |splits|;
    if MatchesLegacyFormula(x, row) {
      return Refused(LegacyNative);
    }
    if modelError {
      return Refused(NotCanonicalShaped);
    }
    return Refused(HashUnreconstructible);
  }

  lemma StatusNotHashed(x: Externals, row: LegacyRow, s1: Status, s2: Status, s: Split)
    ensures Reproduces(x, row, s1, s) == Reproduces(x, row, s2, s)
  {
    hide JoinPipe;
    assert Preimage(x, Candidate(row, s, s1)) == Preimage(x, Candidate(row, s, s2));
  }

  /** The status column is not hashed, so it never decides whether a row can be proven. */
  lemma StatusIrrelevant(x: Externals, row: LegacyRow, s1: Status, s2: Status)
    ensures Reconstruct(x, row, s1).Proven? <==> Reconstruct(x, row, s2).Proven?
    ensures Reconstruct(x, row, s1).Refused? ==> Reconstruct(x, row, s1) == Reconstruct(x, row, s2)
    ensures Reconstruct(x, row, s1).Proven? ==>
      && Reconstruct(x, row, s1).event.(status := s2) == Reconstruct(x, row, s2).event
      && Reconstruct(x, row, s1).shape == Reconstruct(x, row, s2).shape
  {
    hide Reproduces, MatchesLegacyFormula, Buildable, Hypotheses, FirstIndex;
    var splits := Hypotheses(row.locationGln);
    forall s ensures Reproduces(x, row, s1, s) == Reproduces(x, row, s2, s) {
      StatusNotHashed(x, row, s1, s2, s);
    }
    var i := FirstIndex(splits, s => Reproduces(x, row, s1, s));
    var j := FirstIndex(splits, s => Reproduces(x, row, s2, s));
    assert i == j;
  }

  // ----- Reconstruction is exact

  /** A row the dual write produced for `e`, read back with its timestamp and KDE rendering intact. */
  ghost predicate SurvivedMapping(x: Externals, e: Event, row: LegacyRow) {
    && row == Forward(x, e, row.chainHash, row.ingestedAt).(kdes := row.kdes)
    && x.dumpKdes(row.kdes) == x.dumpKdes(e.kdes)
  }

  /** No null KDE is enough for the KDEs to survive the forward mapping. */
  lemma NullFreeKdesSurvive(x: Externals, e: Event, chainHash: string, ingestedAt: int)
    requires forall k :: k in e.kdes ==> e.kdes[k] != Null
    ensures SurvivedMapping(x, e, Forward(x, e, chainHash, ingestedAt))
  {
    assert DropNulls(e.kdes) == e.kdes;
  }

  /** The pairs a single location can stand for. */
  predicate Recoverable(f: Option<string>, t: Option<string>) {
    OrEmpty(f) == "" || OrEmpty(t) == "" || f == t
  }

  predicate AllPipes(s: string) {
    forall i :: 0 <= i < |s| ==> s[i] == '|'
  }

  /** The one shape the hash cannot settle: only a destination, written with nothing but separators. */
  predicate Indistinct(f: Option<string>, t: Option<string>) {
    OrEmpty(f) == "" && OrEmpty(t) != "" && AllPipes(OrEmpty(t))
  }

  lemma {:induction false} ShiftedIsAllPipes(s: string, n: nat)
    requires s + "|" == "|" + s
    requires n <= |s|
    ensures AllPipes(s[..n])
  {
    if n > 0 {
      ShiftedIsAllPipes(s, n - 1);
      if n == 1 {
        assert (s + "|")[0] == ("|" + s)[0];
      } else {
        assert (s + "|")[n - 1] == ("|" + s)[n - 1];
        assert s[n - 1] == s[n - 2];
        assert s[n - 2] == s[..n - 1][n - 2];
      }
    }
  }

  lemma PipesCommute(s: string)
    ensures s + "|" == "|" + s <==> AllPipes(s)
  {
    if s + "|" == "|" + s {
      ShiftedIsAllPipes(s, |s|);
      assert s[..|s|] == s;
    }
    if AllPipes(s) {
      var l, r := s + "|", "|" + s;
      assert forall i :: 0 <= i < |l| ==> l[i] == '|' && r[i] == '|';
    }
  }

  /** A split reproduces the row's hash exactly when its facility text is the original's. */
  lemma ReproducesIff(x: Externals, e: Event, row: LegacyRow, status: Status, s: Split)
    requires CollisionFree(x) && SurvivedMapping(x, e, row)
    ensures Reproduces(x, row, status, s)
       <==> Facilities(s.fromFacility, s.toFacility) == Facilities(e.fromFacility, e.toFacility)
  {
    var c := Candidate(row, s, status);
    assert OrEmpty(c.productReference) == OrEmpty(e.productReference);
    assert BeforeFacilities(x, c) == BeforeFacilities(x, e);
    assert AfterFacilities(x, c) == AfterFacilities(x, e);
    SameHashSameFacilities(x, c, e);
    assert row.sha256 == Hash(x, e);
  }

  /** Which of the three splits of a present location spell the original pair. */
  lemma SplitsOfLocation(f: Option<string>, t: Option<string>, g: Option<string>)
    requires g == if OrEmpty(f) != "" then f else t
    requires OrEmpty(g) != ""
    ensures Facilities(g, None) == Facilities(f, t) <==> OrEmpty(t) == "" || Indistinct(f, t)
    ensures Facilities(None, g) == Facilities(f, t) ==> OrEmpty(f) == "" || OrEmpty(t) == ""
    ensures OrEmpty(f) == "" ==> Facilities(None, g) == Facilities(f, t)
    ensures Facilities(g, g) == Facilities(f, t) <==> f == t
  {
    var s := OrEmpty(g);
    PipesCommute(s);
    if OrEmpty(f) == "" {
      assert Facilities(f, t) == "|" + s;
      assert Facilities(g, None) == s + "|";
      assert Facilities(None, g) == "|" + s;
      assert |Facilities(g, g)| > |Facilities(f, t)|;
    } else {
      var u := OrEmpty(t);
      assert Facilities(f, t) == s + "|" + u;
      assert Facilities(g, None) == s + "|";
      assert |Facilities(None, g)| == |s| + 1;
      assert Facilities(g, g) == s + "|" + s;
      CancelAround(s + "|", u, s, "");
      assert s + "|" + u + "" == s + "|" + u;
      assert s + "|" + s + "" == s + "|" + s;
    }
  }

  /**
   * A row forward-mapped from an event is proven exactly when a single location
   * can stand for its pair, and the pair found is the original one unless the
   * event had only a destination made of separators.
   */
  lemma ReconstructionExact(x: Externals, e: Event, row: LegacyRow, status: Status)
    requires CollisionFree(x) && SurvivedMapping(x, e, row)
    requires WellFormed(e) && e.quantity > 0.0
    ensures var r := Reconstruct(x, row, status);
      && (r.Proven? <==> Recoverable(e.fromFacility, e.toFacility))
      && (r.Refused? ==> r.reason in {LegacyNative, HashUnreconstructible})
      && (r.Refused? && RendersWithin(x, row.kdes) ==> r.reason == HashUnreconstructible)
      && (r.Proven? ==>
            && (SameReference(r.event.fromFacility, e.fromFacility) && SameReference(r.event.toFacility, e.toFacility)
                <==> !Indistinct(e.fromFacility, e.toFacility))
            && (Indistinct(e.fromFacility, e.toFacility) ==>
                  r.event.fromFacility == e.toFacility && r.event.toFacility == None))
  {
    hide RendersWithin, NativeText, Separators;
    if Reconstruct(x, row, status).Refused? {
      UnprovenReason(x, e, row, status);
    }
    var f, t, g := e.fromFacility, e.toFacility, row.locationGln;
    var splits := Hypotheses(g);
    forall s ensures Reproduces(x, row, status, s) <==> Facilities(s.fromFacility, s.toFacility) == Facilities(f, t) {
      ReproducesIff(x, e, row, status, s);
    }
    var i := FirstIndex(splits, s => Reproduces(x, row, status, s));
    if OrEmpty(g) == "" {
      assert Reproduces(x, row, status, splits[0]);
    } else {
      SplitsOfLocation(f, t, g);
      assert Reproduces(x, row, status, splits[0]) <==> OrEmpty(t) == "" || Indistinct(f, t);
      assert Reproduces(x, row, status, splits[1]) ==> OrEmpty(f) == "" || OrEmpty(t) == "";
      assert OrEmpty(f) == "" ==> Reproduces(x, row, status, splits[1]);
      assert Reproduces(x, row, status, splits[2]) <==> f == t;
      if Recoverable(f, t) {
        assert i < |splits|;
      }
    }
  }

  // ----- Telling the two kinds of writer apart

  function Separators(s: string): nat {
    if s == "" then 0 else (if s[0] == '|' then 1 else 0) + Separators(s[1..])
  }

  lemma {:induction false} SeparatorsAdd(a: string, b: string)
    ensures Separators(a + b) == Separators(a) + Separators(b)
  {
    if a == "" {
      assert a + b == b;
    } else {
      SeparatorsAdd(a[1..], b);
      assert (a + b)[1..] == a[1..] + b;
    }
  }

  lemma SeparatorsBetween(a: string, b: string)
    ensures Separators(a + "|" + b) == Separators(a) + 1 + Separators(b)
  {
    SeparatorsAdd(a + "|", b);
    SeparatorsAdd(a, "|");
    assert Separators("|") == 1 by {
      assert "|"[1..] == "";
    }
  }

  /** Leaving out the description KDEs adds no separator to their rendering. */
  predicate RendersWithin(x: Externals, kdes: Kdes) {
    Separators(x.dumpStableKdes(map k | k in kdes && k !in {"product_description", "description", "item_description"}
                                  :: kdes[k]))
    <= Separators(x.dumpKdes(kdes))
  }

  lemma NativeSeparators(x: Externals, row: LegacyRow)
    ensures Separators(NativeText(x, row))
         == 7 + Separators(row.id) + Separators(row.eventType) + Separators(row.tlc)
          + Separators(x.showQuantity(row.quantity)) + Separators(row.unitOfMeasure)
          + Separators(OrEmpty(row.locationGln)) + Separators(row.timestamp)
          + Separators(x.dumpStableKdes(
              map k | k in row.kdes && k !in {"product_description", "description", "item_description"} :: row.kdes[k]))
  {
    hide Separators;
    var a := row.id;
    SeparatorsBetween(a, row.eventType);
    a := a + "|" + row.eventType;
    SeparatorsBetween(a, row.tlc);
    a := a + "|" + row.tlc;
    SeparatorsBetween(a, x.showQuantity(row.quantity));
    a := a + "|" + x.showQuantity(row.quantity);
    SeparatorsBetween(a, row.unitOfMeasure);
    a := a + "|" + row.unitOfMeasure;
    SeparatorsBetween(a, OrEmpty(row.locationGln));
    a := a + "|" + OrEmpty(row.locationGln);
    SeparatorsBetween(a, row.timestamp);
    a := a + "|" + row.timestamp;
    var stable := map k | k in row.kdes && k !in {"product_description", "description", "item_description"}
                    :: row.kdes[k];
    SeparatorsBetween(a, x.dumpStableKdes(stable));
    assert NativeText(x, row) == a + "|" + x.dumpStableKdes(stable);
  }

  lemma PreimageSeparators(x: Externals, e: Event)
    ensures Separators(Preimage(x, e))
         == 9 + Separators(e.eventId) + Separators(e.eventType) + Separators(e.tlc)
          + Separators(OrEmpty(e.productReference)) + Separators(x.showQuantity(e.quantity))
          + Separators(e.unitOfMeasure) + Separators(OrEmpty(e.fromFacility)) + Separators(OrEmpty(e.toFacility))
          + Separators(e.timestamp) + Separators(x.dumpKdes(e.kdes))
  {
    hide Separators, Preimage;
    PreimageText(x, e);
    var a := e.eventId;
    SeparatorsBetween(a, e.eventType);
    a := a + "|" + e.eventType;
    SeparatorsBetween(a, e.tlc);
    a := a + "|" + e.tlc;
    SeparatorsBetween(a, OrEmpty(e.productReference));
    a := a + "|" + OrEmpty(e.productReference);
    SeparatorsBetween(a, x.showQuantity(e.quantity));
    a := a + "|" + x.showQuantity(e.quantity);
    SeparatorsBetween(a, e.unitOfMeasure);
    a := a + "|" + e.unitOfMeasure;
    SeparatorsBetween(a, OrEmpty(e.fromFacility));
    a := a + "|" + OrEmpty(e.fromFacility);
    SeparatorsBetween(a, OrEmpty(e.toFacility));
    a := a + "|" + OrEmpty(e.toFacility);
    SeparatorsBetween(a, e.timestamp);
    a := a + "|" + e.timestamp;
    SeparatorsBetween(a, x.dumpKdes(e.kdes));
  }

  /** A row with fewer separators in its location than an event's facilities is never both writers' work. */
  lemma WritersDiffer(x: Externals, row: LegacyRow, e: Event)
    requires CollisionFree(x) && RendersWithin(x, row.kdes)
    requires e.eventId == row.id && e.eventType == row.eventType && e.tlc == row.tlc && e.quantity == row.quantity
    requires e.unitOfMeasure == row.unitOfMeasure && e.timestamp == row.timestamp
    requires x.dumpKdes(e.kdes) == x.dumpKdes(row.kdes)
    requires Separators(OrEmpty(row.locationGln)) <= Separators(OrEmpty(e.fromFacility))
      + Separators(OrEmpty(e.toFacility))
    ensures Hash(x, e) != x.sha256(NativeText(x, row))
  {
    hide Separators, NativeText, Preimage;
    NativeSeparators(x, row);
    PreimageSeparators(x, e);
  }

  /** A legacy-native writer's row is refused as its work when no reading reproduces it, and none ever does. */
  lemma NativeRowIsRefused(x: Externals, row: LegacyRow, status: Status)
    requires row.quantity > 0.0
    ensures var n := NativeRow(x, row);
      && (!SomeReadingRecomputes(x, n, status) ==> Reconstruct(x, n, status) == Refused(LegacyNative))
      && (CollisionFree(x) && RendersWithin(x, row.kdes) ==> Reconstruct(x, n, status) == Refused(LegacyNative))
  {
    hide NativeText, RendersWithin, Hash, CollisionFree, Separators;
    var n := NativeRow(x, row);
    assert NativeText(x, n) == NativeText(x, row) by { NativeTextIgnoresHash(x, row); }
    ReconstructSays(x, n, status);
    if CollisionFree(x) && RendersWithin(x, row.kdes) {
      var g := n.locationGln;
      NoSeparators();
      WritersDiffer(x, n, EventFrom(n, g, None, status));
      WritersDiffer(x, n, EventFrom(n, None, g, status));
      WritersDiffer(x, n, EventFrom(n, g, g, status));
      if g in {None, Some("")} {
        WritersDiffer(x, n, EventFrom(n, None, None, status));
      }
    }
  }

  lemma NativeTextIgnoresHash(x: Externals, row: LegacyRow)
    ensures NativeText(x, NativeRow(x, row)) == NativeText(x, row)
  {
  }

  lemma NoSeparators()
    ensures Separators("") == 0
  {
  }

  /**
   * A forward-mapped row that is not proven is called the legacy-native
   * writer's exactly when the two texts coincide, and unreconstructible
   * otherwise; by their separators they never coincide.
   */
  lemma UnprovenReason(x: Externals, e: Event, row: LegacyRow, status: Status)
    requires CollisionFree(x) && SurvivedMapping(x, e, row)
    requires WellFormed(e) && e.quantity > 0.0 && Reconstruct(x, row, status).Refused?
    ensures Reconstruct(x, row, status)
         == Refused(if NativeText(x, row) == Preimage(x, e) then LegacyNative else HashUnreconstructible)
    ensures RendersWithin(x, row.kdes) ==> Reconstruct(x, row, status) == Refused(HashUnreconstructible)
  {
    hide NativeText, RendersWithin, Separators, SomeReadingRecomputes, Preimage;
    ReconstructSays(x, row, status);
    assert row.sha256 == Hash(x, e);
    if RendersWithin(x, row.kdes) {
      LocationWithin(e);
      assert row.locationGln == Location(e);
      WritersDiffer(x, row, e);
    }
  }

  lemma LocationWithin(e: Event)
    ensures Separators(OrEmpty(Location(e))) <= Separators(OrEmpty(e.fromFacility)) + Separators(OrEmpty(e.toFacility))
  {
  }

  /** An event with only the destination "|" comes back as one with only the origin "|". */
  lemma DestinationOfPipesIsMisread(x: Externals, e: Event)
    requires CollisionFree(x) && WellFormed(e) && e.quantity > 0.0 && e.kdes == map[]
    requires e.fromFacility == None && e.toFacility == Some("|")
    ensures var r := Reconstruct(x, Forward(x, e, "", 0), Active);
      r.Proven? && r.shape == FromOnly && r.event.fromFacility == Some("|") && r.event.toFacility == None
  {
    var row := Forward(x, e, "", 0);
    NullFreeKdesSurvive(x, e, "", 0);
    ReconstructionExact(x, e, row, Active);
    assert AllPipes("|");
    var splits := Hypotheses(row.locationGln);
    var i := FirstIndex(splits, s => Reproduces(x, row, Active, s));
    assert Reconstruct(x, row, Active).event.fromFacility == splits[i].fromFacility;
  }

  // ----- What a proven row carries

  /** NULL and '' locations read alike, and the lossy columns take the values the dual write would give them. */
  function Carried(row: LegacyRow): LegacyRow {
    var location := if OrEmpty(row.locationGln) == "" then None else row.locationGln;
    row.(locationGln := location,
         locationName := location,
         kdes := DropNulls(row.kdes),
         validationStatus := if row.validationStatus == "rejected" then "rejected" else "valid")
  }

  /** Mapping a proven event forward again gives back every column the legacy row carried. */
  lemma ProvenMapsBack(x: Externals, row: LegacyRow, status: Status)
    requires Reconstruct(x, row, status).Proven?
    requires status == Rejected <==> row.validationStatus == "rejected"
    ensures var e := Reconstruct(x, row, status).event;
      Forward(x, e, row.chainHash, row.ingestedAt) == Carried(row)
  {
    var splits := Hypotheses(row.locationGln);
    var i := FirstIndex(splits, s => Reproduces(x, row, status, s));
    var e := Reconstruct(x, row, status).event;
    assert Reproduces(x, row, status, splits[i]);
    assert Hash(x, e) == row.sha256;
    assert Location(e) == Carried(row).locationGln;
  }
}
