/** The request plan of the review evaluation: one named request per model, case and variant. */
module ReviewPlan {
  import opened Common

  datatype Case = Case(id: string, original: bool, valid: bool)

  datatype Item = Item(name: string, sha256: string)

  /** Serialization and hashing of a request body. */
  datatype Bodies = Bodies(size: (string, Case, string) -> nat, digest: (string, Case, string) -> string)

  datatype PlanResult = Planned(plan: seq<Item>) | UnsafeIdentifier | InvalidCase | OversizedBody

  const MODELS: seq<string> := ["jev-1.14.0", "jev-1.13.0"]
  const MAX_BODY: nat := 32_000

  predicate IdChar(c: char) {
    'A' <= c <= 'Z' || 'a' <= c <= 'z' || '0' <= c <= '9' || c == '_' || c == '-'
  }

  predicate SafeId(id: string) {
    1 <= |id| <= 80 && forall i :: 0 <= i < |id| ==> IdChar(id[i])
  }

  function Variant(v: nat): string {
    if v == 0 then "base" else "reordered"
  }

  /** Original controls are also asked with their choices reordered. */
  function VariantCount(c: Case): nat {
    if c.original then 2 else 1
  }

  function Name(model: string, id: string, variant: string): string {
    model + "-" + id + "-" + variant
  }

  function ItemFor(b: Bodies, m: nat, c: Case, v: nat): Item
    requires m < |MODELS|
  {
    Item(Name(MODELS[m], c.id, Variant(v)), b.digest(MODELS[m], c, Variant(v)))
  }

  /** One combination that is to be asked. */
  datatype Slot = Slot(model: nat, index: nat, variant: nat)

  predicate InPlan(cases: seq<Case>, s: Slot) {
    s.model < |MODELS| && s.index < |cases| && s.variant < VariantCount(cases[s.index])
  }

  /** Position of a combination in the order the plan is built. */
  function Rank(cases: seq<Case>, s: Slot): nat {
    Base(cases, s.model) + 2 * s.index + s.variant
  }

  function Base(cases: seq<Case>, m: nat): nat {
    if m == 0 then 0 else if m == 1 then 2 * |cases| else 4 * |cases|
  }

  lemma RankDecides(cases: seq<Case>, s: Slot, t: Slot)
    requires InPlan(cases, s) && InPlan(cases, t)
    ensures Rank(cases, s) == Rank(cases, t) ==> s == t
  {
  }

  /** Requests are ordered by model, then by case, then with the base variant before the reordered one. */
  lemma RankIsLexicographic(cases: seq<Case>, s: Slot, t: Slot)
    requires InPlan(cases, s) && InPlan(cases, t)
    ensures Rank(cases, s) < Rank(cases, t) <==>
      || s.model < t.model
      || (s.model == t.model && s.index < t.index)
      || (s.model == t.model && s.index == t.index && s.variant < t.variant)
  {
  }

  /** The base request of a case under a model. */
  function BaseRequest(b: Bodies, model: string, c: Case): Item {
    Item(model + "-" + c.id + "-base", b.digest(model, c, "base"))
  }

  function ReorderedRequest(b: Bodies, model: string, c: Case): Item {
    Item(model + "-" + c.id + "-reordered", b.digest(model, c, "reordered"))
  }

  /** Both models are asked about every case, and about an original control twice; nothing else is asked. */
  ghost predicate AsksExactly(b: Bodies, cases: seq<Case>, plan: seq<Item>) {
    forall x :: x in plan <==>
      exists i, model :: 0 <= i < |cases| && model in {"jev-1.14.0", "jev-1.13.0"}
        && (x == BaseRequest(b, model, cases[i]) || (cases[i].original && x == ReorderedRequest(b, model, cases[i])))
  }

  /** Membership by combination is membership by request text. */
  lemma CombinationsAreRequests(b: Bodies, cases: seq<Case>, plan: seq<Item>)
    requires forall s :: InPlan(cases, s) ==> ItemFor(b, s.model, cases[s.index], s.variant) in plan
    requires forall x :: x in plan ==>
      exists s :: InPlan(cases, s) && x == ItemFor(b, s.model, cases[s.index], s.variant)
    ensures AsksExactly(b, cases, plan)
  {
    forall x | x in plan
      ensures exists i, model ::
        0 <= i < |cases| && model in {"jev-1.14.0", "jev-1.13.0"}
        && (x == BaseRequest(b, model, cases[i]) || (cases[i].original && x == ReorderedRequest(b, model, cases[i])))
    {
      var s :| InPlan(cases, s) && x == ItemFor(b, s.model, cases[s.index], s.variant);
      SlotIsRequest(b, cases, s);
    }
    forall i, model | 0 <= i < |cases| && model in {"jev-1.14.0", "jev-1.13.0"}
      ensures BaseRequest(b, model, cases[i]) in plan
      ensures cases[i].original ==> ReorderedRequest(b, model, cases[i]) in plan
    {
      var m := if model == "jev-1.14.0" then 0 else 1;
      SlotIsRequest(b, cases, Slot(m, i, 0));
      assert InPlan(cases, Slot(m, i, 0));
      if cases[i].original {
        SlotIsRequest(b, cases, Slot(m, i, 1));
        assert InPlan(cases, Slot(m, i, 1));
      }
    }
  }

  lemma SlotIsRequest(b: Bodies, cases: seq<Case>, s: Slot)
    requires InPlan(cases, s)
    ensures MODELS[s.model] == if s.model == 0 then "jev-1.14.0" else "jev-1.13.0"
    ensures s.variant == 1 ==> cases[s.index].original
    ensures ItemFor(b, s.model, cases[s.index], s.variant)
         == if s.variant == 0 then BaseRequest(b, MODELS[s.model], cases[s.index])
            else ReorderedRequest(b, MODELS[s.model], cases[s.index])
  {
    var model, id := MODELS[s.model], cases[s.index].id;
    assert model + "-" + id + "-" + "base" == model + "-" + id + "-base";
    assert model + "-" + id + "-" + "reordered" == model + "-" + id + "-reordered";
  }

  /** A name determines model, case id and variant. */
  lemma NameDeterminesSlot(m1: nat, id1: string, v1: nat, m2: nat, id2: string, v2: nat)
    requires m1 < 2 && m2 < 2 && v1 < 2 && v2 < 2
    requires Name(MODELS[m1], id1, Variant(v1)) == Name(MODELS[m2], id2, Variant(v2))
    ensures m1 == m2 && id1 == id2 && v1 == v2
  {
    var n1, n2 := Name(MODELS[m1], id1, Variant(v1)), Name(MODELS[m2], id2, Variant(v2));
    assert n1[7] == MODELS[m1][7] && n2[7] == MODELS[m2][7];
    assert n1[|n1| - 1] == Variant(v1)[|Variant(v1)| - 1];
    assert n2[|n2| - 1] == Variant(v2)[|Variant(v2)| - 1];
    assert m1 == m2 && v1 == v2;
    var tail := 1 + |Variant(v1)|;
    assert |n1| == 11 + |id1| + tail && |n2| == 11 + |id2| + tail;
    assert id1 == n1[11..|n1| - tail];
    assert id2 == n2[11..|n2| - tail];
  }

  /**
   * The plan holds, each once and in order, the combinations ranked below the
   * bound, and their bodies all fit.
   */
  ghost predicate SlotsOf(b: Bodies, cases: seq<Case>, plan: seq<Item>, slots: seq<Slot>, bound: nat) {
    && |slots| == |plan|
    && (forall i :: 0 <= i < |slots| ==>
          InPlan(cases, slots[i])
          && plan[i] == ItemFor(b, slots[i].model, cases[slots[i].index], slots[i].variant)
          && Rank(cases, slots[i]) < bound)
    && (forall i, j :: 0 <= i < j < |slots| ==> Rank(cases, slots[i]) < Rank(cases, slots[j]))
    && (forall s :: InPlan(cases, s) && Rank(cases, s) < bound ==> s in slots)
    && (forall s :: InPlan(cases, s) && Rank(cases, s) < bound ==>
          b.size(MODELS[s.model], cases[s.index], Variant(s.variant)) <= MAX_BODY)
  }

  predicate UniqueIds(cases: seq<Case>) {
    forall i, j :: 0 <= i < j < |cases| ==> cases[i].id != cases[j].id
  }

  predicate UniqueNames(plan: seq<Item>) {
    forall i, j :: 0 <= i < j < |plan| ==> plan[i].name != plan[j].name
  }

  predicate Fits(b: Bodies, cases: seq<Case>, s: Slot)
    requires InPlan(cases, s)
  {
    b.size(MODELS[s.model], cases[s.index], Variant(s.variant)) <= MAX_BODY
  }

  /**
   * Builds the plan, or names the first kind of problem. A built plan holds
   * exactly one request per combination, by model, case and variant, and its names are all different
   * exactly when the case ids are.
   */
  method BuildPlan(b: Bodies, cases: seq<Case>) returns (r: PlanResult)
    ensures r.UnsafeIdentifier? <==> exists i :: 0 <= i < |cases| && !SafeId(cases[i].id)
    ensures r.InvalidCase? <==> !r.UnsafeIdentifier? && exists i :: 0 <= i < |cases| && !cases[i].valid
    ensures r.OversizedBody? <==>
      !r.UnsafeIdentifier? && !r.InvalidCase? && exists s :: InPlan(cases, s) && !Fits(b, cases, s)
    ensures r.Planned? ==>
      && (forall i :: 0 <= i < |cases| ==> SafeId(cases[i].id) && cases[i].valid)
      && (forall s :: InPlan(cases, s) ==> Fits(b, cases, s))
      && (forall s :: InPlan(cases, s) ==> ItemFor(b, s.model, cases[s.index], s.variant) in r.plan)
      && (forall x :: x in r.plan ==>
            exists s :: InPlan(cases, s) && x == ItemFor(b, s.model, cases[s.index], s.variant))
      && AsksExactly(b, cases, r.plan)
      && (UniqueNames(r.plan) <==> UniqueIds(cases))
      && (exists slots :: SlotsOf(b, cases, r.plan, slots, 4 * |cases|))
  {
    if exists i :: 0 <= i < |cases| && !SafeId(cases[i].id) {
      return UnsafeIdentifier;
    }
    for i := 0 to |cases|
      invariant forall k :: 0 <= k < i ==> cases[k].valid
    {
      if !cases[i].valid {
        return InvalidCase;
      }
    }
    var plan: seq<Item> := [];
    ghost var slots: seq<Slot> := [];
    assert SlotsOf(b, cases, plan, slots, 0);
    hide SlotsOf, Fits, InPlan, ItemFor, SafeId, AsksExactly;
    for m := 0 to |MODELS|
      invariant SlotsOf(b, cases, plan, slots, Base(cases, m))
    {
      for c := 0 to |cases|
        invariant SlotsOf(b, cases, plan, slots, Base(cases, m) + 2 * c)
      {
        var fits;
        fits, plan, slots := PlanCase(b, cases, m, c, plan, slots);
        if !fits {
          return OversizedBody;
        }
      }
    }
    Summarize(b, cases, plan, slots);
    CombinationsAreRequests(b, cases, plan);
    return Planned(plan);
  }

  /** The requests of one case under one model. */
  method PlanCase(b: Bodies, cases: seq<Case>, m: nat, c: nat, before: seq<Item>, ghost slots0: seq<Slot>)
    returns (fits: bool, plan: seq<Item>, ghost slots: seq<Slot>)
    requires m < |MODELS| && c < |cases|
    requires SlotsOf(b, cases, before, slots0, Base(cases, m) + 2 * c)
    ensures fits ==> SlotsOf(b, cases, plan, slots, Base(cases, m) + 2 * (c + 1))
    ensures !fits ==> exists s :: InPlan(cases, s) && !Fits(b, cases, s)
  {
    hide SlotsOf;
    plan, slots, fits := before, slots0, true;
    for v := 0 to VariantCount(cases[c])
      invariant SlotsOf(b, cases, plan, slots, Base(cases, m) + 2 * c + v)
      invariant fits
    {
      ghost var slot := Slot(m, c, v);
      if b.size(MODELS[m], cases[c], Variant(v)) > MAX_BODY {
        assert InPlan(cases, slot) && !Fits(b, cases, slot);
        fits := false;
        return;
      }
      Extend(b, cases, plan, slots, slot, Base(cases, m) + 2 * c + v);
      plan := plan + [ItemFor(b, m, cases[c], v)];
      slots := slots + [slot];
    }
    NoSlotBetween(b, cases, plan, slots, m, c);
  }

  lemma Extend(b: Bodies, cases: seq<Case>, plan: seq<Item>, slots: seq<Slot>, slot: Slot, bound: nat)
    requires SlotsOf(b, cases, plan, slots, bound)
    requires InPlan(cases, slot) && Rank(cases, slot) == bound && Fits(b, cases, slot)
    ensures SlotsOf(b, cases, plan + [ItemFor(b, slot.model, cases[slot.index], slot.variant)], slots + [slot],
      bound + 1)
  {
    forall s | InPlan(cases, s) && Rank(cases, s) < bound + 1
      ensures s in slots + [slot]
      ensures b.size(MODELS[s.model], cases[s.index], Variant(s.variant)) <= MAX_BODY
    {
      if Rank(cases, s) == bound {
        RankDecides(cases, s, slot);
      }
    }
  }

  /** A held-out case leaves its second place empty. */
  lemma NoSlotBetween(b: Bodies, cases: seq<Case>, plan: seq<Item>, slots: seq<Slot>, m: nat, c: nat)
    requires m < |MODELS| && c < |cases|
    requires SlotsOf(b, cases, plan, slots, Base(cases, m) + 2 * c + VariantCount(cases[c]))
    ensures SlotsOf(b, cases, plan, slots, Base(cases, m) + 2 * (c + 1))
  {
    forall s | InPlan(cases, s) && Rank(cases, s) < Base(cases, m) + 2 * (c + 1)
      ensures Rank(cases, s) < Base(cases, m) + 2 * c + VariantCount(cases[c])
    {
      if s.model == m && s.index == c {
        assert s.variant < VariantCount(cases[c]);
      }
    }
  }

  lemma Summarize(b: Bodies, cases: seq<Case>, plan: seq<Item>, slots: seq<Slot>)
    requires SlotsOf(b, cases, plan, slots, 4 * |cases|)
    ensures forall s :: InPlan(cases, s) ==> Fits(b, cases, s)
    ensures forall s :: InPlan(cases, s) ==> ItemFor(b, s.model, cases[s.index], s.variant) in plan
    ensures forall x :: x in plan ==>
      exists s :: InPlan(cases, s) && x == ItemFor(b, s.model, cases[s.index], s.variant)
    ensures UniqueNames(plan) <==> UniqueIds(cases)
  {
    forall s | InPlan(cases, s)
      ensures Fits(b, cases, s) && ItemFor(b, s.model, cases[s.index], s.variant) in plan
    {
      var k := Place(b, cases, plan, slots, s);
    }
    NamesAreUniqueIff(b, cases, plan, slots);
  }

  /** Where a combination sits in a finished plan. */
  lemma Place(b: Bodies, cases: seq<Case>, plan: seq<Item>, slots: seq<Slot>, s: Slot) returns (k: nat)
    requires SlotsOf(b, cases, plan, slots, 4 * |cases|) && InPlan(cases, s)
    ensures Fits(b, cases, s) && k < |plan| && slots[k] == s
      && plan[k] == ItemFor(b, s.model, cases[s.index], s.variant)
  {
    assert Rank(cases, s) < 4 * |cases|;
    k :| 0 <= k < |slots| && slots[k] == s;
  }

  lemma NamesAreUniqueIff(b: Bodies, cases: seq<Case>, plan: seq<Item>, slots: seq<Slot>)
    requires SlotsOf(b, cases, plan, slots, 4 * |cases|)
    ensures UniqueNames(plan) <==> UniqueIds(cases)
  {
    if UniqueIds(cases) {
      forall i, j | 0 <= i < j < |plan| ensures plan[i].name != plan[j].name {
        DistinctSlotsDistinctNames(b, cases, slots[i], slots[j]);
      }
    } else {
      var i, j :| 0 <= i < j < |cases| && cases[i].id == cases[j].id;
      var x := Place(b, cases, plan, slots, Slot(0, i, 0));
      var y := Place(b, cases, plan, slots, Slot(0, j, 0));
      assert plan[x].name == plan[y].name && x != y;
    }
  }

  lemma DistinctSlotsDistinctNames(b: Bodies, cases: seq<Case>, s: Slot, t: Slot)
    requires UniqueIds(cases) && InPlan(cases, s) && InPlan(cases, t) && s != t
    ensures ItemFor(b, s.model, cases[s.index], s.variant).name != ItemFor(b, t.model, cases[t.index], t.variant).name
  {
    if ItemFor(b, s.model, cases[s.index], s.variant).name == ItemFor(b, t.model, cases[t.index], t.variant).name {
      NameDeterminesSlot(s.model, cases[s.index].id, s.variant, t.model, cases[t.index].id, t.variant);
      assert false;
    }
  }
}
