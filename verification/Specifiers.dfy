/** Version specifiers: which pins a requirement allows, the floors it declares, and the drift guard built on them. */
module Specifiers {
  import opened Common
  import opened Versions

  /** The operators `===`, `==`, `!=`, `~=`, `>=`, `<=`, `>` and `<`. */
  datatype Op = Identical | Exactly | Differs | Compatible | AtLeast | AtMost | Above | Below

  datatype Clause = Clause(op: Op, raw: string)

  type Specifier = seq<Clause>

  type Package = string

  /** How text is read: a version, or none when the text is not one; and the dot-separated pieces that are numbers. */
  datatype Reader = Reader(version: string -> Option<Version>, numbers: string -> seq<nat>)

  /** A pinned version with the text it was read from. */
  datatype Pin = Pin(raw: string, version: Version)

  predicate Wildcard(raw: string) {
    |raw| >= 2 && raw[|raw| - 2..] == ".*"
  }

  function Base(raw: string): string {
    if Wildcard(raw) then raw[..|raw| - 2] else raw
  }

  predicate ByPrefix(c: Clause) {
    Wildcard(c.raw) && (c.op.Exactly? || c.op.Differs?)
  }

  // ---- What the guard computes ----

  datatype Outcome = Met | Unmet | Unparseable | TooShort

  function Compare(op: Op, bound: Version, pin: Version): Outcome {
    if op.Compatible? && |bound.release| < 2 then TooShort
    else
      var ok := match op
        case Exactly => Eq(pin, bound)
        case Differs => !Eq(pin, bound)
        case AtLeast => Ge(pin, bound)
        case Above => Gt(pin, bound)
        case AtMost => Le(pin, bound)
        case Below => Lt(pin, bound)
        case Compatible => Ge(pin, bound) && PrefixMatch(pin, bound.release[..|bound.release| - 1])
        case Identical => true;
      if ok then Met else Unmet
  }

  function Judge(r: Reader, c: Clause, pin: Pin): Outcome {
    if c.op.Identical? then
      if pin.raw == c.raw then Met else Unmet
    else if ByPrefix(c) then
      if PrefixMatch(pin.version, r.numbers(Base(c.raw))) == c.op.Exactly? then Met else Unmet
    else
      match r.version(Base(c.raw))
      case None => Unparseable
      case Some(bound) => Compare(c.op, bound, pin.version)
  }

  /** A text with the wildcard ending is read without it, any other as it is. */
  lemma BaseSays(x: string)
    ensures Wildcard(x + ".*") && Base(x + ".*") == x
    ensures Base(x) == x || Base(x) + ".*" == x
  {
    assert (x + ".*")[|x|..] == ".*" && (x + ".*")[..|x|] == x;
    if Wildcard(x) {
      assert x == x[..|x| - 2] + x[|x| - 2..];
    }
  }

  // ---- What a clause means, over the reference order ----

  /**
   * `~=`: the half-open interval from the bound to its prefix raised by one;
   * pins of a later epoch pass by prefix alone.
   */
  ghost predicate InCompatibleRange(bound: Version, pin: Version)
    requires |bound.release| >= 2
  {
    var want := bound.release[..|bound.release| - 1];
    && |pin.release| >= |want|
    && (if pin.epoch == bound.epoch
        then !Precedes(pin, bound) && Precedes(pin, UpperBound(bound.epoch, want))
        else pin.epoch > bound.epoch && PrefixMatch(pin, want))
  }

  ghost predicate InRange(op: Op, bound: Version, pin: Version) {
    match op
    case Exactly => Same(pin, bound)
    case Differs => !Same(pin, bound)
    case AtLeast => !Precedes(pin, bound)
    case Above => Precedes(bound, pin)
    case AtMost => !Precedes(bound, pin)
    case Below => Precedes(pin, bound)
    case Compatible => |bound.release| >= 2 && InCompatibleRange(bound, pin)
    case Identical => true
  }

  ghost predicate Meets(r: Reader, c: Clause, pin: Pin) {
    if c.op.Identical? then pin.raw == c.raw
    else if ByPrefix(c) then
      PrefixMatch(pin.version, r.numbers(Base(c.raw))) <==> c.op.Exactly?
    else
      r.version(Base(c.raw)).Some? && InRange(c.op, r.version(Base(c.raw)).value, pin.version)
  }

  ghost predicate Allows(r: Reader, spec: Specifier, pin: Pin) {
    forall i :: 0 <= i < |spec| ==> Meets(r, spec[i], pin)
  }

  /** `~=` accepts exactly its range, for every bound of two parts or more and every pin. */
  lemma CompatibleIsRange(bound: Version, pin: Version)
    requires |bound.release| >= 2
    ensures Compare(Compatible, bound, pin).Met? <==> InCompatibleRange(bound, pin)
  {
    hide Precedes, Ge;
    var want := bound.release[..|bound.release| - 1];
    OperatorsMean(pin, bound);
    if pin.epoch != bound.epoch {
      assert Precedes(pin, bound) <==> pin.epoch < bound.epoch by {
        EpochDecides(pin, bound);
      }
    } else if |pin.release| >= |want| && !Precedes(pin, bound) {
      MatchIffBelow(bound, pin, want);
    }
  }

  lemma EpochDecides(a: Version, b: Version)
    requires a.epoch != b.epoch
    ensures Precedes(a, b) <==> a.epoch < b.epoch
  {
  }

  lemma JudgeMeans(r: Reader, c: Clause, pin: Pin)
    ensures Judge(r, c, pin).Met? <==> Meets(r, c, pin)
  {
    hide Precedes, Same, Eq, Lt, Le, Gt, Ge, InCompatibleRange;
    if !c.op.Identical? && !ByPrefix(c) && r.version(Base(c.raw)).Some? {
      var bound := r.version(Base(c.raw)).value;
      OperatorsMean(pin.version, bound);
      if |bound.release| >= 2 {
        CompatibleIsRange(bound, pin.version);
      }
    }
  }

  /**
   * What each comparing operator makes of a pin before its bound, at it and
   * after it.
   */
  lemma OperatorTable(bound: Version, pin: Version)
    ensures Precedes(pin, bound) ==>
      && Compare(Below, bound, pin).Met? && Compare(AtMost, bound, pin).Met? && Compare(Differs, bound, pin).Met?
      && Compare(AtLeast, bound, pin).Unmet? && Compare(Above, bound, pin).Unmet?
      && Compare(Exactly, bound, pin).Unmet? && !Compare(Compatible, bound, pin).Met?
    ensures Same(pin, bound) ==>
      && Compare(AtMost, bound, pin).Met? && Compare(AtLeast, bound, pin).Met? && Compare(Exactly, bound, pin).Met?
      && Compare(Below, bound, pin).Unmet? && Compare(Above, bound, pin).Unmet? && Compare(Differs, bound, pin).Unmet?
    ensures Precedes(bound, pin) ==>
      && Compare(Above, bound, pin).Met? && Compare(AtLeast, bound, pin).Met? && Compare(Differs, bound, pin).Met?
      && Compare(Below, bound, pin).Unmet? && Compare(AtMost, bound, pin).Unmet? && Compare(Exactly, bound, pin).Unmet?
    ensures Compare(Compatible, bound, pin).TooShort? <==> |bound.release| < 2
  {
    hide Precedes, Same, Eq, Lt, Le, Gt, Ge, PrefixMatch;
    OperatorsMean(pin, bound);
    OperatorsMean(bound, pin);
    PrecedesTotal(pin, bound);
  }

  /**
   * With a wildcard only `==` and `!=` look at the release's first parts; the
   * other operators read their bound without it, and `===` compares the texts.
   */
  lemma WildcardTable(r: Reader, base: string, pin: Pin)
    ensures var raw, want, v := base + ".*", r.numbers(base), pin.version.release;
      var matches := |want| <= |v| && v[..|want|] == want;
      && Judge(r, Clause(Exactly, raw), pin) == (if matches then Met else Unmet)
      && Judge(r, Clause(Differs, raw), pin) == (if matches then Unmet else Met)
      && Judge(r, Clause(Identical, raw), pin) == (if pin.raw == raw then Met else Unmet)
      && forall op :: op in {AtLeast, AtMost, Above, Below, Compatible} ==>
           Judge(r, Clause(op, raw), pin)
           == if r.version(base).None? then Unparseable else Compare(op, r.version(base).value, pin.version)
  {
    hide Compare;
    BaseSays(base);
    var want, v := r.numbers(base), pin.version.release;
    assert want <= v <==> |want| <= |v| && v[..|want|] == want;
  }

  /** Without one every operator but `===` compares with the bound its text reads as. */
  lemma PlainTable(r: Reader, op: Op, raw: string, pin: Pin)
    requires |raw| < 2 || raw[|raw| - 2..] != ".*"
    ensures Judge(r, Clause(Identical, raw), pin) == (if pin.raw == raw then Met else Unmet)
    ensures op != Identical ==>
      Judge(r, Clause(op, raw), pin)
      == if r.version(raw).None? then Unparseable else Compare(op, r.version(raw).value, pin.version)
  {
    hide Compare;
  }

  /** A later epoch passes `~=` although it is far above the range: 1!1.19.5 is accepted by ~=1.19.1. */
  lemma CompatibleIgnoresLaterEpochs()
    ensures Compare(Compatible, Key(0, [1, 19, 1], Final, 0, -1, NO_DEV), Key(1, [1, 19, 5], Final, 0, -1, NO_DEV)).Met?
    ensures !Precedes(Key(1, [1, 19, 5], Final, 0, -1, NO_DEV), UpperBound(0, [1, 19]))
  {
    hide Ge;
    var bound: Version := Key(0, [1, 19, 1], Final, 0, -1, NO_DEV);
    var later: Version := Key(1, [1, 19, 5], Final, 0, -1, NO_DEV);
    OperatorsMean(later, bound);
    EpochDecides(later, bound);
    EpochDecides(later, UpperBound(0, [1, 19]));
    assert bound.release[..2] == [1, 19];
    assert later.release[..2] == [1, 19];
  }

  /** A pin shorter than the prefix is refused even where the order calls it equal to the bound: 2 against ~=2.0.0. */
  lemma ShortPinIsRefused()
    ensures Eq(Key(0, [2], Final, 0, -1, NO_DEV), Key(0, [2, 0, 0], Final, 0, -1, NO_DEV))
    ensures Compare(Compatible, Key(0, [2, 0, 0], Final, 0, -1, NO_DEV), Key(0, [2], Final, 0, -1, NO_DEV)).Unmet?
  {
    var pin: Version := Key(0, [2], Final, 0, -1, NO_DEV);
    TrailingZeros(pin, 2);
    assert pin.release + Zeros(2) == [2, 0, 0];
  }

  // ---- specifier_allows ----

  datatype Verdict = Satisfied | Fails(index: nat, why: Outcome)

  /** The verdict names the first clause the pin does not meet, and says when its bound could not be read. */
  ghost predicate Explains(r: Reader, spec: Specifier, pin: Pin, v: Verdict) {
    && v.Fails? && v.index < |spec|
    && !Meets(r, spec[v.index], pin)
    && Allows(r, spec[..v.index], pin)
    && (v.why.Unparseable? <==>
          !spec[v.index].op.Identical? && !ByPrefix(spec[v.index]) && r.version(Base(spec[v.index].raw)).None?)
    && (v.why.TooShort? <==>
          spec[v.index].op.Compatible? && r.version(Base(spec[v.index].raw)).Some?
          && |r.version(Base(spec[v.index].raw)).value.release| < 2)
  }

  method SpecifierAllows(r: Reader, spec: Specifier, pin: Pin) returns (v: Verdict)
    ensures v.Satisfied? <==> Allows(r, spec, pin)
    ensures v.Fails? ==> Explains(r, spec, pin, v)
  {
    hide Meets;
    for i := 0 to |spec|
      invariant forall k :: 0 <= k < i ==> Meets(r, spec[k], pin)
    {
      var outcome := Judge(r, spec[i], pin);
      JudgeMeans(r, spec[i], pin);
      if !outcome.Met? {
        assert Allows(r, spec[..i], pin);
        return Fails(i, outcome);
      }
    }
    return Satisfied;
  }

  // ---- The allowed pins have no gaps ----

  /** The release is long enough for whatever prefix match the clause makes. */
  ghost predicate LongEnough(r: Reader, c: Clause, v: Version) {
    && (ByPrefix(c) ==> |v.release| >= |r.numbers(Base(c.raw))|)
    && (c.op.Compatible? && r.version(Base(c.raw)).Some? ==> |v.release| >= |r.version(Base(c.raw)).value.release| - 1)
  }

  lemma ClauseHasNoGaps(r: Reader, c: Clause, low: Pin, pin: Pin, high: Pin)
    requires !c.op.Differs? && !c.op.Identical? && LongEnough(r, c, pin.version)
    requires low.version.epoch == pin.version.epoch == high.version.epoch
    requires !Precedes(pin.version, low.version) && !Precedes(high.version, pin.version)
    requires Meets(r, c, low) && Meets(r, c, high)
    ensures Meets(r, c, pin)
  {
    hide Precedes, Same;
    if ByPrefix(c) {
      MatchesHaveNoGaps(low.version, pin.version, high.version, r.numbers(Base(c.raw)));
    } else {
      var bound := r.version(Base(c.raw)).value;
      Between(low.version, pin.version, high.version, bound);
      if c.op.Compatible? {
        var want := bound.release[..|bound.release| - 1];
        Between(low.version, pin.version, high.version, UpperBound(bound.epoch, want));
        if pin.version.epoch != bound.epoch {
          MatchesHaveNoGaps(low.version, pin.version, high.version, want);
        }
      }
    }
  }

  lemma Between(low: Version, v: Version, high: Version, b: Version)
    requires !Precedes(v, low) && !Precedes(high, v)
    ensures !Precedes(low, b) ==> !Precedes(v, b)
    ensures !Precedes(b, high) ==> !Precedes(b, v)
    ensures Precedes(b, low) ==> Precedes(b, v)
    ensures Precedes(high, b) ==> Precedes(v, b)
    ensures Same(low, b) && Same(high, b) ==> Same(v, b)
  {
    hide Precedes, Same;
    PrecedesTransitive(b, low, v);
    PrecedesTransitive(v, high, b);
    PrecedesTransitive(low, v, b);
    PrecedesTransitive(b, v, low);
    PrecedesTransitive(b, v, high);
    PrecedesTransitive(high, v, b);
    PrecedesTransitive(low, b, v);
    PrecedesTransitive(high, b, v);
    PrecedesTotal(low, b);
    PrecedesTotal(high, b);
    PrecedesTotal(v, b);
    PrecedesTotal(v, low);
    PrecedesTotal(v, high);
  }

  /** Between two allowed pins of one epoch every long enough version is allowed. */
  lemma AllowedPinsHaveNoGaps(r: Reader, spec: Specifier, low: Pin, pin: Pin, high: Pin)
    requires forall i :: 0 <= i < |spec| ==>
      !spec[i].op.Differs? && !spec[i].op.Identical? && LongEnough(r, spec[i], pin.version)
    requires low.version.epoch == high.version.epoch
    requires !Precedes(pin.version, low.version) && !Precedes(high.version, pin.version)
    requires Allows(r, spec, low) && Allows(r, spec, high)
    ensures Allows(r, spec, pin)
  {
    assert pin.version.epoch == low.version.epoch;
    hide Meets, Precedes, LongEnough;
    forall i | 0 <= i < |spec| ensures Meets(r, spec[i], pin) {
      ClauseHasNoGaps(r, spec[i], low, pin, high);
    }
  }

  // ---- Floors ----

  /** The lower bound a clause declares, if it declares one that can be read. */
  function Bound(r: Reader, c: Clause): Option<Version> {
    if c.op.AtLeast? || c.op.Exactly? || c.op.Compatible? || c.op.Identical? then r.version(Base(c.raw)) else None
  }

  /** `floor` is a greatest lower bound declared by the specifier. */
  ghost predicate GreatestBound(r: Reader, spec: Specifier, floor: Version) {
    && (exists i :: 0 <= i < |spec| && Bound(r, spec[i]) == Some(floor))
    && forall i :: 0 <= i < |spec| && Bound(r, spec[i]).Some? ==> !Precedes(floor, Bound(r, spec[i]).value)
  }

  ghost predicate Unbounded(r: Reader, spec: Specifier) {
    forall i :: 0 <= i < |spec| ==> Bound(r, spec[i]).None?
  }

  ghost predicate FloorOf(r: Reader, spec: Specifier, floor: Option<Version>) {
    if floor.Some? then GreatestBound(r, spec, floor.value) else Unbounded(r, spec)
  }

  lemma FloorExtends(r: Reader, spec: Specifier, c: Clause, before: Option<Version>, after: Option<Version>)
    requires FloorOf(r, spec, before)
    requires after == if Bound(r, c).Some?
      && (before.None? || Gt(Bound(r, c).value, before.value)) then Bound(r, c) else before
    ensures FloorOf(r, spec + [c], after)
  {
    hide Precedes, Gt;
    var longer := spec + [c];
    assert forall i :: 0 <= i < |spec| ==> longer[i] == spec[i];
    assert longer[|spec|] == c;
    if after.Some? {
      PrecedesTotal(after.value, after.value);
      if before.Some? && Bound(r, c).Some? {
        var b := Bound(r, c).value;
        OperatorsMean(b, before.value);
        forall i | 0 <= i < |longer| && Bound(r, longer[i]).Some?
          ensures !Precedes(after.value, Bound(r, longer[i]).value)
        {
          if i < |spec| {
            assert Bound(r, spec[i]).Some?;
            PrecedesTransitive(Bound(r, spec[i]).value, before.value, b);
            PrecedesTotal(before.value, b);
          }
        }
      }
      if after == Bound(r, c) {
        assert Bound(r, longer[|spec|]) == Some(after.value);
      } else {
        var i :| 0 <= i < |spec| && Bound(r, spec[i]) == Some(before.value);
        assert Bound(r, longer[i]) == Some(after.value);
      }
    }
  }

  /** Each package's floor is a greatest of the bounds its specifier declares; a package without one has no floor. */
  method FloorsFrom(r: Reader, specs: map<Package, Specifier>) returns (floors: map<Package, Version>)
    ensures forall p :: p in floors ==> p in specs && GreatestBound(r, specs[p], floors[p])
    ensures forall p :: p in specs && p !in floors ==> Unbounded(r, specs[p])
    ensures forall p, i :: p in specs && 0 <= i < |specs[p]| && DeclaresBound(r, specs[p][i]) ==>
      p in floors && !Precedes(floors[p], r.version(Base(specs[p][i].raw)).value)
    ensures forall p :: p in floors ==>
      exists i :: 0 <= i < |specs[p]| && DeclaresBound(r, specs[p][i])
                  && r.version(Base(specs[p][i].raw)).value == floors[p]
  {
    floors := GreatestBounds(r, specs);
    hide Precedes;
    forall p | p in floors
      ensures exists i :: 0 <= i < |specs[p]| && DeclaresBound(r, specs[p][i])
                          && r.version(Base(specs[p][i].raw)).value == floors[p]
    {
      var i :| 0 <= i < |specs[p]| && Bound(r, specs[p][i]) == Some(floors[p]);
      BoundSays(r, specs[p][i]);
    }
    forall p, i | p in specs && 0 <= i < |specs[p]| && DeclaresBound(r, specs[p][i])
      ensures p in floors && !Precedes(floors[p], r.version(Base(specs[p][i].raw)).value)
    {
      BoundSays(r, specs[p][i]);
    }
  }

  /** One of the four operators that promise no less than their version, with a version that can be read. */
  predicate DeclaresBound(r: Reader, c: Clause) {
    c.op !in {Differs, AtMost, Above, Below} && r.version(Base(c.raw)).Some?
  }

  lemma BoundSays(r: Reader, c: Clause)
    ensures Bound(r, c) == if DeclaresBound(r, c) then Some(r.version(Base(c.raw)).value) else None
  {
  }

  method GreatestBounds(r: Reader, specs: map<Package, Specifier>) returns (floors: map<Package, Version>)
    ensures forall p :: p in floors ==> p in specs && GreatestBound(r, specs[p], floors[p])
    ensures forall p :: p in specs && p !in floors ==> Unbounded(r, specs[p])
  {
    hide GreatestBound, Unbounded;
    floors := map[];
    var todo := specs.Keys;
    while todo != {}
      invariant todo <= specs.Keys && floors.Keys <= specs.Keys - todo
      invariant forall p :: p in floors ==> GreatestBound(r, specs[p], floors[p])
      invariant forall p :: p in specs && p !in todo && p !in floors ==> Unbounded(r, specs[p])
    {
      var p :| p in todo;
      var spec := specs[p];
      var floor: Option<Version> := None;
      assert FloorOf(r, spec[..0], floor) by {
        EmptyUnbounded(r);
      }
      for i := 0 to |spec|
        invariant FloorOf(r, spec[..i], floor)
      {
        var before := floor;
        var bound := Bound(r, spec[i]);
        if bound.Some? && (floor.None? || Gt(bound.value, floor.value)) {
          floor := bound;
        }
        FloorExtends(r, spec[..i], spec[i], before, floor);
        assert spec[..i + 1] == spec[..i] + [spec[i]];
      }
      assert spec[..|spec|] == spec;
      if floor.Some? {
        floors := floors[p := floor.value];
      }
      todo := todo - {p};
    }
  }

  lemma EmptyUnbounded(r: Reader)
    ensures Unbounded(r, [])
  {
  }

  /** The reader takes a pin's text for the pin's version, and no text ending in a wildcard for a version. */
  ghost predicate ReadsBack(r: Reader, pin: Pin) {
    r.version(pin.raw) == Some(pin.version) && !Wildcard(pin.raw)
  }

  /** A pin that meets a clause is at or above the bound the clause declares, unless the clause is `==X.*`. */
  lemma MeetsBound(r: Reader, c: Clause, pin: Pin)
    requires Meets(r, c, pin) && Bound(r, c).Some? && !ByPrefix(c) && ReadsBack(r, pin)
    ensures !Precedes(pin.version, Bound(r, c).value)
  {
    hide Precedes, Same;
    var bound := Bound(r, c).value;
    PrecedesTotal(pin.version, bound);
    if c.op.Compatible? && pin.version.epoch != bound.epoch {
      EpochDecides(pin.version, bound);
    }
  }

  /** The first part in which a prefix differs from a version's zero-extended release, or its length. */
  function FirstDifference(want: seq<nat>, bound: Version): (m: nat)
    ensures m <= |want|
    ensures forall k :: 0 <= k < m ==> want[k] == Part(bound, k)
    ensures m < |want| ==> want[m] != Part(bound, m)
  {
    if want == [] then 0
    else
      var m := FirstDifference(want[..|want| - 1], bound);
      if m < |want| - 1 || want[|want| - 1] != Part(bound, |want| - 1) then m else |want|
  }

  /** What is left of a version when the first parts of its release are taken off. */
  function Rest(v: Version, n: nat): Version {
    v.(release := if n < |v.release| then v.release[n..] else [0])
  }

  lemma RestDecides(v: Version, bound: Version, n: nat)
    requires v.epoch == bound.epoch && AgreeBelow(v, bound, n)
    ensures Precedes(v, bound) <==> Precedes(Rest(v, n), Rest(bound, n))
  {
    hide LexLess;
    var x, y := Rest(v, n), Rest(bound, n);
    forall k: nat ensures Part(x, k) == Part(v, n + k) && Part(y, k) == Part(bound, n + k) {
    }
    forall k: nat | LessAt(x, y, k) ensures LessAt(v, bound, n + k) {
      forall j: nat | n <= j < n + k ensures Part(v, j) == Part(bound, j) {
        assert Part(x, j - n) == Part(y, j - n);
      }
    }
    forall k: nat | LessAt(v, bound, k) ensures k >= n && LessAt(x, y, k - n) {
    }
    if SameRelease(x, y) {
      forall j: nat ensures Part(v, j) == Part(bound, j) {
        if j >= n {
          assert Part(x, j - n) == Part(y, j - n);
        }
      }
    }
  }

  /**
   * A pin that meets `==X.*` is below the bound read from that clause exactly
   * when it is of an earlier epoch, or of the same and what X spells in numbers
   * comes before the bound's release, or agrees with it and what the pin adds
   * comes before what is left of the bound.
   */
  lemma WildcardBelowBoundIff(r: Reader, c: Clause, pin: Pin)
    requires c.op.Exactly? && Wildcard(c.raw) && Meets(r, c, pin) && Bound(r, c).Some?
    ensures var bound, want := Bound(r, c).value, r.numbers(Base(c.raw));
      var m := FirstDifference(want, bound);
      Precedes(pin.version, bound)
      <==> (pin.version.epoch < bound.epoch
            || (pin.version.epoch == bound.epoch
                && if m < |want| then want[m] < Part(bound, m)
                   else Precedes(Rest(pin.version, |want|), Rest(bound, |want|))))
  {
    hide Precedes;
    var bound, want, v := Bound(r, c).value, r.numbers(Base(c.raw)), pin.version;
    var m := FirstDifference(want, bound);
    assert forall k :: 0 <= k < |want| ==> Part(v, k) == want[k];
    assert AgreeBelow(v, bound, m);
    if v.epoch != bound.epoch {
      EpochDecides(v, bound);
    } else if m < |want| {
      MismatchDecides(v, bound, m);
    } else {
      RestDecides(v, bound, |want|);
    }
  }

  /** With X read as the release it spells: the pin adds only zeros and the rest of its key comes before X's. */
  lemma ReleaseWildcardBelowBoundIff(r: Reader, c: Clause, pin: Pin)
    requires c.op.Exactly? && Wildcard(c.raw) && Meets(r, c, pin)
    requires Bound(r, c).Some? && Bound(r, c).value.release == r.numbers(Base(c.raw))
    ensures var bound := Bound(r, c).value;
      Precedes(pin.version, bound)
      <==> (pin.version.epoch < bound.epoch
            || (pin.version.epoch == bound.epoch && AddsOnlyZeros(pin.version, bound)
                && LexLess(Tail(pin.version), Tail(bound))))
  {
    hide LexLess, Tail;
    var bound, v := Bound(r, c).value, pin.version;
    assert AgreeBelow(v, bound, |bound.release|);
    assert forall j: nat :: j >= |bound.release| ==> Part(bound, j) == 0;
    assert forall j: nat :: !LessAt(v, bound, j);
    if SameRelease(v, bound) {
      forall j | |bound.release| <= j < |v.release| ensures v.release[j] == 0 {
        assert Part(v, j) == Part(bound, j);
      }
    }
  }

  predicate AddsOnlyZeros(v: Version, bound: Version) {
    forall k :: |bound.release| <= k < |v.release| ==> v.release[k] == 0
  }

  /** For a plain X: exactly the pre-releases and dev releases of X itself. */
  lemma PlainWildcardBelowBoundIff(r: Reader, c: Clause, pin: Pin)
    requires c.op.Exactly? && Wildcard(c.raw) && Meets(r, c, pin)
    requires Bound(r, c).Some? && Bound(r, c).value == Key(0, r.numbers(Base(c.raw)), Final, 0, -1, NO_DEV)
    ensures var bound, v := Bound(r, c).value, pin.version;
      Precedes(v, bound)
      <==> (v.epoch == 0 && AddsOnlyZeros(v, bound)
            && (!v.stage.Final? || (v.pre == 0 && v.post == -1 && v.dev < NO_DEV)))
  {
    hide Precedes, LexLess, Tail;
    ReleaseWildcardBelowBoundIff(r, c, pin);
    TailBelowFinal(pin.version, Bound(r, c).value);
  }

  /** 2.7rc1 meets `==2.7.*` and lies below the floor 2.7 read from it. */
  lemma CandidateBelowItsFloor(r: Reader)
    requires r.version("2.7") == Some(Key(0, [2, 7], Final, 0, -1, NO_DEV)) && r.numbers("2.7") == [2, 7]
    ensures var c, pin := Clause(Exactly, "2.7.*"), Pin("2.7rc1", Key(0, [2, 7], Candidate, 1, -1, NO_DEV));
      Meets(r, c, pin) && GreatestBound(r, [c], Key(0, [2, 7], Final, 0, -1, NO_DEV))
      && Precedes(pin.version, Key(0, [2, 7], Final, 0, -1, NO_DEV))
  {
    var c, pin := Clause(Exactly, "2.7.*"), Pin("2.7rc1", Key(0, [2, 7], Candidate, 1, -1, NO_DEV));
    var bound: Version := Key(0, [2, 7], Final, 0, -1, NO_DEV);
    assert "2.7.*"[3..] == ".*" && "2.7.*"[..3] == "2.7";
    assert Bound(r, [c][0]) == Some(bound);
    PrecedesTotal(bound, bound);
    PlainWildcardBelowBoundIff(r, c, pin);
  }

  lemma TailBelowFinal(v: Version, b: Version)
    requires b.stage.Final? && b.pre == 0 && b.post == -1 && b.dev == NO_DEV
    ensures LexLess(Tail(v), Tail(b)) <==> !v.stage.Final? || (v.pre == 0 && v.post == -1 && v.dev < NO_DEV)
  {
    LexFirstDifference(Tail(v), Tail(b));
    var x, y := Tail(v), Tail(b);
    if !v.stage.Final? {
      assert x[0] < y[0] && x[..0] == y[..0];
    } else if v.pre == 0 && v.post == -1 && v.dev < NO_DEV {
      assert x[3] < y[3] && x[..3] == y[..3];
    } else {
      forall k | 0 <= k < 4 && x[k] < y[k] ensures x[..k] != y[..k] {
        assert k == 3;
        if v.pre != 0 {
          assert x[..3][1] != y[..3][1];
        } else {
          assert x[..3][2] != y[..3][2];
        }
      }
    }
  }

  // ---- Service files ----

  /** A clause of a service file whose bound is below the package's declared floor. */
  ghost predicate DipsBelow(r: Reader, floors: map<Package, Version>, specs: map<Package, Specifier>, p: Package,
                            i: nat) {
    p in specs && p in floors && i < |specs[p]| && Bound(r, specs[p][i]).Some?
    && Precedes(Bound(r, specs[p][i]).value, floors[p])
  }

  /** Reports exactly the clauses that dip below a floor. */
  method CheckServiceFile(r: Reader, floors: map<Package, Version>, specs: map<Package, Specifier>)
    returns (violations: set<(Package, nat)>)
    ensures forall p, i: nat :: (p, i) in violations <==> DipsBelow(r, floors, specs, p, i)
    ensures forall p :: p in specs && p in floors ==>
      (Clean(r, specs[p], floors[p]) <==> forall i: nat :: (p, i) !in violations)
  {
    hide Precedes, Lt;
    violations := {};
    var todo := specs.Keys;
    while todo != {}
      invariant todo <= specs.Keys
      invariant forall p, i: nat :: (p, i) in violations <==> p !in todo && DipsBelow(r, floors, specs, p, i)
    {
      var p :| p in todo;
      if p in floors {
        ghost var before := violations;
        for i := 0 to |specs[p]|
          invariant forall q, j: nat :: (q, j) in violations <==>
            (q, j) in before || (q == p && j < i && DipsBelow(r, floors, specs, p, j))
        {
          var bound := Bound(r, specs[p][i]);
          if bound.Some? {
            OperatorsMean(bound.value, floors[p]);
            if Lt(bound.value, floors[p]) {
              violations := violations + {(p, i)};
            }
          }
        }
      }
      todo := todo - {p};
    }
    forall p | p in specs && p in floors
      ensures Clean(r, specs[p], floors[p]) <==> forall i: nat :: (p, i) !in violations
    {
      CleanIff(r, floors, specs, p);
    }
  }

  lemma CleanIff(r: Reader, floors: map<Package, Version>, specs: map<Package, Specifier>, p: Package)
    requires p in specs && p in floors
    ensures Clean(r, specs[p], floors[p]) <==> forall i: nat :: !DipsBelow(r, floors, specs, p, i)
  {
    hide Precedes;
    if forall i: nat :: !DipsBelow(r, floors, specs, p, i) {
      forall k | 0 <= k < |specs[p]| && Bound(r, specs[p][k]).Some?
        ensures !Precedes(Bound(r, specs[p][k]).value, floors[p])
      {
        assert !DipsBelow(r, floors, specs, p, k);
      }
    }
  }

  /** A clause no pin below the floor can meet: a bound at or above it that is not `==X.*`, or a `>` of one. */
  ghost predicate Guards(r: Reader, c: Clause, floor: Version) {
    var bound := r.version(Base(c.raw));
    && bound.Some? && !Precedes(bound.value, floor) && !ByPrefix(c)
    && (Bound(r, c).Some? || c.op.Above?)
  }

  /** In a clean service file every bound is at or above the floor. */
  ghost predicate Clean(r: Reader, service: Specifier, floor: Version) {
    forall k :: 0 <= k < |service| && Bound(r, service[k]).Some? ==> !Precedes(Bound(r, service[k]).value, floor)
  }

  /** A specifier with a guarding clause allows no pin below any bound declared for the package. */
  lemma GuardKeepsFloor(r: Reader, declared: Specifier, floor: Version, service: Specifier, i: nat, j: nat, pin: Pin)
    requires GreatestBound(r, declared, floor)
    requires i < |service| && Guards(r, service[i], floor)
    requires Allows(r, service, pin) && ReadsBack(r, pin)
    requires j < |declared| && Bound(r, declared[j]).Some?
    ensures !Precedes(pin.version, Bound(r, declared[j]).value)
  {
    hide Precedes, Same, InCompatibleRange;
    var bound := r.version(Base(service[i].raw)).value;
    assert !Precedes(pin.version, bound) by {
      PrecedesTotal(pin.version, bound);
      if !service[i].op.Above? {
        hide Meets;
        MeetsBound(r, service[i], pin);
      }
    }
    PrecedesTransitive(floor, bound, pin.version);
    PrecedesTransitive(Bound(r, declared[j]).value, floor, pin.version);
  }

  /** In a clean file a bound other than `==X.*` is a guard. */
  lemma CleanBoundGuards(r: Reader, service: Specifier, floor: Version, i: nat)
    requires Clean(r, service, floor) && i < |service| && Bound(r, service[i]).Some? && !ByPrefix(service[i])
    ensures Guards(r, service[i], floor)
  {
  }

  // ---- Specifiers without a lower bound ----

  /** Only `>`, `<=`, `<` and plain `!=`: the guard reads no bound off such a clause, so any such specifier is clean. */
  predicate OpenBelow(spec: Specifier) {
    forall i :: 0 <= i < |spec| ==>
      spec[i].op.Above? || spec[i].op.AtMost? || spec[i].op.Below? || (spec[i].op.Differs? && !Wildcard(spec[i].raw))
  }

  lemma OpenBelowIsClean(r: Reader, spec: Specifier, floor: Version)
    requires OpenBelow(spec)
    ensures Unbounded(r, spec) && Clean(r, spec, floor)
  {
  }

  /** The lowest version the `>` clauses leave. */
  function Lowest(r: Reader, spec: Specifier): Version {
    if spec == [] then Least()
    else
      var c := spec[|spec| - 1];
      var rest := Lowest(r, spec[..|spec| - 1]);
      match r.version(Base(c.raw))
      case Some(bound) => if c.op.Above? && Lt(rest, Next(bound)) then Next(bound) else rest
      case None => rest
  }

  lemma {:induction false} LowestIsAbove(r: Reader, spec: Specifier, i: nat)
    requires i < |spec| && spec[i].op.Above? && r.version(Base(spec[i].raw)).Some?
    ensures Precedes(r.version(Base(spec[i].raw)).value, Lowest(r, spec))
  {
    hide Precedes, Lt;
    var n := |spec| - 1;
    var rest, bound := Lowest(r, spec[..n]), r.version(Base(spec[i].raw)).value;
    AfterIsAtNext(bound, Lowest(r, spec));
    if i == n {
      OperatorsMean(rest, Next(bound));
      PrecedesTotal(Next(bound), Next(bound));
    } else {
      LowestIsAbove(r, spec[..n], i);
      LowestGrows(r, spec);
      PrecedesTransitive(bound, rest, Lowest(r, spec));
      PrecedesTransitive(rest, Lowest(r, spec), bound);
      PrecedesTotal(rest, Lowest(r, spec));
    }
  }

  lemma LowestGrows(r: Reader, spec: Specifier)
    requires spec != []
    ensures !Precedes(Lowest(r, spec), Lowest(r, spec[..|spec| - 1]))
  {
    hide Precedes, Lt;
    var rest, all := Lowest(r, spec[..|spec| - 1]), Lowest(r, spec);
    OperatorsMean(rest, all);
    PrecedesTotal(rest, all);
  }

  lemma {:induction false} AllowedIsAtLowest(r: Reader, spec: Specifier, pin: Pin)
    requires OpenBelow(spec) && Allows(r, spec, pin)
    ensures !Precedes(pin.version, Lowest(r, spec))
  {
    hide Precedes, Lt;
    if spec == [] {
      NothingBeforeLeast(pin.version);
    } else {
      var n := |spec| - 1;
      assert forall i :: 0 <= i < n ==> spec[..n][i] == spec[i];
      AllowedIsAtLowest(r, spec[..n], pin);
      if spec[n].op.Above? && r.version(Base(spec[n].raw)).Some? {
        AfterIsAtNext(r.version(Base(spec[n].raw)).value, pin.version);
      }
    }
  }

  /** What a cap admits, it admits of every lower version. */
  lemma CapAdmitsLower(r: Reader, c: Clause, low: Pin, high: Pin)
    requires c.op.AtMost? || c.op.Below?
    requires Meets(r, c, high) && !Precedes(high.version, low.version)
    ensures Meets(r, c, low)
  {
    hide Precedes;
    var bound := r.version(Base(c.raw)).value;
    PrecedesTransitive(low.version, high.version, bound);
    PrecedesTransitive(bound, low.version, high.version);
    PrecedesTotal(low.version, high.version);
  }

  /** The `!=` clauses of a specifier that name this version or a later one. */
  function HolesFrom(r: Reader, spec: Specifier, v: Version): set<nat> {
    set i: nat | i < |spec| && spec[i].op.Differs? && r.version(Base(spec[i].raw)).Some?
                 && Ge(r.version(Base(spec[i].raw)).value, v)
  }

  /** A clause that excludes exactly this version. */
  predicate Names(r: Reader, c: Clause, v: Version) {
    c.op.Differs? && r.version(Base(c.raw)).Some? && Eq(r.version(Base(c.raw)).value, v)
  }

  /** The first of a version and those next after it that no `!=` clause names. */
  function PastHoles(r: Reader, spec: Specifier, v: Version): Version
    decreases HolesFrom(r, spec, v)
  {
    var i := FirstIndex(spec, (c: Clause) => Names(r, c, v));
    if i == |spec| then v
    else
      HoleIsPassed(r, spec, v, i);
      PastHoles(r, spec, Next(v))
  }

  lemma HoleIsPassed(r: Reader, spec: Specifier, v: Version, i: nat)
    requires i < |spec| && Names(r, spec[i], v)
    ensures HolesFrom(r, spec, Next(v)) < HolesFrom(r, spec, v)
  {
    hide Precedes, Same, Ge, Eq, Next;
    var here := r.version(Base(spec[i].raw)).value;
    OperatorsMean(here, v);
    OperatorsMean(here, Next(v));
    PrecedesTotal(here, v);
    AfterIsAtNext(v, here);
    forall k | k in HolesFrom(r, spec, Next(v)) ensures k in HolesFrom(r, spec, v) {
      var bound := r.version(Base(spec[k].raw)).value;
      OperatorsMean(bound, v);
      OperatorsMean(bound, Next(v));
      AfterIsAtNext(v, bound);
      PrecedesTotal(v, bound);
    }
    assert i in HolesFrom(r, spec, v) && i !in HolesFrom(r, spec, Next(v));
  }

  /** It is at or after where the search began, and no `!=` clause names it. */
  lemma {:induction false} PastHolesIsClear(r: Reader, spec: Specifier, v: Version)
    ensures !Precedes(PastHoles(r, spec, v), v)
    ensures forall i :: 0 <= i < |spec| ==> !Names(r, spec[i], PastHoles(r, spec, v))
    decreases HolesFrom(r, spec, v)
  {
    hide Precedes, Same, Eq, Next;
    var i := FirstIndex(spec, (c: Clause) => Names(r, c, v));
    PrecedesTotal(v, v);
    if i < |spec| {
      HoleIsPassed(r, spec, v, i);
      PastHolesIsClear(r, spec, Next(v));
      AfterIsAtNext(v, Next(v));
      PrecedesTotal(Next(v), Next(v));
      PrecedesTransitive(v, Next(v), PastHoles(r, spec, Next(v)));
      PrecedesTotal(v, Next(v));
    }
  }

  /** What the specifier allows from a version on is at or after the first version it does not name. */
  lemma {:induction false} AllowedIsPastHoles(r: Reader, spec: Specifier, v: Version, pin: Pin)
    requires OpenBelow(spec) && Allows(r, spec, pin) && !Precedes(pin.version, v)
    ensures !Precedes(pin.version, PastHoles(r, spec, v))
    decreases HolesFrom(r, spec, v)
  {
    hide Precedes, Same, Eq, Next;
    var i := FirstIndex(spec, (c: Clause) => Names(r, c, v));
    if i < |spec| {
      HoleIsPassed(r, spec, v, i);
      var bound := r.version(Base(spec[i].raw)).value;
      assert Meets(r, spec[i], pin);
      OperatorsMean(bound, v);
      PrecedesTransitive(bound, v, pin.version);
      PrecedesTotal(pin.version, v);
      NotSame(pin.version, v, bound);
      AfterIsAtNext(v, pin.version);
      AllowedIsPastHoles(r, spec, Next(v), pin);
    }
  }

  lemma NotSame(p: Version, v: Version, bound: Version)
    requires !Same(p, bound) && Same(bound, v)
    ensures !Same(p, v)
  {
  }

  /** The lowest version a specifier open below leaves. */
  function LowestLeft(r: Reader, spec: Specifier): Version {
    PastHoles(r, spec, Lowest(r, spec))
  }

  lemma AllowsLowest(r: Reader, spec: Specifier, pin: Pin)
    requires OpenBelow(spec) && Allows(r, spec, pin)
    ensures !Precedes(pin.version, LowestLeft(r, spec))
    ensures Allows(r, spec, Pin("", LowestLeft(r, spec)))
  {
    hide Precedes, Lowest, PastHoles, Same, Eq;
    var low := Pin("", LowestLeft(r, spec));
    AllowedIsAtLowest(r, spec, pin);
    AllowedIsPastHoles(r, spec, Lowest(r, spec), pin);
    PastHolesIsClear(r, spec, Lowest(r, spec));
    forall i | 0 <= i < |spec| ensures Meets(r, spec[i], low) {
      assert Meets(r, spec[i], pin);
      var bound := r.version(Base(spec[i].raw)).value;
      if spec[i].op.Above? {
        LowestIsAbove(r, spec, i);
        PrecedesTransitive(bound, Lowest(r, spec), low.version);
        PrecedesTransitive(Lowest(r, spec), low.version, bound);
        PrecedesTotal(Lowest(r, spec), low.version);
      } else if spec[i].op.Differs? {
        assert !Names(r, spec[i], low.version);
        OperatorsMean(bound, low.version);
        SameBothWays(bound, low.version);
      } else {
        CapAdmitsLower(r, spec[i], low, pin);
      }
    }
  }

  lemma SameBothWays(a: Version, b: Version)
    ensures Same(a, b) <==> Same(b, a)
  {
  }

  /**
   * A specifier of caps, `>` and plain `!=` clauses passes the floor check
   * whatever it says. It keeps the floor exactly when the lowest version its
   * `>` and `!=` clauses leave is at or above the floor, or some clause
   * excludes that version.
   */
  lemma OpenBelowKeepsFloorIff(r: Reader, spec: Specifier, floor: Version)
    requires OpenBelow(spec)
    ensures (forall pin :: Allows(r, spec, pin) ==> !Precedes(pin.version, floor))
       <==> (!Precedes(LowestLeft(r, spec), floor) || !Allows(r, spec, Pin("", LowestLeft(r, spec))))
  {
    hide Precedes, LowestLeft, Meets, OpenBelow;
    var low := Pin("", LowestLeft(r, spec));
    if !Precedes(low.version, floor) {
      forall pin | Allows(r, spec, pin) ensures !Precedes(pin.version, floor) {
        AllowsLowest(r, spec, pin);
        PrecedesTransitive(floor, low.version, pin.version);
      }
    } else if !Allows(r, spec, low) {
      forall pin ensures !Allows(r, spec, pin) {
        if Allows(r, spec, pin) {
          AllowsLowest(r, spec, pin);
        }
      }
    } else {
      assert Allows(r, spec, low) && Precedes(low.version, floor);
    }
  }

  /** `<9` is clean against the floor 1 and allows 0. */
  lemma CapAloneIsClean(r: Reader)
    requires r.version("9") == Some(Key(0, [9], Final, 0, -1, NO_DEV))
    ensures var zero: Version := Key(0, [0], Final, 0, -1, NO_DEV);
            && OpenBelow([Clause(Below, "9")])
            && Allows(r, [Clause(Below, "9")], Pin("0", zero))
            && Precedes(zero, Key(0, [1], Final, 0, -1, NO_DEV))
  {
    var zero: Version := Key(0, [0], Final, 0, -1, NO_DEV);
    assert LessAt(zero, Key(0, [9], Final, 0, -1, NO_DEV), 0);
    assert LessAt(zero, Key(0, [1], Final, 0, -1, NO_DEV), 0);
  }

  // ---- The lock ----

  /** A package's pin in the lock: the version of its first `==` or `===` clause, if that can be read. */
  function PinOf(r: Reader, spec: Specifier): Option<Pin> {
    var i := FirstIndex(spec, (c: Clause) => c.op.Exactly? || c.op.Identical?);
    if i < |spec| && r.version(spec[i].raw).Some?
    then Some(Pin(spec[i].raw, r.version(spec[i].raw).value))
    else None
  }

  /** The pins of a lock: the packages whose pin can be read. */
  function Pins(r: Reader, locked: map<Package, Specifier>): map<Package, Pin> {
    map p | p in locked && PinOf(r, locked[p]).Some? :: PinOf(r, locked[p]).value
  }

  /** A pin is the first clause that fixes a version, whatever precedes it and however the later ones read. */
  lemma PinSays(r: Reader, locked: map<Package, Specifier>, p: Package)
    ensures p in Pins(r, locked) <==>
      p in locked && exists i :: FixesFirst(locked[p], i) && r.version(locked[p][i].raw).Some?
    ensures p in Pins(r, locked) ==>
      forall i :: FixesFirst(locked[p], i) ==>
        Some(Pins(r, locked)[p].version) == r.version(locked[p][i].raw) && Pins(r, locked)[p].raw == locked[p][i].raw
  {
    if p in locked {
      var spec := locked[p];
      var i := FirstIndex(spec, (c: Clause) => c.op.Exactly? || c.op.Identical?);
      assert forall j :: FixesFirst(spec, j) ==> j == i;
      assert i < |spec| ==> FixesFirst(spec, i);
    }
  }

  predicate FixesFirst(spec: Specifier, i: int) {
    0 <= i < |spec| && spec[i].op in {Exactly, Identical}
      && forall j :: 0 <= j < i ==> spec[j].op !in {Exactly, Identical}
  }

  /** Sorts the requirements into unpinned ones, violated ones and the rest. */
  method ComparePins(r: Reader, declared: map<Package, Specifier>, pins: map<Package, Pin>)
    returns (missing: set<Package>, drifted: map<Package, Verdict>, checked: nat)
    ensures forall p :: p in missing <==> p in declared && p !in pins
    ensures forall p :: p in drifted <==> p in declared && p in pins && !Allows(r, declared[p], pins[p])
    ensures forall p :: p in drifted ==> Explains(r, declared[p], pins[p], drifted[p])
    ensures checked + |missing| == |declared|
  {
    hide Allows, Explains;
    missing, drifted, checked := {}, map[], 0;
    var todo := declared.Keys;
    while todo != {}
      invariant todo <= declared.Keys
      invariant forall p :: p in missing <==> p in declared && p !in todo && p !in pins
      invariant forall p :: p in drifted <==>
        p in declared && p !in todo && p in pins && !Allows(r, declared[p], pins[p])
      invariant forall p :: p in drifted ==> Explains(r, declared[p], pins[p], drifted[p])
      invariant checked + |missing| + |todo| == |declared|
    {
      var p :| p in todo;
      todo := todo - {p};
      if p !in pins {
        missing := missing + {p};
      } else {
        checked := checked + 1;
        var v := SpecifierAllows(r, declared[p], pins[p]);
        if v.Fails? {
          drifted := drifted[p := v];
        }
      }
    }
  }

  ghost predicate WithinBounds(r: Reader, declared: map<Package, Specifier>, pins: map<Package, Pin>) {
    forall p :: p in declared ==> p in pins && Allows(r, declared[p], pins[p])
  }

  /** The guard passes exactly when something is declared and every requirement is pinned within its bounds. */
  method CheckLock(r: Reader, declared: map<Package, Specifier>, locked: map<Package, Specifier>) returns (clean: bool)
    ensures clean <==> declared != map[] && WithinBounds(r, declared, Pins(r, locked))
  {
    hide Allows, Pins;
    var pins := Pins(r, locked);
    NoPins(r);
    if declared == map[] || locked == map[] || pins == map[] {
      assert declared != map[] ==> exists p :: p in declared && p !in pins;
      clean := false;
    } else {
      var missing, drifted, checked := ComparePins(r, declared, pins);
      clean := checked > 0 && missing == {} && drifted == map[];
      assert drifted == map[] <==> forall p :: p in declared && p in pins ==> p !in drifted;
      assert missing == {} <==> forall p :: p in declared ==> p in pins;
    }
  }

  lemma NoPins(r: Reader)
    ensures Pins(r, map[]) == map[]
  {
  }

  /** A clean lock pins every requirement at or above each bound it declares, `==X.*` aside. */
  lemma CleanLockMeetsBounds(r: Reader, declared: map<Package, Specifier>, locked: map<Package, Specifier>, p: Package,
                             i: nat)
    requires forall raw :: r.version(raw).Some? ==> !Wildcard(raw)
    requires WithinBounds(r, declared, Pins(r, locked))
    requires p in declared && i < |declared[p]| && Bound(r, declared[p][i]).Some? && !ByPrefix(declared[p][i])
    ensures !Precedes(Pins(r, locked)[p].version, Bound(r, declared[p][i]).value)
  {
    hide Precedes, Meets;
    MeetsBound(r, declared[p][i], Pins(r, locked)[p]);
  }
}
