/**
 * Switching the interpreter's import context between services that each bring
 * their own `app` package: the module table, the per-service caches, package
 * attribute links and the import path.
 */
module ModuleContext {
  import opened Common

  /** A dotted name as its components. */
  type Name = seq<string>

  /** A module object; 0 stands for Python's None. */
  type Obj = nat

  /** What is read off a module object: the service its file text names, the roots its file resolves under, its spec. */
  datatype Info = Info(owner: Option<string>, roots: set<string>, hasSpec: bool)

  datatype Entry = ServiceDir(service: string) | Other(text: string)

  const SERVICES: seq<string> := ["admin", "compliance", "graph", "ingestion", "nlp", "scheduler"]
  const SHARED_ROOT: string := "shared"

  type Table = map<Name, Obj>

  predicate IsApp(n: Name) {
    n == ["main"] || (|n| > 0 && n[0] == "app")
  }

  predicate IsShared(n: Name) {
    |n| > 0 && n[0] == "shared"
  }

  /** A module that came from a file under the root. */
  predicate Real(info: Obj -> Info, m: Obj, root: string) {
    m != 0 && info(m).hasSpec && root in info(m).roots
  }

  predicate Owned(info: Obj -> Info, m: Obj, service: string) {
    info(m).owner == Some(service) && Real(info, m, service)
  }

  function CacheOf(caches: map<string, Table>, service: string): Table {
    if service in caches then caches[service] else map[]
  }

  /** What a switch remembers for a service: its cache, updated with its own modules in the table. */
  function Remembered(info: Obj -> Info, cache: Table, modules: Table, service: string): Table {
    cache + (map n | n in modules && IsApp(n) && Owned(info, modules[n], service) :: modules[n])
  }

  /** A cache after one module has been looked at. */
  function CacheWith(info: Obj -> Info, cache: Table, n: Name, m: Obj, service: string): Table {
    if Owned(info, m, service) then cache[n := m] else cache
  }

  function SharedWith(info: Obj -> Info, cache: Table, n: Name, m: Obj): Table {
    if Real(info, m, SHARED_ROOT) then cache[n := m] else cache
  }

  /** The table with a name set to what the cache holds for it, or dropped. */
  function Restored(modules: Table, cache: Table, n: Name): Table {
    if n in cache then modules[n := cache[n]] else modules - {n}
  }

  function RememberedShared(info: Obj -> Info, cache: Table, modules: Table): Table {
    cache + (map n | n in modules && IsShared(n) && Real(info, modules[n], SHARED_ROOT) :: modules[n])
  }

  /** The table after a switch: the service's modules, the shared ones that are real, and everything else as it was. */
  function SwitchedTable(modules: Table, app: Table, shared: Table): Table {
    map n | n in modules.Keys + app.Keys + shared.Keys
            && (if IsApp(n) then n in app
                else if IsShared(n) then n in shared && (n in modules || n == ["shared"])
                else n in modules)
      :: if IsApp(n) then app[n] else if IsShared(n) then shared[n] else modules[n]
  }

  /** The cache holds only real modules of the service, under `main` and `app`. */
  ghost predicate OwnTable(info: Obj -> Info, cache: Table, service: string) {
    forall k :: k in cache ==> IsApp(k) && Owned(info, cache[k], service)
  }

  /** The caches hold only what they are for. */
  ghost predicate CachesOk(info: Obj -> Info, caches: map<string, Table>, shared: Table) {
    && (forall s :: OwnTable(info, CacheOf(caches, s), s))
    && (forall n :: n in shared ==> IsShared(n) && Real(info, shared[n], SHARED_ROOT))
  }

  // ----- Sessions

  /** The value of the whole context apart from attribute links. */
  datatype Context = Context(modules: Table, caches: string -> Table, shared: Table, path: seq<Entry>)

  /** A switch, or anything a test may do to the table: import a module, install a stub, remove an entry. */
  datatype Op = Switch(service: string) | Install(name: Name, m: Obj) | Drop(name: Name)

  function Do(info: Obj -> Info, c: Context, op: Op): Context {
    match op
    case Install(n, m) => c.(modules := c.modules[n := m])
    case Drop(n) => c.(modules := c.modules - {n})
    case Switch(s) =>
      var shared := RememberedShared(info, c.shared, c.modules);
      Context(
        SwitchedTable(c.modules, Remembered(info, c.caches(s), c.modules, s), shared),
        t => Remembered(info, c.caches(t), c.modules, t),
        shared,
        SwitchedPath(c.path, s))
  }

  function Session(info: Obj -> Info, c: Context, ops: seq<Op>): Context {
    if ops == [] then c else Do(info, Session(info, c, ops[..|ops| - 1]), ops[|ops| - 1])
  }

  /** Right after a switch the `main` and `app` entries are the service's cache, name for name. */
  lemma SwitchShowsCache(info: Obj -> Info, c: Context, service: string)
    requires forall n :: n in c.caches(service) ==> IsApp(n)
    ensures var d := Do(info, c, Switch(service));
      && (forall n :: IsApp(n) ==>
        ((n in d.modules <==> n in d.caches(service)) && (n in d.modules ==> d.modules[n] == d.caches(service)[n])))
      && (forall n :: !IsApp(n) && !IsShared(n) ==>
            (n in d.modules <==> n in c.modules) && (n in c.modules ==> d.modules[n] == c.modules[n]))
  {
  }

  /**
   * After a switch a real shared module is where it was, any other is replaced
   * by the one remembered or dropped, and of those not loaded only the package
   * itself can come back.
   */
  lemma SharedAfterSwitch(info: Obj -> Info, c: Context, service: string, n: Name)
    requires |n| > 0 && n[0] == "shared"
    ensures var d := Do(info, c, Switch(service));
      var genuine := n in c.modules
                  && c.modules[n] != 0 && info(c.modules[n]).hasSpec && "shared" in info(c.modules[n]).roots;
      && (n in d.modules <==> genuine || (n in c.shared && (n in c.modules || n == ["shared"])))
      && (genuine ==> d.modules[n] == c.modules[n])
      && (!genuine && n in d.modules ==> d.modules[n] == c.shared[n])
      && (n in d.shared <==> genuine || n in c.shared)
      && (n in d.shared ==> d.shared[n] == if genuine then c.modules[n] else c.shared[n])
  {
  }

  /** A switch remembers each loaded module for the service whose file it came from, and forgets nothing else. */
  lemma RememberedAfterSwitch(info: Obj -> Info, c: Context, service: string, t: string, n: Name)
    ensures var d := Do(info, c, Switch(service));
      var own := n in c.modules && (n == ["main"] || (|n| > 0 && n[0] == "app"))
                 && c.modules[n] != 0 && info(c.modules[n]).owner == Some(t)
                 && info(c.modules[n]).hasSpec && t in info(c.modules[n]).roots;
      && (n in d.caches(t) <==> own || n in c.caches(t))
      && (n in d.caches(t) ==> d.caches(t)[n] == if own then c.modules[n] else c.caches(t)[n])
  {
  }

  /** A service's module is safely remembered, and no other real module of the service stands in its place. */
  ghost predicate Held(info: Obj -> Info, c: Context, service: string, n: Name, m: Obj) {
    && n in c.caches(service) && c.caches(service)[n] == m
    && (n in c.modules && Owned(info, c.modules[n], service) ==> c.modules[n] == m)
  }

  /** An operation that does not load another real module of the service under the name. */
  ghost predicate Spares(info: Obj -> Info, op: Op, service: string, n: Name, m: Obj) {
    op.Install? && op.name == n && Owned(info, op.m, service) ==> op.m == m
  }

  /** The same of every cache of a session. */
  ghost predicate CachesOwn(info: Obj -> Info, c: Context) {
    forall t :: OwnTable(info, c.caches(t), t)
  }

  lemma DoKeepsCaches(info: Obj -> Info, c: Context, op: Op)
    requires CachesOwn(info, c)
    ensures CachesOwn(info, Do(info, c, op))
  {
    var d := Do(info, c, op);
    forall t ensures OwnTable(info, d.caches(t), t) {
      assert OwnTable(info, c.caches(t), t);
      if op.Switch? {
        assert d.caches(t) == Remembered(info, c.caches(t), c.modules, t);
      }
    }
  }

  lemma HeldAfter(info: Obj -> Info, c: Context, op: Op, service: string, n: Name, m: Obj)
    requires IsApp(n) && Held(info, c, service, n, m) && Spares(info, op, service, n, m) && CachesOwn(info, c)
    ensures Held(info, Do(info, c, op), service, n, m)
  {
    if op.Switch? {
      SwitchHolds(info, c, op.service, service, n, m);
    }
  }

  /** After a switch to anywhere, a service's module is held if it was remembered or loaded. */
  lemma SwitchHolds(info: Obj -> Info, c: Context, away: string, service: string, n: Name, m: Obj)
    requires IsApp(n) && CachesOwn(info, c)
    requires Remembered(info, c.caches(service), c.modules, service)[n := m]
      == Remembered(info, c.caches(service), c.modules, service)
    requires n in Remembered(info, c.caches(service), c.modules, service)
    ensures Held(info, Do(info, c, Switch(away)), service, n, m)
  {
    var d := Do(info, c, Switch(away));
    var there := Remembered(info, c.caches(away), c.modules, away);
    DoKeepsCaches(info, c, Switch(away));
    assert d.caches(away) == there && d.caches(service) == Remembered(info, c.caches(service), c.modules, service);
    assert d.caches(service)[n] == m && OwnTable(info, d.caches(away), away);
    if n in d.modules {
      assert d.modules[n] == there[n];
      assert Owned(info, there[n], away);
    }
  }

  lemma {:induction false} HeldThroughout(info: Obj -> Info, c: Context, ops: seq<Op>, service: string, n: Name, m: Obj)
    requires IsApp(n) && Held(info, c, service, n, m) && CachesOwn(info, c)
    requires forall op :: op in ops ==> Spares(info, op, service, n, m)
    ensures Held(info, Session(info, c, ops), service, n, m) && CachesOwn(info, Session(info, c, ops))
  {
    hide Do, Held, Spares, CachesOwn;
    if ops != [] {
      var last := |ops| - 1;
      HeldThroughout(info, c, ops[..last], service, n, m);
      assert ops[last] in ops;
      HeldAfter(info, Session(info, c, ops[..last]), ops[last], service, n, m);
      DoKeepsCaches(info, Session(info, c, ops[..last]), ops[last]);
    }
  }

  lemma HeldComesBack(info: Obj -> Info, c: Context, service: string, n: Name, m: Obj)
    requires IsApp(n) && Held(info, c, service, n, m)
    ensures n in Do(info, c, Switch(service)).modules && Do(info, c, Switch(service)).modules[n] == m
  {
  }

  /**
   * Leaving a service with a real module loaded, doing anything at all short of
   * loading another real module of that service under the name, and coming
   * back, gives the identical object.
   */
  lemma ReturnRestoresIdentity(info: Obj -> Info, c: Context, away: string, ops: seq<Op>, service: string, n: Name)
    requires IsApp(n) && n in c.modules && Owned(info, c.modules[n], service) && CachesOwn(info, c)
    requires forall op :: op in ops ==> Spares(info, op, service, n, c.modules[n])
    ensures var left := Do(info, c, Switch(away));
      var back := Do(info, Session(info, left, ops), Switch(service));
      n in back.modules && back.modules[n] == c.modules[n]
  {
    hide Do, Held, Spares, CachesOwn;
    var left := Do(info, c, Switch(away));
    SwitchHolds(info, c, away, service, n, c.modules[n]);
    DoKeepsCaches(info, c, Switch(away));
    HeldThroughout(info, left, ops, service, n, c.modules[n]);
    HeldComesBack(info, Session(info, left, ops), service, n, c.modules[n]);
  }

  // ----- Attribute links

  predicate InTree(n: Name) {
    |n| > 1 && (n[0] == "app" || n[0] == "shared")
  }

  function Parent(n: Name): Name
    requires |n| > 1
  {
    n[..|n| - 1]
  }

  function Child(n: Name): string
    requires |n| > 0
  {
    n[|n| - 1]
  }

  type Links = map<(Obj, string), Obj>

  /** A submodule whose parent package is loaded too. */
  predicate Linkable(modules: Table, n: Name) {
    n in modules && InTree(n) && modules[n] != 0 && Parent(n) in modules && modules[Parent(n)] != 0
  }

  /** The name's parent package is loaded. */
  predicate Attached(modules: Table, n: Name) {
    |n| > 1 && Parent(n) in modules && modules[Parent(n)] != 0
  }

  /** The links once a name's entry has changed: its loaded parent has what the table has, or nothing. */
  function Rehung(modules: Table, attrs: Links, n: Name): Links {
    if !Attached(modules, n) then attrs
    else if n in modules then attrs[(modules[Parent(n)], Child(n)) := modules[n]]
    else attrs - {(modules[Parent(n)], Child(n))}
  }

  predicate Linked(modules: Table, attrs: Links, n: Name)
    requires Linkable(modules, n)
  {
    var at := (modules[Parent(n)], Child(n));
    at in attrs && attrs[at] == modules[n]
  }

  /** Every loaded submodule is attached to its loaded parent. */
  ghost predicate AllLinked(modules: Table, attrs: Links) {
    forall n :: Linkable(modules, n) ==> Linked(modules, attrs, n)
  }

  /** A package object loaded under two names has, for each child name, one child under both. */
  ghost predicate AliasesAgree(modules: Table) {
    forall n, m ::
      (Linkable(modules, n) && Linkable(modules, m)
       && modules[Parent(n)] == modules[Parent(m)] && Child(n) == Child(m))
      ==> modules[n] == modules[m]
  }

  /** The same within one tree. */
  ghost predicate TreeLinked(modules: Table, attrs: Links, prefix: string) {
    forall n :: Linkable(modules, n) && n[0] == prefix ==> Linked(modules, attrs, n)
  }

  ghost predicate TreeAgrees(modules: Table, prefix: string) {
    forall n, m ::
      (Linkable(modules, n) && Linkable(modules, m) && n[0] == prefix && m[0] == prefix
       && modules[Parent(n)] == modules[Parent(m)] && Child(n) == Child(m))
      ==> modules[n] == modules[m]
  }

  /** No link outside the tree is lost. */
  ghost predicate OthersKept(modules: Table, was: Links, attrs: Links, prefix: string) {
    forall n :: Linkable(modules, n) && n[0] != prefix && Linked(modules, was, n) ==> Linked(modules, attrs, n)
  }

  /** Names that disagree cannot both be linked: they share the one attribute. */
  lemma LinkedOnlyIfAgreeing(modules: Table, attrs: Links)
    ensures AllLinked(modules, attrs) ==> AliasesAgree(modules)
    ensures forall prefix :: TreeLinked(modules, attrs, prefix) ==> TreeAgrees(modules, prefix)
    ensures AliasesAgree(modules) ==> forall prefix :: TreeAgrees(modules, prefix)
  {
  }

  /** A tree linked before the other was repaired still is. */
  lemma TreesAre(modules: Table, half: Links, attrs: Links)
    requires TreeLinked(modules, half, "app") <==> TreeAgrees(modules, "app")
    requires TreeLinked(modules, attrs, "shared") <==> TreeAgrees(modules, "shared")
    requires AliasesAgree(modules) ==> OthersKept(modules, half, attrs, "shared")
    ensures AliasesAgree(modules) ==> TreeLinked(modules, attrs, "app") && TreeLinked(modules, attrs, "shared")
  {
    LinkedOnlyIfAgreeing(modules, attrs);
    assert "app" != "shared";
  }

  lemma LinksAre(modules: Table, attrs: Links)
    requires AliasesAgree(modules) ==> TreeLinked(modules, attrs, "app") && TreeLinked(modules, attrs, "shared")
    ensures AllLinked(modules, attrs) <==> AliasesAgree(modules)
  {
    LinkedOnlyIfAgreeing(modules, attrs);
  }

  // ----- The import path

  predicate Stays(e: Entry, service: string) {
    !e.ServiceDir? || e.service == service || e.service !in SERVICES
  }

  function Without(path: seq<Entry>, e: Entry): seq<Entry> {
    if path == [] then [] else if path[0] == e then path[1..] else [path[0]] + Without(path[1..], e)
  }

  function SwitchedPath(path: seq<Entry>, service: string): seq<Entry> {
    [ServiceDir(service)] + Without(Filter(path, e => Stays(e, service)), ServiceDir(service))
  }

  lemma {:induction false} WithoutKeeps(path: seq<Entry>, e: Entry, x: Entry)
    requires x in Without(path, e)
    ensures x in path
  {
    if path != [] && path[0] != e && x != path[0] {
      assert x in Without(path[1..], e);
      WithoutKeeps(path[1..], e, x);
    }
  }

  /** The active service's directory comes first, and no other service's is left. */
  lemma PathHasOneService(path: seq<Entry>, service: string)
    ensures var p := SwitchedPath(path, service);
      && p[0] == ServiceDir(service)
      && forall e :: e in p && e.ServiceDir? && e.service != service ==>
           e.service !in {"admin", "compliance", "graph", "ingestion", "nlp", "scheduler"}
  {
    var kept := Filter(path, e => Stays(e, service));
    var rest := Without(kept, ServiceDir(service));
    forall e | e in SwitchedPath(path, service) && e.ServiceDir? && e.service in SERVICES ensures e.service == service {
      if e in rest {
        WithoutKeeps(kept, ServiceDir(service), e);
      }
    }
  }

  /** Entries that are no service's directory, and not the one being made active either. */
  function Bystanders(service: string): Entry -> bool {
    e => e != ServiceDir(service)
         && (e.Other? || e.service !in {"admin", "compliance", "graph", "ingestion", "nlp", "scheduler"})
  }

  lemma {:induction false} WithoutPasses(path: seq<Entry>, e: Entry, q: Entry -> bool)
    requires !q(e)
    ensures Filter(Without(path, e), q) == Filter(path, q)
    ensures multiset(Without(path, e)) == multiset(path) - multiset{e}
  {
    if path != [] {
      var head, rest := [path[0]], path[1..];
      assert path == head + rest;
      FilterAppend(head, rest, q);
      assert head[..0] == [];
      assert multiset(path) == multiset(head) + multiset(rest);
      if path[0] != e {
        WithoutPasses(rest, e, q);
        FilterAppend(head, Without(rest, e), q);
      }
    }
  }

  lemma {:induction false} FilterCounts(path: seq<Entry>, p: Entry -> bool, e: Entry)
    requires p(e)
    ensures multiset(Filter(path, p))[e] == multiset(path)[e]
  {
    if path != [] {
      var n := |path| - 1;
      assert path == path[..n] + [path[n]];
      FilterCounts(path[..n], p, e);
    }
  }

  /** Moving an entry to the front passes every other by, and counts it once if it was not there. */
  lemma FrontPasses(kept: seq<Entry>, e: Entry, q: Entry -> bool)
    requires !q(e)
    ensures Filter([e] + Without(kept, e), q) == Filter(kept, q)
    ensures multiset([e] + Without(kept, e))[e] == if e in kept then multiset(kept)[e] else 1
  {
    WithoutPasses(kept, e, q);
    FilterAppend([e], Without(kept, e), q);
    assert [e][..0] == [];
    assert Filter([e], q) == [];
    assert multiset([e] + Without(kept, e)) == multiset{e} + (multiset(kept) - multiset{e});
  }

  lemma BystandersStay(service: string, e: Entry)
    ensures Bystanders(service)(e) ==> Stays(e, service)
    ensures !Bystanders(service)(ServiceDir(service)) && Stays(ServiceDir(service), service)
  {
  }

  /**
   * What else is on the path stays there, in order and with repetitions; the
   * active service's directory is there once, or as often as before.
   */
  lemma PathKeepsTheRest(path: seq<Entry>, service: string)
    ensures var p, q := SwitchedPath(path, service), Bystanders(service);
      && Filter(p, q) == Filter(path, q)
      && multiset(p)[ServiceDir(service)] == if ServiceDir(service) in path then multiset(path)[ServiceDir(service)]
        else 1
  {
    hide Filter, Without, Bystanders, Stays;
    var own, q := ServiceDir(service), Bystanders(service);
    var stays := e => Stays(e, service);
    forall e ensures q(e) ==> stays(e) {
      BystandersStay(service, e);
    }
    BystandersStay(service, own);
    FilterNarrow(path, stays, q);
    FilterCounts(path, stays, own);
    FrontPasses(Filter(path, stays), own, q);
  }

  /** Both tables say the same about a name. */
  predicate Same(a: Table, b: Table, n: Name) {
    (n in a <==> n in b) && (n in a ==> a[n] == b[n])
  }

  /** What has been remembered for a service once the names in `done` have been looked at. */
  function Part(info: Obj -> Info, was: Table, done: set<Name>, service: string): Table {
    map n | n in done && n in was && Owned(info, was[n], service) :: was[n]
  }

  lemma PartGrows(info: Obj -> Info, cache: Table, was: Table, done: set<Name>, n: Name, service: string)
    requires n in was
    ensures CacheWith(info, cache + Part(info, was, done, service), n, was[n], service)
      == cache + Part(info, was, done + {n}, service)
  {
    var a, b := Part(info, was, done, service), Part(info, was, done + {n}, service);
    assert b == if Owned(info, was[n], service) then a[n := was[n]] else a;
  }

  /** Part way through: looked-at names say what the service's cache says, the others what they said. */
  ghost predicate Settling(info: Obj -> Info, service: string, was: Table, cached: map<string, Table>,
                           done: set<Name>, modules: Table, caches: map<string, Table>) {
    && (forall s :: CacheOf(caches, s) == CacheOf(cached, s) + Part(info, was, done, s))
    && (forall n :: n !in done ==> Same(modules, was, n))
    && (forall n :: n in done ==> Same(modules, CacheOf(caches, service), n))
  }

  lemma SettlingStep(info: Obj -> Info, service: string, was: Table, cached: map<string, Table>,
                     done: set<Name>, modules: Table, caches: map<string, Table>, n: Name, caches': map<string, Table>)
    requires Settling(info, service, was, cached, done, modules, caches)
    requires n in was && n !in done
    requires forall s :: CacheOf(caches', s) == CacheWith(info, CacheOf(caches, s), n, was[n], s)
    ensures Settling(info, service, was, cached, done + {n}, Restored(modules, CacheOf(caches', service), n), caches')
  {
    forall s ensures CacheOf(caches', s) == CacheOf(cached, s) + Part(info, was, done + {n}, s) {
      PartGrows(info, CacheOf(cached, s), was, done, n, s);
    }
    var modules' := Restored(modules, CacheOf(caches', service), n);
    forall x | x in done + {n} ensures Same(modules', CacheOf(caches', service), x) {
      if x != n {
        assert Same(modules, CacheOf(caches, service), x);
      }
    }
  }

  lemma SettlingStarts(info: Obj -> Info, service: string, was: Table, cached: map<string, Table>)
    ensures Settling(info, service, was, cached, {}, was, cached)
  {
    forall s ensures CacheOf(cached, s) == CacheOf(cached, s) + Part(info, was, {}, s) {
      assert Part(info, was, {}, s) == map[];
    }
  }

  lemma SettlingEnds(info: Obj -> Info, service: string, was: Table, cached: map<string, Table>,
                     done: set<Name>, modules: Table, caches: map<string, Table>)
    requires Settling(info, service, was, cached, done, modules, caches)
    requires forall n :: n in done <==> n in was && IsApp(n)
    ensures forall s :: CacheOf(caches, s) == Remembered(info, CacheOf(cached, s), was, s)
    ensures forall n :: Same(modules, if IsApp(n) && n in was then CacheOf(caches, service) else was, n)
  {
    forall s ensures CacheOf(caches, s) == Remembered(info, CacheOf(cached, s), was, s) {
      assert Part(info, was, done, s) == map n | n in was && IsApp(n) && Owned(info, was[n], s) :: was[n];
    }
  }

  function SharedPart(info: Obj -> Info, was: Table, done: set<Name>): Table {
    map n | n in done && n in was && Real(info, was[n], SHARED_ROOT) :: was[n]
  }

  /** The same for the shared modules and their one cache. */
  ghost predicate SettlingShared(info: Obj -> Info, was: Table, cached: Table, done: set<Name>, modules: Table,
                                 shared: Table) {
    && shared == cached + SharedPart(info, was, done)
    && (forall n :: n !in done ==> Same(modules, was, n))
    && (forall n :: n in done ==> Same(modules, shared, n))
  }

  lemma SettlingSharedStarts(info: Obj -> Info, was: Table, cached: Table)
    ensures SettlingShared(info, was, cached, {}, was, cached)
  {
    assert SharedPart(info, was, {}) == map[];
  }

  lemma SettlingSharedStep(info: Obj -> Info, was: Table, cached: Table, done: set<Name>, modules: Table, shared: Table,
                           n: Name)
    requires SettlingShared(info, was, cached, done, modules, shared) && n in was && n !in done
    ensures var shared' := SharedWith(info, shared, n, was[n]);
      SettlingShared(info, was, cached, done + {n}, Restored(modules, shared', n), shared')
  {
    var a, b := SharedPart(info, was, done), SharedPart(info, was, done + {n});
    assert b == if Real(info, was[n], SHARED_ROOT) then a[n := was[n]] else a;
    var shared' := SharedWith(info, shared, n, was[n]);
    assert shared' == cached + b;
    forall x | x in done + {n} ensures Same(Restored(modules, shared', n), shared', x) {
      if x != n {
        assert Same(modules, shared, x);
      }
    }
  }

  lemma SettlingSharedEnds(info: Obj -> Info, was: Table, cached: Table, done: set<Name>, modules: Table, shared: Table)
    requires SettlingShared(info, was, cached, done, modules, shared)
    requires forall n :: n in done <==> n in was && IsShared(n)
    ensures shared == RememberedShared(info, cached, was)
    ensures forall n :: Same(modules, if IsShared(n) && n in was then shared else was, n)
  {
    assert SharedPart(info, was, done)
      == (map n | n in was && IsShared(n) && Real(info, was[n], SHARED_ROOT) :: was[n]);
  }

  lemma TablesEqual(a: Table, b: Table)
    requires forall n :: Same(a, b, n)
    ensures a == b
  {
    forall n ensures (n in a <==> n in b) && (n in a ==> a[n] == b[n]) {
      assert Same(a, b, n);
    }
  }

  function WithMissing(modules: Table, n: Name, cache: Table): Table {
    if n !in modules && n in cache then modules[n := cache[n]] else modules
  }

  lemma BoundName(late: Table, mid: Table, cache: Table, shared: Table, n: Name)
    requires ["shared"] !in cache
    requires Same(late, if ["shared"] in mid then shared else mid, ["shared"])
    ensures var end := WithMissing(WithMissing(WithMissing(late, ["main"], cache), ["app"], cache), ["shared"], shared)
      + cache;
      Same(end, if n in cache then cache else if n == ["shared"] && n in shared then shared else late, n)
  {
  }

  lemma NameIsSwitched(was: Table, mid: Table, late: Table, end: Table, app: Table, shared: Table, n: Name)
    requires n in app ==> IsApp(n)
    requires n in shared ==> IsShared(n)
    requires Same(mid, if IsApp(n) && n in was then app else was, n)
    requires Same(late, if IsShared(n) && n in mid then shared else mid, n)
    requires Same(end, if n in app then app else if n == ["shared"] && n in shared then shared else late, n)
    ensures Same(end, SwitchedTable(was, app, shared), n)
  {
  }

  /** After both kinds are settled and the service's cache is bound, the table is the switched one. */
  lemma TableIsSwitched(was: Table, mid: Table, late: Table, end: Table, app: Table, shared: Table)
    requires forall n :: n in app ==> IsApp(n)
    requires forall n :: n in shared ==> IsShared(n)
    requires forall n :: Same(mid, if IsApp(n) && n in was then app else was, n)
    requires forall n :: Same(late, if IsShared(n) && n in mid then shared else mid, n)
    requires forall n :: Same(end, if n in app then app else if n == ["shared"] && n in shared then shared else late, n)
    ensures end == SwitchedTable(was, app, shared)
  {
    hide SwitchedTable, Same;
    forall n ensures Same(end, SwitchedTable(was, app, shared), n) {
      NameIsSwitched(was, mid, late, end, app, shared, n);
    }
    TablesEqual(end, SwitchedTable(was, app, shared));
  }

  lemma CachesStayOk(info: Obj -> Info, caches: map<string, Table>, shared: Table, was: Table, caches': map<string,
                     Table>)
    requires CachesOk(info, caches, shared)
    requires forall s :: CacheOf(caches', s) == Remembered(info, CacheOf(caches, s), was, s)
    ensures CachesOk(info, caches', RememberedShared(info, shared, was))
  {
    forall s ensures OwnTable(info, CacheOf(caches', s), s) {
      assert OwnTable(info, CacheOf(caches, s), s);
    }
  }

  /** Settling the service modules first does not change what is remembered of the shared ones. */
  lemma SharedSeesOnlyShared(info: Obj -> Info, cached: Table, was: Table, mid: Table, app: Table)
    requires forall n :: Same(mid, if IsApp(n) && n in was then app else was, n)
    ensures RememberedShared(info, cached, mid) == RememberedShared(info, cached, was)
  {
    forall n | IsShared(n) ensures Same(mid, was, n) {
      assert Same(mid, if IsApp(n) && n in was then app else was, n);
    }
    assert (map n | n in mid && IsShared(n) && Real(info, mid[n], SHARED_ROOT) :: mid[n])
        == (map n | n in was && IsShared(n) && Real(info, was[n], SHARED_ROOT) :: was[n]);
  }

  /** Part way through repairing a tree: all but the names to do are linked. */
  ghost predicate Repaired(modules: Table, attrs: Links, prefix: string, todo: set<Name>) {
    forall n :: Linkable(modules, n) && n[0] == prefix ==> n in todo || Linked(modules, attrs, n)
  }

  lemma RepairStep(modules: Table, was: Links, attrs: Links, prefix: string, todo: set<Name>, n: Name)
    requires Linkable(modules, n) && n[0] == prefix
    ensures var attrs' := attrs[(modules[Parent(n)], Child(n)) := modules[n]];
      && (TreeAgrees(modules, prefix) && Repaired(modules, attrs, prefix, todo) ==>
            Repaired(modules, attrs', prefix, todo - {n}))
      && (AliasesAgree(modules) && OthersKept(modules, was, attrs, prefix) ==> OthersKept(modules, was, attrs', prefix))
  {
  }

  class ImportContext {
    const info: Obj -> Info
    var modules: Table
    var attrs: Links
    var caches: map<string, Table>
    var shared: Table
    var path: seq<Entry>

    /** This context, apart from attribute links, has the given value. */
    ghost predicate Shows(c: Context)
      reads `modules, `caches, `shared, `path
    {
      modules == c.modules && shared == c.shared && path == c.path && forall s :: CacheOf(caches, s) == c.caches(s)
    }

    constructor (info: Obj -> Info, modules: Table, attrs: Links, path: seq<Entry>)
      ensures this.info == info && this.modules == modules && this.attrs == attrs && this.path == path
      ensures CachesOk(info, caches, shared)
      ensures shared == map[] && forall s :: CacheOf(caches, s) == map[]
    {
      this.info, this.modules, this.attrs, this.path := info, modules, attrs, path;
      caches, shared := map s | s in SERVICES :: map[], map[];
    }

    /** Removes a module and the attribute its parent holds under that name. */
    method Evict(n: Name)
      modifies `modules, `attrs
      ensures modules == old(modules) - {n}
      ensures attrs == if Attached(modules, n) then old(attrs) - {(modules[Parent(n)], Child(n))} else old(attrs)
    {
      modules := modules - {n};
      if |n| > 1 {
        var parent := Parent(n);
        if parent in modules && modules[parent] != 0 {
          attrs := attrs - {(modules[parent], Child(n))};
        }
      }
    }

    /** Installs a module and attaches it to its parent, when that is loaded. */
    method Bind(n: Name, m: Obj)
      modifies `modules, `attrs
      ensures modules == old(modules)[n := m]
      ensures attrs == if Attached(modules, n) then old(attrs)[(modules[Parent(n)], Child(n)) := m] else old(attrs)
    {
      modules := modules[n := m];
      if |n| > 1 {
        var parent := Parent(n);
        if parent in modules && modules[parent] != 0 {
          attrs := attrs[(modules[parent], Child(n)) := m];
        }
      }
    }

    /** Caches a module for the service whose file it came from, when it is a real one. */
    method RememberOwner(n: Name) returns (keep: Option<string>)
      requires n in modules
      modifies `caches
      ensures forall s :: keep == Some(s) <==> Owned(info, modules[n], s)
      ensures forall s :: CacheOf(caches, s) == CacheWith(info, CacheOf(old(caches), s), n, modules[n], s)
    {
      var m := modules[n];
      var owner := info(m).owner;
      keep := None;
      if owner.Some? && Real(info, m, owner.value) {
        caches := caches[owner.value := CacheOf(caches, owner.value)[n := m]];
        keep := owner;
      }
    }

    /** One stale `main`/`app` entry: remembered for its owner, then kept, restored or evicted. */
    method SettleApp(n: Name, service: string)
      requires n in modules
      modifies `modules, `caches, `attrs
      ensures forall s :: CacheOf(caches, s) == CacheWith(info, CacheOf(old(caches), s), n, old(modules)[n], s)
      ensures modules == Restored(old(modules), CacheOf(caches, service), n)
      ensures attrs
           == if Owned(info, old(modules)[n], service) then old(attrs) else Rehung(modules, old(attrs), n)
    {
      var keep := RememberOwner(n);
      if keep == Some(service) {
        assert modules == modules[n := modules[n]];
        return;
      }
      var cache := CacheOf(caches, service);
      if n in cache {
        Bind(n, cache[n]);
      } else {
        Evict(n);
      }
    }

    method SettleShared(n: Name)
      requires n in modules
      modifies `modules, `shared, `attrs
      ensures shared == SharedWith(info, old(shared), n, old(modules)[n])
      ensures modules == Restored(old(modules), shared, n)
      ensures attrs
           == if Real(info, old(modules)[n], SHARED_ROOT) then old(attrs) else Rehung(modules, old(attrs), n)
    {
      if Real(info, modules[n], SHARED_ROOT) {
        shared := shared[n := modules[n]];
        assert modules == modules[n := modules[n]];
        return;
      }
      if n in shared {
        Bind(n, shared[n]);
      } else {
        Evict(n);
      }
    }

    /** All stale `main`/`app` entries, in any order. */
    method SettleApps(service: string)
      modifies `modules, `caches, `attrs
      ensures forall s :: CacheOf(caches, s) == Remembered(info, CacheOf(old(caches), s), old(modules), s)
      ensures forall n :: Same(modules, if IsApp(n)
        && n in old(modules) then CacheOf(caches, service) else old(modules), n)
    {
      ghost var was, cached := modules, caches;
      var todo := set n | n in modules && IsApp(n);
      ghost var done: set<Name> := {};
      SettlingStarts(info, service, was, cached);
      while todo != {}
        invariant todo !! done
        invariant forall n :: n in todo + done <==> n in was && IsApp(n)
        invariant Settling(info, service, was, cached, done, modules, caches)
        decreases todo
      {
        var n :| n in todo;
        ghost var before, table := caches, modules;
        assert Same(table, was, n);
        SettleApp(n, service);
        SettlingStep(info, service, was, cached, done, table, before, n, caches);
        todo, done := todo - {n}, done + {n};
      }
      SettlingEnds(info, service, was, cached, done, modules, caches);
    }

    method SettleShareds()
      modifies `modules, `shared, `attrs
      ensures shared == RememberedShared(info, old(shared), old(modules))
      ensures forall n :: Same(modules, if IsShared(n) && n in old(modules) then shared else old(modules), n)
    {
      ghost var was, cached := modules, shared;
      var todo := set n | n in modules && IsShared(n);
      ghost var done: set<Name> := {};
      SettlingSharedStarts(info, was, cached);
      while todo != {}
        invariant todo !! done
        invariant forall n :: n in todo + done <==> n in was && IsShared(n)
        invariant SettlingShared(info, was, cached, done, modules, shared)
        decreases todo
      {
        var n :| n in todo;
        assert Same(modules, was, n);
        SettlingSharedStep(info, was, cached, done, modules, shared, n);
        SettleShared(n);
        todo, done := todo - {n}, done + {n};
      }
      SettlingSharedEnds(info, was, cached, done, modules, shared);
    }

    /** Binds every entry of a cache, in any order. */
    method BindAll(cache: Table)
      modifies `modules, `attrs
      ensures modules == old(modules) + cache
    {
      ghost var was := modules;
      var todo := cache.Keys;
      while todo != {}
        invariant todo <= cache.Keys
        invariant forall n :: n in cache && n !in todo ==> Same(modules, cache, n)
        invariant forall n :: n !in cache || n in todo ==> Same(modules, was, n)
        decreases todo
      {
        var n :| n in todo;
        Bind(n, cache[n]);
        todo := todo - {n};
      }
      forall n ensures Same(modules, was + cache, n) {
        assert Same(modules, if n in cache then cache else was, n);
      }
      TablesEqual(modules, was + cache);
    }

    /** Reattaches the submodules of one package tree to their loaded parents. */
    method Repair(prefix: string)
      requires prefix == "app" || prefix == "shared"
      modifies `attrs
      ensures TreeLinked(modules, attrs, prefix) <==> TreeAgrees(modules, prefix)
      ensures AliasesAgree(modules) ==> OthersKept(modules, old(attrs), attrs, prefix)
    {
      hide Linked, AliasesAgree, TreeAgrees;
      ghost var was := attrs;
      var todo := set n | n in modules && |n| > 1 && n[0] == prefix;
      while todo != {}
        invariant forall n :: n in todo ==> n in modules && |n| > 1 && n[0] == prefix
        invariant TreeAgrees(modules, prefix) ==> Repaired(modules, attrs, prefix, todo)
        invariant AliasesAgree(modules) ==> OthersKept(modules, was, attrs, prefix)
        decreases todo
      {
        var n :| n in todo;
        var parent := Parent(n);
        if parent in modules && modules[parent] != 0 && modules[n] != 0 {
          RepairStep(modules, was, attrs, prefix, todo, n);
          attrs := attrs[(modules[parent], Child(n)) := modules[n]];
        }
        todo := todo - {n};
      }
      LinkedOnlyIfAgreeing(modules, attrs);
    }

    /** The table part of a switch. */
    method SwitchTable(service: string)
      requires CachesOk(info, caches, shared)
      modifies `modules, `caches, `shared, `attrs
      ensures CachesOk(info, caches, shared)
      ensures forall s :: CacheOf(caches, s) == Remembered(info, CacheOf(old(caches), s), old(modules), s)
      ensures shared == RememberedShared(info, old(shared), old(modules))
      ensures modules == SwitchedTable(old(modules), CacheOf(caches, service), shared)
    {
      hide SwitchedTable, Remembered, RememberedShared;
      ghost var was, cached, shared0 := modules, caches, shared;
      SettleApps(service);
      ghost var mid := modules;
      SettleShareds();
      ghost var late := modules;
      SharedSeesOnlyShared(info, shared0, was, mid, CacheOf(caches, service));
      CachesStayOk(info, cached, shared0, was, caches);
      var cache := CacheOf(caches, service);
      BindCached(cache, mid);
      TableIsSwitched(was, mid, late, modules, cache, shared);
    }

    /** Binds the package roots that are missing, then the service's whole cached tree. */
    method BindCached(cache: Table, ghost mid: Table)
      requires forall n :: n in cache ==> IsApp(n)
      requires forall n :: Same(modules, if IsShared(n) && n in mid then shared else mid, n)
      modifies `modules, `attrs
      ensures forall n ::
        Same(modules, if n in cache then cache else if n == ["shared"] && n in shared then shared else old(modules), n)
    {
      ghost var late := modules;
      assert Same(late, if ["shared"] in mid then shared else mid, ["shared"]);
      assert ["shared"] !in cache;
      hide Same, IsApp, IsShared;
      BindMissing(["main"], cache);
      BindMissing(["app"], cache);
      BindMissing(["shared"], shared);
      BindAll(cache);
      forall n ensures Same(modules, if n in cache then cache else if n == ["shared"]
        && n in shared then shared else late, n) {
        BoundName(late, mid, cache, shared, n);
      }
    }

    method BindMissing(n: Name, cache: Table)
      modifies `modules, `attrs
      ensures modules == WithMissing(old(modules), n, cache)
    {
      if n !in modules && n in cache {
        Bind(n, cache[n]);
      }
    }

    /**
     * Makes a service's directory the active one. The table then holds exactly
     * the modules remembered for the service under `main` and `app`, nothing
     * outside those trees has moved, and every submodule is attached to its
     * parent exactly when names of one package object agree on its children.
     */
    method SwitchTo(service: string)
      requires CachesOk(info, caches, shared)
      modifies this
      ensures CachesOk(info, caches, shared)
      ensures forall s :: CacheOf(caches, s) == Remembered(info, CacheOf(old(caches), s), old(modules), s)
      ensures shared == RememberedShared(info, old(shared), old(modules))
      ensures modules == SwitchedTable(old(modules), CacheOf(caches, service), shared)
      ensures path == SwitchedPath(old(path), service)
      ensures path[0] == ServiceDir(service)
      ensures forall e :: e in path && e.ServiceDir? && e.service != service ==>
        e.service !in {"admin", "compliance", "graph", "ingestion", "nlp", "scheduler"}
      ensures Filter(path, Bystanders(service)) == Filter(old(path), Bystanders(service))
      ensures multiset(path)[ServiceDir(service)]
           == if ServiceDir(service) in old(path) then multiset(old(path))[ServiceDir(service)] else 1
      ensures AllLinked(modules, attrs) <==> AliasesAgree(modules)
    {
      hide SwitchedTable, Remembered, RememberedShared, AliasesAgree, TreeAgrees, TreeLinked, OthersKept, AllLinked;
      SwitchTable(service);
      Repair("app");
      ghost var half := attrs;
      Repair("shared");
      TreesAre(modules, half, attrs);
      LinksAre(modules, attrs);
      PathHasOneService(path, service);
      PathKeepsTheRest(path, service);
      hide Bystanders;
      path := Filter(path, e => Stays(e, service));
      path := [ServiceDir(service)] + Without(path, ServiceDir(service));
    }

    /** Any sequence of switches, imports, stubs and removals has the effect the session describes. */
    method Replay(ops: seq<Op>, ghost start: Context)
      requires CachesOk(info, caches, shared) && Shows(start)
      modifies this
      ensures CachesOk(info, caches, shared)
      ensures Shows(Session(info, start, ops))
    {
      hide SwitchedTable, Remembered, RememberedShared, SwitchedPath, CachesOk;
      for i := 0 to |ops|
        invariant CachesOk(info, caches, shared)
        invariant Shows(Session(info, start, ops[..i]))
      {
        assert ops[..i + 1][..i] == ops[..i];
        match ops[i]
        case Switch(service) => SwitchTo(service);
        case Install(n, m) => modules := modules[n := m];
        case Drop(n) => modules := modules - {n};
      }
      assert ops[..|ops|] == ops;
    }
  }

  function AliasedTable(): Table {
    map[["app", "a"] := 1, ["app", "b"] := 1, ["app", "a", "x"] := 2, ["app", "b", "x"] := 3]
  }

  /** One package object under two names whose children differ: after a switch one of them is attached wrongly. */
  method AliasedPackage() returns (context: ImportContext)
    ensures !AllLinked(context.modules, context.attrs)
  {
    context := new ImportContext(_ => Info(Some("admin"), {"admin"}, true), AliasedTable(), map[], []);
    context.SwitchTo("admin");
    AliasesDisagree(context.info, CacheOf(context.caches, "admin"), context.shared, context.modules);
  }

  lemma AliasesDisagree(info: Obj -> Info, app: Table, shared: Table, modules: Table)
    requires forall m :: Owned(info, m, "admin") <==> m != 0
    requires app == Remembered(info, map[], AliasedTable(), "admin")
    requires modules == SwitchedTable(AliasedTable(), app, shared)
    ensures !AliasesAgree(modules)
  {
    hide AliasedTable, Remembered, SwitchedTable, Owned;
    var n, m := ["app", "a", "x"], ["app", "b", "x"];
    AliasedEntries();
    assert Parent(n) == ["app", "a"] && Parent(m) == ["app", "b"] && Child(n) == Child(m) == "x";
    StaysLoaded(info, AliasedTable(), app, shared, modules, n);
    StaysLoaded(info, AliasedTable(), app, shared, modules, m);
    StaysLoaded(info, AliasedTable(), app, shared, modules, Parent(n));
    StaysLoaded(info, AliasedTable(), app, shared, modules, Parent(m));
    assert Linkable(modules, n) && Linkable(modules, m);
  }

  lemma AliasedEntries()
    ensures var t := AliasedTable();
      && ["app", "a"] in t && t[["app", "a"]] == 1 && ["app", "b"] in t && t[["app", "b"]] == 1
      && ["app", "a", "x"] in t && t[["app", "a", "x"]] == 2 && ["app", "b", "x"] in t && t[["app", "b", "x"]] == 3
  {
    assert ["app", "a", "x"][1] == "a" && ["app", "b", "x"][1] == "b";
    assert ["app", "a"][1] == "a" && ["app", "b"][1] == "b";
  }

  /** A switch to its own service leaves a real module where it was. */
  lemma StaysLoaded(info: Obj -> Info, was: Table, app: Table, shared: Table, modules: Table, n: Name)
    requires app == Remembered(info, map[], was, "admin") && modules == SwitchedTable(was, app, shared)
    requires n in was && IsApp(n) && Owned(info, was[n], "admin")
    ensures n in modules && modules[n] == was[n]
  {
  }
}
