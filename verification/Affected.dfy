/** From changed files to affected packages and the task instances that cover
    them. */
module Affected {
  import opened StoreTypes
  import opened NameOrder
  import opened Graphs

  // ---- The registry --------------------------------------------------------

  datatype Package = Package(id: string, path: string, ecosystem: string, dependsOn: seq<string>, small: bool)

  /** What a change to matching files puts at risk. */
  datatype BlastRadius = BlastRadius(
    patterns: seq<string>, exceptPatterns: seq<string>, everything: bool,
    packages: seq<string>, ecosystems: seq<string>)

  datatype StandaloneKind = StandaloneKind(id: string, trigger: seq<string>)

  datatype TaskKind = TaskKind(id: string, applies: Package -> bool)

  /** `matches(path, pattern)` is glob matching; `strip` trims a file name. */
  datatype Registry = Registry(
    packages: seq<Package>, blastRadius: seq<BlastRadius>,
    standaloneKinds: seq<StandaloneKind>, kinds: seq<TaskKind>,
    matches: (string, string) -> bool, strip: string -> string)

  function PackagesById(packages: seq<Package>): map<string, Package> {
    if packages == [] then map[]
    else PackagesById(packages[..|packages| - 1])[packages[|packages| - 1].id := packages[|packages| - 1]]
  }

  function Ids(packages: seq<Package>): set<string> {
    set p | p in packages :: p.id
  }

  function Dependencies(packages: seq<Package>): Declared {
    var byId := PackagesById(packages);
    map id | id in byId :: byId[id].dependsOn
  }

  ghost predicate DistinctIds(packages: seq<Package>) {
    forall i, j :: 0 <= i < j < |packages| ==> packages[i].id != packages[j].id
  }

  lemma {:induction false} ByIdKeys(packages: seq<Package>)
    ensures PackagesById(packages).Keys == Ids(packages)
    ensures forall id :: id in PackagesById(packages) ==>
              PackagesById(packages)[id] in packages && PackagesById(packages)[id].id == id
  {
    if packages != [] {
      var earlier, last := packages[..|packages| - 1], packages[|packages| - 1];
      ByIdKeys(earlier);
      assert packages == earlier + [last];
    }
  }

  lemma {:induction false} ByIdFinds(packages: seq<Package>, i: nat)
    requires DistinctIds(packages) && i < |packages|
    ensures packages[i].id in PackagesById(packages) && PackagesById(packages)[packages[i].id] == packages[i]
  {
    var n := |packages| - 1;
    if i < n {
      ByIdFinds(packages[..n], i);
    }
  }

  // ---- Which packages a file belongs to ------------------------------------

  predicate MatchesAny(reg: Registry, path: string, patterns: seq<string>) {
    exists p :: p in patterns && reg.matches(path, p)
  }

  predicate Inside(path: string, directory: string) {
    path == directory || directory + "/" <= path
  }

  /** The containing package with the longest directory, the first of equals. */
  function MatchPackage(packages: seq<Package>, path: string): Option<Package> {
    if packages == [] then None
    else
      var best, p := MatchPackage(packages[..|packages| - 1], path), packages[|packages| - 1];
      if Inside(path, p.path) && (best.None? || |p.path| > |best.value.path|) then Some(p) else best
  }

  method MatchPackageLoop(packages: seq<Package>, path: string) returns (best: Option<Package>)
    ensures best == MatchPackage(packages, path)
  {
    best := None;
    for i := 0 to |packages|
      invariant best == MatchPackage(packages[..i], path)
    {
      assert packages[..i + 1][..i] == packages[..i];
      var p := packages[i];
      if Inside(path, p.path) && (best.None? || |p.path| > |best.value.path|) {
        best := Some(p);
      }
    }
    assert packages[..|packages|] == packages;
  }

  /** Of the packages that contain the file, none lies deeper than the match. */
  lemma {:induction false} MatchPackageDeepest(packages: seq<Package>, path: string)
    ensures var best := MatchPackage(packages, path);
            && (best.None? <==> forall p :: p in packages ==> !Inside(path, p.path))
            && (best.Some? ==>
                  && best.value in packages && Inside(path, best.value.path)
                  && forall p :: p in packages && Inside(path, p.path) ==> |p.path| <= |best.value.path|)
  {
    if packages != [] {
      var earlier, last := packages[..|packages| - 1], packages[|packages| - 1];
      MatchPackageDeepest(earlier, path);
      assert packages == earlier + [last];
    }
  }

  // ---- What one file puts at risk ------------------------------------------

  predicate Hits(reg: Registry, path: string, entry: BlastRadius) {
    MatchesAny(reg, path, entry.patterns) && !MatchesAny(reg, path, entry.exceptPatterns)
  }

  predicate Escalates(reg: Registry, path: string) {
    exists e :: e in reg.blastRadius && Hits(reg, path, e) && e.everything
  }

  function OfEcosystems(packages: seq<Package>, ecosystems: seq<string>): set<string> {
    set p | p in packages && p.ecosystem in ecosystems :: p.id
  }

  function AtRisk(reg: Registry, path: string, entry: BlastRadius): set<string> {
    if Hits(reg, path, entry) then Members(entry.packages) + OfEcosystems(reg.packages, entry.ecosystems) else {}
  }

  ghost function ThroughEntries(reg: Registry, entries: seq<BlastRadius>, path: string): set<string> {
    set e, id | e in entries && id in AtRisk(reg, path, e) :: id
  }

  /** The packages a file changes directly: through blast-radius entries and
      by containing it. */
  ghost function DirectOf(reg: Registry, path: string): set<string> {
    ThroughEntries(reg, reg.blastRadius, path) + Containing(reg, path)
  }

  function Containing(reg: Registry, path: string): set<string> {
    match MatchPackage(reg.packages, path)
    case None => {}
    case Some(p) => {p.id}
  }

  function StandaloneOf(reg: Registry, path: string): set<string> {
    set k | k in reg.standaloneKinds && MatchesAny(reg, path, k.trigger) :: k.id
  }

  function Normalized(reg: Registry, files: seq<string>): seq<string> {
    if files == [] then []
    else
      var before := Normalized(reg, files[..|files| - 1]);
      var f := reg.strip(files[|files| - 1]);
      if f == "" || f in before then before else before + [f]
  }

  ghost function FileSet(reg: Registry, files: set<string>): set<string> {
    set f | f in files && reg.strip(f) != "" :: reg.strip(f)
  }

  lemma {:induction false} NormalizedMembers(reg: Registry, files: seq<string>)
    ensures Members(Normalized(reg, files)) == FileSet(reg, Members(files))
  {
    if files != [] {
      var earlier, last := files[..|files| - 1], files[|files| - 1];
      NormalizedMembers(reg, earlier);
      assert files == earlier + [last];
      assert Members(files) == Members(earlier) + {last};
      var before, f := Normalized(reg, earlier), reg.strip(last);
      assert f in before <==> f in Members(before);
      assert Members(before + [f]) == Members(before) + {f};
    }
  }

  ghost function DirectBy(reg: Registry): string -> set<string> {
    f => DirectOf(reg, f)
  }

  ghost function StandaloneBy(reg: Registry): string -> set<string> {
    f => StandaloneOf(reg, f)
  }

  ghost function Direct(reg: Registry, files: set<string>): set<string> {
    Gathered(DirectBy(reg), files)
  }

  ghost function StandaloneFor(reg: Registry, files: set<string>): set<string> {
    Gathered(StandaloneBy(reg), files)
  }

  /** What a set of files gathers, file by file. */
  ghost function Gathered(of: string -> set<string>, files: set<string>): set<string> {
    set f, id | f in files && id in of(f) :: id
  }

  lemma GatheredOne(of: string -> set<string>, f: string)
    ensures Gathered(of, {f}) == of(f)
  {
  }

  lemma DirectAdditive(reg: Registry, a: set<string>, b: set<string>)
    ensures Direct(reg, a + b) == Direct(reg, a) + Direct(reg, b)
    ensures StandaloneFor(reg, a + b) == StandaloneFor(reg, a) + StandaloneFor(reg, b)
  {
  }

  lemma DirectOne(reg: Registry, f: string)
    ensures Direct(reg, {f}) == DirectOf(reg, f)
    ensures StandaloneFor(reg, {f}) == StandaloneOf(reg, f)
  {
    GatheredOne(DirectBy(reg), f);
    GatheredOne(StandaloneBy(reg), f);
  }

  // ---- Task instances ------------------------------------------------------

  datatype TaskInstance = TaskInstance(kind: string, package: Option<string>, batch: seq<string>)

  predicate Covers(t: TaskInstance, kind: string, package: string) {
    t.kind == kind && (t.package == Some(package) || package in t.batch)
  }

  function MembersOf(reg: Registry, kind: TaskKind, packages: set<string>): set<string> {
    var byId := PackagesById(reg.packages);
    set p | p in packages && p in byId && kind.applies(byId[p])
  }

  function Dedicated(reg: Registry, kind: string, members: seq<string>): seq<TaskInstance> {
    var byId := PackagesById(reg.packages);
    if members == [] then []
    else
      var before, p := Dedicated(reg, kind, members[..|members| - 1]), members[|members| - 1];
      if p in byId && byId[p].small then before else before + [TaskInstance(kind, Some(p), [])]
  }

  function Small(reg: Registry, members: seq<string>): seq<string> {
    var byId := PackagesById(reg.packages);
    if members == [] then []
    else
      var before, p := Small(reg, members[..|members| - 1]), members[|members| - 1];
      if p in byId && byId[p].small then before + [p] else before
  }

  function OfKind(reg: Registry, kind: TaskKind, packages: set<string>): seq<TaskInstance> {
    var members := Sorted(MembersOf(reg, kind, packages));
    var small := Small(reg, members);
    Dedicated(reg, kind.id, members) + if small != [] then [TaskInstance(kind.id, None, small)] else []
  }

  function OfKinds(reg: Registry, kinds: seq<TaskKind>, packages: set<string>): seq<TaskInstance> {
    if kinds == [] then []
    else OfKinds(reg, kinds[..|kinds| - 1], packages) + OfKind(reg, kinds[|kinds| - 1], packages)
  }

  function Standalone(names: seq<string>): seq<TaskInstance> {
    seq(|names|, i requires 0 <= i < |names| => TaskInstance(names[i], None, []))
  }

  function Instances(reg: Registry, packages: set<string>, standalone: set<string>): seq<TaskInstance> {
    OfKinds(reg, reg.kinds, packages) + Standalone(Sorted(standalone))
  }

  method InstancesOfKind(reg: Registry, kind: TaskKind, packages: set<string>) returns (instances: seq<TaskInstance>)
    ensures instances == OfKind(reg, kind, packages)
  {
    var members := Sorted(MembersOf(reg, kind, packages));
    var small := Small(reg, members);
    instances := Dedicated(reg, kind.id, members);
    if small != [] {
      instances := instances + [TaskInstance(kind.id, None, small)];
    }
  }

  method Instantiate(
    reg: Registry, packages: set<string>, standalone: set<string>)
    returns (instances: seq<TaskInstance>)
    ensures instances == Instances(reg, packages, standalone)
  {
    instances := [];
    for i := 0 to |reg.kinds|
      invariant instances == OfKinds(reg, reg.kinds[..i], packages)
    {
      assert reg.kinds[..i + 1][..i] == reg.kinds[..i];
      var more := InstancesOfKind(reg, reg.kinds[i], packages);
      instances := instances + more;
    }
    assert reg.kinds[..|reg.kinds|] == reg.kinds;
    instances := instances + Standalone(Sorted(standalone));
  }

  // ---- Resolution ----------------------------------------------------------

  datatype Resolution = Resolution(
    escalated: bool, files: seq<string>, packages: set<string>, standalone: set<string>, instances: seq<TaskInstance>)

  ghost function Resolve(reg: Registry, files: seq<string>): Resolution {
    var normalized := Normalized(reg, files);
    if exists f :: f in normalized && Escalates(reg, f) then Escalated(reg, normalized)
    else
      var packages := AffectedBy(reg, Direct(reg, Members(normalized)));
      var standalone := StandaloneFor(reg, Members(normalized));
      Resolution(false, normalized, packages, standalone, Instances(reg, packages, standalone))
  }

  function Escalated(reg: Registry, files: seq<string>): Resolution {
    var packages, standalone := Ids(reg.packages), set k | k in reg.standaloneKinds :: k.id;
    Resolution(true, files, packages, standalone, Instances(reg, packages, standalone))
  }

  /** Closed over dependents: everything reached against the dependencies. */
  ghost function AffectedBy(reg: Registry, direct: set<string>): set<string> {
    ReachedFrom(Reversed(EdgesOf(Dependencies(reg.packages))), direct)
  }

  /** What the registry promises: declared dependencies and blast radii, and
      distinct package ids. */
  ghost predicate Sound(reg: Registry) {
    && Total(Dependencies(reg.packages)) && DistinctIds(reg.packages)
    && forall e :: e in reg.blastRadius ==> Members(e.packages) <= Ids(reg.packages)
  }

  // ---- The loops -----------------------------------------------------------

  function WithDependent(found: Graph, dependencies: seq<string>, id: string): Graph {
    map d | d in found :: found[d] + if d in dependencies then {id} else {}
  }

  ghost predicate AllKnown(names: seq<string>, ids: set<string>) {
    forall i :: 0 <= i < |names| ==> names[i] in ids
  }

  method AddDependent(found: Graph, p: Package) returns (more: Option<Graph>)
    ensures more == if AllKnown(p.dependsOn, found.Keys) then Some(WithDependent(found, p.dependsOn, p.id)) else None
  {
    var now := found;
    assert forall d :: d in found ==> found[d] + {} == found[d];
    assert WithDependent(found, p.dependsOn[..0], p.id) == found;
    for k := 0 to |p.dependsOn|
      invariant forall i :: 0 <= i < k ==> p.dependsOn[i] in found
      invariant now == WithDependent(found, p.dependsOn[..k], p.id)
    {
      var dep := p.dependsOn[k];
      assert p.dependsOn[..k + 1] == p.dependsOn[..k] + [dep];
      if dep !in now {
        return None;
      }
      now := now[dep := now[dep] + {p.id}];
    }
    assert p.dependsOn[..|p.dependsOn|] == p.dependsOn;
    return Some(now);
  }

  /** Which packages depend directly on each; fails on an undeclared dependency. */
  method DependentsMap(packages: seq<Package>) returns (dependents: Option<Graph>)
    requires DistinctIds(packages)
    ensures dependents == if Total(Dependencies(packages)) then Some(Reversed(EdgesOf(Dependencies(packages))))
            else None
  {
    var found: Graph := map id | id in Ids(packages) :: {};
    assert forall d :: DependentsAmong(packages[..0], d) == {};
    assert found == DependentsAfter(packages, 0);
    for i := 0 to |packages|
      invariant found == DependentsAfter(packages, i)
      invariant forall j :: 0 <= j < i ==> DeclaresKnown(packages, j)
    {
      var more := AddDependent(found, packages[i]);
      if more.None? {
        DeclaresAreTotal(packages);
        assert !DeclaresKnown(packages, i);
        return None;
      }
      DependentsOneMore(packages, i);
      found := more.value;
    }
    DeclaresAreTotal(packages);
    DependentsAreReversed(packages);
    return Some(found);
  }

  ghost predicate DeclaresKnown(packages: seq<Package>, j: nat)
    requires j < |packages|
  {
    AllKnown(packages[j].dependsOn, Ids(packages))
  }

  lemma DeclaresAreTotal(packages: seq<Package>)
    requires DistinctIds(packages)
    ensures Total(Dependencies(packages)) <==> forall j :: 0 <= j < |packages| ==> DeclaresKnown(packages, j)
  {
    ByIdKeys(packages);
    var deps := Dependencies(packages);
    if Total(deps) {
      forall j | 0 <= j < |packages|
        ensures DeclaresKnown(packages, j)
      {
        ByIdFinds(packages, j);
        assert AllDeclared(deps[packages[j].id], deps);
      }
    }
    if forall j :: 0 <= j < |packages| ==> DeclaresKnown(packages, j) {
      forall id | id in deps
        ensures AllDeclared(deps[id], deps)
      {
        var j :| 0 <= j < |packages| && packages[j] == PackagesById(packages)[id];
        assert DeclaresKnown(packages, j);
      }
    }
  }

  ghost function DependentsAfter(packages: seq<Package>, n: nat): Graph
    requires n <= |packages|
  {
    map d | d in Ids(packages) :: DependentsAmong(packages[..n], d)
  }

  lemma DependentsOneMore(packages: seq<Package>, n: nat)
    requires n < |packages|
    ensures DependentsAfter(packages, n + 1) ==
            WithDependent(DependentsAfter(packages, n), packages[n].dependsOn, packages[n].id)
  {
    var p := packages[n];
    assert packages[..n + 1] == packages[..n] + [p];
    assert forall d :: DependentsAmong(packages[..n + 1], d) ==
                       (DependentsAmong(packages[..n], d) + if d in p.dependsOn then {p.id} else {});
  }

  function DependentsAmong(packages: seq<Package>, d: string): set<string> {
    set p | p in packages && d in p.dependsOn :: p.id
  }

  lemma DependentsAreReversed(packages: seq<Package>)
    requires DistinctIds(packages)
    ensures DependentsAfter(packages, |packages|) == Reversed(EdgesOf(Dependencies(packages)))
  {
    ByIdKeys(packages);
    assert packages[..|packages|] == packages;
    var after, reversed := DependentsAfter(packages, |packages|), Reversed(EdgesOf(Dependencies(packages)));
    assert after.Keys == reversed.Keys == Ids(packages);
    forall d | d in reversed
      ensures after[d] == reversed[d]
    {
      DependentsOf(packages, d);
    }
  }

  lemma DependentsOf(packages: seq<Package>, d: string)
    requires DistinctIds(packages) && d in PackagesById(packages)
    ensures Reversed(EdgesOf(Dependencies(packages)))[d] == DependentsAmong(packages, d)
  {
    ByIdKeys(packages);
    var byId := PackagesById(packages);
    forall id
      ensures id in byId && d in byId[id].dependsOn <==> id in DependentsAmong(packages, d)
    {
      if id in DependentsAmong(packages, d) {
        var p :| p in packages && d in p.dependsOn && p.id == id;
        var i :| 0 <= i < |packages| && packages[i] == p;
        ByIdFinds(packages, i);
      }
    }
  }

  /** Everything marked belongs to the closure, and whatever a marked package
      leads to is marked, unless the package is still pending. */
  ghost predicate Spreading(
    g: Graph, roots: set<string>, all: set<string>, affected: set<string>, pending: set<string>)
  {
    && IsClosure(g, roots, all)
    && roots <= affected <= all && pending <= affected
    && forall n, d :: n in affected && n in g && d in g[n] ==> d in affected || n in pending
  }

  /** One round: the dependents of `current` that are not marked yet are marked
      and stacked. */
  method MarkDependents(
    g: Graph, ghost roots: set<string>, ghost all: set<string>,
    marked: set<string>, waiting: seq<string>, current: string)
    returns (affected: set<string>, stack: seq<string>)
    requires current in g && current in marked
    requires Spreading(g, roots, all, marked, Members(waiting) + {current})
    ensures Spreading(g, roots, all, affected, Members(stack))
    ensures marked <= affected && (affected == marked ==> stack == waiting)
  {
    affected, stack := marked, waiting;
    var rest := g[current];
    while rest != {}
      invariant rest <= g[current] && g[current] - rest <= affected
      invariant Spreading(g, roots, all, affected, Members(stack) + {current})
      invariant marked <= affected && (affected == marked ==> stack == waiting)
      decreases rest
    {
      var dependent :| dependent in rest;
      rest := rest - {dependent};
      if dependent !in affected {
        assert Members(stack + [dependent]) == Members(stack) + {dependent};
        affected := affected + {dependent};
        stack := stack + [dependent];
      }
    }
  }

  /** The worklist that marks a package when it joins the stack. */
  method CloseOverDependents(g: Graph, direct: set<string>) returns (affected: set<string>)
    requires Closed(g) && direct <= g.Keys
    ensures affected == ReachedFrom(g, direct)
  {
    ghost var all := ClosureExists(g, direct);
    affected := direct;
    var stack := Sorted(direct);
    assert Members(stack) == direct;
    while stack != []
      invariant Spreading(g, direct, all, affected, Members(stack))
      decreases g.Keys - affected, |stack|
    {
      var current, rest := stack[|stack| - 1], stack[..|stack| - 1];
      assert current in Members(stack);
      assert Members(stack) == Members(rest) + {current};
      affected, stack := MarkDependents(g, direct, all, affected, rest, current);
    }
    assert Stays(g, affected);
    ClosureIsReached(g, direct, all);
  }

  method ResolveFiles(reg: Registry, files: seq<string>) returns (r: Resolution)
    requires Sound(reg)
    ensures r == Resolve(reg, files)
  {
    var normalized := Normalized(reg, files);
    ByIdKeys(reg.packages);
    var direct: set<string>, standalone: set<string> := {}, {};
    for i := 0 to |normalized|
      invariant forall f :: f in normalized[..i] ==> !Escalates(reg, f)
      invariant direct == Direct(reg, Members(normalized[..i])) && direct <= Ids(reg.packages)
      invariant standalone == StandaloneFor(reg, Members(normalized[..i]))
    {
      var path := normalized[i];
      assert normalized[..i + 1] == normalized[..i] + [path];
      assert Members(normalized[..i + 1]) == Members(normalized[..i]) + {path};
      DirectAdditive(reg, Members(normalized[..i]), {path});
      DirectOne(reg, path);
      var hit, escalates := HitBy(reg, path);
      if escalates {
        assert path in normalized;
        return Escalated(reg, normalized);
      }
      var inside := ContainingPackage(reg, path);
      direct := direct + hit + inside;
      standalone := standalone + StandaloneOf(reg, path);
    }
    assert normalized[..|normalized|] == normalized;
    var dependents := DependentsMap(reg.packages);
    TotalIsClosed(Dependencies(reg.packages));
    var packages := CloseOverDependents(dependents.value, direct);
    var instances := Instantiate(reg, packages, standalone);
    return Resolution(false, normalized, packages, standalone, instances);
  }

  method ContainingPackage(reg: Registry, path: string) returns (inside: set<string>)
    ensures inside == Containing(reg, path) && inside <= Ids(reg.packages)
  {
    var matched := MatchPackageLoop(reg.packages, path);
    MatchPackageDeepest(reg.packages, path);
    return if matched.Some? then {matched.value.id} else {};
  }

  /** The blast-radius entries in turn, stopping at the first that escalates. */
  method HitBy(reg: Registry, path: string) returns (hit: set<string>, escalates: bool)
    requires Sound(reg)
    ensures escalates == Escalates(reg, path)
    ensures !escalates ==> hit == ThroughEntries(reg, reg.blastRadius, path) && hit <= Ids(reg.packages)
  {
    hit := {};
    for i := 0 to |reg.blastRadius|
      invariant hit == ThroughEntries(reg, reg.blastRadius[..i], path) && hit <= Ids(reg.packages)
      invariant forall e :: e in reg.blastRadius[..i] ==> !(Hits(reg, path, e) && e.everything)
    {
      var entry := reg.blastRadius[i];
      assert reg.blastRadius[..i + 1] == reg.blastRadius[..i] + [entry];
      assert ThroughEntries(reg, reg.blastRadius[..i + 1], path) ==
             ThroughEntries(reg, reg.blastRadius[..i], path) + AtRisk(reg, path, entry);
      if !Hits(reg, path, entry) {
        continue;
      }
      if entry.everything {
        return hit, true;
      }
      hit := hit + Members(entry.packages);
      hit := hit + OfEcosystems(reg.packages, entry.ecosystems);
    }
    assert reg.blastRadius[..|reg.blastRadius|] == reg.blastRadius;
    return hit, false;
  }

  // ---- What resolution promises --------------------------------------------

  /** A package is affected exactly when something it transitively depends on,
      or it itself, was changed directly. */
  lemma AffectedIffDependsOnChanged(reg: Registry, direct: set<string>, p: string)
    requires Sound(reg) && direct <= Ids(reg.packages) && p in Ids(reg.packages)
    ensures var g := EdgesOf(Dependencies(reg.packages));
            p in AffectedBy(reg, direct) <==> exists d :: d in direct && d in ReachedFrom(g, {p})
  {
    ByIdKeys(reg.packages);
    TotalIsClosed(Dependencies(reg.packages));
    var g := EdgesOf(Dependencies(reg.packages));
    forall d
      ensures Reaches(Reversed(g), d, p) <==> Reaches(g, p, d)
    {
      ReachesBackwards(g, p, d);
    }
    if p in AffectedBy(reg, direct) {
      var d :| d in direct && Reaches(Reversed(g), d, p);
      assert d in ReachedFrom(g, {p});
    }
    if d :| d in direct && d in ReachedFrom(g, {p}) {
      assert Reaches(Reversed(g), d, p);
    }
  }

  /** Only which files changed matters: neither their order nor repetition. */
  lemma SameFilesSameWork(reg: Registry, a: seq<string>, b: seq<string>)
    requires Members(a) == Members(b)
    ensures Resolve(reg, a) == Resolve(reg, b).(files := Resolve(reg, a).files)
  {
    NormalizedMembers(reg, a);
    NormalizedMembers(reg, b);
    var na, nb := Normalized(reg, a), Normalized(reg, b);
    assert Members(na) == Members(nb);
    assert forall f :: f in na <==> f in Members(na);
    assert forall f :: f in nb <==> f in Members(nb);
  }

  lemma ResolveByFileSet(reg: Registry, files: seq<string>)
    ensures var r, names := Resolve(reg, files), FileSet(reg, Members(files));
            && (r.escalated <==> exists f :: f in names && Escalates(reg, f))
            && (!r.escalated ==>
                  r.packages == AffectedBy(reg, Direct(reg, names)) && r.standalone == StandaloneFor(reg, names))
  {
    NormalizedMembers(reg, files);
    assert forall f :: f in Normalized(reg, files) <==> f in Members(Normalized(reg, files));
  }

  /** Resolving two change sets together affects what either affects, unless
      one escalates, which escalates both. */
  lemma ResolveAdditive(reg: Registry, a: seq<string>, b: seq<string>)
    ensures var ra, rb, both := Resolve(reg, a), Resolve(reg, b), Resolve(reg, a + b);
            && (both.escalated <==> ra.escalated || rb.escalated)
            && (!both.escalated ==>
                  both.packages == ra.packages + rb.packages && both.standalone == ra.standalone + rb.standalone)
  {
    ResolveByFileSet(reg, a);
    ResolveByFileSet(reg, b);
    ResolveByFileSet(reg, a + b);
    var fa, fb := FileSet(reg, Members(a)), FileSet(reg, Members(b));
    assert Members(a + b) == Members(a) + Members(b);
    FileSetAdditive(reg, Members(a), Members(b));
    DirectAdditive(reg, fa, fb);
    ClosureAdditive(Reversed(EdgesOf(Dependencies(reg.packages))), Direct(reg, fa), Direct(reg, fb));
  }

  lemma FileSetAdditive(reg: Registry, a: set<string>, b: set<string>)
    ensures FileSet(reg, a + b) == FileSet(reg, a) + FileSet(reg, b)
  {
  }

  // ---- Coverage ------------------------------------------------------------

  /** How many instances cover a package for a kind. */
  ghost function Covering(instances: seq<TaskInstance>, kind: string, package: string): nat {
    if instances == [] then 0
    else Covering(instances[..|instances| - 1], kind, package)
         + if Covers(instances[|instances| - 1], kind, package) then 1 else 0
  }

  lemma {:induction false} CoveringConcat(a: seq<TaskInstance>, b: seq<TaskInstance>, kind: string, package: string)
    ensures Covering(a + b, kind, package) == Covering(a, kind, package) + Covering(b, kind, package)
  {
    if b == [] {
      assert a + b == a;
    } else {
      assert (a + b)[..|a + b| - 1] == a + b[..|b| - 1];
      CoveringConcat(a, b[..|b| - 1], kind, package);
    }
  }

  ghost predicate IsSmall(reg: Registry, p: string) {
    p in PackagesById(reg.packages) && PackagesById(reg.packages)[p].small
  }

  lemma {:induction false} DedicatedCovers(reg: Registry, kind: string, members: seq<string>, p: string)
    requires forall i, j :: 0 <= i < j < |members| ==> members[i] != members[j]
    ensures forall k :: Covering(Dedicated(reg, kind, members), k, p) ==
              if k == kind && p in members && !IsSmall(reg, p) then 1 else 0
    ensures p in Small(reg, members) <==> p in members && IsSmall(reg, p)
  {
    if members != [] {
      var earlier, last := members[..|members| - 1], members[|members| - 1];
      DedicatedCovers(reg, kind, earlier, p);
      assert members == earlier + [last];
    }
  }

  /** One kind covers each of its affected packages once, and nothing else. */
  lemma OfKindCovers(reg: Registry, kind: TaskKind, packages: set<string>, k: string, p: string)
    ensures Covering(OfKind(reg, kind, packages), k, p) ==
            if k == kind.id && p in MembersOf(reg, kind, packages) then 1 else 0
  {
    var members := Sorted(MembersOf(reg, kind, packages));
    SortedDistinct(members);
    DedicatedCovers(reg, kind.id, members, p);
    var small := Small(reg, members);
    var batch := if small != [] then [TaskInstance(kind.id, None, small)] else [];
    CoveringConcat(Dedicated(reg, kind.id, members), batch, k, p);
    assert small != [] ==> batch[..|batch| - 1] == [];
  }

  ghost predicate DistinctKinds(kinds: seq<TaskKind>) {
    forall i, j :: 0 <= i < j < |kinds| ==> kinds[i].id != kinds[j].id
  }

  lemma {:induction false} OtherKindsCoverNone(
    reg: Registry, kinds: seq<TaskKind>, packages: set<string>, k: string, p: string)
    requires forall i :: 0 <= i < |kinds| ==> kinds[i].id != k
    ensures Covering(OfKinds(reg, kinds, packages), k, p) == 0
  {
    if kinds != [] {
      var earlier, last := kinds[..|kinds| - 1], kinds[|kinds| - 1];
      OtherKindsCoverNone(reg, earlier, packages, k, p);
      OfKindCovers(reg, last, packages, k, p);
      CoveringConcat(OfKinds(reg, earlier, packages), OfKind(reg, last, packages), k, p);
    }
  }

  lemma {:induction false} OfKindsCover(
    reg: Registry, kinds: seq<TaskKind>, packages: set<string>, i: nat, p: string)
    requires DistinctKinds(kinds) && i < |kinds|
    ensures Covering(OfKinds(reg, kinds, packages), kinds[i].id, p) ==
            if p in MembersOf(reg, kinds[i], packages) then 1 else 0
  {
    var earlier, last := kinds[..|kinds| - 1], kinds[|kinds| - 1];
    if i < |earlier| {
      OfKindsCover(reg, earlier, packages, i, p);
    } else {
      OtherKindsCoverNone(reg, earlier, packages, last.id, p);
    }
    OfKindCovers(reg, last, packages, kinds[i].id, p);
    CoveringConcat(OfKinds(reg, earlier, packages), OfKind(reg, last, packages), kinds[i].id, p);
  }

  lemma {:induction false} StandaloneCoversNone(names: seq<string>, k: string, p: string)
    ensures Covering(Standalone(names), k, p) == 0
  {
    if names != [] {
      assert Standalone(names)[..|names| - 1] == Standalone(names[..|names| - 1]);
      StandaloneCoversNone(names[..|names| - 1], k, p);
    }
  }

  /** Every affected package is covered by exactly one instance of each kind
      that applies to it, and no other package by any. */
  lemma CoveredExactlyOnce(reg: Registry, packages: set<string>, standalone: set<string>, i: nat, p: string)
    requires DistinctKinds(reg.kinds) && i < |reg.kinds|
    ensures Covering(Instances(reg, packages, standalone), reg.kinds[i].id, p) ==
            if p in MembersOf(reg, reg.kinds[i], packages) then 1 else 0
  {
    OfKindsCover(reg, reg.kinds, packages, i, p);
    StandaloneCoversNone(Sorted(standalone), reg.kinds[i].id, p);
    CoveringConcat(OfKinds(reg, reg.kinds, packages), Standalone(Sorted(standalone)), reg.kinds[i].id, p);
  }
}
