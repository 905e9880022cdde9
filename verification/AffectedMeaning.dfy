/** What changed files amount to, said by the registry alone. */
module AffectedMeaning {
  import opened StoreTypes
  import opened NameOrder
  import opened Graphs
  import opened Affected

  // ---- The files -----------------------------------------------------------

  /** A trimmed name that is not empty. */
  ghost predicate Stripped(reg: Registry, files: seq<string>, f: string) {
    f != "" && exists k :: 0 <= k < |files| && reg.strip(files[k]) == f
  }

  /** `f` first comes from the file name at `k`. */
  ghost predicate FirstFrom(reg: Registry, files: seq<string>, f: string, k: nat) {
    && k < |files| && reg.strip(files[k]) == f
    && forall j :: 0 <= j < k ==> reg.strip(files[j]) != f
  }

  /** The normalized files are the trimmed names, once each, in the order in
      which they first appear. */
  ghost predicate NormalForm(reg: Registry, files: seq<string>, names: seq<string>) {
    && (forall f :: f in names <==> Stripped(reg, files, f))
    && (forall i, j, a: nat, b: nat ::
          0 <= i < j < |names| && FirstFrom(reg, files, names[i], a) && FirstFrom(reg, files, names[j], b) ==> a < b)
    && forall i, j :: 0 <= i < j < |names| ==> names[i] != names[j]
  }

  lemma {:induction false} NormalizedMeans(reg: Registry, files: seq<string>)
    ensures NormalForm(reg, files, Normalized(reg, files))
  {
    if files != [] {
      var earlier, last := files[..|files| - 1], files[|files| - 1];
      NormalizedMeans(reg, earlier);
      assert files == earlier + [last];
      StrippedOneMore(reg, earlier, last);
      FirstStays(reg, earlier, last);
    }
  }

  lemma StrippedOneMore(reg: Registry, earlier: seq<string>, last: string)
    ensures forall f :: Stripped(reg, earlier + [last], f) <==>
              Stripped(reg, earlier, f) || (f != "" && reg.strip(last) == f)
  {
    var files := earlier + [last];
    forall f
      ensures Stripped(reg, files, f) <==> Stripped(reg, earlier, f) || (f != "" && reg.strip(last) == f)
    {
      if Stripped(reg, earlier, f) {
        var k :| 0 <= k < |earlier| && reg.strip(earlier[k]) == f;
        assert files[k] == earlier[k];
      }
      assert files[|earlier|] == last;
    }
  }

  lemma FirstStays(reg: Registry, earlier: seq<string>, last: string)
    ensures forall f, k: nat :: Stripped(reg, earlier, f) && FirstFrom(reg, earlier + [last], f, k) ==>
              FirstFrom(reg, earlier, f, k)
  {
    var files := earlier + [last];
    forall f, k: nat | Stripped(reg, earlier, f) && FirstFrom(reg, files, f, k)
      ensures FirstFrom(reg, earlier, f, k)
    {
      var n :| 0 <= n < |earlier| && reg.strip(earlier[n]) == f;
      assert files[n] == earlier[n];
      assert forall j :: 0 <= j < |earlier| ==> files[j] == earlier[j];
    }
  }

  // ---- What a file changes -------------------------------------------------

  ghost predicate HoldsFile(p: Package, f: string) {
    f == p.path || p.path + "/" <= f
  }

  /** Of the packages that hold the file, the one with the longest path, the
      first of equals. */
  ghost predicate Deepest(packages: seq<Package>, f: string, i: nat) {
    && i < |packages| && HoldsFile(packages[i], f)
    && forall j :: 0 <= j < |packages| && HoldsFile(packages[j], f) ==>
         |packages[j].path| < |packages[i].path| || (|packages[j].path| == |packages[i].path| && i <= j)
  }

  /** One more package is the deepest, or the one that was stays it. */
  lemma OneMorePackage(earlier: seq<Package>, last: Package, f: string)
    ensures forall i: nat :: i < |earlier| && Deepest(earlier, f, i) ==>
              if HoldsFile(last, f) && |last.path| > |earlier[i].path| then Deepest(earlier + [last], f, |earlier|)
              else Deepest(earlier + [last], f, i)
    ensures (forall p :: p in earlier ==> !HoldsFile(p, f)) ==>
               (HoldsFile(last, f) <==> Deepest(earlier + [last], f, |earlier|))
  {
    var all := earlier + [last];
    assert forall j :: 0 <= j < |earlier| ==> all[j] == earlier[j] && earlier[j] in earlier;
    assert all[|earlier|] == last;
  }

  lemma {:induction false} MatchIsDeepest(packages: seq<Package>, f: string)
    ensures match MatchPackage(packages, f) {
              case None => forall p :: p in packages ==> !HoldsFile(p, f)
              case Some(p) => exists i: nat :: Deepest(packages, f, i) && packages[i] == p
            }
  {
    if packages != [] {
      var n := |packages| - 1;
      MatchIsDeepest(packages[..n], f);
      assert packages == packages[..n] + [packages[n]];
      OneMorePackage(packages[..n], packages[n], f);
      match MatchPackage(packages[..n], f) {
        case None =>
        case Some(p) =>
          var i: nat :| Deepest(packages[..n], f, i) && packages[..n][i] == p;
      }
    }
  }

  /** The file matches a pattern of the entry and none of its exceptions. */
  ghost predicate Strikes(reg: Registry, e: BlastRadius, f: string) {
    && (exists q :: q in e.patterns && reg.matches(f, q))
    && forall q :: q in e.exceptPatterns ==> !reg.matches(f, q)
  }

  /** The entry names the package, or its ecosystem. */
  ghost predicate Names(reg: Registry, e: BlastRadius, d: string) {
    d in e.packages || exists p :: p in reg.packages && p.id == d && p.ecosystem in e.ecosystems
  }

  /** The file changes the package: it lies in it, or an entry it strikes names it. */
  ghost predicate Changes(reg: Registry, f: string, d: string) {
    || (exists i: nat :: Deepest(reg.packages, f, i) && reg.packages[i].id == d)
    || exists e :: e in reg.blastRadius && Strikes(reg, e, f) && Names(reg, e, d)
  }

  lemma DeepestUnique(packages: seq<Package>, f: string, i: nat, j: nat)
    requires Deepest(packages, f, i) && Deepest(packages, f, j)
    ensures i == j
  {
  }

  lemma HitsMeans(reg: Registry, f: string, e: BlastRadius)
    ensures Hits(reg, f, e) <==> Strikes(reg, e, f)
  {
  }

  lemma ContainingMeans(reg: Registry, f: string, d: string)
    ensures d in Containing(reg, f) <==> exists i: nat :: Deepest(reg.packages, f, i) && reg.packages[i].id == d
  {
    MatchIsDeepest(reg.packages, f);
    match MatchPackage(reg.packages, f) {
      case None =>
      case Some(p) =>
        var i: nat :| Deepest(reg.packages, f, i) && reg.packages[i] == p;
        forall j: nat | Deepest(reg.packages, f, j)
          ensures j == i
        {
          DeepestUnique(reg.packages, f, i, j);
        }
    }
  }

  lemma DirectMeans(reg: Registry, f: string, d: string)
    ensures d in DirectOf(reg, f) <==> Changes(reg, f, d)
  {
    ContainingMeans(reg, f, d);
    forall e
      ensures d in AtRisk(reg, f, e) <==> Strikes(reg, e, f) && Names(reg, e, d)
    {
      HitsMeans(reg, f, e);
    }
    if d in ThroughEntries(reg, reg.blastRadius, f) {
      var e :| e in reg.blastRadius && d in AtRisk(reg, f, e);
    }
    if e :| e in reg.blastRadius && Strikes(reg, e, f) && Names(reg, e, d) {
      assert d in AtRisk(reg, f, e);
    }
  }

  // ---- Dependencies --------------------------------------------------------

  ghost predicate DirectlyNeeds(packages: seq<Package>, a: string, b: string) {
    exists p :: p in packages && p.id == a && b in p.dependsOn
  }

  ghost predicate DependencyPath(packages: seq<Package>, path: seq<string>, a: string, b: string) {
    && path != [] && path[0] == a && path[|path| - 1] == b
    && forall i, j :: 0 <= i && j == i + 1 && j < |path| ==> DirectlyNeeds(packages, path[i], path[j])
  }

  /** The package itself, and what it transitively depends on. */
  ghost predicate Needs(packages: seq<Package>, a: string, b: string) {
    exists path :: DependencyPath(packages, path, a, b)
  }

  lemma NeedsIsEdge(reg: Registry, a: string, b: string)
    requires Sound(reg)
    ensures var g := EdgesOf(Dependencies(reg.packages));
            DirectlyNeeds(reg.packages, a, b) <==> a in g && b in g[a]
  {
    ByIdKeys(reg.packages);
    if p :| p in reg.packages && p.id == a && b in p.dependsOn {
      var i :| 0 <= i < |reg.packages| && reg.packages[i] == p;
      ByIdFinds(reg.packages, i);
    }
  }

  lemma NeedsIsReach(reg: Registry, a: string, b: string)
    requires Sound(reg) && a in Ids(reg.packages)
    ensures Needs(reg.packages, a, b) <==> b in ReachedFrom(EdgesOf(Dependencies(reg.packages)), {a})
  {
    var g := EdgesOf(Dependencies(reg.packages));
    ByIdKeys(reg.packages);
    TotalIsClosed(Dependencies(reg.packages));
    forall x, y
      ensures DirectlyNeeds(reg.packages, x, y) <==> x in g && y in g[x]
    {
      NeedsIsEdge(reg, x, y);
    }
    if path :| DependencyPath(reg.packages, path, a, b) {
      PathInGraph(reg, g, path, a, b);
    }
    if b in ReachedFrom(g, {a}) {
      var path :| PathFrom(g, path, a, b);
      assert DependencyPath(reg.packages, path, a, b);
    }
  }

  lemma PathInGraph(reg: Registry, g: Graph, path: seq<string>, a: string, b: string)
    requires Closed(g) && a in g && DependencyPath(reg.packages, path, a, b)
    requires forall x, y :: DirectlyNeeds(reg.packages, x, y) <==> x in g && y in g[x]
    ensures PathFrom(g, path, a, b) && b in ReachedFrom(g, {a})
  {
    forall i | 0 <= i < |path|
      ensures path[i] in g
    {
      if i > 0 {
        assert DirectlyNeeds(reg.packages, path[i - 1], path[i]);
      }
    }
    assert PathFrom(g, path, a, b);
    assert path[|path| - 1] in g && Reaches(g, a, b);
  }

  // ---- What a resolution is ------------------------------------------------

  /** A resolution escalates exactly when some file strikes an entry that
      stands for everything. */
  lemma EscalatesIff(reg: Registry, files: seq<string>)
    ensures Resolve(reg, files).escalated <==>
            exists f, e :: Stripped(reg, files, f) && e in reg.blastRadius && Strikes(reg, e, f) && e.everything
  {
    NormalizedMeans(reg, files);
    forall f, e
      ensures Hits(reg, f, e) <==> Strikes(reg, e, f)
    {
      HitsMeans(reg, f, e);
    }
  }

  lemma ChangedInRegistry(reg: Registry, f: string)
    requires Sound(reg)
    ensures DirectOf(reg, f) <= Ids(reg.packages)
  {
    forall d | d in DirectOf(reg, f)
      ensures d in Ids(reg.packages)
    {
      DirectMeans(reg, f, d);
      if e :| e in reg.blastRadius && Strikes(reg, e, f) && Names(reg, e, d) {
        assert d in Members(e.packages) || d in Ids(reg.packages);
      }
    }
  }

  lemma ChangesAreDirect(reg: Registry)
    requires Sound(reg)
    ensures forall f, d :: d in DirectOf(reg, f) <==> Changes(reg, f, d)
    ensures forall f, d :: d in DirectOf(reg, f) ==> d in Ids(reg.packages)
  {
    forall f, d
      ensures d in DirectOf(reg, f) <==> Changes(reg, f, d)
      ensures d in DirectOf(reg, f) ==> d in Ids(reg.packages)
    {
      DirectMeans(reg, f, d);
      ChangedInRegistry(reg, f);
    }
  }

  lemma AffectedThrough(reg: Registry, direct: set<string>, p: string)
    requires Sound(reg) && direct <= Ids(reg.packages)
    ensures p in AffectedBy(reg, direct) <==>
            p in Ids(reg.packages) && exists d :: d in direct && Needs(reg.packages, p, d)
  {
    AffectedInRegistry(reg, direct);
    if p in Ids(reg.packages) {
      AffectedIffDependsOnChanged(reg, direct, p);
      forall d
        ensures d in ReachedFrom(EdgesOf(Dependencies(reg.packages)), {p}) <==> Needs(reg.packages, p, d)
      {
        NeedsIsReach(reg, p, d);
      }
    }
  }

  /** Short of an escalation a package is affected exactly when some file
      changes it, or something it transitively depends on. */
  lemma AffectedIff(reg: Registry, files: seq<string>, p: string)
    requires Sound(reg) && !Resolve(reg, files).escalated
    ensures p in Resolve(reg, files).packages <==>
            p in Ids(reg.packages) &&
            exists f, d :: Stripped(reg, files, f) && Changes(reg, f, d) && Needs(reg.packages, p, d)
  {
    var names := Normalized(reg, files);
    var direct := Direct(reg, Members(names));
    NormalizedMeans(reg, files);
    ChangesAreDirect(reg);
    DirectIsChanged(reg, names, direct);
    assert direct <= Ids(reg.packages);
    AffectedThrough(reg, direct, p);
  }

  lemma DirectIsChanged(reg: Registry, names: seq<string>, direct: set<string>)
    requires direct == Direct(reg, Members(names))
    requires forall f, d :: d in DirectOf(reg, f) <==> Changes(reg, f, d)
    ensures forall d :: d in direct <==> exists f :: f in names && Changes(reg, f, d)
  {
    forall d
      ensures d in direct <==> exists f :: f in names && Changes(reg, f, d)
    {
      if f :| f in names && Changes(reg, f, d) {
        assert f in Members(names) && d in DirectBy(reg)(f);
      }
    }
  }

  lemma AffectedInRegistry(reg: Registry, direct: set<string>)
    ensures AffectedBy(reg, direct) <= Ids(reg.packages)
  {
    ByIdKeys(reg.packages);
  }

  /** Short of an escalation a standalone kind is selected exactly when some
      file matches one of its triggers. */
  lemma StandaloneIff(reg: Registry, files: seq<string>, k: string)
    requires !Resolve(reg, files).escalated
    ensures k in Resolve(reg, files).standalone <==>
            exists f, kind, q :: Stripped(reg, files, f) && kind in reg.standaloneKinds && kind.id == k
                                 && q in kind.trigger && reg.matches(f, q)
  {
    var names := Normalized(reg, files);
    NormalizedMeans(reg, files);
    if k in Resolve(reg, files).standalone {
      var f :| f in Members(names) && k in StandaloneBy(reg)(f);
      var kind :| kind in reg.standaloneKinds && MatchesAny(reg, f, kind.trigger) && kind.id == k;
    }
    if f, kind, q :|
      Stripped(reg, files, f) && kind in reg.standaloneKinds && kind.id == k && q in kind.trigger && reg.matches(f, q)
    {
      assert MatchesAny(reg, f, kind.trigger);
      assert f in Members(names) && k in StandaloneBy(reg)(f);
    }
  }

  /** An escalation selects every package and every standalone kind; any
      resolution lists its files in normal form and the instances of what it
      selects. */
  lemma ResolutionMeans(reg: Registry, files: seq<string>)
    ensures var r := Resolve(reg, files);
            && NormalForm(reg, files, r.files)
            && (r.escalated ==>
                  && (forall p :: p in r.packages <==> exists q :: q in reg.packages && q.id == p)
                  && forall k :: k in r.standalone <==> exists s :: s in reg.standaloneKinds && s.id == k)
            && r.instances == Instances(reg, r.packages, r.standalone)
  {
    NormalizedMeans(reg, files);
  }

  // ---- The instances -------------------------------------------------------

  /** The kind applies to the package, which is small or not. */
  ghost predicate Member(reg: Registry, kind: TaskKind, packages: set<string>, p: string, small: bool) {
    p in packages && exists q :: q in reg.packages && q.id == p && kind.applies(q) && q.small == small
  }

  ghost predicate DedicatedTo(reg: Registry, packages: set<string>, t: TaskInstance, i: nat, p: string) {
    && i < |reg.kinds| && Member(reg, reg.kinds[i], packages, p, false)
    && t == TaskInstance(reg.kinds[i].id, Some(p), [])
  }

  /** One batch of all small packages of a kind, in name order. */
  ghost predicate BatchOf(reg: Registry, packages: set<string>, t: TaskInstance, i: nat) {
    && i < |reg.kinds| && t.batch != [] && t == TaskInstance(reg.kinds[i].id, None, t.batch)
    && Ascending(t.batch) && forall p :: p in t.batch <==> Member(reg, reg.kinds[i], packages, p, true)
  }

  lemma MemberMeans(reg: Registry, kind: TaskKind, packages: set<string>, p: string, small: bool)
    requires DistinctIds(reg.packages)
    ensures Member(reg, kind, packages, p, small) <==> p in MembersOf(reg, kind, packages) && IsSmall(reg, p) == small
  {
    ByIdKeys(reg.packages);
    if q :| q in reg.packages && q.id == p && kind.applies(q) && q.small == small {
      var i :| 0 <= i < |reg.packages| && reg.packages[i] == q;
      ByIdFinds(reg.packages, i);
    }
  }

  lemma {:induction false} DedicatedMeans(reg: Registry, kind: string, members: seq<string>, t: TaskInstance)
    ensures t in Dedicated(reg, kind, members) <==>
            exists p :: p in members && !IsSmall(reg, p) && t == TaskInstance(kind, Some(p), [])
  {
    if members != [] {
      DedicatedMeans(reg, kind, members[..|members| - 1], t);
      assert members == members[..|members| - 1] + [members[|members| - 1]];
    }
  }

  lemma {:induction false} SmallMeans(reg: Registry, members: seq<string>)
    requires Ascending(members)
    ensures Ascending(Small(reg, members))
    ensures forall p :: p in Small(reg, members) <==> p in members && IsSmall(reg, p)
  {
    if members != [] {
      var earlier := members[..|members| - 1];
      SmallMeans(reg, earlier);
      assert members == earlier + [members[|members| - 1]];
      forall i | 0 <= i < |Small(reg, earlier)|
        ensures Less(Small(reg, earlier)[i], members[|members| - 1])
      {
        assert Small(reg, earlier)[i] in earlier;
      }
    }
  }

  lemma OfKindMeans(reg: Registry, packages: set<string>, i: nat, t: TaskInstance)
    requires DistinctIds(reg.packages) && i < |reg.kinds|
    ensures t in OfKind(reg, reg.kinds[i], packages) <==>
            (exists p :: DedicatedTo(reg, packages, t, i, p)) || BatchOf(reg, packages, t, i)
  {
    var kind := reg.kinds[i];
    var members := Sorted(MembersOf(reg, kind, packages));
    forall p, small
      ensures Member(reg, kind, packages, p, small) <==> p in members && IsSmall(reg, p) == small
    {
      MemberMeans(reg, kind, packages, p, small);
    }
    DedicatedMeans(reg, kind.id, members, t);
    SmallMeans(reg, members);
    var small := Small(reg, members);
    assert t in OfKind(reg, kind, packages) <==>
           t in Dedicated(reg, kind.id, members) || (small != [] && t == TaskInstance(kind.id, None, small));
    if t in Dedicated(reg, kind.id, members) {
      var p :| p in members && !IsSmall(reg, p) && t == TaskInstance(kind.id, Some(p), []);
      assert DedicatedTo(reg, packages, t, i, p);
    }
    if small != [] && t == TaskInstance(kind.id, None, small) {
      assert BatchOf(reg, packages, t, i);
    }
    if BatchOf(reg, packages, t, i) {
      SameAscending(t.batch, small);
    }
  }

  lemma {:induction false} SameAscending(a: seq<string>, b: seq<string>)
    requires Ascending(a) && Ascending(b) && forall x :: x in a <==> x in b
    ensures a == b
  {
    if a == [] || b == [] {
      HasMember(a);
      HasMember(b);
    } else {
      HeadsAgree(a, b);
      HeadOnce(a);
      HeadOnce(b);
      assert a == [a[0]] + a[1..] && b == [b[0]] + b[1..];
      assert forall x :: x in a <==> x == a[0] || x in a[1..];
      assert forall x :: x in b <==> x == b[0] || x in b[1..];
      SameAscending(a[1..], b[1..]);
    }
  }

  lemma HasMember(a: seq<string>)
    ensures a != [] ==> exists x :: x in a
  {
    if a != [] {
      assert a[0] in a;
    }
  }

  lemma HeadOnce(a: seq<string>)
    requires a != [] && Ascending(a)
    ensures a[0] !in a[1..]
  {
    if a[0] in a[1..] {
      var i :| 0 <= i < |a[1..]| && a[1..][i] == a[0];
      LessTotal(a[0], a[i + 1]);
    }
  }

  lemma HeadsAgree(a: seq<string>, b: seq<string>)
    requires a != [] && b != [] && Ascending(a) && Ascending(b) && a[0] in b && b[0] in a
    ensures a[0] == b[0]
  {
    var i :| 0 <= i < |b| && b[i] == a[0];
    var j :| 0 <= j < |a| && a[j] == b[0];
    if i > 0 && j > 0 {
      LessTotal(a[0], b[0]);
    }
  }

  lemma {:induction false} OfKindsMember(
    reg: Registry, kinds: seq<TaskKind>, packages: set<string>, t: TaskInstance)
    ensures t in OfKinds(reg, kinds, packages) <==> exists kind :: kind in kinds && t in OfKind(reg, kind, packages)
  {
    if kinds != [] {
      var earlier, last := kinds[..|kinds| - 1], kinds[|kinds| - 1];
      OfKindsMember(reg, earlier, packages, t);
      assert forall kind :: kind in kinds <==> kind in earlier || kind == last by {
        assert kinds == earlier + [last];
      }
    }
  }

  /** Every instance is a kind's dedicated task for a large package it applies
      to, a kind's batch of all small ones, or a selected standalone kind; and
      all of those are there. */
  lemma InstancesAre(reg: Registry, packages: set<string>, standalone: set<string>, t: TaskInstance)
    requires DistinctIds(reg.packages)
    ensures t in Instances(reg, packages, standalone) <==>
            || (exists i: nat, p :: DedicatedTo(reg, packages, t, i, p))
            || (exists i: nat :: BatchOf(reg, packages, t, i))
            || (t.kind in standalone && t == TaskInstance(t.kind, None, []))
  {
    OfKindsMember(reg, reg.kinds, packages, t);
    forall i: nat | i < |reg.kinds|
      ensures t in OfKind(reg, reg.kinds[i], packages) <==>
              (exists p :: DedicatedTo(reg, packages, t, i, p)) || BatchOf(reg, packages, t, i)
    {
      OfKindMeans(reg, packages, i, t);
    }
    StandaloneMember(Sorted(standalone), t);
  }

  lemma StandaloneMember(names: seq<string>, t: TaskInstance)
    ensures t in Standalone(names) <==> t.kind in names && t == TaskInstance(t.kind, None, [])
  {
    if t.kind in names && t == TaskInstance(t.kind, None, []) {
      var i :| 0 <= i < |names| && names[i] == t.kind;
      assert Standalone(names)[i] == t;
    }
  }

  // ---- Their order ---------------------------------------------------------

  ghost predicate Kinded(reg: Registry, packages: set<string>, t: TaskInstance, i: nat) {
    (exists p :: DedicatedTo(reg, packages, t, i, p)) || BatchOf(reg, packages, t, i)
  }

  ghost predicate OfEarlierKind(reg: Registry, packages: set<string>, t: TaskInstance, u: TaskInstance) {
    exists i: nat, j: nat :: i < j && Kinded(reg, packages, t, i) && Kinded(reg, packages, u, j)
  }

  /** Of the same kind: dedicated tasks by name, and then the batch. */
  ghost predicate EarlierInKind(reg: Registry, packages: set<string>, t: TaskInstance, u: TaskInstance) {
    exists i: nat, p :: DedicatedTo(reg, packages, t, i, p) &&
      (BatchOf(reg, packages, u, i) || exists q :: DedicatedTo(reg, packages, u, i, q) && Less(p, q))
  }

  /** Standalone tasks come last, by name. */
  ghost predicate BeforeStandalone(reg: Registry, packages: set<string>, t: TaskInstance, u: TaskInstance) {
    && u == TaskInstance(u.kind, None, [])
    && ((exists i: nat :: Kinded(reg, packages, t, i)) || (t == TaskInstance(t.kind, None, []) && Less(t.kind, u.kind)))
  }

  ghost predicate Precedes(reg: Registry, packages: set<string>, t: TaskInstance, u: TaskInstance) {
    || OfEarlierKind(reg, packages, t, u) || EarlierInKind(reg, packages, t, u)
    || BeforeStandalone(reg, packages, t, u)
  }

  ghost predicate InOrder(reg: Registry, packages: set<string>, s: seq<TaskInstance>) {
    forall x, y :: 0 <= x < y < |s| ==> Precedes(reg, packages, s[x], s[y])
  }

  lemma InOrderConcat(reg: Registry, packages: set<string>, a: seq<TaskInstance>, b: seq<TaskInstance>)
    requires InOrder(reg, packages, a) && InOrder(reg, packages, b)
    requires forall t, u :: t in a && u in b ==> Precedes(reg, packages, t, u)
    ensures InOrder(reg, packages, a + b)
  {
  }

  lemma {:induction false} DedicatedInOrder(
    reg: Registry, packages: set<string>, i: nat, members: seq<string>)
    requires i < |reg.kinds| && Ascending(members)
    requires forall p :: p in members && !IsSmall(reg, p) ==> Member(reg, reg.kinds[i], packages, p, false)
    ensures InOrder(reg, packages, Dedicated(reg, reg.kinds[i].id, members))
  {
    if members != [] {
      var n := |members| - 1;
      var kind, last := reg.kinds[i].id, members[n];
      DedicatedInOrder(reg, packages, i, members[..n]);
      if !IsSmall(reg, last) {
        var u := TaskInstance(kind, Some(last), []);
        assert DedicatedTo(reg, packages, u, i, last);
        forall t | t in Dedicated(reg, kind, members[..n])
          ensures Precedes(reg, packages, t, u)
        {
          DedicatedMeans(reg, kind, members[..n], t);
          var p :| p in members[..n] && !IsSmall(reg, p) && t == TaskInstance(kind, Some(p), []);
          assert DedicatedTo(reg, packages, t, i, p) && Less(p, last);
        }
        InOrderConcat(reg, packages, Dedicated(reg, kind, members[..n]), [u]);
      }
    }
  }

  lemma OfKindInOrder(reg: Registry, packages: set<string>, i: nat)
    requires DistinctIds(reg.packages) && i < |reg.kinds|
    ensures InOrder(reg, packages, OfKind(reg, reg.kinds[i], packages))
  {
    var kind := reg.kinds[i];
    var members := Sorted(MembersOf(reg, kind, packages));
    forall p | p in members && !IsSmall(reg, p)
      ensures Member(reg, kind, packages, p, false)
    {
      MemberMeans(reg, kind, packages, p, false);
    }
    DedicatedInOrder(reg, packages, i, members);
    var dedicated, small := Dedicated(reg, kind.id, members), Small(reg, members);
    if small != [] {
      BatchLast(reg, packages, i, members);
      InOrderConcat(reg, packages, dedicated, [TaskInstance(kind.id, None, small)]);
    }
  }

  lemma BatchLast(reg: Registry, packages: set<string>, i: nat, members: seq<string>)
    requires DistinctIds(reg.packages) && i < |reg.kinds| && Small(reg, members) != []
    requires members == Sorted(MembersOf(reg, reg.kinds[i], packages))
    ensures var batch := TaskInstance(reg.kinds[i].id, None, Small(reg, members));
            forall t :: t in Dedicated(reg, reg.kinds[i].id, members) ==> Precedes(reg, packages, t, batch)
  {
    var kind := reg.kinds[i];
    var batch := TaskInstance(kind.id, None, Small(reg, members));
    forall p, small
      ensures Member(reg, kind, packages, p, small) <==> p in members && IsSmall(reg, p) == small
    {
      MemberMeans(reg, kind, packages, p, small);
    }
    SmallMeans(reg, members);
    assert BatchOf(reg, packages, batch, i);
    forall t | t in Dedicated(reg, kind.id, members)
      ensures Precedes(reg, packages, t, batch)
    {
      DedicatedMeans(reg, kind.id, members, t);
      var p :| p in members && !IsSmall(reg, p) && t == TaskInstance(kind.id, Some(p), []);
      assert DedicatedTo(reg, packages, t, i, p);
    }
  }

  ghost predicate KindedBelow(reg: Registry, packages: set<string>, s: seq<TaskInstance>, n: nat) {
    forall t :: t in s ==> exists i: nat :: i < n && Kinded(reg, packages, t, i)
  }

  lemma OneMoreKind(reg: Registry, packages: set<string>, before: seq<TaskInstance>, n: nat)
    requires DistinctIds(reg.packages) && n < |reg.kinds|
    requires InOrder(reg, packages, before) && KindedBelow(reg, packages, before, n)
    ensures InOrder(reg, packages, before + OfKind(reg, reg.kinds[n], packages))
    ensures KindedBelow(reg, packages, before + OfKind(reg, reg.kinds[n], packages), n + 1)
  {
    var last := OfKind(reg, reg.kinds[n], packages);
    OfKindInOrder(reg, packages, n);
    forall u | u in last
      ensures Kinded(reg, packages, u, n)
    {
      OfKindMeans(reg, packages, n, u);
    }
    forall t, u | t in before && u in last
      ensures OfEarlierKind(reg, packages, t, u)
    {
      var i: nat :| i < n && Kinded(reg, packages, t, i);
    }
    InOrderConcat(reg, packages, before, last);
  }

  lemma {:induction false} OfKindsInOrder(reg: Registry, packages: set<string>, n: nat)
    requires DistinctIds(reg.packages) && n <= |reg.kinds|
    ensures InOrder(reg, packages, OfKinds(reg, reg.kinds[..n], packages))
    ensures KindedBelow(reg, packages, OfKinds(reg, reg.kinds[..n], packages), n)
  {
    if n > 0 {
      OfKindsInOrder(reg, packages, n - 1);
      ThroughKind(reg, packages, n, OfKinds(reg, reg.kinds[..n - 1], packages), OfKinds(reg, reg.kinds[..n], packages));
    }
  }

  lemma ThroughKind(
    reg: Registry, packages: set<string>, n: nat, before: seq<TaskInstance>, after: seq<TaskInstance>)
    requires DistinctIds(reg.packages) && 0 < n <= |reg.kinds|
    requires before == OfKinds(reg, reg.kinds[..n - 1], packages) && after == OfKinds(reg, reg.kinds[..n], packages)
    requires InOrder(reg, packages, before) && KindedBelow(reg, packages, before, n - 1)
    ensures InOrder(reg, packages, after) && KindedBelow(reg, packages, after, n)
  {
    OneMoreKind(reg, packages, before, n - 1);
    LastKind(reg, packages, n);
  }

  lemma LastKind(reg: Registry, packages: set<string>, n: nat)
    requires 0 < n <= |reg.kinds|
    ensures OfKinds(reg, reg.kinds[..n], packages) ==
            OfKinds(reg, reg.kinds[..n - 1], packages) + OfKind(reg, reg.kinds[n - 1], packages)
  {
    assert reg.kinds[..n][..n - 1] == reg.kinds[..n - 1];
  }

  /** Kind by kind, the dedicated tasks of a kind by name before its batch, and
      the standalone tasks last, by name. */
  lemma InstancesInOrder(reg: Registry, packages: set<string>, standalone: set<string>)
    requires DistinctIds(reg.packages)
    ensures InOrder(reg, packages, Instances(reg, packages, standalone))
  {
    var names := Sorted(standalone);
    assert reg.kinds[..|reg.kinds|] == reg.kinds;
    OfKindsInOrder(reg, packages, |reg.kinds|);
    assert InOrder(reg, packages, Standalone(names)) by {
      forall x, y | 0 <= x < y < |names|
        ensures BeforeStandalone(reg, packages, Standalone(names)[x], Standalone(names)[y])
      {
      }
    }
    forall t, u | t in OfKinds(reg, reg.kinds, packages) && u in Standalone(names)
      ensures BeforeStandalone(reg, packages, t, u)
    {
      StandaloneMember(names, u);
    }
    InOrderConcat(reg, packages, OfKinds(reg, reg.kinds, packages), Standalone(names));
  }
}
