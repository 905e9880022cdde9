/** The code generation step graph. */
module StepGraph {
  // Requested steps are resolved to an ordered list that holds every transitive
  // requirement before its dependents.

  import opened StoreTypes
  import opened NameOrder
  import opened Graphs

  // ---- The depth-first order -----------------------------------------------

  /** Appends to `ordered` what `name` still needs, then `name`; fails when it
      comes back to a step whose requirements are being visited. */
  function Visited(steps: Declared, name: string, visiting: set<string>, ordered: seq<string>): Option<seq<string>>
    requires Total(steps) && name in steps && visiting <= steps.Keys
    decreases steps.Keys - visiting, 0, 0
  {
    if name in visiting then None
    else if name in ordered then Some(ordered)
    else match AllVisited(steps, steps[name], visiting + {name}, ordered)
      case None => None
      case Some(before) => Some(before + [name])
  }

  function AllVisited(
    steps: Declared, names: seq<string>, visiting: set<string>, ordered: seq<string>): Option<seq<string>>
    requires Total(steps) && visiting <= steps.Keys && AllDeclared(names, steps)
    decreases steps.Keys - visiting, 1, |names|
  {
    if names == [] then Some(ordered)
    else match Visited(steps, names[0], visiting, ordered)
      case None => None
      case Some(more) => AllVisited(steps, names[1..], visiting, more)
  }

  datatype Resolved = Steps(names: seq<string>) | Unknown(names: seq<string>) | Circular

  ghost function Needed(steps: Declared, requested: set<string>): set<string> {
    ReachedFrom(EdgesOf(steps), requested)
  }

  ghost function NeededInOrder(steps: Declared, requested: set<string>): (names: seq<string>)
    ensures AllDeclared(names, steps)
  {
    var names := Sorted(Needed(steps, requested));
    assert forall i :: 0 <= i < |names| ==> names[i] in names;
    names
  }

  /** What a request resolves to depends on which steps it names only. */
  ghost function Resolve(steps: Declared, requested: set<string>): Resolved
    requires Total(steps)
  {
    if requested - steps.Keys != {} then Unknown(Sorted(requested - steps.Keys))
    else match AllVisited(steps, NeededInOrder(steps, requested), {}, [])
      case None => Circular
      case Some(ordered) => Steps(ordered)
  }

  // ---- The resolver --------------------------------------------------------

  class Resolver {
    const steps: Declared
    var visiting: set<string>
    var visited: set<string>
    var ordered: seq<string>

    ghost predicate Valid()
      reads this
    {
      && Total(steps) && visiting <= steps.Keys
      && visited == Members(ordered)
    }

    constructor (steps: Declared)
      requires Total(steps)
      ensures Valid() && this.steps == steps && visiting == {} && ordered == []
    {
      this.steps, visiting, visited, ordered := steps, {}, {}, [];
    }

    method Visit(name: string) returns (ok: bool)
      requires Valid() && name in steps
      modifies this
      ensures var after := Visited(steps, name, old(visiting), old(ordered));
              && ok == after.Some?
              && (ok ==> Valid() && visiting == old(visiting) && ordered == after.value)
      decreases steps.Keys - visiting, 0
    {
      if name in visiting {
        return false;
      }
      if name in visited {
        return true;
      }
      visiting := visiting + {name};
      var requirements := steps[name];
      assert AllDeclared(requirements, steps);
      for i := 0 to |requirements|
        invariant Valid() && visiting == old(visiting) + {name}
        invariant AllVisited(steps, requirements, visiting, old(ordered)) ==
                  AllVisited(steps, requirements[i..], visiting, ordered)
      {
        var done := Visit(requirements[i]);
        if !done {
          return false;
        }
      }
      visiting := visiting - {name};
      visited := visited + {name};
      ordered := ordered + [name];
      return true;
    }
  }

  method ResolveSteps(steps: Declared, requested: seq<string>) returns (r: Resolved)
    requires Total(steps)
    ensures r == Resolve(steps, Members(requested))
  {
    var unknown := Members(requested) - steps.Keys;
    if unknown != {} {
      return Unknown(Sorted(unknown));
    }
    forall i | 0 <= i < |requested|
      ensures requested[i] in steps
    {
      assert requested[i] in Members(requested) && requested[i] !in unknown;
    }
    var needed := Close(steps, requested);
    var names := Sorted(needed);
    assert names == NeededInOrder(steps, Members(requested));
    var resolver := new Resolver(steps);
    for i := 0 to |names|
      invariant resolver.Valid() && resolver.steps == steps && resolver.visiting == {}
      invariant AllVisited(steps, names, {}, []) == AllVisited(steps, names[i..], {}, resolver.ordered)
    {
      var ok := resolver.Visit(names[i]);
      if !ok {
        return Circular;
      }
    }
    return Steps(resolver.ordered);
  }

  // ---- What the order guarantees -------------------------------------------

  /** Each step once, after everything it requires. */
  ghost predicate Topological(steps: Declared, o: seq<string>) {
    forall i :: 0 <= i < |o| ==>
      o[i] in steps && o[i] !in o[..i] && forall d :: d in steps[o[i]] ==> d in o[..i]
  }

  ghost predicate Apart(visiting: set<string>, o: seq<string>) {
    forall n :: n in visiting ==> n !in o
  }

  /** `after` continues `ordered` with what the given names reach. */
  ghost predicate Continues(steps: Declared, names: set<string>, ordered: seq<string>, after: seq<string>) {
    && ordered <= after
    && names <= Members(after)
    && forall x :: x in after ==> x in ordered || x in ReachedFrom(EdgesOf(steps), names)
  }

  lemma TopologicalAppend(steps: Declared, o: seq<string>, name: string)
    requires Topological(steps, o) && name in steps && name !in o
    requires forall d :: d in steps[name] ==> d in o
    ensures Topological(steps, o + [name])
  {
    var after := o + [name];
    forall i | 0 <= i < |after|
      ensures after[i] in steps && after[i] !in after[..i] && forall d :: d in steps[after[i]] ==> d in after[..i]
    {
      assert after[..i] == o[..i];
      assert o[..|o|] == o;
    }
  }

  lemma {:induction false} VisitedOk(steps: Declared, name: string, visiting: set<string>, ordered: seq<string>)
    requires Total(steps) && name in steps && visiting <= steps.Keys
    requires Topological(steps, ordered) && Apart(visiting, ordered)
    requires Visited(steps, name, visiting, ordered).Some?
    ensures var after := Visited(steps, name, visiting, ordered).value;
            Topological(steps, after) && Apart(visiting, after) && Continues(steps, {name}, ordered, after)
    decreases steps.Keys - visiting, 0, 0
  {
    var g := EdgesOf(steps);
    if name !in ordered {
      var inner := visiting + {name};
      AllVisitedOk(steps, steps[name], inner, ordered);
      var before := AllVisited(steps, steps[name], inner, ordered).value;
      assert forall d :: d in steps[name] ==> d in Members(steps[name]);
      TopologicalAppend(steps, before, name);
      forall x | x in before && x !in ordered
        ensures x in ReachedFrom(g, {name})
      {
        var d :| d in Members(steps[name]) && Reaches(g, d, x);
        StepThenReach(g, name, d, x);
      }
      ReachesItself(g, name);
    }
  }

  lemma {:induction false} AllVisitedOk(
    steps: Declared, names: seq<string>, visiting: set<string>, ordered: seq<string>)
    requires Total(steps) && visiting <= steps.Keys && AllDeclared(names, steps)
    requires Topological(steps, ordered) && Apart(visiting, ordered)
    requires AllVisited(steps, names, visiting, ordered).Some?
    ensures var after := AllVisited(steps, names, visiting, ordered).value;
            Topological(steps, after) && Apart(visiting, after) && Continues(steps, Members(names), ordered, after)
    decreases steps.Keys - visiting, 1, |names|
  {
    if names != [] {
      VisitedOk(steps, names[0], visiting, ordered);
      var more := Visited(steps, names[0], visiting, ordered).value;
      AllVisitedOk(steps, names[1..], visiting, more);
      assert Members(names) == {names[0]} + Members(names[1..]);
      ClosureAdditive(EdgesOf(steps), {names[0]}, Members(names[1..]));
    }
  }

  /** Something the names reach that is being visited already, or lies on a cycle. */
  ghost predicate Blamed(steps: Declared, names: set<string>, visiting: set<string>, x: string) {
    x in ReachedFrom(EdgesOf(steps), names) && (x in visiting || OnCycle(EdgesOf(steps), x))
  }

  lemma {:induction false} VisitedFails(steps: Declared, name: string, visiting: set<string>, ordered: seq<string>)
    requires Total(steps) && name in steps && visiting <= steps.Keys
    requires Visited(steps, name, visiting, ordered).None?
    ensures exists x :: Blamed(steps, {name}, visiting, x)
    decreases steps.Keys - visiting, 0, 0
  {
    var g := EdgesOf(steps);
    ReachesItself(g, name);
    if name in visiting {
      assert Blamed(steps, {name}, visiting, name);
    } else {
      AllVisitedFails(steps, steps[name], visiting + {name}, ordered);
      var x :| Blamed(steps, Members(steps[name]), visiting + {name}, x);
      var d :| d in Members(steps[name]) && Reaches(g, d, x);
      StepThenReach(g, name, d, x);
      assert x == name ==> OnCycle(g, x);
      assert Blamed(steps, {name}, visiting, x);
    }
  }

  lemma {:induction false} AllVisitedFails(
    steps: Declared, names: seq<string>, visiting: set<string>, ordered: seq<string>)
    requires Total(steps) && visiting <= steps.Keys && AllDeclared(names, steps)
    requires AllVisited(steps, names, visiting, ordered).None?
    ensures exists x :: Blamed(steps, Members(names), visiting, x)
    decreases steps.Keys - visiting, 1, |names|
  {
    assert Members(names) == {names[0]} + Members(names[1..]);
    ClosureAdditive(EdgesOf(steps), {names[0]}, Members(names[1..]));
    match Visited(steps, names[0], visiting, ordered)
    case None =>
      VisitedFails(steps, names[0], visiting, ordered);
      var x :| Blamed(steps, {names[0]}, visiting, x);
      assert Blamed(steps, Members(names), visiting, x);
    case Some(more) =>
      AllVisitedFails(steps, names[1..], visiting, more);
      var x :| Blamed(steps, Members(names[1..]), visiting, x);
      assert Blamed(steps, Members(names), visiting, x);
  }

  /** Whatever a listed step reaches is listed no later than it. */
  lemma {:induction false} ReachedNoLater(
    steps: Declared, o: seq<string>, p: seq<string>, i: nat, y: string)
    returns (j: nat)
    requires Topological(steps, o) && i < |o| && PathFrom(EdgesOf(steps), p, o[i], y)
    ensures j <= i && o[j] == y && (|p| > 1 ==> j < i)
    decreases |p|
  {
    if |p| == 1 {
      return i;
    }
    assert p[1] in EdgesOf(steps)[o[i]] && p[1] in o[..i];
    var k :| 0 <= k < i && o[k] == p[1];
    assert PathFrom(EdgesOf(steps), p[1..], p[1], y);
    j := ReachedNoLater(steps, o, p[1..], k, y);
  }

  lemma ListedNotOnCycle(steps: Declared, o: seq<string>, x: string)
    requires Topological(steps, o) && x in o
    ensures !OnCycle(EdgesOf(steps), x)
  {
    var g := EdgesOf(steps);
    if OnCycle(g, x) {
      var i :| 0 <= i < |o| && o[i] == x;
      var d :| d in g[x] && Reaches(g, d, x);
      var p :| PathFrom(g, p, d, x);
      assert PathFrom(g, [x] + p, x, x);
      var j := ReachedNoLater(steps, o, [x] + p, i, x);
    }
  }

  lemma VisitingNeeded(steps: Declared, requested: set<string>)
    requires Total(steps) && requested <= steps.Keys
    ensures var needed, r := Needed(steps, requested), AllVisited(steps, NeededInOrder(steps, requested), {}, []);
            && (r.Some? ==> Topological(steps, r.value) && Members(r.value) == needed)
            && (r.None? <==> exists x :: x in needed && OnCycle(EdgesOf(steps), x))
  {
    var g, names, needed := EdgesOf(steps), NeededInOrder(steps, requested), Needed(steps, requested);
    TotalIsClosed(steps);
    ClosureClosed(g, requested, needed);
    assert Members(names) == needed;
    if AllVisited(steps, names, {}, []).Some? {
      AllVisitedOk(steps, names, {}, []);
      var o := AllVisited(steps, names, {}, []).value;
      forall x | x in needed
        ensures !OnCycle(g, x)
      {
        ListedNotOnCycle(steps, o, x);
      }
    } else {
      AllVisitedFails(steps, names, {}, []);
      var x :| Blamed(steps, needed, {}, x);
    }
  }

  /** A request resolves to the closure of its steps, each once and after its
      requirements, exactly when that closure holds no cycle; a request for
      undeclared steps is refused with their names. */
  lemma ResolveMeets(steps: Declared, requested: set<string>)
    requires Total(steps)
    ensures var r := Resolve(steps, requested);
            && (r.Unknown? <==> !(requested <= steps.Keys))
            && (r.Unknown? ==> Members(r.names) == requested - steps.Keys)
            && (r.Circular? <==>
                  requested <= steps.Keys && exists x :: x in Needed(steps, requested) && OnCycle(EdgesOf(steps), x))
            && (r.Steps? ==> Topological(steps, r.names) && Members(r.names) == Needed(steps, requested))
  {
    assert (requested - steps.Keys) + (requested * steps.Keys) == requested;
    if requested - steps.Keys == {} {
      VisitingNeeded(steps, requested);
    } else {
      assert Members(Sorted(requested - steps.Keys)) == requested - steps.Keys;
    }
  }

  /** Any request between the original one and its result gives the same list;
      in particular resolving a result changes nothing. */
  lemma ResolveStable(steps: Declared, requested: set<string>, again: set<string>)
    requires Total(steps) && Resolve(steps, requested).Steps?
    requires requested <= again <= Members(Resolve(steps, requested).names)
    ensures Resolve(steps, again) == Resolve(steps, requested)
  {
    TotalIsClosed(steps);
    ResolveMeets(steps, requested);
    ClosureStable(EdgesOf(steps), requested, again);
    SameClosureSameList(steps, requested, again);
  }

  lemma SameClosureSameList(steps: Declared, a: set<string>, b: set<string>)
    requires Total(steps) && a <= steps.Keys && b <= steps.Keys && Needed(steps, a) == Needed(steps, b)
    ensures Resolve(steps, a) == Resolve(steps, b)
  {
  }

  // ---- Which of the possible orders ----------------------------------------

  lemma {:induction false} VisitInTwo(
    steps: Declared, a: seq<string>, b: seq<string>, visiting: set<string>, ordered: seq<string>)
    requires Total(steps) && visiting <= steps.Keys && AllDeclared(a, steps) && AllDeclared(b, steps)
    requires AllDeclared(a + b, steps)
    ensures AllVisited(steps, a + b, visiting, ordered) ==
            match AllVisited(steps, a, visiting, ordered) {
              case None => None
              case Some(more) => AllVisited(steps, b, visiting, more)
            }
    decreases |a|
  {
    if a == [] {
      assert a + b == b;
    } else {
      assert (a + b)[1..] == a[1..] + b;
      match Visited(steps, a[0], visiting, ordered)
      case None =>
      case Some(more) => VisitInTwo(steps, a[1..], b, visiting, more);
    }
  }

  /** The steps come in blocks by name: what the first `k` needed names, in name
      order, require, themselves included, stands before everything else. */
  ghost predicate BlockEnds(steps: Declared, needed: seq<string>, names: seq<string>, k: nat)
    requires k <= |needed|
  {
    exists n :: 0 <= n <= |names| && Members(names[..n]) == ReachedFrom(EdgesOf(steps), Members(needed[..k]))
  }

  /** The front of a list of names is visited first. */
  lemma FrontVisited(steps: Declared, a: seq<string>, b: seq<string>, all: seq<string>) returns (first: seq<string>)
    requires Total(steps) && AllDeclared(a, steps) && AllDeclared(b, steps) && AllDeclared(a + b, steps)
    requires AllVisited(steps, a + b, {}, []) == Some(all)
    ensures first <= all && Members(first) == ReachedFrom(EdgesOf(steps), Members(a))
  {
    VisitInTwo(steps, a, b, {}, []);
    first := AllVisited(steps, a, {}, []).value;
    AllVisitedOk(steps, a, {}, []);
    AllVisitedOk(steps, b, {}, first);
    NothingMore(steps, a, first);
  }

  lemma NamesVisited(steps: Declared, requested: set<string>)
    requires Total(steps) && Resolve(steps, requested).Steps?
    ensures AllVisited(steps, NeededInOrder(steps, requested), {}, []) == Some(Resolve(steps, requested).names)
  {
  }

  lemma BlocksByName(steps: Declared, requested: set<string>, k: nat)
    requires Total(steps) && Resolve(steps, requested).Steps? && k <= |Sorted(Needed(steps, requested))|
    ensures BlockEnds(steps, Sorted(Needed(steps, requested)), Resolve(steps, requested).names, k)
  {
    var names := NeededInOrder(steps, requested);
    var all := Resolve(steps, requested).names;
    NamesVisited(steps, requested);
    assert names[..k] + names[k..] == names;
    var first := FrontVisited(steps, names[..k], names[k..], all);
    BlockAt(steps, names, all, k, first);
  }

  lemma BlockAt(steps: Declared, needed: seq<string>, all: seq<string>, k: nat, first: seq<string>)
    requires k <= |needed| && first <= all && Members(first) == ReachedFrom(EdgesOf(steps), Members(needed[..k]))
    ensures BlockEnds(steps, needed, all, k)
  {
    assert all[..|first|] == first;
  }

  lemma NothingMore(steps: Declared, names: seq<string>, first: seq<string>)
    requires Total(steps) && AllDeclared(names, steps) && AllVisited(steps, names, {}, []) == Some(first)
    ensures Members(first) == ReachedFrom(EdgesOf(steps), Members(names))
  {
    var g := EdgesOf(steps);
    AllVisitedOk(steps, names, {}, []);
    TotalIsClosed(steps);
    forall n, d | n in Members(first) && n in g && d in g[n]
      ensures d in Members(first)
    {
      var i :| 0 <= i < |first| && first[i] == n;
      assert d in steps[first[i]] && d in first[..i];
    }
    ClosureLeast(g, Members(names), Members(first));
  }

  // ---- Steps for packages --------------------------------------------------

  datatype PackageSteps = PackageSteps(dependsOn: seq<string>, codegen: seq<string>)

  function DependsOn(packages: map<string, PackageSteps>): Declared {
    map p | p in packages :: packages[p].dependsOn
  }

  ghost function StepsOfPackages(packages: map<string, PackageSteps>, closure: set<string>): set<string> {
    set p, n | p in closure && p in packages && n in packages[p].codegen :: n
  }

  ghost function ForPackages(packages: map<string, PackageSteps>, steps: Declared, requested: set<string>): Resolved
    requires Total(steps)
  {
    if requested - packages.Keys != {} then Unknown(Sorted(requested - packages.Keys))
    else Resolve(steps, StepsOfPackages(packages, ReachedFrom(EdgesOf(DependsOn(packages)), requested)))
  }

  method StepsForPackages(
    packages: map<string, PackageSteps>, steps: Declared, requested: seq<string>)
    returns (r: Resolved)
    requires Total(steps) && Total(DependsOn(packages))
    ensures r == ForPackages(packages, steps, Members(requested))
  {
    var unknown := Members(requested) - packages.Keys;
    if unknown != {} {
      return Unknown(Sorted(unknown));
    }
    forall i | 0 <= i < |requested|
      ensures requested[i] in packages
    {
      assert requested[i] in Members(requested) && requested[i] !in unknown;
    }
    var closure := Close(DependsOn(packages), requested);
    var names: set<string> := {};
    var rest := closure;
    while rest != {}
      invariant rest <= closure && names == StepsOfPackages(packages, closure - rest)
      decreases rest
    {
      var p :| p in rest;
      assert p in ReachedFrom(EdgesOf(DependsOn(packages)), Members(requested));
      assert closure - (rest - {p}) == (closure - rest) + {p};
      names := names + Members(packages[p].codegen);
      rest := rest - {p};
    }
    assert closure - {} == closure;
    r := ResolveSteps(steps, Sorted(names));
    assert Members(Sorted(names)) == names;
  }

  /** A path of declared dependencies between packages. */
  ghost predicate PackagePath(packages: map<string, PackageSteps>, path: seq<string>, a: string, b: string) {
    && path != [] && path[0] == a && path[|path| - 1] == b
    && (forall i :: 0 <= i < |path| ==> path[i] in packages)
    && forall i, j :: 0 <= i && j == i + 1 && j < |path| ==> path[j] in packages[path[i]].dependsOn
  }

  /** A step that `q`, a dependency of a requested package or one itself, asks for. */
  ghost predicate AskedFor(packages: map<string, PackageSteps>, requested: set<string>, q: string, n: string) {
    && q in packages && n in packages[q].codegen
    && exists p, path :: p in requested && PackagePath(packages, path, p, q)
  }

  lemma AskedForIs(packages: map<string, PackageSteps>, requested: set<string>, n: string)
    ensures n in StepsOfPackages(packages, ReachedFrom(EdgesOf(DependsOn(packages)), requested)) <==>
            exists q :: AskedFor(packages, requested, q, n)
  {
    var g := EdgesOf(DependsOn(packages));
    assert forall path, a, b :: PackagePath(packages, path, a, b) <==> PathFrom(g, path, a, b);
    if q :| AskedFor(packages, requested, q, n) {
      var p, path :| p in requested && PackagePath(packages, path, p, q);
      assert Reaches(g, p, q);
      assert q in ReachedFrom(g, requested);
    }
    if n in StepsOfPackages(packages, ReachedFrom(g, requested)) {
      var q :| q in ReachedFrom(g, requested) && q in packages && n in packages[q].codegen;
      var p :| p in requested && Reaches(g, p, q);
      var path :| PathFrom(g, path, p, q);
      assert AskedFor(packages, requested, q, n);
    }
  }

  /** Packages resolve to the steps that they or their dependencies ask for, with
      all that those require, each once and after its requirements; undeclared
      packages are refused with their names, and so are undeclared steps. */
  lemma PackagesMeet(packages: map<string, PackageSteps>, steps: Declared, requested: set<string>)
    requires Total(steps)
    ensures var r := ForPackages(packages, steps, requested);
            && (!(requested <= packages.Keys) ==> r.Unknown? && Members(r.names) == requested - packages.Keys)
            && (requested <= packages.Keys ==>
                  && (r.Unknown? ==> forall n ::
                        n in r.names <==> n !in steps && exists q :: AskedFor(packages, requested, q, n))
                  && (r.Steps? ==>
                        && Topological(steps, r.names)
                        && forall n :: n in r.names <==>
                             exists q, s :: AskedFor(packages, requested, q, s) && Reaches(EdgesOf(steps), s, n)))
  {
    var names := StepsOfPackages(packages, ReachedFrom(EdgesOf(DependsOn(packages)), requested));
    forall n
      ensures n in names <==> exists q :: AskedFor(packages, requested, q, n)
    {
      AskedForIs(packages, requested, n);
    }
    if requested <= packages.Keys {
      ResolveMeets(steps, names);
      MembersOfResult(steps, names);
    } else {
      assert (requested - packages.Keys) + (requested * packages.Keys) == requested;
      assert Members(Sorted(requested - packages.Keys)) == requested - packages.Keys;
    }
  }

  lemma MembersOfResult(steps: Declared, names: set<string>)
    requires Total(steps)
    ensures var r := Resolve(steps, names);
            && (r.Unknown? ==> forall n :: n in r.names <==> n in names && n !in steps)
            && (r.Steps? ==> forall n :: n in r.names <==> exists s :: s in names && Reaches(EdgesOf(steps), s, n))
  {
    ResolveMeets(steps, names);
    var r := Resolve(steps, names);
    if r.Unknown? {
      assert forall n :: n in r.names <==> n in Members(r.names);
    }
    if r.Steps? {
      assert forall n :: n in r.names <==> n in Members(r.names);
      forall s, n | Reaches(EdgesOf(steps), s, n)
        ensures n in EdgesOf(steps)
      {
        var p :| PathFrom(EdgesOf(steps), p, s, n);
        assert p[|p| - 1] in EdgesOf(steps);
      }
    }
  }

  /** More packages need at least the same steps, and what a list of packages
      needs is what its members need. */
  lemma PackagesAdditive(packages: map<string, PackageSteps>, a: set<string>, b: set<string>)
    ensures var g := EdgesOf(DependsOn(packages));
            StepsOfPackages(packages, ReachedFrom(g, a + b)) ==
            StepsOfPackages(packages, ReachedFrom(g, a)) + StepsOfPackages(packages, ReachedFrom(g, b))
  {
    ClosureAdditive(EdgesOf(DependsOn(packages)), a, b);
  }
}
