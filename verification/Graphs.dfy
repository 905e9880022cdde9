/** Finite directed graphs over names, and the worklist that closes a set of
    names over the edges. Reachability is by paths; the closure is the least set
    that holds the roots and is closed under the edges. Both directions of an
    edge are needed, so a graph can also be reversed. */
module Graphs {

  type Graph = map<string, set<string>>

  ghost predicate Closed(g: Graph) {
    forall n, d :: n in g && d in g[n] ==> d in g
  }

  ghost predicate Path(g: Graph, p: seq<string>) {
    && p != []
    && (forall i :: 0 <= i < |p| ==> p[i] in g)
    && forall i, j :: 0 <= i && j == i + 1 && j < |p| ==> p[j] in g[p[i]]
  }

  ghost predicate PathFrom(g: Graph, p: seq<string>, a: string, b: string) {
    Path(g, p) && p[0] == a && p[|p| - 1] == b
  }

  ghost predicate Reaches(g: Graph, a: string, b: string) {
    exists p :: PathFrom(g, p, a, b)
  }

  /** Everything reached from a root. */
  ghost function ReachedFrom(g: Graph, roots: set<string>): set<string> {
    set n | n in g && exists r :: r in roots && Reaches(g, r, n)
  }

  ghost predicate OnCycle(g: Graph, n: string) {
    n in g && exists d :: d in g[n] && Reaches(g, d, n)
  }

  lemma ReachesItself(g: Graph, n: string)
    requires n in g
    ensures Reaches(g, n, n)
  {
    assert PathFrom(g, [n], n, n);
  }

  lemma StepThenReach(g: Graph, a: string, d: string, b: string)
    requires a in g && d in g[a] && Reaches(g, d, b)
    ensures Reaches(g, a, b)
  {
    var p :| PathFrom(g, p, d, b);
    assert PathFrom(g, [a] + p, a, b);
  }

  lemma ReachTransitive(g: Graph, a: string, b: string, c: string)
    requires Reaches(g, a, b) && Reaches(g, b, c)
    ensures Reaches(g, a, c)
  {
    var p :| PathFrom(g, p, a, b);
    var q :| PathFrom(g, q, b, c);
    assert PathFrom(g, p + q[1..], a, c);
  }

  /** Edges do not leave the set. */
  ghost predicate Stays(g: Graph, s: set<string>) {
    forall n, d :: n in s && n in g && d in g[n] ==> d in s
  }

  lemma {:induction false} PathStays(g: Graph, s: set<string>, p: seq<string>, a: string, b: string)
    requires PathFrom(g, p, a, b) && a in s && Stays(g, s)
    ensures b in s
  {
    if |p| > 1 {
      assert PathFrom(g, p[1..], p[1], b);
      PathStays(g, s, p[1..], p[1], b);
    }
  }

  lemma ClosureLeast(g: Graph, roots: set<string>, s: set<string>)
    requires roots <= s && Stays(g, s)
    ensures ReachedFrom(g, roots) <= s
  {
    forall n | n in ReachedFrom(g, roots)
      ensures n in s
    {
      var r :| r in roots && Reaches(g, r, n);
      var p :| PathFrom(g, p, r, n);
      PathStays(g, s, p, r, n);
    }
  }

  lemma RootsReached(g: Graph, roots: set<string>)
    requires roots <= g.Keys
    ensures roots <= ReachedFrom(g, roots)
  {
    forall r | r in roots
      ensures r in ReachedFrom(g, roots)
    {
      ReachesItself(g, r);
    }
  }

  lemma ClosureStep(g: Graph, roots: set<string>, n: string, d: string)
    requires Closed(g) && n in ReachedFrom(g, roots) && d in g[n]
    ensures d in ReachedFrom(g, roots)
  {
    var r :| r in roots && Reaches(g, r, n);
    ReachesItself(g, d);
    StepThenReach(g, n, d, d);
    ReachTransitive(g, r, n, d);
  }

  /** Closing a closure adds nothing. */
  lemma ClosureClosed(g: Graph, roots: set<string>, more: set<string>)
    requires Closed(g) && more <= ReachedFrom(g, roots)
    ensures ReachedFrom(g, more) <= ReachedFrom(g, roots)
  {
    ReachedStays(g, roots);
    ClosureLeast(g, more, ReachedFrom(g, roots));
  }

  /** Closing a union is closing each part. */
  lemma ClosureAdditive(g: Graph, a: set<string>, b: set<string>)
    ensures ReachedFrom(g, a + b) == ReachedFrom(g, a) + ReachedFrom(g, b)
  {
    forall n
      ensures n in ReachedFrom(g, a + b) <==> n in ReachedFrom(g, a) + ReachedFrom(g, b)
    {
      if n in ReachedFrom(g, a + b) {
        var r :| r in a + b && Reaches(g, r, n);
      }
      if n in ReachedFrom(g, a) {
        var r :| r in a && Reaches(g, r, n);
        assert r in a + b;
      }
      if n in ReachedFrom(g, b) {
        var r :| r in b && Reaches(g, r, n);
        assert r in a + b;
      }
    }
  }

  /** Roots may be added from the closure, or repeated, without changing it. */
  lemma ClosureStable(g: Graph, roots: set<string>, more: set<string>)
    requires Closed(g) && roots <= more <= ReachedFrom(g, roots)
    ensures ReachedFrom(g, more) == ReachedFrom(g, roots)
  {
    ClosureClosed(g, roots, more);
  }

  /** The least set that has the roots and that edges do not leave. */
  ghost predicate IsClosure(g: Graph, roots: set<string>, all: set<string>) {
    && roots <= all <= g.Keys && Stays(g, all)
    && forall s {:trigger Stays(g, s)} :: roots <= s && Stays(g, s) ==> all <= s
  }

  lemma ClosureExists(g: Graph, roots: set<string>) returns (all: set<string>)
    requires Closed(g) && roots <= g.Keys
    ensures IsClosure(g, roots, all)
  {
    all := ReachedFrom(g, roots);
    RootsReached(g, roots);
    ReachedStays(g, roots);
    forall s | roots <= s && Stays(g, s)
      ensures all <= s
    {
      ClosureLeast(g, roots, s);
    }
  }

  lemma ReachedStays(g: Graph, roots: set<string>)
    requires Closed(g)
    ensures Stays(g, ReachedFrom(g, roots))
  {
    var s := ReachedFrom(g, roots);
    forall n, d | n in s && n in g && d in g[n]
      ensures d in s
    {
      ClosureStep(g, roots, n, d);
    }
  }

  lemma ClosureIsReached(g: Graph, roots: set<string>, all: set<string>)
    requires Closed(g) && roots <= g.Keys && IsClosure(g, roots, all)
    ensures all == ReachedFrom(g, roots)
  {
    RootsReached(g, roots);
    ReachedStays(g, roots);
    ClosureLeast(g, roots, all);
  }

  // ---- The worklist --------------------------------------------------------

  /** Declared successors, in declaration order. */
  type Declared = map<string, seq<string>>

  function Members(names: seq<string>): set<string> {
    set n | n in names
  }

  function EdgesOf(declared: Declared): Graph {
    map n | n in declared :: set d | d in declared[n]
  }

  ghost predicate AllDeclared(names: seq<string>, declared: Declared) {
    forall i :: 0 <= i < |names| ==> names[i] in declared
  }

  /** Every declared successor is declared itself. */
  ghost predicate Total(declared: Declared) {
    forall n :: n in declared ==> AllDeclared(declared[n], declared)
  }

  lemma TotalIsClosed(declared: Declared)
    requires Total(declared)
    ensures Closed(EdgesOf(declared))
  {
    forall n, d | n in declared && d in EdgesOf(declared)[n]
      ensures d in declared
    {
      assert AllDeclared(declared[n], declared);
      var i :| 0 <= i < |declared[n]| && declared[n][i] == d;
    }
  }

  /** What the worklist knows half-way: all it met belongs to the closure, and
      nothing is lost, since whatever a seen name leads to is seen or stacked. */
  ghost predicate Closing(g: Graph, roots: set<string>, all: set<string>, seen: set<string>, stack: seq<string>) {
    && IsClosure(g, roots, all)
    && roots <= seen + Members(stack) <= all
    && forall n, d :: n in seen && n in g && d in g[n] ==> d in seen || d in stack
  }

  lemma ClosingDone(g: Graph, roots: set<string>, all: set<string>, seen: set<string>)
    requires Closed(g) && roots <= g.Keys && Closing(g, roots, all, seen, [])
    ensures seen == ReachedFrom(g, roots)
  {
    assert Stays(g, seen);
    ClosureIsReached(g, roots, all);
  }

  /** Depth first, marking a name when it leaves the stack. */
  method Close(declared: Declared, requested: seq<string>) returns (seen: set<string>)
    requires Total(declared) && AllDeclared(requested, declared)
    ensures seen == ReachedFrom(EdgesOf(declared), Members(requested))
  {
    ghost var g, roots := EdgesOf(declared), Members(requested);
    TotalIsClosed(declared);
    ghost var all := ClosureExists(g, roots);
    seen := {};
    var stack := requested;
    while stack != []
      invariant Closing(g, roots, all, seen, stack)
      decreases declared.Keys - seen, |stack|
    {
      var current := stack[|stack| - 1];
      assert current in Members(stack);
      if current in seen {
        stack := stack[..|stack| - 1];
        continue;
      }
      seen := seen + {current};
      stack := stack[..|stack| - 1] + declared[current];
    }
    ClosingDone(g, roots, all, seen);
  }

  // ---- Following edges backwards -------------------------------------------

  function Reversed(g: Graph): Graph {
    map n | n in g :: set m | m in g && n in g[m]
  }

  function Backwards(p: seq<string>): seq<string> {
    seq(|p|, i requires 0 <= i < |p| => p[|p| - 1 - i])
  }

  lemma ReversedTwice(g: Graph)
    requires Closed(g)
    ensures Reversed(Reversed(g)) == g
  {
    forall n | n in g
      ensures Reversed(Reversed(g))[n] == g[n]
    {
      assert forall d :: d in g[n] ==> d in g && n in Reversed(g)[d];
    }
  }

  /** One name reaches another exactly when the other reaches it backwards. */
  lemma ReachesBackwards(g: Graph, a: string, b: string)
    requires Closed(g)
    ensures Reaches(g, a, b) <==> Reaches(Reversed(g), b, a)
  {
    if Reaches(g, a, b) {
      var p :| PathFrom(g, p, a, b);
      assert PathFrom(Reversed(g), Backwards(p), b, a);
    }
    if Reaches(Reversed(g), b, a) {
      var p :| PathFrom(Reversed(g), p, b, a);
      ReversedTwice(g);
      assert PathFrom(g, Backwards(p), a, b);
    }
  }
}
