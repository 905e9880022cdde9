/** Names in code point order, as the tooling sorts them. The order is strict
    and total on names, so that sorting a set of names has exactly one result;
    the worklists and the dependency resolution depend on that for results that
    do not vary with the order in which names were discovered. */
module NameOrder {

  predicate Less(a: string, b: string) {
    b != [] && (a == [] || a[0] < b[0] || (a[0] == b[0] && Less(a[1..], b[1..])))
  }

  lemma {:induction false} LessTotal(a: string, b: string)
    ensures a == b || Less(a, b) || Less(b, a)
    ensures !(Less(a, b) && Less(b, a)) && !Less(a, a)
    ensures a == b ==> !Less(a, b)
  {
    if a != [] && b != [] && a[0] == b[0] {
      LessTotal(a[1..], b[1..]);
      assert a[1..] == b[1..] ==> [a[0]] + a[1..] == [b[0]] + b[1..];
    }
    if a != [] {
      LessTotal(a[1..], a[1..]);
    }
  }

  lemma {:induction false} LessTransitive(a: string, b: string, c: string)
    requires Less(a, b) && Less(b, c)
    ensures Less(a, c)
  {
    if a != [] && a[0] == b[0] == c[0] {
      LessTransitive(a[1..], b[1..], c[1..]);
    }
  }

  /** `a` comes first at position `k`: there it ends or has the smaller code point. */
  ghost predicate FirstAt(a: string, b: string, k: nat) {
    k <= |a| && k < |b| && a[..k] == b[..k] && (k == |a| || a[k] < b[k])
  }

  lemma SameHead(a: string, b: string, k: nat)
    requires 0 < k <= |a| && k <= |b| && a[..k] == b[..k]
    ensures a[0] == b[0]
  {
    assert a[..k][0] == b[..k][0];
  }

  /** The order is decided at the first difference. */
  lemma {:induction false} LessMeans(a: string, b: string)
    ensures Less(a, b) <==> exists k: nat :: FirstAt(a, b, k)
  {
    forall k: nat | FirstAt(a, b, k) && k > 0
      ensures a[0] == b[0]
    {
      SameHead(a, b, k);
    }
    if a == [] || b == [] || a[0] != b[0] {
      assert Less(a, b) <==> FirstAt(a, b, 0);
    } else {
      LessMeans(a[1..], b[1..]);
      LaterDifference(a, b);
    }
  }

  lemma LaterDifference(a: string, b: string)
    requires a != [] && b != [] && a[0] == b[0]
    ensures (exists k: nat :: FirstAt(a, b, k)) <==> exists k: nat :: FirstAt(a[1..], b[1..], k)
  {
    if k: nat :| FirstAt(a[1..], b[1..], k) {
      assert a[..k + 1] == [a[0]] + a[1..][..k] && b[..k + 1] == [b[0]] + b[1..][..k];
      assert FirstAt(a, b, k + 1);
    }
    if k: nat :| FirstAt(a, b, k) {
      assert k > 0;
      assert a[1..][..k - 1] == a[..k][1..] && b[1..][..k - 1] == b[..k][1..];
      assert FirstAt(a[1..], b[1..], k - 1);
    }
  }

  predicate Least(x: string, names: set<string>) {
    x in names && forall y :: y in names ==> x == y || Less(x, y)
  }

  lemma {:induction false} LeastExists(names: set<string>)
    requires names != {}
    ensures exists x :: Least(x, names)
  {
    var y :| y in names;
    if names == {y} {
      assert Least(y, names);
    } else {
      LeastExists(names - {y});
      var z :| Least(z, names - {y});
      LessTotal(y, z);
      var x := if Less(y, z) then y else z;
      forall w | w in names
        ensures x == w || Less(x, w)
      {
        if x == y && w != y && w != z {
          LessTransitive(y, z, w);
        }
      }
      assert Least(x, names);
    }
  }

  lemma LeastUnique(names: set<string>)
    ensures forall x, y :: Least(x, names) && Least(y, names) ==> x == y
  {
    forall x, y | Least(x, names) && Least(y, names)
      ensures x == y
    {
      LessTotal(x, y);
    }
  }

  predicate Ascending(s: seq<string>) {
    forall i, j :: 0 <= i < j < |s| ==> Less(s[i], s[j])
  }

  function Sorted(names: set<string>): (s: seq<string>)
    ensures forall n :: n in s <==> n in names
    ensures Ascending(s)
  {
    if names == {} then []
    else
      LeastExists(names);
      LeastUnique(names);
      var x :| Least(x, names);
      [x] + Sorted(names - {x})
  }

  lemma SortedDistinct(s: seq<string>)
    requires Ascending(s)
    ensures forall i, j :: 0 <= i < j < |s| ==> s[i] != s[j]
  {
    forall i, j | 0 <= i < j < |s|
      ensures s[i] != s[j]
    {
      LessTotal(s[i], s[j]);
    }
  }
}
