/** Version strings and their precedence. There are two keys, one in the
    configuration and one in the announcements; both are modelled on strings and
    compared with each other and with section 11 of SemVer 2.0.0. */
module Versions {
  import opened StoreTypes
  import opened NameOrder
  import opened Text

  // ---- Numbers -------------------------------------------------------------

  predicate IsDigit(c: char) {
    '0' <= c <= '9'
  }

  predicate IsNumeric(s: string) {
    s != "" && forall i :: 0 <= i < |s| ==> IsDigit(s[i])
  }

  function ToNat(s: string): nat
    requires forall i :: 0 <= i < |s| ==> IsDigit(s[i])
  {
    if s == "" then 0
    else
      assert IsDigit(s[|s| - 1]);
      10 * ToNat(s[..|s| - 1]) + (s[|s| - 1] as int - '0' as int)
  }

  function Decimal(n: nat): (s: string)
    ensures IsNumeric(s)
  {
    var digit := [('0' as int + n % 10) as char];
    if n < 10 then digit else Decimal(n / 10) + digit
  }

  lemma {:induction false} DecimalReadsBack(n: nat)
    ensures ToNat(Decimal(n)) == n
  {
    var s := Decimal(n);
    if n >= 10 {
      DecimalReadsBack(n / 10);
      assert s[..|s| - 1] == Decimal(n / 10);
    } else {
      assert s[..0] == "";
    }
  }

  // ---- Precedence by section 11 of SemVer 2.0.0 ----------------------------

  datatype Identifier = Number(n: nat) | Word(w: string)

  /** `identifiers` is empty for a release. */
  datatype Precedence = Precedence(core: seq<nat>, release: bool, identifiers: seq<Identifier>)

  /** Tuples compare at their first difference, a prefix below its extension. */
  predicate LexLess<T(==)>(less: (T, T) -> bool, a: seq<T>, b: seq<T>) {
    if a == [] then b != []
    else if b == [] then false
    else if a[0] == b[0] then LexLess(less, a[1..], b[1..])
    else less(a[0], b[0])
  }

  predicate IdentifierLess(a: Identifier, b: Identifier) {
    match (a, b)
    case (Number(x), Number(y)) => x < y
    case (Word(x), Word(y)) => Less(x, y)
    case (Number(_), Word(_)) => true
    case (Word(_), Number(_)) => false
  }

  predicate NatLess(a: nat, b: nat) {
    a < b
  }

  function Identifiers(parts: seq<string>): seq<Identifier> {
    seq(|parts|, i requires 0 <= i < |parts| => if IsNumeric(parts[i]) then Number(ToNat(parts[i])) else Word(parts[i]))
  }

  predicate NumericParts(parts: seq<string>) {
    |parts| == 3 && forall i :: 0 <= i < 3 ==> IsNumeric(parts[i])
  }

  function Core(parts: seq<string>): seq<nat>
    requires NumericParts(parts)
  {
    [ToNat(parts[0]), ToNat(parts[1]), ToNat(parts[2])]
  }

  /** The key of a version; `None` when its core is not three numbers. */
  function PrecedenceKey(semver: string): Option<Precedence> {
    var plain := Before(semver, '+');
    var parts, pre := SplitOn(Before(plain, '-'), '.'), After(plain, '-');
    if !NumericParts(parts) then None
    else Some(Precedence(Core(parts), pre == "", if pre == "" then [] else Identifiers(SplitOn(pre, '.'))))
  }

  predicate KeyLess(a: Precedence, b: Precedence) {
    if a.core != b.core then LexLess(NatLess, a.core, b.core)
    else if a.release != b.release then b.release
    else LexLess(IdentifierLess, a.identifiers, b.identifiers)
  }

  /** The tuples differ first at `k`, where `a` ends or has the smaller part. */
  ghost predicate LowerAt<T(!new)>(less: (T, T) -> bool, a: seq<T>, b: seq<T>, k: nat) {
    k <= |a| && k < |b| && a[..k] == b[..k] && (k == |a| || (a[k] != b[k] && less(a[k], b[k])))
  }

  lemma SamePart<T>(a: seq<T>, b: seq<T>, k: nat)
    requires 0 < k <= |a| && k <= |b| && a[..k] == b[..k]
    ensures a[0] == b[0]
  {
    assert a[..k][0] == b[..k][0];
  }

  lemma {:induction false} LexMeans<T(!new)>(less: (T, T) -> bool, a: seq<T>, b: seq<T>)
    ensures LexLess(less, a, b) <==> exists k: nat :: LowerAt(less, a, b, k)
  {
    forall k: nat | LowerAt(less, a, b, k) && k > 0
      ensures a[0] == b[0]
    {
      SamePart(a, b, k);
    }
    if a == [] || b == [] || a[0] != b[0] {
      assert LexLess(less, a, b) <==> LowerAt(less, a, b, 0);
    } else {
      LexMeans(less, a[1..], b[1..]);
      LaterPart(less, a, b);
    }
  }

  lemma LaterPart<T(!new)>(less: (T, T) -> bool, a: seq<T>, b: seq<T>)
    requires a != [] && b != [] && a[0] == b[0]
    ensures (exists k: nat :: LowerAt(less, a, b, k)) <==> exists k: nat :: LowerAt(less, a[1..], b[1..], k)
  {
    if k: nat :| LowerAt(less, a[1..], b[1..], k) {
      assert a[..k + 1] == [a[0]] + a[1..][..k] && b[..k + 1] == [b[0]] + b[1..][..k];
      assert LowerAt(less, a, b, k + 1);
    }
    if k: nat :| LowerAt(less, a, b, k) {
      assert k > 0;
      assert a[1..][..k - 1] == a[..k][1..] && b[1..][..k - 1] == b[..k][1..];
      assert LowerAt(less, a[1..], b[1..], k - 1);
    }
  }

  /** Numbers compare as numbers and words as texts; a number is below a word. */
  ghost predicate IdentifierBelow(a: Identifier, b: Identifier) {
    || (a.Number? && b.Number? && a.n < b.n)
    || (a.Number? && b.Word?)
    || (a.Word? && b.Word? && exists k: nat :: FirstAt(a.w, b.w, k))
  }

  /** The identifiers differ first at `k`, where the lower one ends or is below. */
  ghost predicate IdentifiersBelowAt(a: seq<Identifier>, b: seq<Identifier>, k: nat) {
    k <= |a| && k < |b| && a[..k] == b[..k] && (k == |a| || IdentifierBelow(a[k], b[k]))
  }

  lemma IdentifierMeans(a: Identifier, b: Identifier)
    ensures IdentifierBelow(a, b) <==> IdentifierLess(a, b)
    ensures IdentifierLess(a, b) ==> a != b
  {
    if a.Word? && b.Word? {
      LessMeans(a.w, b.w);
      LessTotal(a.w, b.w);
    }
  }

  /** The core decides at its first difference; of equal cores a prerelease is
      below its release, and two prereleases compare identifier by identifier. */
  lemma RanksBySection11(p: Precedence, q: Precedence)
    requires |p.core| == |q.core|
    ensures KeyLess(p, q) <==>
            || (exists k: nat :: k < |p.core| && p.core[..k] == q.core[..k] && p.core[k] < q.core[k])
            || (p.core == q.core && !p.release && q.release)
            || (p.core == q.core && p.release == q.release
                && exists k: nat :: IdentifiersBelowAt(p.identifiers, q.identifiers, k))
  {
    LexMeans(NatLess, p.core, q.core);
    LexMeans(IdentifierLess, p.identifiers, q.identifiers);
    forall k: nat
      ensures LowerAt(NatLess, p.core, q.core, k) <==>
              k < |p.core| && p.core[..k] == q.core[..k] && p.core[k] < q.core[k]
    {
    }
    forall k: nat
      ensures LowerAt(IdentifierLess, p.identifiers, q.identifiers, k) <==>
              IdentifiersBelowAt(p.identifiers, q.identifiers, k)
    {
      if k < |p.identifiers| && k < |q.identifiers| {
        IdentifierMeans(p.identifiers[k], q.identifiers[k]);
      }
    }
    if k: nat :| k < |p.core| && p.core[..k] == q.core[..k] && p.core[k] < q.core[k] {
      assert p.core != q.core;
      assert LowerAt(NatLess, p.core, q.core, k);
    }
  }

  // ---- The announcements' own key ------------------------------------------

  datatype Element = Plain(n: nat) | Tagged(id: Identifier)

  /** Where the original cannot compare a number with a tagged identifier, this
      order puts the number first. */
  predicate ElementLess(a: Element, b: Element) {
    match (a, b)
    case (Plain(x), Plain(y)) => x < y
    case (Tagged(x), Tagged(y)) => IdentifierLess(x, y)
    case (Plain(_), Tagged(_)) => true
    case (Tagged(_), Plain(_)) => false
  }

  function NumericOnly(parts: seq<string>): seq<Element> {
    if parts == [] then []
    else (if IsNumeric(parts[0]) then [Plain(ToNat(parts[0]))] else []) + NumericOnly(parts[1..])
  }

  function TaggedAll(ids: seq<Identifier>): seq<Element> {
    seq(|ids|, i requires 0 <= i < |ids| => Tagged(ids[i]))
  }

  function SortKey(version: string): seq<Element> {
    var plain := Before(version, '+');
    var core := NumericOnly(SplitOn(Before(plain, '-'), '.'));
    if '-' !in plain then core + [Plain(1)]
    else core + [Plain(0)] + TaggedAll(Identifiers(SplitOn(After(plain, '-'), '.')))
  }

  predicate VersionBefore(a: string, b: string) {
    LexLess(ElementLess, SortKey(a), SortKey(b))
  }

  /** Three numbers, and a prerelease that is not empty if a dash announces one. */
  predicate WellFormedVersion(version: string) {
    var plain := Before(version, '+');
    NumericParts(SplitOn(Before(plain, '-'), '.')) && ('-' in plain ==> After(plain, '-') != "")
  }

  lemma ThreeNumbers(parts: seq<string>)
    requires NumericParts(parts)
    ensures NumericOnly(parts) == [Plain(ToNat(parts[0])), Plain(ToNat(parts[1])), Plain(ToNat(parts[2]))]
  {
    var one, two := parts[1..], parts[2..];
    assert one[1..] == two && two[1..] == [] && one[0] == parts[1] && two[0] == parts[2];
    assert NumericOnly(two) == [Plain(ToNat(parts[2]))] + NumericOnly([]);
    assert NumericOnly(one) == [Plain(ToNat(parts[1]))] + NumericOnly(two);
  }

  /** A precedence key as one tuple. */
  function Flat(k: Precedence): seq<Element>
    requires |k.core| == 3
  {
    [Plain(k.core[0]), Plain(k.core[1]), Plain(k.core[2]), Plain(if k.release then 1 else 0)] + TaggedAll(k.identifiers)
  }

  lemma ReleaseShape(version: string)
    requires WellFormedVersion(version) && '-' !in Before(version, '+')
    ensures var parts := SplitOn(Before(version, '+'), '.');
            && NumericParts(parts)
            && PrecedenceKey(version) == Some(Precedence(Core(parts), true, []))
            && SortKey(version) == NumericOnly(parts) + [Plain(1)]
  {
    NoSplit(Before(version, '+'), '-');
  }

  lemma PrereleaseShape(version: string)
    requires WellFormedVersion(version) && '-' in Before(version, '+')
    ensures var plain := Before(version, '+');
            var parts, ids := SplitOn(Before(plain, '-'), '.'), Identifiers(SplitOn(After(plain, '-'), '.'));
            && NumericParts(parts)
            && PrecedenceKey(version) == Some(Precedence(Core(parts), false, ids))
            && SortKey(version) == NumericOnly(parts) + [Plain(0)] + TaggedAll(ids)
  {
  }

  lemma FlatOf(parts: seq<string>, release: bool, ids: seq<Identifier>)
    requires NumericParts(parts) && (release ==> ids == [])
    ensures var n := if release then 1 else 0;
            Flat(Precedence(Core(parts), release, ids)) == NumericOnly(parts) + [Plain(n)] + TaggedAll(ids)
  {
    ThreeNumbers(parts);
  }

  lemma SortKeyShape(version: string)
    requires WellFormedVersion(version)
    ensures PrecedenceKey(version).Some?
    ensures var k := PrecedenceKey(version).value;
            && |k.core| == 3 && (k.release ==> k.identifiers == [])
            && SortKey(version) == Flat(k)
  {
    var plain := Before(version, '+');
    if '-' !in plain {
      ReleaseShape(version);
      FlatOf(SplitOn(plain, '.'), true, []);
      assert TaggedAll([]) == [];
    } else {
      PrereleaseShape(version);
      FlatOf(SplitOn(Before(plain, '-'), '.'), false, Identifiers(SplitOn(After(plain, '-'), '.')));
    }
  }

  lemma {:induction false} TaggedCompare(a: seq<Identifier>, b: seq<Identifier>)
    ensures LexLess(ElementLess, TaggedAll(a), TaggedAll(b)) <==> LexLess(IdentifierLess, a, b)
  {
    if a != [] && b != [] {
      assert TaggedAll(a)[1..] == TaggedAll(a[1..]) && TaggedAll(b)[1..] == TaggedAll(b[1..]);
      TaggedCompare(a[1..], b[1..]);
    }
  }

  lemma LexCons<T>(less: (T, T) -> bool, x: T, a: seq<T>, y: T, b: seq<T>)
    ensures LexLess(less, [x] + a, [y] + b) <==> if x == y then LexLess(less, a, b) else less(x, y)
  {
    assert ([x] + a)[1..] == a && ([y] + b)[1..] == b;
  }

  lemma LexFour<T>(
    less: (T, T) -> bool, x0: T, x1: T, x2: T, x3: T, a: seq<T>, y0: T, y1: T, y2: T, y3: T, b: seq<T>)
    ensures LexLess(less, [x0, x1, x2, x3] + a, [y0, y1, y2, y3] + b) <==>
            if x0 != y0 then less(x0, y0)
            else if x1 != y1 then less(x1, y1)
            else if x2 != y2 then less(x2, y2)
            else if x3 != y3 then less(x3, y3)
            else LexLess(less, a, b)
  {
    var a3, b3 := [x3] + a, [y3] + b;
    var a2, b2 := [x2] + a3, [y2] + b3;
    var a1, b1 := [x1] + a2, [y1] + b2;
    assert [x0, x1, x2, x3] + a == [x0] + a1 && [y0, y1, y2, y3] + b == [y0] + b1;
    LexCons(less, x0, a1, y0, b1);
    LexCons(less, x1, a2, y1, b2);
    LexCons(less, x2, a3, y2, b3);
    LexCons(less, x3, a, y3, b);
  }

  /** Comparing the tuples is comparing core, release and identifiers in turn. */
  lemma FlatCompare(p: Precedence, q: Precedence)
    requires |p.core| == |q.core| == 3
    requires (p.release ==> p.identifiers == []) && (q.release ==> q.identifiers == [])
    ensures LexLess(ElementLess, Flat(p), Flat(q)) <==> KeyLess(p, q)
  {
    LexFour(ElementLess,
            Plain(p.core[0]), Plain(p.core[1]), Plain(p.core[2]), Plain(if p.release then 1 else 0),
            TaggedAll(p.identifiers),
            Plain(q.core[0]), Plain(q.core[1]), Plain(q.core[2]), Plain(if q.release then 1 else 0),
            TaggedAll(q.identifiers));
    TaggedCompare(p.identifiers, q.identifiers);
    CoreCompare(p.core, q.core);
  }

  /** The two keys order all well-formed versions alike. */
  lemma KeysAgree(a: string, b: string)
    requires WellFormedVersion(a) && WellFormedVersion(b)
    ensures PrecedenceKey(a).Some? && PrecedenceKey(b).Some?
    ensures VersionBefore(a, b) <==> KeyLess(PrecedenceKey(a).value, PrecedenceKey(b).value)
  {
    SortKeyShape(a);
    SortKeyShape(b);
    FlatCompare(PrecedenceKey(a).value, PrecedenceKey(b).value);
  }

  lemma CoreCompare(a: seq<nat>, b: seq<nat>)
    requires |a| == |b| == 3
    ensures LexLess(NatLess, a, b) <==>
            a[0] < b[0] || (a[0] == b[0] && (a[1] < b[1] || (a[1] == b[1] && a[2] < b[2])))
  {
    assert a == [a[0]] + ([a[1]] + ([a[2]] + [])) && b == [b[0]] + ([b[1]] + ([b[2]] + []));
    LexCons(NatLess, a[0], [a[1]] + ([a[2]] + []), b[0], [b[1]] + ([b[2]] + []));
    LexCons(NatLess, a[1], [a[2]] + [], b[1], [b[2]] + []);
    LexCons(NatLess, a[2], [], b[2], []);
  }

  // ---- The order is a precedence -------------------------------------------

  ghost predicate StrictTotal<T(!new)>(less: (T, T) -> bool) {
    && (forall x, y :: less(x, y) ==> !less(y, x))
    && (forall x, y :: x == y || less(x, y) || less(y, x))
    && forall x, y, z :: less(x, y) && less(y, z) ==> less(x, z)
  }

  lemma {:induction false} LexTotal<T(!new)>(less: (T, T) -> bool, a: seq<T>, b: seq<T>)
    requires StrictTotal(less)
    ensures a == b || LexLess(less, a, b) || LexLess(less, b, a)
    ensures !(LexLess(less, a, b) && LexLess(less, b, a))
  {
    if a != [] && b != [] && a[0] == b[0] {
      LexTotal(less, a[1..], b[1..]);
      assert a == [a[0]] + a[1..] && b == [b[0]] + b[1..];
    }
  }

  lemma {:induction false} LexTransitive<T(!new)>(less: (T, T) -> bool, a: seq<T>, b: seq<T>, c: seq<T>)
    requires StrictTotal(less) && LexLess(less, a, b) && LexLess(less, b, c)
    ensures LexLess(less, a, c)
  {
    if a != [] && a[0] == b[0] == c[0] {
      LexTransitive(less, a[1..], b[1..], c[1..]);
    }
  }

  lemma ElementsStrict()
    ensures StrictTotal(ElementLess)
  {
    forall x, y
      ensures ElementLess(x, y) ==> !ElementLess(y, x)
      ensures x == y || ElementLess(x, y) || ElementLess(y, x)
    {
      if x.Tagged? && y.Tagged? && x.id.Word? && y.id.Word? {
        LessTotal(x.id.w, y.id.w);
      }
    }
    forall x, y, z | ElementLess(x, y) && ElementLess(y, z)
      ensures ElementLess(x, z)
    {
      if x.Tagged? && y.Tagged? && z.Tagged? && x.id.Word? && y.id.Word? && z.id.Word? {
        LessTransitive(x.id.w, y.id.w, z.id.w);
      }
    }
  }

  /** The key's order is what the page summaries need of it. */
  lemma VersionBeforeIsPrecedence(a: string, b: string, c: string)
    ensures VersionBefore(a, b) ==> !VersionBefore(b, a)
    ensures !VersionBefore(a, b) && !VersionBefore(b, c) ==> !VersionBefore(a, c)
  {
    ElementsStrict();
    LexTotal(ElementLess, SortKey(a), SortKey(b));
    LexTotal(ElementLess, SortKey(b), SortKey(c));
    LexTotal(ElementLess, SortKey(a), SortKey(c));
    if VersionBefore(a, c) && VersionBefore(c, b) {
      LexTransitive(ElementLess, SortKey(a), SortKey(c), SortKey(b));
    }
  }
}
