/** The resource resolution rules, and the download stamp derived from them. */
module ResourceRules {
  import opened StoreTypes

  // ---- Rules ---------------------------------------------------------------

  datatype Resolution = Eager | Lazy | Excluded

  datatype Rule = Rule(
    exact: Option<string>, prefix: Option<string>, pattern: Option<string>,
    resolution: Option<Resolution>, onMatch: Option<Resolution>, onMismatch: Option<Resolution>,
    excludedWhen: Option<string>)

  datatype Spec = Spec(scheme: string, fields: seq<string>, rules: seq<Rule>)

  /** The client state a pattern refers to, as its fields print. */
  type Context = string -> string

  // ---- Patterns ------------------------------------------------------------

  /** Where a run of characters other than braces that starts at `i` ends. */
  function RunEnd(p: string, i: nat): (e: nat)
    requires i <= |p|
    ensures i <= e <= |p| && (forall k :: i <= k < e ==> p[k] != '{' && p[k] != '}')
    ensures e < |p| ==> p[e] == '{' || p[e] == '}'
    decreases |p| - i
  {
    if i < |p| && p[i] != '{' && p[i] != '}' then RunEnd(p, i + 1) else i
  }

  predicate PlaceholderAt(p: string, i: nat) {
    i < |p| && p[i] == '{' && var e := RunEnd(p, i + 1); i + 1 < e < |p| && p[e] == '}'
  }

  function FirstPlaceholder(p: string, i: nat): (k: nat)
    requires i <= |p|
    ensures i <= k <= |p| && (k < |p| ==> PlaceholderAt(p, k))
    ensures forall j :: i <= j < k ==> !PlaceholderAt(p, j)
    decreases |p| - i
  {
    if i == |p| || PlaceholderAt(p, i) then i else FirstPlaceholder(p, i + 1)
  }

  function Placeholders(p: string): seq<string> {
    var k := FirstPlaceholder(p, 0);
    if k == |p| then []
    else
      var e := RunEnd(p, k + 1);
      [p[k + 1..e]] + Placeholders(p[e + 1..])
  }

  datatype Split = Split(head: string, field: string, tail: string)

  function SplitPattern(p: string): (s: Split)
    requires Placeholders(p) != []
  {
    var k := FirstPlaceholder(p, 0);
    var e := RunEnd(p, k + 1);
    Split(p[..k], p[k + 1..e], p[e + 1..])
  }

  /** A pattern is its parts put together again, split at its first placeholder. */
  lemma SplitsBack(p: string)
    requires Placeholders(p) != []
    ensures var s := SplitPattern(p);
            && p == s.head + "{" + s.field + "}" + s.tail
            && s.field == Placeholders(p)[0] && s.field != ""
            && (forall k :: 0 <= k < |s.field| ==> s.field[k] != '{' && s.field[k] != '}')
            && forall k :: 0 <= k < |s.head| ==> !PlaceholderAt(p, k)
  {
    var k := FirstPlaceholder(p, 0);
    var e := RunEnd(p, k + 1);
    assert p[k] == '{' && p[e] == '}';
    assert p == p[..k] + [p[k]] + p[k + 1..e] + [p[e]] + p[e + 1..];
  }

  /** A placeholder for `field` stands at `i`: braces around text without braces. */
  ghost predicate FieldAt(p: string, i: nat, field: string) {
    && i + |field| + 1 < |p| && p[i] == '{' && p[i + |field| + 1] == '}'
    && field != "" && p[i + 1..i + 1 + |field|] == field
    && forall k :: 0 <= k < |field| ==> field[k] != '{' && field[k] != '}'
  }

  lemma FieldIsPlaceholder(p: string, i: nat, field: string)
    requires FieldAt(p, i, field)
    ensures PlaceholderAt(p, i) && RunEnd(p, i + 1) == i + 1 + |field|
  {
    assert forall k :: 0 <= k < |field| ==> p[i + 1 + k] == field[k];
    assert forall k :: i + 1 <= k < i + 1 + |field| ==> p[k] == field[k - i - 1];
  }

  lemma PlaceholderIsField(p: string, i: nat)
    requires PlaceholderAt(p, i)
    ensures FieldAt(p, i, p[i + 1..RunEnd(p, i + 1)])
  {
  }

  ghost predicate HasField(p: string) {
    exists i: nat, field :: FieldAt(p, i, field)
  }

  ghost predicate OtherField(p: string, i: nat) {
    exists j: nat, field :: FieldAt(p, j, field) && j != i
  }

  lemma HasFieldIff(p: string)
    ensures HasField(p) <==> Placeholders(p) != []
  {
    var k := FirstPlaceholder(p, 0);
    if k < |p| {
      PlaceholderIsField(p, k);
    }
    if i: nat, field :| FieldAt(p, i, field) {
      FieldIsPlaceholder(p, i, field);
    }
  }

  lemma FieldOfRest(p: string, n: nat, j: nat, field: string)
    requires n <= |p|
    ensures FieldAt(p[n..], j, field) <==> FieldAt(p, n + j, field)
  {
    if n + j + |field| + 1 < |p| {
      assert p[n..][j + 1..j + 1 + |field|] == p[n + j + 1..n + j + 1 + |field|];
    }
  }

  lemma AfterFirst(p: string, j: nat, field: string)
    requires FieldAt(p, j, field) && j != FirstPlaceholder(p, 0)
    ensures FirstPlaceholder(p, 0) < |p| && j > RunEnd(p, FirstPlaceholder(p, 0) + 1)
  {
    FieldIsPlaceholder(p, j, field);
  }

  /** What follows the first placeholder has the others, if there are any. */
  lemma OthersFollow(p: string, k: nat, n: nat)
    requires k == FirstPlaceholder(p, 0) && k < |p| && n == RunEnd(p, k + 1) + 1
    ensures OtherField(p, k) <==> HasField(p[n..])
  {
    forall j: nat, field | FieldAt(p, j, field) && j != k
      ensures j >= n && FieldAt(p[n..], j - n, field)
    {
      AfterFirst(p, j, field);
      FieldOfRest(p, n, j - n, field);
    }
    forall j: nat, field {:trigger FieldAt(p[n..], j, field)} | FieldAt(p[n..], j, field)
      ensures FieldAt(p, n + j, field)
    {
      FieldOfRest(p, n, j, field);
    }
  }

  lemma OneListedIff(p: string, k: nat, e: nat, field: string)
    requires Placeholders(p) != [] && k == FirstPlaceholder(p, 0) && e == RunEnd(p, k + 1)
    ensures Placeholders(p) == [field] <==> p[k + 1..e] == field && !HasField(p[e + 1..])
  {
    SomeFirst(p);
    FirstThenRest(p, k, e);
    HasFieldIff(p[e + 1..]);
    OnlyOne(p[k + 1..e], Placeholders(p[e + 1..]), field);
  }

  lemma FieldThere(p: string, k: nat, field: string)
    requires PlaceholderAt(p, k)
    ensures FieldAt(p, k, field) <==> p[k + 1..RunEnd(p, k + 1)] == field
  {
    PlaceholderIsField(p, k);
    if FieldAt(p, k, field) {
      FieldIsPlaceholder(p, k, field);
    }
  }

  /** The first placeholder is the only one exactly when nothing else is one. */
  lemma OneListed(p: string, k: nat, field: string)
    requires Placeholders(p) != [] && k == FirstPlaceholder(p, 0)
    ensures Placeholders(p) == [field] <==> FieldAt(p, k, field) && !OtherField(p, k)
  {
    var e := RunEnd(p, k + 1);
    OneListedIff(p, k, e, field);
    OthersFollow(p, k, e + 1);
    FieldThere(p, k, field);
  }

  lemma OnlyOne(first: string, rest: seq<string>, field: string)
    ensures [first] + rest == [field] <==> first == field && rest == []
  {
    if [first] + rest == [field] {
      assert ([first] + rest)[0] == first && |[first] + rest| == 1 + |rest|;
    }
  }

  lemma FirstThenRest(p: string, k: nat, e: nat)
    requires k == FirstPlaceholder(p, 0) && k < |p| && e == RunEnd(p, k + 1)
    ensures Placeholders(p) == [p[k + 1..e]] + Placeholders(p[e + 1..])
  {
  }

  lemma SomeFirst(p: string)
    requires Placeholders(p) != []
    ensures FirstPlaceholder(p, 0) < |p|
  {
  }

  /** A pattern has exactly one placeholder exactly when braces with text
      between them stand in one place only. */
  lemma OnePlaceholderIff(p: string, field: string)
    ensures Placeholders(p) == [field] <==> exists i: nat :: FieldAt(p, i, field) && !OtherField(p, i)
  {
    HasFieldIff(p);
    if Placeholders(p) != [] {
      OneListed(p, FirstPlaceholder(p, 0), field);
      PlaceholderIsField(p, FirstPlaceholder(p, 0));
    }
  }

  // ---- Validation ----------------------------------------------------------

  function Given<T>(o: Option<T>): nat {
    if o.Some? then 1 else 0
  }

  predicate ValidRule(r: Rule) {
    var hasPair := r.onMatch.Some? || r.onMismatch.Some?;
    && Given(r.exact) + Given(r.prefix) + Given(r.pattern) == 1
    && r.resolution.Some? != hasPair
    && (hasPair ==> r.onMatch.Some? && r.onMismatch.Some? && r.pattern.Some?)
    && (hasPair ==> r.onMatch.value != Excluded && r.onMismatch.value != Excluded)
    && (r.excludedWhen.Some? ==> r.resolution.Some?)
  }

  predicate ValidPattern(r: Rule, fields: seq<string>) {
    r.pattern.Some? ==> |Placeholders(r.pattern.value)| == 1 && Placeholders(r.pattern.value)[0] in fields
  }

  predicate ValidSpec(spec: Spec) {
    && (forall i, j :: 0 <= i < j < |spec.fields| ==> spec.fields[i] != spec.fields[j])
    && spec.rules != []
    && forall i :: 0 <= i < |spec.rules| ==> ValidRule(spec.rules[i]) && ValidPattern(spec.rules[i], spec.fields)
  }

  predicate Usable(r: Rule) {
    ValidRule(r) && (r.pattern.Some? ==> Placeholders(r.pattern.value) != [])
  }

  // ---- What a rule list means ----------------------------------------------

  /** The id a pattern names in a context. */
  function Substituted(r: Rule, scheme: string, context: Context): string
    requires Usable(r) && r.pattern.Some?
  {
    var s := SplitPattern(r.pattern.value);
    scheme + s.head + context(s.field) + s.tail
  }

  function Head(r: Rule): string
    requires Usable(r) && r.pattern.Some?
  {
    SplitPattern(r.pattern.value).head
  }

  /** A pattern with a context pair covers its whole family; one with a static
      resolution only the substituted id. */
  predicate Applies(r: Rule, scheme: string, id: string, context: Context)
    requires Usable(r)
  {
    if r.exact.Some? then id == scheme + r.exact.value
    else if r.prefix.Some? then scheme + r.prefix.value <= id
    else if r.resolution.Some? then id == Substituted(r, scheme, context)
    else scheme + Head(r) <= id
  }

  predicate Superseded(r: Rule, scheme: string, index: seq<string>) {
    r.excludedWhen.Some? && exists e :: e in index && scheme + r.excludedWhen.value <= e
  }

  function Outcome(r: Rule, scheme: string, id: string, index: seq<string>, context: Context): Resolution
    requires Usable(r)
  {
    if r.resolution.Some? then if Superseded(r, scheme, index) then Excluded else r.resolution.value
    else if id == Substituted(r, scheme, context) then r.onMatch.value
    else r.onMismatch.value
  }

  /** The first rule that applies, `|rules|` when none does. */
  function FirstApplying(rules: seq<Rule>, scheme: string, id: string, context: Context): (i: nat)
    requires forall j :: 0 <= j < |rules| ==> Usable(rules[j])
    ensures i <= |rules| && (i < |rules| ==> Applies(rules[i], scheme, id, context))
    ensures forall j :: 0 <= j < i ==> !Applies(rules[j], scheme, id, context)
  {
    if rules == [] || Applies(rules[0], scheme, id, context) then 0
    else 1 + FirstApplying(rules[1..], scheme, id, context)
  }

  function Meaning(rules: seq<Rule>, scheme: string, id: string, index: seq<string>, context: Context): Resolution
    requires forall j :: 0 <= j < |rules| ==> Usable(rules[j])
  {
    var i := FirstApplying(rules, scheme, id, context);
    if i < |rules| then Outcome(rules[i], scheme, id, index, context) else Eager
  }

  lemma ValidIsUsable(spec: Spec)
    requires ValidSpec(spec)
    ensures forall j :: 0 <= j < |spec.rules| ==> Usable(spec.rules[j])
  {
  }

  // ---- The stamp -----------------------------------------------------------

  /** The rule's family by path: patterns match on their literal head. */
  predicate MatchesPath(r: Rule, path: string)
    requires Usable(r)
  {
    if r.exact.Some? then path == r.exact.value
    else if r.prefix.Some? then r.prefix.value <= path
    else Head(r) <= path
  }

  predicate StampsLazy(r: Rule) {
    if r.excludedWhen.Some? then false
    else if r.resolution.Some? then r.resolution.value == Lazy
    else r.onMatch == Some(Lazy) || r.onMismatch == Some(Lazy)
  }

  function PathOf(scheme: string, id: string): string {
    if scheme <= id then id[|scheme|..] else id
  }

  function FirstMatching(rules: seq<Rule>, path: string): (i: nat)
    requires forall j :: 0 <= j < |rules| ==> Usable(rules[j])
    ensures i <= |rules| && (i < |rules| ==> MatchesPath(rules[i], path))
    ensures forall j :: 0 <= j < i ==> !MatchesPath(rules[j], path)
  {
    if rules == [] || MatchesPath(rules[0], path) then 0 else 1 + FirstMatching(rules[1..], path)
  }

  predicate IsLazyResource(spec: Spec, id: string)
    requires forall j :: 0 <= j < |spec.rules| ==> Usable(spec.rules[j])
  {
    var i := FirstMatching(spec.rules, PathOf(spec.scheme, id));
    i < |spec.rules| && StampsLazy(spec.rules[i])
  }

  // ---- Both evaluators pick the same rule ----------------------------------

  predicate StaticPattern(r: Rule) {
    r.pattern.Some? && r.resolution.Some?
  }

  lemma SubstitutedInFamily(r: Rule, scheme: string, context: Context)
    requires Usable(r) && r.pattern.Some?
    ensures scheme + Head(r) <= Substituted(r, scheme, context)
  {
    var s := SplitPattern(r.pattern.value);
    assert scheme + s.head + context(s.field) + s.tail == (scheme + s.head) + (context(s.field) + s.tail);
  }

  /** The stamp looks at the rule the client applies exactly when the id is in
      the scheme and that rule is not a static pattern naming another id; an id
      outside the scheme agrees only when no rule's family has it. */
  lemma SameRuleIff(spec: Spec, id: string, context: Context)
    requires ValidSpec(spec)
    ensures forall j :: 0 <= j < |spec.rules| ==> Usable(spec.rules[j])
    ensures var i := FirstMatching(spec.rules, PathOf(spec.scheme, id));
            FirstApplying(spec.rules, spec.scheme, id, context) == i <==>
              i == |spec.rules|
              || (spec.scheme <= id &&
                    (StaticPattern(spec.rules[i]) ==> id == Substituted(spec.rules[i], spec.scheme, context)))
  {
    ValidIsUsable(spec);
    forall j | 0 <= j < |spec.rules|
      ensures spec.scheme <= id ==>
                (Applies(spec.rules[j], spec.scheme, id, context) <==>
                   MatchesPath(spec.rules[j], PathOf(spec.scheme, id))
                   && (StaticPattern(spec.rules[j]) ==> id == Substituted(spec.rules[j], spec.scheme, context)))
      ensures !(spec.scheme <= id) ==> !Applies(spec.rules[j], spec.scheme, id, context)
    {
    }
  }

  // ---- What the stamp promises ---------------------------------------------

  /** The client can resolve the id so, with some index in some context. */
  ghost predicate CanBe(spec: Spec, id: string, wanted: Resolution)
    requires forall j :: 0 <= j < |spec.rules| ==> Usable(spec.rules[j])
  {
    exists index: seq<string>, context: Context :: Meaning(spec.rules, spec.scheme, id, index, context) == wanted
  }

  ghost predicate NoStaticPatterns(spec: Spec) {
    forall j :: 0 <= j < |spec.rules| ==> !StaticPattern(spec.rules[j])
  }

  lemma MeaningByPath(spec: Spec, id: string, index: seq<string>, context: Context)
    requires ValidSpec(spec) && NoStaticPatterns(spec) && spec.scheme <= id
    ensures forall j :: 0 <= j < |spec.rules| ==> Usable(spec.rules[j])
    ensures var i := FirstMatching(spec.rules, PathOf(spec.scheme, id));
            Meaning(spec.rules, spec.scheme, id, index, context) ==
            if i < |spec.rules| then Outcome(spec.rules[i], spec.scheme, id, index, context) else Eager
  {
    SameRuleIff(spec, id, context);
  }

  lemma ReachedBy(spec: Spec, id: string, index: seq<string>, context: Context, wanted: Resolution)
    requires forall j :: 0 <= j < |spec.rules| ==> Usable(spec.rules[j])
    requires Meaning(spec.rules, spec.scheme, id, index, context) == wanted
    ensures CanBe(spec, id, wanted)
  {
  }

  /** A context in which the pattern names another id. */
  lemma Mismatching(r: Rule, scheme: string, id: string) returns (context: Context)
    requires Usable(r) && r.pattern.Some?
    ensures id != Substituted(r, scheme, context)
  {
    var s := SplitPattern(r.pattern.value);
    var filler := if id == scheme + s.head + "" + s.tail then "x" else "";
    context := (_: string) => filler;
    assert |scheme + s.head + "x" + s.tail| == |scheme + s.head + "" + s.tail| + 1;
  }

  /** What can be excluded is stamped for eager download; what can be lazy and
      never excluded is stamped lazy; and nothing else is, but for a family
      member its context match makes lazy though no context may reach it. */
  lemma StampIff(spec: Spec, id: string)
    requires ValidSpec(spec) && NoStaticPatterns(spec) && spec.scheme <= id
    ensures forall j :: 0 <= j < |spec.rules| ==> Usable(spec.rules[j])
    ensures CanBe(spec, id, Excluded) ==> !IsLazyResource(spec, id)
    ensures CanBe(spec, id, Lazy) && !CanBe(spec, id, Excluded) ==> IsLazyResource(spec, id)
    ensures var i := FirstMatching(spec.rules, PathOf(spec.scheme, id));
            IsLazyResource(spec, id) ==>
              !CanBe(spec, id, Excluded) && (CanBe(spec, id, Lazy) || spec.rules[i].onMatch == Some(Lazy))
  {
    ValidIsUsable(spec);
    var i := FirstMatching(spec.rules, PathOf(spec.scheme, id));
    forall index: seq<string>, context: Context
      ensures Meaning(spec.rules, spec.scheme, id, index, context) ==
              if i < |spec.rules| then Outcome(spec.rules[i], spec.scheme, id, index, context) else Eager
    {
      MeaningByPath(spec, id, index, context);
    }
    if i < |spec.rules| {
      var r := spec.rules[i];
      assert ValidRule(r);
      var anywhere: Context := (_: string) => "";
      if r.excludedWhen.Some? {
        var index := [spec.scheme + r.excludedWhen.value];
        assert Superseded(r, spec.scheme, index) by {
          assert index[0] in index;
        }
        ReachedBy(spec, id, index, anywhere, Excluded);
      } else if r.resolution.Some? {
        ReachedBy(spec, id, [], anywhere, r.resolution.value);
      } else {
        var context := Mismatching(r, spec.scheme, id);
        ReachedBy(spec, id, [], context, r.onMismatch.value);
      }
    }
  }

  const STATIC := Rule(None, None, Some("l/{x}"), Some(Lazy), None, None, None)

  lemma StaticPatternParts()
    ensures Placeholders("l/{x}") == ["x"] && SplitPattern("l/{x}") == Split("l/", "x", "")
  {
    var p := "l/{x}";
    assert RunEnd(p, 3) == 4 && PlaceholderAt(p, 2) && !PlaceholderAt(p, 0) && !PlaceholderAt(p, 1);
    assert FirstPlaceholder(p, 0) == 2;
    assert p[5..] == "" && FirstPlaceholder("", 0) == 0;
    assert p[..2] == "l/" && p[3..4] == "x";
  }

  lemma StaticPatternMeans()
    ensures Usable(STATIC) && Meaning([STATIC], "r:", "r:l/b", [], (_: string) => "a") == Eager
  {
    StaticPatternParts();
    assert Substituted(STATIC, "r:", (_: string) => "a") == "r:l/a";
    assert "r:l/a"[4] != "r:l/b"[4];
  }

  /** The hypothesis is needed: a static pattern stamps its whole family, while
      the client applies it to the substituted id only. */
  lemma StaticPatternDisagrees()
    ensures var spec := Spec("r:", ["x"], [STATIC]);
            && ValidSpec(spec) && Usable(STATIC)
            && IsLazyResource(spec, "r:l/b")
            && Meaning(spec.rules, spec.scheme, "r:l/b", [], (_: string) => "a") == Eager
  {
    StaticPatternParts();
    StaticPatternMeans();
    assert "r:l/b"[2..] == "l/b";
    assert "r:" <= "r:l/b" && "l/" <= "l/b";
  }
}
