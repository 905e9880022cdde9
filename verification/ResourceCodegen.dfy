/** The Dart evaluator compiled from a rule list, and what running it computes. */
module ResourceCodegen {
  import opened StoreTypes
  import opened ResourceRules
  import opened Text

  // ---- Escaping ------------------------------------------------------------

  function Replaced(s: string, c: char, sub: string): string {
    if s == "" then "" else (if s[0] == c then sub else [s[0]]) + Replaced(s[1..], c, sub)
  }

  /** A literal for a double-quoted Dart string. */
  function DartEscape(s: string): string {
    Replaced(Replaced(Replaced(s, '\\', "\\\\"), '"', "\\\""), '$', "\\$")
  }

  /** How Dart reads the text between double quotes, as far as the generator
      writes it: escaped characters and `${context.field}`. `None` is text that
      is not such a string: an open end, a line break, an unescaped quote. */
  function DartRead(text: string, context: Context): Option<string>
    decreases |text|
  {
    if text == "" then Some("")
    else if text[0] == '\\' then
      if |text| >= 2 && text[1] in "\\\"$" then Prepended([text[1]], DartRead(text[2..], context)) else None
    else if text[0] == '$' then
      var end := IndexOf(text, '}');
      if INTERPOLATION <= text && |INTERPOLATION| <= end < |text|
      then Prepended(context(text[|INTERPOLATION|..end]), DartRead(text[end + 1..], context)) else None
    else if text[0] in "\"\n\r" then None
    else Prepended([text[0]], DartRead(text[1..], context))
  }

  function Prepended(front: string, rest: Option<string>): Option<string> {
    match rest
    case None => None
    case Some(s) => Some(front + s)
  }

  predicate OneLine(s: string) {
    '\n' !in s && '\r' !in s
  }

  lemma {:induction false} EscapeCons(c: char, s: string)
    ensures DartEscape([c] + s) == (if c in "\\\"$" then ['\\', c] else [c]) + DartEscape(s)
  {
    var a := if c == '\\' then "\\\\" else [c];
    assert ([c] + s)[1..] == s;
    assert Replaced([c] + s, '\\', "\\\\") == a + Replaced(s, '\\', "\\\\");
    var rest := Replaced(s, '\\', "\\\\");
    ReplacedConcat(a, rest, '"', "\\\"");
    ReplacedConcat(Replaced(a, '"', "\\\""), Replaced(rest, '"', "\\\""), '$', "\\$");
    Singles(c);
  }

  lemma {:induction false} ReplacedNone(s: string, c: char, sub: string)
    requires c !in s
    ensures Replaced(s, c, sub) == s
  {
    if s != "" {
      ReplacedNone(s[1..], c, sub);
      assert s == [s[0]] + s[1..];
    }
  }

  lemma Singles(c: char)
    ensures DartEscape([c]) == if c in "\\\"$" then ['\\', c] else [c]
  {
    var a := if c == '\\' then "\\\\" else [c];
    var b := if c == '"' then "\\\"" else a;
    assert [c][1..] == "" && Replaced([c], '\\', "\\\\") == a;
    if c == '"' {
      assert Replaced(a, '"', "\\\"") == b;
    } else {
      ReplacedNone(a, '"', "\\\"");
    }
    if c == '$' {
      assert Replaced(b, '$', "\\$") == "\\$";
    } else {
      ReplacedNone(b, '$', "\\$");
    }
  }

  lemma {:induction false} ReplacedConcat(a: string, b: string, c: char, sub: string)
    ensures Replaced(a + b, c, sub) == Replaced(a, c, sub) + Replaced(b, c, sub)
  {
    if a == "" {
      assert a + b == b;
    } else {
      assert (a + b)[1..] == a[1..] + b;
      ReplacedConcat(a[1..], b, c, sub);
    }
  }

  /** An escaped literal reads back as itself, in front of whatever follows,
      exactly when it has no line break. */
  lemma {:induction false} EscapeReadsBack(s: string, rest: string, context: Context)
    ensures OneLine(s) ==> DartRead(DartEscape(s) + rest, context) == Prepended(s, DartRead(rest, context))
    ensures !OneLine(s) ==> DartRead(DartEscape(s) + rest, context) == None
  {
    if s == "" {
      assert DartEscape("") + rest == rest;
      assert forall t: string :: "" + t == t;
    } else {
      var c, tail := s[0], s[1..];
      assert s == [c] + tail;
      EscapeCons(c, tail);
      EscapeReadsBack(tail, rest, context);
      var more := DartEscape(tail) + rest;
      if c in "\\\"$" {
        assert DartEscape(s) + rest == ['\\', c] + more;
        assert (['\\', c] + more)[2..] == more;
      } else {
        assert DartEscape(s) + rest == [c] + more;
        assert ([c] + more)[1..] == more;
      }
      assert forall t: string :: s + t == [c] + (tail + t);
    }
  }

  // ---- The compiled statements ---------------------------------------------

  /** Texts stand between the double quotes of a Dart literal. */
  datatype Test = IdEquals(text: string) | IdStartsWith(text: string)

  datatype Statement =
    | ReturnIf(test: Test, result: Resolution)
    | ReturnUnlessSuperseded(test: Test, supersededText: string, otherwise: Resolution)

  const INTERPOLATION := "${context."

  function PatternText(r: Rule, scheme: string): string
    requires Usable(r) && r.pattern.Some?
  {
    var s := SplitPattern(r.pattern.value);
    DartEscape(scheme + s.head) + (INTERPOLATION + s.field + "}" + DartEscape(s.tail))
  }

  function RuleTest(r: Rule, scheme: string): Test
    requires Usable(r)
  {
    if r.exact.Some? then IdEquals(DartEscape(scheme + r.exact.value))
    else if r.prefix.Some? then IdStartsWith(DartEscape(scheme + r.prefix.value))
    else IdEquals(PatternText(r, scheme))
  }

  function RuleBody(r: Rule, scheme: string): seq<Statement>
    requires Usable(r)
  {
    var test := RuleTest(r, scheme);
    if r.resolution.Some? then
      if r.excludedWhen.Some?
      then [ReturnUnlessSuperseded(test, DartEscape(scheme + r.excludedWhen.value), r.resolution.value)]
      else [ReturnIf(test, r.resolution.value)]
    else
      [ReturnIf(test, r.onMatch.value), ReturnIf(IdStartsWith(DartEscape(scheme + Head(r))), r.onMismatch.value)]
  }

  function Compiled(rules: seq<Rule>, scheme: string): seq<Statement>
    requires forall j :: 0 <= j < |rules| ==> Usable(rules[j])
  {
    if rules == [] then [] else RuleBody(rules[0], scheme) + Compiled(rules[1..], scheme)
  }

  lemma {:induction false} CompiledSnoc(rules: seq<Rule>, scheme: string, r: Rule)
    requires Usable(r) && forall j :: 0 <= j < |rules| ==> Usable(rules[j])
    ensures Compiled(rules + [r], scheme) == Compiled(rules, scheme) + RuleBody(r, scheme)
  {
    if rules == [] {
      assert [r][1..] == [] && [] + [r] == [r];
    } else {
      assert (rules + [r])[1..] == rules[1..] + [r];
      CompiledSnoc(rules[1..], scheme, r);
    }
  }

  lemma CompiledOneMore(rules: seq<Rule>, scheme: string, i: nat)
    requires i < |rules| && forall j :: 0 <= j < |rules| ==> Usable(rules[j])
    ensures Compiled(rules[..i + 1], scheme) == Compiled(rules[..i], scheme) + RuleBody(rules[i], scheme)
  {
    assert rules[..i + 1] == rules[..i] + [rules[i]];
    CompiledSnoc(rules[..i], scheme, rules[i]);
  }

  method ResolveFunction(spec: Spec) returns (body: seq<Statement>)
    requires forall j :: 0 <= j < |spec.rules| ==> Usable(spec.rules[j])
    ensures body == Compiled(spec.rules, spec.scheme)
  {
    body := [];
    for i := 0 to |spec.rules|
      invariant body == Compiled(spec.rules[..i], spec.scheme)
    {
      CompiledOneMore(spec.rules, spec.scheme, i);
      body := body + RuleBody(spec.rules[i], spec.scheme);
    }
    assert spec.rules[..|spec.rules|] == spec.rules;
  }

  // ---- Running them --------------------------------------------------------

  predicate Readable(text: string, context: Context) {
    DartRead(text, context).Some?
  }

  predicate StatementReadable(s: Statement, context: Context) {
    Readable(s.test.text, context) && (s.ReturnUnlessSuperseded? ==> Readable(s.supersededText, context))
  }

  predicate TestHolds(t: Test, id: string, context: Context)
    requires Readable(t.text, context)
  {
    var literal := DartRead(t.text, context).value;
    match t
    case IdEquals(_) => id == literal
    case IdStartsWith(_) => literal <= id
  }

  /** The value returned, falling through to the final `eager`; `None` when some
      text is not a Dart literal, so that the function does not compile. */
  function RunDart(body: seq<Statement>, id: string, index: seq<string>, context: Context): Option<Resolution> {
    if body == [] then Some(Eager)
    else
      var s, rest := body[0], RunDart(body[1..], id, index, context);
      if !StatementReadable(s, context) || rest.None? then None
      else if !TestHolds(s.test, id, context) then rest
      else match s
        case ReturnIf(_, result) => Some(result)
        case ReturnUnlessSuperseded(_, text, otherwise) =>
          var literal := DartRead(text, context).value;
          Some(if exists e :: e in index && literal <= e then Excluded else otherwise)
  }

  // ---- They mean what the rules mean ---------------------------------------

  predicate RuleOneLine(r: Rule, scheme: string)
    requires Usable(r)
  {
    && OneLine(scheme)
    && (r.exact.Some? ==> OneLine(r.exact.value)) && (r.prefix.Some? ==> OneLine(r.prefix.value))
    && (r.pattern.Some? ==> OneLine(Head(r)) && OneLine(SplitPattern(r.pattern.value).tail))
    && (r.excludedWhen.Some? ==> OneLine(r.excludedWhen.value))
  }

  lemma LiteralReads(s: string, context: Context)
    ensures DartRead(DartEscape(s), context) == if OneLine(s) then Some(s) else None
  {
    EscapeReadsBack(s, "", context);
    assert DartEscape(s) + "" == DartEscape(s) && s + "" == s;
  }

  lemma OneLineConcat(a: string, b: string)
    ensures OneLine(a + b) <==> OneLine(a) && OneLine(b)
  {
    assert forall c :: c in a + b <==> c in a || c in b;
  }

  lemma InterpolationReads(field: string, rest: string, context: Context)
    requires forall k :: 0 <= k < |field| ==> field[k] != '}'
    ensures DartRead(INTERPOLATION + field + "}" + rest, context) == Prepended(context(field), DartRead(rest, context))
  {
    var text := INTERPOLATION + field + "}" + rest;
    var end := |INTERPOLATION| + |field|;
    assert text[end] == '}';
    assert forall j :: 0 <= j < end ==> text[j] != '}' by {
      assert forall j :: 0 <= j < |INTERPOLATION| ==> INTERPOLATION[j] != '}';
    }
    assert IndexOf(text, '}') == end;
    assert text[|INTERPOLATION|..end] == field && text[end + 1..] == rest;
    assert INTERPOLATION <= text && text[0] == '$';
  }

  /** A compiled pattern literal reads as the substituted id. */
  lemma PatternReads(r: Rule, scheme: string, context: Context)
    requires Usable(r) && r.pattern.Some?
    ensures var s := SplitPattern(r.pattern.value);
            DartRead(PatternText(r, scheme), context) ==
            if OneLine(scheme + s.head) && OneLine(s.tail) then Some(Substituted(r, scheme, context)) else None
  {
    SplitsBack(r.pattern.value);
    var s := SplitPattern(r.pattern.value);
    var after := INTERPOLATION + s.field + "}" + DartEscape(s.tail);
    EscapeReadsBack(scheme + s.head, after, context);
    InterpolationReads(s.field, DartEscape(s.tail), context);
    LiteralReads(s.tail, context);
    assert scheme + s.head + context(s.field) + s.tail == scheme + s.head + (context(s.field) + s.tail);
  }

  lemma TestMeans(r: Rule, scheme: string, id: string, context: Context)
    requires Usable(r) && RuleOneLine(r, scheme)
    ensures Readable(RuleTest(r, scheme).text, context)
    ensures TestHolds(RuleTest(r, scheme), id, context) <==>
            if r.pattern.Some? then id == Substituted(r, scheme, context) else Applies(r, scheme, id, context)
  {
    if r.exact.Some? {
      OneLineConcat(scheme, r.exact.value);
      LiteralReads(scheme + r.exact.value, context);
    } else if r.prefix.Some? {
      OneLineConcat(scheme, r.prefix.value);
      LiteralReads(scheme + r.prefix.value, context);
    } else {
      OneLineConcat(scheme, Head(r));
      PatternReads(r, scheme, context);
    }
  }

  /** One rule's statements decide as the rule does, or fall through. */
  lemma RuleRuns(r: Rule, scheme: string, rest: seq<Statement>, id: string, index: seq<string>, context: Context)
    requires Usable(r) && RuleOneLine(r, scheme) && RunDart(rest, id, index, context).Some?
    ensures RunDart(RuleBody(r, scheme) + rest, id, index, context) ==
            if Applies(r, scheme, id, context) then Some(Outcome(r, scheme, id, index, context))
            else RunDart(rest, id, index, context)
  {
    if r.resolution.Some? {
      StaticRuleRuns(r, scheme, rest, id, index, context);
    } else {
      ConditionalRuleRuns(r, scheme, rest, id, index, context);
    }
  }

  lemma StaticRuleRuns(r: Rule, scheme: string, rest: seq<Statement>, id: string, index: seq<string>, context: Context)
    requires Usable(r) && RuleOneLine(r, scheme) && RunDart(rest, id, index, context).Some? && r.resolution.Some?
    ensures RunDart(RuleBody(r, scheme) + rest, id, index, context) ==
            if Applies(r, scheme, id, context) then Some(Outcome(r, scheme, id, index, context))
            else RunDart(rest, id, index, context)
  {
    TestMeans(r, scheme, id, context);
    assert (RuleBody(r, scheme) + rest)[1..] == rest;
    if r.excludedWhen.Some? {
      OneLineConcat(scheme, r.excludedWhen.value);
      LiteralReads(scheme + r.excludedWhen.value, context);
    }
  }

  lemma ConditionalRuleRuns(
    r: Rule, scheme: string, rest: seq<Statement>, id: string, index: seq<string>, context: Context)
    requires Usable(r) && RuleOneLine(r, scheme) && RunDart(rest, id, index, context).Some? && r.resolution.None?
    ensures RunDart(RuleBody(r, scheme) + rest, id, index, context) ==
            if Applies(r, scheme, id, context) then Some(Outcome(r, scheme, id, index, context))
            else RunDart(rest, id, index, context)
  {
    TestMeans(r, scheme, id, context);
    FamilyTestMeans(r, scheme, id, context);
    SubstitutedInFamily(r, scheme, context);
    var body := RuleBody(r, scheme);
    TwoStatementsRun(body[0], body[1], rest, id, index, context);
    assert body == [body[0], body[1]];
  }

  lemma TwoStatementsRun(
    s: Statement, t: Statement, rest: seq<Statement>, id: string, index: seq<string>, context: Context)
    requires s.ReturnIf? && t.ReturnIf? && StatementReadable(s, context) && StatementReadable(t, context)
    requires RunDart(rest, id, index, context).Some?
    ensures RunDart([s, t] + rest, id, index, context) ==
            if TestHolds(s.test, id, context) then Some(s.result)
            else if TestHolds(t.test, id, context) then Some(t.result)
            else RunDart(rest, id, index, context)
  {
    assert [s, t] + rest == [s] + ([t] + rest);
    StatementRuns(s, [t] + rest, id, index, context);
    StatementRuns(t, rest, id, index, context);
  }

  lemma FamilyTestMeans(r: Rule, scheme: string, id: string, context: Context)
    requires Usable(r) && RuleOneLine(r, scheme) && r.resolution.None?
    ensures var test := IdStartsWith(DartEscape(scheme + Head(r)));
            Readable(test.text, context) && (TestHolds(test, id, context) <==> scheme + Head(r) <= id)
  {
    OneLineConcat(scheme, Head(r));
    LiteralReads(scheme + Head(r), context);
  }

  /** A conditional return decides, or falls through to what follows it. */
  lemma StatementRuns(s: Statement, rest: seq<Statement>, id: string, index: seq<string>, context: Context)
    requires s.ReturnIf? && StatementReadable(s, context)
    ensures RunDart([s] + rest, id, index, context) ==
            if TestHolds(s.test, id, context) && RunDart(rest, id, index, context).Some? then Some(s.result)
            else RunDart(rest, id, index, context)
  {
    assert ([s] + rest)[1..] == rest;
  }

  /** The compiled function computes the first-match meaning of the rules for
      every id, index and context, when no literal has a line break. */
  lemma {:induction false} CompiledMeansRules(
    rules: seq<Rule>, scheme: string, id: string, index: seq<string>, context: Context)
    requires forall j :: 0 <= j < |rules| ==> Usable(rules[j]) && RuleOneLine(rules[j], scheme)
    ensures RunDart(Compiled(rules, scheme), id, index, context) == Some(Meaning(rules, scheme, id, index, context))
  {
    if rules != [] {
      CompiledMeansRules(rules[1..], scheme, id, index, context);
      RuleRuns(rules[0], scheme, Compiled(rules[1..], scheme), id, index, context);
    }
  }

  lemma RuleBreaks(r: Rule, scheme: string, rest: seq<Statement>, id: string, index: seq<string>, context: Context)
    requires Usable(r) && !RuleOneLine(r, scheme)
    ensures RunDart(RuleBody(r, scheme) + rest, id, index, context) == None
  {
    var body := RuleBody(r, scheme);
    if r.exact.Some? {
      OneLineConcat(scheme, r.exact.value);
      LiteralReads(scheme + r.exact.value, context);
    } else if r.prefix.Some? {
      OneLineConcat(scheme, r.prefix.value);
      LiteralReads(scheme + r.prefix.value, context);
    } else {
      OneLineConcat(scheme, Head(r));
      PatternReads(r, scheme, context);
    }
    if r.excludedWhen.Some? {
      OneLineConcat(scheme, r.excludedWhen.value);
      LiteralReads(scheme + r.excludedWhen.value, context);
    }
    assert !StatementReadable(body[0], context);
  }

  ghost predicate AllOneLine(rules: seq<Rule>, scheme: string)
    requires forall j :: 0 <= j < |rules| ==> Usable(rules[j])
  {
    forall j :: 0 <= j < |rules| ==> RuleOneLine(rules[j], scheme)
  }

  /** A literal with a line break, and nothing else, spoils the whole function. */
  lemma {:induction false} CompilesIffOneLine(
    rules: seq<Rule>, scheme: string, id: string, index: seq<string>, context: Context)
    requires forall j :: 0 <= j < |rules| ==> Usable(rules[j])
    ensures RunDart(Compiled(rules, scheme), id, index, context).Some? <==> AllOneLine(rules, scheme)
  {
    if rules != [] {
      CompilesIffOneLine(rules[1..], scheme, id, index, context);
      OneRuleCompiles(rules[0], scheme, Compiled(rules[1..], scheme), id, index, context);
    }
  }

  lemma OneRuleCompiles(r: Rule, scheme: string, rest: seq<Statement>, id: string, index: seq<string>, context: Context)
    requires Usable(r)
    ensures RunDart(RuleBody(r, scheme) + rest, id, index, context).Some? <==>
            RuleOneLine(r, scheme) && RunDart(rest, id, index, context).Some?
  {
    if !RuleOneLine(r, scheme) {
      RuleBreaks(r, scheme, rest, id, index, context);
    } else if RunDart(rest, id, index, context).None? {
      BrokenTail(RuleBody(r, scheme), rest, id, index, context);
    } else {
      RuleRuns(r, scheme, rest, id, index, context);
    }
  }

  lemma {:induction false} BrokenTail(
    body: seq<Statement>, rest: seq<Statement>, id: string, index: seq<string>, context: Context)
    requires RunDart(rest, id, index, context).None?
    ensures RunDart(body + rest, id, index, context).None?
  {
    if body == [] {
      assert body + rest == rest;
    } else {
      assert (body + rest)[1..] == body[1..] + rest;
      BrokenTail(body[1..], rest, id, index, context);
    }
  }
}
