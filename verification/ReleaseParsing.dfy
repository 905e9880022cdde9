/** Exactly which strings parse as releases, and as which: three numbers with
    dots between them, a beta with or without a counter, and a build, each of
    the last two being optional. The same shapes give the precedence key, in
    which the build does not count. */
module ReleaseParsing {
  import opened StoreTypes
  import opened Text
  import opened Versions
  import opened Releases

  // ---- The shape of a version ----------------------------------------------

  ghost predicate ThreeNumbersAs(core: string, a: string, b: string, c: string, t: Triplet) {
    && IsNumeric(a) && IsNumeric(b) && IsNumeric(c) && core == a + "." + (b + "." + c)
    && t == Triplet(ToNat(a), ToNat(b), ToNat(c))
  }

  /** Three numbers with dots between them. */
  ghost predicate CoreText(core: string, t: Triplet) {
    exists a, b, c :: ThreeNumbersAs(core, a, b, c, t)
  }

  /** Nothing, or a lone dash, is stable; a beta without a counter is the first. */
  ghost predicate PreText(pre: string, num: Option<nat>) {
    match num
    case None => pre == "" || pre == "-"
    case Some(n) => (n == 1 && pre in {"-beta", "-beta."}) || exists d ::
                                                                IsNumeric(d) && pre == "-beta." + d && ToNat(d) == n
  }

  /** An explicit build overrides the given one. */
  ghost predicate BuildText(suffix: string, given: nat, build: nat) {
    (build == given && suffix in {"", "+"}) || exists d :: IsNumeric(d) && suffix == "+" + d && ToNat(d) == build
  }

  ghost function ReleaseFor(t: Triplet, num: Option<nat>, build: nat): ReleaseVersion {
    match num
    case None => Release(ProjectVersion(build, Testing(t, 1), t), StableTrack)
    case Some(n) => Release(ProjectVersion(build, Testing(t, n), t), TestingTrack)
  }

  ghost predicate ReadAs(
    value: string, given: nat, core: string, pre: string, suffix: string, t: Triplet, num: Option<nat>, build: nat)
  {
    value == core + pre + suffix && CoreText(core, t) && PreText(pre, num) && BuildText(suffix, given, build)
  }

  // ---- Taking it apart -----------------------------------------------------

  lemma CutIsWhole(s: string, c: char)
    ensures s == Before(s, c) + if IndexOf(s, c) < |s| then [c] + After(s, c) else ""
    ensures c !in Before(s, c)
  {
    var i := IndexOf(s, c);
    if i < |s| {
      WholeAt(s, i);
    }
  }

  lemma WholeAt(s: string, i: nat)
    requires i < |s|
    ensures s == s[..i] + ([s[i]] + s[i + 1..])
  {
  }

  lemma OneCut(s: string, c: char)
    requires |SplitOn(s, c)| > 1
    ensures SplitOn(s, c) == [Before(s, c)] + SplitOn(After(s, c), c) && s == Before(s, c) + [c] + After(s, c)
  {
    var i := IndexOf(s, c);
    if i == |s| {
      NoSplit(s, c);
    }
    CutIsWhole(s, c);
    SplitAt(Before(s, c), c, After(s, c));
  }

  lemma NoCut(s: string, c: char)
    requires |SplitOn(s, c)| == 1
    ensures SplitOn(s, c) == [s]
  {
  }

  lemma ThreeParts(s: string, c: char)
    requires |SplitOn(s, c)| == 3
    ensures var parts := SplitOn(s, c); s == parts[0] + [c] + (parts[1] + [c] + parts[2])
  {
    var parts, rest := SplitOn(s, c), After(s, c);
    OneCut(s, c);
    var more := SplitOn(rest, c);
    assert parts == [parts[0]] + more && more == [parts[1], parts[2]];
    OneCut(rest, c);
    var last := SplitOn(After(rest, c), c);
    assert more == [more[0]] + last && last == [more[1]];
    NoCut(After(rest, c), c);
  }

  lemma CounterTaken(pre: string)
    requires pre != "" && ParseCounter(pre).Some?
    ensures PreText("-" + pre, ParseCounter(pre))
  {
    var num := After(pre, '.');
    CutIsWhole(pre, '.');
    if IndexOf(pre, '.') == |pre| {
      assert pre == "beta" && "-" + "beta" == "-beta";
    } else {
      assert pre == "beta" + (['.'] + num);
      assert "-" + pre == "-beta." + num;
      assert num == "" ==> "-beta." + num == "-beta.";
    }
  }

  /** What the core and the rest after the first dash decide. */
  lemma PlainDecided(plain: string, t: Triplet, build: nat)
    requires var parts := SplitOn(Before(plain, '-'), '.');
             NumericParts(parts) && t == Triplet(ToNat(parts[0]), ToNat(parts[1]), ToNat(parts[2]))
    ensures var tail := After(plain, '-');
            ParsePlain(plain, build) ==
            if tail == "" then Some(ReleaseFor(t, None, build))
            else match ParseCounter(tail)
              case None => None
              case Some(n) => Some(ReleaseFor(t, Some(n), build))
  {
    var tail := After(plain, '-');
    if tail != "" && ParseCounter(tail).Some? {
      SameTesting(t, ParseCounter(tail).value, build);
    }
  }

  lemma PlainTaken(plain: string, build: nat) returns (core: string, pre: string, t: Triplet, num: Option<nat>)
    requires ParsePlain(plain, build).Some?
    ensures plain == core + pre && CoreText(core, t) && PreText(pre, num)
    ensures ParsePlain(plain, build) == Some(ReleaseFor(t, num, build))
  {
    core := Before(plain, '-');
    var parts, tail := SplitOn(core, '.'), After(plain, '-');
    t := Triplet(ToNat(parts[0]), ToNat(parts[1]), ToNat(parts[2]));
    PlainDecided(plain, t, build);
    CutIsWhole(plain, '-');
    ThreeParts(core, '.');
    assert ThreeNumbersAs(core, parts[0], parts[1], parts[2], t);
    if tail == "" {
      pre, num := if IndexOf(plain, '-') < |plain| then "-" else "", None;
    } else {
      pre, num := "-" + tail, ParseCounter(tail);
      CounterTaken(tail);
    }
  }

  lemma SameTesting(t: Triplet, n: nat, build: nat)
    ensures Release(ProjectVersion(build, Testing(t, n), Triplet(0, 0, 0)), TestingTrack) ==
            Release(ProjectVersion(build, Testing(t, n), t), TestingTrack)
  {
  }

  // ---- Putting it together -------------------------------------------------

  lemma NumbersSplit(a: string, b: string, c: string)
    requires IsNumeric(a) && IsNumeric(b) && IsNumeric(c)
    ensures SplitOn(a + "." + (b + "." + c), '.') == [a, b, c]
  {
    NumericHasNo(a, '.');
    NumericHasNo(b, '.');
    NumericHasNo(c, '.');
    SplitAt(a, '.', b + "." + c);
    SplitAt(b, '.', c);
    NoSplit(c, '.');
  }

  lemma CoreSplits(core: string, t: Triplet)
    requires CoreText(core, t)
    ensures '-' !in core && '+' !in core && NumericParts(SplitOn(core, '.'))
    ensures var parts := SplitOn(core, '.'); t == Triplet(ToNat(parts[0]), ToNat(parts[1]), ToNat(parts[2]))
  {
    var a, b, c :| ThreeNumbersAs(core, a, b, c, t);
    NumbersSplit(a, b, c);
    PartsAre(SplitOn(core, '.'), a, b, c, t);
    OnlyDigitsAndDots(a, b, c, '-');
    OnlyDigitsAndDots(a, b, c, '+');
  }

  lemma PartsAre(parts: seq<string>, a: string, b: string, c: string, t: Triplet)
    requires IsNumeric(a) && IsNumeric(b) && IsNumeric(c) && t == Triplet(ToNat(a), ToNat(b), ToNat(c))
    requires parts == [a, b, c]
    ensures NumericParts(parts) && t == Triplet(ToNat(parts[0]), ToNat(parts[1]), ToNat(parts[2]))
  {
  }

  lemma OnlyDigitsAndDots(a: string, b: string, c: string, x: char)
    requires IsNumeric(a) && IsNumeric(b) && IsNumeric(c) && !IsDigit(x) && x != '.'
    ensures x !in a + "." + (b + "." + c)
  {
    NumericHasNo(a, x);
    NumericHasNo(b, x);
    NumericHasNo(c, x);
  }

  lemma CounterReads(pre: string, n: nat)
    requires PreText("-" + pre, Some(n))
    ensures pre != "" && '+' !in pre && ParseCounter(pre) == Some(n)
  {
    var full := "-" + pre;
    assert full[1..] == pre;
    if full in {"-beta", "-beta."} && n == 1 {
      if full == "-beta" {
        assert pre == "beta";
        NoSplit(pre, '.');
      } else {
        assert pre == "beta" + ['.'] + "";
        SplitAt("beta", '.', "");
      }
    } else {
      var d :| IsNumeric(d) && full == "-beta." + d && ToNat(d) == n;
      assert pre == "beta" + ['.'] + d;
      NumericHasNo(d, '+');
      SplitAt("beta", '.', d);
    }
  }

  lemma PlainReads(core: string, pre: string, t: Triplet, num: Option<nat>, build: nat)
    requires CoreText(core, t) && PreText(pre, num)
    ensures '+' !in core + pre && ParsePlain(core + pre, build) == Some(ReleaseFor(t, num, build))
  {
    var plain := core + pre;
    CoreSplits(core, t);
    DashCuts(core, pre, num);
    PlainDecided(plain, t, build);
    if num.Some? {
      CounterReads(pre[1..], num.value);
    }
  }

  lemma DashCuts(core: string, pre: string, num: Option<nat>)
    requires '-' !in core && PreText(pre, num)
    ensures Before(core + pre, '-') == core
    ensures pre == "" <==> num.None? && pre != "-"
    ensures After(core + pre, '-') == (if pre == "" then "" else pre[1..])
    ensures num.None? ==> After(core + pre, '-') == ""
    ensures pre != "" ==> pre == "-" + pre[1..]
  {
    if pre == "" {
      assert core + pre == core;
      NoSplit(core, '-');
    } else {
      DashFirst(pre, num);
      assert core + pre == core + ['-'] + pre[1..];
      SplitAt(core, '-', pre[1..]);
    }
  }

  lemma DashFirst(pre: string, num: Option<nat>)
    requires PreText(pre, num) && pre != ""
    ensures pre[0] == '-' && pre == "-" + pre[1..]
  {
  }

  lemma BuildReads(plain: string, suffix: string, given: nat, build: nat)
    requires '+' !in plain && BuildText(suffix, given, build)
    ensures Before(plain + suffix, '+') == plain
    ensures var read := After(plain + suffix, '+');
            if read == "" then build == given else IsNumeric(read) && ToNat(read) == build
  {
    if suffix == "" {
      assert plain + suffix == plain;
      NoSplit(plain, '+');
    } else {
      var d := suffix[1..];
      assert suffix == "+" + d && plain + suffix == plain + ['+'] + d;
      SplitAt(plain, '+', d);
      if !(build == given && suffix in {"", "+"}) {
        var e :| IsNumeric(e) && suffix == "+" + e && ToNat(e) == build;
        assert suffix[1..] == e;
      }
    }
  }

  /** A string parses exactly when it is three numbers, followed by nothing or
      by a beta with or without a counter, followed by nothing or by a build;
      and then it is that release. */
  lemma ParsesIff(value: string, given: nat, v: ReleaseVersion)
    ensures Parse(value, given) == Some(v) <==>
            exists core, pre, suffix, t, num, build ::
              ReadAs(value, given, core, pre, suffix, t, num, build) && v == ReleaseFor(t, num, build)
  {
    if core, pre, suffix, t, num, build :|
      ReadAs(value, given, core, pre, suffix, t, num, build) && v == ReleaseFor(t, num, build)
    {
      PlainReads(core, pre, t, num, build);
      BuildReads(core + pre, suffix, given, build);
    }
    if Parse(value, given) == Some(v) {
      TakenApart(value, given, v);
    }
  }

  lemma SuffixTaken(read: string, given: nat, whole: bool)
    requires read == "" || IsNumeric(read)
    ensures BuildText(if whole && read == "" then "" else "+" + read, given, if read == "" then given else ToNat(read))
  {
    if read == "" {
      assert "+" + read == "+";
    }
  }

  lemma ParseDecided(value: string, given: nat, v: ReleaseVersion)
    requires Parse(value, given) == Some(v)
    ensures var read := After(value, '+');
            && (read == "" || IsNumeric(read))
            && ParsePlain(Before(value, '+'), if read == "" then given else ToNat(read)) == Some(v)
  {
  }

  lemma TakenApart(value: string, given: nat, v: ReleaseVersion)
    requires Parse(value, given) == Some(v)
    ensures exists core, pre, suffix, t, num, build ::
              ReadAs(value, given, core, pre, suffix, t, num, build) && v == ReleaseFor(t, num, build)
  {
    var plain, read := Before(value, '+'), After(value, '+');
    ParseDecided(value, given, v);
    var build := if read == "" then given else ToNat(read);
    var core, pre, t, num := PlainTaken(plain, build);
    var suffix := SuffixOf(value, given);
    assert ReadAs(value, given, core, pre, suffix, t, num, build);
  }

  lemma SuffixOf(value: string, given: nat) returns (suffix: string)
    requires After(value, '+') == "" || IsNumeric(After(value, '+'))
    ensures value == Before(value, '+') + suffix
    ensures var read := After(value, '+'); BuildText(suffix, given, if read == "" then given else ToNat(read))
  {
    var read := After(value, '+');
    var whole := IndexOf(value, '+') == |value|;
    CutIsWhole(value, '+');
    SuffixTaken(read, given, whole);
    suffix := if whole && read == "" then "" else "+" + read;
  }

  // ---- The key of a version ------------------------------------------------

  lemma BuildCuts(plain: string, build: string)
    requires '+' !in plain && (build == "" || build[0] == '+')
    ensures Before(plain + build, '+') == plain
  {
    if build == "" {
      assert plain + build == plain;
      NoSplit(plain, '+');
    } else {
      assert plain + build == plain + ['+'] + build[1..];
      SplitAt(plain, '+', build[1..]);
    }
  }

  /** The key of three numbers, a prerelease if there is one, and anything after
      a plus sign, which does not count. */
  lemma KeyReads(core: string, t: Triplet, pre: string, build: string)
    requires CoreText(core, t) && '+' !in pre && (build == "" || build[0] == '+')
    ensures PrecedenceKey(core + build) == Some(Precedence([t.major, t.minor, t.patch], true, []))
    ensures pre != "" ==>
              PrecedenceKey(core + "-" + pre + build) ==
              Some(Precedence([t.major, t.minor, t.patch], false, Identifiers(SplitOn(pre, '.'))))
  {
    CoreSplits(core, t);
    BuildCuts(core, build);
    NoSplit(core, '-');
    BuildCuts(core + "-" + pre, build);
    assert core + "-" + pre == core + ['-'] + pre;
    SplitAt(core, '-', pre);
  }
}
