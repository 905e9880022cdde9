/** Release versions of the two tracks: how they are rendered and
    parsed back, and what their precedence says about the numbers they carry. A
    testing version is a release candidate of the triplet under test. */
module Releases {
  import opened StoreTypes
  import opened Text
  import opened Versions

  // ---- Versions ------------------------------------------------------------

  datatype Track = TestingTrack | StableTrack

  datatype Triplet = Triplet(major: nat, minor: nat, patch: nat)

  /** `num == 0` is rebased but not yet cut. */
  datatype Testing = Testing(triplet: Triplet, num: nat)

  datatype ProjectVersion = ProjectVersion(build: nat, testing: Testing, stable: Triplet)

  datatype ReleaseVersion = ReleaseVersion(
    track: Track, semver: string, full: string, triplet: string, tag: string, build: nat)

  function RenderTriplet(t: Triplet): string {
    Decimal(t.major) + "." + (Decimal(t.minor) + "." + Decimal(t.patch))
  }

  function TripletOf(v: ProjectVersion, track: Track): Triplet {
    if track.TestingTrack? then v.testing.triplet else v.stable
  }

  function RenderSemver(v: ProjectVersion, track: Track): string {
    RenderTriplet(TripletOf(v, track))
    + if track.TestingTrack? then "-" + ("beta" + "." + Decimal(v.testing.num)) else ""
  }

  function RenderFull(v: ProjectVersion, track: Track): string {
    RenderSemver(v, track) + if v.build != 0 then "+" + Decimal(v.build) else ""
  }

  function Release(v: ProjectVersion, track: Track): ReleaseVersion {
    ReleaseVersion(track, RenderSemver(v, track), RenderFull(v, track), RenderTriplet(TripletOf(v, track)),
                   "releases/v" + RenderSemver(v, track), v.build)
  }

  // ---- Parsing -------------------------------------------------------------

  function ParseCounter(pre: string): Option<nat> {
    var num := After(pre, '.');
    if Before(pre, '.') != "beta" then None
    else if num == "" then Some(1)
    else if IsNumeric(num) then Some(ToNat(num)) else None
  }

  function ParsePlain(plain: string, build: nat): Option<ReleaseVersion> {
    var parts, pre := SplitOn(Before(plain, '-'), '.'), After(plain, '-');
    if !NumericParts(parts) then None
    else
      var t := Triplet(ToNat(parts[0]), ToNat(parts[1]), ToNat(parts[2]));
      if pre == "" then Some(Release(ProjectVersion(build, Testing(t, 1), t), StableTrack))
      else match ParseCounter(pre)
        case None => None
        case Some(num) => Some(Release(ProjectVersion(build, Testing(t, num), Triplet(0, 0, 0)), TestingTrack))
  }

  function Parse(value: string, build: nat): Option<ReleaseVersion> {
    var suffix := After(value, '+');
    if suffix == "" then ParsePlain(Before(value, '+'), build)
    else if IsNumeric(suffix) then ParsePlain(Before(value, '+'), ToNat(suffix)) else None
  }

  // ---- Parsing inverts rendering -------------------------------------------

  lemma NumericHasNo(s: string, c: char)
    requires IsNumeric(s) && !IsDigit(c)
    ensures c !in s
  {
  }

  lemma TripletSplits(t: Triplet)
    ensures SplitOn(RenderTriplet(t), '.') == [Decimal(t.major), Decimal(t.minor), Decimal(t.patch)]
    ensures '-' !in RenderTriplet(t) && '+' !in RenderTriplet(t)
  {
    var a, b, c := Decimal(t.major), Decimal(t.minor), Decimal(t.patch);
    NumericHasNo(a, '.');
    NumericHasNo(b, '.');
    NumericHasNo(c, '.');
    NumericHasNo(a, '-');
    NumericHasNo(b, '-');
    NumericHasNo(c, '-');
    NumericHasNo(a, '+');
    NumericHasNo(b, '+');
    NumericHasNo(c, '+');
    SplitAt(a, '.', b + "." + c);
    SplitAt(b, '.', c);
    NoSplit(c, '.');
  }

  lemma CounterSplits(num: nat)
    ensures var pre := "beta" + "." + Decimal(num);
            && Before(pre, '.') == "beta" && After(pre, '.') == Decimal(num) && '+' !in pre && pre != ""
            && SplitOn(pre, '.') == ["beta", Decimal(num)]
  {
    var d := Decimal(num);
    NumericHasNo(d, '.');
    NumericHasNo(d, '+');
    SplitAt("beta", '.', d);
    NoSplit(d, '.');
  }

  /** A rendered version comes apart into its core and its prerelease. */
  lemma SemverSplits(v: ProjectVersion, track: Track)
    ensures var s := RenderSemver(v, track);
            && '+' !in s && Before(s, '-') == RenderTriplet(TripletOf(v, track))
            && After(s, '-') == if track.TestingTrack? then "beta" + "." + Decimal(v.testing.num) else ""
  {
    var core := RenderTriplet(TripletOf(v, track));
    TripletSplits(TripletOf(v, track));
    if track.TestingTrack? {
      var pre := "beta" + "." + Decimal(v.testing.num);
      CounterSplits(v.testing.num);
      assert RenderSemver(v, track) == core + ['-'] + pre;
      SplitAt(core, '-', pre);
    } else {
      assert RenderSemver(v, track) == core;
      NoSplit(core, '-');
    }
  }

  lemma PlainParses(v: ProjectVersion, track: Track, build: nat)
    ensures ParsePlain(RenderSemver(v, track), build) == Some(Release(v.(build := build), track))
  {
    var t := TripletOf(v, track);
    SemverSplits(v, track);
    TripletSplits(t);
    DecimalReadsBack(t.major);
    DecimalReadsBack(t.minor);
    DecimalReadsBack(t.patch);
    if track.TestingTrack? {
      CounterSplits(v.testing.num);
      DecimalReadsBack(v.testing.num);
    }
  }

  /** Parsing a fully rendered version gives back the release, on both tracks,
      for every triplet, counter and build. */
  lemma ParseInvertsRender(v: ProjectVersion, track: Track)
    ensures Parse(RenderFull(v, track), 0) == Some(Release(v, track))
  {
    var semver := RenderSemver(v, track);
    SemverSplits(v, track);
    PlainParses(v, track, v.build);
    if v.build == 0 {
      assert RenderFull(v, track) == semver;
      NoSplit(semver, '+');
    } else {
      assert RenderFull(v, track) == semver + ['+'] + Decimal(v.build);
      SplitAt(semver, '+', Decimal(v.build));
      DecimalReadsBack(v.build);
    }
  }

  /** Whatever parses is a release, and its full rendering parses to itself. */
  lemma ParseNormalizes(value: string, build: nat)
    requires Parse(value, build).Some?
    ensures var r := Parse(value, build).value;
            Parse(r.full, 0) == Some(r)
  {
    var suffix := After(value, '+');
    var b := if suffix == "" then build else ToNat(suffix);
    var plain := Before(value, '+');
    var parts, pre := SplitOn(Before(plain, '-'), '.'), After(plain, '-');
    var t := Triplet(ToNat(parts[0]), ToNat(parts[1]), ToNat(parts[2]));
    if pre == "" {
      ParseInvertsRender(ProjectVersion(b, Testing(t, 1), t), StableTrack);
    } else {
      ParseInvertsRender(ProjectVersion(b, Testing(t, ParseCounter(pre).value), Triplet(0, 0, 0)), TestingTrack);
    }
  }

  // ---- Precedence of rendered versions -------------------------------------

  predicate TripletLess(a: Triplet, b: Triplet) {
    a.major < b.major || (a.major == b.major && (a.minor < b.minor || (a.minor == b.minor && a.patch < b.patch)))
  }

  predicate TestingLess(a: Testing, b: Testing) {
    TripletLess(a.triplet, b.triplet) || (a.triplet == b.triplet && a.num < b.num)
  }

  /** Strictly below by the precedence of SemVer 2.0.0, section 11. */
  predicate Ranks(a: string, b: string) {
    var ka, kb := PrecedenceKey(a), PrecedenceKey(b);
    ka.Some? && kb.Some? && KeyLess(ka.value, kb.value)
  }

  function CoreOf(t: Triplet): seq<nat> {
    [t.major, t.minor, t.patch]
  }

  lemma RenderedKey(v: ProjectVersion, track: Track)
    ensures PrecedenceKey(RenderSemver(v, track)) ==
            Some(if track.TestingTrack?
                 then Precedence(CoreOf(v.testing.triplet), false, [Word("beta"), Number(v.testing.num)])
                 else Precedence(CoreOf(v.stable), true, []))
  {
    var t, s := TripletOf(v, track), RenderSemver(v, track);
    SemverSplits(v, track);
    NoSplit(s, '+');
    TripletSplits(t);
    DecimalReadsBack(t.major);
    DecimalReadsBack(t.minor);
    DecimalReadsBack(t.patch);
    if track.TestingTrack? {
      CounterSplits(v.testing.num);
      CounterIdentifiers(v.testing.num);
    }
  }

  lemma CounterIdentifiers(num: nat)
    ensures Identifiers(["beta", Decimal(num)]) == [Word("beta"), Number(num)]
  {
    DecimalReadsBack(num);
    assert "beta"[0] == 'b' && !IsNumeric("beta");
    var ids := Identifiers(["beta", Decimal(num)]);
    assert ids[0] == Word("beta") && ids[1] == Number(num);
  }

  lemma CoreLess(a: Triplet, b: Triplet)
    ensures LexLess(NatLess, CoreOf(a), CoreOf(b)) <==> TripletLess(a, b)
    ensures CoreOf(a) == CoreOf(b) <==> a == b
  {
    CoreCompare(CoreOf(a), CoreOf(b));
    assert CoreOf(a)[0] == a.major && CoreOf(a)[1] == a.minor && CoreOf(a)[2] == a.patch;
  }

  lemma CountersCompare(m: nat, n: nat)
    ensures LexLess(IdentifierLess, [Word("beta"), Number(m)], [Word("beta"), Number(n)]) <==> m < n
  {
    LexCons(IdentifierLess, Word("beta"), [Number(m)], Word("beta"), [Number(n)]);
    LexCons(IdentifierLess, Number(m), [], Number(n), []);
    assert [Word("beta")] + [Number(m)] == [Word("beta"), Number(m)] && [Number(m)] + [] == [Number(m)];
    assert [Word("beta")] + [Number(n)] == [Word("beta"), Number(n)] && [Number(n)] + [] == [Number(n)];
  }

  /** How rendered versions rank, track against track. */
  lemma RankingMeans(a: ProjectVersion, b: ProjectVersion)
    ensures Ranks(RenderSemver(a, StableTrack), RenderSemver(b, StableTrack)) <==> TripletLess(a.stable, b.stable)
    ensures Ranks(RenderSemver(a, TestingTrack), RenderSemver(b, TestingTrack)) <==> TestingLess(a.testing, b.testing)
    ensures Ranks(RenderSemver(a, StableTrack), RenderSemver(b, TestingTrack)) <==>
            TripletLess(a.stable, b.testing.triplet)
    ensures Ranks(RenderSemver(a, TestingTrack), RenderSemver(b, StableTrack)) <==>
            TripletLess(a.testing.triplet, b.stable) || a.testing.triplet == b.stable
  {
    RenderedKey(a, StableTrack);
    RenderedKey(a, TestingTrack);
    RenderedKey(b, StableTrack);
    RenderedKey(b, TestingTrack);
    CoreLess(a.stable, b.stable);
    CoreLess(a.testing.triplet, b.testing.triplet);
    CoreLess(a.stable, b.testing.triplet);
    CoreLess(a.testing.triplet, b.stable);
    CountersCompare(a.testing.num, b.testing.num);
  }

  lemma DecimalExamples()
    ensures Decimal(12) == "12" && Decimal(19) == "19" && Decimal(20) == "20"
    ensures Decimal(0) == "0" && Decimal(1) == "1" && Decimal(3) == "3" && Decimal(4) == "4"
  {
  }

  lemma TripletExamples()
    ensures RenderTriplet(Triplet(1, 20, 3)) == "1.20.3" && RenderTriplet(Triplet(1, 19, 0)) == "1.19.0"
  {
    DecimalExamples();
  }

  const EXAMPLE := ProjectVersion(12, Testing(Triplet(1, 20, 3), 4), Triplet(1, 19, 0))

  lemma TestingExample()
    ensures RenderSemver(EXAMPLE, TestingTrack) == "1.20.3-beta.4"
    ensures RenderFull(EXAMPLE, TestingTrack) == "1.20.3-beta.4+12"
    ensures Release(EXAMPLE, TestingTrack) ==
            ReleaseVersion(TestingTrack, "1.20.3-beta.4", "1.20.3-beta.4+12", "1.20.3", "releases/v1.20.3-beta.4", 12)
  {
    DecimalExamples();
    TripletExamples();
  }

  lemma StableExample()
    ensures RenderSemver(EXAMPLE, StableTrack) == "1.19.0" && RenderFull(EXAMPLE, StableTrack) == "1.19.0+12"
    ensures RenderFull(EXAMPLE.(build := 0), StableTrack) == "1.19.0"
    ensures Release(EXAMPLE, StableTrack) ==
            ReleaseVersion(StableTrack, "1.19.0", "1.19.0+12", "1.19.0", "releases/v1.19.0", 12)
  {
    DecimalExamples();
    TripletExamples();
  }

  /** Invariant I1: testing renders strictly above stable. */
  predicate TrackOrderHolds(v: ProjectVersion) {
    Ranks(RenderSemver(v, StableTrack), RenderSemver(v, TestingTrack))
  }
}
