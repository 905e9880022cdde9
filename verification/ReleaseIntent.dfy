/** The release intent of a merge, and what holds over a linear run of merges. */
module ReleaseIntent {
  import opened StoreTypes
  import opened Releases

  datatype Rule = R1 | R2 | R3 | R4Backport | R6

  datatype Intent = Intent(published: Option<ReleaseVersion>, rule: Rule)

  datatype Refusal =
    | BackportTouchesTesting | TwoIntents | ShipsAnotherLine | TestingNotAbove
    | StableOnMainline | BackportLeavesLine | PatchNotAbove

  datatype Classified = Accepted(intent: Intent) | Refused(why: Refusal)

  function Classify(base: ProjectVersion, head: ProjectVersion, backport: bool): Classified {
    var testingChanged, stableChanged := base.testing != head.testing, base.stable != head.stable;
    if !testingChanged && !stableChanged then Accepted(Intent(None, R6))
    else if backport && testingChanged then Refused(BackportTouchesTesting)
    else if testingChanged && stableChanged then
      if head.testing.num > 0 then Refused(TwoIntents)
      else if head.stable != base.testing.triplet then Refused(ShipsAnotherLine)
      else Accepted(Intent(Some(Release(head, StableTrack)), R3))
    else if testingChanged then
      if head.testing.num == 0 then Accepted(Intent(None, R2))
      else if !Ranks(RenderSemver(base, TestingTrack), RenderSemver(head, TestingTrack)) then Refused(TestingNotAbove)
      else Accepted(Intent(Some(Release(head, TestingTrack)), R1))
    else if !backport then Refused(StableOnMainline)
    else if head.stable.major != base.stable.major || head.stable.minor != base.stable.minor then
      Refused(BackportLeavesLine)
    else if head.stable.patch <= base.stable.patch then Refused(PatchNotAbove)
    else Accepted(Intent(Some(Release(head, StableTrack)), R4Backport))
  }

  /** The accepted diffs: nothing; on the mainline a ship, a bare rebase, or a
      higher testing version; on a backport branch a higher stable patch. */
  lemma AcceptedExactly(base: ProjectVersion, head: ProjectVersion, backport: bool)
    ensures Classify(base, head, backport).Accepted? <==>
              || (head.testing == base.testing && head.stable == base.stable)
              || (!backport && head.testing != base.testing && head.testing.num == 0
                  && (head.stable == base.testing.triplet || head.stable == base.stable))
              || (!backport && head.stable == base.stable && TestingLess(base.testing, head.testing))
              || (backport && head.testing == base.testing && head.stable.major == base.stable.major
                  && head.stable.minor == base.stable.minor && head.stable.patch > base.stable.patch)
  {
    RankingMeans(base, head);
  }

  /** Which rule an accepted diff falls under, and what it publishes. */
  lemma RuleMeans(base: ProjectVersion, head: ProjectVersion, backport: bool)
    requires Classify(base, head, backport).Accepted?
    ensures var intent := Classify(base, head, backport).intent;
            && (intent.rule == R6 <==> head.testing == base.testing && head.stable == base.stable)
            && (intent.rule == R2 <==>
                  head.testing != base.testing && head.stable == base.stable && head.testing.num == 0)
            && (intent.rule == R1 <==>
                  head.testing != base.testing && head.stable == base.stable && head.testing.num > 0)
            && (intent.rule == R3 <==> head.testing != base.testing && head.stable != base.stable)
            && (intent.rule == R4Backport <==> head.testing == base.testing && head.stable != base.stable)
            && (intent.published.None? <==> intent.rule in {R2, R6})
            && (intent.published.Some? ==>
                  var v := intent.published.value;
                  && v.build == head.build && v.track == (if intent.rule == R1 then TestingTrack else StableTrack)
                  && v.semver == RenderSemver(head, v.track) && v.full == RenderFull(head, v.track))
  {
  }

  /** Why a diff is refused: the first of these that holds. */
  lemma RefusedBecause(base: ProjectVersion, head: ProjectVersion, backport: bool)
    ensures var c := Classify(base, head, backport);
            var testing, stable := head.testing != base.testing, head.stable != base.stable;
            && (c == Refused(BackportTouchesTesting) <==> backport && testing)
            && (c == Refused(TwoIntents) <==> !backport && testing && stable && head.testing.num > 0)
            && (c == Refused(ShipsAnotherLine) <==>
                  !backport && testing && stable && head.testing.num == 0 && head.stable != base.testing.triplet)
            && (c == Refused(TestingNotAbove) <==>
                  !backport && testing && !stable && head.testing.num > 0 && !TestingLess(base.testing, head.testing))
            && (c == Refused(StableOnMainline) <==> !backport && !testing && stable)
            && (c == Refused(BackportLeavesLine) <==>
                  && backport && !testing
                  && (head.stable.major != base.stable.major || head.stable.minor != base.stable.minor))
            && (c == Refused(PatchNotAbove) <==>
                  && backport && !testing && stable
                  && head.stable.major == base.stable.major && head.stable.minor == base.stable.minor
                  && head.stable.patch <= base.stable.patch)
  {
    RankingMeans(base, head);
  }

  // ---- One merge -----------------------------------------------------------

  predicate StableAtMost(a: Triplet, b: Triplet) {
    a == b || TripletLess(a, b)
  }

  predicate TestingAtMost(a: Testing, b: Testing) {
    a == b || TestingLess(a, b)
  }

  /** What an accepted merge does to a configuration that keeps I1: stable stays
      or rises, on the mainline to the tested line, which is rebased; testing
      falls only when rebased. */
  ghost predicate Raises(base: ProjectVersion, head: ProjectVersion, backport: bool) {
    && TripletLess(base.stable, base.testing.triplet)
    && StableAtMost(base.stable, head.stable)
    && (base.stable != head.stable && !backport ==> head.stable == base.testing.triplet && head.testing.num == 0)
    && (backport ==> head.testing == base.testing)
    && (head.testing.num > 0 ==> TestingAtMost(base.testing, head.testing))
  }

  /** Which version is published: the new stable one if stable changed, else
      the new testing one if testing changed and is cut, else none. */
  function ReleasedTrack(base: ProjectVersion, head: ProjectVersion): Option<Track> {
    if base.stable != head.stable then Some(StableTrack)
    else if base.testing != head.testing && head.testing.num > 0 then Some(TestingTrack)
    else None
  }

  lemma MergeRaises(base: ProjectVersion, head: ProjectVersion, backport: bool)
    requires Classify(base, head, backport).Accepted? && TripletLess(base.stable, base.testing.triplet)
    ensures Raises(base, head, backport)
  {
    AcceptedExactly(base, head, backport);
  }

  lemma PublishedMeans(base: ProjectVersion, head: ProjectVersion, backport: bool)
    requires Classify(base, head, backport).Accepted?
    ensures Classify(base, head, backport).intent.published ==
            match ReleasedTrack(base, head) case None => None case Some(track) => Some(Release(head, track))
  {
  }

  // ---- Runs of merges ------------------------------------------------------

  datatype Merge = Merge(head: ProjectVersion, backport: bool)

  /** The configuration before merge `i`; after all of them for `i == |merges|`. */
  function Config(start: ProjectVersion, merges: seq<Merge>, i: nat): ProjectVersion
    requires i <= |merges|
  {
    if i == 0 then start else merges[i - 1].head
  }

  ghost predicate AcceptedAt(start: ProjectVersion, merges: seq<Merge>, i: nat)
    requires i < |merges|
  {
    && TrackOrderHolds(Config(start, merges, i)) && TrackOrderHolds(merges[i].head)
    && Classify(Config(start, merges, i), merges[i].head, merges[i].backport).Accepted?
  }

  /** Every merge is accepted, with I1 before and after it. */
  ghost predicate AcceptedRun(start: ProjectVersion, merges: seq<Merge>) {
    forall i {:trigger AcceptedAt(start, merges, i)} :: 0 <= i < |merges| ==> AcceptedAt(start, merges, i)
  }

  ghost predicate RaisesAt(start: ProjectVersion, merges: seq<Merge>, i: nat)
    requires i < |merges|
  {
    && Raises(Config(start, merges, i), merges[i].head, merges[i].backport)
    && TripletLess(merges[i].head.stable, merges[i].head.testing.triplet)
  }

  lemma AcceptedRaises(start: ProjectVersion, merges: seq<Merge>, i: nat)
    requires AcceptedRun(start, merges) && i < |merges|
    ensures RaisesAt(start, merges, i)
  {
    assert AcceptedAt(start, merges, i);
    var base := Config(start, merges, i);
    RankingMeans(base, base);
    MergeRaises(base, merges[i].head, merges[i].backport);
    RankingMeans(merges[i].head, merges[i].head);
  }

  ghost predicate RaisingRun(start: ProjectVersion, merges: seq<Merge>) {
    forall i {:trigger RaisesAt(start, merges, i)} :: 0 <= i < |merges| ==> RaisesAt(start, merges, i)
  }

  lemma AcceptedRunRaises(start: ProjectVersion, merges: seq<Merge>)
    requires AcceptedRun(start, merges)
    ensures RaisingRun(start, merges)
  {
    forall i | 0 <= i < |merges|
      ensures RaisesAt(start, merges, i)
    {
      AcceptedRaises(start, merges, i);
    }
  }

  function ReleasedTrackAt(start: ProjectVersion, merges: seq<Merge>, i: nat): Option<Track>
    requires i < |merges|
  {
    ReleasedTrack(Config(start, merges, i), merges[i].head)
  }

  lemma {:induction false} StableNeverFalls(start: ProjectVersion, merges: seq<Merge>, i: nat, j: nat)
    requires RaisingRun(start, merges) && i <= j <= |merges|
    ensures StableAtMost(Config(start, merges, i).stable, Config(start, merges, j).stable)
  {
    if i < j {
      StableNeverFalls(start, merges, i, j - 1);
      assert RaisesAt(start, merges, j - 1);
    }
  }

  lemma StablesAscend(start: ProjectVersion, merges: seq<Merge>, i: nat, j: nat)
    requires RaisingRun(start, merges) && i < j < |merges|
    requires ReleasedTrackAt(start, merges, i) == Some(StableTrack) == ReleasedTrackAt(start, merges, j)
    ensures TripletLess(start.stable, merges[i].head.stable)
    ensures TripletLess(merges[i].head.stable, merges[j].head.stable)
  {
    assert RaisesAt(start, merges, i) && RaisesAt(start, merges, j);
    StableNeverFalls(start, merges, 0, i);
    StableNeverFalls(start, merges, i + 1, j);
  }

  /** What the intent rules say merge `i` publishes. */
  function ReleasedAt(start: ProjectVersion, merges: seq<Merge>, i: nat): Option<ReleaseVersion>
    requires i < |merges|
  {
    match Classify(Config(start, merges, i), merges[i].head, merges[i].backport)
    case Accepted(intent) => intent.published
    case Refused(_) => None
  }

  lemma ReleasedMeans(start: ProjectVersion, merges: seq<Merge>, i: nat)
    requires AcceptedRun(start, merges) && i < |merges|
    ensures var track := ReleasedTrackAt(start, merges, i);
            ReleasedAt(start, merges, i) == if track.None? then None else Some(Release(merges[i].head, track.value))
  {
    assert AcceptedAt(start, merges, i);
    PublishedMeans(Config(start, merges, i), merges[i].head, merges[i].backport);
  }

  ghost predicate ReleasesVersion(start: ProjectVersion, merges: seq<Merge>, i: nat, v: ReleaseVersion, track: Track)
    requires i < |merges|
  {
    ReleasedAt(start, merges, i) == Some(v) && v.track == track
  }

  /** Over an accepted run every stable version that the rules publish ranks
      above those they published before it, and above the stable version the
      run started with. */
  lemma PublishedStablesAscend(
    start: ProjectVersion, merges: seq<Merge>, i: nat, j: nat, v: ReleaseVersion, w: ReleaseVersion)
    requires AcceptedRun(start, merges) && i < j < |merges|
    requires ReleasesVersion(start, merges, i, v, StableTrack) && ReleasesVersion(start, merges, j, w, StableTrack)
    ensures Ranks(RenderSemver(start, StableTrack), v.semver) && Ranks(v.semver, w.semver)
  {
    ReleasedMeans(start, merges, i);
    ReleasedMeans(start, merges, j);
    AcceptedRunRaises(start, merges);
    StablesAscend(start, merges, i, j);
    RankingMeans(merges[i].head, merges[j].head);
    RankingMeans(start, merges[i].head);
  }

  lemma StableBelowTesting(start: ProjectVersion, merges: seq<Merge>, i: nat, j: nat)
    requires RaisingRun(start, merges) && i <= j < |merges|
    ensures TripletLess(merges[i].head.stable, merges[j].head.testing.triplet)
  {
    StableNeverFalls(start, merges, i + 1, j + 1);
    assert RaisesAt(start, merges, j);
  }

  /** Every testing version, published ones included, ranks above every stable
      version published so far. */
  lemma TestingAboveStables(start: ProjectVersion, merges: seq<Merge>, i: nat, j: nat)
    requires AcceptedRun(start, merges) && i <= j < |merges|
    ensures Ranks(RenderSemver(merges[i].head, StableTrack), RenderSemver(merges[j].head, TestingTrack))
  {
    AcceptedRunRaises(start, merges);
    StableBelowTesting(start, merges, i, j);
    RankingMeans(merges[i].head, merges[j].head);
  }

  /** Every testing version that the rules publish ranks above every stable
      version they published before it. */
  lemma PublishedTestingAboveStables(
    start: ProjectVersion, merges: seq<Merge>, i: nat, j: nat, v: ReleaseVersion, w: ReleaseVersion)
    requires AcceptedRun(start, merges) && i < j < |merges|
    requires ReleasesVersion(start, merges, i, v, StableTrack) && ReleasesVersion(start, merges, j, w, TestingTrack)
    ensures Ranks(v.semver, w.semver)
  {
    ReleasedMeans(start, merges, i);
    ReleasedMeans(start, merges, j);
    TestingAboveStables(start, merges, i, j);
  }

  /** A mainline merge publishes as stable the triplet under test just before
      it, ranking above the version it was tested as, and rebases the line. */
  lemma ShipsTheTestedLine(start: ProjectVersion, merges: seq<Merge>, i: nat, v: ReleaseVersion)
    requires AcceptedRun(start, merges) && i < |merges|
    requires ReleasesVersion(start, merges, i, v, StableTrack) && !merges[i].backport
    ensures v.semver == RenderTriplet(Config(start, merges, i).testing.triplet)
    ensures Ranks(RenderSemver(Config(start, merges, i), TestingTrack), v.semver)
    ensures merges[i].head.testing.num == 0
  {
    ReleasedMeans(start, merges, i);
    AcceptedRunRaises(start, merges);
    assert RaisesAt(start, merges, i);
    RankingMeans(Config(start, merges, i), merges[i].head);
    assert v.semver == RenderTriplet(merges[i].head.stable) + "";
  }

  lemma {:induction false} TestingRises(start: ProjectVersion, merges: seq<Merge>, i: nat, j: nat)
    requires RaisingRun(start, merges) && i <= j <= |merges|
    requires forall k :: i <= k < j ==> merges[k].head.testing.num > 0
    ensures TestingAtMost(Config(start, merges, i).testing, Config(start, merges, j).testing)
  {
    if i < j {
      TestingRises(start, merges, i, j - 1);
      assert RaisesAt(start, merges, j - 1);
    }
  }

  /** Between rebases, while every merge leaves a cut counter, testing never falls. */
  lemma TestingRisesBetweenRebases(start: ProjectVersion, merges: seq<Merge>, i: nat, j: nat)
    requires AcceptedRun(start, merges) && i <= j <= |merges|
    requires forall k :: i <= k < j ==> merges[k].head.testing.num > 0
    ensures !Ranks(RenderSemver(Config(start, merges, j), TestingTrack),
                   RenderSemver(Config(start, merges, i), TestingTrack))
  {
    AcceptedRunRaises(start, merges);
    TestingRises(start, merges, i, j);
    RankingMeans(Config(start, merges, j), Config(start, merges, i));
  }

  /** Across a rebase it may fall: to any line that is above stable. */
  lemma RebaseMayLower(base: ProjectVersion, head: ProjectVersion)
    requires head.stable == base.stable && head.testing.num == 0
    requires TripletLess(head.stable, head.testing.triplet) && TripletLess(head.testing.triplet, base.testing.triplet)
    ensures AcceptedRun(base, [Merge(head, false)])
    ensures Ranks(RenderSemver(head, TestingTrack), RenderSemver(base, TestingTrack))
  {
    RankingMeans(base, base);
    RankingMeans(head, head);
    RankingMeans(head, base);
    AcceptedExactly(base, head, false);
    assert AcceptedAt(base, [Merge(head, false)], 0);
  }
}
