/** What a prune keeps, said without the collector's own sets. */
module PruneMeaning {
  import opened StoreTypes
  import opened ReleaseStore
  import opened Reachability
  import opened Promotion
  import opened StoreRuns

  // ---- The parent chain ----------------------------------------------------

  /** A chain as a reader would follow it: it starts at `start` when that can be
      loaded, goes on with parents, repeats nothing, and ends only where the
      parent is missing, cannot be loaded, or was met before. */
  ghost predicate FollowsParents(
    gens: map<Hash, Generation>, chain: seq<Hash>, start: Hash, visited: set<Hash>)
  {
    && (chain == [] <==> start == NoHash || start !in gens || start in visited)
    && (chain != [] ==> chain[0] == start)
    && (forall i :: 0 <= i < |chain| ==> chain[i] in gens && chain[i] !in visited)
    && (forall i, j :: 0 <= i < j < |chain| ==> chain[i] != chain[j])
    && (forall i, j :: 0 <= i && j == i + 1 && j < |chain| ==> chain[j] == gens[chain[i]].meta.parent)
    && (chain != [] ==>
          var parent := gens[chain[|chain| - 1]].meta.parent;
          parent == NoHash || parent !in gens || parent in visited || parent in chain)
  }

  lemma {:induction false} WalkFollows(gens: map<Hash, Generation>, current: Hash, visited: set<Hash>)
    ensures FollowsParents(gens, WalkFrom(gens, current, visited), current, visited)
    decreases gens.Keys - visited
  {
    if current != NoHash && current !in visited && current in gens {
      var rest := WalkFrom(gens, gens[current].meta.parent, visited + {current});
      WalkFollows(gens, gens[current].meta.parent, visited + {current});
      assert WalkFrom(gens, current, visited) == [current] + rest;
    }
  }

  lemma ChainFollows(gens: map<Hash, Generation>, start: Hash)
    ensures FollowsParents(gens, Chain(gens, start), start, {})
  {
    WalkFollows(gens, start, {});
  }

  // ---- What a head holds on to ---------------------------------------------

  /** Generation `k` of the parent chain of the channel's head is retained: the
      head has no history, or `k` is within the depth. */
  ghost predicate Retains(st: State, depth: nat, c: ChannelName, k: nat) {
    && c in st.channels && k < |Chain(st.gens, HeadOf(st, c))| && Chain(st.gens, HeadOf(st, c))[k] in st.gens
    && (HeadOf(st, c) in st.histories ==> k <= depth)
  }

  function AncestorOf(st: State, c: ChannelName, k: nat): Hash
    requires k < |Chain(st.gens, HeadOf(st, c))|
  {
    Chain(st.gens, HeadOf(st, c))[k]
  }

  ghost predicate RetainsGeneration(st: State, depth: nat, c: ChannelName, k: nat, h: Hash) {
    Retains(st, depth, c, k) && AncestorOf(st, c, k) == h
  }

  ghost predicate RetainsRelease(st: State, depth: nat, c: ChannelName, k: nat, r: Hash) {
    Retains(st, depth, c, k) && st.gens[AncestorOf(st, c, k)].release == r
  }

  ghost predicate InHistory(history: ServerHistory, s: Hash) {
    exists e, x :: e in history && x in e.snapshots && x.snapshotHash == s
  }

  ghost predicate ListedBy(resources: seq<ResourceEntry>, s: Hash) {
    exists e :: e in resources && e.snapshotHash == s
  }

  /** The head's history records the snapshot; without a history, some
      generation of its chain lists it. */
  ghost predicate RetainsSnapshot(st: State, c: ChannelName, s: Hash) {
    && c in st.channels && HeadOf(st, c) != NoHash
    && if HeadOf(st, c) in st.histories then InHistory(st.histories[HeadOf(st, c)], s)
       else exists k: nat :: Retains(st, 0, c, k) && ListedBy(st.gens[AncestorOf(st, c, k)].resources, s)
  }

  // ---- What the collector reaches ------------------------------------------

  lemma PrefixMembers(s: seq<Hash>, n: nat, x: Hash)
    ensures x in Elements(Prefix(s, n)) <==> exists k :: 0 <= k < |s| && k < n && s[k] == x
  {
  }

  lemma ReachedGenerations(st: State, depth: nat, c: ChannelName, h: Hash)
    requires c in st.channels && HeadOf(st, c) != NoHash
    ensures h in HeadReach(st, HeadOf(st, c), depth).generations <==>
            exists k: nat :: RetainsGeneration(st, depth, c, k, h)
  {
    var head := HeadOf(st, c);
    var chain := Chain(st.gens, head);
    ChainFollows(st.gens, head);
    if h in HeadReach(st, head, depth).generations {
      var k: nat :| k < |chain| && chain[k] == h && (head in st.histories ==> k <= depth);
      assert RetainsGeneration(st, depth, c, k, h);
    }
    if k: nat :| RetainsGeneration(st, depth, c, k, h) {
      if head in st.histories {
        PrefixMembers(chain, depth + 1, h);
      }
    }
  }

  lemma ReachedReleases(st: State, depth: nat, c: ChannelName, r: Hash)
    requires c in st.channels && HeadOf(st, c) != NoHash
    ensures r in HeadReach(st, HeadOf(st, c), depth).releaseSnaps <==>
            r != NoHash && exists k: nat :: RetainsRelease(st, depth, c, k, r)
  {
    var head := HeadOf(st, c);
    var chain := Chain(st.gens, head);
    ChainFollows(st.gens, head);
    if r in HeadReach(st, head, depth).releaseSnaps {
      var h :| h in st.gens && st.gens[h].release == r && h in HeadReach(st, head, depth).generations;
      ReachedGenerations(st, depth, c, h);
      var k: nat :| RetainsGeneration(st, depth, c, k, h);
      assert RetainsRelease(st, depth, c, k, r);
    }
    if k: nat :| r != NoHash && RetainsRelease(st, depth, c, k, r) {
      var h := AncestorOf(st, c, k);
      assert RetainsGeneration(st, depth, c, k, h);
      ReachedGenerations(st, depth, c, h);
    }
  }

  lemma ReachedSnapshots(st: State, depth: nat, c: ChannelName, s: Hash)
    requires c in st.channels && HeadOf(st, c) != NoHash
    ensures s in HeadReach(st, HeadOf(st, c), depth).resourceSnaps <==> s != NoHash && RetainsSnapshot(st, c, s)
  {
    var head := HeadOf(st, c);
    if head in st.histories {
      RecordedInHistory(st.histories[head], s);
    } else {
      ChainFollows(st.gens, head);
      ListedOnChain(st, c, s);
    }
  }

  lemma RecordedInHistory(history: ServerHistory, s: Hash)
    ensures s in HistorySnapshots(history) <==> s != NoHash && InHistory(history, s)
  {
    if s != NoHash && InHistory(history, s) {
      var e, x :| e in history && x in e.snapshots && x.snapshotHash == s;
      assert s in RecordedSnapshots(e.snapshots);
    }
  }

  lemma ListedOnChain(st: State, c: ChannelName, s: Hash)
    requires c in st.channels && HeadOf(st, c) !in st.histories
    ensures s in ChainSnapshots(st.gens, Chain(st.gens, HeadOf(st, c))) <==>
            s != NoHash &&
            exists k: nat :: Retains(st, 0, c, k) && ListedBy(st.gens[AncestorOf(st, c, k)].resources, s)
  {
    var chain := Chain(st.gens, HeadOf(st, c));
    if s in ChainSnapshots(st.gens, chain) {
      var h :| h in chain && h in st.gens && s in ListedSnapshots(st.gens[h].resources);
      var k: nat :| k < |chain| && chain[k] == h;
      assert Retains(st, 0, c, k);
    }
    if k: nat :| s != NoHash && Retains(st, 0, c, k) && ListedBy(st.gens[AncestorOf(st, c, k)].resources, s) {
      assert s in ListedSnapshots(st.gens[chain[k]].resources);
    }
  }

  // ---- What a prune keeps --------------------------------------------------

  lemma LiveHeadMeans(st: State, h: Hash)
    ensures h in LiveHeads(st) <==> h != NoHash && exists c :: c in st.channels && HeadOf(st, c) == h
  {
  }

  /** Exactly the retained generations of some registered channel's chain stay,
      as they were. */
  lemma KeptGenerations(st: State, depth: nat, h: Hash)
    requires WellKeyed(st)
    ensures h in Pruned(st, depth).gens <==> exists c, k: nat :: RetainsGeneration(st, depth, c, k, h)
    ensures h in Pruned(st, depth).gens ==> Pruned(st, depth).gens[h] == st.gens[h]
  {
    PruneIsExact(st, depth);
    if h in Pruned(st, depth).gens {
      var head :| head in LiveHeads(st) && h in HeadReach(st, head, depth).generations;
      var c :| c in st.channels && HeadOf(st, c) != NoHash && HeadOf(st, c) == head;
      ReachedGenerations(st, depth, c, h);
    }
    if c, k: nat :| RetainsGeneration(st, depth, c, k, h) {
      ChainFollows(st.gens, HeadOf(st, c));
      ReachedGenerations(st, depth, c, h);
      ReachContains(st, HeadOf(st, c), depth);
    }
  }

  /** A stored release stays exactly when a retained generation of some
      registered channel's chain points at it. */
  lemma KeptReleases(st: State, depth: nat, r: Hash)
    requires WellKeyed(st) && r in st.releaseSnaps
    ensures r in Pruned(st, depth).releaseSnaps <==>
            r != NoHash && exists c, k: nat :: RetainsRelease(st, depth, c, k, r)
    ensures r in Pruned(st, depth).releaseSnaps ==> Pruned(st, depth).releaseSnaps[r] == st.releaseSnaps[r]
  {
    PruneIsExact(st, depth);
    if r in Pruned(st, depth).releaseSnaps {
      var head :| head in LiveHeads(st) && r in HeadReach(st, head, depth).releaseSnaps;
      var c :| c in st.channels && HeadOf(st, c) != NoHash && HeadOf(st, c) == head;
      ReachedReleases(st, depth, c, r);
    }
    if c, k: nat :| r != NoHash && RetainsRelease(st, depth, c, k, r) {
      ChainFollows(st.gens, HeadOf(st, c));
      ReachedReleases(st, depth, c, r);
      ReachContains(st, HeadOf(st, c), depth);
    }
  }

  /** A stored snapshot stays exactly when the history of some registered
      channel's head records it, or a head without a history has a generation
      in its chain that lists it. */
  lemma KeptSnapshots(st: State, depth: nat, s: Hash)
    requires WellKeyed(st) && s in st.resourceSnaps
    ensures s in Pruned(st, depth).resourceSnaps <==> s != NoHash && exists c :: RetainsSnapshot(st, c, s)
    ensures s in Pruned(st, depth).resourceSnaps ==> Pruned(st, depth).resourceSnaps[s] == st.resourceSnaps[s]
  {
    PruneIsExact(st, depth);
    if s in Pruned(st, depth).resourceSnaps {
      var head :| head in LiveHeads(st) && s in HeadReach(st, head, depth).resourceSnaps;
      var c :| c in st.channels && HeadOf(st, c) != NoHash && HeadOf(st, c) == head;
      ReachedSnapshots(st, depth, c, s);
    }
    if c :| s != NoHash && RetainsSnapshot(st, c, s) {
      ReachedSnapshots(st, depth, c, s);
      ReachContains(st, HeadOf(st, c), depth);
    }
  }

  ghost predicate NamesBlob(snaps: map<Hash, ResourceSnapshot>, s: Hash, b: BlobId) {
    s in snaps && exists e :: e in snaps[s].index && BlobOf(e) == b
  }

  lemma ReachedBlobs(st: State, depth: nat, head: Hash, b: BlobId)
    ensures b in HeadReach(st, head, depth).blobs <==>
            exists s :: s in HeadReach(st, head, depth).resourceSnaps && NamesBlob(st.resourceSnaps, s, b)
  {
    if s :| s in HeadReach(st, head, depth).resourceSnaps && NamesBlob(st.resourceSnaps, s, b) {
      assert b in SnapshotBlobs(st, s);
    }
  }

  lemma NamedStays(st: State, kept: State, r: Reach, heads: set<Hash>, s: Hash, b: BlobId)
    requires CutTo(st, kept, r, heads) && s in r.resourceSnaps && NamesBlob(st.resourceSnaps, s, b)
    ensures NamesBlob(kept.resourceSnaps, s, b)
  {
  }

  lemma BlobOfReached(st: State, depth: nat, b: BlobId) returns (s: Hash)
    requires b in Reachable(st, depth).blobs
    ensures s in Reachable(st, depth).resourceSnaps && NamesBlob(st.resourceSnaps, s, b)
  {
    var head :| head in LiveHeads(st) && b in HeadReach(st, head, depth).blobs;
    ReachedBlobs(st, depth, head, b);
    s :| s in HeadReach(st, head, depth).resourceSnaps && NamesBlob(st.resourceSnaps, s, b);
  }

  lemma KeptBlobIsNamed(st: State, depth: nat, b: BlobId)
    requires WellKeyed(st) && b in st.blobs && b in Reachable(st, depth).blobs
    ensures exists s :: NamesBlob(Pruned(st, depth).resourceSnaps, s, b)
  {
    PruneIsExact(st, depth);
    var s := BlobOfReached(st, depth, b);
    NamedStays(st, Pruned(st, depth), Reachable(st, depth), LiveHeads(st), s, b);
  }

  lemma NamedBlobIsReached(st: State, depth: nat, s: Hash, b: BlobId)
    requires WellKeyed(st) && NamesBlob(Pruned(st, depth).resourceSnaps, s, b)
    ensures b in Reachable(st, depth).blobs
  {
    PruneIsExact(st, depth);
    var head :| head in LiveHeads(st) && s in HeadReach(st, head, depth).resourceSnaps;
    assert NamesBlob(st.resourceSnaps, s, b);
    ReachedBlobs(st, depth, head, b);
    ReachContains(st, head, depth);
  }

  /** A stored blob stays exactly when the index of a snapshot that stays names it. */
  lemma KeptBlobs(st: State, depth: nat, b: BlobId)
    requires WellKeyed(st) && b in st.blobs
    ensures b in Pruned(st, depth).blobs <==> exists s :: NamesBlob(Pruned(st, depth).resourceSnaps, s, b)
  {
    PruneIsExact(st, depth);
    if b in Reachable(st, depth).blobs {
      KeptBlobIsNamed(st, depth, b);
    }
    if s :| NamesBlob(Pruned(st, depth).resourceSnaps, s, b) {
      NamedBlobIsReached(st, depth, s, b);
    }
  }

  /** A stored history stays exactly when its generation is the head of a
      registered channel; heads, reflogs and suppressions stay as they are. */
  lemma KeptHistories(st: State, depth: nat, h: Hash)
    requires WellKeyed(st)
    ensures var after := Pruned(st, depth);
            && (h in after.histories <==>
                  h in st.histories && exists c :: c in st.channels && HeadOf(st, c) == h)
            && (h in after.histories ==> after.histories[h] == st.histories[h])
            && after.channels == st.channels && after.heads == st.heads && after.reflogs == st.reflogs
            && after.suppressions == st.suppressions
  {
    PruneIsExact(st, depth);
    LiveHeadMeans(st, h);
  }

  // ---- Releases of heads along runs ----------------------------------------

  /** Some registered channel's head points at the release. */
  ghost predicate HeadRelease(st: State, r: Hash) {
    exists c :: c in st.channels && HeadOf(st, c) in st.gens && st.gens[HeadOf(st, c)].release == r
  }

  lemma HeadsRetainReleases(st: State, depth: nat, r: Hash)
    requires WellKeyed(st) && r != NoHash && HeadRelease(st, r)
    ensures exists c, k: nat :: RetainsRelease(st, depth, c, k, r)
  {
    var c :| c in st.channels && HeadOf(st, c) in st.gens && st.gens[HeadOf(st, c)].release == r;
    ChainFollows(st.gens, HeadOf(st, c));
    assert RetainsRelease(st, depth, c, 0, r);
  }

  lemma OnlyPruneDropsReleases(st: State, step: Step, r: Hash)
    requires !step.Prune? && r in st.releaseSnaps
    ensures r in Next(st, step).releaseSnaps && Next(st, step).releaseSnaps[r] == st.releaseSnaps[r]
  {
    match step
    case Promote(rq, h, now, subject) => PromotedTouches(st, rq, h, now, subject);
    case Commit(c, g, push, now) => CommittedTouches(st, c, g, push, now);
    case Register(_) =>
    case Push(_, _, _) =>
    case Revert(_, _, _) =>
    case AddSnapshot(_, _) =>
    case AddRelease(_, _) =>
    case AddBlob(_) =>
    case Suppress(_, _) =>
  }

  lemma StepKeepsRelease(st: State, step: Step, r: Hash)
    requires WellKeyed(st) && r in st.releaseSnaps && r != NoHash && HeadRelease(st, r)
    ensures r in Next(st, step).releaseSnaps && Next(st, step).releaseSnaps[r] == st.releaseSnaps[r]
  {
    if step.Prune? {
      PruneStep(st, step);
      HeadsRetainReleases(st, step.depth, r);
      KeptReleases(st, step.depth, r);
    } else {
      OnlyPruneDropsReleases(st, step, r);
    }
  }

  /** As long as some head points at a stored release, it stays stored as it
      is, whatever is pruned. */
  lemma {:induction false} ReleasesStay(states: seq<State>, steps: seq<Step>, i: nat, r: Hash)
    requires Run(states, steps) && Inv(states[0]) && i <= |steps|
    requires forall k: nat {:trigger HeadRelease(states[k], r)} :: k < i ==> HeadRelease(states[k], r)
    requires r in states[0].releaseSnaps && r != NoHash
    ensures r in states[i].releaseSnaps && states[i].releaseSnaps[r] == states[0].releaseSnaps[r]
  {
    if i > 0 {
      ReleasesStay(states, steps, i - 1, r);
      RunKeeps(states, steps, i - 1);
      assert HeadRelease(states[i - 1], r);
      NextKeepsRelease(states, steps, i - 1, r);
    }
  }

  lemma NextKeepsRelease(states: seq<State>, steps: seq<Step>, i: nat, r: Hash)
    requires Run(states, steps) && i < |steps| && WellKeyed(states[i])
    requires r in states[i].releaseSnaps && r != NoHash && HeadRelease(states[i], r)
    ensures r in states[i + 1].releaseSnaps && states[i + 1].releaseSnaps[r] == states[i].releaseSnaps[r]
  {
    assert StepAt(states, steps, i);
    StepKeepsRelease(states[i], steps[i], r);
  }

  // ---- No head points at a missing release ---------------------------------

  ghost predicate ReleaseStored(st: State, h: Hash) {
    h in st.gens ==> st.gens[h].release == NoHash || st.gens[h].release in st.releaseSnaps
  }

  /** Generations that still have their history point at stored releases. */
  ghost predicate ReleasesStored(st: State) {
    forall h {:trigger ReleaseStored(st, h)} :: h in st.histories ==> ReleaseStored(st, h)
  }

  /** A committed generation points at a stored release, or at none. */
  ghost predicate CommitsStoredRelease(st: State, step: Step) {
    step.Commit? ==> step.generation.release == NoHash || step.generation.release in st.releaseSnaps
  }

  lemma CreateKeepsReleases(st: State, g: Generation)
    requires Inv(st) && ReleasesStored(st) && g.hash !in st.lineage
    requires g.release == NoHash || g.release in st.releaseSnaps
    ensures ReleasesStored(Created(st, g))
  {
    assert g.hash !in st.gens;
    forall h | h in Created(st, g).histories
      ensures ReleaseStored(Created(st, g), h)
    {
      if h != g.hash {
        assert ReleaseStored(st, h);
      }
    }
  }

  lemma PruneKeepsReleases(st: State, depth: nat)
    requires Inv(st) && ReleasesStored(st)
    ensures ReleasesStored(Pruned(st, depth))
  {
    PruneIsExact(st, depth);
    forall h | h in Pruned(st, depth).histories
      ensures ReleaseStored(Pruned(st, depth), h)
    {
      KeptHistories(st, depth, h);
      assert ReleaseStored(st, h);
      var r := st.gens[h].release;
      if r != NoHash {
        assert HeadRelease(st, r);
        HeadsRetainReleases(st, depth, r);
        KeptReleases(st, depth, r);
      }
    }
  }

  lemma SameReleases(a: State, b: State)
    requires ReleasesStored(a)
    requires a.gens == b.gens && a.histories == b.histories && a.releaseSnaps.Keys <= b.releaseSnaps.Keys
    ensures ReleasesStored(b)
  {
    forall h | h in b.histories
      ensures ReleaseStored(b, h)
    {
      assert ReleaseStored(a, h);
    }
  }

  lemma CommitKeepsReleases(st: State, c: ChannelName, g: Generation, push: bool, now: string)
    requires Inv(st) && ReleasesStored(st) && g.hash !in st.lineage
    requires g.release == NoHash || g.release in st.releaseSnaps
    ensures ReleasesStored(Committed(st, c, g, push, now))
  {
    var registered := EnsuredChannel(st, c);
    RegisterKeeps(st, c);
    SameReleases(st, registered);
    CreateKeepsReleases(registered, g);
    SameReleases(Created(registered, g), Committed(st, c, g, push, now));
  }

  lemma PushKeepsReleases(st: State, g: Generation, c: ChannelName, now: string)
    requires Inv(st) && ReleasesStored(st) && g.hash !in st.lineage
    requires g.release == NoHash || g.release in st.releaseSnaps
    ensures ReleasesStored(CreatedAndPushed(st, g, c, now))
  {
    CreateKeepsReleases(st, g);
    SameReleases(Created(st, g), CreatedAndPushed(st, g, c, now));
  }

  lemma PromoteKeepsReleases(st: State, rq: Request, h: Hash, now: string, subject: string)
    requires Inv(st) && ReleasesStored(st) && h !in st.lineage
    ensures ReleasesStored(Promoted(st, rq, h, now, subject))
  {
    if Refusal(st, rq).None? && AdmittedBy(st, rq) != [] {
      var t := HeadOf(st, rq.target);
      assert ReleaseStored(st, t) by {
        assert t == NoHash || t in st.histories;
      }
      PushKeepsReleases(st, PromotedGeneration(st, rq, h, now, subject), rq.target, now);
    }
  }

  ghost predicate SameGenerations(st: State, st': State) {
    st'.gens == st.gens && st'.histories == st.histories && st.releaseSnaps.Keys <= st'.releaseSnaps.Keys
  }

  /** Any other step leaves generations and histories alone, and drops no release. */
  lemma PlainStep(st: State, step: Step)
    requires !step.Commit? && !step.Promote? && !step.Prune?
    ensures SameGenerations(st, Next(st, step))
  {
    match step
    case Register(c) => assert SameGenerations(st, EnsuredChannel(st, c));
    case Push(c, target, now) => assert SameGenerations(st, Pushed(st, c, target, now));
    case Revert(c, target, now) => assert SameGenerations(st, Reverted(st, c, target, now));
    case AddSnapshot(_, _) =>
    case AddRelease(_, _) =>
    case AddBlob(_) =>
    case Suppress(_, _) =>
  }

  lemma StepKeepsReleases(st: State, step: Step)
    requires Inv(st) && Allowed(st, step) && ReleasesStored(st) && CommitsStoredRelease(st, step)
    ensures ReleasesStored(Next(st, step))
  {
    if step.Commit? {
      CommitKeepsReleases(st, step.channel, step.generation, step.push, step.now);
    } else if step.Promote? {
      PromoteKeepsReleases(st, step.request, step.hash, step.now, step.subject);
    } else if step.Prune? {
      PruneStep(st, step);
      PruneKeepsReleases(st, step.depth);
    } else {
      PlainStep(st, step);
      SameReleases(st, Next(st, step));
    }
  }

  ghost predicate CommitsStoredAt(states: seq<State>, steps: seq<Step>, k: nat)
    requires |states| == |steps| + 1 && k < |steps|
  {
    CommitsStoredRelease(states[k], steps[k])
  }

  /** Along every run from an empty store whose commits point at stored
      releases, no head points at a missing one, whatever is pruned. */
  lemma {:induction false} HeadReleasesStored(states: seq<State>, steps: seq<Step>, i: nat)
    requires Run(states, steps) && states[0] == EMPTY && i <= |steps|
    requires forall k: nat {:trigger CommitsStoredAt(states, steps, k)} :: k < i ==> CommitsStoredAt(states, steps, k)
    ensures ReleasesStored(states[i])
    ensures forall c :: c in states[i].heads ==> ReleaseStored(states[i], states[i].heads[c])
  {
    EmptyInv();
    if i > 0 {
      HeadReleasesStored(states, steps, i - 1);
      RunKeeps(states, steps, i - 1);
      assert StepAt(states, steps, i - 1) && CommitsStoredAt(states, steps, i - 1);
      StepKeepsReleases(states[i - 1], steps[i - 1]);
    }
    RunKeeps(states, steps, i);
    forall c | c in states[i].heads
      ensures ReleaseStored(states[i], states[i].heads[c])
    {
      assert states[i].heads[c] == NoHash || states[i].heads[c] in states[i].histories;
    }
  }
}
