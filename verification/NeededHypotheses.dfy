/** What goes wrong without two hypotheses of the runs, exactly. */
module NeededHypotheses {
  // Heads are pushed to registered channels, and moved only to generations
  // that still have their history. The code checks neither.

  import opened StoreTypes
  import opened History
  import opened ReleaseStore
  import opened Reachability
  import opened StoreRuns
  import opened VerifiedRuns

  // ---- Moving a head changes reach through the head only -------------------

  ghost predicate SameContent(a: State, b: State) {
    a.gens == b.gens && a.histories == b.histories && a.resourceSnaps == b.resourceSnaps
  }

  lemma SameBlobs(a: State, b: State, snaps: set<Hash>)
    requires SameContent(a, b)
    ensures BlobsOf(a, snaps) == BlobsOf(b, snaps)
  {
    assert forall snap :: SnapshotBlobs(a, snap) == SnapshotBlobs(b, snap);
  }

  lemma SameHeadReach(a: State, b: State, head: Hash, depth: nat)
    requires SameContent(a, b)
    ensures HeadReach(a, head, depth) == HeadReach(b, head, depth)
  {
    if head in a.histories {
      SameBlobs(a, b, HistorySnapshots(a.histories[head]));
    } else {
      SameBlobs(a, b, ChainSnapshots(a.gens, Chain(a.gens, head)));
    }
  }

  // ---- A head whose channel is not registered ------------------------------

  /** Pushing to an unregistered channel protects nothing: a prune deletes what
      it would have deleted without the push. */
  lemma UnregisteredHeadProtectsNothing(st: State, c: ChannelName, target: Hash, now: string, depth: nat)
    requires c !in st.channels
    ensures Reachable(Pushed(st, c, target, now), depth) == Reachable(st, depth)
    ensures var after := Pushed(st, c, target, now);
            Pruned(after, depth) == Pruned(st, depth).(heads := after.heads, reflogs := after.reflogs)
  {
    var after := Pushed(st, c, target, now);
    assert forall d :: d in st.channels ==> HeadOf(after, d) == HeadOf(st, d);
    SameHeadsSameReach(after, st, depth);
    assert Deletions(after, depth) == Deletions(st, depth);
  }

  lemma SameHeadsSameReach(a: State, b: State, depth: nat)
    requires SameContent(a, b) && LiveHeads(a) == LiveHeads(b)
    ensures Reachable(a, depth) == Reachable(b, depth)
  {
    forall h
      ensures HeadReach(a, h, depth) == HeadReach(b, h, depth)
    {
      SameHeadReach(a, b, h, depth);
    }
  }

  /** So its head dangles after a prune exactly when no registered channel
      keeps the generation. */
  lemma UnregisteredHeadDanglesIff(st: State, c: ChannelName, target: Hash, now: string, depth: nat)
    requires WellKeyed(st) && c !in st.channels && target in st.gens
    ensures var after := Pruned(Pushed(st, c, target, now), depth);
            HeadOf(after, c) !in after.gens <==> target !in Reachable(st, depth).generations
  {
    UnregisteredHeadProtectsNothing(st, c, target, now, depth);
    PruneIsExact(st, depth);
  }

  // ---- A head whose history was stripped -----------------------------------

  /** A channel's head reaches a snapshot. */
  ghost predicate ReachesVia(st: State, d: ChannelName, depth: nat, snap: Hash) {
    d in st.channels && HeadOf(st, d) != NoHash && snap in HeadReach(st, HeadOf(st, d), depth).resourceSnaps
  }

  ghost predicate OtherHeadReaches(st: State, c: ChannelName, depth: nat, snap: Hash) {
    exists d :: d != c && ReachesVia(st, d, depth, snap)
  }

  ghost predicate LoadableLists(st: State, target: Hash, snap: Hash) {
    snap in ChainSnapshots(st.gens, Chain(st.gens, target))
  }

  lemma ReachedVia(st: State, depth: nat, snap: Hash)
    ensures snap in Reachable(st, depth).resourceSnaps <==> exists d :: ReachesVia(st, d, depth, snap)
  {
    if snap in Reachable(st, depth).resourceSnaps {
      var h :| h in LiveHeads(st) && snap in HeadReach(st, h, depth).resourceSnaps;
      var d :| d in st.channels && HeadOf(st, d) != NoHash && HeadOf(st, d) == h;
      assert ReachesVia(st, d, depth, snap);
    }
    if d :| ReachesVia(st, d, depth, snap) {
      assert HeadOf(st, d) in LiveHeads(st);
    }
  }

  lemma OthersUnmoved(st: State, c: ChannelName, target: Hash, now: string, d: ChannelName, depth: nat, snap: Hash)
    requires d != c
    ensures ReachesVia(Reverted(st, c, target, now), d, depth, snap) <==> ReachesVia(st, d, depth, snap)
  {
    SameHeadReach(Reverted(st, c, target, now), st, HeadOf(st, d), depth);
  }

  /** A moved head reaches what its generation reaches; the others are as they were. */
  lemma ReachedAfterMove(st: State, c: ChannelName, target: Hash, now: string, depth: nat, snap: Hash)
    requires c in st.channels && target != NoHash
    ensures snap in Reachable(Reverted(st, c, target, now), depth).resourceSnaps <==>
            snap in HeadReach(st, target, depth).resourceSnaps || OtherHeadReaches(st, c, depth, snap)
  {
    var after := Reverted(st, c, target, now);
    ReachedVia(after, depth, snap);
    SameHeadReach(after, st, target, depth);
    assert ReachesVia(after, c, depth, snap) <==> snap in HeadReach(st, target, depth).resourceSnaps;
    forall d | d != c
      ensures ReachesVia(after, d, depth, snap) <==> ReachesVia(st, d, depth, snap)
    {
      OthersUnmoved(st, c, target, now, d, depth, snap);
    }
  }

  /** After a revert to a stored generation without a history, a prune keeps a
      snapshot exactly when the generations that can still be loaded list it, or
      another head reaches it; what only the pruned ancestors listed is lost. */
  lemma StrippedHeadKeepsIff(st: State, c: ChannelName, target: Hash, now: string, depth: nat, snap: Hash)
    requires WellKeyed(st) && c in st.channels && target in st.gens && target !in st.histories
    requires snap in st.resourceSnaps
    ensures snap in Pruned(Reverted(st, c, target, now), depth).resourceSnaps <==>
            LoadableLists(st, target, snap) || OtherHeadReaches(st, c, depth, snap)
  {
    ReachedAfterMove(st, c, target, now, depth, snap);
    KeptIffReached(Reverted(st, c, target, now), depth, snap);
  }

  lemma KeptIffReached(st: State, depth: nat, snap: Hash)
    requires WellKeyed(st) && snap in st.resourceSnaps
    ensures snap in Pruned(st, depth).resourceSnaps <==> snap in Reachable(st, depth).resourceSnaps
  {
    PruneIsExact(st, depth);
  }

  // ---- Committing on such a head -------------------------------------------

  lemma ParentInChain(gens: map<Hash, Generation>, head: Hash, depth: nat)
    requires head in gens && head != NoHash && depth >= 1
    requires var p := gens[head].meta.parent; p in gens && p != NoHash && p != head
    ensures gens[head].meta.parent in Elements(Prefix(Chain(gens, head), depth + 1))
  {
    var p := gens[head].meta.parent;
    var walk := WalkFrom(gens, p, {head});
    WalkDistinct(gens, p, {head});
    var none: set<Hash> := {};
    assert none + {head} == {head};
    assert Chain(gens, head) == [head] + walk;
    assert Prefix(Chain(gens, head), depth + 1)[1] == p;
  }

  /** A prune keeps the parent of a head, when the depth allows, but strips its
      history, unless it is a head itself. */
  lemma ParentIsStripped(st: State, c: ChannelName, depth: nat)
    requires Inv(st) && c in st.channels && HeadOf(st, c) in st.gens && depth >= 1
    requires var p := st.gens[HeadOf(st, c)].meta.parent; p in st.gens && p !in LiveHeads(st)
    ensures st.gens[HeadOf(st, c)].meta.parent in Pruned(st, depth).gens
    ensures st.gens[HeadOf(st, c)].meta.parent !in Pruned(st, depth).histories
  {
    var head := HeadOf(st, c);
    var p := st.gens[head].meta.parent;
    assert c in st.heads && head in st.histories && head in LiveHeads(st);
    ParentInChain(st.gens, head, depth);
    ReachContains(st, head, depth);
    PruneIsExact(st, depth);
  }

  /** A generation's history describes the generation and all its ancestors. */
  ghost predicate DescribedAt(st: State, h: Hash) {
    h in st.histories && h in st.lineage && Describes(st.histories[h], st.lineage[h])
  }

  /** Committing on a head that has no history leaves the store's invariant
      as soon as an ancestor listed a server. */
  lemma CommitForgets(st: State, c: ChannelName, g: Generation, now: string)
    requires Inv(st) && g.hash !in st.lineage && DistinctServers(g.resources)
    requires g.meta.parent in st.gens && g.meta.parent !in st.histories
    ensures var after := Committed(Reverted(st, c, g.meta.parent, now), c, g, true, now);
            DescribedAt(after, g.hash) <==> ListsNothing(st.lineage[g.meta.parent])
  {
    var reverted := EnsuredChannel(Reverted(st, c, g.meta.parent, now), c);
    assert g.hash !in st.gens;
    DescribesIffParentHistory(reverted, g);
  }

  /** Prune, revert to the parent of the head, commit: the new generation's
      history describes its ancestors exactly when they listed nothing. */
  lemma CommitOnStripped(st: State, c: ChannelName, depth: nat, g: Generation, now: string)
    requires Inv(st) && c in st.channels && HeadOf(st, c) in st.gens && depth >= 1
    requires var p := st.gens[HeadOf(st, c)].meta.parent; p in st.gens && p !in LiveHeads(st) && g.meta.parent == p
    requires g.hash !in st.lineage && DistinctServers(g.resources)
    ensures var after := Committed(Reverted(Pruned(st, depth), c, g.meta.parent, now), c, g, true, now);
            DescribedAt(after, g.hash) <==> ListsNothing(st.lineage[g.meta.parent])
  {
    PruneKeeps(st, depth);
    PruneIsExact(st, depth);
    ParentIsStripped(st, c, depth);
    CommitForgets(Pruned(st, depth), c, g, now);
  }

  // ---- A run that gets there -----------------------------------------------

  lemma PushedCommit(st: State, c: ChannelName, g: Generation, now: string)
    requires g.hash !in st.gens
    ensures var after := Committed(st, c, g, true, now);
            && HeadOf(after, c) == g.hash && c in after.channels
            && (forall d :: d in after.channels ==> d == c || d in st.channels)
            && after.gens == st.gens[g.hash := g] && after.resourceSnaps == st.resourceSnaps
            && after.lineage == st.lineage[g.hash := [g] + LineageOf(st, g.meta.parent)]
  {
  }

  const SNAP := Digest("s")
  const CONTENT := ResourceSnapshot(SnapshotMetadata("a", "1", "1", "", "", "", map[]), [])
  const LISTED := [ResourceEntry("a", SNAP)]
  const FIRST := Generation(Digest("1"), GenerationMetadata(NoHash, "testing", "t1", ""), [], LISTED, NoHash)
  const SECOND := Generation(Digest("2"), GenerationMetadata(Digest("1"), "testing", "t2", ""), [], LISTED, NoHash)
  const THIRD := Generation(Digest("3"), GenerationMetadata(Digest("1"), "testing", "t3", ""), [], LISTED, NoHash)

  const STEPS := [AddSnapshot(SNAP, CONTENT), Commit("testing", FIRST, true, "t1"),
                  Commit("testing", SECOND, true, "t2")]

  const STORED := Next(EMPTY, STEPS[0])
  const ONE := Next(STORED, STEPS[1])
  const TWO := Next(ONE, STEPS[2])

  /** One generation, the head of the only channel. */
  ghost predicate FirstOnly(st: State) {
    && st.gens == map[FIRST.hash := FIRST] && st.lineage == map[FIRST.hash := [FIRST]]
    && HeadOf(st, "testing") == FIRST.hash && SNAP in st.resourceSnaps
    && forall d :: d in st.channels ==> d == "testing"
  }

  /** And a second one on top of it. */
  ghost predicate SecondOnFirst(st: State) {
    && FIRST.hash in st.gens && SECOND.hash in st.gens && st.gens[SECOND.hash] == SECOND
    && st.lineage == map[FIRST.hash := [FIRST], SECOND.hash := [SECOND, FIRST]]
    && HeadOf(st, "testing") == SECOND.hash && "testing" in st.channels
    && forall d :: d in st.channels ==> d == "testing"
  }

  lemma OneGeneration()
    ensures Allowed(EMPTY, STEPS[0]) && Allowed(STORED, STEPS[1]) && FirstOnly(ONE)
  {
    PushedCommit(STORED, "testing", FIRST, "t1");
    assert LineageOf(STORED, NoHash) == [] && [FIRST] + [] == [FIRST];
  }

  lemma SecondCommit(st: State)
    requires FirstOnly(st)
    ensures Allowed(st, STEPS[2]) && SecondOnFirst(Next(st, STEPS[2]))
  {
    var step := Commit("testing", SECOND, true, "t2");
    assert STEPS[2] == step && Next(st, step) == Committed(st, "testing", SECOND, true, "t2");
    PushedCommit(st, "testing", SECOND, "t2");
    assert LineageOf(st, FIRST.hash) == [FIRST] && [SECOND] + [FIRST] == [SECOND, FIRST];
  }

  lemma ThirdForgets(st: State)
    requires Inv(st) && SecondOnFirst(st)
    ensures !DescribedAt(Committed(Reverted(Pruned(st, 1), "testing", FIRST.hash, "t3"), "testing", THIRD, true, "t3"),
                         THIRD.hash)
  {
    assert FIRST.hash !in LiveHeads(st);
    CommitOnStripped(st, "testing", 1, THIRD, "t3");
    assert ResourceOf(st.lineage[FIRST.hash][0].resources, "a") != None;
  }

  /** Two commits, a prune, a revert to the first and a third commit: the head
      is then a generation whose history has forgotten its parent. */
  lemma ForgetfulRun()
    ensures Allowed(EMPTY, STEPS[0]) && Allowed(STORED, STEPS[1]) && Allowed(ONE, STEPS[2])
    ensures var after := Committed(Reverted(Pruned(TWO, 1), "testing", FIRST.hash, "t3"), "testing", THIRD, true, "t3");
            HeadOf(after, "testing") == THIRD.hash && !DescribedAt(after, THIRD.hash)
  {
    OneGeneration();
    SecondCommit(ONE);
    EmptyInv();
    StepKeeps(EMPTY, STEPS[0]);
    StepKeeps(STORED, STEPS[1]);
    StepKeeps(ONE, STEPS[2]);
    ThirdForgets(TWO);
  }
}
