/** Garbage collection as it runs: sets filled by loops, entries deleted in place. */
module GarbageCollection {
  import opened StoreTypes
  import opened ReleaseStore
  import opened Reachability

  class ReachabilitySet {
    var generations: set<Hash>
    var resourceSnaps: set<Hash>
    var releaseSnaps: set<Hash>
    var blobs: set<BlobId>

    constructor ()
      ensures View() == NOTHING
    {
      generations, resourceSnaps, releaseSnaps, blobs := {}, {}, {}, {};
    }

    ghost function View(): Reach
      reads this
    {
      Reach(generations, resourceSnaps, releaseSnaps, blobs)
    }
  }

  /** One more head adds its own reach. */
  lemma ReachOfOneMore(st: State, heads: set<Hash>, h: Hash, depth: nat)
    ensures ReachOfHeads(st, heads + {h}, depth) == Join(ReachOfHeads(st, heads, depth), HeadReach(st, h, depth))
  {
    var one := HeadReach(st, h, depth);
    var before, after := ReachOfHeads(st, heads, depth), ReachOfHeads(st, heads + {h}, depth);
    forall x
      ensures x in after.generations <==> x in before.generations || x in one.generations
      ensures x in after.resourceSnaps <==> x in before.resourceSnaps || x in one.resourceSnaps
      ensures x in after.releaseSnaps <==> x in before.releaseSnaps || x in one.releaseSnaps
    {
    }
    forall b
      ensures b in after.blobs <==> b in before.blobs || b in one.blobs
    {
    }
    assert after == Join(before, one);
  }

  lemma JoinAssociative(a: Reach, b: Reach, c: Reach)
    ensures Join(Join(a, b), c) == Join(a, Join(b, c))
  {
    assert Join(Join(a, b), c).generations == Join(a, Join(b, c)).generations;
    assert Join(Join(a, b), c).resourceSnaps == Join(a, Join(b, c)).resourceSnaps;
    assert Join(Join(a, b), c).releaseSnaps == Join(a, Join(b, c)).releaseSnaps;
    assert Join(Join(a, b), c).blobs == Join(a, Join(b, c)).blobs;
  }

  lemma HeadsOfOneMore(st: State, before: seq<ChannelName>, c: ChannelName)
    ensures HeadsOf(st, before + [c]) == HeadsOf(st, before) + if HeadOf(st, c) == NoHash then {} else {HeadOf(st, c)}
  {
    var after := before + [c];
    assert c in after;
    assert forall d :: d in before ==> d in after;
  }

  lemma ReleasesOneMore(gens: map<Hash, Generation>, before: seq<Hash>, h: Hash)
    ensures ReleasesOf(gens, before + [h]) == ReleasesOf(gens, before) + ReleasesOf(gens, [h])
    ensures Elements(before + [h]) == Elements(before) + {h}
  {
  }

  ghost function GenerationReach(st: State, h: Hash): Reach
    requires h in st.gens
  {
    var listed := ListedSnapshots(st.gens[h].resources);
    Reach({h}, listed, ReleasesOf(st.gens, [h]), BlobsOf(st, listed))
  }

  /** One more generation adds its own part of a full chain. */
  lemma ChainReachOneMore(st: State, before: seq<Hash>, h: Hash)
    requires h in st.gens
    ensures ChainReach(st, before + [h]) == Join(ChainReach(st, before), GenerationReach(st, h))
  {
    var a, b := ChainSnapshots(st.gens, before + [h]), ChainSnapshots(st.gens, before);
    assert a == b + ListedSnapshots(st.gens[h].resources);
    ReleasesOneMore(st.gens, before, h);
  }

  lemma JoinNothing(st: State, r: Reach)
    ensures Join(r, ChainReach(st, [])) == r
  {
    assert ChainReach(st, []) == NOTHING;
    assert Join(r, NOTHING) == r;
  }

  lemma FullChainStep(st: State, start: Reach, before: seq<Hash>, h: Hash)
    requires h in st.gens
    ensures Join(Join(start, ChainReach(st, before)), GenerationReach(st, h)) ==
            Join(start, ChainReach(st, before + [h]))
  {
    ChainReachOneMore(st, before, h);
    JoinAssociative(start, ChainReach(st, before), GenerationReach(st, h));
  }

  class GarbageCollector {
    const store: Store
    const retentionDepth: nat

    constructor (store: Store, retentionDepth: int)
      ensures this.store == store
      ensures this.retentionDepth == if retentionDepth < 0 then 0 else retentionDepth
    {
      this.store := store;
      this.retentionDepth := if retentionDepth < 0 then 0 else retentionDepth;
    }

    /** The generations yielded before the walk ends; a generation that cannot
        be loaded ends it, as both callers swallow that error. */
    method WalkParentChain(start: Hash) returns (chain: seq<Hash>)
      ensures chain == Chain(store.gens, start)
    {
      chain := [];
      var visited: set<Hash> := {};
      var current := start;
      while current != NoHash && current !in visited
        invariant chain + WalkFrom(store.gens, current, visited) == Chain(store.gens, start)
        decreases store.gens.Keys - visited
      {
        var g := store.Load(current);
        if g.None? {
          return;
        }
        chain := chain + [current];
        visited := visited + {current};
        current := g.value.meta.parent;
      }
    }

    method CollectResourceBlobs(snap: Hash, reachable: ReachabilitySet)
      modifies reachable`blobs
      ensures reachable.blobs == old(reachable.blobs) + SnapshotBlobs(store.View(), snap)
    {
      if snap !in store.resourceSnaps {
        return;
      }
      var index := store.resourceSnaps[snap].index;
      for i := 0 to |index|
        invariant reachable.blobs == old(reachable.blobs) + IndexBlobs(index[..i])
      {
        assert index[..i + 1] == index[..i] + [index[i]];
        reachable.blobs := reachable.blobs + {BlobOf(index[i])};
      }
      assert index[..|index|] == index;
    }

    method CollectSnapshot(snap: Hash, reachable: ReachabilitySet)
      modifies reachable`resourceSnaps, reachable`blobs
      ensures reachable.resourceSnaps == old(reachable.resourceSnaps) + if snap == NoHash then {} else {snap}
      ensures reachable.blobs == old(reachable.blobs) + BlobsOf(store.View(), if snap == NoHash then {} else {snap})
    {
      if snap == NoHash {
        return;
      }
      reachable.resourceSnaps := reachable.resourceSnaps + {snap};
      CollectResourceBlobs(snap, reachable);
    }

    method CollectRetainedGenerations(head: Hash, reachable: ReachabilitySet)
      modifies reachable`generations, reachable`releaseSnaps
      ensures var kept := Prefix(Chain(store.gens, head), retentionDepth + 1);
              && reachable.generations == old(reachable.generations) + Elements(kept)
              && reachable.releaseSnaps == old(reachable.releaseSnaps) + ReleasesOf(store.gens, kept)
    {
      var chain := WalkParentChain(head);
      WalkDistinct(store.gens, head, {});
      RetainAll(Prefix(chain, retentionDepth + 1), reachable);
    }

    method RetainAll(kept: seq<Hash>, reachable: ReachabilitySet)
      requires forall k :: 0 <= k < |kept| ==> kept[k] in store.gens
      modifies reachable`generations, reachable`releaseSnaps
      ensures reachable.generations == old(reachable.generations) + Elements(kept)
      ensures reachable.releaseSnaps == old(reachable.releaseSnaps) + ReleasesOf(store.gens, kept)
    {
      for i := 0 to |kept|
        invariant reachable.generations == old(reachable.generations) + Elements(kept[..i])
        invariant reachable.releaseSnaps == old(reachable.releaseSnaps) + ReleasesOf(store.gens, kept[..i])
      {
        assert kept[..i + 1] == kept[..i] + [kept[i]];
        ReleasesOneMore(store.gens, kept[..i], kept[i]);
        RetainGeneration(kept[i], reachable);
      }
      assert kept[..|kept|] == kept;
    }

    method RetainGeneration(h: Hash, reachable: ReachabilitySet)
      requires h in store.gens
      modifies reachable`generations, reachable`releaseSnaps
      ensures reachable.generations == old(reachable.generations) + {h}
      ensures reachable.releaseSnaps == old(reachable.releaseSnaps) + ReleasesOf(store.gens, [h])
    {
      reachable.generations := reachable.generations + {h};
      if store.gens[h].release != NoHash {
        reachable.releaseSnaps := reachable.releaseSnaps + {store.gens[h].release};
      }
    }

    method CollectListed(resources: seq<ResourceEntry>, reachable: ReachabilitySet)
      modifies reachable`resourceSnaps, reachable`blobs
      ensures reachable.resourceSnaps == old(reachable.resourceSnaps) + ListedSnapshots(resources)
      ensures reachable.blobs == old(reachable.blobs) + BlobsOf(store.View(), ListedSnapshots(resources))
    {
      for i := 0 to |resources|
        invariant reachable.resourceSnaps == old(reachable.resourceSnaps) + ListedSnapshots(resources[..i])
        invariant reachable.blobs == old(reachable.blobs) + BlobsOf(store.View(), ListedSnapshots(resources[..i]))
      {
        var snap := resources[i].snapshotHash;
        assert resources[..i + 1] == resources[..i] + [resources[i]];
        CollectSnapshot(snap, reachable);
      }
      assert resources[..|resources|] == resources;
    }

    method CollectGeneration(h: Hash, reachable: ReachabilitySet)
      requires h in store.gens
      modifies reachable
      ensures reachable.View() == Join(old(reachable.View()), GenerationReach(store.View(), h))
    {
      RetainGeneration(h, reachable);
      CollectListed(store.gens[h].resources, reachable);
    }

    method CollectFullChain(head: Hash, reachable: ReachabilitySet)
      modifies reachable
      ensures reachable.View() == Join(old(reachable.View()), FullChainReach(store.View(), head))
    {
      var chain := WalkParentChain(head);
      WalkDistinct(store.gens, head, {});
      CollectChain(chain, reachable);
    }

    method CollectChain(chain: seq<Hash>, reachable: ReachabilitySet)
      requires forall k :: 0 <= k < |chain| ==> chain[k] in store.gens
      modifies reachable
      ensures reachable.View() == Join(old(reachable.View()), ChainReach(store.View(), chain))
    {
      ghost var start := reachable.View();
      JoinNothing(store.View(), start);
      for i := 0 to |chain|
        invariant reachable.View() == Join(start, ChainReach(store.View(), chain[..i]))
      {
        CollectNext(chain[i], reachable, start, chain[..i]);
        assert chain[..i + 1] == chain[..i] + [chain[i]];
      }
      assert chain[..|chain|] == chain;
    }

    method CollectNext(h: Hash, reachable: ReachabilitySet, ghost start: Reach, ghost before: seq<Hash>)
      requires h in store.gens && reachable.View() == Join(start, ChainReach(store.View(), before))
      modifies reachable
      ensures reachable.View() == Join(start, ChainReach(store.View(), before + [h]))
    {
      CollectGeneration(h, reachable);
      FullChainStep(store.View(), start, before, h);
    }

    method CollectServer(snapshots: seq<Snapshot>, reachable: ReachabilitySet)
      modifies reachable`resourceSnaps, reachable`blobs
      ensures reachable.resourceSnaps == old(reachable.resourceSnaps) + RecordedSnapshots(snapshots)
      ensures reachable.blobs == old(reachable.blobs) + BlobsOf(store.View(), RecordedSnapshots(snapshots))
    {
      for i := 0 to |snapshots|
        invariant reachable.resourceSnaps == old(reachable.resourceSnaps) + RecordedSnapshots(snapshots[..i])
        invariant reachable.blobs == old(reachable.blobs) + BlobsOf(store.View(), RecordedSnapshots(snapshots[..i]))
      {
        var snap := snapshots[i].snapshotHash;
        assert snapshots[..i + 1] == snapshots[..i] + [snapshots[i]];
        CollectSnapshot(snap, reachable);
      }
      assert snapshots[..|snapshots|] == snapshots;
    }

    method CollectHistory(history: ServerHistory, reachable: ReachabilitySet)
      modifies reachable`resourceSnaps, reachable`blobs
      ensures reachable.resourceSnaps == old(reachable.resourceSnaps) + HistorySnapshots(history)
      ensures reachable.blobs == old(reachable.blobs) + BlobsOf(store.View(), HistorySnapshots(history))
    {
      for i := 0 to |history|
        invariant reachable.resourceSnaps == old(reachable.resourceSnaps) + HistorySnapshots(history[..i])
        invariant reachable.blobs == old(reachable.blobs) + BlobsOf(store.View(), HistorySnapshots(history[..i]))
      {
        assert history[..i + 1] == history[..i] + [history[i]];
        CollectServer(history[i].snapshots, reachable);
      }
      assert history[..|history|] == history;
    }

    method CollectForHead(head: Hash, reachable: ReachabilitySet)
      modifies reachable
      ensures reachable.View() == Join(old(reachable.View()), HeadReach(store.View(), head, retentionDepth))
    {
      if head !in store.histories {
        CollectFullChain(head, reachable);
      } else {
        CollectHistory(store.histories[head], reachable);
        CollectRetainedGenerations(head, reachable);
      }
    }

    method CollectReachable() returns (reachable: ReachabilitySet)
      ensures fresh(reachable)
      ensures reachable.View() == Reachable(store.View(), retentionDepth)
    {
      reachable := new ReachabilitySet();
      ghost var st := store.View();
      var channels := store.channels;
      for i := 0 to |channels|
        invariant store.View() == st
        invariant reachable.View() == ReachOfHeads(st, HeadsOf(st, channels[..i]), retentionDepth)
      {
        assert channels[..i + 1] == channels[..i] + [channels[i]];
        HeadsOfOneMore(store.View(), channels[..i], channels[i]);
        var head := store.GetHead(channels[i]);
        if head.Some? && head.value != NoHash {
          ReachOfOneMore(st, HeadsOf(st, channels[..i]), head.value, retentionDepth);
          CollectForHead(head.value, reachable);
        }
      }
      assert channels[..|channels|] == channels;
    }

    method HeadHashes() returns (heads: set<Hash>)
      ensures heads == LiveHeads(store.View())
    {
      heads := {};
      var channels := store.channels;
      for i := 0 to |channels|
        invariant heads == HeadsOf(store.View(), channels[..i])
      {
        assert channels[..i + 1] == channels[..i] + [channels[i]];
        HeadsOfOneMore(store.View(), channels[..i], channels[i]);
        var head := store.GetHead(channels[i]);
        if head.Some? && head.value != NoHash {
          heads := heads + {head.value};
        }
      }
      assert channels[..|channels|] == channels;
    }

    /** Deletes what is not reachable from the live heads and strips the
        histories of the other retained generations. A dry run names the same
        entities and changes nothing. */
    method Prune(dryRun: bool) returns (deleted: Deleted)
      requires store.Valid()
      modifies store
      ensures store.Valid()
      ensures deleted == Deletions(old(store.View()), retentionDepth)
      ensures store.View() == if dryRun then old(store.View()) else Pruned(old(store.View()), retentionDepth)
    {
      ghost var st := store.View();
      var reachable := CollectReachable();
      var heads := HeadHashes();
      deleted := PruneTo(reachable.View(), reachable.generations, reachable.resourceSnaps,
                         reachable.releaseSnaps, reachable.blobs, heads, dryRun);
      PruneIsExact(st, retentionDepth);
    }

    method PruneTo(
      ghost r: Reach, keptGens: set<Hash>, keptSnaps: set<Hash>, keptReleases: set<Hash>,
      keptBlobs: set<BlobId>, heads: set<Hash>, dryRun: bool)
      returns (deleted: Deleted)
      requires r == Reach(keptGens, keptSnaps, keptReleases, keptBlobs)
      requires store.Valid()
      modifies store
      ensures deleted == DeletionsFor(old(store.View()), r, heads)
      ensures store.View() == if dryRun then old(store.View()) else Without(old(store.View()), deleted)
    {
      var gens := PruneGenerations(keptGens, dryRun);
      var snaps := PruneResourceSnapshots(keptSnaps, dryRun);
      var releases := PruneReleaseSnapshots(keptReleases, dryRun);
      var blobs := PruneBlobs(keptBlobs, dryRun);
      var stripped := StripNonheadHistory(heads, keptGens, dryRun);
      deleted := Deleted(gens, snaps, releases, blobs, stripped);
    }

    method PruneGenerations(keep: set<Hash>, dryRun: bool) returns (deleted: set<Hash>)
      modifies store`gens, store`histories
      ensures deleted == old(store.gens).Keys - keep
      ensures store.gens == if dryRun then old(store.gens) else old(store.gens) - deleted
      ensures store.histories == if dryRun then old(store.histories) else old(store.histories) - deleted
    {
      deleted := {};
      var left := store.gens.Keys;
      while left != {}
        invariant left <= old(store.gens).Keys
        invariant deleted == (old(store.gens).Keys - left) - keep
        invariant store.gens == if dryRun then old(store.gens) else old(store.gens) - deleted
        invariant store.histories == if dryRun then old(store.histories) else old(store.histories) - deleted
        decreases left
      {
        var h :| h in left;
        left := left - {h};
        if h !in keep {
          deleted := deleted + {h};
          if !dryRun {
            store.gens := store.gens - {h};
            store.histories := store.histories - {h};
          }
        }
      }
    }

    method PruneResourceSnapshots(keep: set<Hash>, dryRun: bool) returns (deleted: set<Hash>)
      modifies store`resourceSnaps
      ensures deleted == old(store.resourceSnaps).Keys - keep
      ensures store.resourceSnaps == if dryRun then old(store.resourceSnaps) else old(store.resourceSnaps) - deleted
    {
      deleted := {};
      var left := store.resourceSnaps.Keys;
      while left != {}
        invariant left <= old(store.resourceSnaps).Keys
        invariant deleted == (old(store.resourceSnaps).Keys - left) - keep
        invariant store.resourceSnaps == if dryRun then old(store.resourceSnaps) else old(store.resourceSnaps) - deleted
        decreases left
      {
        var h :| h in left;
        left := left - {h};
        if h !in keep {
          deleted := deleted + {h};
          if !dryRun {
            store.resourceSnaps := store.resourceSnaps - {h};
          }
        }
      }
    }

    method PruneReleaseSnapshots(keep: set<Hash>, dryRun: bool) returns (deleted: set<Hash>)
      modifies store`releaseSnaps
      ensures deleted == old(store.releaseSnaps).Keys - keep
      ensures store.releaseSnaps == if dryRun then old(store.releaseSnaps) else old(store.releaseSnaps) - deleted
    {
      deleted := {};
      var left := store.releaseSnaps.Keys;
      while left != {}
        invariant left <= old(store.releaseSnaps).Keys
        invariant deleted == (old(store.releaseSnaps).Keys - left) - keep
        invariant store.releaseSnaps == if dryRun then old(store.releaseSnaps) else old(store.releaseSnaps) - deleted
        decreases left
      {
        var h :| h in left;
        left := left - {h};
        if h !in keep {
          deleted := deleted + {h};
          if !dryRun {
            store.releaseSnaps := store.releaseSnaps - {h};
          }
        }
      }
    }

    method PruneBlobs(keep: set<BlobId>, dryRun: bool) returns (deleted: set<BlobId>)
      modifies store`blobs
      ensures deleted == old(store.blobs) - keep
      ensures store.blobs == if dryRun then old(store.blobs) else old(store.blobs) - deleted
    {
      deleted := {};
      var left := store.blobs;
      while left != {}
        invariant left <= old(store.blobs)
        invariant deleted == (old(store.blobs) - left) - keep
        invariant store.blobs == if dryRun then old(store.blobs) else old(store.blobs) - deleted
        decreases left
      {
        var b :| b in left;
        left := left - {b};
        if b !in keep {
          deleted := deleted + {b};
          if !dryRun {
            store.blobs := store.blobs - {b};
          }
        }
      }
    }

    method StripNonheadHistory(heads: set<Hash>, retained: set<Hash>, dryRun: bool) returns (deleted: set<Hash>)
      modifies store`histories
      ensures deleted == (retained - heads) * old(store.histories).Keys
      ensures store.histories == if dryRun then old(store.histories) else old(store.histories) - deleted
    {
      deleted := {};
      var left := retained;
      while left != {}
        invariant left <= retained
        invariant deleted == ((retained - left) - heads) * old(store.histories).Keys
        invariant store.histories == if dryRun then old(store.histories) else old(store.histories) - deleted
        decreases left
      {
        var h :| h in left;
        left := left - {h};
        if h !in heads && h in store.histories {
          deleted := deleted + {h};
          if !dryRun {
            store.histories := store.histories - {h};
          }
        }
      }
    }
  }
}
