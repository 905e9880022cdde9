/** What garbage collection keeps, as a function of the store's state. */
module Reachability {
  // Nothing here assumes how the state came about: heads may dangle, parent
  // chains may be broken or cyclic, and heads without a history file are
  // treated as the source treats them.

  import opened StoreTypes
  import opened ReleaseStore

  datatype Reach = Reach(
    generations: set<Hash>, resourceSnaps: set<Hash>,
    releaseSnaps: set<Hash>, blobs: set<BlobId>)

  const NOTHING := Reach({}, {}, {}, {})

  function Join(a: Reach, b: Reach): Reach {
    Reach(a.generations + b.generations, a.resourceSnaps + b.resourceSnaps,
          a.releaseSnaps + b.releaseSnaps, a.blobs + b.blobs)
  }

  // ---- Walking parents -----------------------------------------------------

  /** The generations loaded by following parents from `current`: the walk ends
      at a root, at a repeated generation, or at one that cannot be loaded. */
  function WalkFrom(gens: map<Hash, Generation>, current: Hash, visited: set<Hash>): seq<Hash>
    decreases gens.Keys - visited
  {
    if current == NoHash || current in visited || current !in gens then []
    else [current] + WalkFrom(gens, gens[current].meta.parent, visited + {current})
  }

  function Chain(gens: map<Hash, Generation>, start: Hash): seq<Hash> {
    WalkFrom(gens, start, {})
  }

  function Prefix<T>(s: seq<T>, n: nat): seq<T> {
    if n < |s| then s[..n] else s
  }

  function Elements<T>(s: seq<T>): set<T> {
    set x | x in s
  }

  // ---- Reachability --------------------------------------------------------

  function IndexBlobs(index: seq<IndexEntry>): set<BlobId> {
    set e | e in index :: BlobOf(e)
  }

  function SnapshotBlobs(st: State, snap: Hash): set<BlobId> {
    if snap in st.resourceSnaps then IndexBlobs(st.resourceSnaps[snap].index) else {}
  }

  function BlobsOf(st: State, snaps: set<Hash>): set<BlobId> {
    set snap, b | snap in snaps && b in SnapshotBlobs(st, snap) :: b
  }

  function RecordedSnapshots(snapshots: seq<Snapshot>): set<Hash> {
    set s | s in snapshots && s.snapshotHash != NoHash :: s.snapshotHash
  }

  function HistorySnapshots(history: ServerHistory): set<Hash> {
    set e, h | e in history && h in RecordedSnapshots(e.snapshots) :: h
  }

  function ListedSnapshots(resources: seq<ResourceEntry>): set<Hash> {
    set e | e in resources && e.snapshotHash != NoHash :: e.snapshotHash
  }

  function ChainSnapshots(gens: map<Hash, Generation>, chain: seq<Hash>): set<Hash> {
    set h, s | h in chain && h in gens && s in ListedSnapshots(gens[h].resources) :: s
  }

  function ReleasesOf(gens: map<Hash, Generation>, chain: seq<Hash>): set<Hash> {
    set h | h in chain && h in gens && gens[h].release != NoHash :: gens[h].release
  }

  /** A head with a history: the snapshots of the history, and the newest
      `depth + 1` generations of its chain. */
  function HistoryReach(st: State, head: Hash, history: ServerHistory, depth: nat): Reach {
    var snaps := HistorySnapshots(history);
    var kept := Prefix(Chain(st.gens, head), depth + 1);
    Reach(Elements(kept), snaps, ReleasesOf(st.gens, kept), BlobsOf(st, snaps))
  }

  /** Generations, with everything they refer to. */
  function ChainReach(st: State, chain: seq<Hash>): Reach {
    var snaps := ChainSnapshots(st.gens, chain);
    Reach(Elements(chain), snaps, ReleasesOf(st.gens, chain), BlobsOf(st, snaps))
  }

  /** A head without a history: its whole parent chain and all it refers to. */
  function FullChainReach(st: State, head: Hash): Reach {
    ChainReach(st, Chain(st.gens, head))
  }

  function HeadReach(st: State, head: Hash, depth: nat): Reach {
    if head in st.histories then HistoryReach(st, head, st.histories[head], depth)
    else FullChainReach(st, head)
  }

  /** The heads of the registered channels that point somewhere. */
  function HeadsOf(st: State, channels: seq<ChannelName>): set<Hash> {
    set c | c in channels && HeadOf(st, c) != NoHash :: HeadOf(st, c)
  }

  function LiveHeads(st: State): set<Hash> {
    HeadsOf(st, st.channels)
  }

  function ReachOfHeads(st: State, heads: set<Hash>, depth: nat): Reach {
    Reach(set h, x | h in heads && x in HeadReach(st, h, depth).generations :: x,
          set h, x | h in heads && x in HeadReach(st, h, depth).resourceSnaps :: x,
          set h, x | h in heads && x in HeadReach(st, h, depth).releaseSnaps :: x,
          set h, x | h in heads && x in HeadReach(st, h, depth).blobs :: x)
  }

  function Reachable(st: State, depth: nat): Reach {
    ReachOfHeads(st, LiveHeads(st), depth)
  }

  // ---- Pruning -------------------------------------------------------------

  /** The entities a prune names. */
  datatype Deleted = Deleted(
    generations: set<Hash>, resourceSnaps: set<Hash>,
    releaseSnaps: set<Hash>, blobs: set<BlobId>, histories: set<Hash>)

  /** What a prune deletes when it keeps `r` and the histories of `heads`. */
  function DeletionsFor(st: State, r: Reach, heads: set<Hash>): Deleted {
    Deleted(st.gens.Keys - r.generations, st.resourceSnaps.Keys - r.resourceSnaps,
            st.releaseSnaps.Keys - r.releaseSnaps, st.blobs - r.blobs,
            (r.generations - heads) * st.histories.Keys)
  }

  function Without(st: State, d: Deleted): State {
    st.(gens := st.gens - d.generations,
        histories := st.histories - d.generations - d.histories,
        resourceSnaps := st.resourceSnaps - d.resourceSnaps,
        releaseSnaps := st.releaseSnaps - d.releaseSnaps,
        blobs := st.blobs - d.blobs)
  }

  function Deletions(st: State, depth: nat): Deleted {
    DeletionsFor(st, Reachable(st, depth), LiveHeads(st))
  }

  function Pruned(st: State, depth: nat): State {
    Without(st, Deletions(st, depth))
  }

  // ---- Properties of the walk ----------------------------------------------

  /** The walk never repeats a generation and stays within the loadable ones. */
  lemma {:induction false} WalkDistinct(gens: map<Hash, Generation>, current: Hash, visited: set<Hash>)
    ensures forall i :: 0 <= i < |WalkFrom(gens, current, visited)| ==>
              WalkFrom(gens, current, visited)[i] in gens && WalkFrom(gens, current, visited)[i] !in visited
    ensures forall i, j :: 0 <= i < j < |WalkFrom(gens, current, visited)| ==>
              WalkFrom(gens, current, visited)[i] != WalkFrom(gens, current, visited)[j]
    ensures current != NoHash && current in gens && current !in visited ==>
              WalkFrom(gens, current, visited) != [] && WalkFrom(gens, current, visited)[0] == current
    decreases gens.Keys - visited
  {
    if current != NoHash && current !in visited && current in gens {
      WalkDistinct(gens, gens[current].meta.parent, visited + {current});
    }
  }

  /** Deleting generations outside the first `n` of a walk leaves those `n`. */
  lemma {:induction false} WalkSurvives(
    gens: map<Hash, Generation>, kept: map<Hash, Generation>, current: Hash, visited: set<Hash>, n: nat)
    requires kept.Keys <= gens.Keys && forall h :: h in kept ==> kept[h] == gens[h]
    requires forall h :: h in Prefix(WalkFrom(gens, current, visited), n) ==> h in kept
    ensures Prefix(WalkFrom(kept, current, visited), n) == Prefix(WalkFrom(gens, current, visited), n)
    decreases gens.Keys - visited
  {
    if current != NoHash && current !in visited && current in gens && n > 0 {
      var rest := WalkFrom(gens, gens[current].meta.parent, visited + {current});
      var walk := WalkFrom(gens, current, visited);
      assert walk[0] == current && walk[0] in Prefix(walk, n);
      forall h | h in Prefix(rest, n - 1)
        ensures h in kept
      {
        assert Prefix(walk, n) == [current] + Prefix(rest, n - 1);
      }
      WalkSurvives(gens, kept, gens[current].meta.parent, visited + {current}, n - 1);
      var rest' := WalkFrom(kept, gens[current].meta.parent, visited + {current});
      assert WalkFrom(kept, current, visited) == [current] + rest';
      assert Prefix([current] + rest', n) == [current] + Prefix(rest', n - 1);
      assert Prefix([current] + rest, n) == [current] + Prefix(rest, n - 1);
    }
  }

  /** Deleting generations outside a walk leaves the walk. */
  lemma {:induction false} WholeWalkSurvives(
    gens: map<Hash, Generation>, kept: map<Hash, Generation>, current: Hash, visited: set<Hash>)
    requires kept.Keys <= gens.Keys && forall h :: h in kept ==> kept[h] == gens[h]
    requires forall h :: h in WalkFrom(gens, current, visited) ==> h in kept
    ensures WalkFrom(kept, current, visited) == WalkFrom(gens, current, visited)
    decreases gens.Keys - visited
  {
    if current != NoHash && current !in visited && current in gens {
      var rest := WalkFrom(gens, gens[current].meta.parent, visited + {current});
      assert WalkFrom(gens, current, visited) == [current] + rest;
      assert current in kept;
      assert forall h :: h in rest ==> h in kept;
      WholeWalkSurvives(gens, kept, gens[current].meta.parent, visited + {current});
    }
  }

  // ---- Pruning keeps what it reaches ---------------------------------------

  /** Every head's reach is part of the whole. */
  lemma ReachContains(st: State, head: Hash, depth: nat)
    requires head in LiveHeads(st)
    ensures HeadReach(st, head, depth).generations <= Reachable(st, depth).generations
    ensures HeadReach(st, head, depth).resourceSnaps <= Reachable(st, depth).resourceSnaps
    ensures HeadReach(st, head, depth).releaseSnaps <= Reachable(st, depth).releaseSnaps
    ensures HeadReach(st, head, depth).blobs <= Reachable(st, depth).blobs
  {
  }

  /** `kept` is `st` cut down to `r`, with the histories of `heads` only. */
  ghost predicate CutTo(st: State, kept: State, r: Reach, heads: set<Hash>) {
    && kept.gens.Keys == st.gens.Keys * r.generations
    && kept.resourceSnaps.Keys == st.resourceSnaps.Keys * r.resourceSnaps
    && kept.releaseSnaps.Keys == st.releaseSnaps.Keys * r.releaseSnaps
    && kept.blobs == st.blobs * r.blobs
    && kept.histories.Keys == st.histories.Keys * heads
    && (forall h :: h in kept.gens ==> kept.gens[h] == st.gens[h])
    && (forall h :: h in kept.histories ==> kept.histories[h] == st.histories[h])
    && (forall h :: h in kept.resourceSnaps ==> kept.resourceSnaps[h] == st.resourceSnaps[h])
    && (forall h :: h in kept.releaseSnaps ==> kept.releaseSnaps[h] == st.releaseSnaps[h])
    && kept.channels == st.channels && kept.heads == st.heads && kept.reflogs == st.reflogs
    && kept.suppressions == st.suppressions && kept.lineage == st.lineage
  }

  lemma CutIsExact(st: State, r: Reach, heads: set<Hash>)
    requires WellKeyed(st)
    requires heads * st.gens.Keys <= r.generations
    ensures CutTo(st, Without(st, DeletionsFor(st, r, heads)), r, heads)
  {
    var kept := Without(st, DeletionsFor(st, r, heads));
    forall h | h in st.histories
      ensures h in kept.histories <==> h in heads
    {
      assert h in st.gens;
    }
  }

  /** A live head with a loadable generation is itself reachable. */
  lemma LiveHeadsReached(st: State, depth: nat)
    requires WellKeyed(st)
    ensures LiveHeads(st) * st.gens.Keys <= Reachable(st, depth).generations
  {
    forall head | head in LiveHeads(st) && head in st.gens
      ensures head in Reachable(st, depth).generations
    {
      WalkDistinct(st.gens, head, {});
      assert head == Prefix(Chain(st.gens, head), depth + 1)[0];
      assert head in HeadReach(st, head, depth).generations;
      ReachContains(st, head, depth);
    }
  }

  /** Exactly the stored part of the reachable set remains; of the histories,
      exactly those of live heads. */
  lemma PruneIsExact(st: State, depth: nat)
    requires WellKeyed(st)
    ensures CutTo(st, Pruned(st, depth), Reachable(st, depth), LiveHeads(st))
    ensures WellKeyed(Pruned(st, depth))
  {
    LiveHeadsReached(st, depth);
    CutIsExact(st, Reachable(st, depth), LiveHeads(st));
  }

  lemma BlobsUnchanged(st: State, kept: State, r: Reach, heads: set<Hash>, snaps: set<Hash>)
    requires CutTo(st, kept, r, heads)
    requires snaps <= r.resourceSnaps
    ensures BlobsOf(kept, snaps) == BlobsOf(st, snaps)
  {
    assert forall snap :: snap in snaps ==> SnapshotBlobs(kept, snap) == SnapshotBlobs(st, snap);
  }

  lemma HistoryReachUnchanged(
    st: State, kept: State, r: Reach, heads: set<Hash>, head: Hash, history: ServerHistory, depth: nat)
    requires CutTo(st, kept, r, heads)
    requires HistoryReach(st, head, history, depth).generations <= r.generations
    requires HistoryReach(st, head, history, depth).resourceSnaps <= r.resourceSnaps
    ensures HistoryReach(kept, head, history, depth) == HistoryReach(st, head, history, depth)
  {
    WalkDistinct(st.gens, head, {});
    var retained := Prefix(Chain(st.gens, head), depth + 1);
    forall h | h in retained
      ensures h in kept.gens
    {
      assert h in Elements(retained);
    }
    WalkSurvives(st.gens, kept.gens, head, {}, depth + 1);
    assert ReleasesOf(kept.gens, retained) == ReleasesOf(st.gens, retained);
    BlobsUnchanged(st, kept, r, heads, HistorySnapshots(history));
  }

  lemma FullChainReachUnchanged(st: State, kept: State, r: Reach, heads: set<Hash>, head: Hash)
    requires CutTo(st, kept, r, heads)
    requires FullChainReach(st, head).generations <= r.generations
    requires FullChainReach(st, head).resourceSnaps <= r.resourceSnaps
    ensures FullChainReach(kept, head) == FullChainReach(st, head)
  {
    WalkDistinct(st.gens, head, {});
    var chain := Chain(st.gens, head);
    forall h | h in chain
      ensures h in kept.gens
    {
      assert h in Elements(chain);
    }
    WholeWalkSurvives(st.gens, kept.gens, head, {});
    assert ReleasesOf(kept.gens, chain) == ReleasesOf(st.gens, chain);
    assert ChainSnapshots(kept.gens, chain) == ChainSnapshots(st.gens, chain);
    BlobsUnchanged(st, kept, r, heads, ChainSnapshots(st.gens, chain));
  }

  /** Cutting a store down to what its heads reach does not change what they reach. */
  lemma CutKeepsReach(st: State, kept: State, depth: nat)
    requires WellKeyed(st)
    requires CutTo(st, kept, Reachable(st, depth), LiveHeads(st))
    ensures LiveHeads(kept) == LiveHeads(st)
    ensures Reachable(kept, depth) == Reachable(st, depth)
  {
    var r, heads := Reachable(st, depth), LiveHeads(st);
    assert forall c :: HeadOf(kept, c) == HeadOf(st, c);
    forall h | h in heads
      ensures HeadReach(kept, h, depth) == HeadReach(st, h, depth)
    {
      ReachContains(st, h, depth);
      if h in st.histories {
        HistoryReachUnchanged(st, kept, r, heads, h, st.histories[h], depth);
      } else {
        FullChainReachUnchanged(st, kept, r, heads, h);
      }
    }
  }

  /** Pruning and stripping histories do not change the reachable set. */
  lemma ReachableUnchanged(st: State, depth: nat)
    requires WellKeyed(st)
    ensures LiveHeads(Pruned(st, depth)) == LiveHeads(st)
    ensures Reachable(Pruned(st, depth), depth) == Reachable(st, depth)
  {
    PruneIsExact(st, depth);
    CutKeepsReach(st, Pruned(st, depth), depth);
  }

  lemma CutTwice(st: State, kept: State, r: Reach, heads: set<Hash>)
    requires CutTo(st, kept, r, heads)
    ensures DeletionsFor(kept, r, heads) == Deleted({}, {}, {}, {}, {})
  {
  }

  lemma NothingDeleted(st: State)
    ensures Without(st, Deleted({}, {}, {}, {}, {})) == st
  {
    var none: set<Hash> := {};
    assert st.gens - none == st.gens;
    assert st.histories - none - none == st.histories;
    assert st.resourceSnaps - none == st.resourceSnaps;
    assert st.releaseSnaps - none == st.releaseSnaps;
    var noBlobs: set<BlobId> := {};
    assert st.blobs - noBlobs == st.blobs;
  }

  /** A second prune deletes nothing. */
  lemma PruneIdempotent(st: State, depth: nat)
    requires WellKeyed(st)
    ensures Deletions(Pruned(st, depth), depth) == Deleted({}, {}, {}, {}, {})
    ensures Pruned(Pruned(st, depth), depth) == Pruned(st, depth)
  {
    PruneIsExact(st, depth);
    ReachableUnchanged(st, depth);
    CutTwice(st, Pruned(st, depth), Reachable(st, depth), LiveHeads(st));
    NothingDeleted(Pruned(st, depth));
  }

  lemma {:induction false} ElementsBound<T>(s: seq<T>)
    ensures |Elements(s)| <= |s|
  {
    if s != [] {
      ElementsBound(s[..|s| - 1]);
      assert Elements(s) == Elements(s[..|s| - 1]) + {s[|s| - 1]};
    }
  }

  /** A head with a history retains itself and at most `depth` ancestors. */
  lemma RetentionBound(st: State, head: Hash, depth: nat)
    requires WellKeyed(st) && head in st.histories
    ensures head in HeadReach(st, head, depth).generations
    ensures 1 <= |HeadReach(st, head, depth).generations| <= depth + 1
  {
    WalkDistinct(st.gens, head, {});
    var kept := Prefix(Chain(st.gens, head), depth + 1);
    ElementsBound(kept);
    assert kept[0] == head;
    assert head in Elements(kept);
  }
}
