/** What the uploads of a publish do to a remote: when a generation there is
    complete, which uploads keep whatever is complete, and what the snapshot,
    release, generation and head directories of a publish leave behind. These
    are the effects of single steps; crash safety is about all of their prefixes. */
module UploadEffects {
  import opened StoreTypes
  import opened ReleaseStore
  import opened ResourceManagement
  import opened Publishing

  // ---- Completeness --------------------------------------------------------

  ghost predicate BlobsPresent(r: Remote, index: seq<IndexEntry>) {
    forall e :: e in index ==> BlobOf(e) in r.blobs
  }

  ghost predicate IndexComplete(r: Remote, key: Key) {
    key in r.files && r.files[key].Index? && BlobsPresent(r, r.files[key].index)
  }

  ghost predicate SnapshotComplete(r: Remote, h: Hash) {
    SnapshotMeta(h) in r.files && IndexComplete(r, SnapshotIndex(h))
  }

  ghost predicate ReleaseComplete(r: Remote, h: Hash) {
    h != NoHash ==> ReleaseMeta(h) in r.files && IndexComplete(r, ReleaseIndex(h))
  }

  ghost predicate SnapshotsComplete(r: Remote, resources: seq<ResourceEntry>) {
    forall e :: e in resources ==> SnapshotComplete(r, e.snapshotHash)
  }

  ghost predicate RecordedComplete(r: Remote, history: ServerHistory) {
    forall e, s :: e in history && s in e.snapshots ==> SnapshotComplete(r, s.snapshotHash)
  }

  /** The history file of a generation on the remote. */
  function HistoryOn(r: Remote, g: Hash): Option<ServerHistory> {
    var key := OfGeneration(g, HistoryFile);
    if key in r.files && r.files[key].HistoryContent? then Some(r.files[key].history) else None
  }

  /** The files a client loads, and all they refer to: the snapshots the
      generation lists, those its history records, and its release. */
  ghost predicate GenerationComplete(r: Remote, g: Hash) {
    && HistoryOn(r, g).Some? && RecordedComplete(r, HistoryOn(r, g).value)
    && OfGeneration(g, MetadataFile) in r.files && OfGeneration(g, ServerFile) in r.files
    && OfGeneration(g, ResourcesFile) in r.files && OfGeneration(g, ReleasesFile) in r.files
    && r.files[OfGeneration(g, ResourcesFile)].Resources?
    && SnapshotsComplete(r, r.files[OfGeneration(g, ResourcesFile)].resources)
    && r.files[OfGeneration(g, ReleasesFile)].Pointer?
    && ReleaseComplete(r, r.files[OfGeneration(g, ReleasesFile)].snapshot)
  }

  ghost predicate HeadComplete(r: Remote, c: ChannelName) {
    OfHead(c, HeadMetadata) in r.files ==>
      && r.files[OfHead(c, HeadMetadata)].Head?
      && (r.files[OfHead(c, HeadMetadata)].head != NoHash ==>
          GenerationComplete(r, r.files[OfHead(c, HeadMetadata)].head))
  }

  /** No remote head dangles. */
  ghost predicate HeadsComplete(r: Remote) {
    forall c {:trigger HeadComplete(r, c)} :: HeadComplete(r, c)
  }

  // ---- More blobs, or one more file ----------------------------------------

  /** `s` is `r` with more blobs, or with one file written that keeps what it must. */
  ghost predicate Harmless(r: Remote, put: Put) {
    match put.key
    case SnapshotIndex(_) => put.content.Index? && BlobsPresent(r, put.content.index)
    case ReleaseIndex(_) => put.content.Index? && BlobsPresent(r, put.content.index)
    case OfGeneration(_, HistoryFile) => put.content.HistoryContent? && RecordedComplete(r, put.content.history)
    case OfGeneration(_, ResourcesFile) => put.content.Resources? && SnapshotsComplete(r, put.content.resources)
    case OfGeneration(_, ReleasesFile) => put.content.Pointer? && ReleaseComplete(r, put.content.snapshot)
    case OfHead(_, HeadMetadata) =>
      put.content.Head? && (put.content.head != NoHash ==> GenerationComplete(r, put.content.head))
    case _ => true
  }

  ghost predicate Extends(r: Remote, s: Remote) {
    || (r.blobs <= s.blobs && s.files == r.files)
    || exists put :: Harmless(r, put) && s == AfterPut(r, put)
  }

  lemma GenerationSurvives(r: Remote, s: Remote, g: Hash)
    requires Extends(r, s) && GenerationComplete(r, g)
    ensures GenerationComplete(s, g)
  {
  }

  lemma HeadsSurvive(r: Remote, s: Remote)
    requires Extends(r, s) && HeadsComplete(r)
    ensures HeadsComplete(s)
  {
    forall c
      ensures HeadComplete(s, c)
    {
      assert HeadComplete(r, c);
      var key := OfHead(c, HeadMetadata);
      if key in s.files && s.files[key].Head? && s.files[key].head != NoHash {
        GenerationSurvives(r, s, s.files[key].head);
      }
    }
  }

  // ---- Sequences of harmless uploads ---------------------------------------

  ghost predicate HarmlessAll(r: Remote, puts: seq<Put>) {
    forall i :: 0 <= i < |puts| ==> Harmless(AfterPuts(r, puts[..i]), puts[i])
  }

  lemma HarmlessPrefix(r: Remote, puts: seq<Put>, n: nat)
    requires HarmlessAll(r, puts) && n <= |puts|
    ensures HarmlessAll(r, puts[..n])
  {
    forall i | 0 <= i < n
      ensures Harmless(AfterPuts(r, puts[..n][..i]), puts[..n][i])
    {
      assert puts[..n][..i] == puts[..i];
    }
  }

  lemma HarmlessConcat(r: Remote, a: seq<Put>, b: seq<Put>)
    requires HarmlessAll(r, a) && HarmlessAll(AfterPuts(r, a), b)
    ensures HarmlessAll(r, a + b)
  {
    forall i | 0 <= i < |a + b|
      ensures Harmless(AfterPuts(r, (a + b)[..i]), (a + b)[i])
    {
      if i < |a| {
        assert (a + b)[..i] == a[..i];
      } else {
        assert (a + b)[..i] == a + b[..i - |a|];
        AfterConcat(r, a, b[..i - |a|]);
      }
    }
  }

  /** Harmless uploads keep heads, generations, snapshots and releases complete. */
  lemma {:induction false} HarmlessKeeps(r: Remote, puts: seq<Put>)
    requires HarmlessAll(r, puts)
    ensures HeadsComplete(r) ==> HeadsComplete(AfterPuts(r, puts))
    ensures forall h :: SnapshotComplete(r, h) ==> SnapshotComplete(AfterPuts(r, puts), h)
    ensures forall h :: ReleaseComplete(r, h) ==> ReleaseComplete(AfterPuts(r, puts), h)
    ensures AfterPuts(r, puts).blobs == r.blobs
  {
    if puts != [] {
      var n := |puts| - 1;
      HarmlessPrefix(r, puts, n);
      HarmlessKeeps(r, puts[..n]);
      var before, after := AfterPuts(r, puts[..n]), AfterPuts(r, puts);
      assert Harmless(before, puts[n]) && after == AfterPut(before, puts[n]);
      if HeadsComplete(r) {
        HeadsSurvive(before, after);
      }
    }
  }

  // ---- The uploads of a publish --------------------------------------------

  lemma {:induction false} PlanShape(st: State, resources: seq<ResourceEntry>, changed: set<Hash>)
    requires ResourcePlan(st, resources, changed).ok
    ensures forall h :: h in ResourcePlan(st, resources, changed).snapshots <==> h in HashesListed(resources) * changed
    ensures forall h :: h in ResourcePlan(st, resources, changed).snapshots ==> h in st.resourceSnaps
    ensures forall h, e :: h in ResourcePlan(st, resources, changed).snapshots && e in st.resourceSnaps[h].index ==>
              BlobOf(e) in TaskBlobs(ResourcePlan(st, resources, changed).tasks)
  {
    if resources != [] {
      var earlier, last := resources[..|resources| - 1], resources[|resources| - 1];
      PlanShape(st, earlier, changed);
      assert resources == earlier + [last];
      var before, plan := ResourcePlan(st, earlier, changed), ResourcePlan(st, resources, changed);
      var h := last.snapshotHash;
      if h !in HashesListed(earlier) && h in changed {
        IndexTasksBlobs(st, st.resourceSnaps[h].index);
        TaskBlobsConcat(before.tasks, IndexTasks(st, st.resourceSnaps[h].index));
      }
    }
  }

  lemma IndexTasksBlobs(st: State, index: seq<IndexEntry>)
    ensures forall e :: e in index ==> BlobOf(e) in TaskBlobs(IndexTasks(st, index))
  {
    forall e | e in index
      ensures BlobOf(e) in TaskBlobs(IndexTasks(st, index))
    {
      var i :| 0 <= i < |index| && index[i] == e;
      assert IndexTasks(st, index)[i] in IndexTasks(st, index);
    }
  }

  lemma TaskBlobsConcat(a: seq<Task>, b: seq<Task>)
    ensures TaskBlobs(a + b) == TaskBlobs(a) + TaskBlobs(b)
  {
  }

  /** With all blobs there, the snapshot directories are harmless and leave
      every uploaded snapshot complete, and no other key touched. */
  lemma {:induction false} SnapshotPutsHarmless(st: State, r: Remote, snapshots: seq<Hash>)
    requires forall h :: h in snapshots ==> h in st.resourceSnaps && BlobsPresent(r, st.resourceSnaps[h].index)
    ensures HarmlessAll(r, SnapshotPuts(st, snapshots))
    ensures forall h :: h in snapshots ==> SnapshotComplete(AfterPuts(r, SnapshotPuts(st, snapshots)), h)
    ensures forall h :: h !in snapshots ==>
              (SnapshotComplete(AfterPuts(r, SnapshotPuts(st, snapshots)), h) <==> SnapshotComplete(r, h))
    ensures forall h :: ReleaseComplete(AfterPuts(r, SnapshotPuts(st, snapshots)), h) <==> ReleaseComplete(r, h)
    ensures AfterPuts(r, SnapshotPuts(st, snapshots)).blobs == r.blobs
  {
    if snapshots != [] {
      var n := |snapshots| - 1;
      var h := snapshots[n];
      var earlier := SnapshotPuts(st, snapshots[..n]);
      SnapshotPutsHarmless(st, r, snapshots[..n]);
      var before := AfterPuts(r, earlier);
      SnapshotDirectory(st, before, h);
      HarmlessConcat(r, earlier, OneSnapshot(st, h));
      AfterConcat(r, earlier, OneSnapshot(st, h));
      assert SnapshotPuts(st, snapshots) == earlier + OneSnapshot(st, h);
      assert forall k :: k in snapshots <==> k in snapshots[..n] || k == h;
    }
  }

  function OneSnapshot(st: State, h: Hash): seq<Put> {
    if h in st.resourceSnaps
    then [Put(SnapshotMeta(h), Plain), Put(SnapshotIndex(h), Index(st.resourceSnaps[h].index))] else []
  }

  lemma OnePut(r: Remote, a: Put)
    ensures AfterPuts(r, [a]) == AfterPut(r, a)
    ensures Harmless(r, a) ==> HarmlessAll(r, [a])
  {
    assert [a][..0] == [];
  }

  lemma TwoPuts(r: Remote, a: Put, b: Put)
    ensures AfterPuts(r, [a]) == AfterPut(r, a)
    ensures AfterPuts(r, [a, b]) == AfterPut(AfterPut(r, a), b)
    ensures Harmless(r, a) && Harmless(AfterPut(r, a), b) ==> HarmlessAll(r, [a, b])
  {
    assert [a, b][..1] == [a] && [a][..0] == [] && [a, b][..0] == [];
  }

  lemma SnapshotDirectory(st: State, r: Remote, h: Hash)
    requires h in st.resourceSnaps && BlobsPresent(r, st.resourceSnaps[h].index)
    ensures HarmlessAll(r, OneSnapshot(st, h))
    ensures SnapshotComplete(AfterPuts(r, OneSnapshot(st, h)), h)
    ensures forall k :: k != h ==> (SnapshotComplete(AfterPuts(r, OneSnapshot(st, h)), k) <==> SnapshotComplete(r, k))
    ensures forall k :: ReleaseComplete(AfterPuts(r, OneSnapshot(st, h)), k) <==> ReleaseComplete(r, k)
    ensures AfterPuts(r, OneSnapshot(st, h)).blobs == r.blobs
  {
    TwoPuts(r, Put(SnapshotMeta(h), Plain), Put(SnapshotIndex(h), Index(st.resourceSnaps[h].index)));
  }

  lemma ReleasePutsHarmless(st: State, r: Remote, g: Generation, changed: bool)
    requires changed ==> g.release in st.releaseSnaps && BlobsPresent(r, st.releaseSnaps[g.release])
    ensures HarmlessAll(r, ReleasePuts(st, g, changed))
    ensures changed ==> ReleaseComplete(AfterPuts(r, ReleasePuts(st, g, changed)), g.release)
    ensures !changed ==> AfterPuts(r, ReleasePuts(st, g, changed)) == r
    ensures forall h :: SnapshotComplete(AfterPuts(r, ReleasePuts(st, g, changed)), h) <==> SnapshotComplete(r, h)
    ensures AfterPuts(r, ReleasePuts(st, g, changed)).blobs == r.blobs
  {
    if changed {
      TwoPuts(r, Put(ReleaseMeta(g.release), Plain), Put(ReleaseIndex(g.release), Index(st.releaseSnaps[g.release])));
    }
  }

  lemma {:induction false} SnapshotKeys(st: State, snapshots: seq<Hash>)
    ensures forall i :: 0 <= i < |SnapshotPuts(st, snapshots)| ==> !SnapshotPuts(st, snapshots)[i].key.OfGeneration?
  {
    if snapshots != [] {
      SnapshotKeys(st, snapshots[..|snapshots| - 1]);
    }
  }

  lemma {:induction false} PutsLeave(r: Remote, puts: seq<Put>, k: Key)
    requires forall i :: 0 <= i < |puts| ==> puts[i].key != k
    ensures k in AfterPuts(r, puts).files <==> k in r.files
    ensures k in r.files ==> AfterPuts(r, puts).files[k] == r.files[k]
    ensures AfterPuts(r, puts).blobs == r.blobs
  {
    if puts != [] {
      PutsLeave(r, puts[..|puts| - 1], k);
    }
  }

  // ---- The condition -------------------------------------------------------

  /** The history that the remote has for `g` once its directory is uploaded:
      the local one, or else the one that was there. */
  function FinalHistory(st: State, g: Generation, r: Remote): Option<ServerHistory> {
    if g.hash in st.histories then Some(st.histories[g.hash]) else HistoryOn(r, g.hash)
  }

  /** What a publish leaves to earlier publishes: a history that is not stored
      locally, every listed or recorded snapshot that it does not upload, and
      an unchanged release. */
  ghost predicate SkippedComplete(st: State, g: Generation, r: Remote, had: Remote) {
    var changed := ChangedSnapshots(g, ParentGeneration(st, g));
    && (forall e :: e in g.resources && e.snapshotHash !in changed ==> SnapshotComplete(had, e.snapshotHash))
    && FinalHistory(st, g, r).Some?
    && (forall e, s :: e in FinalHistory(st, g, r).value && s in e.snapshots && s.snapshotHash !in changed ==>
                         SnapshotComplete(had, s.snapshotHash))
    && (!ChangedRelease(g, ParentGeneration(st, g), r) ==> ReleaseComplete(had, g.release))
  }

  /** All that the generation's files will refer to is complete. */
  ghost predicate AllReferredTo(st: State, g: Generation, r: Remote) {
    && SnapshotsComplete(r, g.resources) && ReleaseComplete(r, g.release)
    && FinalHistory(st, g, r).Some? && RecordedComplete(r, FinalHistory(st, g, r).value)
  }

  /** The remote after all blob tasks succeeded. */
  function WithBlobs(r: Remote, plan: Plan): Remote {
    Remote(r.blobs + TaskBlobs(plan.tasks), r.files)
  }

  lemma PlanBlobsPresent(st: State, g: Generation, r: Remote)
    requires PlanFor(st, g, r).ok
    ensures var plan, had := PlanFor(st, g, r), WithBlobs(r, PlanFor(st, g, r));
            && (forall h :: h in plan.snapshots ==>
                  h in st.resourceSnaps && BlobsPresent(had, st.resourceSnaps[h].index))
            && (ChangedRelease(g, ParentGeneration(st, g), r) ==>
                  g.release in st.releaseSnaps && BlobsPresent(had, st.releaseSnaps[g.release]))
  {
    var parent := ParentGeneration(st, g);
    var changed := ChangedRelease(g, parent, r);
    PlanShape(st, g.resources, ChangedSnapshots(g, parent));
    TaskBlobsConcat(ResourcePlan(st, g.resources, ChangedSnapshots(g, parent)).tasks, ReleaseTasks(st, g, changed));
    if changed {
      IndexTasksBlobs(st, st.releaseSnaps[g.release]);
    }
  }

  /** The snapshot and release directories complete what they upload, and keep
      everything else as it was. */
  lemma DirectoriesUpload(st: State, g: Generation, r: Remote)
    requires PlanFor(st, g, r).ok
    ensures var parent, had := ParentGeneration(st, g), WithBlobs(r, PlanFor(st, g, r));
            var after := AfterPuts(had, DirectoryPuts(st, g, r));
            && HarmlessAll(had, DirectoryPuts(st, g, r))
            && (forall h :: SnapshotComplete(after, h) <==>
                  h in ChangedSnapshots(g, parent) || SnapshotComplete(had, h))
            && (ReleaseComplete(after, g.release) <==> ChangedRelease(g, parent, r) || ReleaseComplete(had, g.release))
  {
    var plan, had, parent := PlanFor(st, g, r), WithBlobs(r, PlanFor(st, g, r)), ParentGeneration(st, g);
    var changed := ChangedRelease(g, parent, r);
    var snaps, release := SnapshotPuts(st, plan.snapshots), ReleasePuts(st, g, changed);
    PlanBlobsPresent(st, g, r);
    PlanShape(st, g.resources, ChangedSnapshots(g, parent));
    SnapshotPutsHarmless(st, had, plan.snapshots);
    ReleasePutsHarmless(st, AfterPuts(had, snaps), g, changed);
    HarmlessConcat(had, snaps, release);
    AfterConcat(had, snaps, release);
    assert forall h :: h in plan.snapshots <==> h in ChangedSnapshots(g, parent);
  }

  lemma DirectoriesLeaveHistory(st: State, g: Generation, r: Remote)
    ensures HistoryOn(AfterPuts(WithBlobs(r, PlanFor(st, g, r)), DirectoryPuts(st, g, r)), g.hash) ==
            HistoryOn(r, g.hash)
  {
    SnapshotKeys(st, PlanFor(st, g, r).snapshots);
    PutsLeave(WithBlobs(r, PlanFor(st, g, r)), DirectoryPuts(st, g, r), OfGeneration(g.hash, HistoryFile));
  }

  /** After the snapshot and release directories, what the generation refers to
      is complete exactly when what was skipped was. */
  lemma DirectoriesDone(st: State, g: Generation, r: Remote)
    requires PlanFor(st, g, r).ok
    ensures var had := WithBlobs(r, PlanFor(st, g, r));
            var after := AfterPuts(had, DirectoryPuts(st, g, r));
            && HarmlessAll(had, DirectoryPuts(st, g, r))
            && FinalHistory(st, g, after) == FinalHistory(st, g, r)
            && (SkippedComplete(st, g, r, had) <==> AllReferredTo(st, g, after))
  {
    var had := WithBlobs(r, PlanFor(st, g, r));
    var after := AfterPuts(had, DirectoryPuts(st, g, r));
    DirectoriesUpload(st, g, r);
    DirectoriesLeaveHistory(st, g, r);
    RecordedAfter(had, after, FinalHistory(st, g, r), ChangedSnapshots(g, ParentGeneration(st, g)));
  }

  lemma RecordedAfter(had: Remote, after: Remote, history: Option<ServerHistory>, uploaded: set<Hash>)
    requires forall h :: SnapshotComplete(after, h) <==> h in uploaded || SnapshotComplete(had, h)
    ensures history.Some? ==>
              (RecordedComplete(after, history.value) <==>
               forall e, s :: e in history.value && s in e.snapshots && s.snapshotHash !in uploaded ==>
                                SnapshotComplete(had, s.snapshotHash))
  {
  }

  /** The generation directory, once all it refers to is there. */
  lemma GenerationPutsHarmless(st: State, g: Generation, r: Remote)
    requires AllReferredTo(st, g, r)
    ensures HarmlessAll(r, GenerationPuts(st, g))
    ensures GenerationComplete(AfterPuts(r, GenerationPuts(st, g)), g.hash)
  {
    var puts := GenerationPuts(st, g);
    forall i | 0 <= i < |puts|
      ensures Harmless(AfterPuts(r, puts[..i]), puts[i])
    {
      AssetsLeft(r, puts[..i]);
      var s := AfterPuts(r, puts[..i]);
      assert SnapshotsComplete(s, g.resources) && ReleaseComplete(s, g.release);
      assert RecordedComplete(s, FinalHistory(st, g, r).value);
    }
    AssetsLeft(r, puts);
    GenerationFilesWritten(st, g, r);
  }

  lemma {:induction false} PlainPutsHarmless(r: Remote, puts: seq<Put>)
    requires forall i :: 0 <= i < |puts| ==>
               puts[i].key.Registry? || (puts[i].key.OfHead? && puts[i].key.part != HeadMetadata)
    ensures HarmlessAll(r, puts)
    ensures forall k: Key :: !k.Registry? && !(k.OfHead? && k.part != HeadMetadata) ==>
              (k in AfterPuts(r, puts).files <==> k in r.files)
                  && (k in r.files ==> AfterPuts(r, puts).files[k] == r.files[k])
  {
    if puts != [] {
      PlainPutsHarmless(r, puts[..|puts| - 1]);
    }
  }

  /** The head directory after the generation: harmless, and the head moves. */
  lemma HeadPutsHarmless(st: State, c: ChannelName, r: Remote)
    requires GenerationComplete(r, HeadOf(st, c))
    ensures HarmlessAll(r, HeadPuts(st, c))
    ensures OfHead(c, HeadMetadata) in AfterPuts(r, HeadPuts(st, c)).files
    ensures AfterPuts(r, HeadPuts(st, c)).files[OfHead(c, HeadMetadata)] == Head(HeadOf(st, c))
  {
    var first := [Put(OfHead(c, HeadMetadata), Head(HeadOf(st, c)))];
    var rest := HeadPuts(st, c)[1..];
    assert HeadPuts(st, c) == first + rest;
    OnePut(r, first[0]);
    PlainPutsHarmless(AfterPuts(r, first), rest);
    HarmlessConcat(r, first, rest);
    AfterConcat(r, first, rest);
  }

  lemma AllPutsHarmless(st: State, c: ChannelName, g: Generation, r: Remote)
    requires HeadOf(st, c) == g.hash && PlanFor(st, g, r).ok
    requires SkippedComplete(st, g, r, WithBlobs(r, PlanFor(st, g, r)))
    ensures HarmlessAll(WithBlobs(r, PlanFor(st, g, r)), PutsFor(st, c, g, r))
    ensures var final := AfterPuts(WithBlobs(r, PlanFor(st, g, r)), PutsFor(st, c, g, r));
            && OfHead(c, HeadMetadata) in final.files && final.files[OfHead(c, HeadMetadata)] == Head(g.hash)
  {
    var had := WithBlobs(r, PlanFor(st, g, r));
    var a, b, d := DirectoryPuts(st, g, r), GenerationPuts(st, g), HeadPuts(st, c);
    DirectoriesDone(st, g, r);
    GenerationPutsHarmless(st, g, AfterPuts(had, a));
    HeadPutsHarmless(st, c, AfterPuts(AfterPuts(had, a), b));
    HarmlessConcat(had, a, b);
    AfterConcat(had, a, b);
    HarmlessConcat(had, a + b, d);
    AfterConcat(had, a + b, d);
  }

  /** The generation and head directories do not touch snapshots and releases,
      and leave the generation's own files as the local ones. */
  lemma TailPuts(st: State, c: ChannelName, g: Generation, r: Remote)
    ensures var after := AfterPuts(r, GenerationPuts(st, g) + HeadPuts(st, c));
            && (forall h :: SnapshotComplete(after, h) <==> SnapshotComplete(r, h))
            && (forall h :: ReleaseComplete(after, h) <==> ReleaseComplete(r, h))
            && OfGeneration(g.hash, ResourcesFile) in after.files
            && after.files[OfGeneration(g.hash, ResourcesFile)] == Resources(g.resources)
            && OfGeneration(g.hash, ReleasesFile) in after.files
            && after.files[OfGeneration(g.hash, ReleasesFile)] == Pointer(g.release)
            && OfGeneration(g.hash, MetadataFile) in after.files
            && OfGeneration(g.hash, ServerFile) in after.files
            && HistoryOn(after, g.hash) == FinalHistory(st, g, r)
  {
    var b, d := GenerationPuts(st, g), HeadPuts(st, c);
    TailLeavesAssets(st, c, g, r);
    AfterConcat(r, b, d);
    GenerationFilesWritten(st, g, r);
    HeadKeys(st, c);
    PutsLeave(AfterPuts(r, b), d, OfGeneration(g.hash, ResourcesFile));
    PutsLeave(AfterPuts(r, b), d, OfGeneration(g.hash, ReleasesFile));
    PutsLeave(AfterPuts(r, b), d, OfGeneration(g.hash, MetadataFile));
    PutsLeave(AfterPuts(r, b), d, OfGeneration(g.hash, ServerFile));
    PutsLeave(AfterPuts(r, b), d, OfGeneration(g.hash, HistoryFile));
  }

  ghost predicate KeysOutsideAssets(puts: seq<Put>) {
    forall i :: 0 <= i < |puts| ==> puts[i].key.OfGeneration? || puts[i].key.OfHead? || puts[i].key.Registry?
  }

  lemma HeadKeys(st: State, c: ChannelName)
    ensures forall i :: 0 <= i < |HeadPuts(st, c)| ==>
              HeadPuts(st, c)[i].key.OfHead? || HeadPuts(st, c)[i].key.Registry?
  {
  }

  lemma TailLeavesAssets(st: State, c: ChannelName, g: Generation, r: Remote)
    ensures var after := AfterPuts(r, GenerationPuts(st, g) + HeadPuts(st, c));
            && (forall h :: SnapshotComplete(after, h) <==> SnapshotComplete(r, h))
            && (forall h :: ReleaseComplete(after, h) <==> ReleaseComplete(r, h))
  {
    var puts := GenerationPuts(st, g) + HeadPuts(st, c);
    HeadKeys(st, c);
    assert KeysOutsideAssets(GenerationPuts(st, g)) && KeysOutsideAssets(HeadPuts(st, c));
    assert KeysOutsideAssets(puts);
    AssetsLeft(r, puts);
  }

  lemma AssetsLeft(r: Remote, puts: seq<Put>)
    requires KeysOutsideAssets(puts)
    ensures forall h :: SnapshotComplete(AfterPuts(r, puts), h) <==> SnapshotComplete(r, h)
    ensures forall h :: ReleaseComplete(AfterPuts(r, puts), h) <==> ReleaseComplete(r, h)
  {
    forall h
      ensures SnapshotComplete(AfterPuts(r, puts), h) <==> SnapshotComplete(r, h)
      ensures ReleaseComplete(AfterPuts(r, puts), h) <==> ReleaseComplete(r, h)
    {
      PutsLeave(r, puts, SnapshotMeta(h));
      PutsLeave(r, puts, SnapshotIndex(h));
      PutsLeave(r, puts, ReleaseMeta(h));
      PutsLeave(r, puts, ReleaseIndex(h));
    }
  }

  lemma GenerationFilesWritten(st: State, g: Generation, r: Remote)
    ensures var after := AfterPuts(r, GenerationPuts(st, g));
            && OfGeneration(g.hash, ResourcesFile) in after.files
            && after.files[OfGeneration(g.hash, ResourcesFile)] == Resources(g.resources)
            && OfGeneration(g.hash, ReleasesFile) in after.files
            && after.files[OfGeneration(g.hash, ReleasesFile)] == Pointer(g.release)
            && OfGeneration(g.hash, MetadataFile) in after.files
            && OfGeneration(g.hash, ServerFile) in after.files
            && HistoryOn(after, g.hash) == FinalHistory(st, g, r)
  {
    var h := HistoryPuts(st, g);
    var a, b := Put(OfGeneration(g.hash, MetadataFile), Plain),
        Put(OfGeneration(g.hash, ReleasesFile), Pointer(g.release));
    var c, d := Put(OfGeneration(g.hash, ResourcesFile), Resources(g.resources)),
        Put(OfGeneration(g.hash, ServerFile), Plain);
    var r0 := AfterPuts(r, h);
    TwoPuts(r0, a, b);
    TwoPuts(AfterPuts(r0, [a, b]), c, d);
    AfterConcat(r0, [a, b], [c, d]);
    AfterConcat(r, h, [a, b] + [c, d]);
    assert GenerationPuts(st, g) == h + ([a, b] + [c, d]);
    if h != [] {
      assert h[..0] == [];
    }
  }
}
