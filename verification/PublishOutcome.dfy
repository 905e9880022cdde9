/** What a publish leaves on the remote, file by file. */
module PublishOutcome {
  import opened StoreTypes
  import opened ReleaseStore
  import opened Reachability
  import opened ResourceManagement
  import opened Publishing
  import opened UploadEffects
  import opened PublishSafety
  import opened StoreRuns
  import opened PublishRuns
  import opened PublishProgress

  // ---- What should be there ------------------------------------------------

  /** The generation lists the snapshot for a server for which its local parent
      does not. */
  ghost predicate NewSnapshot(st: State, g: Generation, h: Hash) {
    exists e :: e in g.resources && e.snapshotHash == h
                && (g.meta.parent !in st.gens || ResourceOf(st.gens[g.meta.parent].resources, e.serverId) != Some(h))
  }

  /** The generation points at the release, and its local parent does not, or
      the remote lacks it. */
  ghost predicate NewRelease(st: State, g: Generation, r: Remote, h: Hash) {
    && h == g.release && h != NoHash
    && (g.meta.parent !in st.gens || st.gens[g.meta.parent].release != h || ReleaseIndex(h) !in r.files)
  }

  ghost function GenerationFileOf(st: State, g: Generation, f: GenerationFile): Option<Content> {
    match f
    case HistoryFile => if g.hash in st.histories then Some(HistoryContent(st.histories[g.hash])) else None
    case MetadataFile => Some(Plain)
    case ReleasesFile => Some(Pointer(g.release))
    case ResourcesFile => Some(Resources(g.resources))
    case ServerFile => Some(Plain)
  }

  ghost function HeadFileOf(st: State, c: ChannelName, part: HeadFile): Option<Content> {
    match part
    case HeadMetadata => Some(Head(HeadOf(st, c)))
    case HeadReflog => if c in st.reflogs then Some(Plain) else None
    case HeadSuppressions => if c in st.suppressions then Some(Plain) else None
  }

  /** What a publish of `g`, the head of `c`, uploads under a key, if anything. */
  ghost function UploadedAs(st: State, c: ChannelName, g: Generation, r: Remote, k: Key): Option<Content> {
    match k
    case SnapshotMeta(h) => if NewSnapshot(st, g, h) && h in st.resourceSnaps then Some(Plain) else None
    case SnapshotIndex(h) =>
      if NewSnapshot(st, g, h) && h in st.resourceSnaps then Some(Index(st.resourceSnaps[h].index)) else None
    case ReleaseMeta(h) => if NewRelease(st, g, r, h) && h in st.releaseSnaps then Some(Plain) else None
    case ReleaseIndex(h) =>
      if NewRelease(st, g, r, h) && h in st.releaseSnaps then Some(Index(st.releaseSnaps[h])) else None
    case OfGeneration(h, f) => if h == g.hash then GenerationFileOf(st, g, f) else None
    case OfHead(d, part) => if d == c then HeadFileOf(st, c, part) else None
    case Registry => if st.channels != [] then Some(Plain) else None
  }

  // ---- Reading a sequence of uploads by key --------------------------------

  ghost predicate Mentions(puts: seq<Put>, k: Key) {
    exists i :: 0 <= i < |puts| && puts[i].key == k
  }

  /** Whatever is uploaded under the key is `v`. */
  ghost predicate Consistent(puts: seq<Put>, k: Key, v: Option<Content>) {
    forall i :: 0 <= i < |puts| && puts[i].key == k ==> v == Some(puts[i].content)
  }

  lemma MentionsConcat(a: seq<Put>, b: seq<Put>, k: Key, v: Option<Content>)
    ensures Mentions(a + b, k) <==> Mentions(a, k) || Mentions(b, k)
    ensures Consistent(a + b, k, v) <==> Consistent(a, k, v) && Consistent(b, k, v)
  {
    var all := a + b;
    assert forall i :: 0 <= i < |a| ==> all[i] == a[i];
    assert forall i :: 0 <= i < |b| ==> all[|a| + i] == b[i];
  }

  lemma {:induction false} ConsistentPuts(r: Remote, puts: seq<Put>, k: Key, v: Option<Content>)
    requires Consistent(puts, k, v)
    ensures var after := AfterPuts(r, puts).files;
            if Mentions(puts, k) then k in after && Some(after[k]) == v
            else (k in after <==> k in r.files) && (k in after ==> after[k] == r.files[k])
  {
    if puts != [] {
      var earlier, last := puts[..|puts| - 1], puts[|puts| - 1];
      assert puts == earlier + [last];
      MentionsConcat(earlier, [last], k, v);
      ConsistentPuts(r, earlier, k, v);
      assert Mentions([last], k) <==> last.key == k;
    }
  }

  // ---- The parts of an upload ----------------------------------------------

  ghost predicate Places(puts: seq<Put>, k: Key, v: Option<Content>) {
    Consistent(puts, k, v) && (Mentions(puts, k) <==> v.Some?)
  }

  lemma {:induction false} SnapshotsPlaced(st: State, snapshots: seq<Hash>, h: Hash)
    ensures Places(SnapshotPuts(st, snapshots), SnapshotMeta(h),
                   if h in snapshots && h in st.resourceSnaps then Some(Plain) else None)
    ensures Places(SnapshotPuts(st, snapshots), SnapshotIndex(h),
                   if h in snapshots && h in st.resourceSnaps then Some(Index(st.resourceSnaps[h].index)) else None)
  {
    if snapshots != [] {
      var earlier, last := snapshots[..|snapshots| - 1], snapshots[|snapshots| - 1];
      var v := if h in st.resourceSnaps then Some(Index(st.resourceSnaps[h].index)) else None;
      SnapshotsPlaced(st, earlier, h);
      assert snapshots == earlier + [last];
      assert SnapshotPuts(st, snapshots) == SnapshotPuts(st, earlier) + LastPuts(st, last);
      LastPlaced(st, last, h);
      MentionsConcat(SnapshotPuts(st, earlier), LastPuts(st, last), SnapshotMeta(h), Some(Plain));
      MentionsConcat(SnapshotPuts(st, earlier), LastPuts(st, last), SnapshotIndex(h), v);
      MentionsConcat(SnapshotPuts(st, earlier), LastPuts(st, last), SnapshotMeta(h), None);
      MentionsConcat(SnapshotPuts(st, earlier), LastPuts(st, last), SnapshotIndex(h), None);
    }
  }

  function LastPuts(st: State, h: Hash): seq<Put> {
    if h in st.resourceSnaps
    then [Put(SnapshotMeta(h), Plain), Put(SnapshotIndex(h), Index(st.resourceSnaps[h].index))] else []
  }

  lemma LastPlaced(st: State, last: Hash, h: Hash)
    ensures Places(LastPuts(st, last), SnapshotMeta(h),
                   if h == last && h in st.resourceSnaps then Some(Plain) else None)
    ensures Places(LastPuts(st, last), SnapshotIndex(h),
                   if h == last && h in st.resourceSnaps then Some(Index(st.resourceSnaps[h].index)) else None)
  {
    if last in st.resourceSnaps {
      var puts := LastPuts(st, last);
      assert puts[0].key == SnapshotMeta(last) && puts[1].key == SnapshotIndex(last);
    }
  }

  ghost predicate OfSnapshot(k: Key) {
    k.SnapshotMeta? || k.SnapshotIndex?
  }

  lemma {:induction false} SnapshotKeysOnly(st: State, snapshots: seq<Hash>)
    ensures forall i :: 0 <= i < |SnapshotPuts(st, snapshots)| ==> OfSnapshot(SnapshotPuts(st, snapshots)[i].key)
  {
    if snapshots != [] {
      SnapshotKeysOnly(st, snapshots[..|snapshots| - 1]);
    }
  }

  lemma NewIsChanged(st: State, g: Generation, h: Hash)
    requires WellKeyed(st)
    ensures NewSnapshot(st, g, h) <==> h in ChangedSnapshots(g, ParentGeneration(st, g))
  {
  }

  lemma NewReleaseIsChanged(st: State, g: Generation, r: Remote, h: Hash)
    requires WellKeyed(st)
    ensures NewRelease(st, g, r, h) <==> h == g.release && ChangedRelease(g, ParentGeneration(st, g), r)
  {
  }

  lemma SnapshotPart(st: State, c: ChannelName, g: Generation, r: Remote, k: Key)
    requires WellKeyed(st) && PlanFor(st, g, r).ok
    ensures Places(SnapshotPuts(st, PlanFor(st, g, r).snapshots), k,
                   if OfSnapshot(k) then UploadedAs(st, c, g, r, k) else None)
  {
    var changed := ChangedSnapshots(g, ParentGeneration(st, g));
    var snapshots := PlanFor(st, g, r).snapshots;
    PlanShape(st, g.resources, changed);
    SnapshotKeysOnly(st, snapshots);
    if OfSnapshot(k) {
      var h := k.snapshot;
      NewIsChanged(st, g, h);
      SnapshotsPlaced(st, snapshots, h);
      assert h in changed ==> h in HashesListed(g.resources);
    }
  }

  lemma ReleasePart(st: State, c: ChannelName, g: Generation, r: Remote, k: Key)
    requires WellKeyed(st)
    ensures Places(ReleasePuts(st, g, ChangedRelease(g, ParentGeneration(st, g), r)), k,
                   if k.ReleaseMeta? || k.ReleaseIndex? then UploadedAs(st, c, g, r, k) else None)
  {
    var puts := ReleasePuts(st, g, ChangedRelease(g, ParentGeneration(st, g), r));
    if k.ReleaseMeta? || k.ReleaseIndex? {
      NewReleaseIsChanged(st, g, r, k.snapshot);
    }
    if puts != [] {
      assert puts[0].key == ReleaseMeta(g.release) && puts[1].key == ReleaseIndex(g.release);
    }
  }

  lemma GenerationPart(st: State, c: ChannelName, g: Generation, r: Remote, k: Key)
    ensures Places(GenerationPuts(st, g), k, if k.OfGeneration? then UploadedAs(st, c, g, r, k) else None)
  {
    var h, puts := HistoryPuts(st, g), GenerationPuts(st, g);
    var four := [Put(OfGeneration(g.hash, MetadataFile), Plain),
                 Put(OfGeneration(g.hash, ReleasesFile), Pointer(g.release)),
                 Put(OfGeneration(g.hash, ResourcesFile), Resources(g.resources)),
                 Put(OfGeneration(g.hash, ServerFile), Plain)];
    var v := if k.OfGeneration? then UploadedAs(st, c, g, r, k) else None;
    MentionsConcat(h, four, k, v);
    assert puts == h + four;
    assert four[0].key.file == MetadataFile && four[1].key.file == ReleasesFile;
    assert four[2].key.file == ResourcesFile && four[3].key.file == ServerFile;
    if g.hash in st.histories {
      assert h[0].key == OfGeneration(g.hash, HistoryFile);
    }
  }

  /** One file, when there is one. */
  function MaybePut(there: bool, k: Key, content: Content): seq<Put> {
    if there then [Put(k, content)] else []
  }

  lemma MaybePlaced(there: bool, own: Key, content: Content, k: Key)
    ensures Places(MaybePut(there, own, content), k, if there && k == own then Some(content) else None)
  {
    if there {
      assert MaybePut(there, own, content)[0].key == own;
    }
  }

  lemma PlacesConcat(a: seq<Put>, b: seq<Put>, k: Key, va: Option<Content>, vb: Option<Content>)
    requires Places(a, k, va) && Places(b, k, vb) && (va.None? || vb.None?)
    ensures Places(a + b, k, if va.Some? then va else vb)
  {
    MentionsConcat(a, b, k, if va.Some? then va else vb);
  }

  lemma HeadPart(st: State, c: ChannelName, g: Generation, r: Remote, k: Key)
    ensures Places(HeadPuts(st, c), k, if k.OfHead? || k.Registry? then UploadedAs(st, c, g, r, k) else None)
  {
    var meta, log, veto := OfHead(c, HeadMetadata), OfHead(c, HeadReflog), OfHead(c, HeadSuppressions);
    var a, b := MaybePut(true, meta, Head(HeadOf(st, c))), MaybePut(c in st.reflogs, log, Plain);
    var d, e := MaybePut(c in st.suppressions, veto, Plain), MaybePut(st.channels != [], Registry, Plain);
    assert HeadPuts(st, c) == a + b + d + e;
    MaybePlaced(true, meta, Head(HeadOf(st, c)), k);
    MaybePlaced(c in st.reflogs, log, Plain, k);
    MaybePlaced(c in st.suppressions, veto, Plain, k);
    MaybePlaced(st.channels != [], Registry, Plain, k);
    var va := if k == meta then Some(Head(HeadOf(st, c))) else None;
    var vb := if c in st.reflogs && k == log then Some(Plain) else None;
    var vd := if c in st.suppressions && k == veto then Some(Plain) else None;
    var ve := if st.channels != [] && k == Registry then Some(Plain) else None;
    PlacesConcat(a, b, k, va, vb);
    var vab := if va.Some? then va else vb;
    PlacesConcat(a + b, d, k, vab, vd);
    PlacesConcat(a + b + d, e, k, if vab.Some? then vab else vd, ve);
  }

  lemma AllPlaced(st: State, c: ChannelName, g: Generation, r: Remote, k: Key)
    requires WellKeyed(st) && PlanFor(st, g, r).ok
    ensures Places(PutsFor(st, c, g, r), k, UploadedAs(st, c, g, r, k))
  {
    var v := UploadedAs(st, c, g, r, k);
    var a := SnapshotPuts(st, PlanFor(st, g, r).snapshots);
    var b := ReleasePuts(st, g, ChangedRelease(g, ParentGeneration(st, g), r));
    var d, e := GenerationPuts(st, g), HeadPuts(st, c);
    SnapshotPart(st, c, g, r, k);
    ReleasePart(st, c, g, r, k);
    GenerationPart(st, c, g, r, k);
    HeadPart(st, c, g, r, k);
    MentionsConcat(a, b, k, v);
    MentionsConcat(a + b, d, k, v);
    MentionsConcat(a + b + d, e, k, v);
    assert PutsFor(st, c, g, r) == a + b + d + e;
  }

  // ---- The outcome ---------------------------------------------------------

  /** After a publish without error every file is what the local store has for
      it, if the publish uploads it, and otherwise as it was. */
  lemma PublishedFiles(st: State, c: ChannelName, g: Generation, r: Remote, schedule: seq<Choice>, k: Key)
    requires WellKeyed(st) && HeadIs(st, c, g) && Published(st, c, r, schedule).1
    ensures var after := Published(st, c, r, schedule).0.files;
            match UploadedAs(st, c, g, r, k) {
              case Some(content) => k in after && after[k] == content
              case None => (k in after <==> k in r.files) && (k in after ==> after[k] == r.files[k])
            }
  {
    var puts := PutsFor(st, c, g, r);
    assert puts[..|puts|] == puts;
    AllPlaced(st, c, g, r, k);
    ConsistentPuts(BlobPhase(r, PlanFor(st, g, r).tasks, schedule), puts, k, UploadedAs(st, c, g, r, k));
  }

  ghost predicate NamedBy(index: seq<IndexEntry>, b: BlobId) {
    exists e :: e in index && BlobOf(e) == b
  }

  /** And its blobs are those that were there, and those that the indexes of the
      new snapshots and of a new release name. */
  lemma PublishedBlobs(st: State, c: ChannelName, g: Generation, r: Remote, schedule: seq<Choice>, b: BlobId)
    requires Inv(st) && HeadIs(st, c, g) && Published(st, c, r, schedule).1
    ensures b in Published(st, c, r, schedule).0.blobs <==>
            || b in r.blobs
            || (exists h :: NewSnapshot(st, g, h) && h in st.resourceSnaps && NamedBy(st.resourceSnaps[h].index, b))
            || (NewRelease(st, g, r, g.release) && g.release in st.releaseSnaps
                && NamedBy(st.releaseSnaps[g.release], b))
  {
    var puts := PutsFor(st, c, g, r);
    assert puts[..|puts|] == puts;
    BlobPhaseDone(st, g, r, schedule);
    PutsKeepBlobs(WithBlobs(r, PlanFor(st, g, r)), puts);
    PlanBlobs(st, c, g, r, b);
  }

  lemma {:induction false} PutsKeepBlobs(r: Remote, puts: seq<Put>)
    ensures AfterPuts(r, puts).blobs == r.blobs
  {
    if puts != [] {
      PutsKeepBlobs(r, puts[..|puts| - 1]);
    }
  }

  lemma PlanBlobs(st: State, c: ChannelName, g: Generation, r: Remote, b: BlobId)
    requires Inv(st) && HeadIs(st, c, g) && PlanFor(st, g, r).ok
    ensures b in TaskBlobs(PlanFor(st, g, r).tasks) <==>
            || (exists h :: NewSnapshot(st, g, h) && h in st.resourceSnaps && NamedBy(st.resourceSnaps[h].index, b))
            || (NewRelease(st, g, r, g.release) && g.release in st.releaseSnaps
                && NamedBy(st.releaseSnaps[g.release], b))
  {
    var parent := ParentGeneration(st, g);
    var changed, release := ChangedSnapshots(g, parent), ReleaseTasks(st, g, ChangedRelease(g, parent, r));
    ListedStored(st, c, g);
    PlanNames(st, g.resources, changed);
    assert HashesListed(g.resources) * changed == changed;
    TaskBlobsConcat(ResourcePlan(st, g.resources, changed).tasks, release);
    NewReleaseIsChanged(st, g, r, g.release);
    if release != [] {
      IndexTasksName(st, st.releaseSnaps[g.release]);
    }
    forall h
      ensures NewSnapshot(st, g, h) <==> h in changed
    {
      NewIsChanged(st, g, h);
    }
    BlobsOfNew(st, changed, b);
  }

  lemma BlobsOfNew(st: State, changed: set<Hash>, b: BlobId)
    ensures b in BlobsOf(st, changed) <==>
            exists h :: h in changed && h in st.resourceSnaps && NamedBy(st.resourceSnaps[h].index, b)
  {
    if h :| h in changed && h in st.resourceSnaps && NamedBy(st.resourceSnaps[h].index, b) {
      assert b in SnapshotBlobs(st, h);
    }
  }

  /** A publish that reports an error, or whose head points nowhere, leaves
      every file as it was and deletes no blob. */
  lemma NothingPublished(st: State, c: ChannelName, r: Remote, schedule: seq<Choice>)
    requires WellKeyed(st)
    requires !Published(st, c, r, schedule).1 || HeadOf(st, c) == NoHash
    ensures var after := Published(st, c, r, schedule).0; after.files == r.files && r.blobs <= after.blobs
    ensures HeadOf(st, c) == NoHash ==> Published(st, c, r, schedule) == (r, c in st.heads)
  {
    if HeadOf(st, c) in st.gens {
      BlobPhaseGrows(r, PlanFor(st, st.gens[HeadOf(st, c)], r).tasks, schedule);
    }
  }

  // ---- What is enumerated --------------------------------------------------

  ghost predicate FirstListed(resources: seq<ResourceEntry>, h: Hash, i: nat) {
    && i < |resources| && resources[i].snapshotHash == h
    && forall j :: 0 <= j < i ==> resources[j].snapshotHash != h
  }

  /** Each snapshot once, in the order in which they are first listed. */
  ghost predicate ListedOnce(resources: seq<ResourceEntry>, snapshots: seq<Hash>) {
    && (forall i, j :: 0 <= i < j < |snapshots| ==> snapshots[i] != snapshots[j])
    && forall i, j, a: nat, b: nat ::
         0 <= i < j < |snapshots| && FirstListed(resources, snapshots[i], a) && FirstListed(resources, snapshots[j], b)
         ==> a < b
  }

  lemma FirstListedStays(earlier: seq<ResourceEntry>, last: ResourceEntry, h: Hash, i: nat)
    requires h in HashesListed(earlier)
    ensures FirstListed(earlier + [last], h, i) <==> FirstListed(earlier, h, i)
  {
    var e :| e in earlier && e.snapshotHash == h;
    var k :| 0 <= k < |earlier| && earlier[k] == e;
    var all := earlier + [last];
    assert all[k].snapshotHash == h && forall j :: 0 <= j < |earlier| ==> all[j] == earlier[j];
  }

  lemma ListedOnceMore(earlier: seq<ResourceEntry>, last: ResourceEntry, snapshots: seq<Hash>)
    requires ListedOnce(earlier, snapshots) && forall h :: h in snapshots ==> h in HashesListed(earlier)
    ensures ListedOnce(earlier + [last], snapshots)
    ensures last.snapshotHash !in HashesListed(earlier) ==>
              ListedOnce(earlier + [last], snapshots + [last.snapshotHash])
  {
    var all := earlier + [last];
    forall h, i: nat | h in HashesListed(earlier)
      ensures FirstListed(all, h, i) <==> FirstListed(earlier, h, i)
    {
      FirstListedStays(earlier, last, h, i);
    }
    assert forall i :: 0 <= i < |snapshots| ==> snapshots[i] in snapshots;
    forall k | 0 <= k < |earlier|
      ensures all[k] == earlier[k] && earlier[k].snapshotHash in HashesListed(earlier)
    {
      assert earlier[k] in earlier;
    }
  }

  /** A plan that succeeds has each changed snapshot once, in listed order. */
  lemma {:induction false} PlanListsOnce(st: State, resources: seq<ResourceEntry>, changed: set<Hash>)
    ensures var snapshots := ResourcePlan(st, resources, changed).snapshots;
            ListedOnce(resources, snapshots) && forall h :: h in snapshots ==> h in HashesListed(resources)
  {
    if resources != [] {
      var earlier, last := resources[..|resources| - 1], resources[|resources| - 1];
      PlanListsOnce(st, earlier, changed);
      assert resources == earlier + [last];
      ListedOnceMore(earlier, last, ResourcePlan(st, earlier, changed).snapshots);
    }
  }
}
