/** Differential publishing: what a publish uploads, in which order, and how
    the uploads are enumerated. Snapshots that the parent generation already
    lists are skipped, a local blob is uploaded when the remote lacks it, and
    a blob that is missing locally must be on the remote. */
module Publishing {
  import opened StoreTypes
  import opened ReleaseStore
  import opened ResourceManagement

  // ---- The remote ----------------------------------------------------------

  datatype GenerationFile = HistoryFile | MetadataFile | ReleasesFile | ResourcesFile | ServerFile

  datatype HeadFile = HeadMetadata | HeadReflog | HeadSuppressions

  datatype Key =
    | SnapshotMeta(snapshot: Hash)
    | SnapshotIndex(snapshot: Hash)
    | ReleaseMeta(snapshot: Hash)
    | ReleaseIndex(snapshot: Hash)
    | OfGeneration(generation: Hash, file: GenerationFile)
    | OfHead(channel: ChannelName, part: HeadFile)
    | Registry

  /** What a file says, as far as other files depend on it. */
  datatype Content =
    | Plain
    | Index(index: seq<IndexEntry>)
    | Resources(resources: seq<ResourceEntry>)
    | HistoryContent(history: ServerHistory)
    | Pointer(snapshot: Hash)
    | Head(head: Hash)

  datatype Put = Put(key: Key, content: Content)

  datatype Remote = Remote(blobs: set<BlobId>, files: map<Key, Content>)

  function AfterPut(r: Remote, put: Put): Remote {
    r.(files := r.files[put.key := put.content])
  }

  function AfterPuts(r: Remote, puts: seq<Put>): Remote {
    if puts == [] then r else AfterPut(AfterPuts(r, puts[..|puts| - 1]), puts[|puts| - 1])
  }

  // ---- What changed --------------------------------------------------------

  /** The parent, when one is recorded and stored locally. */
  function ParentGeneration(st: State, g: Generation): Option<Generation> {
    if g.meta.parent != NoHash && g.meta.parent in st.gens then Some(st.gens[g.meta.parent]) else None
  }

  function ChangedSnapshots(g: Generation, parent: Option<Generation>): set<Hash> {
    match parent
    case None => set e | e in g.resources :: e.snapshotHash
    case Some(p) =>
      set e | e in g.resources && ResourceOf(p.resources, e.serverId) != Some(e.snapshotHash) :: e.snapshotHash
  }

  /** An unchanged pointer still counts as changed when its index is missing remotely. */
  function ChangedRelease(g: Generation, parent: Option<Generation>, r: Remote): bool {
    if g.release == NoHash then false
    else match parent
      case None => true
      case Some(p) => g.release != p.release || ReleaseIndex(g.release) !in r.files
  }

  // ---- The plan ------------------------------------------------------------

  function TaskFor(st: State, e: IndexEntry): Task {
    if BlobOf(e) in st.blobs then Process(BlobOf(e)) else MustExist(BlobOf(e))
  }

  function IndexTasks(st: State, index: seq<IndexEntry>): seq<Task> {
    seq(|index|, i requires 0 <= i < |index| => TaskFor(st, index[i]))
  }

  function HashesListed(resources: seq<ResourceEntry>): set<Hash> {
    set e | e in resources :: e.snapshotHash
  }

  /** Tasks and snapshots to upload, or failure at the first snapshot that is
      not stored locally. */
  datatype Plan = Plan(tasks: seq<Task>, snapshots: seq<Hash>, ok: bool)

  function ResourcePlan(st: State, resources: seq<ResourceEntry>, changed: set<Hash>): Plan {
    if resources == [] then Plan([], [], true)
    else
      var earlier := resources[..|resources| - 1];
      var before := ResourcePlan(st, earlier, changed);
      var h := resources[|resources| - 1].snapshotHash;
      if !before.ok || h in HashesListed(earlier) || h !in changed then before
      else if h !in st.resourceSnaps then before.(ok := false)
      else Plan(before.tasks + IndexTasks(st, st.resourceSnaps[h].index), before.snapshots + [h], true)
  }

  function ReleaseTasks(st: State, g: Generation, changed: bool): seq<Task> {
    if changed && g.release in st.releaseSnaps then IndexTasks(st, st.releaseSnaps[g.release]) else []
  }

  function PlanFor(st: State, g: Generation, r: Remote): Plan {
    var parent := ParentGeneration(st, g);
    var resources := ResourcePlan(st, g.resources, ChangedSnapshots(g, parent));
    var changed := ChangedRelease(g, parent, r);
    if !resources.ok then resources
    else Plan(resources.tasks + ReleaseTasks(st, g, changed), resources.snapshots,
              !changed || g.release in st.releaseSnaps)
  }

  // ---- The uploads after the blobs -----------------------------------------

  function SnapshotPuts(st: State, snapshots: seq<Hash>): seq<Put> {
    if snapshots == [] then []
    else
      var h := snapshots[|snapshots| - 1];
      SnapshotPuts(st, snapshots[..|snapshots| - 1])
      + (if h in st.resourceSnaps
         then [Put(SnapshotMeta(h), Plain), Put(SnapshotIndex(h), Index(st.resourceSnaps[h].index))] else [])
  }

  function ReleasePuts(st: State, g: Generation, changed: bool): seq<Put> {
    if changed && g.release in st.releaseSnaps
    then [Put(ReleaseMeta(g.release), Plain), Put(ReleaseIndex(g.release), Index(st.releaseSnaps[g.release]))] else []
  }

  /** A generation whose history was stripped has no history file to upload. */
  function HistoryPuts(st: State, g: Generation): seq<Put> {
    if g.hash in st.histories then [Put(OfGeneration(g.hash, HistoryFile), HistoryContent(st.histories[g.hash]))]
        else []
  }

  /** A generation directory's files in name order. */
  function GenerationPuts(st: State, g: Generation): seq<Put> {
    HistoryPuts(st, g)
    + [Put(OfGeneration(g.hash, MetadataFile), Plain),
       Put(OfGeneration(g.hash, ReleasesFile), Pointer(g.release)),
       Put(OfGeneration(g.hash, ResourcesFile), Resources(g.resources)),
       Put(OfGeneration(g.hash, ServerFile), Plain)]
  }

  /** The head directory's files in name order, then the registry. */
  function HeadPuts(st: State, c: ChannelName): seq<Put> {
    [Put(OfHead(c, HeadMetadata), Head(HeadOf(st, c)))]
    + (if c in st.reflogs then [Put(OfHead(c, HeadReflog), Plain)] else [])
    + (if c in st.suppressions then [Put(OfHead(c, HeadSuppressions), Plain)] else [])
    + (if st.channels != [] then [Put(Registry, Plain)] else [])
  }

  function DirectoryPuts(st: State, g: Generation, r: Remote): seq<Put> {
    SnapshotPuts(st, PlanFor(st, g, r).snapshots)
    + ReleasePuts(st, g, ChangedRelease(g, ParentGeneration(st, g), r))
  }

  function PutsFor(st: State, c: ChannelName, g: Generation, r: Remote): seq<Put> {
    DirectoryPuts(st, g, r) + GenerationPuts(st, g) + HeadPuts(st, c)
  }

  /** The remote when a publish of `g`, a channel's head, stops: the workers
      followed `schedule`, and if every blob task succeeded, `n` files went up
      after them. */
  function PublishedUpTo(st: State, c: ChannelName, g: Generation, r: Remote, schedule: seq<Choice>, n: nat): Remote
    requires n <= |PutsFor(st, c, g, r)|
  {
    var pool := Interleave(Start(PlanFor(st, g, r).tasks, r.blobs), schedule);
    var had := Remote(pool.remote, r.files);
    if PlanFor(st, g, r).ok && Succeeded(pool) then AfterPuts(had, PutsFor(st, c, g, r)[..n]) else had
  }

  /** A publish that is not interrupted, and whether it reports no error. */
  function Published(st: State, c: ChannelName, r: Remote, schedule: seq<Choice>): (Remote, bool) {
    var head := HeadOf(st, c);
    if head !in st.gens then (r, c in st.heads && head == NoHash)
    else
      var g := st.gens[head];
      (PublishedUpTo(st, c, g, r, schedule, |PutsFor(st, c, g, r)|),
       PlanFor(st, g, r).ok && Succeeded(Interleave(Start(PlanFor(st, g, r).tasks, r.blobs), schedule)))
  }

  // ---- Enumeration ---------------------------------------------------------

  method EnumerateIndex(store: Store, index: seq<IndexEntry>) returns (tasks: seq<Task>)
    ensures tasks == IndexTasks(store.View(), index)
  {
    tasks := [];
    for i := 0 to |index|
      invariant tasks == IndexTasks(store.View(), index[..i])
    {
      assert index[..i + 1] == index[..i] + [index[i]];
      var blob := BlobOf(index[i]);
      if blob !in store.blobs {
        tasks := tasks + [MustExist(blob)];
      } else {
        tasks := tasks + [Process(blob)];
      }
    }
    assert index[..|index|] == index;
  }

  method EnumerateResourceBlobs(
    store: Store, resources: seq<ResourceEntry>, onlySnapshots: set<Hash>)
    returns (plan: Plan)
    ensures plan == ResourcePlan(store.View(), resources, onlySnapshots)
  {
    ghost var st := store.View();
    var seen: set<Hash> := {};
    plan := Plan([], [], true);
    for i := 0 to |resources|
      invariant plan.ok && plan == ResourcePlan(st, resources[..i], onlySnapshots)
      invariant seen == HashesListed(resources[..i])
    {
      assert resources[..i + 1][..i] == resources[..i];
      assert resources[..i + 1] == resources[..i] + [resources[i]];
      var h := resources[i].snapshotHash;
      if h in seen {
        continue;
      }
      seen := seen + {h};
      if h !in onlySnapshots {
        continue;
      }
      if h !in store.resourceSnaps {
        plan := plan.(ok := false);
        FailureStays(st, resources, onlySnapshots, i + 1);
        return;
      }
      var tasks := EnumerateIndex(store, store.resourceSnaps[h].index);
      plan := Plan(plan.tasks + tasks, plan.snapshots + [h], true);
    }
    assert resources[..|resources|] == resources;
  }

  lemma {:induction false} FailureStays(st: State, resources: seq<ResourceEntry>, changed: set<Hash>, n: nat)
    requires n <= |resources| && !ResourcePlan(st, resources[..n], changed).ok
    ensures ResourcePlan(st, resources, changed) == ResourcePlan(st, resources[..n], changed)
    decreases |resources| - n
  {
    if n < |resources| {
      assert resources[..n + 1][..n] == resources[..n];
      FailureStays(st, resources, changed, n + 1);
    } else {
      assert resources[..n] == resources;
    }
  }

  function ProcessedBlobs(st: State, index: seq<IndexEntry>): set<BlobId> {
    set e | e in index && BlobOf(e) in st.blobs :: BlobOf(e)
  }

  lemma ProcessOfIndex(st: State, index: seq<IndexEntry>)
    ensures ProcessBlobs(IndexTasks(st, index)) == ProcessedBlobs(st, index)
  {
    var tasks := IndexTasks(st, index);
    forall b
      ensures b in ProcessBlobs(tasks) <==> b in ProcessedBlobs(st, index)
    {
      if b in ProcessBlobs(tasks) {
        var t :| t in tasks && t.Process? && t.blob == b;
        var i :| 0 <= i < |tasks| && tasks[i] == t;
        assert index[i] in index;
      }
      if b in ProcessedBlobs(st, index) {
        var e :| e in index && BlobOf(e) in st.blobs && BlobOf(e) == b;
        var i :| 0 <= i < |index| && index[i] == e;
        assert tasks[i] in tasks;
      }
    }
  }

  lemma ProcessOfConcat(a: seq<Task>, b: seq<Task>)
    ensures ProcessBlobs(a + b) == ProcessBlobs(a) + ProcessBlobs(b)
  {
  }

  method CountIndex(store: Store, index: seq<IndexEntry>) returns (unique: set<BlobId>)
    ensures unique == ProcessedBlobs(store.View(), index)
  {
    unique := {};
    for i := 0 to |index|
      invariant unique == ProcessedBlobs(store.View(), index[..i])
    {
      assert index[..i + 1] == index[..i] + [index[i]];
      if BlobOf(index[i]) in store.blobs {
        unique := unique + {BlobOf(index[i])};
      }
    }
    assert index[..|index|] == index;
  }

  method CountResourceBlobs(
    store: Store, resources: seq<ResourceEntry>, changed: set<Hash>)
    returns (unique: set<BlobId>)
    ensures var plan := ResourcePlan(store.View(), resources, changed);
            plan.ok ==> unique == ProcessBlobs(plan.tasks)
  {
    ghost var st := store.View();
    unique := {};
    var seen: set<Hash> := {};
    for i := 0 to |resources|
      invariant ResourcePlan(st, resources[..i], changed).ok ==>
                  unique == ProcessBlobs(ResourcePlan(st, resources[..i], changed).tasks)
      invariant seen == HashesListed(resources[..i]) * changed
    {
      assert resources[..i + 1][..i] == resources[..i];
      assert resources[..i + 1] == resources[..i] + [resources[i]];
      var h := resources[i].snapshotHash;
      if h in seen || h !in changed {
        continue;
      }
      seen := seen + {h};
      if h !in store.resourceSnaps {
        continue;
      }
      ProcessOfIndex(st, st.resourceSnaps[h].index);
      ProcessOfConcat(ResourcePlan(st, resources[..i], changed).tasks, IndexTasks(st, st.resourceSnaps[h].index));
      var more := CountIndex(store, store.resourceSnaps[h].index);
      unique := unique + more;
    }
    assert resources[..|resources|] == resources;
  }

  /** The precomputed total equals the number of distinct paths the plan processes. */
  method CountUniqueBlobs(store: Store, g: Generation, r: Remote) returns (n: nat)
    ensures var plan := PlanFor(store.View(), g, r);
            plan.ok ==> n == |ProcessBlobs(plan.tasks)|
  {
    var parent :=
      if g.meta.parent != NoHash && g.meta.parent in store.gens then Some(store.gens[g.meta.parent]) else None;
    var unique := CountResourceBlobs(store, g.resources, ChangedSnapshots(g, parent));
    var changed := ChangedRelease(g, parent, r);
    ghost var st := store.View();
    assert ProcessBlobs([]) == {};
    if changed && g.release in store.releaseSnaps {
      var more := CountIndex(store, store.releaseSnaps[g.release]);
      ProcessOfIndex(st, st.releaseSnaps[g.release]);
      unique := unique + more;
    }
    ProcessOfConcat(ResourcePlan(st, g.resources, ChangedSnapshots(g, parent)).tasks, ReleaseTasks(st, g, changed));
    n := |unique|;
  }

  lemma {:induction false} AfterConcat(r: Remote, a: seq<Put>, b: seq<Put>)
    ensures AfterPuts(r, a + b) == AfterPuts(AfterPuts(r, a), b)
  {
    if b == [] {
      assert a + b == a;
    } else {
      assert (a + b)[..|a + b| - 1] == a + b[..|b| - 1];
      AfterConcat(r, a, b[..|b| - 1]);
    }
  }

  lemma {:induction false} PlannedAreStored(st: State, resources: seq<ResourceEntry>, changed: set<Hash>)
    ensures forall h :: h in ResourcePlan(st, resources, changed).snapshots ==> h in st.resourceSnaps
  {
    if resources != [] {
      PlannedAreStored(st, resources[..|resources| - 1], changed);
    }
  }

  /** The release's tasks follow the resources' when its snapshot is stored. */
  method EnumerateReleaseBlobs(store: Store, g: Generation, resources: Plan) returns (plan: Plan)
    ensures plan == if g.release in store.releaseSnaps
                    then resources.(tasks := resources.tasks + IndexTasks(store.View(), store.releaseSnaps[g.release]))
                    else resources.(ok := false)
  {
    if g.release !in store.releaseSnaps {
      return resources.(ok := false);
    }
    var tasks := EnumerateIndex(store, store.releaseSnaps[g.release]);
    return resources.(tasks := resources.tasks + tasks);
  }

  // ---- Uploading -----------------------------------------------------------

  class Bucket {
    var blobs: set<BlobId>
    var files: map<Key, Content>

    constructor (blobs: set<BlobId>, files: map<Key, Content>)
      ensures View() == Remote(blobs, files)
    {
      this.blobs, this.files := blobs, files;
    }

    ghost function View(): Remote
      reads this
    {
      Remote(blobs, files)
    }

    method UploadFiles(puts: seq<Put>)
      modifies this`files
      ensures View() == AfterPuts(old(View()), puts)
    {
      for i := 0 to |puts|
        invariant View() == AfterPuts(old(View()), puts[..i])
      {
        assert puts[..i + 1][..i] == puts[..i];
        files := files[puts[i].key := puts[i].content];
      }
      assert puts[..|puts|] == puts;
    }

    method UploadSnapshots(store: Store, snapshots: seq<Hash>)
      requires forall h :: h in snapshots ==> h in store.resourceSnaps
      modifies this`files
      ensures View() == AfterPuts(old(View()), SnapshotPuts(store.View(), snapshots))
    {
      for i := 0 to |snapshots|
        invariant View() == AfterPuts(old(View()), SnapshotPuts(store.View(), snapshots[..i]))
      {
        var h := snapshots[i];
        var puts := [Put(SnapshotMeta(h), Plain), Put(SnapshotIndex(h), Index(store.resourceSnaps[h].index))];
        assert snapshots[..i + 1][..i] == snapshots[..i];
        AfterConcat(old(View()), SnapshotPuts(store.View(), snapshots[..i]), puts);
        UploadFiles(puts);
      }
      assert snapshots[..|snapshots|] == snapshots;
    }

    method UploadRelease(store: Store, g: Generation)
      requires g.release in store.releaseSnaps
      modifies this`files
      ensures View() == AfterPuts(old(View()), ReleasePuts(store.View(), g, true))
    {
      UploadFiles([Put(ReleaseMeta(g.release), Plain),
                   Put(ReleaseIndex(g.release), Index(store.releaseSnaps[g.release]))]);
    }

    method UploadGeneration(store: Store, g: Generation)
      modifies this`files
      ensures View() == AfterPuts(old(View()), GenerationPuts(store.View(), g))
    {
      var puts := if g.hash in store.histories
                  then [Put(OfGeneration(g.hash, HistoryFile), HistoryContent(store.histories[g.hash]))] else [];
      puts := puts + [Put(OfGeneration(g.hash, MetadataFile), Plain),
                      Put(OfGeneration(g.hash, ReleasesFile), Pointer(g.release)),
                      Put(OfGeneration(g.hash, ResourcesFile), Resources(g.resources)),
                      Put(OfGeneration(g.hash, ServerFile), Plain)];
      UploadFiles(puts);
    }

    method PublishHead(store: Store, c: ChannelName)
      requires c in store.heads
      modifies this`files
      ensures View() == AfterPuts(old(View()), HeadPuts(store.View(), c))
    {
      var puts := [Put(OfHead(c, HeadMetadata), Head(store.heads[c]))];
      puts := puts + if c in store.reflogs then [Put(OfHead(c, HeadReflog), Plain)] else [];
      puts := puts + if c in store.suppressions then [Put(OfHead(c, HeadSuppressions), Plain)] else [];
      puts := puts + if store.channels != [] then [Put(Registry, Plain)] else [];
      UploadFiles(puts);
    }

    /** The snapshot directories, the generation, and the head last. */
    method UploadDirectories(store: Store, c: ChannelName, g: Generation, snapshots: seq<Hash>, changed: bool)
      requires forall h :: h in snapshots ==> h in store.resourceSnaps
      requires changed ==> g.release in store.releaseSnaps
      requires c in store.heads
      modifies this`files
      ensures var st := store.View();
              View() == AfterPuts(old(View()), SnapshotPuts(st, snapshots) + ReleasePuts(st, g, changed)
                                               + GenerationPuts(st, g) + HeadPuts(st, c))
    {
      ghost var st, r := store.View(), View();
      ghost var a, b, d, e := SnapshotPuts(st, snapshots), ReleasePuts(st, g, changed), GenerationPuts(st, g),
          HeadPuts(st, c);
      UploadSnapshots(store, snapshots);
      if changed {
        UploadRelease(store, g);
      }
      UploadGeneration(store, g);
      PublishHead(store, c);
      AfterConcat(r, a, b);
      AfterConcat(r, a + b, d);
      AfterConcat(r, a + b + d, e);
    }

    /** Blobs first, by workers that interleave as `schedule` says; then the
        directories. */
    method PublishAllForHead(store: Store, c: ChannelName, schedule: seq<Choice>) returns (ok: bool)
      requires WellKeyed(store.View())
      modifies this
      ensures (View(), ok) == Published(store.View(), c, old(View()), schedule)
    {
      ghost var st, r := store.View(), View();
      var head := store.GetHead(c);
      assert NoHash !in st.gens;
      if head.None? || head.value == NoHash {
        return head.Some?;
      }
      var loaded := store.Load(head.value);
      if loaded.None? {
        return false;
      }
      var g := loaded.value;
      var parent :=
        if g.meta.parent != NoHash && g.meta.parent in store.gens then Some(store.gens[g.meta.parent]) else None;
      var changed := ChangedRelease(g, parent, Remote(blobs, files));
      var plan := EnumerateResourceBlobs(store, g.resources, ChangedSnapshots(g, parent));
      if plan.ok && changed {
        plan := EnumerateReleaseBlobs(store, g, plan);
      }
      assert plan == PlanFor(st, g, r);
      var pool := Interleave(Start(plan.tasks, blobs), schedule);
      blobs := pool.remote;
      if !plan.ok || !Succeeded(pool) {
        return false;
      }
      ghost var puts := PutsFor(st, c, g, r);
      assert puts[..|puts|] == puts;
      PlannedAreStored(st, g.resources, ChangedSnapshots(g, parent));
      UploadDirectories(store, c, g, plan.snapshots, changed);
      return true;
    }
  }
}
