/** Runs of store operations and publishes: no remote head ever dangles. */
module PublishRuns {
  import opened StoreTypes
  import opened History
  import opened ReleaseStore
  import opened ResourceManagement
  import opened Publishing
  import opened UploadEffects
  import opened PublishSafety
  import opened StoreRuns
  import opened VerifiedRuns

  // ---- What the remote mirrors ---------------------------------------------

  ghost predicate SameFiles(r: Remote, g: Generation) {
    && OfGeneration(g.hash, ResourcesFile) in r.files && OfGeneration(g.hash, ReleasesFile) in r.files
    && r.files[OfGeneration(g.hash, ResourcesFile)] == Resources(g.resources)
    && r.files[OfGeneration(g.hash, ReleasesFile)] == Pointer(g.release)
  }

  /** The remote holds the newest generation of `chain` as it was created,
      complete, with a history that describes the whole chain. */
  ghost predicate Mirrored(r: Remote, chain: seq<Generation>) {
    && chain != []
    && GenerationComplete(r, chain[0].hash)
    && SameFiles(r, chain[0])
    && Describes(HistoryOn(r, chain[0].hash).value, chain)
  }

  /** A generation can be built on: there is none, or the remote mirrors it. */
  ghost predicate Based(r: Remote, lineage: map<Hash, seq<Generation>>, parent: Hash) {
    parent == NoHash || (parent in lineage && Mirrored(r, lineage[parent]))
  }

  ghost predicate Records(history: ServerHistory, snap: Hash) {
    exists e, s :: e in history && s in e.snapshots && s.snapshotHash == snap
  }

  ghost predicate ListsSnapshot(g: Generation, snap: Hash) {
    exists e :: e in g.resources && e.snapshotHash == snap
  }

  /** A history that describes a generation and its ancestors records only the
      generation's own snapshots and those its parent's history records. */
  lemma RecordedOrListed(history: ServerHistory, chain: seq<Generation>, older: ServerHistory, snap: Hash)
    requires chain != [] && Describes(history, chain) && Describes(older, chain[1..])
    requires forall i :: 0 <= i < |chain| ==> DistinctServers(chain[i].resources)
    requires Records(history, snap)
    ensures ListsSnapshot(chain[0], snap) || Records(older, snap)
  {
    HistoryListsChain(history, chain, snap);
    var i, e :| 0 <= i < |chain| && e in chain[i].resources && e.snapshotHash == snap;
    if i > 0 {
      assert chain[1..][i - 1] == chain[i];
      HistoryListsChain(older, chain[1..], snap);
    }
  }

  // ---- A mirrored parent is enough -----------------------------------------

  /** What is known of the store: created generations never change, and stored
      histories describe all ancestors. */
  ghost predicate Truthful(st: State) {
    Lineal(st.lineage) && GenerationsUnchanged(st.gens, st.lineage) && HistoriesComplete(st.histories, st.lineage)
  }

  ghost predicate CreatedAs(st: State, g: Generation) {
    g.hash in st.lineage && st.lineage[g.hash] != [] && st.lineage[g.hash][0] == g
  }

  ghost predicate HeadIs(st: State, c: ChannelName, g: Generation) {
    g.hash in st.gens && st.gens[g.hash] == g && HeadOf(st, c) == g.hash
  }

  lemma ListedAreComplete(st: State, g: Generation, r: Remote)
    requires Truthful(st) && Based(r, st.lineage, g.meta.parent)
    ensures forall e :: e in g.resources && e.snapshotHash !in ChangedSnapshots(g, ParentGeneration(st, g)) ==>
              SnapshotComplete(r, e.snapshotHash)
  {
    var parent := ParentGeneration(st, g);
    forall e | e in g.resources && e.snapshotHash !in ChangedSnapshots(g, parent)
      ensures SnapshotComplete(r, e.snapshotHash)
    {
      assert ResourceOf(parent.value.resources, e.serverId) == Some(e.snapshotHash);
      ResourceListed(parent.value.resources, e.serverId);
      assert ResourceEntry(e.serverId, e.snapshotHash) in st.lineage[g.meta.parent][0].resources;
    }
  }

  lemma RecordedAreComplete(st: State, g: Generation, r: Remote, snap: Hash)
    requires Truthful(st) && CreatedAs(st, g)
    requires Based(r, st.lineage, g.meta.parent) && g.hash in st.histories && Records(st.histories[g.hash], snap)
    ensures ListsSnapshot(g, snap) || SnapshotComplete(r, snap)
  {
    var chain, history := st.lineage[g.hash], st.histories[g.hash];
    assert LinealAt(st.lineage, g.hash);
    LineageDistinct(st.lineage, g.hash);
    if g.meta.parent == NoHash {
      HistoryListsChain(history, chain, snap);
      assert chain == [g];
    } else {
      var older := HistoryOn(r, chain[1].hash).value;
      assert LinealAt(st.lineage, g.meta.parent);
      RecordedOrListed(history, chain, older, snap);
      if Records(older, snap) {
        var e, s :| e in older && s in e.snapshots && s.snapshotHash == snap;
        assert RecordedComplete(r, older);
      }
    }
  }

  /** A mirrored parent is enough for whatever a publish skips, also when the
      parent was pruned locally; a generation without a local history must be
      mirrored itself. */
  lemma MirroredParentSuffices(st: State, g: Generation, r: Remote)
    requires Truthful(st) && CreatedAs(st, g)
    requires Based(r, st.lineage, g.meta.parent) && (g.hash in st.histories || Mirrored(r, st.lineage[g.hash]))
    ensures SkippedComplete(st, g, r, r)
  {
    ListedAreComplete(st, g, r);
    var changed := ChangedSnapshots(g, ParentGeneration(st, g));
    forall e, s | e in FinalHistory(st, g, r).value && s in e.snapshots && s.snapshotHash !in changed
      ensures SnapshotComplete(r, s.snapshotHash)
    {
      if g.hash in st.histories {
        assert Records(st.histories[g.hash], s.snapshotHash);
        RecordedAreComplete(st, g, r, s.snapshotHash);
      }
    }
  }

  lemma MoreBlobsSuffice(st: State, g: Generation, r: Remote, had: Remote)
    requires SkippedComplete(st, g, r, r) && r.blobs <= had.blobs && had.files == r.files
    ensures SkippedComplete(st, g, r, had)
  {
    assert forall h :: SnapshotComplete(r, h) ==> SnapshotComplete(had, h);
  }

  // ---- Uploads keep the mirror ---------------------------------------------

  /** An upload leaves a mirrored generation's own files as they should be. */
  ghost predicate KeepsMirror(put: Put, chain: seq<Generation>) {
    chain != [] && (put.key.OfGeneration? && put.key.generation == chain[0].hash ==>
      match put.key.file
      case HistoryFile => put.content.HistoryContent? && Describes(put.content.history, chain)
      case ResourcesFile => put.content == Resources(chain[0].resources)
      case ReleasesFile => put.content == Pointer(chain[0].release)
      case _ => true)
  }

  lemma PutKeepsMirror(r: Remote, put: Put, chain: seq<Generation>)
    requires Harmless(r, put) && KeepsMirror(put, chain) && Mirrored(r, chain)
    ensures Mirrored(AfterPut(r, put), chain)
  {
    GenerationSurvives(r, AfterPut(r, put), chain[0].hash);
  }

  lemma {:induction false} PutsKeepMirror(r: Remote, puts: seq<Put>, chain: seq<Generation>)
    requires HarmlessAll(r, puts) && Mirrored(r, chain)
    requires forall i :: 0 <= i < |puts| ==> KeepsMirror(puts[i], chain)
    ensures Mirrored(AfterPuts(r, puts), chain)
  {
    if puts != [] {
      var n := |puts| - 1;
      HarmlessPrefix(r, puts, n);
      PutsKeepMirror(r, puts[..n], chain);
      assert Harmless(AfterPuts(r, puts[..n]), puts[n]);
      PutKeepsMirror(AfterPuts(r, puts[..n]), puts[n], chain);
    }
  }

  /** A publish writes the files of its generation only, and those as created. */
  lemma OwnPutsOnly(st: State, c: ChannelName, g: Generation, r: Remote, h: Hash)
    requires Truthful(st) && CreatedAs(st, g) && h in st.lineage
    ensures forall i :: 0 <= i < |PutsFor(st, c, g, r)| ==> KeepsMirror(PutsFor(st, c, g, r)[i], st.lineage[h])
  {
    var chain := st.lineage[h];
    assert LinealAt(st.lineage, h);
    SnapshotKeys(st, PlanFor(st, g, r).snapshots);
    HeadKeys(st, c);
    var a, b, d := DirectoryPuts(st, g, r), GenerationPuts(st, g), HeadPuts(st, c);
    assert forall i :: 0 <= i < |a| ==> KeepsMirror(a[i], chain);
    assert forall i :: 0 <= i < |b| ==> KeepsMirror(b[i], chain);
    assert forall i :: 0 <= i < |d| ==> KeepsMirror(d[i], chain);
  }

  lemma BlobsKeepMirror(r: Remote, s: Remote, chain: seq<Generation>)
    requires Mirrored(r, chain) && r.blobs <= s.blobs && s.files == r.files
    ensures Mirrored(s, chain)
  {
    GenerationSurvives(r, s, chain[0].hash);
  }

  // ---- One publish ---------------------------------------------------------

  ghost predicate Publishable(st: State, g: Generation, r: Remote) {
    && g.hash in st.lineage && Based(r, st.lineage, g.meta.parent)
    && (g.hash in st.histories || Mirrored(r, st.lineage[g.hash]))
  }

  /** What `r` mirrors `s` mirrors too. */
  ghost predicate MirrorKept(lineage: map<Hash, seq<Generation>>, r: Remote, s: Remote) {
    forall h :: h in lineage && Mirrored(r, lineage[h]) ==> Mirrored(s, lineage[h])
  }

  /** Wherever a publish of a head stops, no remote head dangles and all that
      the remote mirrored it still mirrors. */
  lemma StopKeeps(st: State, c: ChannelName, g: Generation, r: Remote, schedule: seq<Choice>, n: nat)
    requires Truthful(st) && CreatedAs(st, g) && HeadIs(st, c, g) && n <= |PutsFor(st, c, g, r)|
    requires HeadsComplete(r) && Publishable(st, g, r)
    ensures var after := PublishedUpTo(st, c, g, r, schedule, n);
            && HeadsComplete(after)
            && MirrorKept(st.lineage, r, after)
  {
    var had, after := WithBlobs(r, PlanFor(st, g, r)), PublishedUpTo(st, c, g, r, schedule, n);
    MirroredParentSuffices(st, g, r);
    MoreBlobsSuffice(st, g, r, had);
    CrashSafe(st, c, g, r, schedule, n);
    forall h | h in st.lineage && Mirrored(r, st.lineage[h])
      ensures Mirrored(after, st.lineage[h])
    {
      StopKeepsMirror(st, c, g, r, schedule, n, h);
    }
  }

  lemma StopKeepsMirror(st: State, c: ChannelName, g: Generation, r: Remote, schedule: seq<Choice>, n: nat, h: Hash)
    requires Truthful(st) && CreatedAs(st, g) && HeadIs(st, c, g) && n <= |PutsFor(st, c, g, r)|
    requires SkippedComplete(st, g, r, WithBlobs(r, PlanFor(st, g, r)))
    requires h in st.lineage && Mirrored(r, st.lineage[h])
    ensures Mirrored(PublishedUpTo(st, c, g, r, schedule, n), st.lineage[h])
  {
    var plan, puts := PlanFor(st, g, r), PutsFor(st, c, g, r);
    var had := BlobPhase(r, plan.tasks, schedule);
    BlobPhaseGrows(r, plan.tasks, schedule);
    BlobsKeepMirror(r, had, st.lineage[h]);
    if plan.ok && Succeeded(Interleave(Start(plan.tasks, r.blobs), schedule)) {
      BlobPhaseDone(st, g, r, schedule);
      AllPutsHarmless(st, c, g, r);
      HarmlessPrefix(had, puts, n);
      OwnPutsOnly(st, c, g, r, h);
      PutsKeepMirror(had, puts[..n], st.lineage[h]);
    }
  }

  /** Publishing a commit after its parent adds it to what the remote mirrors. */
  lemma PublishMirrors(st: State, c: ChannelName, g: Generation, r: Remote, schedule: seq<Choice>)
    requires Truthful(st) && CreatedAs(st, g) && HeadIs(st, c, g) && Publishable(st, g, r)
    requires Published(st, c, r, schedule).1
    ensures Mirrored(Published(st, c, r, schedule).0, st.lineage[g.hash])
  {
    var had, puts := WithBlobs(r, PlanFor(st, g, r)), PutsFor(st, c, g, r);
    MirroredParentSuffices(st, g, r);
    MoreBlobsSuffice(st, g, r, had);
    CompleteIffSkippedComplete(st, c, g, r, schedule);
    BlobPhaseDone(st, g, r, schedule);
    assert puts[..|puts|] == puts;
    OwnFiles(st, c, g, r, had);
  }

  lemma OwnFiles(st: State, c: ChannelName, g: Generation, r: Remote, had: Remote)
    requires had.files == r.files
    ensures SameFiles(AfterPuts(had, PutsFor(st, c, g, r)), g)
    ensures HistoryOn(AfterPuts(had, PutsFor(st, c, g, r)), g.hash) == FinalHistory(st, g, r)
  {
    PutsInTwo(st, c, g, r, had);
    TailPuts(st, c, g, AfterPuts(had, DirectoryPuts(st, g, r)));
    DirectoriesKeepHistory(st, g, r, had);
  }

  lemma DirectoriesKeepHistory(st: State, g: Generation, r: Remote, had: Remote)
    requires had.files == r.files
    ensures FinalHistory(st, g, AfterPuts(had, DirectoryPuts(st, g, r))) == FinalHistory(st, g, r)
  {
    SnapshotKeys(st, PlanFor(st, g, r).snapshots);
    PutsLeave(had, DirectoryPuts(st, g, r), OfGeneration(g.hash, HistoryFile));
  }

  // ---- Whole runs ----------------------------------------------------------

  datatype Deployment = Deployment(store: State, remote: Remote)

  /** An operation on the local store; or a publish of a channel's head whose
      workers follow `schedule`, interrupted after `files` uploads at the latest. */
  datatype Action = Local(step: Step) | Publish(channel: ChannelName, schedule: seq<Choice>, files: nat)

  function StoppedPublish(st: State, c: ChannelName, r: Remote, schedule: seq<Choice>, files: nat): Remote {
    if HeadOf(st, c) !in st.gens then r
    else
      var g := st.gens[HeadOf(st, c)];
      var all := |PutsFor(st, c, g, r)|;
      PublishedUpTo(st, c, g, r, schedule, if files < all then files else all)
  }

  function Performed(w: Deployment, a: Action): Deployment {
    match a
    case Local(step) => w.(store := Next(w.store, step))
    case Publish(c, schedule, files) => w.(remote := StoppedPublish(w.store, c, w.remote, schedule, files))
  }

  /** Local operations are allowed, and create generations on mirrored parents
      only. Publishes may happen, crash and be retried at any time. */
  ghost predicate Disciplined(w: Deployment, a: Action) {
    a.Local? ==>
      && Allowed(w.store, a.step)
      && forall h :: h in Next(w.store, a.step).lineage && h !in w.store.lineage ==>
           Next(w.store, a.step).lineage[h] != []
               && Based(w.remote, w.store.lineage, Next(w.store, a.step).lineage[h][0].meta.parent)
  }

  ghost predicate ActionAt(states: seq<Deployment>, actions: seq<Action>, i: nat)
    requires |states| == |actions| + 1 && i < |actions|
  {
    Disciplined(states[i], actions[i]) && states[i + 1] == Performed(states[i], actions[i])
  }

  ghost predicate PublishRun(states: seq<Deployment>, actions: seq<Action>) {
    && |states| == |actions| + 1
    && forall i: nat {:trigger ActionAt(states, actions, i)} :: i < |actions| ==> ActionAt(states, actions, i)
  }

  /** Every generation ever created was created on none or on one that the
      remote mirrors, and no remote head dangles. */
  ghost predicate SafeDeployment(w: Deployment) {
    && Inv(w.store)
    && HeadsComplete(w.remote)
    && forall h :: h in w.store.lineage ==>
         w.store.lineage[h] != [] && Based(w.remote, w.store.lineage, w.store.lineage[h][0].meta.parent)
  }

  lemma LocalKeeps(w: Deployment, step: Step)
    requires SafeDeployment(w) && Disciplined(w, Local(step))
    ensures SafeDeployment(Performed(w, Local(step)))
  {
    var next := Next(w.store, step);
    StepKeeps(w.store, step);
    forall h | h in next.lineage
      ensures next.lineage[h] != [] && Based(w.remote, next.lineage, next.lineage[h][0].meta.parent)
    {
      if h in w.store.lineage {
        StepKeepsLineage(w.store, step, h);
      }
      var parent := next.lineage[h][0].meta.parent;
      if parent != NoHash {
        StepKeepsLineage(w.store, step, parent);
      }
    }
  }

  lemma PublishKeeps(w: Deployment, c: ChannelName, schedule: seq<Choice>, files: nat)
    requires SafeDeployment(w)
    ensures SafeDeployment(w.(remote := StoppedPublish(w.store, c, w.remote, schedule, files)))
  {
    var after := StoppedPublish(w.store, c, w.remote, schedule, files);
    var n := Stops(w.store, c, w.remote, schedule, files);
    if HeadOf(w.store, c) in w.store.gens {
      StoppedIsSafe(w, c, schedule, n, after);
    }
  }

  lemma Stops(st: State, c: ChannelName, r: Remote, schedule: seq<Choice>, files: nat) returns (n: nat)
    ensures HeadOf(st, c) !in st.gens ==> StoppedPublish(st, c, r, schedule, files) == r
    ensures HeadOf(st, c) in st.gens ==>
              var g := st.gens[HeadOf(st, c)];
              n <= |PutsFor(st, c, g, r)|
              && StoppedPublish(st, c, r, schedule, files) == PublishedUpTo(st, c, g, r, schedule, n)
  {
    n := 0;
    if HeadOf(st, c) in st.gens {
      var all := |PutsFor(st, c, st.gens[HeadOf(st, c)], r)|;
      n := if files < all then files else all;
    }
  }

  lemma StoppedIsSafe(w: Deployment, c: ChannelName, schedule: seq<Choice>, n: nat, after: Remote)
    requires SafeDeployment(w) && HeadOf(w.store, c) in w.store.gens
    requires n <= |PutsFor(w.store, c, w.store.gens[HeadOf(w.store, c)], w.remote)|
    requires after == PublishedUpTo(w.store, c, w.store.gens[HeadOf(w.store, c)], w.remote, schedule, n)
    ensures SafeDeployment(w.(remote := after))
  {
    HeadIsPublishable(w, c);
    StopKeeps(w.store, c, w.store.gens[HeadOf(w.store, c)], w.remote, schedule, n);
    SafeAfter(w, after);
  }

  lemma HeadIsPublishable(w: Deployment, c: ChannelName)
    requires SafeDeployment(w) && HeadOf(w.store, c) in w.store.gens
    ensures var g := w.store.gens[HeadOf(w.store, c)];
            CreatedAs(w.store, g) && HeadIs(w.store, c, g) && Publishable(w.store, g, w.remote)
  {
  }

  lemma SafeAfter(w: Deployment, r: Remote)
    requires SafeDeployment(w) && HeadsComplete(r) && MirrorKept(w.store.lineage, w.remote, r)
    ensures SafeDeployment(w.(remote := r))
  {
    var lineage := w.store.lineage;
    assert forall h :: Based(w.remote, lineage, h) ==> Based(r, lineage, h);
  }

  /** A publish that ends without error makes its head one to build on. */
  lemma FinishedPublishMirrors(w: Deployment, c: ChannelName, schedule: seq<Choice>, files: nat)
    requires SafeDeployment(w) && HeadOf(w.store, c) in w.store.gens && Published(w.store, c, w.remote, schedule).1
    requires files >= |PutsFor(w.store, c, w.store.gens[HeadOf(w.store, c)], w.remote)|
    ensures Based(Performed(w, Publish(c, schedule, files)).remote, w.store.lineage, HeadOf(w.store, c))
  {
    HeadIsPublishable(w, c);
    PublishMirrors(w.store, c, w.store.gens[HeadOf(w.store, c)], w.remote, schedule);
  }

  /** Along every run of store operations and publishes, in any order and each
      publish interrupted anywhere, in which generations are created on
      published parents, the deployment stays safe. */
  lemma {:induction false} PublishRunKeeps(states: seq<Deployment>, actions: seq<Action>, i: nat)
    requires PublishRun(states, actions) && SafeDeployment(states[0]) && i <= |actions|
    ensures SafeDeployment(states[i])
  {
    if i > 0 {
      PublishRunKeeps(states, actions, i - 1);
      assert ActionAt(states, actions, i - 1);
      match actions[i - 1]
      case Local(step) => LocalKeeps(states[i - 1], step);
      case Publish(c, schedule, files) => PublishKeeps(states[i - 1], c, schedule, files);
    }
  }

  /** From an empty store and remote, no remote head ever dangles. */
  lemma NoHeadEverDangles(states: seq<Deployment>, actions: seq<Action>, i: nat)
    requires PublishRun(states, actions) && states[0] == Deployment(EMPTY, Remote({}, map[])) && i <= |actions|
    ensures HeadsComplete(states[i].remote)
  {
    EmptyInv();
    PublishRunKeeps(states, actions, i);
  }
}
