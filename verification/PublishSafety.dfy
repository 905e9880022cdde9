/** Crash safety of a publish. */
module PublishSafety {
  // A crash can leave the remote in exactly these states: some interleaving of
  // blob actions happened and nothing else, or all blob tasks succeeded and a
  // prefix of the directory uploads happened.

  import opened StoreTypes
  import opened ReleaseStore
  import opened ResourceManagement
  import opened Publishing
  import opened UploadEffects

  // ---- The blob phase ------------------------------------------------------

  function BlobPhase(r: Remote, tasks: seq<Task>, schedule: seq<Choice>): Remote {
    Remote(Interleave(Start(tasks, r.blobs), schedule).remote, r.files)
  }

  /** Wherever the workers stop, no head dangles. */
  lemma BlobPhaseSafe(r: Remote, tasks: seq<Task>, schedule: seq<Choice>)
    requires HeadsComplete(r)
    ensures HeadsComplete(BlobPhase(r, tasks, schedule))
  {
    InterleaveKeeps(Start(tasks, r.blobs), schedule);
    HeadsSurvive(r, BlobPhase(r, tasks, schedule));
  }

  lemma BlobPhaseGrows(r: Remote, tasks: seq<Task>, schedule: seq<Choice>)
    ensures r.blobs <= BlobPhase(r, tasks, schedule).blobs
  {
    InterleaveKeeps(Start(tasks, r.blobs), schedule);
  }

  lemma BlobPhaseDone(st: State, g: Generation, r: Remote, schedule: seq<Choice>)
    requires Succeeded(Interleave(Start(PlanFor(st, g, r).tasks, r.blobs), schedule))
    ensures BlobPhase(r, PlanFor(st, g, r).tasks, schedule) == WithBlobs(r, PlanFor(st, g, r))
  {
    AtQuiescence(PlanFor(st, g, r).tasks, r.blobs, schedule);
  }

  // ---- Requests ------------------------------------------------------------

  /** Local blobs are processed, others must exist. */
  ghost predicate ByStore(st: State, tasks: seq<Task>) {
    forall t :: t in tasks ==> t == if t.blob in st.blobs then Process(t.blob) else MustExist(t.blob)
  }

  lemma {:induction false} PlanByStore(st: State, resources: seq<ResourceEntry>, changed: set<Hash>)
    ensures ByStore(st, ResourcePlan(st, resources, changed).tasks)
  {
    if resources != [] {
      PlanByStore(st, resources[..|resources| - 1], changed);
    }
  }

  lemma WholePlanByStore(st: State, g: Generation, r: Remote)
    ensures ByStore(st, PlanFor(st, g, r).tasks)
  {
    PlanByStore(st, g.resources, ChangedSnapshots(g, ParentGeneration(st, g)));
  }

  /** However the workers of a publish interleave, a local blob is checked and
      uploaded at most once; a blob that is missing locally is never uploaded,
      and once the workers are done it was asked for once by every entry of an
      uploaded index that names it. */
  lemma PlanRequests(st: State, g: Generation, r: Remote, schedule: seq<Choice>, b: BlobId)
    ensures var tasks := PlanFor(st, g, r).tasks;
            var pool := Interleave(Start(tasks, r.blobs), schedule);
            && (b in st.blobs ==> pool.checks[b] <= 1 && pool.uploads[b] <= 1)
            && (b !in st.blobs ==> pool.checks[b] <= |MustExistTasks(tasks, b)| && pool.uploads[b] == 0)
            && (b !in st.blobs && Quiescent(pool) ==> pool.checks[b] == |MustExistTasks(tasks, b)|)
  {
    var tasks := PlanFor(st, g, r).tasks;
    WholePlanByStore(st, g, r);
    EachPathOnce(tasks, r.blobs, schedule, b);
    if Quiescent(Interleave(Start(tasks, r.blobs), schedule)) {
      ChecksAtQuiescence(tasks, r.blobs, schedule, b);
    }
  }

  // ---- Crash safety --------------------------------------------------------

  /** From a remote without dangling heads, a publish whose skipped entities
      are complete leaves no dangling head wherever it stops: at any point of
      any interleaving of the workers, and after every prefix of the uploads. */
  lemma CrashSafe(st: State, c: ChannelName, g: Generation, r: Remote, schedule: seq<Choice>, n: nat)
    requires HeadOf(st, c) == g.hash && n <= |PutsFor(st, c, g, r)|
    requires HeadsComplete(r)
    requires PlanFor(st, g, r).ok ==> SkippedComplete(st, g, r, WithBlobs(r, PlanFor(st, g, r)))
    ensures HeadsComplete(PublishedUpTo(st, c, g, r, schedule, n))
  {
    var tasks := PlanFor(st, g, r).tasks;
    BlobPhaseSafe(r, tasks, schedule);
    if PlanFor(st, g, r).ok && Succeeded(Interleave(Start(tasks, r.blobs), schedule)) {
      BlobPhaseDone(st, g, r, schedule);
      AllPutsHarmless(st, c, g, r);
      HarmlessPrefix(WithBlobs(r, PlanFor(st, g, r)), PutsFor(st, c, g, r), n);
      HarmlessKeeps(WithBlobs(r, PlanFor(st, g, r)), PutsFor(st, c, g, r)[..n]);
    }
  }

  // ---- What a finished publish leaves --------------------------------------

  /** The generation and head directories complete the generation exactly when
      all it refers to is complete before them. */
  lemma TailCompletes(st: State, c: ChannelName, g: Generation, r: Remote)
    ensures GenerationComplete(AfterPuts(r, GenerationPuts(st, g) + HeadPuts(st, c)), g.hash) <==>
            AllReferredTo(st, g, r)
  {
    var after := AfterPuts(r, GenerationPuts(st, g) + HeadPuts(st, c));
    TailPuts(st, c, g, r);
    SnapshotsKept(r, after, g.resources, FinalHistory(st, g, r));
  }

  lemma CompleteAfter(st: State, c: ChannelName, g: Generation, r: Remote)
    requires PlanFor(st, g, r).ok
    ensures var had := WithBlobs(r, PlanFor(st, g, r));
            GenerationComplete(AfterPuts(had, PutsFor(st, c, g, r)), g.hash) <==> SkippedComplete(st, g, r, had)
  {
    var had := WithBlobs(r, PlanFor(st, g, r));
    PutsInTwo(st, c, g, r, had);
    DirectoriesDone(st, g, r);
    TailCompletes(st, c, g, AfterPuts(had, DirectoryPuts(st, g, r)));
  }

  /** First the snapshot and release directories, then the generation and the head. */
  lemma PutsInTwo(st: State, c: ChannelName, g: Generation, r: Remote, had: Remote)
    ensures AfterPuts(had, PutsFor(st, c, g, r)) ==
            AfterPuts(AfterPuts(had, DirectoryPuts(st, g, r)), GenerationPuts(st, g) + HeadPuts(st, c))
  {
    var dirs, tail := DirectoryPuts(st, g, r), GenerationPuts(st, g) + HeadPuts(st, c);
    AfterConcat(had, dirs, tail);
    assert PutsFor(st, c, g, r) == dirs + tail;
  }

  lemma SnapshotsKept(r: Remote, s: Remote, resources: seq<ResourceEntry>, history: Option<ServerHistory>)
    requires forall h :: SnapshotComplete(s, h) <==> SnapshotComplete(r, h)
    ensures SnapshotsComplete(s, resources) <==> SnapshotsComplete(r, resources)
    ensures history.Some? ==> (RecordedComplete(s, history.value) <==> RecordedComplete(r, history.value))
  {
  }

  /** A publish that succeeds leaves its head complete exactly when what it
      skipped was: the differential upload is only as good as the parent's. */
  lemma CompleteIffSkippedComplete(st: State, c: ChannelName, g: Generation, r: Remote, schedule: seq<Choice>)
    requires g.hash in st.gens && st.gens[g.hash] == g && HeadOf(st, c) == g.hash
    requires Published(st, c, r, schedule).1
    ensures GenerationComplete(Published(st, c, r, schedule).0, g.hash) <==>
            SkippedComplete(st, g, r, WithBlobs(r, PlanFor(st, g, r)))
  {
    var puts := PutsFor(st, c, g, r);
    assert puts[..|puts|] == puts;
    BlobPhaseDone(st, g, r, schedule);
    CompleteAfter(st, c, g, r);
  }
}
