/** When a publish succeeds. */
module PublishProgress {
  // No schedule of the workers and no earlier crash stands in the way: what
  // decides is whether every blob of the changed snapshots is to be had, and
  // whether a changed release is stored.

  import opened StoreTypes
  import opened ReleaseStore
  import opened Reachability
  import opened ResourceManagement
  import opened Publishing
  import opened UploadEffects
  import opened PublishSafety
  import opened StoreRuns
  import opened PublishRuns

  // ---- The blobs of a plan -------------------------------------------------

  lemma IndexTasksName(st: State, index: seq<IndexEntry>)
    ensures TaskBlobs(IndexTasks(st, index)) == IndexBlobs(index)
  {
    IndexTasksBlobs(st, index);
    forall b | b in TaskBlobs(IndexTasks(st, index))
      ensures b in IndexBlobs(index)
    {
      var t :| t in IndexTasks(st, index) && t.blob == b;
      var i :| 0 <= i < |index| && IndexTasks(st, index)[i] == t;
      assert index[i] in index;
    }
  }

  lemma BlobsOfOneMore(st: State, snaps: set<Hash>, h: Hash)
    ensures BlobsOf(st, snaps + {h}) == BlobsOf(st, snaps) + SnapshotBlobs(st, h)
  {
  }

  /** A plan for stored snapshots names their blobs and no others. */
  lemma {:induction false} PlanNames(st: State, resources: seq<ResourceEntry>, changed: set<Hash>)
    requires forall e :: e in resources && e.snapshotHash in changed ==> e.snapshotHash in st.resourceSnaps
    ensures ResourcePlan(st, resources, changed).ok
    ensures TaskBlobs(ResourcePlan(st, resources, changed).tasks) == BlobsOf(st, HashesListed(resources) * changed)
  {
    if resources != [] {
      var earlier, h := resources[..|resources| - 1], resources[|resources| - 1].snapshotHash;
      PlanNames(st, earlier, changed);
      assert resources == earlier + [resources[|resources| - 1]];
      assert HashesListed(resources) == HashesListed(earlier) + {h};
      if h in HashesListed(earlier) || h !in changed {
        assert HashesListed(resources) * changed == HashesListed(earlier) * changed;
      } else {
        assert HashesListed(resources) * changed == HashesListed(earlier) * changed + {h};
        BlobsOfOneMore(st, HashesListed(earlier) * changed, h);
        IndexTasksName(st, st.resourceSnaps[h].index);
        TaskBlobsConcat(ResourcePlan(st, earlier, changed).tasks, IndexTasks(st, st.resourceSnaps[h].index));
      }
    }
  }

  lemma RequiredByStore(st: State, tasks: seq<Task>, remote: set<BlobId>)
    requires ByStore(st, tasks)
    ensures Separated(tasks)
    ensures RequiredPresent(tasks, remote) <==> TaskBlobs(tasks) <= st.blobs + remote
  {
    if RequiredPresent(tasks, remote) {
      forall b | b in TaskBlobs(tasks)
        ensures b in st.blobs + remote
      {
        var t :| t in tasks && t.blob == b;
      }
    }
    if TaskBlobs(tasks) <= st.blobs + remote {
      forall t | t in tasks && t.MustExist?
        ensures t.blob in remote
      {
        assert t.blob in TaskBlobs(tasks);
      }
    }
  }

  // ---- When a publish succeeds ---------------------------------------------

  ghost predicate ReleaseToBeHad(st: State, g: Generation, remote: set<BlobId>) {
    g.release in st.releaseSnaps && IndexBlobs(st.releaseSnaps[g.release]) <= st.blobs + remote
  }

  /** Every blob of the snapshots that changed is stored locally or already on
      the remote, and so it is with the release, which must be stored. */
  ghost predicate ToBeHad(st: State, g: Generation, r: Remote) {
    var parent := ParentGeneration(st, g);
    && BlobsOf(st, ChangedSnapshots(g, parent)) <= st.blobs + r.blobs
    && (ChangedRelease(g, parent, r) ==> ReleaseToBeHad(st, g, r.blobs))
  }

  lemma ListedStored(st: State, c: ChannelName, g: Generation)
    requires Inv(st) && HeadIs(st, c, g)
    ensures forall e :: e in g.resources ==> e.snapshotHash in st.resourceSnaps
  {
    assert g.hash in st.histories;
    forall e | e in g.resources
      ensures e.snapshotHash in st.resourceSnaps
    {
      ListedAreStored(st, g.hash, e);
    }
  }

  lemma PlanOkIff(st: State, c: ChannelName, g: Generation, r: Remote)
    requires Inv(st) && HeadIs(st, c, g)
    ensures PlanFor(st, g, r).ok && RequiredPresent(PlanFor(st, g, r).tasks, r.blobs) <==> ToBeHad(st, g, r)
    ensures Separated(PlanFor(st, g, r).tasks)
  {
    var parent := ParentGeneration(st, g);
    var changed, tasks := ChangedSnapshots(g, parent), PlanFor(st, g, r).tasks;
    ListedStored(st, c, g);
    PlanNames(st, g.resources, changed);
    assert HashesListed(g.resources) * changed == changed;
    WholePlanByStore(st, g, r);
    RequiredByStore(st, tasks, r.blobs);
    var release := ReleaseTasks(st, g, ChangedRelease(g, parent, r));
    TaskBlobsConcat(ResourcePlan(st, g.resources, changed).tasks, release);
    if release != [] {
      IndexTasksName(st, st.releaseSnaps[g.release]);
    }
  }

  /** When no request errs and the workers come to their end, a publish of a
      head succeeds exactly when every blob is to be had. */
  lemma PublishSucceedsIff(st: State, c: ChannelName, g: Generation, r: Remote, schedule: seq<Choice>)
    requires Inv(st) && HeadIs(st, c, g)
    requires NoErrors(schedule) && Quiescent(Interleave(Start(PlanFor(st, g, r).tasks, r.blobs), schedule))
    ensures Published(st, c, r, schedule).1 <==> ToBeHad(st, g, r)
  {
    PlanOkIff(st, c, g, r);
    SucceedsIff(PlanFor(st, g, r).tasks, r.blobs, schedule);
  }

  /** Some publish of a head succeeds exactly when every blob is to be had. */
  lemma PublishCanSucceedIff(st: State, c: ChannelName, g: Generation, r: Remote)
    requires Inv(st) && HeadIs(st, c, g)
    ensures (exists schedule :: Published(st, c, r, schedule).1) <==> ToBeHad(st, g, r)
  {
    var tasks := PlanFor(st, g, r).tasks;
    PlanOkIff(st, c, g, r);
    if ToBeHad(st, g, r) {
      CanFinish(tasks, r.blobs, []);
      var rest :| NoErrors(rest) && Succeeded(Interleave(Start(tasks, r.blobs), [] + rest));
      assert Published(st, c, r, [] + rest).1;
    }
    if schedule :| Published(st, c, r, schedule).1 {
      SuccessNeedsRequired(tasks, r.blobs, schedule);
    }
  }

  // ---- Retries -------------------------------------------------------------

  /** An interrupted publish takes nothing off the remote. */
  ghost predicate Grown(r: Remote, s: Remote) {
    r.blobs <= s.blobs && r.files.Keys <= s.files.Keys
  }

  lemma {:induction false} PutsGrow(r: Remote, puts: seq<Put>)
    ensures Grown(r, AfterPuts(r, puts))
  {
    if puts != [] {
      PutsGrow(r, puts[..|puts| - 1]);
    }
  }

  lemma StopGrows(st: State, c: ChannelName, r: Remote, schedule: seq<Choice>, files: nat)
    ensures Grown(r, StoppedPublish(st, c, r, schedule, files))
  {
    if HeadOf(st, c) in st.gens {
      var g := st.gens[HeadOf(st, c)];
      var had := BlobPhase(r, PlanFor(st, g, r).tasks, schedule);
      BlobPhaseGrows(r, PlanFor(st, g, r).tasks, schedule);
      var n := Stops(st, c, r, schedule, files);
      PutsGrow(had, PutsFor(st, c, g, r)[..n]);
    }
  }

  lemma StillToBeHad(st: State, g: Generation, r: Remote, s: Remote)
    requires ToBeHad(st, g, r) && Grown(r, s)
    ensures ToBeHad(st, g, s)
  {
  }

  function AfterTries(w: Deployment, tries: seq<Action>): Deployment {
    if tries == [] then w else Performed(AfterTries(w, tries[..|tries| - 1]), tries[|tries| - 1])
  }

  /** A safe deployment, and a head whose publish can succeed. */
  ghost predicate CanPublish(w: Deployment, c: ChannelName) {
    SafeDeployment(w) && HeadOf(w.store, c) in w.store.gens
    && ToBeHad(w.store, w.store.gens[HeadOf(w.store, c)], w.remote)
  }

  lemma TryKeeps(w: Deployment, c: ChannelName, a: Action)
    requires CanPublish(w, c) && a.Publish?
    ensures Performed(w, a).store == w.store && CanPublish(Performed(w, a), c)
  {
    PublishKeeps(w, a.channel, a.schedule, a.files);
    StopGrows(w.store, a.channel, w.remote, a.schedule, a.files);
    StillToBeHad(w.store, w.store.gens[HeadOf(w.store, c)], w.remote, Performed(w, a).remote);
  }

  lemma {:induction false} TriesKeep(w: Deployment, c: ChannelName, tries: seq<Action>)
    requires CanPublish(w, c) && forall a :: a in tries ==> a.Publish?
    ensures AfterTries(w, tries).store == w.store && CanPublish(AfterTries(w, tries), c)
  {
    if tries != [] {
      TriesKeep(w, c, tries[..|tries| - 1]);
      assert tries[|tries| - 1] in tries;
      TryKeeps(AfterTries(w, tries[..|tries| - 1]), c, tries[|tries| - 1]);
    }
  }

  /** A publish that reports no error and makes its head one to build on. */
  ghost predicate SucceedsBy(w: Deployment, c: ChannelName, schedule: seq<Choice>, files: nat) {
    && Published(w.store, c, w.remote, schedule).1
    && Based(Performed(w, Publish(c, schedule, files)).remote, w.store.lineage, HeadOf(w.store, c))
  }

  lemma OneMoreSucceeds(w: Deployment, c: ChannelName)
    requires CanPublish(w, c)
    ensures exists schedule, files :: SucceedsBy(w, c, schedule, files)
  {
    var g := w.store.gens[HeadOf(w.store, c)];
    PublishCanSucceedIff(w.store, c, g, w.remote);
    var schedule :| Published(w.store, c, w.remote, schedule).1;
    var files := |PutsFor(w.store, c, g, w.remote)|;
    FinishedPublishMirrors(w, c, schedule, files);
    assert SucceedsBy(w, c, schedule, files);
  }

  /** Wherever publishes of this and other heads were interrupted, and however
      many of them there were, a retry can succeed if the first try could. */
  lemma RetriesCanSucceed(w: Deployment, c: ChannelName, tries: seq<Action>)
    requires CanPublish(w, c) && forall a :: a in tries ==> a.Publish?
    ensures exists schedule, files :: SucceedsBy(AfterTries(w, tries), c, schedule, files)
  {
    TriesKeep(w, c, tries);
    OneMoreSucceeds(AfterTries(w, tries), c);
  }
}
