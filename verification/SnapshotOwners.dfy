/** Histories record each server's own snapshots, along every run. */
module SnapshotOwners {
  import opened StoreTypes
  import opened History
  import opened ReleaseStore
  import opened Reachability
  import opened Promotion
  import opened PromotionProperties
  import opened StoreRuns
  import opened PruneMeaning

  // ---- Own snapshots -------------------------------------------------------

  ghost predicate OwnedBy(snaps: map<Hash, ResourceSnapshot>, h: Hash, sid: ServerId) {
    h in snaps ==> snaps[h].meta.serverId == sid
  }

  ghost predicate HistoryOwned(history: ServerHistory, snaps: map<Hash, ResourceSnapshot>) {
    forall e, s :: e in history && s in e.snapshots ==> OwnedBy(snaps, s.snapshotHash, e.serverId)
  }

  ghost predicate ListsOwned(resources: seq<ResourceEntry>, snaps: map<Hash, ResourceSnapshot>) {
    forall e :: e in resources ==> OwnedBy(snaps, e.snapshotHash, e.serverId)
  }

  /** Every stored history records snapshots of the server they are recorded for. */
  ghost predicate AllOwned(st: State) {
    forall h :: h in st.histories ==> HistoryOwned(st.histories[h], st.resourceSnaps)
  }

  lemma LookupOwned(history: ServerHistory, sid: ServerId, snaps: map<Hash, ResourceSnapshot>)
    requires HistoryOwned(history, snaps)
    ensures forall s :: s in SnapshotsOf(history, sid) ==> OwnedBy(snaps, s.snapshotHash, sid)
  {
    if Lookup(history, sid).Some? {
      LookupIsMember(history, sid);
    }
  }

  lemma MergedOwned(history: ServerHistory, g: Generation, snaps: map<Hash, ResourceSnapshot>)
    requires HistoryOwned(history, snaps) && ListsOwned(g.resources, snaps) && DistinctServers(g.resources)
    ensures HistoryOwned(Merged(history, g), snaps)
  {
    MergedDistinct(history, g);
    forall e, s | e in Merged(history, g) && s in e.snapshots
      ensures OwnedBy(snaps, s.snapshotHash, e.serverId)
    {
      LookupMember(Merged(history, g), e);
      MergedLookup(history, g, e.serverId);
      LookupOwned(history, e.serverId, snaps);
      if ResourceOf(g.resources, e.serverId).Some? {
        ResourceListed(g.resources, e.serverId);
      }
    }
  }

  lemma CreateKeepsOwned(st: State, g: Generation)
    requires AllOwned(st) && ListsOwned(g.resources, st.resourceSnaps) && DistinctServers(g.resources)
    ensures AllOwned(Created(st, g))
  {
    var parent := ParentHistory(st, g.meta.parent);
    assert HistoryOwned(parent, st.resourceSnaps);
    MergedOwned(parent, g, st.resourceSnaps);
    CreatedRecords(st, g);
  }

  lemma CreatedRecords(st: State, g: Generation)
    ensures Created(st, g).histories == st.histories[g.hash := Merged(ParentHistory(st, g.meta.parent), g)]
    ensures Created(st, g).resourceSnaps == st.resourceSnaps
  {
    var created, merged := Created(st, g), Merged(ParentHistory(st, g.meta.parent), g);
    if g.hash in st.gens {
      assert created.histories == st.histories[g.hash := merged];
    } else {
      assert created.histories == st.histories[g.hash := merged];
    }
  }

  // ---- What a head vouches for ---------------------------------------------

  /** What a generation with a history lists, the history records. */
  lemma HeadListsOwned(st: State, h: Hash)
    requires Inv(st) && AllOwned(st) && h in st.histories
    ensures ListsOwned(st.gens[h].resources, st.resourceSnaps)
  {
    var chain := st.lineage[h];
    assert st.gens[h] == chain[0] && LinealAt(st.lineage, h);
    forall e | e in st.gens[h].resources
      ensures OwnedBy(st.resourceSnaps, e.snapshotHash, e.serverId)
    {
      var i :| 0 <= i < |chain[0].resources| && chain[0].resources[i] == e;
      ResourceOfDistinct(chain[0].resources, e.serverId);
      RunsHashes(chain, e.serverId, e.snapshotHash);
      assert SnapshotsOf(st.histories[h], e.serverId) == Runs(chain, e.serverId);
      LookupOwned(st.histories[h], e.serverId, st.resourceSnaps);
    }
  }

  lemma VouchedOwned(st: State, source: Hash, c: Candidate)
    requires Inv(st) && AllOwned(st) && source in st.histories && Vouched(st, source, c)
    ensures OwnedBy(st.resourceSnaps, c.checkout, c.server)
  {
    HeadListsOwned(st, source);
    assert HistoryOwned(st.histories[source], st.resourceSnaps);
  }

  /** A promotion that is not refused admits the servers' own snapshots only. */
  lemma AdmittedOwned(st: State, rq: Request)
    requires Inv(st) && AllOwned(st) && Refusal(st, rq) == None
    ensures OwnSnapshots(st, AdmittedBy(st, rq))
  {
    RefusedUnless(st, rq);
    var source := HeadOf(st, rq.source);
    assert source in st.histories by {
      assert rq.source in st.heads;
    }
    forall c | c in AdmittedBy(st, rq)
      ensures OwnedBy(st.resourceSnaps, c.checkout, c.server)
    {
      AdmittedExactly(st, rq, c);
      VouchedOwned(st, source, c);
    }
  }

  lemma PromotedListsOwned(st: State, rq: Request)
    requires Inv(st) && AllOwned(st) && Refusal(st, rq) == None
    ensures ListsOwned(OverlaidResources(ParentResources(st, rq.target), AdmittedBy(st, rq)), st.resourceSnaps)
  {
    var parent, admitted := ParentResources(st, rq.target), AdmittedBy(st, rq);
    AdmittedOwned(st, rq);
    assert ListsOwned(parent, st.resourceSnaps) by {
      if parent != [] {
        assert HeadOf(st, rq.target) in st.histories;
        HeadListsOwned(st, HeadOf(st, rq.target));
      }
    }
    forall e | e in OverlaidResources(parent, admitted)
      ensures OwnedBy(st.resourceSnaps, e.snapshotHash, e.serverId)
    {
      OverlaySources(parent, admitted, e);
    }
  }

  // ---- Runs ----------------------------------------------------------------

  /** A committed generation lists each server's own snapshots. */
  ghost predicate CommitsOwn(st: State, step: Step) {
    step.Commit? ==> ListsOwned(step.generation.resources, st.resourceSnaps)
  }

  lemma SameOwned(a: State, b: State)
    requires AllOwned(a) && b.histories.Keys <= a.histories.Keys
    requires forall h :: h in b.histories ==> b.histories[h] == a.histories[h]
    requires forall h :: h in b.resourceSnaps && h in a.resourceSnaps ==> b.resourceSnaps[h] == a.resourceSnaps[h]
    requires HistoriesStored(a.histories, a.resourceSnaps.Keys)
    ensures AllOwned(b)
  {
    forall h | h in b.histories
      ensures HistoryOwned(b.histories[h], b.resourceSnaps)
    {
      assert HistoryOwned(a.histories[h], a.resourceSnaps) && SnapshotsWithin(a.histories[h], a.resourceSnaps.Keys);
    }
  }

  lemma CommitKeepsOwned(st: State, c: ChannelName, g: Generation, push: bool, now: string)
    requires AllOwned(st) && ListsOwned(g.resources, st.resourceSnaps) && DistinctServers(g.resources)
    ensures AllOwned(Committed(st, c, g, push, now))
  {
    var registered := EnsuredChannel(st, c);
    RegisterOwned(st, c);
    CreateKeepsOwned(registered, g);
    if push {
      MoveOwned(Created(registered, g), c, g.hash, "push", now);
    }
  }

  lemma RegisterOwned(st: State, c: ChannelName)
    requires AllOwned(st)
    ensures AllOwned(EnsuredChannel(st, c)) && EnsuredChannel(st, c).resourceSnaps == st.resourceSnaps
  {
  }

  lemma MoveOwned(st: State, c: ChannelName, target: Hash, op: string, now: string)
    requires AllOwned(st)
    ensures AllOwned(HeadMoved(st, c, target, op, now))
  {
  }

  lemma PushKeepsOwned(st: State, g: Generation, c: ChannelName, now: string)
    requires AllOwned(st) && ListsOwned(g.resources, st.resourceSnaps) && DistinctServers(g.resources)
    ensures AllOwned(CreatedAndPushed(st, g, c, now))
  {
    CreateKeepsOwned(st, g);
    RegisterOwned(Created(st, g), c);
    MoveOwned(EnsuredChannel(Created(st, g), c), c, g.hash, "push", now);
  }

  lemma PromoteKeepsOwned(st: State, rq: Request, h: Hash, now: string, subject: string)
    requires Inv(st) && AllOwned(st) && Allowed(st, Promote(rq, h, now, subject))
    requires Refusal(st, rq).None? && AdmittedBy(st, rq) != []
    ensures AllOwned(Promoted(st, rq, h, now, subject))
  {
    PromotedListsOwned(st, rq);
    PromotedIsCreatable(st, rq, h, now, subject);
    PushKeepsOwned(st, PromotedGeneration(st, rq, h, now, subject), rq.target, now);
  }

  ghost predicate KeepsRecords(st: State, st': State) {
    && st'.histories == st.histories
    && forall h :: h in st.resourceSnaps ==> h in st'.resourceSnaps && st'.resourceSnaps[h] == st.resourceSnaps[h]
  }

  lemma PlainKeepsRecords(st: State, step: Step)
    requires !step.Commit? && !step.Promote? && !step.Prune?
    ensures KeepsRecords(st, Next(st, step))
  {
    PlainStep(st, step);
    forall h | h in st.resourceSnaps
      ensures h in Next(st, step).resourceSnaps && Next(st, step).resourceSnaps[h] == st.resourceSnaps[h]
    {
      OnlyPruneDeletes(st, step, h);
    }
  }

  /** Steps that create nothing keep what is recorded. */
  lemma PlainKeepsOwned(st: State, step: Step)
    requires Inv(st) && AllOwned(st) && !step.Commit? && !step.Promote? && !step.Prune?
    ensures AllOwned(Next(st, step))
  {
    PlainKeepsRecords(st, step);
    SameOwned(st, Next(st, step));
  }

  lemma StepKeepsOwned(st: State, step: Step)
    requires Inv(st) && Allowed(st, step) && AllOwned(st) && CommitsOwn(st, step)
    ensures AllOwned(Next(st, step))
  {
    if step.Commit? {
      CommitKeepsOwned(st, step.channel, step.generation, step.push, step.now);
    } else if step.Promote? {
      if Refusal(st, step.request).None? && AdmittedBy(st, step.request) != [] {
        PromoteKeepsOwned(st, step.request, step.hash, step.now, step.subject);
      } else {
        assert Next(st, step) == st;
      }
    } else if step.Prune? {
      PruneStep(st, step);
      PruneIsExact(st, step.depth);
      SameOwned(st, Pruned(st, step.depth));
    } else {
      PlainKeepsOwned(st, step);
    }
  }

  ghost predicate CommitsOwnAt(states: seq<State>, steps: seq<Step>, k: nat)
    requires |states| == |steps| + 1 && k < |steps|
  {
    CommitsOwn(states[k], steps[k])
  }

  /** Along every run from an empty store whose commits list each server's own
      snapshots, so does every history, and whatever a promotion admits is the
      server's own. */
  lemma {:induction false} OwnedAlways(states: seq<State>, steps: seq<Step>, i: nat)
    requires Run(states, steps) && states[0] == EMPTY && i <= |steps|
    requires forall k: nat {:trigger CommitsOwnAt(states, steps, k)} :: k < i ==> CommitsOwnAt(states, steps, k)
    ensures Inv(states[i]) && AllOwned(states[i])
    ensures forall rq :: Refusal(states[i], rq) == None ==> OwnSnapshots(states[i], AdmittedBy(states[i], rq))
  {
    EmptyInv();
    RunKeeps(states, steps, i);
    if i > 0 {
      OwnedAlways(states, steps, i - 1);
      assert StepAt(states, steps, i - 1) && CommitsOwnAt(states, steps, i - 1);
      StepKeepsOwned(states[i - 1], steps[i - 1]);
    }
    forall rq | Refusal(states[i], rq) == None
      ensures OwnSnapshots(states[i], AdmittedBy(states[i], rq))
    {
      AdmittedOwned(states[i], rq);
    }
  }
}
