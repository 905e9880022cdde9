/** The store as a state machine, and what every run keeps. */
module StoreRuns {
  // A step is one of the operations a maintainer performs: registering a
  // channel, committing (register, create on the current head, optionally
  // push), pushing or reverting to a generation that still has its history,
  // promoting, pruning at any retention depth, adding snapshots and blobs,
  // and editing suppressions.

  import opened StoreTypes
  import opened History
  import opened ReleaseStore
  import opened Reachability
  import opened Promotion
  import opened PromotionProperties

  datatype Step =
    | Register(channel: ChannelName)
    | Commit(channel: ChannelName, generation: Generation, push: bool, now: string)
    | Push(channel: ChannelName, target: Hash, now: string)
    | Revert(channel: ChannelName, target: Hash, now: string)
    | Promote(request: Request, hash: Hash, now: string, subject: string)
    | Prune(depth: nat)
    | AddSnapshot(hash: Hash, snapshot: ResourceSnapshot)
    | AddRelease(hash: Hash, variants: seq<IndexEntry>)
    | AddBlob(blob: BlobId)
    | Suppress(channel: ChannelName, list: seq<Suppression>)

  const EMPTY := State([], map[], map[], map[], map[], map[], map[], map[], {}, map[])

  function Next(st: State, step: Step): State {
    match step
    case Register(c) => EnsuredChannel(st, c)
    case Commit(c, g, push, now) => Committed(st, c, g, push, now)
    case Push(c, target, now) => Pushed(st, c, target, now)
    case Revert(c, target, now) => Reverted(st, c, target, now)
    case Promote(rq, h, now, subject) => Promoted(st, rq, h, now, subject)
    case Prune(depth) => Pruned(st, depth)
    case AddSnapshot(h, snap) => if h in st.resourceSnaps then st else st.(resourceSnaps := st.resourceSnaps[h := snap])
    case AddRelease(h, index) => if h in st.releaseSnaps then st else st.(releaseSnaps := st.releaseSnaps[h := index])
    case AddBlob(b) => st.(blobs := st.blobs + {b})
    case Suppress(c, list) => st.(suppressions := st.suppressions[c := list])
  }

  /** What the operations ask of their callers: a new generation's hash was
      never used, it extends the channel's head, lists each server once and
      only stored snapshots; a pushed or reverted-to generation is on a
      registered channel and still has its history. */
  ghost predicate Allowed(st: State, step: Step) {
    match step
    case Register(_) => true
    case Commit(c, g, _, _) =>
      && g.hash != NoHash && g.hash !in st.lineage
      && g.meta.parent == HeadOf(st, c)
      && DistinctServers(g.resources)
      && (forall e :: e in g.resources ==> e.snapshotHash in st.resourceSnaps)
    case Push(c, target, _) => c in st.channels && target in st.histories
    case Revert(c, target, _) => c in st.heads && target in st.histories
    case Promote(rq, h, _, _) => h != NoHash && h !in st.lineage && DistinctCandidates(rq.candidates)
    case Prune(_) => true
    case AddSnapshot(h, _) => h != NoHash
    case AddRelease(_, _) => true
    case AddBlob(_) => true
    case Suppress(_, _) => true
  }

  // ---- The invariant -------------------------------------------------------

  /** A created generation starts its own lineage and continues its parent's. */
  ghost predicate LinealAt(lineage: map<Hash, seq<Generation>>, h: Hash)
    requires h in lineage
  {
    && lineage[h] != [] && lineage[h][0].hash == h
    && DistinctServers(lineage[h][0].resources)
    && var parent := lineage[h][0].meta.parent;
       if parent == NoHash then lineage[h][1..] == []
       else parent in lineage && lineage[h][1..] == lineage[parent]
  }

  ghost predicate Lineal(lineage: map<Hash, seq<Generation>>) {
    && NoHash !in lineage
    && forall h {:trigger LinealAt(lineage, h)} :: h in lineage ==> LinealAt(lineage, h)
  }

  /** Stored generations are as they were created. */
  ghost predicate GenerationsUnchanged(gens: map<Hash, Generation>, lineage: map<Hash, seq<Generation>>) {
    forall h :: h in gens ==> h in lineage && lineage[h] != [] && gens[h] == lineage[h][0]
  }

  /** A stored history describes all ancestors ever created, pruned or not. */
  ghost predicate HistoriesComplete(histories: map<Hash, ServerHistory>, lineage: map<Hash, seq<Generation>>) {
    forall h :: h in histories ==> h in lineage && Describes(histories[h], lineage[h])
  }

  /** Every snapshot a history records is stored. */
  ghost predicate SnapshotsWithin(history: ServerHistory, stored: set<Hash>) {
    forall e :: e in history ==> forall s :: s in e.snapshots ==> s.snapshotHash in stored
  }

  ghost predicate HistoriesStored(histories: map<Hash, ServerHistory>, stored: set<Hash>) {
    && NoHash !in stored
    && forall h :: h in histories ==> SnapshotsWithin(histories[h], stored)
  }

  /** Heads are registered, and point nowhere or at a generation with a history. */
  ghost predicate HeadsSound(channels: seq<ChannelName>, heads: map<ChannelName, Hash>, withHistory: set<Hash>) {
    && (forall c :: c in channels <==> c in heads)
    && (forall c :: c in heads ==> heads[c] == NoHash || heads[c] in withHistory)
  }

  /** A reflog is a connected path from no generation to the head. */
  ghost predicate ReflogPath(log: seq<ReflogEntry>, head: Hash) {
    && (log == [] ==> head == NoHash)
    && (log != [] ==> log[0].from == NoHash && log[|log| - 1].to == head)
    && (forall i, j :: 0 <= i && j == i + 1 && j < |log| ==> log[i].to == log[j].from)
  }

  ghost predicate ReflogsConnected(reflogs: map<ChannelName, seq<ReflogEntry>>, heads: map<ChannelName, Hash>) {
    forall c: ChannelName :: ReflogPath(
      if c in reflogs then reflogs[c] else [],
      if c in heads then heads[c] else NoHash)
  }

  ghost predicate Inv(st: State) {
    && WellKeyed(st)
    && Lineal(st.lineage)
    && GenerationsUnchanged(st.gens, st.lineage)
    && HistoriesComplete(st.histories, st.lineage)
    && HistoriesStored(st.histories, st.resourceSnaps.Keys)
    && HeadsSound(st.channels, st.heads, st.histories.Keys)
    && ReflogsConnected(st.reflogs, st.heads)
  }

  // ---- Each kind of step keeps the invariant -------------------------------

  lemma EmptyInv()
    ensures Inv(EMPTY)
  {
  }

  lemma RegisterKeepsReflogs(st: State, c: ChannelName)
    requires ReflogsConnected(st.reflogs, st.heads)
    ensures ReflogsConnected(EnsuredChannel(st, c).reflogs, EnsuredChannel(st, c).heads)
  {
  }

  lemma RegisterKeeps(st: State, c: ChannelName)
    requires Inv(st)
    ensures Inv(EnsuredChannel(st, c))
  {
    RegisterKeepsReflogs(st, c);
  }

  lemma HeadMoveKeepsReflogs(st: State, c: ChannelName, target: Hash, op: string, now: string)
    requires ReflogsConnected(st.reflogs, st.heads)
    ensures ReflogsConnected(HeadMoved(st, c, target, op, now).reflogs, HeadMoved(st, c, target, op, now).heads)
  {
    var st' := HeadMoved(st, c, target, op, now);
    assert ReflogPath(ReflogOf(st, c), HeadOf(st, c));
    assert ReflogPath(ReflogOf(st', c), target);
  }

  lemma HeadMoveKeeps(st: State, c: ChannelName, target: Hash, op: string, now: string)
    requires Inv(st) && c in st.channels && target in st.histories
    ensures Inv(HeadMoved(st, c, target, op, now))
  {
    HeadMoveKeepsReflogs(st, c, target, op, now);
  }

  /** Snapshots of a merged history come from the new generation or the old history. */
  lemma MergedWithin(history: ServerHistory, g: Generation, stored: set<Hash>)
    requires SnapshotsWithin(history, stored)
    requires forall e :: e in g.resources ==> e.snapshotHash in stored
    ensures SnapshotsWithin(Merged(history, g), stored)
  {
    var up := Updated(history, g, g.resources);
    var ca := Carried(history, ServerOrder(history), ServersOf(g.resources));
    UpdatedShape(history, g, g.resources);
    ServerOrderDistinct(history);
    CarriedShape(history, ServerOrder(history), ServersOf(g.resources));
    forall e | e in Merged(history, g)
      ensures forall s :: s in e.snapshots ==> s.snapshotHash in stored
    {
      if e in up {
        var i :| 0 <= i < |up| && up[i] == e;
        UpdatedWithin(history, g, g.resources[i], stored);
      } else {
        assert e in ca;
        LookupWithin(history, e.serverId, stored);
      }
    }
  }

  lemma LookupWithin(history: ServerHistory, sid: ServerId, stored: set<Hash>)
    requires SnapshotsWithin(history, stored)
    ensures forall s :: s in SnapshotsOf(history, sid) ==> s.snapshotHash in stored
  {
    if Lookup(history, sid).Some? {
      LookupIsMember(history, sid);
    }
  }

  lemma UpdatedWithin(history: ServerHistory, g: Generation, e: ResourceEntry, stored: set<Hash>)
    requires SnapshotsWithin(history, stored) && e.snapshotHash in stored
    ensures forall s :: s in UpdatedEntry(history, g, e).snapshots ==> s.snapshotHash in stored
  {
    LookupWithin(history, e.serverId, stored);
  }

  /** What creating a generation needs. */
  ghost predicate Creatable(st: State, g: Generation) {
    && g.hash != NoHash && g.hash !in st.lineage
    && (g.meta.parent == NoHash || g.meta.parent in st.histories)
    && DistinctServers(g.resources)
    && forall e :: e in g.resources ==> e.snapshotHash in st.resourceSnaps
  }

  lemma CreateKeepsLineage(lineage: map<Hash, seq<Generation>>, g: Generation, tail: seq<Generation>)
    requires Lineal(lineage) && g.hash != NoHash && g.hash !in lineage && DistinctServers(g.resources)
    requires if g.meta.parent == NoHash then tail == [] else g.meta.parent in lineage && tail == lineage[g.meta.parent]
    ensures Lineal(lineage[g.hash := [g] + tail])
  {
    var lineage' := lineage[g.hash := [g] + tail];
    assert ([g] + tail)[1..] == tail;
    forall h | h in lineage'
      ensures LinealAt(lineage', h)
    {
      if h != g.hash {
        assert LinealAt(lineage, h);
      }
    }
  }

  lemma CreateKeepsComplete(st: State, g: Generation)
    requires Inv(st) && Creatable(st, g)
    ensures HistoriesComplete(Created(st, g).histories, Created(st, g).lineage)
  {
    var parent := g.meta.parent;
    var history := ParentHistory(st, parent);
    assert Describes(history, LineageOf(st, parent));
    MergeDescribes(history, g, LineageOf(st, parent));
  }

  lemma HistoryStored(histories: map<Hash, ServerHistory>, stored: set<Hash>, h: Hash, history: ServerHistory)
    requires HistoriesStored(histories, stored) && SnapshotsWithin(history, stored)
    ensures HistoriesStored(histories[h := history], stored)
  {
  }

  lemma CreateKeepsStored(st: State, g: Generation)
    requires WellKeyed(st) && HistoriesStored(st.histories, st.resourceSnaps.Keys) && Creatable(st, g)
    ensures HistoriesStored(Created(st, g).histories, Created(st, g).resourceSnaps.Keys)
  {
    var history := ParentHistory(st, g.meta.parent);
    assert SnapshotsWithin(history, st.resourceSnaps.Keys);
    MergedWithin(history, g, st.resourceSnaps.Keys);
    HistoryStored(st.histories, st.resourceSnaps.Keys, g.hash, Merged(history, g));
  }

  lemma CreateKeepsShape(st: State, g: Generation)
    requires WellKeyed(st) && GenerationsUnchanged(st.gens, st.lineage) && Creatable(st, g)
    requires HeadsSound(st.channels, st.heads, st.histories.Keys)
    ensures WellKeyed(Created(st, g))
    ensures GenerationsUnchanged(Created(st, g).gens, Created(st, g).lineage)
    ensures HeadsSound(Created(st, g).channels, Created(st, g).heads, Created(st, g).histories.Keys)
  {
  }

  lemma CreateKeeps(st: State, g: Generation)
    requires Inv(st) && Creatable(st, g)
    ensures Inv(Created(st, g))
  {
    assert g.meta.parent == NoHash || g.meta.parent in st.lineage;
    CreateKeepsLineage(st.lineage, g, LineageOf(st, g.meta.parent));
    CreateKeepsComplete(st, g);
    CreateKeepsStored(st, g);
    CreateKeepsShape(st, g);
  }

  lemma CommitKeeps(st: State, c: ChannelName, g: Generation, push: bool, now: string)
    requires Inv(st) && Allowed(st, Commit(c, g, push, now))
    ensures Inv(Committed(st, c, g, push, now))
  {
    RegisterKeeps(st, c);
    var registered := EnsuredChannel(st, c);
    assert g.meta.parent == NoHash || g.meta.parent in st.histories;
    CreateKeeps(registered, g);
    var created := Created(registered, g);
    if push {
      HeadMoveKeeps(created, c, g.hash, "push", now);
    }
  }

  /** In a sound store every listed snapshot of a generation with a history is
      in the history, hence stored. */
  lemma ListedAreStored(st: State, h: Hash, e: ResourceEntry)
    requires Inv(st) && h in st.histories && e in st.gens[h].resources
    ensures e.snapshotHash in st.resourceSnaps
  {
    var chain := st.lineage[h];
    assert st.gens[h] == chain[0];
    assert LinealAt(st.lineage, h);
    var i :| 0 <= i < |chain[0].resources| && chain[0].resources[i] == e;
    ResourceOfDistinct(chain[0].resources, e.serverId);
    RunsHashes(chain, e.serverId, e.snapshotHash);
    assert SnapshotsOf(st.histories[h], e.serverId) == Runs(chain, e.serverId);
    LookupWithin(st.histories[h], e.serverId, st.resourceSnaps.Keys);
  }

  lemma PromotedIsCreatable(st: State, rq: Request, h: Hash, now: string, subject: string)
    requires Inv(st) && Allowed(st, Promote(rq, h, now, subject))
    requires Refusal(st, rq) == None
    ensures Creatable(st, PromotedGeneration(st, rq, h, now, subject))
  {
    var g := PromotedGeneration(st, rq, h, now, subject);
    var admitted, parent := AdmittedBy(st, rq), HeadOf(st, rq.target);
    AdmittedDistinct(st, rq);
    if parent != NoHash {
      assert parent in st.histories;
      assert LinealAt(st.lineage, parent);
    }
    OverlayDistinct(ParentResources(st, rq.target), admitted);
    PromotedListsStored(st, rq);
  }

  lemma PromotedListsStored(st: State, rq: Request)
    requires Inv(st) && Refusal(st, rq) == None
    ensures forall e :: e in OverlaidResources(ParentResources(st, rq.target), AdmittedBy(st, rq)) ==>
              e.snapshotHash in st.resourceSnaps
  {
    var admitted := AdmittedBy(st, rq);
    forall e | e in OverlaidResources(ParentResources(st, rq.target), admitted)
      ensures e.snapshotHash in st.resourceSnaps
    {
      OverlaySources(ParentResources(st, rq.target), admitted, e);
      if Candidate(e.serverId, e.snapshotHash) in admitted {
        assert Candidate(e.serverId, e.snapshotHash) !in MissingSnapshots(st, admitted);
      } else {
        ListedAreStored(st, HeadOf(st, rq.target), e);
      }
    }
  }

  lemma CreateRegisterPushKeeps(st: State, g: Generation, c: ChannelName, now: string)
    requires Inv(st) && Creatable(st, g)
    ensures Inv(CreatedAndPushed(st, g, c, now))
  {
    var created := Created(st, g);
    CreateKeeps(st, g);
    RegisterKeeps(created, c);
    HeadMoveKeeps(EnsuredChannel(created, c), c, g.hash, "push", now);
  }

  lemma PromoteKeeps(st: State, rq: Request, h: Hash, now: string, subject: string)
    requires Inv(st) && Allowed(st, Promote(rq, h, now, subject))
    ensures Inv(Promoted(st, rq, h, now, subject))
  {
    if Refusal(st, rq).None? && AdmittedBy(st, rq) != [] {
      PromotedIsCreatable(st, rq, h, now, subject);
      CreateRegisterPushKeeps(st, PromotedGeneration(st, rq, h, now, subject), rq.target, now);
    }
  }

  /** The snapshots of a live head's history are reachable. */
  lemma HeadHistoryReached(st: State, depth: nat, head: Hash)
    requires head in LiveHeads(st) && head in st.histories
    ensures HistorySnapshots(st.histories[head]) <= Reachable(st, depth).resourceSnaps
    ensures BlobsOf(st, HistorySnapshots(st.histories[head])) <= Reachable(st, depth).blobs
  {
    ReachContains(st, head, depth);
  }

  lemma PruneKeepsStored(st: State, st': State, depth: nat)
    requires HistoriesStored(st.histories, st.resourceSnaps.Keys)
    requires CutTo(st, st', Reachable(st, depth), LiveHeads(st))
    ensures HistoriesStored(st'.histories, st'.resourceSnaps.Keys)
  {
    forall h | h in st'.histories
      ensures SnapshotsWithin(st'.histories[h], st'.resourceSnaps.Keys)
    {
      HeadHistoryReached(st, depth, h);
      RecordedWithin(st.histories[h], st.resourceSnaps.Keys, Reachable(st, depth).resourceSnaps);
    }
  }

  lemma RecordedWithin(history: ServerHistory, stored: set<Hash>, kept: set<Hash>)
    requires SnapshotsWithin(history, stored) && NoHash !in stored
    requires HistorySnapshots(history) <= kept
    ensures SnapshotsWithin(history, stored * kept)
  {
    forall e | e in history
      ensures forall s :: s in e.snapshots ==> s.snapshotHash in stored * kept
    {
      forall s | s in e.snapshots
        ensures s.snapshotHash in stored * kept
      {
        assert s.snapshotHash in RecordedSnapshots(e.snapshots);
      }
    }
  }

  lemma PruneKeepsHeads(st: State, st': State, r: Reach)
    requires HeadsSound(st.channels, st.heads, st.histories.Keys)
    requires CutTo(st, st', r, LiveHeads(st))
    ensures HeadsSound(st'.channels, st'.heads, st'.histories.Keys)
  {
    forall c | c in st'.heads
      ensures st'.heads[c] == NoHash || st'.heads[c] in st'.histories
    {
      assert c in st.channels && HeadOf(st, c) == st.heads[c];
    }
  }

  lemma PruneKeeps(st: State, depth: nat)
    requires Inv(st)
    ensures Inv(Pruned(st, depth))
  {
    PruneIsExact(st, depth);
    CutKeeps(st, Pruned(st, depth), depth, Reachable(st, depth), LiveHeads(st));
  }

  lemma CutKeeps(st: State, st': State, depth: nat, r: Reach, heads: set<Hash>)
    requires Inv(st) && WellKeyed(st')
    requires r == Reachable(st, depth) && heads == LiveHeads(st)
    requires CutTo(st, st', r, heads)
    ensures Inv(st')
  {
    PruneKeepsStored(st, st', depth);
    PruneKeepsHeads(st, st', r);
    PruneKeepsRecords(st, st', r, heads);
  }

  lemma PruneKeepsRecords(st: State, st': State, r: Reach, heads: set<Hash>)
    requires GenerationsUnchanged(st.gens, st.lineage) && HistoriesComplete(st.histories, st.lineage)
    requires CutTo(st, st', r, heads)
    ensures GenerationsUnchanged(st'.gens, st'.lineage) && HistoriesComplete(st'.histories, st'.lineage)
  {
    forall h | h in st'.histories
      ensures Describes(st'.histories[h], st'.lineage[h])
    {
      assert h in st.histories;
    }
  }

  /** A step that only adds snapshots, releases or blobs, or edits suppressions. */
  lemma AdditionKeeps(st: State, st': State)
    requires Inv(st)
    requires st'.channels == st.channels && st'.heads == st.heads && st'.reflogs == st.reflogs
    requires st'.gens == st.gens && st'.histories == st.histories && st'.lineage == st.lineage
    requires st.resourceSnaps.Keys <= st'.resourceSnaps.Keys && NoHash !in st'.resourceSnaps
    ensures Inv(st')
  {
    MoreStored(st.histories, st.resourceSnaps.Keys, st'.resourceSnaps.Keys);
  }

  lemma SnapshotAdditionKeeps(st: State, h: Hash, snap: ResourceSnapshot)
    requires Inv(st) && h != NoHash
    ensures h !in st.resourceSnaps ==> Inv(st.(resourceSnaps := st.resourceSnaps[h := snap]))
  {
    AdditionKeeps(st, st.(resourceSnaps := st.resourceSnaps[h := snap]));
  }

  lemma MoreStored(histories: map<Hash, ServerHistory>, stored: set<Hash>, more: set<Hash>)
    requires HistoriesStored(histories, stored) && stored <= more && NoHash !in more
    ensures HistoriesStored(histories, more)
  {
    forall h | h in histories
      ensures SnapshotsWithin(histories[h], more)
    {
      assert SnapshotsWithin(histories[h], stored);
    }
  }

  lemma StepKeeps(st: State, step: Step)
    requires Inv(st) && Allowed(st, step)
    ensures Inv(Next(st, step))
  {
    match step
    case Register(c) => RegisterKeeps(st, c);
    case Commit(c, g, push, now) => CommitKeeps(st, c, g, push, now);
    case Push(c, target, now) => HeadMoveKeeps(st, c, target, "push", now);
    case Revert(c, target, now) => HeadMoveKeeps(st, c, target, "revert", now);
    case Promote(rq, h, now, subject) => PromoteKeeps(st, rq, h, now, subject);
    case Prune(depth) => PruneKeeps(st, depth);
    case AddSnapshot(h, snap) => SnapshotAdditionKeeps(st, h, snap);
    case AddRelease(h, index) => AdditionKeeps(st, st.(releaseSnaps := st.releaseSnaps[h := index]));
    case AddBlob(b) => AdditionKeeps(st, st.(blobs := st.blobs + {b}));
    case Suppress(c, list) => AdditionKeeps(st, st.(suppressions := st.suppressions[c := list]));
  }

  // ---- Whole runs ----------------------------------------------------------

  ghost predicate StepAt(states: seq<State>, steps: seq<Step>, i: nat)
    requires |states| == |steps| + 1 && i < |steps|
  {
    Allowed(states[i], steps[i]) && states[i + 1] == Next(states[i], steps[i])
  }

  /** The states a sequence of allowed steps goes through. */
  ghost predicate Run(states: seq<State>, steps: seq<Step>) {
    && |states| == |steps| + 1
    && forall i: nat {:trigger StepAt(states, steps, i)} :: i < |steps| ==> StepAt(states, steps, i)
  }

  lemma {:induction false} RunKeeps(states: seq<State>, steps: seq<Step>, i: nat)
    requires Run(states, steps) && Inv(states[0]) && i <= |steps|
    ensures Inv(states[i])
  {
    if i > 0 {
      RunKeeps(states, steps, i - 1);
      assert StepAt(states, steps, i - 1);
      StepKeeps(states[i - 1], steps[i - 1]);
    }
  }

  /** A head that is loadable and as created, whose history lists, for each
      server, exactly the runs along the full chain of ancestors ever created,
      all of whose snapshots are stored. */
  ghost predicate HeadDescribed(st: State, h: Hash) {
    && h in st.gens && h in st.histories && h in st.lineage && st.lineage[h] != []
    && st.gens[h] == st.lineage[h][0]
    && DistinctEntries(st.histories[h])
    && (forall sid :: SnapshotsOf(st.histories[h], sid) == Runs(st.lineage[h], sid))
    && (forall sid :: forall s :: s in SnapshotsOf(st.histories[h], sid) ==> s.snapshotHash in st.resourceSnaps)
  }

  /** In every state of a run from an empty store, the head of every registered
      channel is complete. */
  lemma WholeRun(states: seq<State>, steps: seq<Step>, i: nat, c: ChannelName)
    requires Run(states, steps) && states[0] == EMPTY && i <= |steps|
    requires c in states[i].channels && HeadOf(states[i], c) != NoHash
    ensures HeadDescribed(states[i], HeadOf(states[i], c))
  {
    EmptyInv();
    RunKeeps(states, steps, i);
    var st := states[i];
    var h := HeadOf(st, c);
    assert h in st.histories;
    assert LinealAt(st.lineage, h);
    forall sid
      ensures forall s :: s in SnapshotsOf(st.histories[h], sid) ==> s.snapshotHash in st.resourceSnaps
    {
      LookupWithin(st.histories[h], sid, st.resourceSnaps.Keys);
    }
  }

  lemma CreatedLineage(st: State, g: Generation, h: Hash)
    requires g.hash !in st.lineage && h in st.lineage
    ensures h in Created(st, g).lineage && Created(st, g).lineage[h] == st.lineage[h]
  {
    var lineage := Created(st, g).lineage;
    if g.hash in st.gens {
      assert lineage == st.lineage;
    } else {
      assert lineage == st.lineage[g.hash := [g] + LineageOf(st, g.meta.parent)];
    }
  }

  lemma PushedLineage(st: State, g: Generation, c: ChannelName, now: string, h: Hash)
    requires g.hash !in st.lineage && h in st.lineage
    ensures h in CreatedAndPushed(st, g, c, now).lineage && CreatedAndPushed(st, g, c, now).lineage[h] == st.lineage[h]
  {
    CreatedLineage(st, g, h);
  }

  lemma PromotedLineage(st: State, rq: Request, hash: Hash, now: string, subject: string, h: Hash)
    requires hash !in st.lineage && h in st.lineage
    ensures h in Promoted(st, rq, hash, now, subject).lineage
            && Promoted(st, rq, hash, now, subject).lineage[h] == st.lineage[h]
  {
    if Refusal(st, rq).None? {
      PushedLineage(st, PromotedGeneration(st, rq, hash, now, subject), rq.target, now, h);
    }
  }

  lemma StepKeepsLineage(st: State, step: Step, h: Hash)
    requires Allowed(st, step) && h in st.lineage
    ensures h in Next(st, step).lineage && Next(st, step).lineage[h] == st.lineage[h]
  {
    match step
    case Commit(c, g, _, _) => CreatedLineage(EnsuredChannel(st, c), g, h);
    case Promote(rq, hash, now, subject) => PromotedLineage(st, rq, hash, now, subject, h);
    case Register(_) =>
    case Push(_, _, _) =>
    case Revert(_, _, _) =>
    case Prune(_) =>
    case AddSnapshot(_, _) =>
    case AddRelease(_, _) =>
    case AddBlob(_) =>
    case Suppress(_, _) =>
  }

  /** What was created stays what it was: lineages never change along a run. */
  lemma {:induction false} LineageStable(states: seq<State>, steps: seq<Step>, i: nat, h: Hash)
    requires Run(states, steps) && Inv(states[0]) && i <= |steps| && h in states[0].lineage
    ensures h in states[i].lineage && states[i].lineage[h] == states[0].lineage[h]
    ensures h in states[0].gens && h in states[i].gens ==> states[i].gens[h] == states[0].gens[h]
  {
    RunKeeps(states, steps, i);
    if i > 0 {
      LineageStable(states, steps, i - 1, h);
      RunKeeps(states, steps, i - 1);
      assert StepAt(states, steps, i - 1);
      StepKeepsLineage(states[i - 1], steps[i - 1], h);
    }
  }

  // ---- Blobs ---------------------------------------------------------------

  /** Some registered channel's head records the snapshot. */
  ghost predicate Rooted(st: State, snap: Hash) {
    exists c :: c in st.channels && HeadOf(st, c) in st.histories
        && snap in HistorySnapshots(st.histories[HeadOf(st, c)])
  }

  lemma PruneKeepsBlobs(st: State, st': State, depth: nat, snap: Hash)
    requires WellKeyed(st) && HistoriesStored(st.histories, st.resourceSnaps.Keys) && Rooted(st, snap)
    requires CutTo(st, st', Reachable(st, depth), LiveHeads(st))
    ensures snap in st.resourceSnaps && snap in st'.resourceSnaps
    ensures SnapshotBlobs(st, snap) * st.blobs <= st'.blobs
  {
    var c :| c in st.channels && HeadOf(st, c) in st.histories && snap in HistorySnapshots(st.histories[HeadOf(st, c)]);
    var head := HeadOf(st, c);
    RootedStored(st, snap);
    HeadHistoryReached(st, depth, head);
    assert SnapshotBlobs(st, snap) <= BlobsOf(st, HistorySnapshots(st.histories[head]));
  }

  lemma RootedStored(st: State, snap: Hash)
    requires HistoriesStored(st.histories, st.resourceSnaps.Keys) && Rooted(st, snap)
    ensures snap in st.resourceSnaps
  {
    var c :| c in st.channels && HeadOf(st, c) in st.histories && snap in HistorySnapshots(st.histories[HeadOf(st, c)]);
    assert SnapshotsWithin(st.histories[HeadOf(st, c)], st.resourceSnaps.Keys);
  }

  /** The snapshot stays as it is, and the stored blobs of its index stay stored. */
  ghost predicate Keeps(st: State, st': State, snap: Hash) {
    && snap in st.resourceSnaps && snap in st'.resourceSnaps
    && st'.resourceSnaps[snap] == st.resourceSnaps[snap]
    && SnapshotBlobs(st, snap) * st.blobs <= st'.blobs
  }

  lemma KeepsTransitive(a: State, b: State, c: State, snap: Hash)
    requires Keeps(a, b, snap) && Keeps(b, c, snap)
    ensures Keeps(a, c, snap)
  {
    assert SnapshotBlobs(b, snap) == SnapshotBlobs(a, snap);
  }

  lemma StepKeepsBlobs(st: State, step: Step, snap: Hash)
    requires Inv(st) && Rooted(st, snap)
    ensures Keeps(st, Next(st, step), snap)
  {
    if step.Prune? {
      PruneStepKeeps(st, step, snap);
    } else {
      OtherStepKeeps(st, step, snap);
    }
  }

  lemma OtherStepKeeps(st: State, step: Step, snap: Hash)
    requires !step.Prune? && Inv(st) && Rooted(st, snap)
    ensures Keeps(st, Next(st, step), snap)
  {
    RootedStored(st, snap);
    OnlyPruneDeletes(st, step, snap);
    GrownKeeps(st, Next(st, step), snap);
  }

  lemma PruneStepKeeps(st: State, step: Step, snap: Hash)
    requires step.Prune? && Inv(st) && Rooted(st, snap)
    ensures Keeps(st, Next(st, step), snap)
  {
    PruneStep(st, step);
    PrunedKeeps(st, step.depth, snap);
  }

  lemma PruneStep(st: State, step: Step)
    requires step.Prune?
    ensures Next(st, step) == Pruned(st, step.depth)
  {
  }

  lemma PrunedKeeps(st: State, depth: nat, snap: Hash)
    requires Inv(st) && Rooted(st, snap)
    ensures Keeps(st, Pruned(st, depth), snap)
  {
    PruneIsExact(st, depth);
    PruneKeepsBlobs(st, Pruned(st, depth), depth, snap);
  }

  lemma GrownKeeps(st: State, st': State, snap: Hash)
    requires snap in st.resourceSnaps && snap in st'.resourceSnaps
    requires st'.resourceSnaps[snap] == st.resourceSnaps[snap] && st.blobs <= st'.blobs
    ensures Keeps(st, st', snap)
  {
  }

  lemma PromotedTouches(st: State, rq: Request, h: Hash, now: string, subject: string)
    ensures Promoted(st, rq, h, now, subject).resourceSnaps == st.resourceSnaps
    ensures Promoted(st, rq, h, now, subject).blobs == st.blobs
    ensures Promoted(st, rq, h, now, subject).releaseSnaps == st.releaseSnaps
  {
    if Refusal(st, rq).None? {
      CreatedTouches(st, PromotedGeneration(st, rq, h, now, subject), rq.target, now);
    }
  }

  lemma CreatedTouches(st: State, g: Generation, c: ChannelName, now: string)
    ensures CreatedAndPushed(st, g, c, now).resourceSnaps == st.resourceSnaps
    ensures CreatedAndPushed(st, g, c, now).blobs == st.blobs
    ensures CreatedAndPushed(st, g, c, now).releaseSnaps == st.releaseSnaps
  {
    var created := Created(st, g);
    CreateTouches(st, g);
    RegisterTouches(created, c);
  }

  lemma CommittedTouches(st: State, c: ChannelName, g: Generation, push: bool, now: string)
    ensures Committed(st, c, g, push, now).resourceSnaps == st.resourceSnaps
    ensures Committed(st, c, g, push, now).blobs == st.blobs
    ensures Committed(st, c, g, push, now).releaseSnaps == st.releaseSnaps
  {
    RegisterTouches(st, c);
    CreateTouches(EnsuredChannel(st, c), g);
  }

  lemma CreateTouches(st: State, g: Generation)
    ensures Created(st, g).resourceSnaps == st.resourceSnaps && Created(st, g).blobs == st.blobs
    ensures Created(st, g).releaseSnaps == st.releaseSnaps
  {
    if g.hash in st.gens {
    } else {
    }
  }

  lemma RegisterTouches(st: State, c: ChannelName)
    ensures EnsuredChannel(st, c).resourceSnaps == st.resourceSnaps && EnsuredChannel(st, c).blobs == st.blobs
    ensures EnsuredChannel(st, c).releaseSnaps == st.releaseSnaps
  {
  }

  lemma OnlyPruneDeletes(st: State, step: Step, snap: Hash)
    requires !step.Prune? && snap in st.resourceSnaps
    ensures snap in Next(st, step).resourceSnaps && Next(st, step).resourceSnaps[snap] == st.resourceSnaps[snap]
    ensures st.blobs <= Next(st, step).blobs
  {
    match step
    case Promote(rq, h, now, subject) => PromotedTouches(st, rq, h, now, subject);
    case Commit(c, g, push, now) => CommittedTouches(st, c, g, push, now);
    case Register(_) =>
    case Push(_, _, _) =>
    case Revert(_, _, _) =>
    case AddSnapshot(_, _) =>
    case AddRelease(_, _) =>
    case AddBlob(_) =>
    case Suppress(_, _) =>
  }

  /** As long as some head records a snapshot, the snapshot and every blob of
      its index that was stored stay stored, whatever is pruned. */
  lemma {:induction false} BlobsStay(states: seq<State>, steps: seq<Step>, i: nat, snap: Hash)
    requires Run(states, steps) && Inv(states[0]) && i <= |steps|
    requires forall k: nat {:trigger Rooted(states[k], snap)} :: k < i ==> Rooted(states[k], snap)
    requires snap in states[0].resourceSnaps
    ensures Keeps(states[0], states[i], snap)
  {
    if i > 0 {
      BlobsStay(states, steps, i - 1, snap);
      RunKeeps(states, steps, i - 1);
      assert Rooted(states[i - 1], snap);
      NextKeeps(states, steps, i - 1, snap);
      KeepsTransitive(states[0], states[i - 1], states[i], snap);
    }
  }

  lemma NextKeeps(states: seq<State>, steps: seq<Step>, i: nat, snap: Hash)
    requires Run(states, steps) && i < |steps| && Inv(states[i]) && Rooted(states[i], snap)
    ensures Keeps(states[i], states[i + 1], snap)
  {
    assert StepAt(states, steps, i);
    StepKeepsBlobs(states[i], steps[i], snap);
  }
}
