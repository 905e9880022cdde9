/** Consequences of the run invariant for the verifier and the history roots. */
module VerifiedRuns {
  // The verifier stays silent, history roots reach what the legacy chain walk
  // reached, and the two cases in which the code leaves a history that no
  // longer describes its chain.

  import opened StoreTypes
  import opened History
  import opened ReleaseStore
  import opened Reachability
  import opened StoreRuns
  import opened Verification

  // ---- The verifier --------------------------------------------------------

  /** No error exactly when every registered channel has head metadata, and a
      head that points somewhere points at a stored generation and ends the reflog. */
  lemma HeadErrorsMean(st: State)
    ensures (forall i :: i in HeadIssues(st, st.channels) ==> !IsError(i))
            <==>
            forall c :: c in st.channels ==>
              && c in st.heads
              && (st.heads[c] != NoHash ==>
                    && st.heads[c] in st.gens
                    && (ReflogOf(st, c) != [] ==> ReflogOf(st, c)[|ReflogOf(st, c)| - 1].to == st.heads[c]))
  {
    forall c | c in st.channels && !(c in st.heads && (st.heads[c] != NoHash ==>
                    && st.heads[c] in st.gens
                    && (ReflogOf(st, c) != [] ==> ReflogOf(st, c)[|ReflogOf(st, c)| - 1].to == st.heads[c])))
      ensures exists i :: i in HeadIssues(st, st.channels) && IsError(i)
    {
      var log := ReflogOf(st, c);
      var issue :=
        if c !in st.heads then HeadMetadataMissing(c)
        else if st.heads[c] !in st.gens then HeadDangling(c, st.heads[c])
        else ReflogMismatch(c, log[|log| - 1].to, st.heads[c]);
      assert issue in ChannelHeadIssues(st, c) && IsError(issue);
      assert issue in HeadIssues(st, st.channels);
    }
  }

  /** A history that describes a chain agrees with the resources of its newest generation. */
  lemma DescribedAgrees(history: ServerHistory, g: Generation, older: seq<Generation>)
    requires Describes(history, [g] + older) && DistinctServers(g.resources)
    ensures GenerationHistoryIssues(g.hash, g.resources, history) == {}
  {
    forall sid | sid in ServersOf(g.resources)
      ensures sid in HistoryServers(history)
      ensures ResourceOf(g.resources, sid).Some?
      ensures SnapshotsOf(history, sid) != []
              && SnapshotsOf(history, sid)[0].snapshotHash == ResourceOf(g.resources, sid).value
    {
      var i :| 0 <= i < |g.resources| && g.resources[i].serverId == sid;
      ResourceOfDistinct(g.resources, sid);
      assert ResourceOf(g.resources, sid).Some?;
      RunsStep(g, older, sid);
      assert SnapshotsOf(history, sid) == Runs([g] + older, sid);
      LookupIsMember(history, sid);
    }
    forall e | e in history
      ensures EntryIssues(g.hash, g.resources, e) == {}
    {
      var i :| 0 <= i < |history| && history[i] == e;
      LookupDistinct(history, e.serverId);
      ResourceOfDistinct(g.resources, e.serverId);
    }
  }

  lemma HistoriesQuiet(st: State)
    requires Inv(st)
    ensures HistoryIssues(st, st.gens.Keys) == {}
  {
    forall h | h in st.gens && h in st.histories
      ensures GenerationHistoryIssues(h, st.gens[h].resources, st.histories[h]) == {}
    {
      var chain := st.lineage[h];
      assert LinealAt(st.lineage, h);
      assert [chain[0]] + chain[1..] == chain;
      DescribedAgrees(st.histories[h], chain[0], chain[1..]);
    }
  }

  /** In every state of a run the verifier reports nothing but channels without a head,
      and every reflog is a connected path from no generation to the head. */
  lemma VerifierFindsNothing(states: seq<State>, steps: seq<Step>, k: nat)
    requires Run(states, steps) && states[0] == EMPTY && k <= |steps|
    ensures forall i :: i in HeadIssues(states[k], states[k].channels) ==> i.HeadUninitialized?
    ensures HistoryIssues(states[k], states[k].gens.Keys) == {}
    ensures ReachIssues(states[k], states[k].channels) == {}
    ensures forall c :: ReflogPath(ReflogOf(states[k], c), HeadOf(states[k], c))
  {
    EmptyInv();
    RunKeeps(states, steps, k);
    var st := states[k];
    HistoriesQuiet(st);
  }

  // ---- History root and full chain -----------------------------------------

  function HashesIn(chain: seq<Generation>): seq<Hash> {
    seq(|chain|, i requires 0 <= i < |chain| => chain[i].hash)
  }

  /** Every suffix of a lineage is the lineage of its first generation. */
  lemma {:induction false} LineageSuffix(lineage: map<Hash, seq<Generation>>, h: Hash, k: nat)
    requires Lineal(lineage) && h in lineage && k < |lineage[h]|
    ensures var g := lineage[h][k]; g.hash in lineage && lineage[g.hash] == lineage[h][k..]
    decreases k
  {
    assert LinealAt(lineage, h);
    if k > 0 {
      var parent := lineage[h][0].meta.parent;
      assert lineage[h][k] == lineage[h][1..][k - 1];
      LineageSuffix(lineage, parent, k - 1);
      assert lineage[h][k..] == lineage[h][1..][k - 1..];
    }
  }

  /** A stored generation, whose parent is the next one of the chain. */
  ghost predicate LinkedAt(gens: map<Hash, Generation>, chain: seq<Generation>, i: nat)
    requires i < |chain|
  {
    && chain[i].hash != NoHash && chain[i].hash in gens && gens[chain[i].hash] == chain[i]
    && chain[i].meta.parent == if i + 1 < |chain| then chain[i + 1].hash else NoHash
  }

  ghost predicate Linked(gens: map<Hash, Generation>, chain: seq<Generation>) {
    && (forall i {:trigger LinkedAt(gens, chain, i)} :: 0 <= i < |chain| ==> LinkedAt(gens, chain, i))
    && (forall i, j :: 0 <= i < j < |chain| ==> chain[i].hash != chain[j].hash)
  }

  lemma LineageLink(lineage: map<Hash, seq<Generation>>, h: Hash, i: nat)
    requires Lineal(lineage) && h in lineage && i < |lineage[h]|
    ensures var g := lineage[h][i];
            && g.hash != NoHash && g.hash in lineage && lineage[g.hash] != [] && lineage[g.hash][0] == g
            && g.meta.parent == if i + 1 < |lineage[h]| then lineage[h][i + 1].hash else NoHash
  {
    LineageSuffix(lineage, h, i);
    var g := lineage[h][i];
    var own := lineage[g.hash];
    assert LinealAt(lineage, g.hash);
    assert own[0] == g;
    assert g.meta.parent in lineage ==> LinealAt(lineage, g.meta.parent);
    if i + 1 < |lineage[h]| {
      assert own[1..] != [] && own[1..][0] == lineage[h][i + 1];
      assert g.meta.parent != NoHash && own[1..] == lineage[g.meta.parent];
    } else {
      assert own[1..] == [];
    }
  }

  lemma LineageHashesDistinct(lineage: map<Hash, seq<Generation>>, h: Hash, i: nat, j: nat)
    requires Lineal(lineage) && h in lineage && i < j < |lineage[h]|
    ensures lineage[h][i].hash != lineage[h][j].hash
  {
    LineageSuffix(lineage, h, i);
    LineageSuffix(lineage, h, j);
    assert |lineage[h][i..]| != |lineage[h][j..]|;
  }

  /** When a whole lineage is loadable, it is a linked chain. */
  lemma LineageLinked(st: State, h: Hash)
    requires Lineal(st.lineage) && GenerationsUnchanged(st.gens, st.lineage) && h in st.lineage
    requires forall i :: 0 <= i < |st.lineage[h]| ==> st.lineage[h][i].hash in st.gens
    ensures Linked(st.gens, st.lineage[h])
  {
    var chain := st.lineage[h];
    forall i | 0 <= i < |chain|
      ensures LinkedAt(st.gens, chain, i)
    {
      LineageLink(st.lineage, h, i);
    }
    forall i, j | 0 <= i < j < |chain|
      ensures chain[i].hash != chain[j].hash
    {
      LineageHashesDistinct(st.lineage, h, i, j);
    }
  }

  /** The parent walk visits exactly a linked chain. */
  lemma {:induction false} WalkIsChain(gens: map<Hash, Generation>, chain: seq<Generation>, k: nat, visited: set<Hash>)
    requires Linked(gens, chain) && k <= |chain|
    requires forall h :: h in visited ==> exists i :: 0 <= i < k && chain[i].hash == h
    ensures WalkFrom(gens, if k < |chain| then chain[k].hash else NoHash, visited) == HashesIn(chain[k..])
    decreases |chain| - k
  {
    if k < |chain| {
      var current := chain[k].hash;
      assert LinkedAt(gens, chain, k);
      forall h | h in visited + {current}
        ensures exists i :: 0 <= i < k + 1 && chain[i].hash == h
      {
        if h == current {
          assert chain[k].hash == h;
        }
      }
      WalkIsChain(gens, chain, k + 1, visited + {current});
      assert HashesIn(chain[k..]) == [current] + HashesIn(chain[k + 1..]);
    }
  }

  /** The snapshots a described history records are those its chain lists. */
  lemma HistoryListsChain(history: ServerHistory, chain: seq<Generation>, snap: Hash)
    requires Describes(history, chain)
    requires forall i :: 0 <= i < |chain| ==> DistinctServers(chain[i].resources)
    ensures (exists e, s :: e in history && s in e.snapshots && s.snapshotHash == snap)
            <==> exists i, e :: 0 <= i < |chain| && e in chain[i].resources && e.snapshotHash == snap
  {
    if exists e, s :: e in history && s in e.snapshots && s.snapshotHash == snap {
      var e, s :| e in history && s in e.snapshots && s.snapshotHash == snap;
      var n :| 0 <= n < |history| && history[n] == e;
      LookupDistinct(history, e.serverId);
      assert SnapshotsOf(history, e.serverId) == Runs(chain, e.serverId);
      RunsHashes(chain, e.serverId, snap);
      var i :| 0 <= i < |chain| && ResourceOf(chain[i].resources, e.serverId) == Some(snap);
      ResourceListed(chain[i].resources, e.serverId);
    }
    if exists i, e :: 0 <= i < |chain| && e in chain[i].resources && e.snapshotHash == snap {
      var i, e :| 0 <= i < |chain| && e in chain[i].resources && e.snapshotHash == snap;
      var n :| 0 <= n < |chain[i].resources| && chain[i].resources[n] == e;
      ResourceOfDistinct(chain[i].resources, e.serverId);
      RunsHashes(chain, e.serverId, snap);
      assert SnapshotsOf(history, e.serverId) == Runs(chain, e.serverId);
      var s :| s in Runs(chain, e.serverId) && s.snapshotHash == snap;
      LookupIsMember(history, e.serverId);
      assert ServerEntry(e.serverId, Runs(chain, e.serverId)) in history;
    }
  }

  /** Every generation of a lineage lists its servers once. */
  lemma LineageDistinct(lineage: map<Hash, seq<Generation>>, h: Hash)
    requires Lineal(lineage) && h in lineage
    ensures forall i :: 0 <= i < |lineage[h]| ==> DistinctServers(lineage[h][i].resources)
  {
    forall i | 0 <= i < |lineage[h]|
      ensures DistinctServers(lineage[h][i].resources)
    {
      LineageSuffix(lineage, h, i);
      assert LinealAt(lineage, lineage[h][i].hash);
    }
  }

  /** Rooting in the head's history reaches exactly the snapshots and blobs
      that walking the full parent chain reaches, when that chain is loadable. */
  lemma HistoryRootIsFullChain(st: State, head: Hash, depth: nat)
    requires Inv(st) && head in st.histories
    requires forall i :: 0 <= i < |st.lineage[head]| ==> st.lineage[head][i].hash in st.gens
    ensures HeadReach(st, head, depth).resourceSnaps == FullChainReach(st, head).resourceSnaps
    ensures HeadReach(st, head, depth).blobs == FullChainReach(st, head).blobs
    ensures Chain(st.gens, head) == HashesIn(st.lineage[head])
  {
    var chain, history := st.lineage[head], st.histories[head];
    LineageLinked(st, head);
    WalkIsChain(st.gens, chain, 0, {});
    assert chain[0..] == chain;
    LineageDistinct(st.lineage, head);
    SameSnapshots(st, chain, history);
  }

  lemma SameSnapshots(st: State, chain: seq<Generation>, history: ServerHistory)
    requires Linked(st.gens, chain) && Describes(history, chain)
    requires forall i :: 0 <= i < |chain| ==> DistinctServers(chain[i].resources)
    ensures HistorySnapshots(history) == ChainSnapshots(st.gens, HashesIn(chain))
  {
    forall snap
      ensures snap in HistorySnapshots(history) <==> snap in ChainSnapshots(st.gens, HashesIn(chain))
    {
      HistoryListsChain(history, chain, snap);
      HistorySnapshotsMean(history, snap);
      forall i | 0 <= i < |chain|
        ensures chain[i].hash in st.gens && st.gens[chain[i].hash] == chain[i]
      {
        assert LinkedAt(st.gens, chain, i);
      }
      WalkSnapshots(st, chain, snap);
    }
  }

  lemma HistorySnapshotsMean(history: ServerHistory, snap: Hash)
    ensures snap in HistorySnapshots(history) <==>
            snap != NoHash && exists e, s :: e in history && s in e.snapshots && s.snapshotHash == snap
  {
    if snap != NoHash && exists e, s :: e in history && s in e.snapshots && s.snapshotHash == snap {
      var e, s :| e in history && s in e.snapshots && s.snapshotHash == snap;
      assert snap in RecordedSnapshots(e.snapshots);
    }
  }

  lemma WalkSnapshots(st: State, chain: seq<Generation>, snap: Hash)
    requires forall i :: 0 <= i < |chain| ==> chain[i].hash in st.gens && st.gens[chain[i].hash] == chain[i]
    ensures snap in ChainSnapshots(st.gens, HashesIn(chain)) <==>
            snap != NoHash && exists i, e :: 0 <= i < |chain| && e in chain[i].resources && e.snapshotHash == snap
  {
    if snap != NoHash && exists i, e :: 0 <= i < |chain| && e in chain[i].resources && e.snapshotHash == snap {
      var i, e :| 0 <= i < |chain| && e in chain[i].resources && e.snapshotHash == snap;
      assert HashesIn(chain)[i] == chain[i].hash;
      assert snap in ListedSnapshots(st.gens[chain[i].hash].resources);
    }
  }

  // ---- Where the code falls short ------------------------------------------

  ghost predicate ListsNothing(chain: seq<Generation>) {
    forall i, sid :: 0 <= i < |chain| ==> ResourceOf(chain[i].resources, sid) == None
  }

  /** A commit on any stored parent describes its whole chain exactly when the
      parent still has its history, or no ancestor ever listed a server: a
      child of a generation stripped by a prune starts from nothing. */
  lemma DescribesIffParentHistory(st: State, g: Generation)
    requires Lineal(st.lineage) && HistoriesComplete(st.histories, st.lineage)
    requires g.hash !in st.gens && g.meta.parent in st.lineage && DistinctServers(g.resources)
    requires g.hash !in st.lineage
    ensures Describes(Created(st, g).histories[g.hash], Created(st, g).lineage[g.hash])
            <==> g.meta.parent in st.histories || ListsNothing(st.lineage[g.meta.parent])
  {
    var parent := g.meta.parent;
    var chain := st.lineage[parent];
    if parent in st.histories {
      MergeDescribes(st.histories[parent], g, chain);
    } else if ListsNothing(chain) {
      NothingLost(g, chain);
    } else {
      FreshOpener(st.lineage, g);
      SomethingLost(g, chain);
    }
  }

  lemma NothingLost(g: Generation, chain: seq<Generation>)
    requires DistinctServers(g.resources) && ListsNothing(chain)
    ensures Describes(Merged([], g), [g] + chain)
  {
    forall sid
      ensures SnapshotsOf(Merged([], g), sid) == Runs([g] + chain, sid)
    {
      MergedFromNothing(g, sid);
      NothingCarried(chain, sid);
      RunsStep(g, chain, sid);
    }
    MergedDistinct([], g);
    MergedNonEmpty([], g);
  }

  lemma SomethingLost(g: Generation, chain: seq<Generation>)
    requires DistinctServers(g.resources) && !ListsNothing(chain)
    requires forall sid, s :: s in Runs(chain, sid) ==> s.generationHash != g.hash
    ensures !Describes(Merged([], g), [g] + chain)
  {
    var i, sid :| 0 <= i < |chain| && ResourceOf(chain[i].resources, sid) != None;
    RunsHashes(chain, sid, ResourceOf(chain[i].resources, sid).value);
    MergedFromNothing(g, sid);
    RunsStep(g, chain, sid);
    assert Runs(chain, sid)[0] in Runs(chain, sid);
    assert SnapshotsOf(Merged([], g), sid) != Runs([g] + chain, sid);
  }

  lemma MergedFromNothing(g: Generation, sid: ServerId)
    requires DistinctServers(g.resources)
    ensures SnapshotsOf(Merged([], g), sid) ==
            match ResourceOf(g.resources, sid) {
              case None => []
              case Some(h) => [Opened(g, ResourceEntry(sid, h))]
            }
  {
    MergedLookup([], g, sid);
  }

  lemma {:induction false} NothingCarried(chain: seq<Generation>, sid: ServerId)
    requires ListsNothing(chain)
    ensures Carriers(chain, sid) == []
  {
    if chain != [] {
      assert ResourceOf(chain[0].resources, sid) == None;
      forall i, s | 0 <= i < |chain[1..]|
        ensures ResourceOf(chain[1..][i].resources, s) == None
      {
        assert chain[1..][i] == chain[i + 1];
      }
      NothingCarried(chain[1..], sid);
    }
  }

  lemma {:induction false} CarriersFromChain(chain: seq<Generation>, sid: ServerId, s: Snapshot)
    requires s in Carriers(chain, sid)
    ensures exists i :: 0 <= i < |chain| && chain[i].hash == s.generationHash
  {
    if s in Carry(chain[0], sid) {
      assert chain[0].hash == s.generationHash;
    } else {
      CarriersFromChain(chain[1..], sid, s);
      var i :| 0 <= i < |chain[1..]| && chain[1..][i].hash == s.generationHash;
      assert chain[i + 1].hash == s.generationHash;
    }
  }

  lemma {:induction false} OpenersAreCarriers(carriers: seq<Snapshot>)
    ensures forall s :: s in Openers(carriers) ==> s in carriers
  {
    if carriers != [] {
      OpenersAreCarriers(carriers[1..]);
    }
  }

  /** Entries inherited from a chain were not opened by a new generation. */
  lemma FreshOpener(lineage: map<Hash, seq<Generation>>, g: Generation)
    requires Lineal(lineage) && g.meta.parent in lineage && g.hash !in lineage
    ensures forall sid, s :: s in Runs(lineage[g.meta.parent], sid) ==> s.generationHash != g.hash
  {
    var chain := lineage[g.meta.parent];
    forall sid, s | s in Runs(chain, sid)
      ensures s.generationHash != g.hash
    {
      OpenersAreCarriers(Carriers(chain, sid));
      CarriersFromChain(chain, sid, s);
      var i :| 0 <= i < |chain| && chain[i].hash == s.generationHash;
      LineageLink(lineage, g.meta.parent, i);
    }
  }

  /** The verifier's view of one server: its history has an entry, and what is
      newest there is the listed snapshot. */
  ghost predicate AgreesAt(history: ServerHistory, sid: ServerId, listed: Hash) {
    match Lookup(history, sid)
    case None => false
    case Some(snapshots) => snapshots == [] || snapshots[0].snapshotHash == listed
  }

  ghost predicate AgreesAll(history: ServerHistory, resources: seq<ResourceEntry>) {
    forall sid {:trigger ListedAgrees(history, resources, sid)} :: ListedAgrees(history, resources, sid)
  }

  ghost predicate ListedAgrees(history: ServerHistory, resources: seq<ResourceEntry>, sid: ServerId) {
    match ResourceOf(resources, sid)
    case None => true
    case Some(listed) => AgreesAt(history, sid, listed)
  }

  /** The consistency check of a generation finds nothing exactly when the
      history agrees about every listed server. */
  lemma NoHistoryIssuesIff(h: Hash, resources: seq<ResourceEntry>, history: ServerHistory)
    requires DistinctEntries(history)
    ensures GenerationHistoryIssues(h, resources, history) == {} <==> AgreesAll(history, resources)
  {
    if GenerationHistoryIssues(h, resources, history) == {} {
      forall sid
        ensures ListedAgrees(history, resources, sid)
      {
        if ResourceOf(resources, sid).Some? {
          NoIssuesAgrees(h, resources, history, sid);
        }
      }
    }
    if AgreesAll(history, resources) {
      AgreesNoIssues(h, resources, history);
    }
  }

  lemma NoIssuesAgrees(h: Hash, resources: seq<ResourceEntry>, history: ServerHistory, sid: ServerId)
    requires DistinctEntries(history) && GenerationHistoryIssues(h, resources, history) == {}
    requires ResourceOf(resources, sid).Some?
    ensures AgreesAt(history, sid, ResourceOf(resources, sid).value)
  {
    var issues := GenerationHistoryIssues(h, resources, history);
    ListedIffResource(resources, sid);
    assert MissingFromHistory(h, sid) !in issues;
    var e :| e in history && e.serverId == sid;
    LookupMember(history, e);
    assert forall i :: i in EntryIssues(h, resources, e) ==> i in issues;
    assert EntryIssues(h, resources, e) == {};
  }

  lemma AgreesNoIssues(h: Hash, resources: seq<ResourceEntry>, history: ServerHistory)
    requires DistinctEntries(history) && AgreesAll(history, resources)
    ensures GenerationHistoryIssues(h, resources, history) == {}
  {
    forall sid | sid in ServersOf(resources)
      ensures sid in HistoryServers(history)
    {
      ListedIffResource(resources, sid);
      assert ListedAgrees(history, resources, sid);
      LookupIsMember(history, sid);
    }
    forall e | e in history
      ensures EntryIssues(h, resources, e) == {}
    {
      LookupMember(history, e);
      assert ListedAgrees(history, resources, e.serverId);
    }
    assert ServersOf(resources) - HistoryServers(history) == {};
    assert NewestIssues(h, resources, history) == {};
  }

  /** What a server's newest snapshot is after a merge: the listed one, or the
      inherited one when the generation omits the server. */
  lemma MergedAgreesIff(history: ServerHistory, g: Generation, sid: ServerId, listed: Hash)
    requires DistinctServers(g.resources)
    ensures AgreesAt(Merged(history, g), sid, listed) <==>
            match ResourceOf(g.resources, sid) {
              case Some(own) => own == listed
              case None => AgreesAt(history, sid, listed)
            }
  {
    MergedLookup(history, g, sid);
  }

  ghost predicate CollisionAgrees(st: State, g: Generation, sid: ServerId)
    requires g.hash in st.gens
  {
    var stored, own := ResourceOf(st.gens[g.hash].resources, sid), ResourceOf(g.resources, sid);
    stored.Some? ==> own == stored || (own.None? && AgreesAt(ParentHistory(st, g.meta.parent), sid, stored.value))
  }

  /** Writing a generation whose directory already exists keeps the stored
      resources but replaces the history. The verifier finds the two consistent
      exactly when, for every server that the stored version lists, the new
      version lists the same snapshot, or omits the server and the history of
      its parent has that snapshot as the newest. */
  lemma CollisionConsistentIff(st: State, g: Generation)
    requires g.hash in st.gens && DistinctServers(g.resources)
    ensures Created(st, g).gens[g.hash] == st.gens[g.hash]
    ensures GenerationHistoryIssues(g.hash, st.gens[g.hash].resources, Created(st, g).histories[g.hash]) == {} <==>
            forall sid {:trigger CollisionAgrees(st, g, sid)} :: CollisionAgrees(st, g, sid)
  {
    var stored, parent := st.gens[g.hash].resources, ParentHistory(st, g.meta.parent);
    MergedDistinct(parent, g);
    NoHistoryIssuesIff(g.hash, stored, Merged(parent, g));
    forall sid
      ensures ListedAgrees(Merged(parent, g), stored, sid) <==> CollisionAgrees(st, g, sid)
    {
      if ResourceOf(stored, sid).Some? {
        MergedAgreesIff(parent, g, sid, ResourceOf(stored, sid).value);
      }
    }
  }
}
