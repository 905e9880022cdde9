/** The incremental merge of a generation into a server history. */
module History {
  // The specification it is measured against: the runs of equal snapshots
  // along the whole chain of generations.

  import opened StoreTypes

  // ---- Lookups -------------------------------------------------------------

  function BuildAndVersion(index: seq<ServerInfo>, sid: ServerId): (string, string) {
    if index == [] then ("", "")
    else
      var last := index[|index| - 1];
      if last.serverId == sid then (last.gameBuild, last.gameVersion)
      else BuildAndVersion(index[..|index| - 1], sid)
  }

  /** A history's entry for a server; on repetition the last entry wins. */
  function Lookup(history: ServerHistory, sid: ServerId): Option<seq<Snapshot>> {
    if history == [] then None
    else
      var last := history[|history| - 1];
      if last.serverId == sid then Some(last.snapshots)
      else Lookup(history[..|history| - 1], sid)
  }

  function SnapshotsOf(history: ServerHistory, sid: ServerId): seq<Snapshot> {
    match Lookup(history, sid)
    case None => []
    case Some(s) => s
  }

  /** The servers of a history in order of first appearance. */
  function ServerOrder(history: ServerHistory): seq<ServerId> {
    if history == [] then []
    else
      var before := ServerOrder(history[..|history| - 1]);
      var sid := history[|history| - 1].serverId;
      if sid in before then before else before + [sid]
  }

  lemma {:induction false} LookupFindsOrder(history: ServerHistory, sid: ServerId)
    ensures Lookup(history, sid).Some? <==> sid in ServerOrder(history)
  {
    if history != [] {
      LookupFindsOrder(history[..|history| - 1], sid);
    }
  }

  lemma {:induction false} ServerOrderDistinct(history: ServerHistory)
    ensures forall i, j :: 0 <= i < j < |ServerOrder(history)| ==> ServerOrder(history)[i] != ServerOrder(history)[j]
  {
    if history != [] {
      ServerOrderDistinct(history[..|history| - 1]);
    }
  }

  // ---- The merge -----------------------------------------------------------

  /** The history snapshot a generation contributes for a resources entry. */
  function Opened(g: Generation, e: ResourceEntry): Snapshot {
    var bv := BuildAndVersion(g.serverIndex, e.serverId);
    Snapshot(e.snapshotHash, g.hash, g.meta.timestamp, bv.0, bv.1)
  }

  function UpdatedEntry(history: ServerHistory, g: Generation, e: ResourceEntry): ServerEntry {
    match Lookup(history, e.serverId)
    case None => ServerEntry(e.serverId, [Opened(g, e)])
    case Some(prior) =>
      if prior != [] && prior[0].snapshotHash == e.snapshotHash then ServerEntry(e.serverId, prior)
      else ServerEntry(e.serverId, [Opened(g, e)] + prior)
  }

  function Updated(history: ServerHistory, g: Generation, resources: seq<ResourceEntry>): ServerHistory {
    if resources == [] then []
    else
      Updated(history, g, resources[..|resources| - 1])
      + [UpdatedEntry(history, g, resources[|resources| - 1])]
  }

  /** The servers of `order` outside `changed`, with the snapshots they had. */
  function Carried(history: ServerHistory, order: seq<ServerId>, changed: set<ServerId>): ServerHistory {
    if order == [] then []
    else
      var rest := Carried(history, order[..|order| - 1], changed);
      var sid := order[|order| - 1];
      if sid in changed then rest else rest + [ServerEntry(sid, SnapshotsOf(history, sid))]
  }

  function ServersOf(resources: seq<ResourceEntry>): set<ServerId> {
    set e | e in resources :: e.serverId
  }

  function Merged(history: ServerHistory, g: Generation): ServerHistory {
    Updated(history, g, g.resources) + Carried(history, ServerOrder(history), ServersOf(g.resources))
  }

  method ServerIndexLookup(index: seq<ServerInfo>) returns (result: map<ServerId, (string, string)>)
    ensures forall sid :: (if sid in result then result[sid] else ("", "")) == BuildAndVersion(index, sid)
  {
    result := map[];
    for i := 0 to |index|
      invariant forall sid :: (if sid in result then result[sid] else ("", "")) == BuildAndVersion(index[..i], sid)
    {
      assert index[..i + 1][..i] == index[..i];
      result := result[index[i].serverId := (index[i].gameBuild, index[i].gameVersion)];
    }
    assert index[..|index|] == index;
  }

  /** The dictionary of a history's entries, and its insertion order. */
  method IndexHistory(history: ServerHistory)
    returns (existing: map<ServerId, seq<Snapshot>>, order: seq<ServerId>)
    ensures order == ServerOrder(history)
    ensures forall sid :: sid in existing <==> sid in order
    ensures forall sid :: Lookup(history, sid) == if sid in existing then Some(existing[sid]) else None
  {
    existing, order := map[], [];
    for i := 0 to |history|
      invariant order == ServerOrder(history[..i])
      invariant forall sid :: sid in existing <==> sid in order
      invariant forall sid :: Lookup(history[..i], sid) == if sid in existing then Some(existing[sid]) else None
    {
      assert history[..i + 1][..i] == history[..i];
      var entry := history[i];
      if entry.serverId !in existing {
        order := order + [entry.serverId];
      }
      existing := existing[entry.serverId := entry.snapshots];
    }
    assert history[..|history|] == history;
  }

  method MergeGenerationIntoHistory(history: ServerHistory, g: Generation) returns (result: ServerHistory)
    ensures result == Merged(history, g)
  {
    var idx := ServerIndexLookup(g.serverIndex);
    var existing, order := IndexHistory(history);

    result := [];
    var changedIds: set<ServerId> := {};
    for i := 0 to |g.resources|
      invariant changedIds == ServersOf(g.resources[..i])
      invariant result == Updated(history, g, g.resources[..i])
    {
      UpdatedOneMore(history, g, i);
      var e := g.resources[i];
      changedIds := changedIds + {e.serverId};
      var entry := MergeEntry(history, existing, idx, g, e);
      result := result + [entry];
    }
    assert g.resources[..|g.resources|] == g.resources;

    var carried := CarryForward(history, existing, order, changedIds);
    result := result + carried;
  }

  lemma UpdatedOneMore(history: ServerHistory, g: Generation, i: nat)
    requires i < |g.resources|
    ensures Updated(history, g, g.resources[..i + 1]) ==
            Updated(history, g, g.resources[..i]) + [UpdatedEntry(history, g, g.resources[i])]
    ensures ServersOf(g.resources[..i + 1]) == ServersOf(g.resources[..i]) + {g.resources[i].serverId}
  {
    assert g.resources[..i + 1][..i] == g.resources[..i];
    assert g.resources[..i + 1] == g.resources[..i] + [g.resources[i]];
  }

  /** The loop over the servers the generation does not list. */
  method CarryForward(
    ghost history: ServerHistory, existing: map<ServerId, seq<Snapshot>>,
    order: seq<ServerId>, changedIds: set<ServerId>)
    returns (result: ServerHistory)
    requires forall sid :: sid in order ==> sid in existing && existing[sid] == SnapshotsOf(history, sid)
    ensures result == Carried(history, order, changedIds)
  {
    result := [];
    for i := 0 to |order|
      invariant result == Carried(history, order[..i], changedIds)
    {
      assert order[..i + 1][..i] == order[..i];
      if order[i] !in changedIds {
        result := result + [ServerEntry(order[i], existing[order[i]])];
      }
    }
    assert order[..|order|] == order;
  }

  /** The body of the merge loop: one resources entry. */
  method MergeEntry(
    ghost history: ServerHistory, existing: map<ServerId, seq<Snapshot>>,
    idx: map<ServerId, (string, string)>, g: Generation, e: ResourceEntry)
    returns (entry: ServerEntry)
    requires Lookup(history, e.serverId) == if e.serverId in existing then Some(existing[e.serverId]) else None
    requires (if e.serverId in idx then idx[e.serverId] else ("", "")) == BuildAndVersion(g.serverIndex, e.serverId)
    ensures entry == UpdatedEntry(history, g, e)
  {
    var sid := e.serverId;
    if sid in existing && existing[sid] != [] && existing[sid][0].snapshotHash == e.snapshotHash {
      entry := ServerEntry(sid, existing[sid]);
    } else {
      var bv := if sid in idx then idx[sid] else ("", "");
      entry := ServerEntry(sid, [Snapshot(e.snapshotHash, g.hash, g.meta.timestamp, bv.0, bv.1)]);
      if sid in existing {
        entry := ServerEntry(sid, entry.snapshots + existing[sid]);
      }
    }
  }

  // ---- What a history means ------------------------------------------------

  /** What one generation says about a server: nothing, or one carried snapshot. */
  function Carry(g: Generation, sid: ServerId): seq<Snapshot> {
    match ResourceOf(g.resources, sid)
    case None => []
    case Some(h) => [Opened(g, ResourceEntry(sid, h))]
  }

  /** The snapshots a server had along a chain (newest first), one per
      generation that lists the server. */
  function Carriers(chain: seq<Generation>, sid: ServerId): seq<Snapshot> {
    if chain == [] then [] else Carry(chain[0], sid) + Carriers(chain[1..], sid)
  }

  /** Keep a carrier exactly when the next older one has another snapshot:
      of every run of equal snapshots, the oldest member. */
  function Openers(carriers: seq<Snapshot>): seq<Snapshot> {
    if carriers == [] then []
    else
      (if |carriers| > 1 && carriers[1].snapshotHash == carriers[0].snapshotHash then [] else [carriers[0]])
      + Openers(carriers[1..])
  }

  /** The history of a server along a chain, read off the whole chain. */
  function Runs(chain: seq<Generation>, sid: ServerId): seq<Snapshot> {
    Openers(Carriers(chain, sid))
  }

  ghost predicate DistinctEntries(history: ServerHistory) {
    forall i, j :: 0 <= i < j < |history| ==> history[i].serverId != history[j].serverId
  }

  /** `history` lists each server at most once, and each with exactly its runs along `chain`. */
  ghost predicate Describes(history: ServerHistory, chain: seq<Generation>) {
    && DistinctEntries(history)
    && (forall i :: 0 <= i < |history| ==> history[i].snapshots != [])
    && (forall sid :: SnapshotsOf(history, sid) == Runs(chain, sid))
  }

  lemma {:induction false} OpenersHead(carriers: seq<Snapshot>)
    requires carriers != []
    ensures Openers(carriers) != [] && Openers(carriers)[0].snapshotHash == carriers[0].snapshotHash
  {
    if |carriers| > 1 {
      OpenersHead(carriers[1..]);
    }
  }

  /** One more generation changes a server's runs as the merge does. */
  lemma RunsStep(g: Generation, chain: seq<Generation>, sid: ServerId)
    ensures Runs([g] + chain, sid) ==
            match ResourceOf(g.resources, sid) {
              case None => Runs(chain, sid)
              case Some(h) =>
                if Runs(chain, sid) != [] && Runs(chain, sid)[0].snapshotHash == h then Runs(chain, sid)
                else [Opened(g, ResourceEntry(sid, h))] + Runs(chain, sid)
            }
  {
    var older := Carriers(chain, sid);
    assert ([g] + chain)[1..] == chain;
    match ResourceOf(g.resources, sid) {
      case None => assert Carriers([g] + chain, sid) == older;
      case Some(h) =>
        var all := Carriers([g] + chain, sid);
        assert all == [Opened(g, ResourceEntry(sid, h))] + older;
        assert all[1..] == older;
        if older != [] {
          OpenersHead(older);
        }
    }
  }

  // ---- The merged message, entry by entry ----------------------------------

  lemma {:induction false} UpdatedShape(history: ServerHistory, g: Generation, resources: seq<ResourceEntry>)
    ensures |Updated(history, g, resources)| == |resources|
    ensures forall i :: 0 <= i < |resources| ==>
              Updated(history, g, resources)[i] == UpdatedEntry(history, g, resources[i])
  {
    if resources != [] {
      UpdatedShape(history, g, resources[..|resources| - 1]);
    }
  }

  lemma {:induction false} CarriedShape(history: ServerHistory, order: seq<ServerId>, changed: set<ServerId>)
    requires forall i, j :: 0 <= i < j < |order| ==> order[i] != order[j]
    ensures forall e :: e in Carried(history, order, changed) ==>
              e.serverId in order && e.serverId !in changed && e.snapshots == SnapshotsOf(history, e.serverId)
    ensures forall sid :: sid in order && sid !in changed ==>
              ServerEntry(sid, SnapshotsOf(history, sid)) in Carried(history, order, changed)
    ensures DistinctEntries(Carried(history, order, changed))
  {
    if order != [] {
      CarriedShape(history, order[..|order| - 1], changed);
    }
  }

  /** In a message without repeated servers, lookup is membership. */
  lemma {:induction false} LookupDistinct(history: ServerHistory, sid: ServerId)
    requires DistinctEntries(history)
    ensures forall i :: 0 <= i < |history| && history[i].serverId == sid ==>
              Lookup(history, sid) == Some(history[i].snapshots)
    ensures (forall i :: 0 <= i < |history| ==> history[i].serverId != sid) ==> Lookup(history, sid) == None
  {
    if history != [] {
      LookupDistinct(history[..|history| - 1], sid);
    }
  }

  lemma LookupMember(history: ServerHistory, e: ServerEntry)
    requires DistinctEntries(history) && e in history
    ensures Lookup(history, e.serverId) == Some(e.snapshots)
  {
    LookupDistinct(history, e.serverId);
  }

  lemma {:induction false} LookupAbsent(history: ServerHistory, sid: ServerId)
    requires forall e :: e in history ==> e.serverId != sid
    ensures Lookup(history, sid) == None
  {
    if history != [] {
      LookupAbsent(history[..|history| - 1], sid);
    }
  }

  lemma {:induction false} ResourceOfDistinct(resources: seq<ResourceEntry>, sid: ServerId)
    requires DistinctServers(resources)
    ensures forall i :: 0 <= i < |resources| && resources[i].serverId == sid ==>
              ResourceOf(resources, sid) == Some(resources[i].snapshotHash)
    ensures sid !in ServersOf(resources) ==> ResourceOf(resources, sid) == None
  {
    if resources != [] {
      ResourceOfDistinct(resources[..|resources| - 1], sid);
    }
  }

  lemma {:induction false} ResourceListed(resources: seq<ResourceEntry>, sid: ServerId)
    requires ResourceOf(resources, sid).Some?
    ensures ResourceEntry(sid, ResourceOf(resources, sid).value) in resources
  {
    if resources[|resources| - 1].serverId != sid {
      ResourceListed(resources[..|resources| - 1], sid);
    }
  }

  lemma {:induction false} ListedIffResource(resources: seq<ResourceEntry>, sid: ServerId)
    ensures ResourceOf(resources, sid).Some? <==> sid in ServersOf(resources)
  {
    if resources != [] {
      ListedIffResource(resources[..|resources| - 1], sid);
      assert resources == resources[..|resources| - 1] + [resources[|resources| - 1]];
    }
  }

  lemma MergedDistinct(history: ServerHistory, g: Generation)
    requires DistinctServers(g.resources)
    ensures DistinctEntries(Merged(history, g))
  {
    var up := Updated(history, g, g.resources);
    var changed := ServersOf(g.resources);
    var ca := Carried(history, ServerOrder(history), changed);
    UpdatedShape(history, g, g.resources);
    ServerOrderDistinct(history);
    CarriedShape(history, ServerOrder(history), changed);
    assert forall i :: 0 <= i < |up| ==> up[i].serverId == g.resources[i].serverId;
    assert forall i :: 0 <= i < |ca| ==> ca[i] in ca && ca[i].serverId !in changed;
    ConcatDistinct(up, ca, changed);
  }

  lemma ConcatDistinct(a: ServerHistory, b: ServerHistory, left: set<ServerId>)
    requires DistinctEntries(a) && DistinctEntries(b)
    requires forall i :: 0 <= i < |a| ==> a[i].serverId in left
    requires forall i :: 0 <= i < |b| ==> b[i].serverId !in left
    ensures DistinctEntries(a + b)
  {
  }

  lemma MergedLookupListed(history: ServerHistory, g: Generation, i: nat)
    requires DistinctServers(g.resources) && i < |g.resources|
    ensures Lookup(Merged(history, g), g.resources[i].serverId) ==
            Some(UpdatedEntry(history, g, g.resources[i]).snapshots)
  {
    UpdatedShape(history, g, g.resources);
    MergedDistinct(history, g);
    LookupDistinct(Merged(history, g), g.resources[i].serverId);
    assert Merged(history, g)[i] == UpdatedEntry(history, g, g.resources[i]);
  }

  lemma MergedLookupUnlisted(history: ServerHistory, g: Generation, sid: ServerId)
    requires DistinctServers(g.resources) && sid !in ServersOf(g.resources)
    ensures Lookup(Merged(history, g), sid) == Lookup(history, sid)
  {
    var changed := ServersOf(g.resources);
    var up := Updated(history, g, g.resources);
    var ca := Carried(history, ServerOrder(history), changed);
    var all := up + ca;
    UpdatedShape(history, g, g.resources);
    ServerOrderDistinct(history);
    CarriedShape(history, ServerOrder(history), changed);
    LookupFindsOrder(history, sid);
    if sid in ServerOrder(history) {
      assert ServerEntry(sid, SnapshotsOf(history, sid)) in all;
      MergedDistinct(history, g);
      LookupMember(all, ServerEntry(sid, SnapshotsOf(history, sid)));
    } else {
      forall e | e in all
        ensures e.serverId != sid
      {
        if e in up {
          var i :| 0 <= i < |up| && up[i] == e;
          assert e.serverId == g.resources[i].serverId;
        }
      }
      LookupAbsent(all, sid);
    }
  }

  /** The merge, server by server: a listed server keeps its snapshots or gets
      one prepended, an unlisted server is carried unchanged. */
  lemma MergedLookup(history: ServerHistory, g: Generation, sid: ServerId)
    requires DistinctServers(g.resources)
    ensures Lookup(Merged(history, g), sid) ==
            match ResourceOf(g.resources, sid) {
              case None => Lookup(history, sid)
              case Some(h) => Some(UpdatedEntry(history, g, ResourceEntry(sid, h)).snapshots)
            }
  {
    ResourceOfDistinct(g.resources, sid);
    if sid in ServersOf(g.resources) {
      var i :| 0 <= i < |g.resources| && g.resources[i].serverId == sid;
      MergedLookupListed(history, g, i);
    } else {
      MergedLookupUnlisted(history, g, sid);
    }
  }

  lemma {:induction false} LookupIsMember(history: ServerHistory, sid: ServerId)
    requires Lookup(history, sid).Some?
    ensures ServerEntry(sid, Lookup(history, sid).value) in history
  {
    if history[|history| - 1].serverId != sid {
      LookupIsMember(history[..|history| - 1], sid);
    }
  }

  lemma MergedNonEmpty(history: ServerHistory, g: Generation)
    requires forall i :: 0 <= i < |history| ==> history[i].snapshots != []
    ensures forall i :: 0 <= i < |Merged(history, g)| ==> Merged(history, g)[i].snapshots != []
  {
    var up := Updated(history, g, g.resources);
    var ca := Carried(history, ServerOrder(history), ServersOf(g.resources));
    UpdatedShape(history, g, g.resources);
    ServerOrderDistinct(history);
    CarriedShape(history, ServerOrder(history), ServersOf(g.resources));
    var all := Merged(history, g);
    forall i | 0 <= i < |all|
      ensures all[i].snapshots != []
    {
      if i < |up| {
        assert all[i] == UpdatedEntry(history, g, g.resources[i]);
      } else {
        var e := ca[i - |up|];
        assert all[i] == e && e in ca;
        LookupFindsOrder(history, e.serverId);
        LookupIsMember(history, e.serverId);
      }
    }
  }

  /** Merging a generation into a history of its parent's chain gives a
      history of its own chain. */
  lemma MergeDescribes(history: ServerHistory, g: Generation, chain: seq<Generation>)
    requires DistinctServers(g.resources)
    requires Describes(history, chain)
    ensures Describes(Merged(history, g), [g] + chain)
  {
    MergedDistinct(history, g);
    MergedNonEmpty(history, g);
    forall sid
      ensures SnapshotsOf(Merged(history, g), sid) == Runs([g] + chain, sid)
    {
      MergedLookup(history, g, sid);
      RunsStep(g, chain, sid);
      assert SnapshotsOf(history, sid) == Runs(chain, sid);
    }
  }

  // ---- What a new entry says -----------------------------------------------

  /** The index's last entry for the server. */
  ghost predicate LastFor(index: seq<ServerInfo>, sid: ServerId, i: nat) {
    && i < |index| && index[i].serverId == sid
    && forall j :: i < j < |index| ==> index[j].serverId != sid
  }

  /** The snapshot was opened by `g`: it carries the generation's hash and time,
      and the build and version of the server's last index entry, if any. */
  ghost predicate OpenedBy(g: Generation, sid: ServerId, s: Snapshot) {
    && s.generationHash == g.hash && s.timestamp == g.meta.timestamp
    && (forall i: nat :: LastFor(g.serverIndex, sid, i) ==>
          s.gameBuild == g.serverIndex[i].gameBuild && s.gameVersion == g.serverIndex[i].gameVersion)
    && ((forall i :: 0 <= i < |g.serverIndex| ==> g.serverIndex[i].serverId != sid) ==>
          s.gameBuild == "" && s.gameVersion == "")
  }

  lemma {:induction false} BuildIsLast(index: seq<ServerInfo>, sid: ServerId)
    ensures forall i: nat :: LastFor(index, sid, i) ==>
              BuildAndVersion(index, sid) == (index[i].gameBuild, index[i].gameVersion)
    ensures (forall i :: 0 <= i < |index| ==> index[i].serverId != sid) ==> BuildAndVersion(index, sid) == ("", "")
  {
    if index != [] {
      var earlier := index[..|index| - 1];
      BuildIsLast(earlier, sid);
      forall i: nat | LastFor(index, sid, i)
        ensures BuildAndVersion(index, sid) == (index[i].gameBuild, index[i].gameVersion)
      {
        if i < |earlier| {
          assert LastFor(earlier, sid, i);
        }
      }
    }
  }

  lemma OpenedIsStamped(g: Generation, e: ResourceEntry)
    ensures Opened(g, e).snapshotHash == e.snapshotHash && OpenedBy(g, e.serverId, Opened(g, e))
  {
    BuildIsLast(g.serverIndex, e.serverId);
  }

  /** A listed server whose newest snapshot is another one gets the listed
      snapshot in front, opened by the new generation; any other server keeps
      the snapshots it had. */
  lemma MergeStamps(history: ServerHistory, g: Generation, sid: ServerId)
    requires DistinctServers(g.resources)
    ensures var before, after := SnapshotsOf(history, sid), SnapshotsOf(Merged(history, g), sid);
            && ((forall e :: e in g.resources ==> e.serverId != sid) ==> after == before)
            && forall e :: e in g.resources && e.serverId == sid ==>
                 if before != [] && before[0].snapshotHash == e.snapshotHash then after == before
                 else
                   && after != [] && after[1..] == before
                   && after[0].snapshotHash == e.snapshotHash && OpenedBy(g, sid, after[0])
  {
    MergedLookup(history, g, sid);
    ResourceOfDistinct(g.resources, sid);
    forall e | e in g.resources && e.serverId == sid
      ensures ResourceOf(g.resources, sid) == Some(e.snapshotHash)
      ensures e.snapshotHash == Opened(g, e).snapshotHash && OpenedBy(g, sid, Opened(g, e))
    {
      var i :| 0 <= i < |g.resources| && g.resources[i] == e;
      OpenedIsStamped(g, e);
    }
  }

  /** Every entry of a server's runs was opened by a generation of the chain
      that lists its snapshot. */
  lemma {:induction false} RunsStamped(chain: seq<Generation>, sid: ServerId, s: Snapshot)
    requires s in Runs(chain, sid)
    ensures exists k :: 0 <= k < |chain| && ResourceEntry(sid, s.snapshotHash) in chain[k].resources
                        && OpenedBy(chain[k], sid, s)
  {
    var g, rest := chain[0], chain[1..];
    assert [g] + rest == chain;
    RunsStep(g, rest, sid);
    if s in Runs(rest, sid) {
      RunsStamped(rest, sid, s);
      var k :| 0 <= k < |rest| && ResourceEntry(sid, s.snapshotHash) in rest[k].resources && OpenedBy(rest[k], sid, s);
      assert chain[k + 1] == rest[k];
    } else {
      var h := ResourceOf(g.resources, sid).value;
      ResourceListed(g.resources, sid);
      OpenedIsStamped(g, ResourceEntry(sid, h));
    }
  }

  // ---- Repeated servers, and the order of a merged history -----------------

  /** On repetition the last entry of a history counts. */
  lemma {:induction false} LookupIsLast(history: ServerHistory, sid: ServerId, i: nat)
    requires i < |history| && history[i].serverId == sid
    requires forall j :: i < j < |history| ==> history[j].serverId != sid
    ensures Lookup(history, sid) == Some(history[i].snapshots)
  {
    if i < |history| - 1 {
      LookupIsLast(history[..|history| - 1], sid, i);
    }
  }

  /** And so it is with the entries of a generation's resources. */
  lemma {:induction false} ResourceIsLast(resources: seq<ResourceEntry>, sid: ServerId, i: nat)
    requires i < |resources| && resources[i].serverId == sid
    requires forall j :: i < j < |resources| ==> resources[j].serverId != sid
    ensures ResourceOf(resources, sid) == Some(resources[i].snapshotHash)
  {
    if i < |resources| - 1 {
      ResourceIsLast(resources[..|resources| - 1], sid, i);
    }
  }

  ghost predicate FirstFor(history: ServerHistory, sid: ServerId, i: nat) {
    && i < |history| && history[i].serverId == sid
    && forall j :: 0 <= j < i ==> history[j].serverId != sid
  }

  /** The servers of `order` come in the order of their first entries in `history`. */
  ghost predicate ByFirstEntry(history: ServerHistory, order: seq<ServerId>) {
    forall i, j, a: nat, b: nat ::
      0 <= i < j < |order| && FirstFor(history, order[i], a) && FirstFor(history, order[j], b) ==> a < b
  }

  lemma {:induction false} OrderByFirstEntry(history: ServerHistory)
    ensures ByFirstEntry(history, ServerOrder(history))
    ensures forall sid :: sid in ServerOrder(history) <==> exists e :: e in history && e.serverId == sid
  {
    if history != [] {
      var earlier, last := history[..|history| - 1], history[|history| - 1];
      OrderByFirstEntry(earlier);
      assert history == earlier + [last];
      FirstEntriesStay(earlier, last);
    }
  }

  lemma FirstEntriesStay(earlier: ServerHistory, last: ServerEntry)
    ensures forall sid, a: nat :: sid in ServerOrder(earlier) && FirstFor(earlier + [last], sid, a) ==>
              FirstFor(earlier, sid, a)
  {
    var history := earlier + [last];
    forall sid, a: nat | sid in ServerOrder(earlier) && FirstFor(history, sid, a)
      ensures FirstFor(earlier, sid, a)
    {
      LookupFindsOrder(earlier, sid);
      LookupIsMember(earlier, sid);
      var k :| 0 <= k < |earlier| && earlier[k].serverId == sid;
      assert history[k] == earlier[k];
      assert forall j :: 0 <= j < |earlier| ==> history[j] == earlier[j];
    }
  }

  function EntryServers(history: ServerHistory): seq<ServerId> {
    seq(|history|, i requires 0 <= i < |history| => history[i].serverId)
  }

  lemma {:induction false} CarriedByFirstEntry(history: ServerHistory, order: seq<ServerId>, changed: set<ServerId>)
    requires ByFirstEntry(history, order)
    ensures ByFirstEntry(history, EntryServers(Carried(history, order, changed)))
    ensures forall sid :: sid in EntryServers(Carried(history, order, changed)) <==> sid in order && sid !in changed
  {
    if order != [] {
      var n := |order| - 1;
      CarriedByFirstEntry(history, order[..n], changed);
      var before := EntryServers(Carried(history, order[..n], changed));
      assert order == order[..n] + [order[n]];
      assert EntryServers(Carried(history, order, changed)) ==
             before + if order[n] in changed then [] else [order[n]];
      forall i, a: nat, b: nat |
        0 <= i < |before| && FirstFor(history, before[i], a) && FirstFor(history, order[n], b) && order[n] !in changed
        ensures a < b
      {
        assert before[i] in before;
        var k :| 0 <= k < n && order[k] == before[i];
      }
    }
  }

  /** A merged history lists the generation's servers as its resources do, and
      then all other servers of the old history in order of first appearance. */
  lemma MergedOrder(history: ServerHistory, g: Generation)
    ensures var n, servers := |g.resources|, EntryServers(Merged(history, g));
            && |servers| >= n && (forall i :: 0 <= i < n ==> servers[i] == g.resources[i].serverId)
            && ByFirstEntry(history, servers[n..])
            && forall sid :: sid in servers[n..] <==>
                 (exists e :: e in history && e.serverId == sid) && forall e :: e in g.resources ==> e.serverId != sid
  {
    UpdatedShape(history, g, g.resources);
    OrderByFirstEntry(history);
    CarriedByFirstEntry(history, ServerOrder(history), ServersOf(g.resources));
    var carried := Carried(history, ServerOrder(history), ServersOf(g.resources));
    assert EntryServers(Merged(history, g))[|g.resources|..] == EntryServers(carried);
  }

  // ---- Consequences of the specification -----------------------------------

  function HashesOf(snapshots: seq<Snapshot>): set<Hash> {
    set s | s in snapshots :: s.snapshotHash
  }

  /** Collapsing runs loses no snapshot. */
  lemma {:induction false} OpenersKeepHashes(carriers: seq<Snapshot>)
    ensures HashesOf(Openers(carriers)) == HashesOf(carriers)
  {
    if carriers != [] {
      var tail := carriers[1..];
      OpenersKeepHashes(tail);
      assert carriers == [carriers[0]] + tail;
      assert HashesOf(carriers) == {carriers[0].snapshotHash} + HashesOf(tail);
      if |carriers| > 1 && carriers[1].snapshotHash == carriers[0].snapshotHash {
        assert carriers[1] in tail;
        assert Openers(carriers) == Openers(tail);
      } else {
        assert Openers(carriers) == [carriers[0]] + Openers(tail);
        assert HashesOf(Openers(carriers)) == {carriers[0].snapshotHash} + HashesOf(Openers(tail));
      }
    }
  }

  /** Consecutive entries of a history differ. */
  lemma {:induction false} OpenersAlternate(carriers: seq<Snapshot>)
    ensures forall i :: 0 <= i < |Openers(carriers)| - 1 ==>
              Openers(carriers)[i].snapshotHash != Openers(carriers)[i + 1].snapshotHash
  {
    if |carriers| > 1 {
      OpenersAlternate(carriers[1..]);
      OpenersHead(carriers[1..]);
      if carriers[1].snapshotHash == carriers[0].snapshotHash {
        assert Openers(carriers) == Openers(carriers[1..]);
      } else {
        assert Openers(carriers) == [carriers[0]] + Openers(carriers[1..]);
      }
    }
  }

  /** The newest entry is the oldest carrier of the current uninterrupted run. */
  lemma {:induction false} NewestOpensCurrentRun(carriers: seq<Snapshot>) returns (k: nat)
    requires carriers != []
    ensures k < |carriers|
    ensures Openers(carriers) != [] && Openers(carriers)[0] == carriers[k]
    ensures forall i :: 0 <= i <= k ==> carriers[i].snapshotHash == carriers[0].snapshotHash
    ensures k + 1 < |carriers| ==> carriers[k + 1].snapshotHash != carriers[0].snapshotHash
  {
    if |carriers| > 1 && carriers[1].snapshotHash == carriers[0].snapshotHash {
      var k' := NewestOpensCurrentRun(carriers[1..]);
      k := k' + 1;
      assert forall i :: 1 <= i <= k ==> carriers[i] == carriers[1..][i - 1];
    } else {
      k := 0;
    }
  }

  lemma {:induction false} CarriersHashes(chain: seq<Generation>, sid: ServerId)
    ensures forall h :: h in HashesOf(Carriers(chain, sid)) <==>
              exists i :: 0 <= i < |chain| && ResourceOf(chain[i].resources, sid) == Some(h)
  {
    if chain != [] {
      CarriersHashes(chain[1..], sid);
      forall h
        ensures h in HashesOf(Carriers(chain, sid)) <==>
                exists i :: 0 <= i < |chain| && ResourceOf(chain[i].resources, sid) == Some(h)
      {
        var c := Carry(chain[0], sid);
        assert HashesOf(Carriers(chain, sid)) == HashesOf(c) + HashesOf(Carriers(chain[1..], sid));
        if h in HashesOf(Carriers(chain[1..], sid)) {
          var i :| 0 <= i < |chain[1..]| && ResourceOf(chain[1..][i].resources, sid) == Some(h);
          assert chain[i + 1] == chain[1..][i];
        }
        if exists i :: 0 <= i < |chain| && ResourceOf(chain[i].resources, sid) == Some(h) {
          var i :| 0 <= i < |chain| && ResourceOf(chain[i].resources, sid) == Some(h);
          if i > 0 {
            assert chain[1..][i - 1] == chain[i];
          } else {
            assert Opened(chain[0], ResourceEntry(sid, h)) in c;
          }
        }
      }
    }
  }

  /** A history records a snapshot for a server exactly when some generation
      of the chain listed it. */
  lemma RunsHashes(chain: seq<Generation>, sid: ServerId, h: Hash)
    ensures h in HashesOf(Runs(chain, sid)) <==>
            exists i :: 0 <= i < |chain| && ResourceOf(chain[i].resources, sid) == Some(h)
  {
    OpenersKeepHashes(Carriers(chain, sid));
    CarriersHashes(chain, sid);
  }
}
