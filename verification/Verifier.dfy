/** The integrity checks over heads, histories and recorded snapshots. */
module Verification {
  import opened StoreTypes
  import opened History
  import opened ReleaseStore

  datatype Issue =
    | HeadMetadataMissing(channel: ChannelName)
    | HeadUninitialized(channel: ChannelName)
    | HeadDangling(channel: ChannelName, head: Hash)
    | ReflogMismatch(channel: ChannelName, last: Hash, head: Hash)
    | MissingFromHistory(generation: Hash, server: ServerId)
    | NewestDiffers(generation: Hash, server: ServerId, newest: Hash, listed: Hash)
    | HeadHistoryMissing(channel: ChannelName, head: Hash)
    | SnapshotLost(channel: ChannelName, server: ServerId, snapshot: Hash)

  predicate IsError(i: Issue) {
    i.HeadMetadataMissing? || i.HeadDangling? || i.ReflogMismatch? || i.SnapshotLost?
  }

  // ---- Head integrity ------------------------------------------------------

  function ReflogIssues(c: ChannelName, log: seq<ReflogEntry>, head: Hash): set<Issue> {
    if log != [] && log[|log| - 1].to != head then {ReflogMismatch(c, log[|log| - 1].to, head)} else {}
  }

  function ChannelHeadIssues(st: State, c: ChannelName): set<Issue> {
    if c !in st.heads then {HeadMetadataMissing(c)}
    else if st.heads[c] == NoHash then {HeadUninitialized(c)}
    else
      (if st.heads[c] !in st.gens then {HeadDangling(c, st.heads[c])} else {})
      + ReflogIssues(c, ReflogOf(st, c), st.heads[c])
  }

  function HeadIssues(st: State, channels: seq<ChannelName>): set<Issue> {
    set c, i | c in channels && i in ChannelHeadIssues(st, c) :: i
  }

  method VerifyHeadIntegrity(store: Store) returns (issues: set<Issue>)
    ensures issues == HeadIssues(store.View(), store.channels)
  {
    issues := {};
    var channels := store.channels;
    for n := 0 to |channels|
      invariant issues == HeadIssues(store.View(), channels[..n])
    {
      assert channels[..n + 1] == channels[..n] + [channels[n]];
      var found := VerifyChannelHead(store, channels[n]);
      issues := issues + found;
    }
    assert channels[..|channels|] == channels;
  }

  method VerifyChannelHead(store: Store, c: ChannelName) returns (issues: set<Issue>)
    ensures issues == ChannelHeadIssues(store.View(), c)
  {
    issues := {};
    if c !in store.heads {
      return {HeadMetadataMissing(c)};
    }
    var head := store.heads[c];
    if head == NoHash {
      return {HeadUninitialized(c)};
    }
    if head !in store.gens {
      issues := issues + {HeadDangling(c, head)};
    }
    if c in store.reflogs {
      var log := store.reflogs[c];
      if log != [] && log[|log| - 1].to != head {
        issues := issues + {ReflogMismatch(c, log[|log| - 1].to, head)};
      }
    }
  }

  // ---- History consistency -------------------------------------------------

  function HistoryServers(history: ServerHistory): set<ServerId> {
    set e | e in history :: e.serverId
  }

  function EntryIssues(h: Hash, resources: seq<ResourceEntry>, e: ServerEntry): set<Issue> {
    if e.snapshots == [] then {}
    else
      match ResourceOf(resources, e.serverId)
      case None => {}
      case Some(listed) =>
        if e.snapshots[0].snapshotHash != listed
        then {NewestDiffers(h, e.serverId, e.snapshots[0].snapshotHash, listed)} else {}
  }

  function NewestIssues(h: Hash, resources: seq<ResourceEntry>, history: ServerHistory): set<Issue> {
    set e, i | e in history && i in EntryIssues(h, resources, e) :: i
  }

  function MissingIssues(h: Hash, servers: set<ServerId>): set<Issue> {
    set sid | sid in servers :: MissingFromHistory(h, sid)
  }

  function GenerationHistoryIssues(h: Hash, resources: seq<ResourceEntry>, history: ServerHistory): set<Issue> {
    MissingIssues(h, ServersOf(resources) - HistoryServers(history)) + NewestIssues(h, resources, history)
  }

  function HistoryIssues(st: State, gens: set<Hash>): set<Issue> {
    set h, i | h in gens && h in st.gens && h in st.histories
               && i in GenerationHistoryIssues(h, st.gens[h].resources, st.histories[h]) :: i
  }

  method VerifyHistoryConsistency(store: Store) returns (issues: set<Issue>)
    ensures issues == HistoryIssues(store.View(), store.gens.Keys)
  {
    issues := {};
    var left := store.gens.Keys;
    while left != {}
      invariant left <= store.gens.Keys
      invariant issues == HistoryIssues(store.View(), store.gens.Keys - left)
      decreases left
    {
      var h :| h in left;
      ghost var done := store.gens.Keys - left;
      left := left - {h};
      assert store.gens.Keys - left == done + {h};
      if h in store.histories {
        var found := VerifyGenerationHistory(h, store.gens[h].resources, store.histories[h]);
        issues := issues + found;
      }
    }
    assert store.gens.Keys - left == store.gens.Keys;
  }

  method VerifyGenerationHistory(h: Hash, resources: seq<ResourceEntry>, history: ServerHistory)
    returns (issues: set<Issue>)
    ensures issues == GenerationHistoryIssues(h, resources, history)
  {
    var missing := ServersOf(resources) - HistoryServers(history);
    issues := MissingIssues(h, missing);
    ghost var start := issues;
    for n := 0 to |history|
      invariant issues == start + NewestIssues(h, resources, history[..n])
    {
      assert history[..n + 1] == history[..n] + [history[n]];
      assert NewestIssues(h, resources, history[..n + 1])
          == NewestIssues(h, resources, history[..n]) + EntryIssues(h, resources, history[n]);
      var e := history[n];
      if e.snapshots == [] {
        continue;
      }
      var listed := ResourceOf(resources, e.serverId);
      if listed.Some? && e.snapshots[0].snapshotHash != listed.value {
        issues := issues + {NewestDiffers(h, e.serverId, e.snapshots[0].snapshotHash, listed.value)};
      }
    }
    assert history[..|history|] == history;
  }

  // ---- History reachability ------------------------------------------------

  function LostOf(st: State, c: ChannelName, e: ServerEntry): set<Issue> {
    set s | s in e.snapshots && s.snapshotHash !in st.resourceSnaps :: SnapshotLost(c, e.serverId, s.snapshotHash)
  }

  function LostIn(st: State, c: ChannelName, history: ServerHistory): set<Issue> {
    set e, i | e in history && i in LostOf(st, c, e) :: i
  }

  function ChannelReachIssues(st: State, c: ChannelName): set<Issue> {
    if c !in st.heads then {HeadMetadataMissing(c)}
    else if st.heads[c] == NoHash then {}
    else if st.heads[c] !in st.histories then {HeadHistoryMissing(c, st.heads[c])}
    else LostIn(st, c, st.histories[st.heads[c]])
  }

  function ReachIssues(st: State, channels: seq<ChannelName>): set<Issue> {
    set c, i | c in channels && i in ChannelReachIssues(st, c) :: i
  }

  method VerifyHistoryReachability(store: Store) returns (issues: set<Issue>)
    ensures issues == ReachIssues(store.View(), store.channels)
  {
    issues := {};
    var channels := store.channels;
    for n := 0 to |channels|
      invariant issues == ReachIssues(store.View(), channels[..n])
    {
      assert channels[..n + 1] == channels[..n] + [channels[n]];
      var found := VerifyChannelReach(store, channels[n]);
      issues := issues + found;
    }
    assert channels[..|channels|] == channels;
  }

  method VerifyChannelReach(store: Store, c: ChannelName) returns (issues: set<Issue>)
    ensures issues == ChannelReachIssues(store.View(), c)
  {
    if c !in store.heads {
      return {HeadMetadataMissing(c)};
    }
    if store.heads[c] == NoHash {
      return {};
    }
    if store.heads[c] !in store.histories {
      return {HeadHistoryMissing(c, store.heads[c])};
    }
    issues := FindLost(store, c, store.histories[store.heads[c]]);
  }

  method FindLost(store: Store, c: ChannelName, history: ServerHistory) returns (issues: set<Issue>)
    ensures issues == LostIn(store.View(), c, history)
  {
    issues := {};
    for n := 0 to |history|
      invariant issues == LostIn(store.View(), c, history[..n])
    {
      assert history[..n + 1] == history[..n] + [history[n]];
      var e := history[n];
      ghost var before := issues;
      for k := 0 to |e.snapshots|
        invariant issues == before + LostOf(store.View(), c, e.(snapshots := e.snapshots[..k]))
      {
        assert e.snapshots[..k + 1] == e.snapshots[..k] + [e.snapshots[k]];
        var snap := e.snapshots[k].snapshotHash;
        if snap !in store.resourceSnaps {
          issues := issues + {SnapshotLost(c, e.serverId, snap)};
        }
      }
      assert e.(snapshots := e.snapshots[..|e.snapshots|]) == e;
    }
    assert history[..|history|] == history;
  }
}
