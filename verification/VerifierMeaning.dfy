/** Exactly what the verifier reports. */
module VerifierMeaning {
  import opened StoreTypes
  import opened ReleaseStore
  import opened Verification

  // ---- Heads ---------------------------------------------------------------

  ghost predicate HeadIssue(st: State, c: ChannelName, i: Issue) {
    match i
    case HeadMetadataMissing(d) => d == c && c !in st.heads
    case HeadUninitialized(d) => d == c && c in st.heads && st.heads[c] == NoHash
    case HeadDangling(d, head) =>
      d == c && c in st.heads && st.heads[c] == head && head != NoHash && head !in st.gens
    case ReflogMismatch(d, last, head) =>
      && d == c && c in st.heads && st.heads[c] == head && head != NoHash && last != head
      && c in st.reflogs && st.reflogs[c] != [] && st.reflogs[c][|st.reflogs[c]| - 1].to == last
    case _ => false
  }

  /** One issue for every registered channel without metadata, without a head,
      with a head that is not stored, or with a reflog that ends elsewhere, and
      nothing else. */
  lemma HeadIssuesAre(st: State, channels: seq<ChannelName>, i: Issue)
    ensures i in HeadIssues(st, channels) <==> exists c :: c in channels && HeadIssue(st, c, i)
  {
    forall c
      ensures i in ChannelHeadIssues(st, c) <==> HeadIssue(st, c, i)
    {
    }
    if c :| c in channels && HeadIssue(st, c, i) {
      assert i in ChannelHeadIssues(st, c);
    }
  }

  // ---- Histories against resources -----------------------------------------

  ghost predicate HistoryIssue(st: State, h: Hash, i: Issue)
    requires h in st.gens && h in st.histories
  {
    var resources, history := st.gens[h].resources, st.histories[h];
    match i
    case MissingFromHistory(g, sid) =>
      && g == h && (exists e :: e in resources && e.serverId == sid)
      && forall e :: e in history ==> e.serverId != sid
    case NewestDiffers(g, sid, newest, listed) =>
      && g == h && ResourceOf(resources, sid) == Some(listed) && newest != listed
      && exists e :: e in history && e.serverId == sid && e.snapshots != [] && e.snapshots[0].snapshotHash == newest
    case _ => false
  }

  lemma GenerationIssuesAre(st: State, h: Hash, i: Issue)
    requires h in st.gens && h in st.histories
    ensures i in GenerationHistoryIssues(h, st.gens[h].resources, st.histories[h]) <==> HistoryIssue(st, h, i)
  {
    var resources, history := st.gens[h].resources, st.histories[h];
    if HistoryIssue(st, h, i) && i.NewestDiffers? {
      var e :| e in history && e.serverId == i.server && e.snapshots != [] && e.snapshots[0].snapshotHash == i.newest;
      assert i in EntryIssues(h, resources, e);
    }
    if i in NewestIssues(h, resources, history) {
      var e :| e in history && i in EntryIssues(h, resources, e);
    }
  }

  /** One issue for every listed server that a stored history omits, and for
      every entry whose newest snapshot is not the listed one, and nothing else. */
  lemma HistoryIssuesAre(st: State, i: Issue)
    ensures i in HistoryIssues(st, st.gens.Keys) <==>
            exists h :: h in st.gens && h in st.histories && HistoryIssue(st, h, i)
  {
    if h :| h in st.gens && h in st.histories && HistoryIssue(st, h, i) {
      GenerationIssuesAre(st, h, i);
    }
    if i in HistoryIssues(st, st.gens.Keys) {
      var h :| h in st.gens && h in st.histories
               && i in GenerationHistoryIssues(h, st.gens[h].resources, st.histories[h]);
      GenerationIssuesAre(st, h, i);
    }
  }

  // ---- Reachability --------------------------------------------------------

  ghost predicate ReachIssue(st: State, c: ChannelName, i: Issue) {
    match i
    case HeadMetadataMissing(d) => d == c && c !in st.heads
    case HeadHistoryMissing(d, head) =>
      d == c && c in st.heads && st.heads[c] == head && head != NoHash && head !in st.histories
    case SnapshotLost(d, sid, snap) =>
      && d == c && c in st.heads && st.heads[c] != NoHash && st.heads[c] in st.histories && snap !in st.resourceSnaps
      && exists e, s :: e in st.histories[st.heads[c]] && e.serverId == sid && s in e.snapshots
           && s.snapshotHash == snap
    case _ => false
  }

  lemma LostAre(st: State, c: ChannelName, i: Issue)
    requires c in st.heads && st.heads[c] != NoHash && st.heads[c] in st.histories
    ensures i in LostIn(st, c, st.histories[st.heads[c]]) <==> i.SnapshotLost? && ReachIssue(st, c, i)
  {
    var history := st.histories[st.heads[c]];
    if i.SnapshotLost? && ReachIssue(st, c, i) {
      var e, s :| e in history && e.serverId == i.server && s in e.snapshots && s.snapshotHash == i.snapshot;
      assert i in LostOf(st, c, e);
    }
    if i in LostIn(st, c, history) {
      var e :| e in history && i in LostOf(st, c, e);
    }
  }

  /** One issue for every registered channel without metadata, for every head
      without a history, and for every snapshot that a head's history records
      and the store has lost, and nothing else. */
  lemma ReachIssuesAre(st: State, channels: seq<ChannelName>, i: Issue)
    ensures i in ReachIssues(st, channels) <==> exists c :: c in channels && ReachIssue(st, c, i)
  {
    forall c
      ensures i in ChannelReachIssues(st, c) <==> ReachIssue(st, c, i)
    {
      if c in st.heads && st.heads[c] != NoHash && st.heads[c] in st.histories {
        LostAre(st, c, i);
      }
    }
    if c :| c in channels && ReachIssue(st, c, i) {
      assert i in ChannelReachIssues(st, c);
    }
  }

  // ---- Errors and warnings -------------------------------------------------

  /** The reachability check has an error exactly when a registered channel has
      no metadata, or a head's history records a snapshot that is not stored. */
  lemma ReachErrorsMean(st: State)
    ensures (forall i :: i in ReachIssues(st, st.channels) ==> !IsError(i))
            <==>
            forall c :: c in st.channels ==>
              && c in st.heads
              && (st.heads[c] != NoHash && st.heads[c] in st.histories ==>
                    forall e, s :: e in st.histories[st.heads[c]] && s in e.snapshots ==>
                      s.snapshotHash in st.resourceSnaps)
  {
    forall i
      ensures i in ReachIssues(st, st.channels) <==> exists c :: c in st.channels && ReachIssue(st, c, i)
    {
      ReachIssuesAre(st, st.channels, i);
    }
    forall c | c in st.channels && c !in st.heads
      ensures HeadMetadataMissing(c) in ReachIssues(st, st.channels)
    {
      assert ReachIssue(st, c, HeadMetadataMissing(c));
    }
    forall c, e, s | c in st.channels && c in st.heads && st.heads[c] != NoHash && st.heads[c] in st.histories
                     && e in st.histories[st.heads[c]] && s in e.snapshots && s.snapshotHash !in st.resourceSnaps
      ensures SnapshotLost(c, e.serverId, s.snapshotHash) in ReachIssues(st, st.channels)
    {
      assert ReachIssue(st, c, SnapshotLost(c, e.serverId, s.snapshotHash));
    }
  }

  /** Disagreements between histories and resources are warnings. */
  lemma HistoryIssuesWarn(st: State)
    ensures forall i :: i in HistoryIssues(st, st.gens.Keys) ==> !IsError(i)
  {
  }
}
