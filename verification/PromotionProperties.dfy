/** What a promotion amounts to, and when a snapshot has soaked. */
module PromotionProperties {
  import opened StoreTypes
  import opened History
  import opened ReleaseStore
  import opened Promotion

  // ---- The overlay is a map override ---------------------------------------

  lemma {:induction false} ResourceOfConcat(a: seq<ResourceEntry>, b: seq<ResourceEntry>, sid: ServerId)
    ensures ResourceOf(a + b, sid) ==
            match ResourceOf(b, sid) { case Some(h) => Some(h) case None => ResourceOf(a, sid) }
  {
    if b == [] {
      assert a + b == a;
    } else {
      assert (a + b)[..|a + b| - 1] == a + b[..|b| - 1];
      ResourceOfConcat(a, b[..|b| - 1], sid);
    }
  }

  lemma {:induction false} ReplacedLookup(parent: seq<ResourceEntry>, admitted: seq<Candidate>, sid: ServerId)
    ensures ResourceOf(Replaced(parent, admitted), sid) ==
            if ResourceOf(parent, sid).None? then None
            else match CheckoutFor(admitted, sid) { case Some(h) => Some(h) case None => ResourceOf(parent, sid) }
  {
    if parent != [] {
      var before, all := Replaced(parent[..|parent| - 1], admitted), Replaced(parent, admitted);
      ReplacedLookup(parent[..|parent| - 1], admitted, sid);
      assert all[..|all| - 1] == before;
    }
  }

  lemma {:induction false} AppendedLookup(admitted: seq<Candidate>, seen: set<ServerId>, sid: ServerId)
    ensures ResourceOf(Appended(admitted, seen), sid) == if sid in seen then None else CheckoutFor(admitted, sid)
  {
    if admitted != [] {
      var before, all := Appended(admitted[..|admitted| - 1], seen), Appended(admitted, seen);
      AppendedLookup(admitted[..|admitted| - 1], seen, sid);
      if admitted[|admitted| - 1].server in seen {
        assert all == before;
      } else {
        assert all[..|all| - 1] == before;
      }
    }
  }

  /** The promoted resources are the parent's, overridden by the admitted pairs. */
  lemma OverlayIsOverride(parent: seq<ResourceEntry>, admitted: seq<Candidate>, sid: ServerId)
    ensures ResourceOf(OverlaidResources(parent, admitted), sid) ==
            match CheckoutFor(admitted, sid) { case Some(h) => Some(h) case None => ResourceOf(parent, sid) }
  {
    ResourceOfConcat(Replaced(parent, admitted), Appended(admitted, ServersOf(parent)), sid);
    ReplacedLookup(parent, admitted, sid);
    AppendedLookup(admitted, ServersOf(parent), sid);
    ListedIffResource(parent, sid);
  }

  lemma {:induction false} ReplacedServers(parent: seq<ResourceEntry>, admitted: seq<Candidate>)
    ensures |Replaced(parent, admitted)| == |parent|
    ensures forall i :: 0 <= i < |parent| ==> Replaced(parent, admitted)[i].serverId == parent[i].serverId
  {
    if parent != [] {
      ReplacedServers(parent[..|parent| - 1], admitted);
    }
  }

  lemma {:induction false} AppendedServers(admitted: seq<Candidate>, seen: set<ServerId>)
    requires DistinctCandidates(admitted)
    ensures DistinctServers(Appended(admitted, seen))
    ensures forall e :: e in Appended(admitted, seen) ==>
              e.serverId !in seen && exists c :: c in admitted && c.server == e.serverId
  {
    if admitted != [] {
      var prefix, c := admitted[..|admitted| - 1], admitted[|admitted| - 1];
      AppendedServers(prefix, seen);
      var before := Appended(prefix, seen);
      forall e | e in before
        ensures e.serverId != c.server && exists d :: d in admitted && d.server == e.serverId
      {
        var d :| d in prefix && d.server == e.serverId;
        assert d in admitted;
      }
      assert c in admitted;
    }
  }

  lemma OverlayDistinct(parent: seq<ResourceEntry>, admitted: seq<Candidate>)
    requires DistinctServers(parent) && DistinctCandidates(admitted)
    ensures DistinctServers(OverlaidResources(parent, admitted))
  {
    ReplacedServers(parent, admitted);
    AppendedServers(admitted, ServersOf(parent));
    var a, b := Replaced(parent, admitted), Appended(admitted, ServersOf(parent));
    var all := a + b;
    forall i, j | 0 <= i < j < |all|
      ensures all[i].serverId != all[j].serverId
    {
      if i < |a| <= j {
        assert all[j] in b;
        assert all[i].serverId == parent[i].serverId;
      }
    }
  }

  /** Where an overlaid entry comes from: the admitted pairs or the parent. */
  lemma OverlaySources(parent: seq<ResourceEntry>, admitted: seq<Candidate>, e: ResourceEntry)
    requires e in OverlaidResources(parent, admitted)
    ensures Candidate(e.serverId, e.snapshotHash) in admitted || e in parent
  {
    if e in Replaced(parent, admitted) {
      ReplacedSources(parent, admitted, e);
    } else {
      AppendedSources(admitted, ServersOf(parent), e);
    }
  }

  lemma {:induction false} CheckoutForMember(admitted: seq<Candidate>, sid: ServerId)
    ensures CheckoutFor(admitted, sid).Some? ==> Candidate(sid, CheckoutFor(admitted, sid).value) in admitted
  {
    if admitted != [] && admitted[|admitted| - 1].server != sid {
      CheckoutForMember(admitted[..|admitted| - 1], sid);
    }
  }

  lemma {:induction false} ReplacedSources(parent: seq<ResourceEntry>, admitted: seq<Candidate>, e: ResourceEntry)
    requires e in Replaced(parent, admitted)
    ensures Candidate(e.serverId, e.snapshotHash) in admitted || e in parent
  {
    CheckoutForMember(admitted, e.serverId);
    if e in Replaced(parent[..|parent| - 1], admitted) {
      ReplacedSources(parent[..|parent| - 1], admitted, e);
    }
  }

  lemma {:induction false} AppendedSources(admitted: seq<Candidate>, seen: set<ServerId>, e: ResourceEntry)
    requires e in Appended(admitted, seen)
    ensures Candidate(e.serverId, e.snapshotHash) in admitted
  {
    if e in Appended(admitted[..|admitted| - 1], seen) {
      AppendedSources(admitted[..|admitted| - 1], seen, e);
    }
  }

  // ---- The overlaid server index -------------------------------------------

  lemma {:induction false} BuildByPosition(index: seq<ServerInfo>, sid: ServerId)
    ensures BuildAndVersion(index, sid) ==
            match LastIndexOf(index, sid) {
              case None => ("", "")
              case Some(i) => (index[i].gameBuild, index[i].gameVersion)
            }
  {
    if index != [] {
      BuildByPosition(index[..|index| - 1], sid);
    }
  }

  lemma {:induction false} LastIndexOfUpdate(index: seq<ServerInfo>, i: nat, info: ServerInfo, sid: ServerId)
    requires i < |index| && info.serverId == index[i].serverId
    ensures LastIndexOf(index[i := info], sid) == LastIndexOf(index, sid)
  {
    var updated := index[i := info];
    if i < |index| - 1 {
      assert updated[..|index| - 1] == index[..|index| - 1][i := info];
      LastIndexOfUpdate(index[..|index| - 1], i, info, sid);
    } else {
      assert updated[..|index| - 1] == index[..|index| - 1];
    }
  }

  lemma LastIndexOfAppend(index: seq<ServerInfo>, info: ServerInfo, sid: ServerId)
    ensures LastIndexOf(index + [info], sid) == if info.serverId == sid then Some(|index|) else LastIndexOf(index, sid)
  {
    assert (index + [info])[..|index|] == index;
  }

  /** How the overlay moves entries: parent entries keep their place. */
  lemma {:induction false} OverlaidPositions(
    snaps: map<Hash, ResourceSnapshot>, parent: seq<ServerInfo>, admitted: seq<Candidate>, sid: ServerId)
    requires forall c :: c in admitted ==> c.checkout in snaps && snaps[c.checkout].meta.serverId == c.server
    ensures var index := OverlaidIndex(snaps, parent, admitted);
            && (LastIndexOf(parent, sid).Some? ==> LastIndexOf(index, sid) == LastIndexOf(parent, sid))
            && (LastIndexOf(parent, sid).None? && CheckoutFor(admitted, sid).None? ==> LastIndexOf(index, sid).None?)
  {
    if admitted != [] {
      var prefix, c := admitted[..|admitted| - 1], admitted[|admitted| - 1];
      var before, info := OverlaidIndex(snaps, parent, prefix), InfoOf(snaps[c.checkout].meta);
      OverlaidPositions(snaps, parent, prefix, sid);
      OverlaidPositions(snaps, parent, prefix, c.server);
      match LastIndexOf(parent, c.server) {
        case Some(i) => LastIndexOfUpdate(before, i, info, sid);
        case None => LastIndexOfAppend(before, info, sid);
      }
    }
  }

  /** The overlaid index describes an admitted server by the admitted snapshot
      and every other server as the parent does. */
  lemma {:induction false} OverlaidIndexLookup(
    snaps: map<Hash, ResourceSnapshot>, parent: seq<ServerInfo>, admitted: seq<Candidate>, sid: ServerId)
    requires forall c :: c in admitted ==> c.checkout in snaps && snaps[c.checkout].meta.serverId == c.server
    ensures match CheckoutFor(admitted, sid) {
              case Some(h) =>
                && h in snaps
                && BuildAndVersion(OverlaidIndex(snaps, parent, admitted), sid) ==
                   (snaps[h].meta.gameBuild, snaps[h].meta.gameVersion)
              case None =>
                BuildAndVersion(OverlaidIndex(snaps, parent, admitted), sid) == BuildAndVersion(parent, sid)
            }
  {
    if admitted != [] {
      var prefix, c := admitted[..|admitted| - 1], admitted[|admitted| - 1];
      var before, info := OverlaidIndex(snaps, parent, prefix), InfoOf(snaps[c.checkout].meta);
      OverlaidIndexLookup(snaps, parent, prefix, sid);
      OverlaidPositions(snaps, parent, prefix, c.server);
      BuildByPosition(before, sid);
      match LastIndexOf(parent, c.server) {
        case Some(i) =>
          LastIndexOfUpdate(before, i, info, sid);
          LastIndexOfUpdate(before, i, info, c.server);
          BuildByPosition(before[i := info], sid);
        case None =>
          LastIndexOfAppend(before, info, sid);
          BuildByPosition(before + [info], sid);
      }
    }
  }

  /** The entry says of its server what the snapshot's metadata say; without
      display names the server's id stands for the English one. */
  ghost predicate DescribedBy(info: ServerInfo, meta: SnapshotMetadata) {
    && info.serverId == meta.serverId && info.gameBuild == meta.gameBuild && info.gameVersion == meta.gameVersion
    && info.region == meta.region && info.sync == meta.sync && info.branch == meta.branch
    && info.name == if meta.name == map[] then map["en" := meta.serverId] else meta.name
  }

  lemma {:induction false} LastIndexIsLast(index: seq<ServerInfo>, sid: ServerId)
    ensures forall i: nat :: LastFor(index, sid, i) <==> LastIndexOf(index, sid) == Some(i)
    ensures LastIndexOf(index, sid).None? <==> forall i :: 0 <= i < |index| ==> index[i].serverId != sid
  {
    if index != [] {
      var earlier := index[..|index| - 1];
      LastIndexIsLast(earlier, sid);
      forall i: nat
        ensures LastFor(index, sid, i) <==> LastIndexOf(index, sid) == Some(i)
      {
        if index[|index| - 1].serverId != sid {
          assert LastFor(index, sid, i) <==> LastFor(earlier, sid, i);
        }
      }
    }
  }

  /** An admitted server's last entry is rebuilt from its snapshot; any other
      server's is the parent's, if there is one. */
  lemma {:induction false} OverlaidLast(
    snaps: map<Hash, ResourceSnapshot>, parent: seq<ServerInfo>, admitted: seq<Candidate>, sid: ServerId)
    requires forall c :: c in admitted ==> c.checkout in snaps && snaps[c.checkout].meta.serverId == c.server
    ensures var index := OverlaidIndex(snaps, parent, admitted);
            match CheckoutFor(admitted, sid) {
              case Some(h) =>
                && h in snaps && LastIndexOf(index, sid).Some?
                && DescribedBy(index[LastIndexOf(index, sid).value], snaps[h].meta)
              case None =>
                && (LastIndexOf(index, sid).Some? <==> LastIndexOf(parent, sid).Some?)
                && (LastIndexOf(parent, sid).Some? ==>
                      index[LastIndexOf(index, sid).value] == parent[LastIndexOf(parent, sid).value])
            }
  {
    if admitted != [] {
      var prefix, c := admitted[..|admitted| - 1], admitted[|admitted| - 1];
      var before, info := OverlaidIndex(snaps, parent, prefix), InfoOf(snaps[c.checkout].meta);
      OverlaidLast(snaps, parent, prefix, sid);
      OverlaidPositions(snaps, parent, prefix, c.server);
      match LastIndexOf(parent, c.server) {
        case Some(i) =>
          LastIndexOfUpdate(before, i, info, sid);
          LastIndexOfUpdate(before, i, info, c.server);
        case None =>
          LastIndexOfAppend(before, info, sid);
      }
    }
  }

  /** Parent entries keep their place: the last one of an admitted server is
      rebuilt, every other one stays as it is. */
  lemma {:induction false} OverlaidPlaces(
    snaps: map<Hash, ResourceSnapshot>, parent: seq<ServerInfo>, admitted: seq<Candidate>, i: nat)
    requires DistinctCandidates(admitted) && i < |parent|
    requires forall c :: c in admitted ==> c.checkout in snaps
    ensures var index := OverlaidIndex(snaps, parent, admitted);
            && (forall c :: c in admitted && LastFor(parent, c.server, i) ==>
                  DescribedBy(index[i], snaps[c.checkout].meta))
            && ((forall c :: c in admitted ==> !LastFor(parent, c.server, i)) ==> index[i] == parent[i])
  {
    if admitted != [] {
      var prefix, c := admitted[..|admitted| - 1], admitted[|admitted| - 1];
      assert admitted == prefix + [c];
      OverlaidPlaces(snaps, parent, prefix, i);
      LastIndexIsLast(parent, c.server);
    }
  }

  // ---- Which candidates are admitted ---------------------------------------

  lemma {:induction false} SelectIsFilter(
    cs: seq<Candidate>, kind: Kind, current: seq<ResourceEntry>, suppressed: seq<Suppression>, respect: bool)
    ensures forall c :: c in Select(cs, kind, current, suppressed, respect) <==>
              c in cs && KindOf(c, current, suppressed, respect) == kind
    ensures DistinctCandidates(cs) ==> DistinctCandidates(Select(cs, kind, current, suppressed, respect))
  {
    if cs != [] {
      var prefix, c := cs[..|cs| - 1], cs[|cs| - 1];
      SelectIsFilter(prefix, kind, current, suppressed, respect);
      assert cs == prefix + [c];
      if DistinctCandidates(cs) {
        var before := Select(prefix, kind, current, suppressed, respect);
        forall i | 0 <= i < |before|
          ensures before[i].server != c.server
        {
          assert before[i] in prefix;
        }
      }
    }
  }

  lemma {:induction false} CheckoutForDistinct(cs: seq<Candidate>, c: Candidate)
    requires DistinctCandidates(cs) && c in cs
    ensures CheckoutFor(cs, c.server) == Some(c.checkout)
  {
    if c != cs[|cs| - 1] {
      assert cs == cs[..|cs| - 1] + [cs[|cs| - 1]];
      assert c in cs[..|cs| - 1];
      CheckoutForDistinct(cs[..|cs| - 1], c);
    }
  }

  /** A suppressed pair is admitted only when suppressions are not respected;
      every known, current-changing, unsuppressed candidate is admitted. */
  lemma AdmittedExactly(st: State, rq: Request, c: Candidate)
    ensures c in AdmittedBy(st, rq) <==>
            && c in rq.candidates
            && ResourceOf(ParentResources(st, rq.target), c.server) != Some(c.checkout)
            && (rq.respectSuppressions ==> Suppression(c.server, c.checkout) !in SuppressionsOf(st, rq.target))
  {
    SelectIsFilter(rq.candidates, Admitted, ParentResources(st, rq.target), SuppressionsOf(st, rq.target),
                   rq.respectSuppressions);
  }

  /** A promotion that happens: the new head, and what it says of each server. */
  lemma PromotionOverrides(st: State, rq: Request, h: Hash, now: string, subject: string, sid: ServerId)
    requires Refusal(st, rq) == None && AdmittedBy(st, rq) != []
    requires h != NoHash && h !in st.gens
    ensures var st' := Promoted(st, rq, h, now, subject);
            && HeadOf(st', rq.target) == h
            && rq.target in st'.channels
            && ResourceOf(ParentResources(st', rq.target), sid) ==
               (match CheckoutFor(AdmittedBy(st, rq), sid)
                case Some(c) => Some(c)
                case None => ResourceOf(ParentResources(st, rq.target), sid))
            && st'.gens[h].release ==
               (if HeadOf(st, rq.target) in st.gens then st.gens[HeadOf(st, rq.target)].release else NoHash)
            && st'.gens[h].meta == GenerationMetadata(HeadOf(st, rq.target), rq.target, now, subject)
  {
    CreatedAndPushedShape(st, PromotedGeneration(st, rq, h, now, subject), rq.target, now, rq.source, h);
    OverlayIsOverride(ParentResources(st, rq.target), AdmittedBy(st, rq), sid);
  }

  /** The admitted snapshots are of the servers they are admitted for. */
  ghost predicate OwnSnapshots(st: State, admitted: seq<Candidate>) {
    forall c :: c in admitted && c.checkout in st.resourceSnaps ==>
      st.resourceSnaps[c.checkout].meta.serverId == c.server
  }

  function IndexOfHead(st: State, c: ChannelName): seq<ServerInfo> {
    if HeadOf(st, c) in st.gens then st.gens[HeadOf(st, c)].serverIndex else []
  }

  /** The server index that a promotion creates: the last entry of an admitted
      server is what its snapshot's metadata say, that of every other server is
      the parent's, and a server that neither has is not in it. */
  lemma PromotedIndex(st: State, rq: Request, h: Hash, now: string, subject: string, sid: ServerId)
    requires WellKeyed(st) && Refusal(st, rq) == None && AdmittedBy(st, rq) != [] && h !in st.gens
    requires DistinctCandidates(rq.candidates) && OwnSnapshots(st, AdmittedBy(st, rq))
    ensures h in Promoted(st, rq, h, now, subject).gens
    ensures var index, parent := Promoted(st, rq, h, now, subject).gens[h].serverIndex, IndexOfHead(st, rq.target);
            && (forall c :: c in AdmittedBy(st, rq) && c.server == sid ==>
                  && c.checkout in st.resourceSnaps
                  && exists i: nat :: LastFor(index, sid, i)
                       && DescribedBy(index[i], st.resourceSnaps[c.checkout].meta))
            && ((forall c :: c in AdmittedBy(st, rq) ==> c.server != sid) ==>
                  && (forall j: nat :: LastFor(parent, sid, j) ==>
                        exists i: nat :: LastFor(index, sid, i) && index[i] == parent[j])
                  && ((forall j :: 0 <= j < |parent| ==> parent[j].serverId != sid) ==>
                        forall i :: 0 <= i < |index| ==> index[i].serverId != sid))
  {
    var admitted, parent := AdmittedBy(st, rq), IndexOfHead(st, rq.target);
    CreatedAndPushedShape(st, PromotedGeneration(st, rq, h, now, subject), rq.target, now, rq.source, h);
    AdmittedAreStored(st, rq);
    AdmittedDistinct(st, rq);
    var index := OverlaidIndex(st.resourceSnaps, parent, admitted);
    assert Promoted(st, rq, h, now, subject).gens[h].serverIndex == index;
    OverlaidLast(st.resourceSnaps, parent, admitted, sid);
    LastIndexIsLast(index, sid);
    LastIndexIsLast(parent, sid);
    CheckoutForMember(admitted, sid);
    forall c | c in admitted && c.server == sid
      ensures CheckoutFor(admitted, sid) == Some(c.checkout)
    {
      CheckoutForDistinct(admitted, c);
    }
  }

  lemma AdmittedAreStored(st: State, rq: Request)
    requires Refusal(st, rq) == None
    ensures forall c :: c in AdmittedBy(st, rq) ==> c.checkout in st.resourceSnaps
  {
    assert forall c :: c in AdmittedBy(st, rq) ==> c !in MissingSnapshots(st, AdmittedBy(st, rq));
  }

  /** The source generation vouches for the pair: its resources list it, or
      its history records it. */
  ghost predicate Vouched(st: State, source: Hash, c: Candidate) {
    && source in st.gens
    && (ResourceEntry(c.server, c.checkout) in st.gens[source].resources
        || (source in st.histories
            && exists e, x :: e in st.histories[source] && e.serverId == c.server
                              && x in e.snapshots && x.snapshotHash == c.checkout))
  }

  lemma ValidIsVouched(st: State, source: Hash, c: Candidate)
    requires source in st.gens
    ensures c in ValidPairs(st, source) <==> Vouched(st, source, c)
  {
    if source in st.histories {
      var history := st.histories[source];
      if e, x :| e in history && e.serverId == c.server && x in e.snapshots && x.snapshotHash == c.checkout {
        assert c in EntryPairs(e);
      }
    }
  }

  /** A promotion is refused unless the source's head is stored and vouches for
      every candidate, the target's head is stored, or missing and allowed to
      be, and every admitted snapshot is stored. */
  lemma RefusedUnless(st: State, rq: Request)
    requires WellKeyed(st)
    ensures Refusal(st, rq).None? <==>
            && HeadOf(st, rq.source) in st.gens
            && (forall c :: c in rq.candidates ==> Vouched(st, HeadOf(st, rq.source), c))
            && (HeadOf(st, rq.target) in st.gens || (HeadOf(st, rq.target) == NoHash && rq.allowMissingHead))
            && forall c :: c in AdmittedBy(st, rq) ==> c.checkout in st.resourceSnaps
    ensures match Refusal(st, rq) {
              case Some(UnknownCandidates(pairs)) =>
                forall c :: c in pairs <==> c in rq.candidates && !Vouched(st, HeadOf(st, rq.source), c)
              case _ => true
            }
  {
    NoneMissing(st, AdmittedBy(st, rq));
    if HeadOf(st, rq.source) in st.gens {
      UnknownMeans(st, rq, HeadOf(st, rq.source));
    }
  }

  lemma UnknownMeans(st: State, rq: Request, s: Hash)
    requires s in st.gens
    ensures var unknown := set c | c in rq.candidates && c !in ValidPairs(st, s);
            && (forall c :: c in unknown <==> c in rq.candidates && !Vouched(st, s, c))
            && (unknown == {} <==> forall c :: c in rq.candidates ==> Vouched(st, s, c))
  {
    var unknown := set c | c in rq.candidates && c !in ValidPairs(st, s);
    forall c
      ensures c in ValidPairs(st, s) <==> Vouched(st, s, c)
    {
      ValidIsVouched(st, s, c);
    }
    if c :| c in rq.candidates && !Vouched(st, s, c) {
      assert c in unknown;
    }
    if unknown != {} {
      var c :| c in unknown;
    }
  }

  lemma NoneMissing(st: State, admitted: seq<Candidate>)
    ensures MissingSnapshots(st, admitted) == {} <==> forall c :: c in admitted ==> c.checkout in st.resourceSnaps
  {
    if c :| c in admitted && c.checkout !in st.resourceSnaps {
      assert c in MissingSnapshots(st, admitted);
    }
    if MissingSnapshots(st, admitted) != {} {
      var c :| c in MissingSnapshots(st, admitted);
    }
  }

  /** Why a promotion is refused: the first of these that holds. */
  lemma RefusalMeans(st: State, rq: Request)
    requires WellKeyed(st)
    ensures var s, t := HeadOf(st, rq.source), HeadOf(st, rq.target);
            var known := forall c :: c in rq.candidates ==> Vouched(st, s, c);
            var missing := exists c :: c in AdmittedBy(st, rq) && c.checkout !in st.resourceSnaps;
            && (Refusal(st, rq) == Some(NoSourceHead) <==> s == NoHash)
            && (Refusal(st, rq) == Some(SourceGenerationMissing) <==> s != NoHash && s !in st.gens)
            && ((Refusal(st, rq).Some? && Refusal(st, rq).value.UnknownCandidates?) <==> s in st.gens && !known)
            && (Refusal(st, rq) == Some(TargetGenerationMissing) <==>
                  s in st.gens && known && t != NoHash && t !in st.gens)
            && (Refusal(st, rq) == Some(NoTargetHead) <==>
                  s in st.gens && known && t == NoHash && !rq.allowMissingHead)
            && (Refusal(st, rq) == Some(SnapshotMissing) <==>
                  && s in st.gens && known && (t in st.gens || (t == NoHash && rq.allowMissingHead))
                  && missing)
  {
    NoneMissing(st, AdmittedBy(st, rq));
    if HeadOf(st, rq.source) in st.gens {
      UnknownMeans(st, rq, HeadOf(st, rq.source));
    }
  }

  /** The one list has its elements in the order of the other. */
  ghost predicate SameOrder(part: seq<Candidate>, whole: seq<Candidate>) {
    forall i, j, a, b ::
      0 <= i < j < |part| && 0 <= a < |whole| && 0 <= b < |whole| && part[i] == whole[a] && part[j] == whole[b] ==>
          a < b
  }

  lemma {:induction false} SelectKeepsOrder(
    cs: seq<Candidate>, kind: Kind, current: seq<ResourceEntry>, suppressed: seq<Suppression>, respect: bool)
    requires DistinctCandidates(cs)
    ensures SameOrder(Select(cs, kind, current, suppressed, respect), cs)
  {
    if cs != [] {
      var n := |cs| - 1;
      var earlier := Select(cs[..n], kind, current, suppressed, respect);
      SelectKeepsOrder(cs[..n], kind, current, suppressed, respect);
      SelectIsFilter(cs[..n], kind, current, suppressed, respect);
      forall i | 0 <= i < |earlier|
        ensures earlier[i] != cs[n]
      {
        assert earlier[i] in earlier && earlier[i] in cs[..n];
        var a :| 0 <= a < n && cs[..n][a] == earlier[i];
      }
      OneMoreInOrder(cs, earlier, n);
    }
  }

  lemma OneMoreInOrder(cs: seq<Candidate>, earlier: seq<Candidate>, n: nat)
    requires DistinctCandidates(cs) && n == |cs| - 1 && SameOrder(earlier, cs[..n])
    requires forall i :: 0 <= i < |earlier| ==> earlier[i] != cs[n]
    ensures SameOrder(earlier, cs) && SameOrder(earlier + [cs[n]], cs)
  {
    forall i, j, a, b |
      0 <= i < j < |earlier| && 0 <= a < |cs| && 0 <= b < |cs| && earlier[i] == cs[a] && earlier[j] == cs[b]
      ensures a < b
    {
      assert a < n && b < n && cs[..n][a] == earlier[i] && cs[..n][b] == earlier[j];
    }
  }

  /** The reported pairs come in the order in which they were given. */
  lemma ReportKeepsOrder(st: State, rq: Request, h: Hash)
    requires DistinctCandidates(rq.candidates)
    ensures var r := ResultOf(st, rq, h);
            && SameOrder(r.admitted, rq.candidates) && SameOrder(r.skippedIdempotent, rq.candidates)
            && SameOrder(r.skippedSuppressed, rq.candidates)
  {
    var current, suppressed := ParentResources(st, rq.target), SuppressionsOf(st, rq.target);
    SelectKeepsOrder(rq.candidates, Idempotent, current, suppressed, rq.respectSuppressions);
    SelectKeepsOrder(rq.candidates, Vetoed, current, suppressed, rq.respectSuppressions);
    SelectKeepsOrder(rq.candidates, Admitted, current, suppressed, rq.respectSuppressions);
  }

  /** What a promotion reports: the candidates the target already has, those
      vetoed, and the rest. */
  lemma ReportSorts(st: State, rq: Request, h: Hash, c: Candidate)
    ensures var r := ResultOf(st, rq, h);
            var has := ResourceOf(ParentResources(st, rq.target), c.server) == Some(c.checkout);
            var vetoed := rq.respectSuppressions
                          && Suppression(c.server, c.checkout) in SuppressionsOf(st, rq.target);
            && r.generation == h && r.admitted == AdmittedBy(st, rq)
            && (c in r.skippedIdempotent <==> c in rq.candidates && has)
            && (c in r.skippedSuppressed <==> c in rq.candidates && !has && vetoed)
            && (c in r.admitted <==> c in rq.candidates && !has && !vetoed)
  {
    var current, suppressed := ParentResources(st, rq.target), SuppressionsOf(st, rq.target);
    SelectIsFilter(rq.candidates, Idempotent, current, suppressed, rq.respectSuppressions);
    SelectIsFilter(rq.candidates, Vetoed, current, suppressed, rq.respectSuppressions);
    SelectIsFilter(rq.candidates, Admitted, current, suppressed, rq.respectSuppressions);
  }

  /** After a promotion happened, nothing is left to admit. */
  lemma NothingLeft(st: State, rq: Request, h: Hash, now: string, subject: string)
    requires Refusal(st, rq) == None && AdmittedBy(st, rq) != []
    requires DistinctCandidates(rq.candidates)
    requires h != NoHash && h !in st.gens
    ensures AdmittedBy(Promoted(st, rq, h, now, subject), rq) == []
  {
    var st' := Promoted(st, rq, h, now, subject);
    var admitted := AdmittedBy(st, rq);
    assert SuppressionsOf(st', rq.target) == SuppressionsOf(st, rq.target);
    AdmittedDistinct(st, rq);
    forall c | c in rq.candidates
      ensures c !in AdmittedBy(st', rq)
    {
      AdmittedExactly(st, rq, c);
      AdmittedExactly(st', rq, c);
      PromotionOverrides(st, rq, h, now, subject, c.server);
      if c in admitted {
        CheckoutForDistinct(admitted, c);
      } else {
        CheckoutForMember(admitted, c.server);
        NoOtherCandidate(st, rq, c);
      }
    }
    NothingAdmitted(st', rq);
  }

  /** A promotion leaves every other generation, history and head alone. */
  lemma PromotedFrame(st: State, rq: Request, h: Hash, now: string, subject: string, other: Hash)
    requires Refusal(st, rq) == None && AdmittedBy(st, rq) != []
    requires h !in st.gens && other in st.gens && rq.source != rq.target
    ensures var st' := Promoted(st, rq, h, now, subject);
            && other in st'.gens && st'.gens[other] == st.gens[other]
            && (other in st'.histories <==> other in st.histories)
            && (other in st.histories ==> st'.histories[other] == st.histories[other])
            && HeadOf(st', rq.source) == HeadOf(st, rq.source)
            && HeadOf(st', rq.target) == h && h in st'.gens
            && st'.resourceSnaps == st.resourceSnaps && st'.suppressions == st.suppressions
  {
    CreatedAndPushedShape(st, PromotedGeneration(st, rq, h, now, subject), rq.target, now, rq.source, other);
  }

  /** Repeating a promotion changes nothing, whether or not the first one did. */
  lemma PromoteTwice(
    st: State, rq: Request, h: Hash, now: string, subject: string, h': Hash, now': string, subject': string)
    requires WellKeyed(st) && Refusal(st, rq) == None
    requires DistinctCandidates(rq.candidates) && rq.source != rq.target
    requires h != NoHash && h !in st.gens
    ensures var st' := Promoted(st, rq, h, now, subject);
            && Refusal(st', rq) == None
            && AdmittedBy(st', rq) == []
            && Promoted(st', rq, h', now', subject') == st'
  {
    if AdmittedBy(st, rq) != [] {
      NothingLeft(st, rq, h, now, subject);
      PromotedFrame(st, rq, h, now, subject, HeadOf(st, rq.source));
    }
  }

  lemma AdmittedDistinct(st: State, rq: Request)
    requires DistinctCandidates(rq.candidates)
    ensures DistinctCandidates(AdmittedBy(st, rq))
  {
    SelectIsFilter(rq.candidates, Admitted, ParentResources(st, rq.target), SuppressionsOf(st, rq.target),
                   rq.respectSuppressions);
  }

  /** A candidate that is not admitted shares its server with no admitted one. */
  lemma NoOtherCandidate(st: State, rq: Request, c: Candidate)
    requires DistinctCandidates(rq.candidates) && c in rq.candidates && c !in AdmittedBy(st, rq)
    ensures forall d :: d in AdmittedBy(st, rq) ==> d.server != c.server
  {
    forall d | d in AdmittedBy(st, rq)
      ensures d.server != c.server
    {
      AdmittedExactly(st, rq, d);
      var i :| 0 <= i < |rq.candidates| && rq.candidates[i] == c;
      var j :| 0 <= j < |rq.candidates| && rq.candidates[j] == d;
    }
  }

  lemma NothingAdmitted(st: State, rq: Request)
    requires forall c :: c in rq.candidates ==> c !in AdmittedBy(st, rq)
    ensures AdmittedBy(st, rq) == []
  {
    if AdmittedBy(st, rq) != [] {
      AdmittedExactly(st, rq, AdmittedBy(st, rq)[0]);
    }
  }

  // ---- Soaking -------------------------------------------------------------

  /** A server's history entry is the head snapshot and old enough. */
  predicate Passes(e: ServerEntry, resources: seq<ResourceEntry>, parse: string -> Option<int>, cutoff: int) {
    match ResourceOf(resources, e.serverId)
    case None => false
    case Some(h) =>
      && h != NoHash && e.snapshots != [] && e.snapshots[0].snapshotHash == h
      && match parse(e.snapshots[0].timestamp) { case None => false case Some(t) => t <= cutoff }
  }

  method ComputePromotionEligibility(
    history: ServerHistory, resources: seq<ResourceEntry>, parse: string -> Option<int>, now: int, soak: int)
    returns (eligible: map<ServerId, Hash>)
    ensures forall sid :: sid in eligible <==>
              exists e :: e in history && e.serverId == sid && Passes(e, resources, parse, now - soak)
    ensures forall sid :: sid in eligible ==> ResourceOf(resources, sid) == Some(eligible[sid])
  {
    var cutoff := now - soak;
    eligible := map[];
    for i := 0 to |history|
      invariant forall sid :: sid in eligible <==>
                  exists e :: e in history[..i] && e.serverId == sid && Passes(e, resources, parse, cutoff)
      invariant forall sid :: sid in eligible ==> ResourceOf(resources, sid) == Some(eligible[sid])
    {
      assert history[..i + 1] == history[..i] + [history[i]];
      var e := history[i];
      var head := ResourceOf(resources, e.serverId);
      if head.None? || head.value == NoHash || e.snapshots == [] {
        continue;
      }
      var newest := e.snapshots[0];
      if newest.snapshotHash != head.value {
        continue;
      }
      var ts := parse(newest.timestamp);
      if ts.Some? && ts.value <= cutoff {
        eligible := eligible[e.serverId := head.value];
      }
    }
    assert history[..|history|] == history;
  }

  /** The server carried `h` without interruption since generation `k` of the chain. */
  ghost predicate CarriedSince(chain: seq<Generation>, sid: ServerId, h: Hash, k: nat) {
    && k < |chain|
    && ResourceOf(chain[k].resources, sid) == Some(h)
    && forall i :: 0 <= i <= k ==> ResourceOf(chain[i].resources, sid) in {None, Some(h)}
  }

  lemma {:induction false} CarriedSinceHead(chain: seq<Generation>, sid: ServerId, h: Hash, k: nat)
    requires CarriedSince(chain, sid, h, k)
    ensures Carriers(chain, sid) != [] && Carriers(chain, sid)[0].snapshotHash == h
  {
    if ResourceOf(chain[0].resources, sid).None? {
      assert forall i :: 0 <= i < |chain| - 1 ==> chain[1..][i] == chain[i + 1];
      CarriedSinceHead(chain[1..], sid, h, k - 1);
    }
  }

  /** An uninterrupted carry that reaches past the newest generation is one
      of the rest of the chain. */
  lemma CarriedSinceTail(chain: seq<Generation>, sid: ServerId, h: Hash, k: nat)
    requires CarriedSince(chain, sid, h, k) && k > 0
    ensures CarriedSince(chain[1..], sid, h, k - 1)
    ensures Carriers(chain[1..], sid) != [] && Carriers(chain[1..], sid)[0].snapshotHash == h
  {
    assert forall i :: 0 <= i < |chain| - 1 ==> chain[1..][i] == chain[i + 1];
    CarriedSinceHead(chain[1..], sid, h, k - 1);
  }

  /** When it does, the run is the one of the rest of the chain. */
  lemma NewestContinues(g: Generation, rest: seq<Generation>, sid: ServerId, h: Hash)
    requires ResourceOf(g.resources, sid) in {None, Some(h)}
    requires Carriers(rest, sid) != [] && Carriers(rest, sid)[0].snapshotHash == h
    ensures Runs(rest, sid) != [] && Runs([g] + rest, sid) == Runs(rest, sid)
  {
    RunsStep(g, rest, sid);
    OpenersHead(Carriers(rest, sid));
  }

  /** The newest entry of a server's runs is opened by the oldest generation
      since which the snapshot was carried without interruption. */
  lemma {:induction false} NewestRunOpener(chain: seq<Generation>, sid: ServerId, h: Hash) returns (k: nat)
    requires Carriers(chain, sid) != [] && Carriers(chain, sid)[0].snapshotHash == h
    ensures CarriedSince(chain, sid, h, k)
    ensures Runs(chain, sid) != [] && Runs(chain, sid)[0] == Opened(chain[k], ResourceEntry(sid, h))
    ensures forall k': nat :: CarriedSince(chain, sid, h, k') ==> k' <= k
  {
    var rest := chain[1..];
    assert [chain[0]] + rest == chain;
    if Carriers(rest, sid) != [] && Carriers(rest, sid)[0].snapshotHash == h {
      NewestContinues(chain[0], rest, sid, h);
      var j := NewestRunOpener(rest, sid, h);
      k := j + 1;
    } else {
      k := 0;
    }
    forall k': nat | CarriedSince(chain, sid, h, k')
      ensures k' <= k
    {
      if k' > 0 {
        CarriedSinceTail(chain, sid, h, k');
      }
    }
  }

  ghost predicate OrderedTimes(chain: seq<Generation>, parse: string -> Option<int>) {
    && (forall i :: 0 <= i < |chain| ==> parse(chain[i].meta.timestamp).Some?)
    && (forall i, j :: 0 <= i <= j < |chain| ==>
          parse(chain[i].meta.timestamp).value >= parse(chain[j].meta.timestamp).value)
  }

  /** Eligibility is an uninterrupted soak: the head's snapshot was carried
      since some generation no younger than the cutoff. */
  lemma EligibleIffSoaked(
    history: ServerHistory, chain: seq<Generation>, sid: ServerId, parse: string -> Option<int>, cutoff: int)
    requires chain != [] && Describes(history, chain)
    requires OrderedTimes(chain, parse)
    ensures (exists e :: e in history && e.serverId == sid && Passes(e, chain[0].resources, parse, cutoff))
            <==>
            match ResourceOf(chain[0].resources, sid) {
              case None => false
              case Some(h) =>
                h != NoHash &&
                exists k: nat :: CarriedSince(chain, sid, h, k) && parse(chain[k].meta.timestamp).value <= cutoff
            }
  {
    match ResourceOf(chain[0].resources, sid) {
      case None =>
      case Some(h) =>
        assert Carriers(chain, sid)[0] == Opened(chain[0], ResourceEntry(sid, h));
        var k := NewestRunOpener(chain, sid, h);
        var newest := Runs(chain, sid)[0];
        assert SnapshotsOf(history, sid) == Runs(chain, sid);
        LookupIsMember(history, sid);
        var e := ServerEntry(sid, Runs(chain, sid));
        assert e in history;
        LookupDistinct(history, sid);
        forall e' | e' in history && e'.serverId == sid
          ensures e' == e
        {
          var i :| 0 <= i < |history| && history[i] == e';
        }
        assert newest.timestamp == chain[k].meta.timestamp;
    }
  }

  /** Republishing the same snapshot keeps the clock; changing away and back
      restarts it. */
  lemma ClockRule(g1: Generation, g2: Generation, chain: seq<Generation>, sid: ServerId, h: Hash)
    requires Carriers(chain, sid) != [] && Carriers(chain, sid)[0].snapshotHash == h
    requires ResourceOf(g2.resources, sid) == Some(h)
    ensures Runs([g2] + chain, sid) != [] && Runs(chain, sid) != [] && Runs([g2] + chain, sid)[0] == Runs(chain, sid)[0]
    ensures ResourceOf(g1.resources, sid).Some? && ResourceOf(g1.resources, sid) != Some(h) ==>
              [Opened(g2, ResourceEntry(sid, h))] <= Runs([g2] + ([g1] + chain), sid)
  {
    OpenersHead(Carriers(chain, sid));
    RunsStep(g2, chain, sid);
    RunsStep(g1, chain, sid);
    RunsStep(g2, [g1] + chain, sid);
  }
}
