/** Promotion: admitting (server, checkout) pairs of one channel into another,
    and the soak rule that makes a pair eligible. */
module Promotion {
  import opened StoreTypes
  import opened History
  import opened ReleaseStore

  datatype Candidate = Candidate(server: ServerId, checkout: Hash)

  datatype Kind = Idempotent | Vetoed | Admitted

  datatype PromoteError =
    | NoSourceHead
    | SourceGenerationMissing
    | UnknownCandidates(pairs: set<Candidate>)
    | TargetGenerationMissing
    | NoTargetHead
    | SnapshotMissing

  datatype PromoteResult = PromoteResult(
    generation: Hash, admitted: seq<Candidate>,
    skippedIdempotent: seq<Candidate>, skippedSuppressed: seq<Candidate>)

  datatype Result<+T, +E> = Ok(value: T) | Error(error: E)

  /** Candidates form a dictionary keyed by server. */
  ghost predicate DistinctCandidates(cs: seq<Candidate>) {
    forall i, j :: 0 <= i < j < |cs| ==> cs[i].server != cs[j].server
  }

  // ---- Which candidates are known ------------------------------------------

  function ResourcePairs(resources: seq<ResourceEntry>): set<Candidate> {
    set e | e in resources :: Candidate(e.serverId, e.snapshotHash)
  }

  function EntryPairs(entry: ServerEntry): set<Candidate> {
    set s | s in entry.snapshots :: Candidate(entry.serverId, s.snapshotHash)
  }

  function HistoryPairs(history: ServerHistory): set<Candidate> {
    set e, p | e in history && p in EntryPairs(e) :: p
  }

  /** The checkouts a source generation vouches for: its resources and its history. */
  function ValidPairs(st: State, source: Hash): set<Candidate>
    requires source in st.gens
  {
    ResourcePairs(st.gens[source].resources)
    + if source in st.histories then HistoryPairs(st.histories[source]) else {}
  }

  // ---- Sorting the candidates ----------------------------------------------

  function KindOf(c: Candidate, current: seq<ResourceEntry>, suppressed: seq<Suppression>, respect: bool): Kind {
    if ResourceOf(current, c.server) == Some(c.checkout) then Idempotent
    else if respect && Suppression(c.server, c.checkout) in suppressed then Vetoed
    else Admitted
  }

  function Select(
    cs: seq<Candidate>, kind: Kind, current: seq<ResourceEntry>, suppressed: seq<Suppression>, respect: bool)
    : seq<Candidate>
  {
    if cs == [] then []
    else
      var c := cs[|cs| - 1];
      Select(cs[..|cs| - 1], kind, current, suppressed, respect)
      + if KindOf(c, current, suppressed, respect) == kind then [c] else []
  }

  function CheckoutFor(cs: seq<Candidate>, server: ServerId): Option<Hash> {
    if cs == [] then None
    else if cs[|cs| - 1].server == server then Some(cs[|cs| - 1].checkout)
    else CheckoutFor(cs[..|cs| - 1], server)
  }

  // ---- The overlaid generation ---------------------------------------------

  /** The parent's entries, each with its admitted checkout if it has one. */
  function Replaced(parent: seq<ResourceEntry>, admitted: seq<Candidate>): seq<ResourceEntry> {
    if parent == [] then []
    else
      var e := parent[|parent| - 1];
      Replaced(parent[..|parent| - 1], admitted) + [ReplacedEntry(e, admitted)]
  }

  function ReplacedEntry(e: ResourceEntry, admitted: seq<Candidate>): ResourceEntry {
    match CheckoutFor(admitted, e.serverId)
    case Some(h) => ResourceEntry(e.serverId, h)
    case None => e
  }

  function Appended(admitted: seq<Candidate>, seen: set<ServerId>): seq<ResourceEntry> {
    if admitted == [] then []
    else
      var c := admitted[|admitted| - 1];
      Appended(admitted[..|admitted| - 1], seen)
      + if c.server in seen then [] else [ResourceEntry(c.server, c.checkout)]
  }

  function OverlaidResources(parent: seq<ResourceEntry>, admitted: seq<Candidate>): seq<ResourceEntry> {
    Replaced(parent, admitted) + Appended(admitted, ServersOf(parent))
  }

  function InfoOf(meta: SnapshotMetadata): ServerInfo {
    ServerInfo(meta.serverId, meta.gameBuild, meta.gameVersion, meta.region, meta.sync, meta.branch,
               if meta.name == map[] then map["en" := meta.serverId] else meta.name)
  }

  function LastIndexOf(index: seq<ServerInfo>, sid: ServerId): (r: Option<nat>)
    ensures r.Some? ==> r.value < |index| && index[r.value].serverId == sid
  {
    if index == [] then None
    else if index[|index| - 1].serverId == sid then Some(|index| - 1)
    else LastIndexOf(index[..|index| - 1], sid)
  }

  /** The parent's index with the admitted servers' entries rebuilt from the
      metadata of the admitted snapshots. */
  function OverlaidIndex(
    snaps: map<Hash, ResourceSnapshot>, parent: seq<ServerInfo>, admitted: seq<Candidate>)
    : (r: seq<ServerInfo>)
    requires forall c :: c in admitted ==> c.checkout in snaps
    ensures |parent| <= |r|
  {
    if admitted == [] then parent
    else
      var before := OverlaidIndex(snaps, parent, admitted[..|admitted| - 1]);
      var c := admitted[|admitted| - 1];
      var info := InfoOf(snaps[c.checkout].meta);
      match LastIndexOf(parent, c.server)
      case Some(i) => before[i := info]
      case None => before + [info]
  }

  // ---- The operation -------------------------------------------------------

  datatype Request = Request(
    source: ChannelName, target: ChannelName, candidates: seq<Candidate>,
    respectSuppressions: bool, allowMissingHead: bool)

  function ParentResources(st: State, target: ChannelName): seq<ResourceEntry> {
    var h := HeadOf(st, target);
    if h != NoHash && h in st.gens then st.gens[h].resources else []
  }

  function AdmittedBy(st: State, rq: Request): seq<Candidate> {
    Select(rq.candidates, Admitted, ParentResources(st, rq.target), SuppressionsOf(st, rq.target),
           rq.respectSuppressions)
  }

  function ResultOf(st: State, rq: Request, generation: Hash): PromoteResult {
    var current, suppressed := ParentResources(st, rq.target), SuppressionsOf(st, rq.target);
    PromoteResult(
      generation, AdmittedBy(st, rq),
      Select(rq.candidates, Idempotent, current, suppressed, rq.respectSuppressions),
      Select(rq.candidates, Vetoed, current, suppressed, rq.respectSuppressions))
  }

  function MissingSnapshots(st: State, admitted: seq<Candidate>): set<Candidate> {
    set c | c in admitted && c.checkout !in st.resourceSnaps
  }

  /** Why a promotion is refused, if it is. */
  function Refusal(st: State, rq: Request): Option<PromoteError> {
    var s, t := HeadOf(st, rq.source), HeadOf(st, rq.target);
    if s == NoHash then Some(NoSourceHead)
    else if s !in st.gens then Some(SourceGenerationMissing)
    else
      var unknown := set c | c in rq.candidates && c !in ValidPairs(st, s);
      if unknown != {} then Some(UnknownCandidates(unknown))
      else if t != NoHash && t !in st.gens then Some(TargetGenerationMissing)
      else if t == NoHash && !rq.allowMissingHead then Some(NoTargetHead)
      else if MissingSnapshots(st, AdmittedBy(st, rq)) != {} then Some(SnapshotMissing)
      else None
  }

  function PromotedMetadata(st: State, rq: Request, now: string, subject: string): GenerationMetadata {
    GenerationMetadata(HeadOf(st, rq.target), rq.target, now, subject)
  }

  /** The generation a promotion creates. */
  function PromotedGeneration(st: State, rq: Request, h: Hash, now: string, subject: string): Generation
    requires Refusal(st, rq) == None
  {
    var t := HeadOf(st, rq.target);
    var admitted := AdmittedBy(st, rq);
    assert forall c :: c in admitted ==> c !in MissingSnapshots(st, admitted);
    Generation(
      h, PromotedMetadata(st, rq, now, subject),
      OverlaidIndex(st.resourceSnaps, if t in st.gens then st.gens[t].serverIndex else [], admitted),
      OverlaidResources(ParentResources(st, rq.target), admitted),
      if t in st.gens then st.gens[t].release else NoHash)
  }

  /** The store after a promotion; `h` is the hash of the new metadata. */
  function Promoted(st: State, rq: Request, h: Hash, now: string, subject: string): State {
    if Refusal(st, rq).Some? || AdmittedBy(st, rq) == [] then st
    else CreatedAndPushed(st, PromotedGeneration(st, rq, h, now, subject), rq.target, now)
  }

  method ValidSourceCheckouts(store: Store, source: Hash) returns (valid: set<Candidate>)
    requires source in store.gens
    ensures valid == ValidPairs(store.View(), source)
  {
    valid := {};
    var resources := store.gens[source].resources;
    for i := 0 to |resources|
      invariant valid == ResourcePairs(resources[..i])
    {
      assert resources[..i + 1] == resources[..i] + [resources[i]];
      valid := valid + {Candidate(resources[i].serverId, resources[i].snapshotHash)};
    }
    assert resources[..|resources|] == resources;
    if source in store.histories {
      var pairs := CollectHistoryPairs(store.histories[source]);
      valid := valid + pairs;
    }
  }

  method CollectHistoryPairs(history: ServerHistory) returns (pairs: set<Candidate>)
    ensures pairs == HistoryPairs(history)
  {
    pairs := {};
    for i := 0 to |history|
      invariant pairs == HistoryPairs(history[..i])
    {
      assert history[..i + 1] == history[..i] + [history[i]];
      var e := history[i];
      var before := pairs;
      for j := 0 to |e.snapshots|
        invariant pairs == before + EntryPairs(e.(snapshots := e.snapshots[..j]))
      {
        assert e.snapshots[..j + 1] == e.snapshots[..j] + [e.snapshots[j]];
        pairs := pairs + {Candidate(e.serverId, e.snapshots[j].snapshotHash)};
      }
      assert e.(snapshots := e.snapshots[..|e.snapshots|]) == e;
    }
    assert history[..|history|] == history;
  }

  /** First the parent's entries in place, then the servers it does not list. */
  method OverlayResources(parent: seq<ResourceEntry>, admitted: seq<Candidate>) returns (merged: seq<ResourceEntry>)
    ensures merged == OverlaidResources(parent, admitted)
  {
    var kept, seen := ReplaceEntries(parent, admitted);
    var added := AppendServers(admitted, seen);
    merged := kept + added;
  }

  method ReplaceEntries(parent: seq<ResourceEntry>, admitted: seq<Candidate>)
    returns (merged: seq<ResourceEntry>, seen: set<ServerId>)
    ensures merged == Replaced(parent, admitted) && seen == ServersOf(parent)
  {
    merged, seen := [], {};
    for i := 0 to |parent|
      invariant merged == Replaced(parent[..i], admitted)
      invariant seen == ServersOf(parent[..i])
    {
      ReplacedStep(parent, admitted, i);
      merged := merged + [ReplacedEntry(parent[i], admitted)];
      seen := seen + {parent[i].serverId};
    }
    assert parent[..|parent|] == parent;
  }

  lemma ReplacedStep(parent: seq<ResourceEntry>, admitted: seq<Candidate>, i: nat)
    requires i < |parent|
    ensures Replaced(parent[..i + 1], admitted) ==
            Replaced(parent[..i], admitted) + [ReplacedEntry(parent[i], admitted)]
    ensures ServersOf(parent[..i + 1]) == ServersOf(parent[..i]) + {parent[i].serverId}
  {
    assert parent[..i + 1][..i] == parent[..i];
    assert parent[..i + 1] == parent[..i] + [parent[i]];
  }

  method AppendServers(admitted: seq<Candidate>, seen: set<ServerId>) returns (added: seq<ResourceEntry>)
    ensures added == Appended(admitted, seen)
  {
    added := [];
    for i := 0 to |admitted|
      invariant added == Appended(admitted[..i], seen)
    {
      assert admitted[..i + 1][..i] == admitted[..i];
      if admitted[i].server !in seen {
        added := added + [ResourceEntry(admitted[i].server, admitted[i].checkout)];
      }
    }
    assert admitted[..|admitted|] == admitted;
  }

  /** Fails when an admitted snapshot cannot be loaded. */
  method OverlayServerIndex(store: Store, parent: seq<ServerInfo>, admitted: seq<Candidate>)
    returns (merged: Option<seq<ServerInfo>>)
    ensures merged.None? <==> MissingSnapshots(store.View(), admitted) != {}
    ensures merged.Some? ==>
              && (forall c :: c in admitted ==> c.checkout in store.resourceSnaps)
              && merged.value == OverlaidIndex(store.resourceSnaps, parent, admitted)
  {
    var servers := parent;
    for i := 0 to |admitted|
      invariant forall c :: c in admitted[..i] ==> c.checkout in store.resourceSnaps
      invariant servers == OverlaidIndex(store.resourceSnaps, parent, admitted[..i])
    {
      assert admitted[..i + 1][..i] == admitted[..i];
      var c := admitted[i];
      if c.checkout !in store.resourceSnaps {
        assert c in MissingSnapshots(store.View(), admitted);
        return None;
      }
      var info := InfoOf(store.resourceSnaps[c.checkout].meta);
      var at := LastIndexOf(parent, c.server);
      servers := if at.Some? then servers[at.value := info] else servers + [info];
    }
    assert admitted[..|admitted|] == admitted;
    merged := Some(servers);
  }

  method SortCandidates(
    cs: seq<Candidate>, current: seq<ResourceEntry>, suppressed: seq<Suppression>, respect: bool)
    returns (admitted: seq<Candidate>, idempotent: seq<Candidate>, vetoed: seq<Candidate>)
    ensures admitted == Select(cs, Admitted, current, suppressed, respect)
    ensures idempotent == Select(cs, Idempotent, current, suppressed, respect)
    ensures vetoed == Select(cs, Vetoed, current, suppressed, respect)
  {
    admitted, idempotent, vetoed := [], [], [];
    for i := 0 to |cs|
      invariant admitted == Select(cs[..i], Admitted, current, suppressed, respect)
      invariant idempotent == Select(cs[..i], Idempotent, current, suppressed, respect)
      invariant vetoed == Select(cs[..i], Vetoed, current, suppressed, respect)
    {
      assert cs[..i + 1][..i] == cs[..i];
      var c := cs[i];
      if ResourceOf(current, c.server) == Some(c.checkout) {
        idempotent := idempotent + [c];
      } else if respect && Suppression(c.server, c.checkout) in suppressed {
        vetoed := vetoed + [c];
      } else {
        admitted := admitted + [c];
      }
    }
    assert cs[..|cs|] == cs;
  }

  method UnknownOf(cs: seq<Candidate>, valid: set<Candidate>) returns (unknown: set<Candidate>)
    ensures unknown == set c | c in cs && c !in valid
  {
    unknown := {};
    for i := 0 to |cs|
      invariant unknown == set c | c in cs[..i] && c !in valid
    {
      assert cs[..i + 1] == cs[..i] + [cs[i]];
      if cs[i] !in valid {
        unknown := unknown + {cs[i]};
      }
    }
    assert cs[..|cs|] == cs;
  }

  /** The target's head generation, the parent of what is promoted. */
  method TargetParent(store: Store, rq: Request)
    returns (parent: Hash, parentGen: Option<Generation>, refused: Option<PromoteError>)
    requires store.Valid()
    ensures parent == HeadOf(store.View(), rq.target)
    ensures parentGen == if parent in store.gens then Some(store.gens[parent]) else None
    ensures refused ==
            if parent == NoHash then if rq.allowMissingHead then None else Some(NoTargetHead)
            else if parent !in store.gens then Some(TargetGenerationMissing) else None
  {
    var targetHead := store.GetHead(rq.target);
    parent := if targetHead.Some? then targetHead.value else NoHash;
    parentGen, refused := None, None;
    if parent != NoHash {
      parentGen := store.Load(parent);
      if parentGen.None? {
        refused := Some(TargetGenerationMissing);
      }
    } else if !rq.allowMissingHead {
      refused := Some(NoTargetHead);
    }
  }

  method Promote(store: Store, rq: Request, now: string, subject: string)
    returns (r: Result<PromoteResult, PromoteError>)
    requires store.Valid()
    modifies store
    ensures store.Valid()
    ensures var st := old(store.View());
            var h := Digest(store.hashOf(PromotedMetadata(st, rq, now, subject)));
            && store.View() == Promoted(st, rq, h, now, subject)
            && (match Refusal(st, rq)
                case Some(e) => r == Error(e)
                case None => r == Ok(ResultOf(st, rq, if AdmittedBy(st, rq) == [] then NoHash else h)))
  {
    ghost var st := store.View();
    var sourceHead := store.GetHead(rq.source);
    if sourceHead.None? || sourceHead.value == NoHash {
      return Error(NoSourceHead);
    }
    var s := sourceHead.value;
    var sourceGen := store.Load(s);
    if sourceGen.None? {
      return Error(SourceGenerationMissing);
    }
    var valid := ValidSourceCheckouts(store, s);
    var unknown := UnknownOf(rq.candidates, valid);
    if unknown != {} {
      return Error(UnknownCandidates(unknown));
    }

    var parent, parentGen, refused := TargetParent(store, rq);
    if refused.Some? {
      return Error(refused.value);
    }

    var current := if parentGen.Some? then parentGen.value.resources else [];
    var suppressed := if rq.target in store.suppressions then store.suppressions[rq.target] else [];
    var admitted, idempotent, vetoed := SortCandidates(rq.candidates, current, suppressed, rq.respectSuppressions);
    if admitted == [] {
      return Ok(PromoteResult(NoHash, admitted, idempotent, vetoed));
    }

    var h := ApplyPromotion(store, rq, now, subject, parent, parentGen, admitted);
    if h.None? {
      return Error(SnapshotMissing);
    }
    r := Ok(PromoteResult(h.value, admitted, idempotent, vetoed));
  }

  /** Builds the overlaid generation, creates it and pushes it; nothing happens
      when an admitted snapshot cannot be loaded. */
  method ApplyPromotion(
    store: Store, rq: Request, now: string, subject: string,
    parent: Hash, parentGen: Option<Generation>, admitted: seq<Candidate>)
    returns (h: Option<Hash>)
    requires store.Valid()
    requires parent == HeadOf(store.View(), rq.target)
    requires parentGen == if parent in store.gens then Some(store.gens[parent]) else None
    requires admitted == AdmittedBy(store.View(), rq) && admitted != []
    requires Refusal(store.View(), rq) ==
             if MissingSnapshots(store.View(), admitted) == {} then None else Some(SnapshotMissing)
    modifies store
    ensures store.Valid()
    ensures var st := old(store.View());
            var digest := Digest(store.hashOf(PromotedMetadata(st, rq, now, subject)));
            && store.View() == Promoted(st, rq, digest, now, subject)
            && h == if Refusal(st, rq).Some? then None else Some(digest)
  {
    ghost var st := store.View();
    var index := OverlayServerIndex(store, if parentGen.Some? then parentGen.value.serverIndex else [], admitted);
    if index.None? {
      return None;
    }
    var resources := OverlayResources(if parentGen.Some? then parentGen.value.resources else [], admitted);
    var release := if parentGen.Some? then parentGen.value.release else NoHash;
    var meta := GenerationMetadata(parent, rq.target, now, subject);
    var digest := store.CreateGeneration(meta, index.value, resources, release);
    assert Generation(digest, meta, index.value, resources, release) ==
        PromotedGeneration(st, rq, digest, now, subject);
    store.EnsureChannel(rq.target);
    store.Push(rq.target, digest, now);
    h := Some(digest);
  }
}
