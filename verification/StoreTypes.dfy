/** The values kept in the content-addressed release store: generations, the
    per-server snapshot history, snapshots and blobs. */
module StoreTypes {

  type ServerId = string
  type ChannelName = string

  datatype Option<+T> = None | Some(value: T)

  /** A hex digest, or its absence (the source's `None` and empty string). */
  datatype Hash = NoHash | Digest(hex: string)

  /** Identifier hashing, abstracted to an injective constructor. */
  datatype Ident = IdentHash(uri: string)

  datatype BlobId = BlobId(ident: Ident, content: string)

  /** One entry of a generation's server index. */
  datatype ServerInfo = ServerInfo(
    serverId: ServerId, gameBuild: string, gameVersion: string,
    region: string, sync: string, branch: string, name: map<string, string>)

  datatype ResourceEntry = ResourceEntry(serverId: ServerId, snapshotHash: Hash)

  datatype GenerationMetadata = GenerationMetadata(
    parent: Hash, channel: ChannelName, timestamp: string, subject: string)

  datatype Generation = Generation(
    hash: Hash, meta: GenerationMetadata, serverIndex: seq<ServerInfo>,
    resources: seq<ResourceEntry>, release: Hash)

  /** One run of a server's history: a snapshot and the generation that opened the run. */
  datatype Snapshot = Snapshot(
    snapshotHash: Hash, generationHash: Hash, timestamp: string,
    gameBuild: string, gameVersion: string)

  /** A server's history, newest snapshot first. */
  datatype ServerEntry = ServerEntry(serverId: ServerId, snapshots: seq<Snapshot>)

  type ServerHistory = seq<ServerEntry>

  datatype SnapshotMetadata = SnapshotMetadata(
    serverId: ServerId, gameBuild: string, gameVersion: string,
    region: string, sync: string, branch: string, name: map<string, string>)

  datatype IndexEntry = IndexEntry(resourceId: string, contentHash: string)

  datatype ResourceSnapshot = ResourceSnapshot(meta: SnapshotMetadata, index: seq<IndexEntry>)

  function BlobOf(e: IndexEntry): BlobId {
    BlobId(IdentHash(e.resourceId), e.contentHash)
  }

  /** Each server is listed at most once. */
  ghost predicate DistinctServers(resources: seq<ResourceEntry>) {
    forall i, j :: 0 <= i < j < |resources| ==> resources[i].serverId != resources[j].serverId
  }

  /** The mapping a resources list denotes: the last entry of a server wins,
      as in the dictionaries the source builds from it. */
  function ResourceOf(resources: seq<ResourceEntry>, sid: ServerId): Option<Hash> {
    if resources == [] then None
    else
      var last := resources[|resources| - 1];
      if last.serverId == sid then Some(last.snapshotHash)
      else ResourceOf(resources[..|resources| - 1], sid)
  }
}
