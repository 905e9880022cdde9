/** The release store: generations, snapshots, blobs, heads and reflogs. */
module ReleaseStore {
  // `State` is the abstract value of a store. The functions on it say what
  // each operation does; the class performs the operations on its fields.

  import opened StoreTypes
  import opened History

  datatype ReflogEntry = ReflogEntry(from: Hash, to: Hash, op: string, timestamp: string)

  /** A (server, checkout) pair vetoed from promotion. */
  datatype Suppression = Suppression(server: ServerId, checkout: Hash)

  datatype Outcome = Done | NotFound

  /** `lineage` does not exist on disk: it remembers, for every generation ever
      created, the generation and all its ancestors, newest first. */
  datatype State = State(
    channels: seq<ChannelName>,
    heads: map<ChannelName, Hash>,
    reflogs: map<ChannelName, seq<ReflogEntry>>,
    suppressions: map<ChannelName, seq<Suppression>>,
    gens: map<Hash, Generation>,
    histories: map<Hash, ServerHistory>,
    resourceSnaps: map<Hash, ResourceSnapshot>,
    releaseSnaps: map<Hash, seq<IndexEntry>>,
    blobs: set<BlobId>,
    lineage: map<Hash, seq<Generation>>)

  /** A generation directory is named by its hash; a history file lies inside one. */
  ghost predicate WellKeyed(st: State) {
    && (forall h :: h in st.gens ==> h != NoHash && st.gens[h].hash == h)
    && st.histories.Keys <= st.gens.Keys
  }

  // ---- What the operations do ----------------------------------------------

  function HeadOf(st: State, channel: ChannelName): Hash {
    if channel in st.heads then st.heads[channel] else NoHash
  }

  function ReflogOf(st: State, channel: ChannelName): seq<ReflogEntry> {
    if channel in st.reflogs then st.reflogs[channel] else []
  }

  function SuppressionsOf(st: State, channel: ChannelName): seq<Suppression> {
    if channel in st.suppressions then st.suppressions[channel] else []
  }

  function EnsuredChannel(st: State, channel: ChannelName): State {
    st.(channels := if channel in st.channels then st.channels else st.channels + [channel],
        heads := st.heads[channel := HeadOf(st, channel)],
        reflogs := st.reflogs[channel := ReflogOf(st, channel)])
  }

  function HeadMoved(st: State, channel: ChannelName, target: Hash, op: string, timestamp: string): State {
    var entry := ReflogEntry(HeadOf(st, channel), target, op, timestamp);
    st.(reflogs := st.reflogs[channel := ReflogOf(st, channel) + [entry]],
        heads := st.heads[channel := target])
  }

  function Pushed(st: State, channel: ChannelName, target: Hash, timestamp: string): State {
    HeadMoved(st, channel, target, "push", timestamp)
  }

  function Reverted(st: State, channel: ChannelName, target: Hash, timestamp: string): State {
    HeadMoved(st, channel, target, "revert", timestamp)
  }

  function ParentHistory(st: State, parent: Hash): ServerHistory {
    if parent in st.histories then st.histories[parent] else []
  }

  function LineageOf(st: State, h: Hash): seq<Generation> {
    if h in st.lineage then st.lineage[h] else []
  }

  /** Writing a generation: a new directory, or only a new history when the
      directory already exists. */
  function Created(st: State, g: Generation): State {
    var merged := Merged(ParentHistory(st, g.meta.parent), g);
    if g.hash in st.gens then st.(histories := st.histories[g.hash := merged])
    else
      st.(gens := st.gens[g.hash := g],
          histories := st.histories[g.hash := merged],
          lineage := st.lineage[g.hash := [g] + LineageOf(st, g.meta.parent)])
  }

  /** A commit registers the channel, creates a generation on its head and,
      unless told otherwise, pushes it. */
  function Committed(st: State, channel: ChannelName, g: Generation, push: bool, now: string): State {
    var created := Created(EnsuredChannel(st, channel), g);
    if push then Pushed(created, channel, g.hash, now) else created
  }

  /** Create a generation, register its channel and push it, as promotions do. */
  function CreatedAndPushed(st: State, g: Generation, channel: ChannelName, now: string): State {
    Pushed(EnsuredChannel(Created(st, g), channel), channel, g.hash, now)
  }

  /** What that does to everything a new generation touches. */
  lemma CreatedAndPushedShape(st: State, g: Generation, channel: ChannelName, now: string, c: ChannelName, h: Hash)
    requires g.hash !in st.gens
    ensures var st' := CreatedAndPushed(st, g, channel, now);
            && st'.gens == st.gens[g.hash := g]
            && st'.lineage == st.lineage[g.hash := [g] + LineageOf(st, g.meta.parent)]
            && (h != g.hash ==> (h in st'.histories <==> h in st.histories))
            && (h != g.hash && h in st.histories ==> st'.histories[h] == st.histories[h])
            && HeadOf(st', channel) == g.hash && channel in st'.channels
            && (c != channel ==> HeadOf(st', c) == HeadOf(st, c) && ReflogOf(st', c) == ReflogOf(st, c))
            && ReflogOf(st', channel) == ReflogOf(st, channel) + [ReflogEntry(HeadOf(st, channel), g.hash, "push", now)]
            && st'.resourceSnaps == st.resourceSnaps && st'.suppressions == st.suppressions && st'.blobs == st.blobs
  {
  }

  // ---- The store -----------------------------------------------------------

  class Store {
    const hashOf: GenerationMetadata -> string
    const snapshotHashOf: ResourceSnapshot -> string

    var channels: seq<ChannelName>
    var heads: map<ChannelName, Hash>
    var reflogs: map<ChannelName, seq<ReflogEntry>>
    var suppressions: map<ChannelName, seq<Suppression>>
    var gens: map<Hash, Generation>
    var histories: map<Hash, ServerHistory>
    var resourceSnaps: map<Hash, ResourceSnapshot>
    var releaseSnaps: map<Hash, seq<IndexEntry>>
    var blobs: set<BlobId>
    ghost var lineage: map<Hash, seq<Generation>>

    ghost function View(): State
      reads this
    {
      State(channels, heads, reflogs, suppressions, gens, histories, resourceSnaps, releaseSnaps, blobs, lineage)
    }

    ghost predicate Valid()
      reads this
    {
      WellKeyed(View())
    }

    constructor (hashOf: GenerationMetadata -> string, snapshotHashOf: ResourceSnapshot -> string)
      ensures Valid()
      ensures View() == State([], map[], map[], map[], map[], map[], map[], map[], {}, map[])
      ensures this.hashOf == hashOf && this.snapshotHashOf == snapshotHashOf
    {
      this.hashOf, this.snapshotHashOf := hashOf, snapshotHashOf;
      channels, heads, reflogs, suppressions := [], map[], map[], map[];
      gens, histories, resourceSnaps, releaseSnaps, blobs := map[], map[], map[], map[], {};
      lineage := map[];
    }

    method EnsureChannel(channel: ChannelName)
      requires Valid()
      modifies this
      ensures Valid() && View() == EnsuredChannel(old(View()), channel)
    {
      if channel !in channels {
        channels := channels + [channel];
      }
      if channel !in heads {
        heads := heads[channel := NoHash];
      }
      assert heads == old(heads)[channel := HeadOf(old(View()), channel)];
      if channel !in reflogs {
        reflogs := reflogs[channel := []];
      }
      assert reflogs == old(reflogs)[channel := ReflogOf(old(View()), channel)];
    }

    method GetHead(channel: ChannelName) returns (head: Option<Hash>)
      ensures head == if channel in heads then Some(heads[channel]) else None
    {
      head := if channel in heads then Some(heads[channel]) else None;
    }

    method AppendReflog(channel: ChannelName, from: Hash, to: Hash, op: string, timestamp: string)
      modifies this`reflogs
      ensures reflogs ==
              old(reflogs)[channel := ReflogOf(old(View()), channel) + [ReflogEntry(from, to, op, timestamp)]]
    {
      var existing := if channel in reflogs then reflogs[channel] else [];
      reflogs := reflogs[channel := existing + [ReflogEntry(from, to, op, timestamp)]];
    }

    method Push(channel: ChannelName, target: Hash, timestamp: string)
      requires Valid()
      modifies this
      ensures Valid() && View() == Pushed(old(View()), channel, target, timestamp)
    {
      var current := GetHead(channel);
      var currentHash := if current.Some? then current.value else NoHash;
      AppendReflog(channel, currentHash, target, "push", timestamp);
      heads := heads[channel := target];
    }

    method Revert(channel: ChannelName, target: Hash, timestamp: string) returns (outcome: Outcome)
      requires Valid()
      modifies this
      ensures Valid()
      ensures outcome == if channel in old(heads) then Done else NotFound
      ensures View() == if channel in old(heads) then Reverted(old(View()), channel, target, timestamp) else old(View())
    {
      var current := GetHead(channel);
      if current.None? {
        return NotFound;
      }
      AppendReflog(channel, current.value, target, "revert", timestamp);
      heads := heads[channel := target];
      outcome := Done;
    }

    method Load(h: Hash) returns (g: Option<Generation>)
      ensures g == if h in gens then Some(gens[h]) else None
    {
      g := if h in gens then Some(gens[h]) else None;
    }

    method CreateGeneration(
      meta: GenerationMetadata, serverIndex: seq<ServerInfo>,
      resources: seq<ResourceEntry>, release: Hash)
      returns (h: Hash)
      requires Valid()
      modifies this
      ensures Valid() && h == Digest(hashOf(meta))
      ensures View() == Created(old(View()), Generation(h, meta, serverIndex, resources, release))
    {
      h := Digest(hashOf(meta));
      var g := Generation(h, meta, serverIndex, resources, release);
      var parentHistory := if meta.parent in histories then histories[meta.parent] else [];
      var merged := MergeGenerationIntoHistory(parentHistory, g);
      if h !in gens {
        gens := gens[h := g];
        histories := histories[h := merged];
        lineage := lineage[h := [g] + LineageOf(View(), meta.parent)];
      } else {
        histories := histories[h := merged];
      }
    }

    /** Fails when the head's generation cannot be loaded. */
    method Commit(
      channel: ChannelName, subject: string, serverIndex: seq<ServerInfo>,
      resources: seq<ResourceEntry>, release: Hash, push: bool, now: string)
      returns (committed: Option<Hash>)
      requires Valid()
      modifies this
      ensures Valid()
      ensures var st := old(View());
              var parent := HeadOf(st, channel);
              var meta := GenerationMetadata(parent, channel, now, subject);
              var h := Digest(hashOf(meta));
              if parent != NoHash && parent !in st.gens then committed == None && View() == st
              else
                && committed == Some(h)
                && View() == Committed(st, channel, Generation(h, meta, serverIndex, resources, release), push, now)
    {
      var head := GetHead(channel);
      var parent := if head.Some? then head.value else NoHash;
      if parent != NoHash {
        var parentGen := Load(parent);
        if parentGen.None? {
          return None;
        }
      }
      EnsureChannel(channel);
      var h := CreateGeneration(GenerationMetadata(parent, channel, now, subject), serverIndex, resources, release);
      if push {
        Push(channel, h, now);
      }
      committed := Some(h);
    }

    method SaveSuppressions(channel: ChannelName, list: seq<Suppression>)
      requires Valid()
      modifies this`suppressions
      ensures Valid() && suppressions == old(suppressions)[channel := list]
    {
      suppressions := suppressions[channel := list];
    }

    /** A snapshot is stored under the hash of its content; a directory that
        already exists is left as it is. */
    method CreateResourceSnapshot(snapshot: ResourceSnapshot) returns (h: Hash)
      requires Valid()
      modifies this`resourceSnaps
      ensures Valid() && h == Digest(snapshotHashOf(snapshot))
      ensures resourceSnaps == if h in old(resourceSnaps) then old(resourceSnaps) else old(resourceSnaps)[h := snapshot]
    {
      h := Digest(snapshotHashOf(snapshot));
      if h !in resourceSnaps {
        resourceSnaps := resourceSnaps[h := snapshot];
      }
    }
  }
}
