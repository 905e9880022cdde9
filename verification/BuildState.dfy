/** The models build-state map: skipping conversions whose inputs are unchanged. */
module BuildState {
  import opened StoreTypes

  const SCHEMA_VERSION := 3

  datatype Variant = Full | Base

  /** The output of one ship in one variant. */
  datatype ResourceId = ShipModel(ship: int, variant: Variant)

  datatype Blob = Blob(rid: ResourceId, content: string)

  /** Everything a conversion depends on. */
  datatype ModelInputs = ModelInputs(model: string, texture: map<string, string>, dna: string, sof: string)

  datatype Artifact = Artifact(model: string, texture: map<string, string>, dna: string, sof: string, output: string)

  datatype StateMap = StateMap(schemaVersion: int, serverId: string, entries: map<ResourceId, Artifact>)

  /** A fixed, deterministic converter: the output hash of a variant's inputs. */
  type Converter = (Variant, ModelInputs) -> string

  /** An entry of the snapshot index: content hash and size. */
  datatype Reference = Reference(content: string, size: nat)

  // ---- Partitioning --------------------------------------------------------

  predicate InputsMatch(entry: Artifact, inputs: ModelInputs) {
    entry.model == inputs.model && entry.texture == inputs.texture && entry.dna == inputs.dna && entry.sof == inputs.sof
  }

  function InputsOf(entry: Artifact): ModelInputs {
    ModelInputs(entry.model, entry.texture, entry.dna, entry.sof)
  }

  function EntryFor(inputs: ModelInputs, output: string): Artifact {
    Artifact(inputs.model, inputs.texture, inputs.dna, inputs.sof, output)
  }

  predicate IsHit(
    rid: ResourceId, inputs: ModelInputs, entries: map<ResourceId, Artifact>,
    outputExists: (ResourceId, string) -> bool)
  {
    rid in entries && InputsMatch(entries[rid], inputs) && outputExists(rid, entries[rid].output)
  }

  function Hits(
    desired: map<ResourceId, ModelInputs>, entries: map<ResourceId, Artifact>,
    outputExists: (ResourceId, string) -> bool)
    : map<ResourceId, Artifact>
  {
    map rid | rid in desired && IsHit(rid, desired[rid], entries, outputExists) :: entries[rid]
  }

  method PartitionEntries(
    desired: map<ResourceId, ModelInputs>, existing: StateMap, outputExists: (ResourceId, string) -> bool)
    returns (hits: map<ResourceId, Artifact>, misses: set<ResourceId>)
    ensures hits == Hits(desired, existing.entries, outputExists)
    ensures misses == desired.Keys - hits.Keys
  {
    hits, misses := map[], {};
    var rest := desired.Keys;
    while rest != {}
      invariant rest <= desired.Keys
      invariant hits.Keys !! rest && misses !! rest && hits.Keys + misses + rest == desired.Keys && hits.Keys !! misses
      invariant forall rid :: rid in desired.Keys - rest ==>
                  (rid in hits <==> IsHit(rid, desired[rid], existing.entries, outputExists))
      invariant forall rid :: rid in hits ==> rid in existing.entries && hits[rid] == existing.entries[rid]
      decreases rest
    {
      var rid :| rid in rest;
      rest := rest - {rid};
      if rid !in existing.entries || !InputsMatch(existing.entries[rid], desired[rid]) {
        misses := misses + {rid};
        continue;
      }
      if !outputExists(rid, existing.entries[rid].output) {
        misses := misses + {rid};
        continue;
      }
      hits := hits[rid := existing.entries[rid]];
    }
  }

  // ---- The context of one build --------------------------------------------

  /** `None` is a map that is missing or cannot be read. */
  function LoadMap(stored: Option<StateMap>, serverId: string): StateMap {
    match stored
    case Some(m) =>
      if m.schemaVersion == SCHEMA_VERSION && m.serverId == serverId then m
      else StateMap(SCHEMA_VERSION, serverId, map[])
    case None => StateMap(SCHEMA_VERSION, serverId, map[])
  }

  predicate Present(probe: (ResourceId, string) -> Option<nat>, rid: ResourceId, output: string) {
    probe(rid, output).Some?
  }

  class ModelsCacheContext {
    const serverId: string
    const rebuild: bool
    const uploadBlobs: bool
    var production: set<Blob>
    var loaded: StateMap
    var hits: map<ResourceId, Artifact>
    var hitSizes: map<ResourceId, nat>
    var newEntries: map<ResourceId, Artifact>

    constructor (serverId: string, rebuild: bool, uploadBlobs: bool, production: set<Blob>)
      ensures this.serverId == serverId && this.rebuild == rebuild
      ensures this.uploadBlobs == uploadBlobs && this.production == production
      ensures loaded == StateMap(SCHEMA_VERSION, "", map[]) && hits == map[] && hitSizes == map[] && newEntries == map[]
    {
      this.serverId, this.rebuild := serverId, rebuild;
      this.uploadBlobs, this.production := uploadBlobs, production;
      loaded := StateMap(SCHEMA_VERSION, "", map[]);
      hits, hitSizes, newEntries := map[], map[], map[];
    }

    method Load(stored: Option<StateMap>)
      modifies this`loaded
      ensures loaded == if rebuild then StateMap(SCHEMA_VERSION, serverId, map[]) else LoadMap(stored, serverId)
    {
      loaded := if rebuild then StateMap(SCHEMA_VERSION, serverId, map[]) else LoadMap(stored, serverId);
    }

    /** Pre-filters on inputs, then asks the store for the remaining outputs'
        sizes, in whatever order the workers take them. */
    method Partition(desired: map<ResourceId, ModelInputs>, probe: (ResourceId, string) -> Option<nat>)
      returns (found: map<ResourceId, Artifact>, misses: set<ResourceId>)
      modifies this`hits, this`hitSizes
      ensures found == hits ==
              Hits(desired, if rebuild then map[] else loaded.entries, (rid, output) => Present(probe, rid, output))
      ensures misses == desired.Keys - hits.Keys
      ensures hitSizes.Keys == hits.Keys
      ensures forall rid :: rid in hits ==> probe(rid, hits[rid].output) == Some(hitSizes[rid])
    {
      var entries := if rebuild then map[] else loaded.entries;
      var preHits := map rid | rid in desired && rid in entries && InputsMatch(entries[rid], desired[rid]) ::
          entries[rid];
      var sizes: map<ResourceId, nat> := map[];
      var rest := preHits.Keys;
      while rest != {}
        invariant rest <= preHits.Keys
        invariant forall rid :: rid in sizes <==>
                    rid in preHits && rid !in rest && probe(rid, preHits[rid].output).Some?
        invariant forall rid :: rid in sizes ==> probe(rid, preHits[rid].output) == Some(sizes[rid])
        decreases rest
      {
        var rid :| rid in rest;
        rest := rest - {rid};
        var size := probe(rid, preHits[rid].output);
        if size.Some? {
          sizes := sizes[rid := size.value];
        }
      }
      hits := map rid | rid in preHits && rid in sizes :: preHits[rid];
      hitSizes := sizes;
      found, misses := hits, desired.Keys - hits.Keys;
    }

    method HitReference(rid: ResourceId) returns (r: Reference)
      requires rid in hits && rid in hitSizes
      ensures r == Reference(hits[rid].output, hitSizes[rid])
    {
      r := Reference(hits[rid].output, hitSizes[rid]);
    }

    /** Records a fresh conversion, and uploads its output when it is not there. */
    method RecordConversion(rid: ResourceId, inputs: ModelInputs, output: string)
      modifies this`newEntries, this`production
      ensures newEntries == old(newEntries)[rid := EntryFor(inputs, output)]
      ensures production == old(production) + if uploadBlobs then {Blob(rid, output)} else {}
    {
      if uploadBlobs && Blob(rid, output) !in production {
        production := production + {Blob(rid, output)};
      }
      newEntries := newEntries[rid := EntryFor(inputs, output)];
    }

    method RecordHit(rid: ResourceId)
      modifies this`newEntries
      ensures newEntries == if rid in hits then old(newEntries)[rid := hits[rid]] else old(newEntries)
    {
      if rid in hits {
        newEntries := newEntries[rid := hits[rid]];
      }
    }

    method Save() returns (saved: StateMap)
      ensures saved == StateMap(SCHEMA_VERSION, serverId, newEntries)
    {
      saved := StateMap(SCHEMA_VERSION, serverId, newEntries);
    }
  }

  // ---- One build -----------------------------------------------------------

  /** The stored map, and the blobs of the production store. */
  datatype World = World(stored: Option<StateMap>, production: set<Blob>)

  /** The inputs of a DNA, and whether all of them could be hashed. */
  datatype Source = Source(inputs: ModelInputs, hashable: bool)

  /** What converting a DNA gives: the whole output, one with textures missing,
      or nothing. */
  datatype Conversion = Whole | Degraded(content: string) | Failed

  /** One build: the DNA of each ship, the DNAs' sources, what their conversions
      would give, the probes that fail, and whether outputs and map are uploaded. */
  datatype Build = Build(
    ships: map<int, string>, sources: string -> Source, outcome: (string, Variant) -> Conversion,
    rebuild: bool, failing: set<ResourceId>, uploadBlobs: bool, uploadMap: bool)

  /** What all builds share: the server, the converter, and the size of content. */
  datatype Setting = Setting(serverId: string, convert: Converter, sizeOf: string -> nat)

  function Models(b: Build): (m: set<ResourceId>)
    ensures forall rid: ResourceId :: rid in m <==> rid.ship in b.ships
  {
    var full, base := set s | s in b.ships :: ShipModel(s, Full), set s | s in b.ships :: ShipModel(s, Base);
    assert forall rid: ResourceId :: rid.ship in b.ships ==> rid in full + base by {
      forall rid: ResourceId | rid.ship in b.ships
        ensures rid in full + base
      {
        assert if rid.variant.Full? then rid == ShipModel(rid.ship, Full) else rid == ShipModel(rid.ship, Base);
      }
    }
    full + base
  }

  function DnaOf(b: Build, rid: ResourceId): string
    requires rid.ship in b.ships
  {
    b.ships[rid.ship]
  }

  predicate Hashable(b: Build, rid: ResourceId)
    requires rid.ship in b.ships
  {
    b.sources(DnaOf(b, rid)).hashable
  }

  /** The base variant has no textures. */
  function InputsFor(b: Build, rid: ResourceId): ModelInputs
    requires rid.ship in b.ships
  {
    var inputs := b.sources(DnaOf(b, rid)).inputs;
    if rid.variant.Full? then inputs else inputs.(texture := map[])
  }

  function Desired(b: Build): map<ResourceId, ModelInputs> {
    map rid | rid in Models(b) && Hashable(b, rid) :: InputsFor(b, rid)
  }

  function ProbeOf(st: Setting, w: World, b: Build): (ResourceId, string) -> Option<nat> {
    (rid: ResourceId, output: string) =>
      if rid !in b.failing && Blob(rid, output) in w.production then Some(st.sizeOf(output)) else None
  }

  function CachedEntries(st: Setting, w: World, b: Build): map<ResourceId, Artifact> {
    if b.rebuild then map[] else LoadMap(w.stored, st.serverId).entries
  }

  predicate Reusable(st: Setting, w: World, b: Build, rid: ResourceId) {
    var entries := CachedEntries(st, w, b);
    && rid.ship in b.ships && Hashable(b, rid) && rid in entries && InputsMatch(entries[rid], InputsFor(b, rid))
    && rid !in b.failing && Blob(rid, entries[rid].output) in w.production
  }

  /** The models of all ships that share the model's DNA. */
  function Aliases(b: Build, rid: ResourceId): set<ResourceId>
    requires rid.ship in b.ships
  {
    set other | other in Models(b) && other.variant == rid.variant && DnaOf(b, other) == DnaOf(b, rid)
  }

  /** A DNA hits only when every alias of it does. */
  predicate Hit(st: Setting, w: World, b: Build, rid: ResourceId)
    requires rid.ship in b.ships
  {
    Reusable(st, w, b, rid) && forall other :: other in Aliases(b, rid) ==> Reusable(st, w, b, other)
  }

  function Converted(st: Setting, b: Build, rid: ResourceId): string
    requires rid.ship in b.ships
  {
    st.convert(rid.variant, InputsFor(b, rid))
  }

  /** What the model is in the end: the cached output of a hit, else what the
      conversion of its DNA gives, copied to every alias. */
  function ContentOf(st: Setting, w: World, b: Build, rid: ResourceId): Option<string>
    requires rid.ship in b.ships
  {
    if Hit(st, w, b, rid) then Some(CachedEntries(st, w, b)[rid].output)
    else match b.outcome(DnaOf(b, rid), rid.variant)
      case Whole => Some(Converted(st, b, rid))
      case Degraded(content) => Some(content)
      case Failed => None
  }

  /** The index of a build: references for hits, files for conversions. */
  function Index(st: Setting, w: World, b: Build): map<ResourceId, Reference> {
    map rid | rid in Models(b) && ContentOf(st, w, b, rid).Some? ::
      Reference(ContentOf(st, w, b, rid).value, st.sizeOf(ContentOf(st, w, b, rid).value))
  }

  /** Conversions that are recorded: whole ones of inputs that could be hashed. */
  predicate IsRecorded(st: Setting, w: World, b: Build, rid: ResourceId)
    requires rid.ship in b.ships
  {
    !Hit(st, w, b, rid) && b.outcome(DnaOf(b, rid), rid.variant).Whole? && Hashable(b, rid)
  }

  /** The map a build saves. */
  function SavedEntries(st: Setting, w: World, b: Build): map<ResourceId, Artifact> {
    map rid | rid in Models(b) && (Hit(st, w, b, rid) || IsRecorded(st, w, b, rid)) ::
      if Hit(st, w, b, rid) then CachedEntries(st, w, b)[rid] else EntryFor(InputsFor(b, rid), Converted(st, b, rid))
  }

  function Uploads(st: Setting, w: World, b: Build, among: set<ResourceId>): set<Blob> {
    if b.uploadBlobs
    then set rid | rid in Models(b) && rid in among && IsRecorded(st, w, b, rid) :: Blob(rid, Converted(st, b, rid))
    else {}
  }

  function AfterBuild(st: Setting, w: World, b: Build): World {
    World(if b.uploadMap then Some(StateMap(SCHEMA_VERSION, st.serverId, SavedEntries(st, w, b))) else w.stored,
          w.production + Uploads(st, w, b, Models(b)))
  }

  // ---- Running it ----------------------------------------------------------

  ghost function Within<V>(m: map<ResourceId, V>, among: set<ResourceId>): map<ResourceId, V> {
    map rid | rid in m && rid in among :: m[rid]
  }

  lemma WithinOneMore<V>(m: map<ResourceId, V>, among: set<ResourceId>, rid: ResourceId)
    ensures Within(m, among + {rid}) == if rid in m then Within(m, among)[rid := m[rid]] else Within(m, among)
  {
  }

  lemma WithinAll<V>(m: map<ResourceId, V>, among: set<ResourceId>)
    requires m.Keys <= among
    ensures Within(m, among) == m
  {
  }

  /** The desired inputs: every ship in both variants, when its DNA has hashes. */
  method GatherDesired(b: Build) returns (desired: map<ResourceId, ModelInputs>)
    ensures desired == Desired(b)
  {
    desired := map[];
    ghost var done: set<ResourceId> := {};
    var rest := Models(b);
    while rest != {}
      invariant done + rest == Models(b) && desired == Within(Desired(b), done)
      decreases rest
    {
      var rid :| rid in rest;
      rest := rest - {rid};
      WithinOneMore(Desired(b), done, rid);
      done := done + {rid};
      if Hashable(b, rid) {
        desired := desired[rid := InputsFor(b, rid)];
      }
    }
    WithinAll(Desired(b), done);
  }

  /** The context after partitioning: its hits are what can be reused. */
  ghost predicate Partitioned(
    st: Setting, w: World, b: Build, hits: map<ResourceId, Artifact>, sizes: map<ResourceId, nat>)
  {
    && hits.Keys == sizes.Keys
    && forall rid: ResourceId :: rid.ship in b.ships ==>
         && (rid in hits <==> Reusable(st, w, b, rid))
         && (rid in hits ==> hits[rid] == CachedEntries(st, w, b)[rid] && sizes[rid] == st.sizeOf(hits[rid].output))
  }

  /** Whether every alias of the model's DNA was found. */
  method DnaHits(b: Build, rid: ResourceId, hits: map<ResourceId, Artifact>) returns (all: bool)
    requires rid.ship in b.ships
    ensures all == forall other :: other in Aliases(b, rid) ==> other in hits
  {
    all := true;
    var rest := Aliases(b, rid);
    while rest != {}
      invariant rest <= Aliases(b, rid)
      invariant all == forall other :: other in Aliases(b, rid) - rest ==> other in hits
      decreases rest
    {
      var other :| other in rest;
      rest := rest - {other};
      all := all && other in hits;
    }
  }

  lemma HitsAreAliases(
    st: Setting, w: World, b: Build, rid: ResourceId, hits: map<ResourceId, Artifact>, sizes: map<ResourceId, nat>)
    requires rid.ship in b.ships && Partitioned(st, w, b, hits, sizes)
    ensures Hit(st, w, b, rid) <==> forall other :: other in Aliases(b, rid) ==> other in hits
  {
    assert rid in Aliases(b, rid);
  }

  /** One model: referenced in place, or converted. */
  method Produce(
    cache: ModelsCacheContext, st: Setting, ghost w: World, b: Build, rid: ResourceId,
    index: map<ResourceId, Reference>)
    returns (next: map<ResourceId, Reference>)
    requires rid.ship in b.ships && Partitioned(st, w, b, cache.hits, cache.hitSizes)
             && cache.uploadBlobs == b.uploadBlobs
    modifies cache`newEntries, cache`production
    ensures next == if rid in Index(st, w, b) then index[rid := Index(st, w, b)[rid]] else index
    ensures cache.newEntries ==
            if rid in SavedEntries(st, w, b) then old(cache.newEntries)[rid := SavedEntries(st, w, b)[rid]]
            else old(cache.newEntries)
    ensures cache.production == old(cache.production) + Uploads(st, w, b, {rid})
  {
    var hit := DnaHits(b, rid, cache.hits);
    HitsAreAliases(st, w, b, rid, cache.hits, cache.hitSizes);
    if hit {
      var reference := cache.HitReference(rid);
      next := index[rid := reference];
      cache.RecordHit(rid);
      assert Uploads(st, w, b, {rid}) == {};
    } else {
      next := Convert(cache, st, w, b, rid, index);
    }
  }

  /** A model whose DNA did not hit: a file, unless its conversion failed, and
      recorded when whole and hashable. */
  method Convert(
    cache: ModelsCacheContext, st: Setting, ghost w: World, b: Build, rid: ResourceId,
    index: map<ResourceId, Reference>)
    returns (next: map<ResourceId, Reference>)
    requires rid.ship in b.ships && !Hit(st, w, b, rid) && cache.uploadBlobs == b.uploadBlobs
    modifies cache`newEntries, cache`production
    ensures next == if rid in Index(st, w, b) then index[rid := Index(st, w, b)[rid]] else index
    ensures cache.newEntries ==
            if rid in SavedEntries(st, w, b) then old(cache.newEntries)[rid := SavedEntries(st, w, b)[rid]]
            else old(cache.newEntries)
    ensures cache.production == old(cache.production) + Uploads(st, w, b, {rid})
  {
    next := index;
    match b.outcome(DnaOf(b, rid), rid.variant)
    case Failed =>
    case Degraded(content) => next := index[rid := Reference(content, st.sizeOf(content))];
    case Whole =>
      var output := Converted(st, b, rid);
      next := index[rid := Reference(output, st.sizeOf(output))];
      if Hashable(b, rid) {
        cache.RecordConversion(rid, InputsFor(b, rid), output);
      }
  }

  lemma UploadsOneMore(st: Setting, w: World, b: Build, among: set<ResourceId>, rid: ResourceId)
    ensures Uploads(st, w, b, among + {rid}) == Uploads(st, w, b, among) + Uploads(st, w, b, {rid})
  {
  }

  /** The index, the new entries and the store once the models in `done` are through. */
  ghost predicate Produced(
    st: Setting, w: World, b: Build, done: set<ResourceId>,
    index: map<ResourceId, Reference>, entries: map<ResourceId, Artifact>, production: set<Blob>)
  {
    && index == Within(Index(st, w, b), done)
    && entries == Within(SavedEntries(st, w, b), done)
    && production == w.production + Uploads(st, w, b, done)
  }

  method ProduceNext(
    cache: ModelsCacheContext, st: Setting, ghost w: World, b: Build, rid: ResourceId,
    index: map<ResourceId, Reference>,
    ghost done: set<ResourceId>)
    returns (next: map<ResourceId, Reference>)
    requires rid.ship in b.ships && Partitioned(st, w, b, cache.hits, cache.hitSizes)
             && cache.uploadBlobs == b.uploadBlobs
    requires Produced(st, w, b, done, index, cache.newEntries, cache.production)
    modifies cache`newEntries, cache`production
    ensures Produced(st, w, b, done + {rid}, next, cache.newEntries, cache.production)
  {
    WithinOneMore(Index(st, w, b), done, rid);
    WithinOneMore(SavedEntries(st, w, b), done, rid);
    UploadsOneMore(st, w, b, done, rid);
    next := Produce(cache, st, w, b, rid, index);
  }

  method ProduceAll(cache: ModelsCacheContext, st: Setting, ghost w: World, b: Build)
    returns (index: map<ResourceId, Reference>)
    requires Partitioned(st, w, b, cache.hits, cache.hitSizes) && cache.newEntries == map[]
    requires cache.uploadBlobs == b.uploadBlobs && cache.production == w.production
    modifies cache`newEntries, cache`production
    ensures index == Index(st, w, b) && cache.newEntries == SavedEntries(st, w, b)
    ensures cache.production == w.production + Uploads(st, w, b, Models(b))
  {
    ghost var done: set<ResourceId> := {};
    index := map[];
    var rest := Models(b);
    while rest != {}
      invariant done + rest == Models(b)
      invariant Produced(st, w, b, done, index, cache.newEntries, cache.production)
      decreases rest
    {
      var rid :| rid in rest;
      rest := rest - {rid};
      index := ProduceNext(cache, st, w, b, rid, index, done);
      done := done + {rid};
    }
    WithinAll(Index(st, w, b), done);
    WithinAll(SavedEntries(st, w, b), done);
  }

  method RunBuild(st: Setting, w: World, b: Build) returns (next: World, index: map<ResourceId, Reference>)
    ensures next == AfterBuild(st, w, b) && index == Index(st, w, b)
  {
    var cache := new ModelsCacheContext(st.serverId, b.rebuild, b.uploadBlobs, w.production);
    cache.Load(w.stored);
    var desired := GatherDesired(b);
    var hits, misses := cache.Partition(desired, ProbeOf(st, w, b));
    index := ProduceAll(cache, st, w, b);
    var saved := cache.Save();
    next := World(if b.uploadMap then Some(saved) else w.stored, cache.production);
  }

  // ---- A warm build is a cold build ----------------------------------------

  /** Every entry records what converting its inputs gives. */
  ghost predicate MapSound(st: Setting, w: World) {
    w.stored.Some? ==>
      forall rid :: rid in w.stored.value.entries ==>
        w.stored.value.entries[rid].output == st.convert(rid.variant, InputsOf(w.stored.value.entries[rid]))
  }

  function FileOf(st: Setting, b: Build, rid: ResourceId): Reference
    requires rid.ship in b.ships
  {
    Reference(Converted(st, b, rid), st.sizeOf(Converted(st, b, rid)))
  }

  /** From a sound map a hit is the output that converting would give, and it
      is in the store. */
  lemma HitIsConverted(st: Setting, w: World, b: Build, rid: ResourceId)
    requires MapSound(st, w) && rid.ship in b.ships && Hit(st, w, b, rid)
    ensures ContentOf(st, w, b, rid) == Some(Converted(st, b, rid))
    ensures Blob(rid, Converted(st, b, rid)) in w.production
  {
    assert rid in Aliases(b, rid) && Reusable(st, w, b, rid);
    assert InputsOf(CachedEntries(st, w, b)[rid]) == InputsFor(b, rid);
  }

  /** When nothing is cached every model is what its conversion gives. */
  function ColdContent(st: Setting, b: Build, rid: ResourceId): Option<string>
    requires rid.ship in b.ships
  {
    match b.outcome(DnaOf(b, rid), rid.variant)
    case Whole => Some(Converted(st, b, rid))
    case Degraded(content) => Some(content)
    case Failed => None
  }

  lemma ColdIsConverted(st: Setting, w: World, b: Build, rid: ResourceId)
    requires b.rebuild && rid.ship in b.ships
    ensures ContentOf(st, w, b, rid) == ColdContent(st, b, rid)
  {
    assert rid in Aliases(b, rid) && !Reusable(st, w, b, rid);
  }

  /** From a sound map, a build has the index of a rebuild of the same ships
      exactly when the conversions it skipped would have given the whole output. */
  lemma IndexIsCold(st: Setting, w: World, b: Build)
    requires MapSound(st, w)
    ensures Index(st, w, b) == Index(st, w, b.(rebuild := true)) <==>
            forall rid :: rid in Models(b) && Hit(st, w, b, rid) ==>
                ColdContent(st, b, rid) == Some(Converted(st, b, rid))
  {
    var cold := b.(rebuild := true);
    assert Models(cold) == Models(b);
    forall rid | rid in Models(b)
      ensures ContentOf(st, w, cold, rid) == ColdContent(st, b, rid)
      ensures ContentOf(st, w, b, rid) ==
              if Hit(st, w, b, rid) then Some(Converted(st, b, rid)) else ColdContent(st, b, rid)
    {
      ColdIsConverted(st, w, cold, rid);
      if Hit(st, w, b, rid) {
        HitIsConverted(st, w, b, rid);
      }
    }
    IndexesAgreeIff(st, w, b, cold);
  }

  lemma IndexesAgreeIff(st: Setting, w: World, b: Build, other: Build)
    requires Models(other) == Models(b)
    ensures Index(st, w, b) == Index(st, w, other) <==>
            forall rid :: rid in Models(b) ==> ContentOf(st, w, b, rid) == ContentOf(st, w, other, rid)
  {
    if Index(st, w, b) == Index(st, w, other) {
      forall rid | rid in Models(b)
        ensures ContentOf(st, w, b, rid) == ContentOf(st, w, other, rid)
      {
        assert rid in Index(st, w, b) <==> rid in Index(st, w, other);
        if rid in Index(st, w, b) {
          assert Index(st, w, b)[rid].content == Index(st, w, other)[rid].content;
        }
      }
    }
  }

  /** From a sound map, when no conversion fails or is degraded, the index has
      every model of every ship, and each is what converting it gives. */
  lemma IndexIsComplete(st: Setting, w: World, b: Build)
    requires MapSound(st, w)
    requires forall rid :: rid in Models(b) && !Hit(st, w, b, rid) ==> b.outcome(DnaOf(b, rid), rid.variant).Whole?
    ensures Index(st, w, b) == map rid | rid in Models(b) :: FileOf(st, b, rid)
  {
    forall rid | rid in Models(b)
      ensures ContentOf(st, w, b, rid) == Some(Converted(st, b, rid))
    {
      if Hit(st, w, b, rid) {
        HitIsConverted(st, w, b, rid);
      }
    }
  }

  /** From a sound map, ships that share a DNA share their models. */
  lemma AliasesAgree(st: Setting, w: World, b: Build, rid: ResourceId, other: ResourceId)
    requires MapSound(st, w) && rid.ship in b.ships && other in Aliases(b, rid)
    ensures ContentOf(st, w, b, rid) == ContentOf(st, w, b, other)
  {
    assert Aliases(b, other) == Aliases(b, rid);
    if Hit(st, w, b, rid) {
      HitIsConverted(st, w, b, rid);
      HitIsConverted(st, w, b, other);
    }
  }

  // ---- Builds one after another --------------------------------------------

  /** After a build that uploads what it records, a build of the same ships from
      the same sources, without failing probes, converts no DNA that has hashes
      and whose conversion was whole. */
  lemma SecondBuildHits(st: Setting, w: World, b: Build, next: Build, rid: ResourceId)
    requires MapSound(st, w) && b.uploadBlobs && b.uploadMap
    requires next.ships == b.ships && next.sources == b.sources && !next.rebuild && next.failing == {}
    requires rid.ship in b.ships && Hashable(b, rid)
    requires !Hit(st, w, b, rid) ==> b.outcome(DnaOf(b, rid), rid.variant).Whole?
    ensures rid.ship in next.ships && Hit(st, AfterBuild(st, w, b), next, rid)
  {
    var after := AfterBuild(st, w, b);
    assert Models(next) == Models(b);
    forall other | other in Aliases(next, rid)
      ensures Reusable(st, after, next, other)
    {
      assert other in Aliases(b, rid) && Aliases(b, other) == Aliases(b, rid);
      if Hit(st, w, b, other) {
        HitIsConverted(st, w, b, other);
        assert Reusable(st, w, b, other);
      } else {
        assert IsRecorded(st, w, b, other);
        assert Blob(other, Converted(st, b, other)) in Uploads(st, w, b, Models(b));
      }
      assert other in SavedEntries(st, w, b);
    }
  }

  datatype Event = Built(build: Build) | BlobsDeleted(gone: set<Blob>) | BlobsAdded(more: set<Blob>) | MapLost

  function After(st: Setting, w: World, e: Event): World {
    match e
    case Built(b) => AfterBuild(st, w, b)
    case BlobsDeleted(gone) => w.(production := w.production - gone)
    case BlobsAdded(more) => w.(production := w.production + more)
    case MapLost => w.(stored := None)
  }

  function AfterAll(st: Setting, w: World, events: seq<Event>): World {
    if events == [] then w else After(st, AfterAll(st, w, events[..|events| - 1]), events[|events| - 1])
  }

  /** Over every sequence of builds, rebuilds, deletions from the store and
      losses of the map, the map stays sound. */
  lemma {:induction false} MapStaysSound(st: Setting, w: World, events: seq<Event>)
    requires MapSound(st, w)
    ensures MapSound(st, AfterAll(st, w, events))
  {
    if events != [] {
      var n := |events| - 1;
      MapStaysSound(st, w, events[..n]);
      if events[n].Built? {
        BuildKeepsSound(st, AfterAll(st, w, events[..n]), events[n].build);
      }
    }
  }

  lemma BuildKeepsSound(st: Setting, w: World, b: Build)
    requires MapSound(st, w)
    ensures MapSound(st, AfterBuild(st, w, b))
  {
    var entries := SavedEntries(st, w, b);
    forall rid | rid in entries
      ensures entries[rid].output == st.convert(rid.variant, InputsOf(entries[rid]))
    {
      if Hit(st, w, b, rid) {
        assert Reusable(st, w, b, rid);
      } else {
        assert InputsOf(entries[rid]) == InputsFor(b, rid);
      }
    }
  }
}
