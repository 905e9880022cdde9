/** What a build of the models amounts to, said by its inputs alone. */
module BuildMeaning {
  import opened StoreTypes
  import opened BuildState

  // ---- Inputs --------------------------------------------------------------

  /** What a variant of a ship is converted from: its DNA's sources, without
      textures for the base variant. */
  ghost predicate ConvertsFrom(b: Build, rid: ResourceId, inputs: ModelInputs) {
    && rid.ship in b.ships
    && var own := b.sources(b.ships[rid.ship]).inputs;
       && inputs.model == own.model && inputs.dna == own.dna && inputs.sof == own.sof
       && inputs.texture == match rid.variant { case Full => own.texture case Base => map[] }
  }

  /** The map can be used: it is of this server and of the present format, and
      no rebuild was asked for. */
  ghost predicate UsableMap(st: Setting, w: World, b: Build) {
    !b.rebuild && w.stored.Some? && w.stored.value.schemaVersion == 3 && w.stored.value.serverId == st.serverId
  }

  /** The map has an entry with the model's present inputs, whose output is in
      the store and can be probed. */
  ghost predicate Memoized(st: Setting, w: World, b: Build, rid: ResourceId) {
    && UsableMap(st, w, b) && rid in w.stored.value.entries
    && var e := w.stored.value.entries[rid];
       && ConvertsFrom(b, rid, ModelInputs(e.model, e.texture, e.dna, e.sof))
       && rid !in b.failing && Blob(rid, e.output) in w.production
  }

  lemma ReusableIsMemoized(st: Setting, w: World, b: Build, rid: ResourceId)
    requires rid.ship in b.ships
    ensures Reusable(st, w, b, rid) <==> Memoized(st, w, b, rid) && b.sources(b.ships[rid.ship]).hashable
  {
    assert forall inputs :: ConvertsFrom(b, rid, inputs) <==> inputs == InputsFor(b, rid);
  }

  /** A model is taken from the memo exactly when the sources of its DNA could
      be hashed and every ship with that DNA is memoized in the variant. */
  lemma HitIff(st: Setting, w: World, b: Build, rid: ResourceId)
    requires rid.ship in b.ships
    ensures Hit(st, w, b, rid) <==>
            && b.sources(b.ships[rid.ship]).hashable
            && forall ship :: ship in b.ships && b.ships[ship] == b.ships[rid.ship] ==>
                 Memoized(st, w, b, ShipModel(ship, rid.variant))
  {
    forall other | other in Aliases(b, rid)
      ensures Reusable(st, w, b, other) <==>
              Memoized(st, w, b, other) && b.sources(b.ships[rid.ship]).hashable
    {
      ReusableIsMemoized(st, w, b, other);
    }
    assert rid in Aliases(b, rid);
    forall ship | ship in b.ships && b.ships[ship] == b.ships[rid.ship]
      ensures ShipModel(ship, rid.variant) in Aliases(b, rid)
    {
    }
    forall other | other in Aliases(b, rid)
      ensures other == ShipModel(other.ship, rid.variant) && b.ships[other.ship] == b.ships[rid.ship]
    {
    }
  }

  // ---- Outputs -------------------------------------------------------------

  /** The model's content: the memoized output of a hit, else what its
      conversion gives. */
  ghost predicate Becomes(st: Setting, w: World, b: Build, rid: ResourceId, content: string) {
    && rid.ship in b.ships
    && if Hit(st, w, b, rid)
       then w.stored.Some? && rid in w.stored.value.entries && content == w.stored.value.entries[rid].output
       else match b.outcome(b.ships[rid.ship], rid.variant)
         case Whole => exists inputs :: ConvertsFrom(b, rid, inputs) && content == st.convert(rid.variant, inputs)
         case Degraded(partial) => content == partial
         case Failed => false
  }

  lemma InputsAre(b: Build, rid: ResourceId)
    requires rid.ship in b.ships
    ensures forall inputs :: ConvertsFrom(b, rid, inputs) <==> inputs == InputsFor(b, rid)
  {
  }

  lemma HitIsStored(st: Setting, w: World, b: Build, rid: ResourceId)
    requires rid.ship in b.ships && Hit(st, w, b, rid)
    ensures w.stored.Some? && rid in w.stored.value.entries
    ensures CachedEntries(st, w, b) == w.stored.value.entries && Memoized(st, w, b, rid)
  {
    HitIff(st, w, b, rid);
  }

  /** The index lists exactly the models that have a content, with its size. */
  lemma IndexMeans(st: Setting, w: World, b: Build, rid: ResourceId)
    ensures rid in Index(st, w, b) <==> exists content :: Becomes(st, w, b, rid, content)
    ensures rid in Index(st, w, b) ==>
              var r := Index(st, w, b)[rid];
              Becomes(st, w, b, rid, r.content) && r.size == st.sizeOf(r.content)
  {
    if rid.ship in b.ships {
      InputsAre(b, rid);
      if Hit(st, w, b, rid) {
        HitIsStored(st, w, b, rid);
      }
      forall content
        ensures Becomes(st, w, b, rid, content) <==> ContentOf(st, w, b, rid) == Some(content)
      {
      }
    }
  }

  /** The conversion is recorded: it was whole, and of sources with hashes. */
  ghost predicate Memoizes(st: Setting, w: World, b: Build, rid: ResourceId) {
    && rid.ship in b.ships && !Hit(st, w, b, rid) && b.sources(b.ships[rid.ship]).hashable
    && b.outcome(b.ships[rid.ship], rid.variant) == Whole
  }

  /** An uploaded map is of this server and of the present format; it carries
      over the entries of hits, and has the inputs and the output of every whole
      conversion of sources with hashes, and nothing else. */
  lemma MapMeans(st: Setting, w: World, b: Build, rid: ResourceId)
    requires b.uploadMap
    ensures var saved := AfterBuild(st, w, b).stored;
            && saved.Some? && saved.value.schemaVersion == 3 && saved.value.serverId == st.serverId
            && (rid in saved.value.entries <==> rid.ship in b.ships && (Hit(st, w, b, rid) || Memoizes(st, w, b, rid)))
            && (rid in saved.value.entries ==>
                  var e := saved.value.entries[rid];
                  && ConvertsFrom(b, rid, ModelInputs(e.model, e.texture, e.dna, e.sof))
                  && Becomes(st, w, b, rid, e.output))
  {
    if rid.ship in b.ships {
      InputsAre(b, rid);
      if Hit(st, w, b, rid) {
        HitIsStored(st, w, b, rid);
      }
    }
  }

  /** The store gains the recorded outputs when they are uploaded, and nothing
      else; a map that is not uploaded stays as it was. */
  lemma StoreMeans(st: Setting, w: World, b: Build, blob: Blob)
    ensures blob in AfterBuild(st, w, b).production <==>
            || blob in w.production
            || (b.uploadBlobs && Memoizes(st, w, b, blob.rid) && Becomes(st, w, b, blob.rid, blob.content))
    ensures !b.uploadMap ==> AfterBuild(st, w, b).stored == w.stored
  {
    if blob.rid.ship in b.ships {
      InputsAre(b, blob.rid);
    }
  }

  /** A map of another server or format is not used: the build is a rebuild. */
  lemma ForeignMapIgnored(st: Setting, w: World, b: Build)
    requires !UsableMap(st, w, b)
    ensures forall rid: ResourceId :: rid.ship in b.ships ==> !Hit(st, w, b, rid)
    ensures Index(st, w, b) == Index(st, w, b.(rebuild := true))
    ensures AfterBuild(st, w, b) == AfterBuild(st, w, b.(rebuild := true))
  {
    var cold := b.(rebuild := true);
    assert Models(cold) == Models(b);
    forall rid: ResourceId | rid.ship in b.ships
      ensures !Hit(st, w, b, rid) && !Hit(st, w, cold, rid)
    {
      HitIff(st, w, b, rid);
      HitIff(st, w, cold, rid);
    }
    SameOutputs(st, w, b, cold);
  }

  lemma SameOutputs(st: Setting, w: World, b: Build, cold: Build)
    requires cold == b.(rebuild := true) && Models(cold) == Models(b)
    requires forall rid: ResourceId :: rid.ship in b.ships ==> !Hit(st, w, b, rid) && !Hit(st, w, cold, rid)
    ensures Index(st, w, b) == Index(st, w, cold) && AfterBuild(st, w, b) == AfterBuild(st, w, cold)
  {
    forall rid | rid in Models(b)
      ensures ContentOf(st, w, b, rid) == ContentOf(st, w, cold, rid)
      ensures IsRecorded(st, w, b, rid) <==> IsRecorded(st, w, cold, rid)
      ensures InputsFor(b, rid) == InputsFor(cold, rid)
    {
    }
    assert SavedEntries(st, w, b) == SavedEntries(st, w, cold);
    assert Uploads(st, w, b, Models(b)) == Uploads(st, w, cold, Models(b));
  }
}
