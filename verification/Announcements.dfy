/** The announcement workspace: a delta overlay over the remote pages, and the
    construction of the pages to publish. */
module Announcements {
  import opened StoreTypes
  import opened NameOrder

  const ACTIVE := "active"
  const PAGE_SIZE := 20

  // ---- Data ----------------------------------------------------------------

  /** `content` stands for all fields of an entry that nothing here inspects. */
  datatype Entry = Entry(
    id: string, publishedAt: string, minAppVersion: Option<string>, channels: seq<string>, content: string)

  datatype Page = Page(uuid: string, publishedAt: string, entries: seq<Entry>)

  datatype CatalogPage = CatalogPage(
    uuid: string, publishedAt: string, minAppVersion: string, channels: seq<string>, count: nat, active: bool)

  /** `catalog.json`, `active.json` and the files under `pages/`. */
  datatype Workspace = Workspace(catalog: seq<CatalogPage>, active: Option<Page>, pages: map<string, Page>)

  datatype Change = Upsert(entry: Entry) | Remove(gone: string)

  /** Changes by page key, each page's in insertion order. */
  type Overlay = map<string, seq<Change>>

  function Target(c: Change): string {
    if c.Upsert? then c.entry.id else c.gone
  }

  function ChangesFor(overlay: Overlay, key: string): seq<Change> {
    if key in overlay then overlay[key] else []
  }

  // ---- Insertion-ordered dictionaries of entries ---------------------------

  function PositionOf(d: seq<Entry>, id: string): (i: nat)
    ensures i <= |d| && (i < |d| ==> d[i].id == id)
    ensures forall j :: 0 <= j < i ==> d[j].id != id
  {
    if d == [] || d[0].id == id then 0 else 1 + PositionOf(d[1..], id)
  }

  function Stored(d: seq<Entry>, e: Entry): seq<Entry> {
    var i := PositionOf(d, e.id);
    if i < |d| then d[i := e] else d + [e]
  }

  function Dropped(d: seq<Entry>, id: string): seq<Entry> {
    var i := PositionOf(d, id);
    if i < |d| then d[..i] + d[i + 1..] else d
  }

  function EntriesById(entries: seq<Entry>): seq<Entry> {
    if entries == [] then [] else Stored(EntriesById(entries[..|entries| - 1]), entries[|entries| - 1])
  }

  function Changed(d: seq<Entry>, c: Change): seq<Entry> {
    if c.Upsert? then Stored(d, c.entry) else Dropped(d, c.gone)
  }

  function Applied(d: seq<Entry>, changes: seq<Change>): seq<Entry> {
    if changes == [] then d else Changed(Applied(d, changes[..|changes| - 1]), changes[|changes| - 1])
  }

  // ---- Newest first --------------------------------------------------------

  /** A stable descending sort keeps equal keys in their order. */
  function Placed(s: seq<Entry>, e: Entry): seq<Entry> {
    if s == [] then [e]
    else if Less(s[|s| - 1].publishedAt, e.publishedAt) then Placed(s[..|s| - 1], e) + [s[|s| - 1]]
    else s + [e]
  }

  function NewestFirst(entries: seq<Entry>): seq<Entry> {
    if entries == [] then [] else Placed(NewestFirst(entries[..|entries| - 1]), entries[|entries| - 1])
  }

  /** What a page holds once its changes are applied. */
  function Overlaid(entries: seq<Entry>, changes: seq<Change>): seq<Entry> {
    NewestFirst(Applied(EntriesById(entries), changes))
  }

  // ---- Summaries -----------------------------------------------------------

  datatype Summary = Summary(channels: seq<string>, minAppVersion: string)

  function ChannelsOf(entries: seq<Entry>): set<string> {
    set e, c | e in entries && c in e.channels :: c
  }

  /** The first entry version that no other precedes. */
  function LowestVersion(entries: seq<Entry>, before: (string, string) -> bool): string
    requires entries != [] && forall e :: e in entries ==> e.minAppVersion.Some?
  {
    var last := entries[|entries| - 1].minAppVersion.value;
    if |entries| == 1 then last
    else
      var best := LowestVersion(entries[..|entries| - 1], before);
      if before(last, best) then last else best
  }

  function SummaryOf(entries: seq<Entry>, before: (string, string) -> bool): Summary {
    Summary(Sorted(ChannelsOf(entries)),
            if entries == [] || exists e :: e in entries && e.minAppVersion.None? then "0.0.0"
            else LowestVersion(entries, before))
  }

  function Summarised(p: CatalogPage, entries: seq<Entry>, before: (string, string) -> bool): CatalogPage {
    var s := SummaryOf(entries, before);
    p.(channels := s.channels, minAppVersion := s.minAppVersion, count := |entries|)
  }

  function Listed(
    uuid: string, now: string, active: bool, entries: seq<Entry>, before: (string, string) -> bool): CatalogPage
  {
    var s := SummaryOf(entries, before);
    CatalogPage(uuid, now, s.minAppVersion, s.channels, |entries|, active)
  }

  // ---- Building the workspace to publish -----------------------------------

  function ActiveUuid(catalog: seq<CatalogPage>): Option<string> {
    if catalog == [] then None
    else if catalog[0].active then Some(catalog[0].uuid)
    else ActiveUuid(catalog[1..])
  }

  /** The archived pages among `keys` that the overlay changes. */
  predicate Edited(overlay: Overlay, ws: Workspace, keys: set<string>, key: string) {
    key in keys && key in overlay && key != ACTIVE && key in ws.pages
  }

  function EditedEntries(overlay: Overlay, ws: Workspace, key: string): seq<Entry>
    requires key in ws.pages
  {
    Overlaid(ws.pages[key].entries, ChangesFor(overlay, key))
  }

  /** Those pages with their changes, and their catalog entries refreshed. */
  function WithEdits(ws: Workspace, overlay: Overlay, keys: set<string>, before: (string, string) -> bool): Workspace {
    ws.(pages := map k | k in ws.pages ::
          if Edited(overlay, ws, keys, k) then ws.pages[k].(entries := EditedEntries(overlay, ws, k)) else ws.pages[k],
        catalog := seq(|ws.catalog|, i requires 0 <= i < |ws.catalog| =>
          var p := ws.catalog[i];
          if Edited(overlay, ws, keys, p.uuid) then Summarised(p, EditedEntries(overlay, ws, p.uuid), before) else p))
  }

  function Without(catalog: seq<CatalogPage>, uuid: string): seq<CatalogPage> {
    if catalog == [] then []
    else
      var p := catalog[|catalog| - 1];
      Without(catalog[..|catalog| - 1], uuid) + if p.uuid == uuid then [] else [p]
  }

  function Archived(
    ws: Workspace, uuid: string, now: string, entries: seq<Entry>, before: (string, string) -> bool): Workspace
  {
    ws.(pages := ws.pages[uuid := Page(uuid, now, entries)],
        catalog := ws.catalog + [Listed(uuid, now, false, entries, before)])
  }

  function Activated(
    ws: Workspace, uuid: string, now: string, entries: seq<Entry>, before: (string, string) -> bool): Workspace
  {
    ws.(active := Some(Page(uuid, now, entries)),
        catalog := ws.catalog + [Listed(uuid, now, true, entries, before)])
  }

  /** Full pages leave from the front; what is left becomes the active page.
      `newUuid(k)` is the k-th new uuid. */
  function Rotated(
    ws: Workspace, entries: seq<Entry>, newUuid: nat -> string, k: nat, now: string,
    before: (string, string) -> bool): Workspace
    decreases |entries|
  {
    if |entries| < PAGE_SIZE then Activated(ws, newUuid(k), now, entries, before)
    else Rotated(Archived(ws, newUuid(k), now, entries[..PAGE_SIZE], before), entries[PAGE_SIZE..], newUuid, k + 1, now,
                 before)
  }

  function Refreshed(
    catalog: seq<CatalogPage>, uuid: string, entries: seq<Entry>, before: (string, string) -> bool): seq<CatalogPage>
  {
    seq(|catalog|, i requires 0 <= i < |catalog| =>
      if catalog[i].uuid == uuid then Summarised(catalog[i], entries, before) else catalog[i])
  }

  function Updated(ws: Workspace, uuid: string, entries: seq<Entry>, before: (string, string) -> bool): Workspace
    requires ws.active.Some?
  {
    ws.(active := Some(ws.active.value.(entries := entries)), catalog := Refreshed(ws.catalog, uuid, entries, before))
  }

  datatype Built = Ready(ws: Workspace) | NoActivePage | ActiveFileMissing

  function Build(
    remote: Workspace, overlay: Overlay, newUuid: nat -> string, now: string, before: (string, string) -> bool): Built
  {
    var uuid := ActiveUuid(remote.catalog);
    if uuid.None? then NoActivePage
    else if remote.active.None? then ActiveFileMissing
    else
      var edited := WithEdits(remote, overlay, overlay.Keys, before);
      var entries := Overlaid(edited.active.value.entries, ChangesFor(overlay, ACTIVE));
      if |entries| < PAGE_SIZE then Ready(Updated(edited, uuid.value, entries, before))
      else
        var cleared := edited.(catalog := Without(edited.catalog, uuid.value), pages := edited.pages - {uuid.value});
        Ready(Rotated(cleared, entries, newUuid, 0, now, before))
  }

  // ---- The workspace -------------------------------------------------------

  /** Pages are filed under their uuid, and the catalog lists none twice. */
  ghost predicate Filed(ws: Workspace) {
    && (forall k :: k in ws.pages ==> ws.pages[k].uuid == k)
    && DistinctUuids(ws.catalog)
  }

  ghost predicate DistinctUuids(catalog: seq<CatalogPage>) {
    forall i, j :: 0 <= i < j < |catalog| ==> catalog[i].uuid != catalog[j].uuid
  }

  // ---- Overlay edits -------------------------------------------------------

  function Recording(changes: seq<Change>, id: string): (i: nat)
    ensures i <= |changes| && (i < |changes| ==> Target(changes[i]) == id)
    ensures forall j :: 0 <= j < i ==> Target(changes[j]) != id
  {
    if changes == [] || Target(changes[0]) == id then 0 else 1 + Recording(changes[1..], id)
  }

  function WithChange(changes: seq<Change>, c: Change): seq<Change> {
    var i := Recording(changes, Target(c));
    if i < |changes| then changes[i := c] else changes + [c]
  }

  function Upserted(overlay: Overlay, key: string, entry: Entry): Overlay {
    overlay[key := WithChange(ChangesFor(overlay, key), Upsert(entry))]
  }

  function Removed(overlay: Overlay, id: string): Overlay {
    var changes := ChangesFor(overlay, ACTIVE);
    var i := Recording(changes, id);
    overlay[ACTIVE := if i < |changes| && changes[i].Upsert? then Forgotten(changes, i)
                      else WithChange(changes, Remove(id))]
  }

  // ---- What edits mean -----------------------------------------------------

  /** Entries by id under changes; the last change of an id counts. */
  ghost function Overridden(m: map<string, Entry>, changes: seq<Change>): map<string, Entry> {
    if changes == [] then m
    else
      var earlier, c := Overridden(m, changes[..|changes| - 1]), changes[|changes| - 1];
      if c.Upsert? then earlier[c.entry.id := c.entry] else earlier - {c.gone}
  }

  /** A page's changes are a dictionary: no id has two. */
  ghost predicate DistinctTargets(changes: seq<Change>) {
    forall i, j :: 0 <= i < j < |changes| ==> Target(changes[i]) != Target(changes[j])
  }

  ghost predicate OverlayOk(overlay: Overlay) {
    forall key :: key in overlay ==> DistinctTargets(overlay[key])
  }

  ghost predicate Untargeted(changes: seq<Change>, id: string) {
    forall j :: 0 <= j < |changes| ==> Target(changes[j]) != id
  }

  lemma {:induction false} OverriddenBy(m: map<string, Entry>, changes: seq<Change>, j: nat)
    requires DistinctTargets(changes) && j < |changes|
    ensures var r, id := Overridden(m, changes), Target(changes[j]);
            if changes[j].Upsert? then id in r && r[id] == changes[j].entry else id !in r
  {
    if j < |changes| - 1 {
      assert changes[..|changes| - 1][j] == changes[j];
      OverriddenBy(m, changes[..|changes| - 1], j);
    }
  }

  lemma {:induction false} OverriddenElsewhere(m: map<string, Entry>, changes: seq<Change>, id: string)
    requires Untargeted(changes, id)
    ensures id in Overridden(m, changes) <==> id in m
    ensures id in m ==> Overridden(m, changes)[id] == m[id]
  {
    if changes != [] {
      OverriddenElsewhere(m, changes[..|changes| - 1], id);
    }
  }

  /** One more change of a page overrides its entry, or removes it. */
  ghost function ChangedMap(r: map<string, Entry>, c: Change): map<string, Entry> {
    if c.Upsert? then r[c.entry.id := c.entry] else r - {c.gone}
  }

  ghost predicate SameAt(a: map<string, Entry>, b: map<string, Entry>, id: string) {
    (id in a <==> id in b) && (id in a ==> a[id] == b[id])
  }

  lemma SameMap(a: map<string, Entry>, b: map<string, Entry>)
    requires forall id {:trigger SameAt(a, b, id)} :: SameAt(a, b, id)
    ensures a == b
  {
    forall id
      ensures id in a <==> id in b
      ensures id in a && id in b ==> a[id] == b[id]
    {
      assert SameAt(a, b, id);
    }
  }

  lemma WithChangeDistinct(changes: seq<Change>, c: Change)
    requires DistinctTargets(changes)
    ensures DistinctTargets(WithChange(changes, c))
  {
    var after := WithChange(changes, c);
    assert forall j :: 0 <= j < |changes| ==> Target(after[j]) == Target(changes[j]);
  }

  lemma ChangeOverridesAt(m: map<string, Entry>, changes: seq<Change>, c: Change, id: string)
    requires DistinctTargets(changes) && DistinctTargets(WithChange(changes, c))
    ensures SameAt(Overridden(m, WithChange(changes, c)), ChangedMap(Overridden(m, changes), c), id)
  {
    var i, after := Recording(changes, Target(c)), WithChange(changes, c);
    if id == Target(c) {
      OverriddenBy(m, after, i);
    } else if Untargeted(changes, id) {
      assert Untargeted(after, id);
      OverriddenElsewhere(m, changes, id);
      OverriddenElsewhere(m, after, id);
    } else {
      var j: nat :| j < |changes| && Target(changes[j]) == id;
      assert after[j] == changes[j];
      OverriddenBy(m, changes, j);
      OverriddenBy(m, after, j);
    }
  }

  lemma ChangeOverrides(m: map<string, Entry>, changes: seq<Change>, c: Change)
    requires DistinctTargets(changes)
    ensures DistinctTargets(WithChange(changes, c))
    ensures Overridden(m, WithChange(changes, c)) == ChangedMap(Overridden(m, changes), c)
  {
    WithChangeDistinct(changes, c);
    forall id
      ensures SameAt(Overridden(m, WithChange(changes, c)), ChangedMap(Overridden(m, changes), c), id)
    {
      ChangeOverridesAt(m, changes, c, id);
    }
    SameMap(Overridden(m, WithChange(changes, c)), ChangedMap(Overridden(m, changes), c));
  }

  function Forgotten(changes: seq<Change>, i: nat): seq<Change>
    requires i < |changes|
  {
    changes[..i] + changes[i + 1..]
  }

  /** Without its change an entry is again what it was. */
  ghost function Restored(r: map<string, Entry>, m: map<string, Entry>, id: string): map<string, Entry> {
    if id in m then r[id := m[id]] else r - {id}
  }

  lemma ForgottenDistinct(changes: seq<Change>, i: nat)
    requires DistinctTargets(changes) && i < |changes|
    ensures DistinctTargets(Forgotten(changes, i)) && Untargeted(Forgotten(changes, i), Target(changes[i]))
    ensures forall id :: Untargeted(changes, id) ==> Untargeted(Forgotten(changes, i), id)
  {
    var after := Forgotten(changes, i);
    assert forall j :: 0 <= j < |after| ==> after[j] == changes[if j < i then j else j + 1];
  }

  lemma ForgottenRestoresAt(m: map<string, Entry>, changes: seq<Change>, i: nat, id: string)
    requires DistinctTargets(changes) && i < |changes|
    ensures SameAt(Overridden(m, Forgotten(changes, i)), Restored(Overridden(m, changes), m, Target(changes[i])), id)
  {
    var after := Forgotten(changes, i);
    ForgottenDistinct(changes, i);
    if id == Target(changes[i]) {
      OverriddenElsewhere(m, after, id);
    } else if Untargeted(changes, id) {
      OverriddenElsewhere(m, changes, id);
      OverriddenElsewhere(m, after, id);
    } else {
      var j: nat :| j < |changes| && Target(changes[j]) == id;
      var k := if j < i then j else j - 1;
      assert after[k] == changes[j];
      OverriddenBy(m, changes, j);
      OverriddenBy(m, after, k);
    }
  }

  lemma ForgottenRestores(m: map<string, Entry>, changes: seq<Change>, i: nat)
    requires DistinctTargets(changes) && i < |changes|
    ensures DistinctTargets(Forgotten(changes, i))
    ensures Overridden(m, Forgotten(changes, i)) == Restored(Overridden(m, changes), m, Target(changes[i]))
  {
    ForgottenDistinct(changes, i);
    forall id
      ensures SameAt(Overridden(m, Forgotten(changes, i)), Restored(Overridden(m, changes), m, Target(changes[i])), id)
    {
      ForgottenRestoresAt(m, changes, i, id);
    }
    SameMap(Overridden(m, Forgotten(changes, i)), Restored(Overridden(m, changes), m, Target(changes[i])));
  }

  /** After an upsert the page has the entry, whatever it had under that id, and
      is otherwise the same; other pages are not touched. */
  lemma UpsertMeans(overlay: Overlay, key: string, entry: Entry, m: map<string, Entry>)
    requires OverlayOk(overlay)
    ensures OverlayOk(Upserted(overlay, key, entry))
    ensures Overridden(m, ChangesFor(Upserted(overlay, key, entry), key)) ==
            Overridden(m, ChangesFor(overlay, key))[entry.id := entry]
    ensures forall k :: k != key ==> ChangesFor(Upserted(overlay, key, entry), k) == ChangesFor(overlay, k)
  {
    ChangeOverrides(m, ChangesFor(overlay, key), Upsert(entry));
  }

  lemma UpsertMeansAlways(overlay: Overlay, key: string, entry: Entry)
    requires OverlayOk(overlay)
    ensures OverlayOk(Upserted(overlay, key, entry))
    ensures forall m :: Overridden(m, ChangesFor(Upserted(overlay, key, entry), key)) ==
                        Overridden(m, ChangesFor(overlay, key))[entry.id := entry]
  {
    UpsertMeans(overlay, key, entry, map[]);
    forall m
      ensures Overridden(m, ChangesFor(Upserted(overlay, key, entry), key)) ==
              Overridden(m, ChangesFor(overlay, key))[entry.id := entry]
    {
      UpsertMeans(overlay, key, entry, m);
    }
  }

  /** The entry of `id` was added or edited in the overlay of the active page. */
  predicate EditedThisSession(overlay: Overlay, id: string) {
    var changes := ChangesFor(overlay, ACTIVE);
    var i := Recording(changes, id);
    i < |changes| && changes[i].Upsert?
  }

  /** A removal of an entry edited this session puts it back to what the remote
      page `m` has; of any other it takes the entry away. */
  lemma RemoveMeans(overlay: Overlay, id: string, m: map<string, Entry>)
    requires OverlayOk(overlay)
    ensures OverlayOk(Removed(overlay, id))
    ensures var before := Overridden(m, ChangesFor(overlay, ACTIVE));
            Overridden(m, ChangesFor(Removed(overlay, id), ACTIVE)) ==
            if EditedThisSession(overlay, id) then Restored(before, m, id) else before - {id}
    ensures forall k :: k != ACTIVE ==> ChangesFor(Removed(overlay, id), k) == ChangesFor(overlay, k)
  {
    var changes := ChangesFor(overlay, ACTIVE);
    if EditedThisSession(overlay, id) {
      ForgottenRestores(m, changes, Recording(changes, id));
    } else {
      ChangeOverrides(m, changes, Remove(id));
    }
  }

  lemma RemoveMeansAlways(overlay: Overlay, id: string)
    requires OverlayOk(overlay)
    ensures OverlayOk(Removed(overlay, id))
    ensures forall m ::
              Overridden(m, ChangesFor(Removed(overlay, id), ACTIVE)) ==
              if EditedThisSession(overlay, id) then Restored(Overridden(m, ChangesFor(overlay, ACTIVE)), m, id)
              else Overridden(m, ChangesFor(overlay, ACTIVE)) - {id}
  {
    RemoveMeans(overlay, id, map[]);
    forall m
      ensures Overridden(m, ChangesFor(Removed(overlay, id), ACTIVE)) ==
              if EditedThisSession(overlay, id) then Restored(Overridden(m, ChangesFor(overlay, ACTIVE)), m, id)
              else Overridden(m, ChangesFor(overlay, ACTIVE)) - {id}
    {
      RemoveMeans(overlay, id, m);
    }
  }

  // ---- Effective ids -------------------------------------------------------

  function IdsAfter(ids: set<string>, changes: seq<Change>): set<string> {
    if changes == [] then ids
    else
      var earlier, c := IdsAfter(ids, changes[..|changes| - 1]), changes[|changes| - 1];
      if c.Upsert? then earlier + {c.entry.id} else earlier - {c.gone}
  }

  function IdsOf(entries: seq<Entry>): set<string> {
    set e | e in entries :: e.id
  }

  function EffectiveIds(remote: Workspace, overlay: Overlay, key: string): set<string> {
    var page := if key == ACTIVE then remote.active else if key in remote.pages then Some(remote.pages[key]) else None;
    if page.None? then {} else IdsAfter(IdsOf(page.value.entries), ChangesFor(overlay, key))
  }

  class AnnouncementWorkspace {
    const hasCatalog: bool
    var remote: Workspace
    var overlay: Overlay

    /** `hasCatalog` says whether the remote directory has a catalog file. */
    constructor (remote: Workspace, hasCatalog: bool)
      ensures this.remote == remote && this.hasCatalog == hasCatalog && overlay == map[]
    {
      this.remote, this.hasCatalog, overlay := remote, hasCatalog, map[];
    }

    /** Edits go to a page's overlay under the entry's id. */
    method OverlayUpsertEntry(key: string, entry: Entry) returns (next: Overlay)
      ensures next == Upserted(overlay, key, entry)
      ensures OverlayOk(overlay) ==>
                && OverlayOk(next)
                && (forall m :: Overridden(m, ChangesFor(next, key)) ==
                                Overridden(m, ChangesFor(overlay, key))[entry.id := entry])
                && forall k :: k != key ==> ChangesFor(next, k) == ChangesFor(overlay, k)
    {
      var changes := if key in overlay then overlay[key] else [];
      next := overlay[key := WithChange(changes, Upsert(entry))];
      if OverlayOk(overlay) {
        UpsertMeansAlways(overlay, key, entry);
      }
    }

    /** An entry whose addition or edit is only in the overlay is dropped from
        it; any other is marked for removal. */
    method OverlayRemoveEntry(id: string) returns (next: Overlay)
      ensures next == Removed(overlay, id)
      ensures OverlayOk(overlay) ==>
                && OverlayOk(next)
                && forall m ::
                     Overridden(m, ChangesFor(next, ACTIVE)) ==
                     if EditedThisSession(overlay, id) then Restored(Overridden(m, ChangesFor(overlay, ACTIVE)), m, id)
                     else Overridden(m, ChangesFor(overlay, ACTIVE)) - {id}
      ensures forall k :: k != ACTIVE ==> ChangesFor(next, k) == ChangesFor(overlay, k)
    {
      var changes := if ACTIVE in overlay then overlay[ACTIVE] else [];
      var i := Recording(changes, id);
      if i < |changes| && changes[i].Upsert? {
        changes := Forgotten(changes, i);
      } else {
        changes := WithChange(changes, Remove(id));
      }
      next := overlay[ACTIVE := changes];
      if OverlayOk(overlay) {
        RemoveMeansAlways(overlay, id);
      }
    }

    method GetEffectiveEntryIds(key: string) returns (ids: set<string>)
      ensures ids == if hasCatalog then EffectiveIds(remote, overlay, key) else {}
    {
      if !hasCatalog {
        return {};
      }
      var page :=
        if key == ACTIVE then remote.active else if key in remote.pages then Some(remote.pages[key]) else None;
      if page.None? {
        return {};
      }
      ids := set e | e in page.value.entries :: e.id;
      ghost var start := ids;
      var changes := if key in overlay then overlay[key] else [];
      for i := 0 to |changes|
        invariant ids == IdsAfter(start, changes[..i])
      {
        assert changes[..i + 1][..i] == changes[..i];
        match changes[i]
        case Upsert(e) => ids := ids + {e.id};
        case Remove(id) => ids := ids - {id};
      }
      assert changes[..|changes|] == changes;
    }

    method BuildPublishWorkspace(
      newUuid: nat -> string, now: string, before: (string, string) -> bool)
      returns (built: Built)
      requires Filed(remote)
      ensures built == Build(remote, overlay, newUuid, now, before)
    {
      var uuid := ActiveUuid(remote.catalog);
      if uuid.None? {
        return NoActivePage;
      }
      var temp := ApplyToArchived(remote, overlay, before);
      if temp.active.None? {
        return ActiveFileMissing;
      }
      var entries := EntriesWith(temp.active.value.entries, if ACTIVE in overlay then overlay[ACTIVE] else []);
      if |entries| >= PAGE_SIZE {
        temp := temp.(catalog := Without(temp.catalog, uuid.value), pages := temp.pages - {uuid.value});
        temp := Rotate(temp, entries, newUuid, now, before);
      } else {
        EditsKeepFiled(remote, overlay, overlay.Keys, before);
        var catalog := RefreshSummary(temp.catalog, uuid.value, entries, before);
        temp := temp.(active := Some(temp.active.value.(entries := entries)), catalog := catalog);
      }
      built := Ready(temp);
    }
  }

  // ---- The steps of a build ------------------------------------------------

  method EntriesWith(entries: seq<Entry>, changes: seq<Change>) returns (all: seq<Entry>)
    ensures all == Overlaid(entries, changes)
  {
    var byId: seq<Entry> := [];
    for i := 0 to |entries|
      invariant byId == EntriesById(entries[..i])
    {
      assert entries[..i + 1][..i] == entries[..i];
      byId := Stored(byId, entries[i]);
    }
    assert entries[..|entries|] == entries;
    for i := 0 to |changes|
      invariant byId == Applied(EntriesById(entries), changes[..i])
    {
      assert changes[..i + 1][..i] == changes[..i];
      match changes[i]
      case Upsert(e) => byId := Stored(byId, e);
      case Remove(id) => byId := Dropped(byId, id);
    }
    assert changes[..|changes|] == changes;
    all := NewestFirst(byId);
  }

  method RefreshSummary(catalog: seq<CatalogPage>, uuid: string, entries: seq<Entry>, before: (string, string) -> bool)
    returns (refreshed: seq<CatalogPage>)
    requires DistinctUuids(catalog)
    ensures refreshed == Refreshed(catalog, uuid, entries, before)
  {
    refreshed := catalog;
    for i := 0 to |catalog|
      invariant refreshed == catalog && forall j :: 0 <= j < i ==> catalog[j].uuid != uuid
    {
      if catalog[i].uuid == uuid {
        return catalog[i := Summarised(catalog[i], entries, before)];
      }
    }
  }

  lemma EditsKeepFiled(ws: Workspace, overlay: Overlay, keys: set<string>, before: (string, string) -> bool)
    requires Filed(ws)
    ensures Filed(WithEdits(ws, overlay, keys, before))
  {
  }

  lemma OneMoreEdit(ws: Workspace, overlay: Overlay, keys: set<string>, key: string, before: (string, string) -> bool)
    requires Filed(ws) && key in overlay && key !in keys
    ensures var done := WithEdits(ws, overlay, keys, before);
            WithEdits(ws, overlay, keys + {key}, before) ==
            if key == ACTIVE || key !in ws.pages then done
            else
              var entries := EditedEntries(overlay, ws, key);
              done.(pages := done.pages[key := done.pages[key].(entries := entries)],
                    catalog := Refreshed(done.catalog, key, entries, before))
  {
  }

  method ApplyToArchived(ws: Workspace, overlay: Overlay, before: (string, string) -> bool) returns (temp: Workspace)
    requires Filed(ws)
    ensures temp == WithEdits(ws, overlay, overlay.Keys, before)
  {
    temp := ws;
    var rest := overlay.Keys;
    assert temp == WithEdits(ws, overlay, {}, before);
    while rest != {}
      invariant rest <= overlay.Keys
      invariant temp == WithEdits(ws, overlay, overlay.Keys - rest, before)
      decreases rest
    {
      var key :| key in rest;
      ghost var done := overlay.Keys - rest;
      OneMoreEdit(ws, overlay, done, key, before);
      EditsKeepFiled(ws, overlay, done, before);
      rest := rest - {key};
      assert overlay.Keys - rest == done + {key};
      if key == ACTIVE || key !in temp.pages {
        continue;
      }
      var page := temp.pages[key];
      var entries := EntriesWith(page.entries, overlay[key]);
      var catalog := RefreshSummary(temp.catalog, key, entries, before);
      temp := temp.(pages := temp.pages[page.uuid := page.(entries := entries)], catalog := catalog);
    }
    assert overlay.Keys - rest == overlay.Keys;
  }

  method Chunks(entries: seq<Entry>) returns (chunks: seq<seq<Entry>>)
    ensures |chunks| == (|entries| + PAGE_SIZE - 1) / PAGE_SIZE
    ensures forall k :: 0 <= k < |chunks| ==>
              chunks[k] ==
                entries[PAGE_SIZE * k..if PAGE_SIZE * (k + 1) <= |entries| then PAGE_SIZE * (k + 1) else |entries|]
  {
    chunks := [];
    var i := 0;
    while i < |entries|
      invariant i == PAGE_SIZE * |chunks| && i < |entries| + PAGE_SIZE
      invariant forall k :: 0 <= k < |chunks| ==>
                  PAGE_SIZE * k < |entries| &&
                  chunks[k] ==
                    entries[PAGE_SIZE * k..if PAGE_SIZE * (k + 1) <= |entries| then PAGE_SIZE * (k + 1) else |entries|]
    {
      chunks := chunks + [entries[i..if i + PAGE_SIZE <= |entries| then i + PAGE_SIZE else |entries|]];
      i := i + PAGE_SIZE;
    }
  }

  lemma ChunkThenRest(entries: seq<Entry>, k: nat)
    requires PAGE_SIZE * (k + 1) <= |entries|
    ensures entries[PAGE_SIZE * k..][..PAGE_SIZE] == entries[PAGE_SIZE * k..PAGE_SIZE * (k + 1)]
    ensures entries[PAGE_SIZE * k..][PAGE_SIZE..] == entries[PAGE_SIZE * (k + 1)..]
  {
  }

  method Rotate(
    ws: Workspace, entries: seq<Entry>, newUuid: nat -> string, now: string, before: (string, string) -> bool)
    returns (temp: Workspace)
    requires |entries| >= PAGE_SIZE
    ensures temp == Rotated(ws, entries, newUuid, 0, now, before)
  {
    var chunks := Chunks(entries);
    temp := ws;
    var last := |chunks| - 1;
    ghost var rest := entries;
    for k := 0 to last
      invariant rest == entries[PAGE_SIZE * k..]
      invariant Rotated(ws, entries, newUuid, 0, now, before) == Rotated(temp, rest, newUuid, k, now, before)
    {
      assert PAGE_SIZE * (k + 1) <= |entries|;
      ChunkThenRest(entries, k);
      temp := AddArchivedPage(temp, newUuid(k), now, chunks[k], before);
      rest := rest[PAGE_SIZE..];
    }
    assert PAGE_SIZE * last < |entries| <= PAGE_SIZE * (last + 1);
    assert rest == chunks[last];
    temp := PlaceLastChunk(temp, chunks[last], newUuid, last, now, before);
  }

  /** A full last chunk is archived too and leaves an empty active page. */
  method PlaceLastChunk(
    ws: Workspace, chunk: seq<Entry>, newUuid: nat -> string, k: nat, now: string, before: (string, string) -> bool)
    returns (temp: Workspace)
    requires 0 < |chunk| <= PAGE_SIZE
    ensures temp == Rotated(ws, chunk, newUuid, k, now, before)
  {
    if |chunk| == PAGE_SIZE {
      temp := AddArchivedPage(ws, newUuid(k), now, chunk, before);
      assert chunk[..PAGE_SIZE] == chunk && chunk[PAGE_SIZE..] == [];
      assert ChannelsOf([]) == {};
      temp := temp.(catalog := temp.catalog + [CatalogPage(newUuid(k + 1), now, "0.0.0", [], 0, true)],
                    active := Some(Page(newUuid(k + 1), now, [])));
    } else {
      var s := SummaryOf(chunk, before);
      temp := ws.(catalog := ws.catalog + [CatalogPage(newUuid(k), now, s.minAppVersion, s.channels, |chunk|, true)],
                  active := Some(Page(newUuid(k), now, chunk)));
    }
  }

  method AddArchivedPage(
    ws: Workspace, uuid: string, now: string, entries: seq<Entry>, before: (string, string) -> bool)
    returns (temp: Workspace)
    requires |entries| == PAGE_SIZE
    ensures temp == Archived(ws, uuid, now, entries, before)
  {
    var s := SummaryOf(entries, before);
    temp := ws.(pages := ws.pages[uuid := Page(uuid, now, entries)],
                catalog := ws.catalog + [CatalogPage(uuid, now, s.minAppVersion, s.channels, PAGE_SIZE, false)]);
  }
}
