/** Which page holds which entries after a build, and in which order. Archived
    pages show their entries with the changes made; the active page does so in
    place, or is cut into new archived pages and a new active one. Entries of
    one time keep their order, and new ones follow them. */
module AnnouncementPages {
  import opened StoreTypes
  import opened Announcements
  import opened AnnouncementProperties
  import opened AnnouncementRotation
  import opened AnnouncementBuilds

  // ---- Entries of the same time --------------------------------------------

  /** `x` stands before `y`. */
  ghost predicate StandsBefore(s: seq<Entry>, x: string, y: string) {
    exists i, j :: 0 <= i < j < |s| && s[i].id == x && s[j].id == y
  }

  ghost predicate RemovesNeither(changes: seq<Change>, x: string, y: string) {
    forall c :: c in changes && c.Remove? ==> c.gone != x && c.gone != y
  }

  lemma StandBefore(s: seq<Entry>, i: nat, j: nat)
    requires i < j < |s|
    ensures StandsBefore(s, s[i].id, s[j].id)
  {
  }

  lemma StoredKeepsOrder(d: seq<Entry>, e: Entry, i: nat, j: nat)
    requires i < j < |d|
    ensures StandsBefore(Stored(d, e), d[i].id, d[j].id)
  {
    var after := Stored(d, e);
    assert after[i].id == d[i].id && after[j].id == d[j].id;
    StandBefore(after, i, j);
  }

  lemma DroppedKeepsOrder(d: seq<Entry>, gone: string, i: nat, j: nat)
    requires i < j < |d| && d[i].id != gone && d[j].id != gone
    ensures StandsBefore(Dropped(d, gone), d[i].id, d[j].id)
  {
    var k, after := PositionOf(d, gone), Dropped(d, gone);
    var i', j' := if k < i then i - 1 else i, if k < j then j - 1 else j;
    assert after[i'] == d[i] && after[j'] == d[j];
    StandBefore(after, i', j');
  }

  lemma ChangedKeepsOrder(d: seq<Entry>, c: Change, x: string, y: string)
    requires StandsBefore(d, x, y) && (c.Remove? ==> c.gone != x && c.gone != y)
    ensures StandsBefore(Changed(d, c), x, y)
  {
    var i, j :| 0 <= i < j < |d| && d[i].id == x && d[j].id == y;
    if c.Upsert? {
      StoredKeepsOrder(d, c.entry, i, j);
    } else {
      DroppedKeepsOrder(d, c.gone, i, j);
    }
  }

  lemma ChangedIdsOnce(d: seq<Entry>, c: Change)
    requires EachIdOnce(d)
    ensures EachIdOnce(Changed(d, c))
  {
    if c.Upsert? {
      var i, after := PositionOf(d, c.entry.id), Stored(d, c.entry);
      assert forall j :: 0 <= j < |d| ==> after[j].id == d[j].id;
    } else {
      DroppedDistinct(d, c.gone);
    }
  }

  lemma {:induction false} AppliedKeepsOrder(d: seq<Entry>, changes: seq<Change>, x: string, y: string)
    requires EachIdOnce(d) && StandsBefore(d, x, y) && RemovesNeither(changes, x, y)
    ensures EachIdOnce(Applied(d, changes)) && StandsBefore(Applied(d, changes), x, y)
  {
    if changes != [] {
      var earlier, last := changes[..|changes| - 1], changes[|changes| - 1];
      assert changes == earlier + [last];
      AppliedKeepsOrder(d, earlier, x, y);
      ChangedIdsOnce(Applied(d, earlier), last);
      ChangedKeepsOrder(Applied(d, earlier), last, x, y);
    }
  }

  lemma {:induction false} DistinctIsById(entries: seq<Entry>)
    requires EachIdOnce(entries)
    ensures EntriesById(entries) == entries
  {
    if entries != [] {
      var earlier := entries[..|entries| - 1];
      DistinctIsById(earlier);
      assert PositionOf(earlier, entries[|entries| - 1].id) == |earlier|;
    }
  }

  lemma {:induction false} AtMembers(s: seq<Entry>, t: string)
    ensures forall e :: e in At(s, t) <==> e in s && e.publishedAt == t
  {
    if s != [] {
      AtMembers(s[..|s| - 1], t);
      assert s == s[..|s| - 1] + [s[|s| - 1]];
    }
  }

  /** Whether two entries of one time stand in order can be read off the
      entries of that time. */
  lemma {:induction false} AtKeepsOrder(s: seq<Entry>, t: string, a: Entry, b: Entry)
    requires EachIdOnce(s) && a in s && b in s && a.publishedAt == t == b.publishedAt
    ensures StandsBefore(s, a.id, b.id) <==> StandsBefore(At(s, t), a.id, b.id)
  {
    var earlier, last := s[..|s| - 1], s[|s| - 1];
    assert s == earlier + [last];
    if a == last || b == last {
      LastAt(earlier, last, t, a, b);
    } else {
      AtKeepsOrder(earlier, t, a, b);
      BeforeEarlier(earlier, last, a.id, b.id);
      if last.publishedAt == t {
        BeforeEarlier(At(earlier, t), last, a.id, b.id);
        assert At(s, t) == At(earlier, t) + [last];
      } else {
        assert At(s, t) == At(earlier, t);
      }
    }
  }

  lemma LastAt(earlier: seq<Entry>, last: Entry, t: string, a: Entry, b: Entry)
    requires EachIdOnce(earlier + [last]) && a.publishedAt == t == b.publishedAt == last.publishedAt
    requires a in earlier + [last] && b in earlier + [last] && (a == last || b == last)
    ensures StandsBefore(earlier + [last], a.id, b.id) <==> StandsBefore(At(earlier + [last], t), a.id, b.id)
  {
    var s := earlier + [last];
    assert s[..|s| - 1] == earlier;
    assert At(s, t) == At(earlier, t) + [last];
    AtMembers(earlier, t);
    AtDistinct(s, t);
    if a == last {
      NotBeforeLast(s, b);
      NotBeforeLast(At(s, t), b);
    } else {
      BeforeLast(earlier, last, a);
      BeforeLast(At(earlier, t), last, a);
    }
  }

  lemma BeforeLast(earlier: seq<Entry>, last: Entry, a: Entry)
    requires a in earlier
    ensures StandsBefore(earlier + [last], a.id, last.id)
  {
    var i :| 0 <= i < |earlier| && earlier[i] == a;
    var s := earlier + [last];
    assert s[i] == a && s[|earlier|] == last;
  }

  lemma BeforeEarlier(earlier: seq<Entry>, last: Entry, x: string, y: string)
    requires last.id != y && last.id != x
    ensures StandsBefore(earlier + [last], x, y) <==> StandsBefore(earlier, x, y)
  {
    var s := earlier + [last];
    if StandsBefore(earlier, x, y) {
      var i, j :| 0 <= i < j < |earlier| && earlier[i].id == x && earlier[j].id == y;
      assert s[i].id == x && s[j].id == y;
    }
    if StandsBefore(s, x, y) {
      var i, j :| 0 <= i < j < |s| && s[i].id == x && s[j].id == y;
      assert earlier[i].id == x && earlier[j].id == y;
    }
  }

  lemma NotBeforeLast(s: seq<Entry>, b: Entry)
    requires s != [] && EachIdOnce(s)
    ensures !StandsBefore(s, s[|s| - 1].id, b.id)
  {
  }

  lemma {:induction false} AtDistinct(s: seq<Entry>, t: string)
    requires EachIdOnce(s)
    ensures EachIdOnce(At(s, t))
  {
    if s != [] {
      var earlier, last := s[..|s| - 1], s[|s| - 1];
      AtDistinct(earlier, t);
      AtMembers(earlier, t);
      forall i | 0 <= i < |At(earlier, t)|
        ensures At(earlier, t)[i].id != last.id
      {
        assert At(earlier, t)[i] in earlier;
      }
    }
  }

  /** Entries of a page that end up with the same time keep the order they had,
      edited or not, unless one is removed on the way. */
  lemma TiesKeepOrder(entries: seq<Entry>, changes: seq<Change>, a: Entry, b: Entry)
    requires EachIdOnce(entries) && StandsBefore(entries, a.id, b.id) && RemovesNeither(changes, a.id, b.id)
    requires a in Overlaid(entries, changes) && b in Overlaid(entries, changes) && a.publishedAt == b.publishedAt
    ensures StandsBefore(Overlaid(entries, changes), a.id, b.id)
  {
    var applied, sorted := Applied(EntriesById(entries), changes), Overlaid(entries, changes);
    DistinctIsById(entries);
    AppliedKeepsOrder(entries, changes, a.id, b.id);
    NewestFirstSorts(applied);
    OverlaidIds(entries, changes);
    assert forall e :: e in applied <==> e in multiset(applied);
    assert forall e :: e in sorted <==> e in multiset(sorted);
    AtKeepsOrder(applied, a.publishedAt, a, b);
    AtKeepsOrder(sorted, a.publishedAt, a, b);
  }

  lemma AppendedFollows(d: seq<Entry>, e: Entry, x: string)
    requires x in IdsOf(d) && e.id !in IdsOf(d)
    ensures StandsBefore(Stored(d, e), x, e.id)
  {
    var a :| a in d && a.id == x;
    var i :| 0 <= i < |d| && d[i] == a;
    assert PositionOf(d, e.id) == |d| by {
      if PositionOf(d, e.id) < |d| {
        assert d[PositionOf(d, e.id)] in d;
      }
    }
    var after := Stored(d, e);
    assert after == d + [e] && after[i].id == x && after[|d|].id == e.id;
    StandBefore(after, i, |d|);
  }

  lemma {:induction false} AppliedAddsLast(d: seq<Entry>, changes: seq<Change>, x: string, y: string)
    requires EachIdOnce(d) && x in IdsOf(d) && y !in IdsOf(d) && RemovesNeither(changes, x, y)
    ensures EachIdOnce(Applied(d, changes)) && x in IdsOf(Applied(d, changes))
    ensures y in IdsOf(Applied(d, changes)) ==> StandsBefore(Applied(d, changes), x, y)
  {
    if changes != [] {
      var earlier, last := changes[..|changes| - 1], changes[|changes| - 1];
      assert changes == earlier + [last];
      AppliedAddsLast(d, earlier, x, y);
      ChangedIdsOnce(Applied(d, earlier), last);
      OneMoreAddsLast(Applied(d, earlier), last, x, y);
    }
  }

  lemma OneMoreAddsLast(d: seq<Entry>, c: Change, x: string, y: string)
    requires EachIdOnce(d) && x in IdsOf(d) && (y in IdsOf(d) ==> StandsBefore(d, x, y)) && x != y
    requires c.Remove? ==> c.gone != x && c.gone != y
    ensures x in IdsOf(Changed(d, c))
    ensures y in IdsOf(Changed(d, c)) ==> StandsBefore(Changed(d, c), x, y)
  {
    if c.Upsert? {
      StoredIds(d, c.entry);
    } else {
      DroppedIds(d, c.gone);
    }
    if y in IdsOf(d) {
      ChangedKeepsOrder(d, c, x, y);
    } else if c.Upsert? && c.entry.id == y {
      AppendedFollows(d, c.entry, x);
    }
  }

  /** An entry added in the session follows those of its time that the page had. */
  lemma AddedFollow(entries: seq<Entry>, changes: seq<Change>, a: Entry, b: Entry)
    requires EachIdOnce(entries) && a.id in IdsOf(entries) && b.id !in IdsOf(entries)
    requires RemovesNeither(changes, a.id, b.id)
    requires a in Overlaid(entries, changes) && b in Overlaid(entries, changes) && a.publishedAt == b.publishedAt
    ensures StandsBefore(Overlaid(entries, changes), a.id, b.id)
  {
    var applied, sorted := Applied(EntriesById(entries), changes), Overlaid(entries, changes);
    DistinctIsById(entries);
    AppliedAddsLast(entries, changes, a.id, b.id);
    NewestFirstSorts(applied);
    OverlaidIds(entries, changes);
    assert forall e :: e in applied <==> e in multiset(applied);
    assert forall e :: e in sorted <==> e in multiset(sorted);
    assert b.id in IdsOf(applied);
    AtKeepsOrder(applied, a.publishedAt, a, b);
    AtKeepsOrder(sorted, a.publishedAt, a, b);
  }

  // ---- Which page holds what -----------------------------------------------

  /** The page shows its entries with the changes made, each id once, newest first. */
  ghost predicate Shows(shown: seq<Entry>, entries: seq<Entry>, changes: seq<Change>) {
    Lists(shown, Overridden(LastById(entries), changes)) && Newest(shown)
  }

  /** Every page of the remote is there, with its changes if it has any. */
  ghost predicate PagesEdited(remote: Workspace, overlay: Overlay, ws: Workspace) {
    forall k :: k in remote.pages ==>
      && k in ws.pages
      && ws.pages[k].uuid == remote.pages[k].uuid && ws.pages[k].publishedAt == remote.pages[k].publishedAt
      && if k in overlay && k != ACTIVE then Shows(ws.pages[k].entries, remote.pages[k].entries, overlay[k])
         else ws.pages[k] == remote.pages[k]
  }

  lemma EditedPages(remote: Workspace, overlay: Overlay, before: (string, string) -> bool)
    ensures PagesEdited(remote, overlay, EditedWorkspace(remote, overlay, before))
    ensures EditedWorkspace(remote, overlay, before).pages.Keys == remote.pages.Keys
  {
    forall k | k in remote.pages && k in overlay && k != ACTIVE
      ensures Shows(EditedEntries(overlay, remote, k), remote.pages[k].entries, overlay[k])
    {
      OverlaidLists(remote.pages[k].entries, overlay[k]);
    }
  }

  /** Page `j` of twenty, filed under its new uuid. */
  ghost predicate ChunkAt(ws: Workspace, all: seq<Entry>, newUuid: nat -> string, k: nat, now: string, j: nat) {
    && PAGE_SIZE * (j + 1) <= |all| && newUuid(k + j) in ws.pages
    && ws.pages[newUuid(k + j)] == Page(newUuid(k + j), now, all[PAGE_SIZE * j..PAGE_SIZE * (j + 1)])
  }

  /** Pages of twenty from the front, filed under the new uuids in turn; what
      is left is the active page. */
  ghost predicate Chunked(ws: Workspace, all: seq<Entry>, newUuid: nat -> string, k: nat, now: string) {
    var m := |all| / PAGE_SIZE;
    && (forall j: nat :: j < m ==> ChunkAt(ws, all, newUuid, k, now, j))
    && ws.active == Some(Page(newUuid(k + m), now, all[PAGE_SIZE * m..]))
  }

  /** New page `j` of `m + 1`, the last of which is active, after `n` others. */
  ghost predicate NewAt(
    catalog: seq<CatalogPage>, n: nat, m: nat, newUuid: nat -> string, k: nat, now: string, j: nat)
  {
    && n + j < |catalog| && catalog[n + j].uuid == newUuid(k + j)
    && catalog[n + j].publishedAt == now && catalog[n + j].active == (j == m)
  }

  /** Their catalog entries come after those that were there, in the same order. */
  ghost predicate Catalogued(
    ws: Workspace, was: seq<CatalogPage>, m: nat, newUuid: nat -> string, k: nat, now: string)
  {
    && |ws.catalog| == |was| + m + 1 && was <= ws.catalog
    && forall j: nat :: j <= m ==> NewAt(ws.catalog, |was|, m, newUuid, k, now, j)
  }

  lemma RestOfRest(all: seq<Entry>)
    requires |all| >= PAGE_SIZE
    ensures |all[PAGE_SIZE..]| / PAGE_SIZE == |all| / PAGE_SIZE - 1
    ensures PAGE_SIZE * (|all| / PAGE_SIZE) <= |all|
    ensures all[PAGE_SIZE..][PAGE_SIZE * (|all| / PAGE_SIZE - 1)..] == all[PAGE_SIZE * (|all| / PAGE_SIZE)..]
  {
  }

  lemma ChunkLater(ws: Workspace, all: seq<Entry>, newUuid: nat -> string, k: nat, now: string, j: nat)
    requires |all| >= PAGE_SIZE && ChunkAt(ws, all[PAGE_SIZE..], newUuid, k + 1, now, j)
    ensures ChunkAt(ws, all, newUuid, k, now, j + 1)
  {
    assert all[PAGE_SIZE..][PAGE_SIZE * j..PAGE_SIZE * (j + 1)] == all[PAGE_SIZE * (j + 1)..PAGE_SIZE * (j + 2)];
  }

  lemma ChunkedMore(ws: Workspace, all: seq<Entry>, newUuid: nat -> string, k: nat, now: string)
    requires |all| >= PAGE_SIZE && ChunkAt(ws, all, newUuid, k, now, 0)
    requires Chunked(ws, all[PAGE_SIZE..], newUuid, k + 1, now)
    ensures Chunked(ws, all, newUuid, k, now)
  {
    RestOfRest(all);
    forall j: nat | j < |all| / PAGE_SIZE
      ensures ChunkAt(ws, all, newUuid, k, now, j)
    {
      if j > 0 {
        ChunkLater(ws, all, newUuid, k, now, j - 1);
      }
    }
  }

  lemma CataloguedMore(
    ws: Workspace, was: seq<CatalogPage>, p: CatalogPage, m: nat, newUuid: nat -> string, k: nat, now: string)
    requires m > 0 && p.uuid == newUuid(k) && p.publishedAt == now && !p.active
    requires Catalogued(ws, was + [p], m - 1, newUuid, k + 1, now)
    ensures Catalogued(ws, was, m, newUuid, k, now)
  {
    assert ws.catalog[|was|] == p;
    forall j: nat | j <= m
      ensures NewAt(ws.catalog, |was|, m, newUuid, k, now, j)
    {
      if j > 0 {
        assert NewAt(ws.catalog, |was + [p]|, m - 1, newUuid, k + 1, now, j - 1);
      }
    }
  }

  lemma {:induction false} RotatedPages(
    ws: Workspace, all: seq<Entry>, newUuid: nat -> string, k: nat, now: string, before: (string, string) -> bool)
    requires Unused(ws, newUuid, k)
    ensures var after := Rotated(ws, all, newUuid, k, now, before);
            && Chunked(after, all, newUuid, k, now)
            && Catalogued(after, ws.catalog, |all| / PAGE_SIZE, newUuid, k, now)
    decreases |all|
  {
    if |all| >= PAGE_SIZE {
      var archived := Archived(ws, newUuid(k), now, all[..PAGE_SIZE], before);
      var after := Rotated(archived, all[PAGE_SIZE..], newUuid, k + 1, now, before);
      ArchivedUnused(ws, newUuid, k, now, all[..PAGE_SIZE], before);
      RotatedPages(archived, all[PAGE_SIZE..], newUuid, k + 1, now, before);
      RotatedKeeps(archived, all[PAGE_SIZE..], newUuid, k + 1, now, before);
      FrontPage(archived, after, all, newUuid, k, now);
      OneMoreFront(after, ws.catalog, Listed(newUuid(k), now, false, all[..PAGE_SIZE], before), all, newUuid, k, now);
    } else {
      LastPage(Activated(ws, newUuid(k), now, all, before), ws.catalog, all, newUuid, k, now);
    }
  }

  lemma LastPage(
    after: Workspace, was: seq<CatalogPage>, all: seq<Entry>, newUuid: nat -> string, k: nat, now: string)
    requires |all| < PAGE_SIZE && after.active == Some(Page(newUuid(k), now, all))
    requires |after.catalog| == |was| + 1 && was <= after.catalog && NewAt(after.catalog, |was|, 0, newUuid, k, now, 0)
    ensures Chunked(after, all, newUuid, k, now) && Catalogued(after, was, |all| / PAGE_SIZE, newUuid, k, now)
  {
    assert |all| / PAGE_SIZE == 0 && all[0..] == all;
  }

  lemma FrontPage(
    archived: Workspace, after: Workspace, all: seq<Entry>, newUuid: nat -> string, k: nat, now: string)
    requires |all| >= PAGE_SIZE && newUuid(k) in archived.pages
    requires archived.pages[newUuid(k)] == Page(newUuid(k), now, all[..PAGE_SIZE])
    requires forall u :: u in archived.pages ==> u in after.pages && after.pages[u] == archived.pages[u]
    ensures ChunkAt(after, all, newUuid, k, now, 0)
  {
    assert all[PAGE_SIZE * 0..PAGE_SIZE * (0 + 1)] == all[..PAGE_SIZE];
  }

  /** One page in front of what the rest became. */
  lemma OneMoreFront(
    after: Workspace, was: seq<CatalogPage>, p: CatalogPage, all: seq<Entry>, newUuid: nat -> string, k: nat,
    now: string)
    requires |all| >= PAGE_SIZE && p.uuid == newUuid(k) && p.publishedAt == now && !p.active
    requires ChunkAt(after, all, newUuid, k, now, 0) && Chunked(after, all[PAGE_SIZE..], newUuid, k + 1, now)
    requires Catalogued(after, was + [p], |all[PAGE_SIZE..]| / PAGE_SIZE, newUuid, k + 1, now)
    ensures Chunked(after, all, newUuid, k, now) && Catalogued(after, was, |all| / PAGE_SIZE, newUuid, k, now)
  {
    RestOfRest(all);
    ChunkedMore(after, all, newUuid, k, now);
    CataloguedMore(after, was, p, |all| / PAGE_SIZE, newUuid, k, now);
  }

  lemma ArchivedUnused(
    ws: Workspace, newUuid: nat -> string, k: nat, now: string, entries: seq<Entry>,
    before: (string, string) -> bool)
    requires Unused(ws, newUuid, k)
    ensures Unused(Archived(ws, newUuid(k), now, entries, before), newUuid, k + 1)
  {
  }

  /** The catalog keeps its pages in their order, with uuid, time and flag. */
  ghost predicate SamePlaces(a: seq<CatalogPage>, b: seq<CatalogPage>) {
    && |a| == |b|
    && forall i :: 0 <= i < |a| ==>
         a[i].uuid == b[i].uuid && a[i].publishedAt == b[i].publishedAt && a[i].active == b[i].active
  }

  /** Below twenty entries the active page shows its entries with the changes
      made, and nothing moves. */
  ghost predicate StaysActive(remote: Workspace, ws: Workspace, all: seq<Entry>) {
    && remote.active.Some? && ws.active == Some(remote.active.value.(entries := all))
    && ws.pages.Keys == remote.pages.Keys && SamePlaces(ws.catalog, remote.catalog)
  }

  /** From twenty on they are cut into new archived pages, from the newest, and
      a new active page with the rest; these follow the other pages. */
  ghost predicate Rotates(
    remote: Workspace, a: nat, ws: Workspace, all: seq<Entry>, newUuid: nat -> string, now: string)
    requires a < |remote.catalog|
  {
    && Chunked(ws, all, newUuid, 0, now)
    && exists was :: SamePlaces(was, remote.catalog[..a] + remote.catalog[a + 1..])
                     && Catalogued(ws, was, |all| / 20, newUuid, 0, now)
  }

  lemma PagesKept(remote: Workspace, overlay: Overlay, edited: Workspace, ws: Workspace)
    requires PagesEdited(remote, overlay, edited)
    requires forall k :: k in remote.pages ==> k in ws.pages && ws.pages[k] == edited.pages[k]
    ensures PagesEdited(remote, overlay, ws)
  {
  }

  lemma EditedPlaces(remote: Workspace, overlay: Overlay, before: (string, string) -> bool)
    ensures SamePlaces(EditedWorkspace(remote, overlay, before).catalog, remote.catalog)
  {
  }

  lemma ClearedPlaces(remote: Workspace, a: nat, overlay: Overlay, before: (string, string) -> bool)
    requires WellFormedAt(remote, a)
    ensures SamePlaces(ClearedOf(EditedWorkspace(remote, overlay, before), remote.catalog[a].uuid).catalog,
                       remote.catalog[..a] + remote.catalog[a + 1..])
  {
    var edited := EditedWorkspace(remote, overlay, before);
    EditedPlaces(remote, overlay, before);
    EditsWellFormed(remote, a, overlay, before);
    WithoutAt(edited.catalog, a);
  }

  lemma BuiltRotated(
    remote: Workspace, a: nat, overlay: Overlay, all: seq<Entry>, newUuid: nat -> string, now: string,
    before: (string, string) -> bool)
    requires WellFormedAt(remote, a) && Unused(remote, newUuid, 0) && |all| >= PAGE_SIZE
    ensures var cleared := ClearedOf(EditedWorkspace(remote, overlay, before), remote.catalog[a].uuid);
            var ws := Rotated(cleared, all, newUuid, 0, now, before);
            PagesEdited(remote, overlay, ws) && Rotates(remote, a, ws, all, newUuid, now)
  {
    var edited := EditedWorkspace(remote, overlay, before);
    var cleared := ClearedOf(edited, remote.catalog[a].uuid);
    var ws := Rotated(cleared, all, newUuid, 0, now, before);
    EditedPages(remote, overlay, before);
    ClearedShelved(remote, a, overlay, newUuid, before);
    RotatedPages(cleared, all, newUuid, 0, now, before);
    RotatedKeeps(cleared, all, newUuid, 0, now, before);
    ClearedPlaces(remote, a, overlay, before);
    assert forall k :: k in remote.pages ==> k in cleared.pages && cleared.pages[k] == edited.pages[k];
    PagesKept(remote, overlay, edited, ws);
  }

  lemma BuiltInPlace(
    remote: Workspace, a: nat, overlay: Overlay, all: seq<Entry>, before: (string, string) -> bool)
    requires WellFormedAt(remote, a)
    ensures var ws := Updated(EditedWorkspace(remote, overlay, before), remote.catalog[a].uuid, all, before);
            PagesEdited(remote, overlay, ws) && StaysActive(remote, ws, all)
  {
    var edited := EditedWorkspace(remote, overlay, before);
    var ws := Updated(edited, remote.catalog[a].uuid, all, before);
    EditedPages(remote, overlay, before);
    EditedPlaces(remote, overlay, before);
    PagesKept(remote, overlay, edited, ws);
    assert SamePlaces(ws.catalog, edited.catalog);
  }

  /** What a build amounts to when `all` is what the active page shows. */
  ghost predicate BuiltAs(
    remote: Workspace, a: nat, overlay: Overlay, ws: Workspace, all: seq<Entry>, newUuid: nat -> string, now: string)
    requires a < |remote.catalog|
  {
    && remote.active.Some? && Shows(all, remote.active.value.entries, ChangesFor(overlay, ACTIVE))
    && PagesEdited(remote, overlay, ws)
    && if |all| < 20 then StaysActive(remote, ws, all) else Rotates(remote, a, ws, all, newUuid, now)
  }

  /** A build shows every page of the remote with its changes, and the active
      page in place or rotated, as its number of entries says. */
  lemma BuiltPages(
    remote: Workspace, a: nat, overlay: Overlay, newUuid: nat -> string, now: string,
    before: (string, string) -> bool)
    requires WellFormedAt(remote, a) && Unused(remote, newUuid, 0)
    ensures var built := Build(remote, overlay, newUuid, now, before);
            built.Ready? && exists all :: BuiltAs(remote, a, overlay, built.ws, all, newUuid, now)
  {
    var all := ActiveEntries(remote, overlay);
    BuildCases(remote, a, overlay, newUuid, now, before);
    OverlaidLists(remote.active.value.entries, ChangesFor(overlay, ACTIVE));
    if |all| >= PAGE_SIZE {
      BuiltRotated(remote, a, overlay, all, newUuid, now, before);
    } else {
      BuiltInPlace(remote, a, overlay, all, before);
    }
    assert BuiltAs(remote, a, overlay, Build(remote, overlay, newUuid, now, before).ws, all, newUuid, now);
  }

  /** A build fails exactly when the catalog has no active page, or there is no
      file for it. */
  lemma BuildFailsIff(
    remote: Workspace, overlay: Overlay, newUuid: nat -> string, now: string, before: (string, string) -> bool)
    ensures var built := Build(remote, overlay, newUuid, now, before);
            && (built == NoActivePage <==> forall p :: p in remote.catalog ==> !p.active)
            && (built == ActiveFileMissing <==> (exists p :: p in remote.catalog && p.active) && remote.active.None?)
  {
    NoActiveIff(remote.catalog);
  }

  lemma {:induction false} NoActiveIff(catalog: seq<CatalogPage>)
    ensures ActiveUuid(catalog).None? <==> forall p :: p in catalog ==> !p.active
  {
    if catalog != [] {
      NoActiveIff(catalog[1..]);
      assert forall p :: p in catalog <==> p == catalog[0] || p in catalog[1..];
    }
  }
}
