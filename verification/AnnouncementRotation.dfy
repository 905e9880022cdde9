/** The pages a publish puts together: when a workspace is well-formed, what
    rotation makes of a list of entries, what edits make of the archived pages,
    and how the entries of all pages add up before and after. These are the
    parts from which the guarantees of a whole build follow. */
module AnnouncementRotation {
  import opened StoreTypes
  import opened Announcements
  import opened AnnouncementProperties

  // ---- Well-formed workspaces ----------------------------------------------

  ghost predicate ActiveAt(catalog: seq<CatalogPage>, a: nat) {
    a < |catalog| && forall i :: 0 <= i < |catalog| ==> (catalog[i].active <==> i == a)
  }

  ghost predicate ArchivedOk(ws: Workspace, p: CatalogPage) {
    && p.uuid in ws.pages && p.uuid != ACTIVE
    && p.count == |ws.pages[p.uuid].entries| == PAGE_SIZE
    && EachIdOnce(ws.pages[p.uuid].entries)
  }

  ghost predicate ActiveOk(ws: Workspace, p: CatalogPage) {
    && ws.active.Some? && p.uuid !in ws.pages && p.uuid != ACTIVE
    && ws.active.value.uuid == p.uuid
    && p.count == |ws.active.value.entries| < PAGE_SIZE
    && EachIdOnce(ws.active.value.entries)
  }

  ghost predicate WellFormedAt(ws: Workspace, a: nat) {
    && Filed(ws) && ActiveAt(ws.catalog, a) && ActiveOk(ws, ws.catalog[a])
    && forall i :: 0 <= i < |ws.catalog| && i != a ==> ArchivedOk(ws, ws.catalog[i])
  }

  /** One active page with room left; full archived pages; correct counts. */
  ghost predicate WellFormed(ws: Workspace) {
    exists a :: WellFormedAt(ws, a)
  }

  ghost predicate AllArchived(ws: Workspace) {
    && Filed(ws)
    && forall i :: 0 <= i < |ws.catalog| ==> !ws.catalog[i].active && ArchivedOk(ws, ws.catalog[i])
  }

  /** No active page, and a file for every page. */
  ghost predicate Shelved(ws: Workspace) {
    forall i :: 0 <= i < |ws.catalog| ==> !ws.catalog[i].active && ws.catalog[i].uuid in ws.pages
  }

  /** Uuids generated from `k` on: distinct, and used nowhere yet. */
  ghost predicate Unused(ws: Workspace, newUuid: nat -> string, k: nat) {
    && (forall j: nat :: k <= j ==> newUuid(j) !in ws.pages && newUuid(j) != ACTIVE)
    && (forall j: nat, i :: k <= j && 0 <= i < |ws.catalog| ==> ws.catalog[i].uuid != newUuid(j))
    && forall i: nat, j: nat :: k <= i < j ==> newUuid(i) != newUuid(j)
  }

  // ---- Rotation ------------------------------------------------------------

  lemma ArchivedStep(
    ws: Workspace, newUuid: nat -> string, k: nat, now: string, entries: seq<Entry>,
    before: (string, string) -> bool)
    requires AllArchived(ws) && Unused(ws, newUuid, k) && |entries| == PAGE_SIZE && EachIdOnce(entries)
    ensures AllArchived(Archived(ws, newUuid(k), now, entries, before))
    ensures Unused(Archived(ws, newUuid(k), now, entries, before), newUuid, k + 1)
  {
  }

  lemma ActivatedStep(
    ws: Workspace, newUuid: nat -> string, k: nat, now: string, entries: seq<Entry>,
    before: (string, string) -> bool)
    requires AllArchived(ws) && Unused(ws, newUuid, k) && |entries| < PAGE_SIZE && EachIdOnce(entries)
    ensures WellFormedAt(Activated(ws, newUuid(k), now, entries, before), |ws.catalog|)
  {
  }

  lemma {:induction false} RotatedWellFormed(
    ws: Workspace, entries: seq<Entry>, newUuid: nat -> string, k: nat, now: string, before: (string, string) -> bool)
    requires AllArchived(ws) && Unused(ws, newUuid, k) && EachIdOnce(entries)
    ensures WellFormed(Rotated(ws, entries, newUuid, k, now, before))
    decreases |entries|
  {
    if |entries| < PAGE_SIZE {
      ActivatedStep(ws, newUuid, k, now, entries, before);
    } else {
      ArchivedStep(ws, newUuid, k, now, entries[..PAGE_SIZE], before);
      RotatedWellFormed(Archived(ws, newUuid(k), now, entries[..PAGE_SIZE], before), entries[PAGE_SIZE..], newUuid,
                        k + 1, now, before);
    }
  }

  // ---- Conservation --------------------------------------------------------

  ghost function EntriesOf(ws: Workspace, p: CatalogPage): seq<Entry> {
    if p.active then if ws.active.Some? then ws.active.value.entries else []
    else if p.uuid in ws.pages then ws.pages[p.uuid].entries else []
  }

  ghost function Total(ws: Workspace, catalog: seq<CatalogPage>): multiset<Entry> {
    if catalog == [] then multiset{}
    else Total(ws, catalog[..|catalog| - 1]) + multiset(EntriesOf(ws, catalog[|catalog| - 1]))
  }

  lemma {:induction false} TotalSame(a: Workspace, b: Workspace, catalog: seq<CatalogPage>)
    requires forall i :: 0 <= i < |catalog| ==> EntriesOf(a, catalog[i]) == EntriesOf(b, catalog[i])
    ensures Total(a, catalog) == Total(b, catalog)
  {
    if catalog != [] {
      TotalSame(a, b, catalog[..|catalog| - 1]);
    }
  }

  lemma ActivatedTotal(ws: Workspace, uuid: string, now: string, entries: seq<Entry>, before: (string, string) -> bool)
    requires Shelved(ws)
    ensures var after := Activated(ws, uuid, now, entries, before);
            Contents(after) == Contents(ws) + multiset(entries)
  {
    var after := Activated(ws, uuid, now, entries, before);
    TotalSame(ws, after, ws.catalog);
  }

  lemma ArchivedTotal(ws: Workspace, uuid: string, now: string, entries: seq<Entry>, before: (string, string) -> bool)
    requires Shelved(ws) && uuid !in ws.pages
    ensures Shelved(Archived(ws, uuid, now, entries, before))
    ensures var after := Archived(ws, uuid, now, entries, before);
            Contents(after) == Contents(ws) + multiset(entries)
  {
    var after := Archived(ws, uuid, now, entries, before);
    TotalSame(ws, after, ws.catalog);
  }

  ghost function Contents(ws: Workspace): multiset<Entry> {
    Total(ws, ws.catalog)
  }

  lemma SplitContents(entries: seq<Entry>, n: nat)
    requires n <= |entries|
    ensures multiset(entries) == multiset(entries[..n]) + multiset(entries[n..])
  {
    assert entries == entries[..n] + entries[n..];
  }

  /** Rotation moves entries between pages and loses or doubles none. */
  lemma {:induction false} RotatedConserves(
    ws: Workspace, entries: seq<Entry>, newUuid: nat -> string, k: nat, now: string, before: (string, string) -> bool)
    requires Shelved(ws) && Unused(ws, newUuid, k)
    ensures Contents(Rotated(ws, entries, newUuid, k, now, before)) == Contents(ws) + multiset(entries)
    decreases |entries|
  {
    if |entries| < PAGE_SIZE {
      ActivatedTotal(ws, newUuid(k), now, entries, before);
    } else {
      ArchivedTotal(ws, newUuid(k), now, entries[..PAGE_SIZE], before);
      SplitContents(entries, PAGE_SIZE);
      RotatedConserves(Archived(ws, newUuid(k), now, entries[..PAGE_SIZE], before), entries[PAGE_SIZE..], newUuid,
                       k + 1, now, before);
    }
  }

  // ---- Order ---------------------------------------------------------------

  function Remainder(n: nat): nat {
    if n < PAGE_SIZE then n else Remainder(n - PAGE_SIZE)
  }

  lemma {:induction false} RemainderIs(n: nat)
    ensures Remainder(n) == n % PAGE_SIZE
  {
    if n >= PAGE_SIZE {
      RemainderIs(n - PAGE_SIZE);
    }
  }

  /** Rotation leaves on the active page the tail of what it was given. */
  lemma {:induction false} RotatedLeavesTail(
    ws: Workspace, entries: seq<Entry>, newUuid: nat -> string, k: nat, now: string, before: (string, string) -> bool)
    ensures Remainder(|entries|) < PAGE_SIZE && Remainder(|entries|) <= |entries|
    ensures var active := Rotated(ws, entries, newUuid, k, now, before).active;
            active.Some? && active.value.entries == entries[|entries| - Remainder(|entries|)..]
    decreases |entries|
  {
    if |entries| >= PAGE_SIZE {
      RotatedLeavesTail(Archived(ws, newUuid(k), now, entries[..PAGE_SIZE], before), entries[PAGE_SIZE..], newUuid,
                        k + 1, now, before);
    }
  }

  // ---- The whole build -----------------------------------------------------

  lemma {:induction false} ActiveUuidAt(catalog: seq<CatalogPage>, a: nat)
    requires ActiveAt(catalog, a)
    ensures ActiveUuid(catalog) == Some(catalog[a].uuid)
  {
    if a > 0 {
      assert ActiveAt(catalog[1..], a - 1);
      ActiveUuidAt(catalog[1..], a - 1);
    }
  }

  lemma {:induction false} WithoutShape(catalog: seq<CatalogPage>, uuid: string)
    requires DistinctUuids(catalog)
    ensures DistinctUuids(Without(catalog, uuid))
    ensures forall p :: p in Without(catalog, uuid) <==> p in catalog && p.uuid != uuid
  {
    if catalog != [] {
      var earlier, last := catalog[..|catalog| - 1], catalog[|catalog| - 1];
      WithoutShape(earlier, uuid);
      assert catalog == earlier + [last];
      var rest := Without(earlier, uuid);
      forall i | 0 <= i < |rest|
        ensures rest[i].uuid != last.uuid
      {
        assert rest[i] in rest && rest[i] in earlier;
      }
    }
  }

  /** The archived pages that the overlay changes keep their twenty entries. */
  ghost predicate KeepsTwenty(remote: Workspace, overlay: Overlay) {
    forall i :: 0 <= i < |remote.catalog| && Edited(overlay, remote, overlay.Keys, remote.catalog[i].uuid) ==>
      |IdsAfter(IdsOf(remote.pages[remote.catalog[i].uuid].entries), overlay[remote.catalog[i].uuid])| == PAGE_SIZE
  }

  ghost function EditedWorkspace(remote: Workspace, overlay: Overlay, before: (string, string) -> bool): Workspace {
    WithEdits(remote, overlay, overlay.Keys, before)
  }

  lemma EditedArchivedOk(remote: Workspace, overlay: Overlay, i: nat, before: (string, string) -> bool)
    requires i < |remote.catalog| && ArchivedOk(remote, remote.catalog[i])
    ensures var edited := EditedWorkspace(remote, overlay, before);
            ArchivedOk(edited, edited.catalog[i]) <==>
              (Edited(overlay, remote, overlay.Keys, remote.catalog[i].uuid) ==>
                 |IdsAfter(IdsOf(remote.pages[remote.catalog[i].uuid].entries), overlay[remote.catalog[i].uuid])| ==
                     PAGE_SIZE)
  {
    var p := remote.catalog[i];
    if Edited(overlay, remote, overlay.Keys, p.uuid) {
      OverlaidIds(remote.pages[p.uuid].entries, overlay[p.uuid]);
    }
  }

  /** Edits of archived pages keep a workspace well-formed exactly when each
      edited page still has twenty distinct ids. */
  lemma EditsWellFormed(remote: Workspace, a: nat, overlay: Overlay, before: (string, string) -> bool)
    requires WellFormedAt(remote, a)
    ensures WellFormedAt(EditedWorkspace(remote, overlay, before), a) <==> KeepsTwenty(remote, overlay)
    ensures Filed(EditedWorkspace(remote, overlay, before))
            && ActiveAt(EditedWorkspace(remote, overlay, before).catalog, a)
    ensures EditedWorkspace(remote, overlay, before).catalog[a] == remote.catalog[a]
  {
    EditsKeepFiled(remote, overlay, overlay.Keys, before);
    forall i | 0 <= i < |remote.catalog| && i != a
      ensures var edited := EditedWorkspace(remote, overlay, before);
              ArchivedOk(edited, edited.catalog[i]) <==>
                (Edited(overlay, remote, overlay.Keys, remote.catalog[i].uuid) ==>
                   |IdsAfter(IdsOf(remote.pages[remote.catalog[i].uuid].entries), overlay[remote.catalog[i].uuid])| ==
                       PAGE_SIZE)
    {
      EditedArchivedOk(remote, overlay, i, before);
    }
  }

  lemma UpdatedWellFormed(ws: Workspace, a: nat, entries: seq<Entry>, before: (string, string) -> bool)
    requires Filed(ws) && ActiveAt(ws.catalog, a) && ActiveOk(ws, ws.catalog[a])
    requires |entries| < PAGE_SIZE && EachIdOnce(entries)
    ensures WellFormedAt(Updated(ws, ws.catalog[a].uuid, entries, before), a) <==> WellFormedAt(ws, a)
  {
    var after := Updated(ws, ws.catalog[a].uuid, entries, before);
    assert forall i :: 0 <= i < |ws.catalog| && i != a ==> after.catalog[i] == ws.catalog[i];
  }

  ghost function ClearedOf(ws: Workspace, uuid: string): Workspace {
    ws.(catalog := Without(ws.catalog, uuid), pages := ws.pages - {uuid})
  }

  lemma ClearedMembers(ws: Workspace, a: nat, i: nat) returns (j: nat)
    requires Filed(ws) && ActiveAt(ws.catalog, a) && i < |ClearedOf(ws, ws.catalog[a].uuid).catalog|
    ensures j < |ws.catalog| && j != a && ws.catalog[j] == ClearedOf(ws, ws.catalog[a].uuid).catalog[i]
  {
    var cleared := ClearedOf(ws, ws.catalog[a].uuid);
    WithoutShape(ws.catalog, ws.catalog[a].uuid);
    assert cleared.catalog[i] in cleared.catalog;
    j :| 0 <= j < |ws.catalog| && ws.catalog[j] == cleared.catalog[i];
  }

  /** Taking the active page away leaves archived pages only. */
  lemma ClearedAllArchived(ws: Workspace, a: nat)
    requires WellFormedAt(ws, a)
    ensures AllArchived(ClearedOf(ws, ws.catalog[a].uuid))
  {
    var cleared := ClearedOf(ws, ws.catalog[a].uuid);
    WithoutShape(ws.catalog, ws.catalog[a].uuid);
    forall i: nat | i < |cleared.catalog|
      ensures !cleared.catalog[i].active && ArchivedOk(cleared, cleared.catalog[i])
    {
      var j := ClearedMembers(ws, a, i);
      assert ArchivedOk(ws, ws.catalog[j]);
    }
  }

  lemma ClearedShelved(
    remote: Workspace, a: nat, overlay: Overlay, newUuid: nat -> string, before: (string, string) -> bool)
    requires WellFormedAt(remote, a) && Unused(remote, newUuid, 0)
    ensures var cleared := ClearedOf(EditedWorkspace(remote, overlay, before), remote.catalog[a].uuid);
            Shelved(cleared) && Unused(cleared, newUuid, 0)
  {
    EditsWellFormed(remote, a, overlay, before);
    var edited := EditedWorkspace(remote, overlay, before);
    var cleared := ClearedOf(edited, remote.catalog[a].uuid);
    forall i: nat | i < |cleared.catalog|
      ensures !cleared.catalog[i].active && cleared.catalog[i].uuid in cleared.pages
      ensures forall k: nat :: cleared.catalog[i].uuid != newUuid(k)
    {
      var j := ClearedMembers(edited, a, i);
      assert ArchivedOk(remote, remote.catalog[j]) && edited.catalog[j].uuid == remote.catalog[j].uuid;
    }
  }

  /** Rotation keeps what was archived: its pages, and its place in the catalog. */
  lemma {:induction false} RotatedKeeps(
    ws: Workspace, entries: seq<Entry>, newUuid: nat -> string, k: nat, now: string, before: (string, string) -> bool)
    requires Unused(ws, newUuid, k)
    ensures var after := Rotated(ws, entries, newUuid, k, now, before);
            && ws.catalog <= after.catalog
            && forall u :: u in ws.pages ==> u in after.pages && after.pages[u] == ws.pages[u]
    decreases |entries|
  {
    if |entries| >= PAGE_SIZE {
      RotatedKeeps(Archived(ws, newUuid(k), now, entries[..PAGE_SIZE], before), entries[PAGE_SIZE..], newUuid, k + 1,
                   now, before);
    }
  }

  /** What the active page would hold before rotation. */
  ghost function ActiveEntries(remote: Workspace, overlay: Overlay): seq<Entry>
    requires remote.active.Some?
  {
    Overlaid(remote.active.value.entries, ChangesFor(overlay, ACTIVE))
  }

  // ---- Nothing is lost -----------------------------------------------------

  /** What a page should hold: its entries under its changes. */
  ghost function Expected(remote: Workspace, overlay: Overlay, p: CatalogPage): seq<Entry> {
    if p.active then if remote.active.Some? then ActiveEntries(remote, overlay) else []
    else if Edited(overlay, remote, overlay.Keys, p.uuid) then EditedEntries(overlay, remote, p.uuid)
    else EntriesOf(remote, p)
  }

  ghost function ExpectedTotal(remote: Workspace, overlay: Overlay, catalog: seq<CatalogPage>): multiset<Entry> {
    if catalog == [] then multiset{}
    else
      var earlier, last := catalog[..|catalog| - 1], catalog[|catalog| - 1];
      ExpectedTotal(remote, overlay, earlier) + multiset(Expected(remote, overlay, last))
  }

  lemma {:induction false} TotalMatches(
    ws: Workspace, catalog: seq<CatalogPage>, remote: Workspace, overlay: Overlay, was: seq<CatalogPage>)
    requires |catalog| == |was|
    requires forall i :: 0 <= i < |catalog| ==> EntriesOf(ws, catalog[i]) == Expected(remote, overlay, was[i])
    ensures Total(ws, catalog) == ExpectedTotal(remote, overlay, was)
  {
    if catalog != [] {
      var n := |catalog| - 1;
      TotalMatches(ws, catalog[..n], remote, overlay, was[..n]);
    }
  }

  lemma {:induction false} TotalConcat(ws: Workspace, a: seq<CatalogPage>, b: seq<CatalogPage>)
    ensures Total(ws, a + b) == Total(ws, a) + Total(ws, b)
  {
    if b == [] {
      assert a + b == a;
    } else {
      assert (a + b)[..|a + b| - 1] == a + b[..|b| - 1];
      TotalConcat(ws, a, b[..|b| - 1]);
    }
  }

  lemma {:induction false} ExpectedConcat(remote: Workspace, overlay: Overlay, a: seq<CatalogPage>, b: seq<CatalogPage>)
    ensures ExpectedTotal(remote, overlay, a + b) ==
            ExpectedTotal(remote, overlay, a) + ExpectedTotal(remote, overlay, b)
  {
    if b == [] {
      assert a + b == a;
    } else {
      assert (a + b)[..|a + b| - 1] == a + b[..|b| - 1];
      ExpectedConcat(remote, overlay, a, b[..|b| - 1]);
    }
  }

  /** Every page's place in the sum, with the active page's taken out. */
  lemma ExpectedSplit(remote: Workspace, overlay: Overlay, a: nat)
    requires a < |remote.catalog|
    ensures ExpectedTotal(remote, overlay, remote.catalog) ==
            ExpectedTotal(remote, overlay, remote.catalog[..a]) + multiset(Expected(remote, overlay, remote.catalog[a]))
            + ExpectedTotal(remote, overlay, remote.catalog[a + 1..])
  {
    var c := remote.catalog;
    assert c == c[..a + 1] + c[a + 1..] && c[..a + 1][..a] == c[..a];
    ExpectedConcat(remote, overlay, c[..a + 1], c[a + 1..]);
  }

  lemma {:induction false} WithoutNone(catalog: seq<CatalogPage>, uuid: string)
    requires forall i :: 0 <= i < |catalog| ==> catalog[i].uuid != uuid
    ensures Without(catalog, uuid) == catalog
  {
    if catalog != [] {
      WithoutNone(catalog[..|catalog| - 1], uuid);
    }
  }

  lemma {:induction false} WithoutAt(catalog: seq<CatalogPage>, a: nat)
    requires DistinctUuids(catalog) && a < |catalog|
    ensures Without(catalog, catalog[a].uuid) == catalog[..a] + catalog[a + 1..]
  {
    var n := |catalog| - 1;
    if a == n {
      WithoutNone(catalog[..n], catalog[a].uuid);
    } else {
      WithoutAt(catalog[..n], a);
      assert catalog[..n][..a] == catalog[..a];
      assert catalog[a + 1..] == catalog[..n][a + 1..] + [catalog[n]];
    }
  }

  lemma UpdatedConserves(remote: Workspace, a: nat, overlay: Overlay, before: (string, string) -> bool)
    requires WellFormedAt(remote, a)
    ensures Contents(Updated(EditedWorkspace(remote, overlay, before), remote.catalog[a].uuid,
                             ActiveEntries(remote, overlay), before)) ==
            ExpectedTotal(remote, overlay, remote.catalog)
  {
    var edited := EditedWorkspace(remote, overlay, before);
    var after := Updated(edited, remote.catalog[a].uuid, ActiveEntries(remote, overlay), before);
    forall i | 0 <= i < |after.catalog|
      ensures EntriesOf(after, after.catalog[i]) == Expected(remote, overlay, remote.catalog[i])
    {
      assert i != a ==> EntriesOf(edited, edited.catalog[i]) == Expected(remote, overlay, remote.catalog[i]);
    }
    TotalMatches(after, after.catalog, remote, overlay, remote.catalog);
  }

  lemma TotalBesides(ws: Workspace, catalog: seq<CatalogPage>, remote: Workspace, overlay: Overlay, a: nat)
    requires |catalog| == |remote.catalog| && a < |catalog|
    requires forall i :: 0 <= i < |catalog| && i != a ==>
               EntriesOf(ws, catalog[i]) == Expected(remote, overlay, remote.catalog[i])
    ensures Total(ws, catalog[..a] + catalog[a + 1..]) + multiset(Expected(remote, overlay, remote.catalog[a])) ==
            ExpectedTotal(remote, overlay, remote.catalog)
  {
    TotalConcat(ws, catalog[..a], catalog[a + 1..]);
    TotalMatches(ws, catalog[..a], remote, overlay, remote.catalog[..a]);
    TotalMatches(ws, catalog[a + 1..], remote, overlay, remote.catalog[a + 1..]);
    ExpectedSplit(remote, overlay, a);
  }

  lemma ClearedExpected(remote: Workspace, a: nat, overlay: Overlay, before: (string, string) -> bool)
    requires WellFormedAt(remote, a)
    ensures var edited := EditedWorkspace(remote, overlay, before);
            var cleared := ClearedOf(edited, remote.catalog[a].uuid);
            && (forall i :: 0 <= i < |remote.catalog| && i != a ==>
                  EntriesOf(cleared, edited.catalog[i]) == Expected(remote, overlay, remote.catalog[i]))
            && cleared.catalog == edited.catalog[..a] + edited.catalog[a + 1..]
  {
    var edited := EditedWorkspace(remote, overlay, before);
    EditsWellFormed(remote, a, overlay, before);
    WithoutAt(edited.catalog, a);
    forall i | 0 <= i < |remote.catalog| && i != a
      ensures EntriesOf(ClearedOf(edited, remote.catalog[a].uuid), edited.catalog[i]) ==
              Expected(remote, overlay, remote.catalog[i])
    {
      assert EntriesOf(edited, edited.catalog[i]) == Expected(remote, overlay, remote.catalog[i]);
    }
  }

  lemma ClearedConserves(remote: Workspace, a: nat, overlay: Overlay, before: (string, string) -> bool)
    requires WellFormedAt(remote, a)
    ensures Contents(ClearedOf(EditedWorkspace(remote, overlay, before), remote.catalog[a].uuid))
            + multiset(ActiveEntries(remote, overlay)) == ExpectedTotal(remote, overlay, remote.catalog)
  {
    var edited := EditedWorkspace(remote, overlay, before);
    ClearedExpected(remote, a, overlay, before);
    TotalBesides(ClearedOf(edited, remote.catalog[a].uuid), edited.catalog, remote, overlay, a);
  }
}
