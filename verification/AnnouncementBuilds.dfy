/** What a publish builds: page sizes, counts, conservation, order. */
module AnnouncementBuilds {
  import opened NameOrder
  import opened Announcements
  import opened AnnouncementProperties
  import opened AnnouncementRotation

  /** The effective ids of a page are those it would hold before rotation, each once. */
  lemma EffectiveIdsHold(remote: Workspace, overlay: Overlay, key: string)
    ensures key == ACTIVE && remote.active.Some? ==>
              EffectiveIds(remote, overlay, key) == IdsOf(ActiveEntries(remote, overlay))
                  && EachIdOnce(ActiveEntries(remote, overlay))
    ensures key != ACTIVE && key in remote.pages ==>
              EffectiveIds(remote, overlay, key) == IdsOf(EditedEntries(overlay, remote, key))
                  && EachIdOnce(EditedEntries(overlay, remote, key))
  {
    if key == ACTIVE && remote.active.Some? {
      OverlaidIds(remote.active.value.entries, ChangesFor(overlay, ACTIVE));
    } else if key in remote.pages {
      OverlaidIds(remote.pages[key].entries, ChangesFor(overlay, key));
    }
  }

  lemma BuildCases(
    remote: Workspace, a: nat, overlay: Overlay, newUuid: nat -> string, now: string,
    before: (string, string) -> bool)
    requires WellFormedAt(remote, a)
    ensures var edited, entries, uuid :=
            EditedWorkspace(remote, overlay, before), ActiveEntries(remote, overlay), remote.catalog[a].uuid;
            Build(remote, overlay, newUuid, now, before) ==
            Ready(if |entries| < PAGE_SIZE then Updated(edited, uuid, entries, before)
                  else Rotated(ClearedOf(edited, uuid), entries, newUuid, 0, now, before))
  {
    ActiveUuidAt(remote.catalog, a);
  }

  lemma RotatedBrokenStays(
    edited: Workspace, a: nat, entries: seq<Entry>, newUuid: nat -> string, now: string,
    before: (string, string) -> bool, j: nat)
    requires Filed(edited) && ActiveAt(edited.catalog, a) && j < |edited.catalog| && j != a
    requires Unused(ClearedOf(edited, edited.catalog[a].uuid), newUuid, 0)
    requires edited.catalog[j].uuid in edited.pages && !ArchivedOk(edited, edited.catalog[j])
    ensures !WellFormed(Rotated(ClearedOf(edited, edited.catalog[a].uuid), entries, newUuid, 0, now, before))
  {
    var uuid, p := edited.catalog[a].uuid, edited.catalog[j];
    var cleared := ClearedOf(edited, uuid);
    var after := Rotated(cleared, entries, newUuid, 0, now, before);
    WithoutShape(edited.catalog, uuid);
    RotatedKeeps(cleared, entries, newUuid, 0, now, before);
    assert p in cleared.catalog;
    var i :| 0 <= i < |cleared.catalog| && cleared.catalog[i] == p;
    assert after.catalog[i] == p && !ArchivedOk(after, p);
    forall b | WellFormedAt(after, b)
      ensures false
    {
    }
  }

  /** From a well-formed remote and new uuids, a build succeeds, and what it
      builds is well-formed exactly when no archived page lost or gained ids. */
  lemma BuildWellFormedIff(
    remote: Workspace, a: nat, overlay: Overlay, newUuid: nat -> string, now: string,
    before: (string, string) -> bool)
    requires WellFormedAt(remote, a) && Unused(remote, newUuid, 0)
    ensures var built := Build(remote, overlay, newUuid, now, before);
            built.Ready? && (WellFormed(built.ws) <==> KeepsTwenty(remote, overlay))
  {
    var edited, entries, uuid :=
        EditedWorkspace(remote, overlay, before), ActiveEntries(remote, overlay), remote.catalog[a].uuid;
    BuildCases(remote, a, overlay, newUuid, now, before);
    EditsWellFormed(remote, a, overlay, before);
    OverlaidIds(remote.active.value.entries, ChangesFor(overlay, ACTIVE));
    if |entries| < PAGE_SIZE {
      UpdatedWellFormed(edited, a, entries, before);
      UpdatedOnlyAt(edited, a, entries, before);
    } else {
      ClearedShelved(remote, a, overlay, newUuid, before);
      if KeepsTwenty(remote, overlay) {
        ClearedAllArchived(edited, a);
        RotatedWellFormed(ClearedOf(edited, uuid), entries, newUuid, 0, now, before);
      } else {
        var j: nat :| j < |edited.catalog| && j != a && !ArchivedOk(edited, edited.catalog[j]);
        assert ArchivedOk(remote, remote.catalog[j]);
        RotatedBrokenStays(edited, a, entries, newUuid, now, before, j);
      }
    }
  }

  lemma UpdatedOnlyAt(ws: Workspace, a: nat, entries: seq<Entry>, before: (string, string) -> bool)
    requires ActiveAt(ws.catalog, a) && ws.active.Some?
    ensures forall b :: WellFormedAt(Updated(ws, ws.catalog[a].uuid, entries, before), b) ==> b == a
  {
    var after := Updated(ws, ws.catalog[a].uuid, entries, before);
    assert forall i :: 0 <= i < |ws.catalog| ==> after.catalog[i].active == ws.catalog[i].active;
  }

  /** Edits of entries a page already holds never change its number. */
  lemma EditsKeepTwenty(remote: Workspace, a: nat, overlay: Overlay)
    requires WellFormedAt(remote, a)
    requires forall k, c :: k in overlay && k != ACTIVE && k in remote.pages && c in overlay[k] ==>
               c.Upsert? && c.entry.id in IdsOf(remote.pages[k].entries)
    ensures KeepsTwenty(remote, overlay)
  {
    forall i | 0 <= i < |remote.catalog| && Edited(overlay, remote, overlay.Keys, remote.catalog[i].uuid)
      ensures |IdsAfter(IdsOf(remote.pages[remote.catalog[i].uuid].entries), overlay[remote.catalog[i].uuid])| ==
              PAGE_SIZE
    {
      var key := remote.catalog[i].uuid;
      assert i != a && ArchivedOk(remote, remote.catalog[i]);
      KnownUpserts(IdsOf(remote.pages[key].entries), overlay[key]);
      DistinctSize(remote.pages[key].entries);
    }
  }

  lemma {:induction false} KnownUpserts(ids: set<string>, changes: seq<Change>)
    requires forall c :: c in changes ==> c.Upsert? && c.entry.id in ids
    ensures IdsAfter(ids, changes) == ids
  {
    if changes != [] {
      assert changes[|changes| - 1] in changes;
      KnownUpserts(ids, changes[..|changes| - 1]);
    }
  }

  /** A build conserves entries: all pages together hold exactly what the
      overlay makes of each remote page, wherever rotation put it. */
  lemma BuildConserves(
    remote: Workspace, a: nat, overlay: Overlay, newUuid: nat -> string, now: string,
    before: (string, string) -> bool)
    requires WellFormedAt(remote, a) && Unused(remote, newUuid, 0)
    ensures var built := Build(remote, overlay, newUuid, now, before);
            built.Ready? && Contents(built.ws) == ExpectedTotal(remote, overlay, remote.catalog)
  {
    var edited, entries, uuid :=
        EditedWorkspace(remote, overlay, before), ActiveEntries(remote, overlay), remote.catalog[a].uuid;
    BuildCases(remote, a, overlay, newUuid, now, before);
    if |entries| < PAGE_SIZE {
      UpdatedConserves(remote, a, overlay, before);
    } else {
      ClearedShelved(remote, a, overlay, newUuid, before);
      RotatedConserves(ClearedOf(edited, uuid), entries, newUuid, 0, now, before);
      ClearedConserves(remote, a, overlay, before);
    }
  }

  /** A rotating build archives from the newest end: nothing it moved off the
      active page is older than anything left on it. */
  lemma RotationLeavesOldest(
    remote: Workspace, a: nat, overlay: Overlay, newUuid: nat -> string, now: string,
    before: (string, string) -> bool)
    requires WellFormedAt(remote, a) && |ActiveEntries(remote, overlay)| >= PAGE_SIZE
    ensures var built, entries := Build(remote, overlay, newUuid, now, before), ActiveEntries(remote, overlay);
            var n := |entries| - |entries| % PAGE_SIZE;
            && built.Ready? && built.ws.active.Some? && built.ws.active.value.entries == entries[n..]
            && forall x, y :: x in entries[..n] && y in entries[n..] ==> !Less(x.publishedAt, y.publishedAt)
  {
    var entries := ActiveEntries(remote, overlay);
    BuildCases(remote, a, overlay, newUuid, now, before);
    RemainderIs(|entries|);
    RotatedLeavesTail(ClearedOf(EditedWorkspace(remote, overlay, before), remote.catalog[a].uuid), entries, newUuid, 0,
                      now, before);
    OverlaidLists(remote.active.value.entries, ChangesFor(overlay, ACTIVE));
  }
}
