/** What one page is under the changes recorded for it: overlaying changes is
    overriding a map from ids to entries, sorting is a stable permutation in
    descending order of time, and the effective ids shown to an editor are those
    of the overlaid page. */
module AnnouncementProperties {
  import opened NameOrder
  import opened Announcements

  // ---- Overlaying is overriding a map --------------------------------------

  ghost predicate EachIdOnce(entries: seq<Entry>) {
    forall i, j :: 0 <= i < j < |entries| ==> entries[i].id != entries[j].id
  }

  /** The list holds exactly the map's entries, each once. */
  ghost predicate Lists(d: seq<Entry>, m: map<string, Entry>) {
    && EachIdOnce(d) && m.Keys == IdsOf(d)
    && forall i :: 0 <= i < |d| ==> d[i].id in m && m[d[i].id] == d[i]
  }

  /** Of entries that share an id the last counts. */
  ghost function LastById(entries: seq<Entry>): map<string, Entry> {
    if entries == [] then map[]
    else LastById(entries[..|entries| - 1])[entries[|entries| - 1].id := entries[|entries| - 1]]
  }

  lemma StoredIds(d: seq<Entry>, e: Entry)
    ensures IdsOf(Stored(d, e)) == IdsOf(d) + {e.id}
  {
    var i, s := PositionOf(d, e.id), Stored(d, e);
    forall x | x in d
      ensures x.id in IdsOf(s)
    {
      var j :| 0 <= j < |d| && d[j] == x;
      assert s[j] in s && s[j].id == x.id;
    }
    assert s[i] in s;
    if i < |d| {
      assert d[i] in d;
    }
  }

  lemma StoredLists(d: seq<Entry>, m: map<string, Entry>, e: Entry)
    requires Lists(d, m)
    ensures Lists(Stored(d, e), m[e.id := e])
  {
    StoredIds(d, e);
    var i, s := PositionOf(d, e.id), Stored(d, e);
    forall j | 0 <= j < |s|
      ensures j < |d| ==> s[j].id == d[j].id
      ensures j != i ==> s[j] == d[j] && s[j].id != e.id
    {
      if i < j {
        assert d[i].id != d[j].id;
      }
    }
    assert EachIdOnce(s);
  }

  lemma DroppedIds(d: seq<Entry>, id: string)
    requires EachIdOnce(d)
    ensures IdsOf(Dropped(d, id)) == IdsOf(d) - {id}
  {
    var i, s := PositionOf(d, id), Dropped(d, id);
    if i < |d| {
      assert d == d[..i] + [d[i]] + d[i + 1..];
      DroppedDistinct(d, id);
    }
  }

  lemma DroppedDistinct(d: seq<Entry>, id: string)
    requires EachIdOnce(d)
    ensures EachIdOnce(Dropped(d, id))
    ensures forall j :: 0 <= j < |Dropped(d, id)| ==>
              Dropped(d, id)[j].id != id && exists k :: 0 <= k < |d| && d[k] == Dropped(d, id)[j]
  {
    var i, s := PositionOf(d, id), Dropped(d, id);
    assert i < |d| ==> forall j :: 0 <= j < |s| ==> s[j] == if j < i then d[j] else d[j + 1];
  }

  lemma DroppedLists(d: seq<Entry>, m: map<string, Entry>, id: string)
    requires Lists(d, m)
    ensures Lists(Dropped(d, id), m - {id})
  {
    DroppedIds(d, id);
    DroppedDistinct(d, id);
    assert (m - {id}).Keys == m.Keys - {id};
  }

  lemma {:induction false} EntriesByIdLists(entries: seq<Entry>)
    ensures Lists(EntriesById(entries), LastById(entries))
  {
    if entries != [] {
      EntriesByIdLists(entries[..|entries| - 1]);
      StoredLists(EntriesById(entries[..|entries| - 1]), LastById(entries[..|entries| - 1]), entries[|entries| - 1]);
    }
  }

  lemma {:induction false} AppliedLists(d: seq<Entry>, m: map<string, Entry>, changes: seq<Change>)
    requires Lists(d, m)
    ensures Lists(Applied(d, changes), Overridden(m, changes))
  {
    if changes != [] {
      var earlier, c := changes[..|changes| - 1], changes[|changes| - 1];
      AppliedLists(d, m, earlier);
      if c.Upsert? {
        StoredLists(Applied(d, earlier), Overridden(m, earlier), c.entry);
      } else {
        DroppedLists(Applied(d, earlier), Overridden(m, earlier), c.gone);
      }
    }
  }

  // ---- Sorting -------------------------------------------------------------

  ghost predicate Newest(s: seq<Entry>) {
    forall i, j :: 0 <= i < j < |s| ==> !Less(s[i].publishedAt, s[j].publishedAt)
  }

  /** The entries published at `t`, in their order. */
  ghost function At(s: seq<Entry>, t: string): seq<Entry> {
    if s == [] then []
    else At(s[..|s| - 1], t) + if s[|s| - 1].publishedAt == t then [s[|s| - 1]] else []
  }

  lemma {:induction false} PlacedAdds(s: seq<Entry>, e: Entry)
    ensures multiset(Placed(s, e)) == multiset(s) + multiset{e}
  {
    if s != [] {
      assert s == s[..|s| - 1] + [s[|s| - 1]];
      PlacedAdds(s[..|s| - 1], e);
    }
  }

  lemma NewestAppend(s: seq<Entry>, e: Entry)
    requires Newest(s) && forall x :: x in s ==> !Less(x.publishedAt, e.publishedAt)
    ensures Newest(s + [e])
  {
  }

  lemma {:induction false} PlacedNewest(s: seq<Entry>, e: Entry)
    requires Newest(s)
    ensures Newest(Placed(s, e))
  {
    if s != [] {
      var earlier, last := s[..|s| - 1], s[|s| - 1];
      assert s == earlier + [last];
      LessTotal(last.publishedAt, e.publishedAt);
      if Less(last.publishedAt, e.publishedAt) {
        PlacedNewest(earlier, e);
        PlacedAdds(earlier, e);
        forall x | x in Placed(earlier, e)
          ensures !Less(x.publishedAt, last.publishedAt)
        {
          assert x in multiset(earlier) + multiset{e};
        }
        NewestAppend(Placed(earlier, e), last);
      } else {
        forall x | x in s
          ensures !Less(x.publishedAt, e.publishedAt)
        {
          if x in earlier {
            NotLessTransitive(x.publishedAt, last.publishedAt, e.publishedAt);
          }
        }
        NewestAppend(s, e);
      }
    }
  }

  /** Placing an entry leaves those of each time in order, the new one last. */
  lemma {:induction false} PlacedStable(s: seq<Entry>, e: Entry, t: string)
    ensures At(Placed(s, e), t) == At(s, t) + if e.publishedAt == t then [e] else []
  {
    if s == [] {
    } else {
      var earlier, last := s[..|s| - 1], s[|s| - 1];
      if Less(last.publishedAt, e.publishedAt) {
        PlacedStable(earlier, e, t);
        LessTotal(last.publishedAt, e.publishedAt);
      }
    }
  }

  lemma NotLessTransitive(a: string, b: string, c: string)
    requires !Less(a, b) && !Less(b, c)
    ensures !Less(a, c)
  {
    LessTotal(a, b);
    LessTotal(b, c);
    if Less(a, c) {
      LessTotal(a, c);
      if Less(b, a) && Less(c, b) {
        LessTransitive(c, b, a);
      }
    }
  }

  /** Newest first, the same entries, and those of one time in their order. */
  lemma {:induction false} NewestFirstSorts(s: seq<Entry>)
    ensures multiset(NewestFirst(s)) == multiset(s)
    ensures Newest(NewestFirst(s))
    ensures forall t :: At(NewestFirst(s), t) == At(s, t)
  {
    if s != [] {
      var earlier, last := s[..|s| - 1], s[|s| - 1];
      assert s == earlier + [last];
      NewestFirstSorts(earlier);
      PlacedAdds(NewestFirst(earlier), last);
      PlacedNewest(NewestFirst(earlier), last);
      forall t
        ensures At(NewestFirst(s), t) == At(s, t)
      {
        PlacedStable(NewestFirst(earlier), last, t);
      }
    }
  }

  lemma {:induction false} DistinctCountsOnce(s: seq<Entry>, x: Entry)
    requires EachIdOnce(s)
    ensures multiset(s)[x] <= 1
  {
    if s != [] {
      var earlier, last := s[..|s| - 1], s[|s| - 1];
      assert s == earlier + [last];
      DistinctCountsOnce(earlier, x);
      if x == last {
        assert last !in earlier;
      }
    }
  }

  lemma TwiceCountsTwo(s: seq<Entry>, i: nat, j: nat)
    requires i < j < |s| && s[i] == s[j]
    ensures multiset(s)[s[i]] >= 2
  {
    assert s == s[..i] + [s[i]] + s[i + 1..j] + [s[j]] + s[j + 1..];
  }

  lemma PermutationLists(a: seq<Entry>, b: seq<Entry>, m: map<string, Entry>)
    requires multiset(a) == multiset(b) && Lists(a, m)
    ensures Lists(b, m)
  {
    assert forall x :: x in a <==> x in multiset(a);
    assert forall x :: x in b <==> x in multiset(b);
    forall i, j | 0 <= i < j < |b|
      ensures b[i].id != b[j].id
    {
      assert b[i] in a && b[j] in a;
      if b[i].id == b[j].id {
        DistinctCountsOnce(a, b[i]);
        TwiceCountsTwo(b, i, j);
      }
    }
    forall i | 0 <= i < |b|
      ensures b[i].id in m && m[b[i].id] == b[i]
    {
      assert b[i] in a;
    }
  }

  /** Applying changes to a page is overriding its entries by id, sorted. */
  lemma OverlaidLists(entries: seq<Entry>, changes: seq<Change>)
    ensures Lists(Overlaid(entries, changes), Overridden(LastById(entries), changes))
    ensures Newest(Overlaid(entries, changes))
  {
    EntriesByIdLists(entries);
    AppliedLists(EntriesById(entries), LastById(entries), changes);
    var applied := Applied(EntriesById(entries), changes);
    NewestFirstSorts(applied);
    PermutationLists(applied, NewestFirst(applied), Overridden(LastById(entries), changes));
  }

  // ---- Effective ids -------------------------------------------------------

  lemma {:induction false} LastByIdKeys(entries: seq<Entry>)
    ensures LastById(entries).Keys == IdsOf(entries)
  {
    if entries != [] {
      LastByIdKeys(entries[..|entries| - 1]);
      assert entries == entries[..|entries| - 1] + [entries[|entries| - 1]];
    }
  }

  lemma {:induction false} OverriddenKeys(m: map<string, Entry>, changes: seq<Change>)
    ensures Overridden(m, changes).Keys == IdsAfter(m.Keys, changes)
  {
    if changes != [] {
      OverriddenKeys(m, changes[..|changes| - 1]);
    }
  }

  lemma {:induction false} DistinctSize(s: seq<Entry>)
    requires EachIdOnce(s)
    ensures |IdsOf(s)| == |s|
  {
    if s != [] {
      var earlier, last := s[..|s| - 1], s[|s| - 1];
      assert s == earlier + [last];
      DistinctSize(earlier);
      assert IdsOf(s) == IdsOf(earlier) + {last.id};
      assert last.id !in IdsOf(earlier);
    }
  }

  /** The effective ids are those of the overlaid page, and their number its size. */
  lemma OverlaidIds(entries: seq<Entry>, changes: seq<Change>)
    ensures IdsOf(Overlaid(entries, changes)) == IdsAfter(IdsOf(entries), changes)
    ensures |Overlaid(entries, changes)| == |IdsAfter(IdsOf(entries), changes)|
    ensures EachIdOnce(Overlaid(entries, changes))
  {
    OverlaidLists(entries, changes);
    LastByIdKeys(entries);
    OverriddenKeys(LastById(entries), changes);
    DistinctSize(Overlaid(entries, changes));
  }

  // ---- Edits in a session --------------------------------------------------

  datatype Edit = UpsertEdit(key: string, entry: Entry) | RemoveEdit(id: string)

  function AfterEdit(overlay: Overlay, e: Edit): Overlay {
    match e
    case UpsertEdit(key, entry) => Upserted(overlay, key, entry)
    case RemoveEdit(id) => Removed(overlay, id)
  }

  /** The overlay that edits lead to from the empty one. */
  function AfterEdits(edits: seq<Edit>): Overlay {
    if edits == [] then map[] else AfterEdit(AfterEdits(edits[..|edits| - 1]), edits[|edits| - 1])
  }

  /** No sequence of edits makes two changes of one entry. */
  lemma {:induction false} EditsStayOk(edits: seq<Edit>)
    ensures OverlayOk(AfterEdits(edits))
  {
    if edits != [] {
      EditsStayOk(edits[..|edits| - 1]);
      match edits[|edits| - 1]
      case UpsertEdit(key, entry) => UpsertMeans(AfterEdits(edits[..|edits| - 1]), key, entry, map[]);
      case RemoveEdit(id) => RemoveMeans(AfterEdits(edits[..|edits| - 1]), id, map[]);
    }
  }

  lemma EffectiveIsOverridden(entries: seq<Entry>, changes: seq<Change>)
    ensures IdsAfter(IdsOf(entries), changes) == Overridden(LastById(entries), changes).Keys
  {
    LastByIdKeys(entries);
    OverriddenKeys(LastById(entries), changes);
  }

  /** Upserting an entry adds its id to the effective ids of the page and keeps
      all others; the page built then lists the entry. */
  lemma UpsertTakesEffect(entries: seq<Entry>, edits: seq<Edit>, key: string, entry: Entry)
    ensures var overlay := AfterEdits(edits);
            var before, after := ChangesFor(overlay, key), ChangesFor(Upserted(overlay, key, entry), key);
            && IdsAfter(IdsOf(entries), after) == IdsAfter(IdsOf(entries), before) + {entry.id}
            && Lists(Overlaid(entries, after), Overridden(LastById(entries), before)[entry.id := entry])
  {
    var overlay := AfterEdits(edits);
    EditsStayOk(edits);
    UpsertMeans(overlay, key, entry, LastById(entries));
    EffectiveIsOverridden(entries, ChangesFor(overlay, key));
    EffectiveIsOverridden(entries, ChangesFor(Upserted(overlay, key, entry), key));
    OverlaidLists(entries, ChangesFor(Upserted(overlay, key, entry), key));
  }

  /** Removing an entry takes effect unless the entry is on the remote page and
      was edited this session: then only the edit is undone, and it stays. */
  lemma RemoveTakesEffectIff(entries: seq<Entry>, edits: seq<Edit>, id: string)
    ensures var overlay := AfterEdits(edits);
            id !in IdsAfter(IdsOf(entries), ChangesFor(Removed(overlay, id), ACTIVE)) <==>
              !(EditedThisSession(overlay, id) && id in IdsOf(entries))
  {
    var overlay := AfterEdits(edits);
    EditsStayOk(edits);
    RemoveMeans(overlay, id, LastById(entries));
    EffectiveIsOverridden(entries, ChangesFor(Removed(overlay, id), ACTIVE));
    LastByIdKeys(entries);
  }
}
