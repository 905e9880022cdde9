/** The structural preflight checks, the page summaries, and runs of publishes. */
module AnnouncementPreflight {
  import opened StoreTypes
  import opened NameOrder
  import opened Announcements
  import opened AnnouncementProperties
  import opened AnnouncementBuilds
  import opened AnnouncementRotation
  import Versions

  datatype Issue =
    | ActivePages(found: nat)
    | PageFileMissing(uuid: string)
    | WrongSize(uuid: string, size: nat)
    | NoActiveFile
    | ActiveTooLarge(size: nat)
    | Unreadable(uuid: string)
    | RepeatedEntry(uuid: string, id: string)

  // ---- What the checks report ----------------------------------------------

  function CountActive(catalog: seq<CatalogPage>): nat {
    if catalog == [] then 0
    else CountActive(catalog[..|catalog| - 1]) + if catalog[|catalog| - 1].active then 1 else 0
  }

  function SizeIssue(ws: Workspace, p: CatalogPage): seq<Issue> {
    if p.active then []
    else if p.uuid !in ws.pages then [PageFileMissing(p.uuid)]
    else if |ws.pages[p.uuid].entries| != PAGE_SIZE then [WrongSize(p.uuid, |ws.pages[p.uuid].entries|)]
    else []
  }

  function SizeIssues(ws: Workspace, catalog: seq<CatalogPage>): seq<Issue> {
    if catalog == [] then [] else SizeIssues(ws, catalog[..|catalog| - 1]) + SizeIssue(ws, catalog[|catalog| - 1])
  }

  /** A catalog uuid read as the client reads it: the active one from its own file. */
  function ReadAnyPage(ws: Workspace, uuid: string): Option<Page> {
    if ActiveUuid(ws.catalog) == Some(uuid) then ws.active
    else if uuid in ws.pages then Some(ws.pages[uuid]) else None
  }

  function Repeats(uuid: string, entries: seq<Entry>): seq<Issue> {
    if entries == [] then []
    else
      var earlier, id := entries[..|entries| - 1], entries[|entries| - 1].id;
      Repeats(uuid, earlier) + if id in IdsOf(earlier) then [RepeatedEntry(uuid, id)] else []
  }

  function EntryIssue(ws: Workspace, p: CatalogPage): seq<Issue> {
    match ReadAnyPage(ws, p.uuid)
    case None => [Unreadable(p.uuid)]
    case Some(page) => Repeats(p.uuid, page.entries)
  }

  function RepeatIssues(ws: Workspace, catalog: seq<CatalogPage>): seq<Issue> {
    if catalog == [] then [] else RepeatIssues(ws, catalog[..|catalog| - 1]) + EntryIssue(ws, catalog[|catalog| - 1])
  }

  function ActiveFileIssues(ws: Workspace): seq<Issue> {
    if ActiveUuid(ws.catalog) in {None, Some("")} then []
    else match ws.active
      case None => [NoActiveFile]
      case Some(page) => if |page.entries| > PAGE_SIZE then [ActiveTooLarge(|page.entries|)] else []
  }

  function StructuralIssues(ws: Workspace): seq<Issue> {
    (if CountActive(ws.catalog) != 1 then [ActivePages(CountActive(ws.catalog))] else [])
    + SizeIssues(ws, ws.catalog) + ActiveFileIssues(ws) + RepeatIssues(ws, ws.catalog)
  }

  // ---- The checks ----------------------------------------------------------

  method CheckEntries(uuid: string, entries: seq<Entry>) returns (issues: seq<Issue>)
    ensures issues == Repeats(uuid, entries)
  {
    issues := [];
    var seen: set<string> := {};
    for i := 0 to |entries|
      invariant issues == Repeats(uuid, entries[..i]) && seen == IdsOf(entries[..i])
    {
      assert entries[..i + 1] == entries[..i] + [entries[i]];
      if entries[i].id in seen {
        issues := issues + [RepeatedEntry(uuid, entries[i].id)];
      }
      seen := seen + {entries[i].id};
    }
    assert entries[..|entries|] == entries;
  }

  method CountActivePages(catalog: seq<CatalogPage>) returns (n: nat)
    ensures n == CountActive(catalog)
  {
    n := 0;
    for i := 0 to |catalog|
      invariant n == CountActive(catalog[..i])
    {
      assert catalog[..i + 1][..i] == catalog[..i];
      n := n + if catalog[i].active then 1 else 0;
    }
    assert catalog[..|catalog|] == catalog;
  }

  method CheckSizes(ws: Workspace) returns (issues: seq<Issue>)
    ensures issues == SizeIssues(ws, ws.catalog)
  {
    issues := [];
    for i := 0 to |ws.catalog|
      invariant issues == SizeIssues(ws, ws.catalog[..i])
    {
      assert ws.catalog[..i + 1][..i] == ws.catalog[..i];
      var p := ws.catalog[i];
      if p.active {
        continue;
      }
      if p.uuid !in ws.pages {
        issues := issues + [PageFileMissing(p.uuid)];
      } else if |ws.pages[p.uuid].entries| != PAGE_SIZE {
        issues := issues + [WrongSize(p.uuid, |ws.pages[p.uuid].entries|)];
      }
    }
    assert ws.catalog[..|ws.catalog|] == ws.catalog;
  }

  method CheckPages(ws: Workspace) returns (issues: seq<Issue>)
    ensures issues == RepeatIssues(ws, ws.catalog)
  {
    issues := [];
    for i := 0 to |ws.catalog|
      invariant issues == RepeatIssues(ws, ws.catalog[..i])
    {
      assert ws.catalog[..i + 1][..i] == ws.catalog[..i];
      var page := ReadAnyPage(ws, ws.catalog[i].uuid);
      if page.None? {
        issues := issues + [Unreadable(ws.catalog[i].uuid)];
        continue;
      }
      var repeats := CheckEntries(ws.catalog[i].uuid, page.value.entries);
      issues := issues + repeats;
    }
    assert ws.catalog[..|ws.catalog|] == ws.catalog;
  }

  method RunPreflight(ws: Workspace) returns (issues: seq<Issue>)
    ensures issues == StructuralIssues(ws)
  {
    var actives := CountActivePages(ws.catalog);
    issues := if actives != 1 then [ActivePages(actives)] else [];
    var more := CheckSizes(ws);
    issues := issues + more + ActiveFileIssues(ws);
    more := CheckPages(ws);
    issues := issues + more;
  }

  // ---- What passing means --------------------------------------------------

  lemma {:induction false} CountActiveMeans(catalog: seq<CatalogPage>)
    ensures CountActive(catalog) == 0 <==> forall i :: 0 <= i < |catalog| ==> !catalog[i].active
    ensures CountActive(catalog) == 1 <==> exists a: nat :: ActiveAt(catalog, a)
  {
    if catalog != [] {
      var n := |catalog| - 1;
      CountActiveMeans(catalog[..n]);
      if catalog[n].active {
        if CountActive(catalog[..n]) == 0 {
          assert ActiveAt(catalog, n);
        }
        forall a: nat | ActiveAt(catalog, a)
          ensures CountActive(catalog[..n]) == 0
        {
          assert a == n;
        }
      } else {
        assert forall a: nat :: ActiveAt(catalog, a) <==> ActiveAt(catalog[..n], a);
      }
    }
  }

  ghost predicate SizeOk(ws: Workspace, p: CatalogPage) {
    p.active || (p.uuid in ws.pages && |ws.pages[p.uuid].entries| == PAGE_SIZE)
  }

  ghost predicate EntriesOk(ws: Workspace, p: CatalogPage) {
    ReadAnyPage(ws, p.uuid).Some? && EachIdOnce(ReadAnyPage(ws, p.uuid).value.entries)
  }

  lemma {:induction false} SizeIssuesMean(ws: Workspace, catalog: seq<CatalogPage>)
    ensures SizeIssues(ws, catalog) == [] <==> forall p :: p in catalog ==> SizeOk(ws, p)
  {
    if catalog != [] {
      var earlier, last := catalog[..|catalog| - 1], catalog[|catalog| - 1];
      SizeIssuesMean(ws, earlier);
      assert catalog == earlier + [last];
      assert SizeIssue(ws, last) == [] <==> SizeOk(ws, last);
    }
  }

  lemma {:induction false} EntryIssuesMean(ws: Workspace, catalog: seq<CatalogPage>)
    ensures RepeatIssues(ws, catalog) == [] <==> forall p :: p in catalog ==> EntriesOk(ws, p)
  {
    if catalog != [] {
      var earlier, last := catalog[..|catalog| - 1], catalog[|catalog| - 1];
      EntryIssuesMean(ws, earlier);
      assert catalog == earlier + [last];
      assert EntryIssue(ws, last) == [] <==> EntriesOk(ws, last) by {
        if ReadAnyPage(ws, last.uuid).Some? {
          RepeatsMean(last.uuid, ReadAnyPage(ws, last.uuid).value.entries);
        }
      }
    }
  }

  lemma {:induction false} RepeatsMean(uuid: string, entries: seq<Entry>)
    ensures Repeats(uuid, entries) == [] <==> EachIdOnce(entries)
  {
    if entries != [] {
      var n := |entries| - 1;
      RepeatsMean(uuid, entries[..n]);
      if EachIdOnce(entries[..n]) && entries[n].id !in IdsOf(entries[..n]) {
        forall i, j | 0 <= i < j < |entries|
          ensures entries[i].id != entries[j].id
        {
          if j < n {
            assert entries[..n][i].id != entries[..n][j].id;
          }
        }
      }
      if EachIdOnce(entries) {
        forall i, j | 0 <= i < j < n
          ensures entries[..n][i].id != entries[..n][j].id
        {
          assert entries[i].id != entries[j].id;
        }
      }
    }
  }

  ghost predicate ActiveFileOk(ws: Workspace) {
    ActiveUuid(ws.catalog).Some? && ActiveUuid(ws.catalog).value != "" ==>
      ws.active.Some? && |ws.active.value.entries| <= PAGE_SIZE
  }

  ghost predicate Acceptable(ws: Workspace) {
    && (exists a: nat :: ActiveAt(ws.catalog, a))
    && ActiveFileOk(ws)
    && (forall p :: p in ws.catalog ==> SizeOk(ws, p))
    && forall p :: p in ws.catalog ==> EntriesOk(ws, p)
  }

  /** The structural checks pass exactly the acceptable workspaces: one active
      page of at most twenty entries, full archived pages, no id twice in a page. */
  lemma PreflightPassesIff(ws: Workspace)
    ensures StructuralIssues(ws) == [] <==> Acceptable(ws)
  {
    CountActiveMeans(ws.catalog);
    SizeIssuesMean(ws, ws.catalog);
    EntryIssuesMean(ws, ws.catalog);
    assert ActiveFileIssues(ws) == [] <==> ActiveFileOk(ws);
  }

  lemma WellFormedAcceptable(ws: Workspace, a: nat)
    requires WellFormedAt(ws, a)
    ensures Acceptable(ws)
  {
    ActiveUuidAt(ws.catalog, a);
    forall p | p in ws.catalog
      ensures SizeOk(ws, p) && EntriesOk(ws, p)
    {
      var i :| 0 <= i < |ws.catalog| && ws.catalog[i] == p;
      if i != a {
        assert ArchivedOk(ws, p) && p.uuid != ws.catalog[a].uuid;
      }
    }
  }

  // ---- Exactly what is reported --------------------------------------------

  /** The first active page of the catalog. */
  ghost predicate FirstActive(catalog: seq<CatalogPage>, a: nat) {
    a < |catalog| && catalog[a].active && forall j :: 0 <= j < a ==> !catalog[j].active
  }

  ghost predicate ActiveIs(catalog: seq<CatalogPage>, uuid: string) {
    exists a: nat :: FirstActive(catalog, a) && catalog[a].uuid == uuid
  }

  /** A uuid is read from the active page's file when it is the active one's,
      else from its own. */
  ghost predicate Holds(ws: Workspace, uuid: string, entries: seq<Entry>) {
    if ActiveIs(ws.catalog, uuid) then ws.active.Some? && ws.active.value.entries == entries
    else uuid in ws.pages && ws.pages[uuid].entries == entries
  }

  ghost predicate Repeated(entries: seq<Entry>, id: string) {
    exists i, j :: 0 <= i < j < |entries| && entries[i].id == id == entries[j].id
  }

  function ActivePlaces(catalog: seq<CatalogPage>): set<nat> {
    set a: nat | a < |catalog| && catalog[a].active
  }

  ghost predicate Reported(ws: Workspace, i: Issue) {
    match i
    case ActivePages(found) => found != 1 && found == |ActivePlaces(ws.catalog)|
    case PageFileMissing(u) => u !in ws.pages && exists p :: p in ws.catalog && p.uuid == u && !p.active
    case WrongSize(u, n) =>
      u in ws.pages && n == |ws.pages[u].entries| != 20 && exists p :: p in ws.catalog && p.uuid == u && !p.active
    case NoActiveFile => ws.active.None? && exists u :: u != "" && ActiveIs(ws.catalog, u)
    case ActiveTooLarge(n) =>
      ws.active.Some? && n == |ws.active.value.entries| > 20 && exists u :: u != "" && ActiveIs(ws.catalog, u)
    case Unreadable(u) => (exists p :: p in ws.catalog && p.uuid == u) && forall entries :: !Holds(ws, u, entries)
    case RepeatedEntry(u, id) =>
      (exists p :: p in ws.catalog && p.uuid == u) && exists entries :: Holds(ws, u, entries) && Repeated(entries, id)
  }

  lemma {:induction false} CountIsSize(catalog: seq<CatalogPage>)
    ensures CountActive(catalog) == |ActivePlaces(catalog)|
  {
    if catalog != [] {
      var n := |catalog| - 1;
      CountIsSize(catalog[..n]);
      assert ActivePlaces(catalog) == ActivePlaces(catalog[..n]) + if catalog[n].active then {n} else {};
    }
  }

  lemma {:induction false} ActiveUuidMeans(catalog: seq<CatalogPage>)
    ensures match ActiveUuid(catalog) {
              case None => forall u :: !ActiveIs(catalog, u)
              case Some(uuid) => forall u :: ActiveIs(catalog, u) <==> u == uuid
            }
  {
    if catalog != [] && catalog[0].active {
      assert FirstActive(catalog, 0);
      assert forall a: nat :: FirstActive(catalog, a) ==> a == 0;
    } else if catalog != [] {
      ActiveUuidMeans(catalog[1..]);
      forall u
        ensures ActiveIs(catalog, u) <==> ActiveIs(catalog[1..], u)
      {
        LaterActive(catalog, u);
      }
    }
  }

  lemma LaterActive(catalog: seq<CatalogPage>, u: string)
    requires catalog != [] && !catalog[0].active
    ensures ActiveIs(catalog, u) <==> ActiveIs(catalog[1..], u)
  {
    if a: nat :| FirstActive(catalog[1..], a) && catalog[1..][a].uuid == u {
      assert FirstActive(catalog, a + 1);
    }
    if a: nat :| FirstActive(catalog, a) && catalog[a].uuid == u {
      assert a > 0;
      assert catalog[1..][a - 1] == catalog[a];
      assert FirstActive(catalog[1..], a - 1);
    }
  }

  lemma {:induction false} SizeIssuesAre(ws: Workspace, catalog: seq<CatalogPage>, i: Issue)
    ensures i in SizeIssues(ws, catalog) <==> exists p :: p in catalog && i in SizeIssue(ws, p)
  {
    if catalog != [] {
      SizeIssuesAre(ws, catalog[..|catalog| - 1], i);
      assert catalog == catalog[..|catalog| - 1] + [catalog[|catalog| - 1]];
    }
  }

  lemma {:induction false} RepeatIssuesAre(ws: Workspace, catalog: seq<CatalogPage>, i: Issue)
    ensures i in RepeatIssues(ws, catalog) <==> exists p :: p in catalog && i in EntryIssue(ws, p)
  {
    if catalog != [] {
      RepeatIssuesAre(ws, catalog[..|catalog| - 1], i);
      assert catalog == catalog[..|catalog| - 1] + [catalog[|catalog| - 1]];
    }
  }

  lemma {:induction false} RepeatsAre(uuid: string, entries: seq<Entry>, i: Issue)
    ensures i in Repeats(uuid, entries) <==> i.RepeatedEntry? && i.uuid == uuid && Repeated(entries, i.id)
  {
    if entries != [] {
      var earlier, last := entries[..|entries| - 1], entries[|entries| - 1];
      RepeatsAre(uuid, earlier, i);
      RepeatedOneMore(earlier, last);
      assert entries == earlier + [last];
    }
  }

  lemma RepeatedOneMore(earlier: seq<Entry>, last: Entry)
    ensures forall id :: Repeated(earlier + [last], id) <==>
              Repeated(earlier, id) || (id == last.id && id in IdsOf(earlier))
  {
    var all := earlier + [last];
    forall id
      ensures Repeated(all, id) <==> Repeated(earlier, id) || (id == last.id && id in IdsOf(earlier))
    {
      if i, j :| 0 <= i < j < |earlier| && earlier[i].id == id == earlier[j].id {
        assert all[i].id == id == all[j].id;
      }
      if id == last.id && id in IdsOf(earlier) {
        var e :| e in earlier && e.id == id;
        var i :| 0 <= i < |earlier| && earlier[i] == e;
        assert all[i].id == id == all[|earlier|].id;
      }
      if i, j :| 0 <= i < j < |all| && all[i].id == id == all[j].id {
        assert earlier[i].id == id && earlier[i] in earlier;
        assert j < |earlier| ==> earlier[j].id == id;
      }
    }
  }

  lemma HoldsIsRead(ws: Workspace, uuid: string, entries: seq<Entry>)
    ensures Holds(ws, uuid, entries) <==>
            ReadAnyPage(ws, uuid).Some? && ReadAnyPage(ws, uuid).value.entries == entries
  {
    ActiveUuidMeans(ws.catalog);
  }

  lemma EntryIssueMeans(ws: Workspace, p: CatalogPage, i: Issue)
    ensures i in EntryIssue(ws, p) <==>
            || (i == Unreadable(p.uuid) && forall entries :: !Holds(ws, p.uuid, entries))
            || (i.RepeatedEntry? && i.uuid == p.uuid
                && exists entries :: Holds(ws, p.uuid, entries) && Repeated(entries, i.id))
  {
    forall entries
      ensures Holds(ws, p.uuid, entries) <==>
              ReadAnyPage(ws, p.uuid).Some? && ReadAnyPage(ws, p.uuid).value.entries == entries
    {
      HoldsIsRead(ws, p.uuid, entries);
    }
    if ReadAnyPage(ws, p.uuid).Some? {
      RepeatsAre(p.uuid, ReadAnyPage(ws, p.uuid).value.entries, i);
      assert Holds(ws, p.uuid, ReadAnyPage(ws, p.uuid).value.entries);
    }
  }

  lemma ActiveFileIssuesAre(ws: Workspace, i: Issue)
    ensures i in ActiveFileIssues(ws) <==> (i.NoActiveFile? || i.ActiveTooLarge?) && Reported(ws, i)
  {
    ActiveUuidMeans(ws.catalog);
    if ActiveUuid(ws.catalog).Some? {
      assert ActiveIs(ws.catalog, ActiveUuid(ws.catalog).value);
    }
  }

  lemma SizeIssueMeans(ws: Workspace, i: Issue)
    ensures i in SizeIssues(ws, ws.catalog) <==> (i.PageFileMissing? || i.WrongSize?) && Reported(ws, i)
  {
    SizeIssuesAre(ws, ws.catalog, i);
    if (i.PageFileMissing? || i.WrongSize?) && Reported(ws, i) {
      var p :| p in ws.catalog && p.uuid == i.uuid && !p.active;
      assert i in SizeIssue(ws, p);
    }
  }

  lemma RepeatIssueMeans(ws: Workspace, i: Issue)
    ensures i in RepeatIssues(ws, ws.catalog) <==> (i.Unreadable? || i.RepeatedEntry?) && Reported(ws, i)
  {
    RepeatIssuesAre(ws, ws.catalog, i);
    forall p | p in ws.catalog
      ensures i in EntryIssue(ws, p) <==>
              || (i == Unreadable(p.uuid) && forall entries :: !Holds(ws, p.uuid, entries))
              || (i.RepeatedEntry? && i.uuid == p.uuid
                  && exists entries :: Holds(ws, p.uuid, entries) && Repeated(entries, i.id))
    {
      EntryIssueMeans(ws, p, i);
    }
  }

  /** The structural checks report exactly what is wrong: the number of active
      pages unless it is one, archived pages without a file or not of twenty
      entries, a missing or oversized active file, catalog pages that cannot be
      read, and ids that a page has more than once. */
  lemma StructuralIssuesAre(ws: Workspace, i: Issue)
    ensures i in StructuralIssues(ws) <==> Reported(ws, i)
  {
    CountIsSize(ws.catalog);
    SizeIssueMeans(ws, i);
    ActiveFileIssuesAre(ws, i);
    RepeatIssueMeans(ws, i);
  }

  // ---- Summaries -----------------------------------------------------------

  /** Version precedence: a strict order whose incomparability is transitive. */
  ghost predicate Precedence(before: (string, string) -> bool) {
    && (forall a, b :: before(a, b) ==> !before(b, a))
    && forall a, b, c :: !before(a, b) && !before(b, c) ==> !before(a, c)
  }

  /** The order of the announcements' own version key is such a precedence. */
  lemma VersionKeyIsPrecedence()
    ensures Precedence(Versions.VersionBefore)
  {
    forall a, b, c
      ensures Versions.VersionBefore(a, b) ==> !Versions.VersionBefore(b, a)
      ensures !Versions.VersionBefore(a, b) && !Versions.VersionBefore(b, c) ==> !Versions.VersionBefore(a, c)
    {
      Versions.VersionBeforeIsPrecedence(a, b, c);
    }
  }

  /** The version of entry `i`, which is before those of all earlier entries. */
  ghost predicate LowestAt(entries: seq<Entry>, i: nat, version: string, before: (string, string) -> bool) {
    && i < |entries| && entries[i].minAppVersion == Some(version)
    && forall j :: 0 <= j < i && entries[j].minAppVersion.Some? ==> before(version, entries[j].minAppVersion.value)
  }

  lemma {:induction false} LowestIsLowest(entries: seq<Entry>, before: (string, string) -> bool)
    requires Precedence(before) && entries != [] && forall e :: e in entries ==> e.minAppVersion.Some?
    ensures forall e :: e in entries ==> !before(e.minAppVersion.value, LowestVersion(entries, before))
    ensures exists i :: LowestAt(entries, i, LowestVersion(entries, before), before)
  {
    var n := |entries| - 1;
    assert entries == entries[..n] + [entries[n]];
    if n > 0 {
      LowestIsLowest(entries[..n], before);
      var low, best, last := LowestVersion(entries, before), LowestVersion(entries[..n], before),
          entries[n].minAppVersion.value;
      forall e | e in entries
        ensures !before(e.minAppVersion.value, low)
      {
        if low == last && e in entries[..n] {
          assert !before(e.minAppVersion.value, best) && !before(best, last);
        }
      }
      if before(last, best) {
        forall j | 0 <= j < n
          ensures before(last, entries[j].minAppVersion.value)
        {
          assert entries[..n][j] in entries[..n] && !before(entries[j].minAppVersion.value, best);
        }
        assert LowestAt(entries, n, low, before);
      } else {
        var i :| LowestAt(entries[..n], i, best, before);
        assert LowestAt(entries, i, low, before);
      }
    } else {
      assert LowestAt(entries, 0, LowestVersion(entries, before), before);
    }
  }

  /** A summary bounds entries: it carries exactly their channels, each once and
      in order, and the first lowest of their minimum versions, or "0.0.0" when
      an entry has none. */
  ghost predicate Bounds(s: Summary, entries: seq<Entry>, before: (string, string) -> bool) {
    && (forall c :: c in s.channels <==> exists e :: e in entries && c in e.channels) && Ascending(s.channels)
    && (entries == [] || (exists e :: e in entries && e.minAppVersion.None?) ==> s.minAppVersion == "0.0.0")
    && (entries != [] && (forall e :: e in entries ==> e.minAppVersion.Some?) ==>
          && (forall e :: e in entries ==> !before(e.minAppVersion.value, s.minAppVersion))
          && exists i :: LowestAt(entries, i, s.minAppVersion, before))
  }

  lemma SummaryBounds(entries: seq<Entry>, before: (string, string) -> bool)
    requires Precedence(before)
    ensures Bounds(SummaryOf(entries, before), entries, before)
  {
    if entries != [] && forall e :: e in entries ==> e.minAppVersion.Some? {
      LowestIsLowest(entries, before);
    }
  }

  /** The page's catalog entry summarises the entries the page holds. */
  ghost predicate SummarisedAt(ws: Workspace, p: CatalogPage, before: (string, string) -> bool) {
    var s := SummaryOf(EntriesOf(ws, p), before);
    p.channels == s.channels && p.minAppVersion == s.minAppVersion
  }

  ghost predicate AllSummarised(ws: Workspace, before: (string, string) -> bool) {
    forall i :: 0 <= i < |ws.catalog| ==> SummarisedAt(ws, ws.catalog[i], before)
  }

  /** A page that a build has no reason to rewrite: archived, listed as it was
      on the remote, and not edited. */
  ghost predicate Untouched(remote: Workspace, overlay: Overlay, p: CatalogPage) {
    !p.active && p in remote.catalog && !Edited(overlay, remote, overlay.Keys, p.uuid)
  }

  /** The page is summarised, or it is untouched and holds what it held. */
  ghost predicate SettledAt(
    remote: Workspace, overlay: Overlay, ws: Workspace, p: CatalogPage, before: (string, string) -> bool)
  {
    SummarisedAt(ws, p, before) || (Untouched(remote, overlay, p) && EntriesOf(ws, p) == EntriesOf(remote, p))
  }

  ghost predicate AllSettled(remote: Workspace, overlay: Overlay, ws: Workspace, before: (string, string) -> bool) {
    forall i :: 0 <= i < |ws.catalog| ==> SettledAt(remote, overlay, ws, ws.catalog[i], before)
  }

  lemma {:induction false} RotatedSettled(
    remote: Workspace, overlay: Overlay, ws: Workspace, entries: seq<Entry>, newUuid: nat -> string, k: nat,
    now: string, before: (string, string) -> bool)
    requires Shelved(ws) && Unused(ws, newUuid, k) && AllSettled(remote, overlay, ws, before)
    ensures AllSettled(remote, overlay, Rotated(ws, entries, newUuid, k, now, before), before)
    decreases |entries|
  {
    if |entries| >= PAGE_SIZE {
      var next := Archived(ws, newUuid(k), now, entries[..PAGE_SIZE], before);
      forall i | 0 <= i < |next.catalog|
        ensures SettledAt(remote, overlay, next, next.catalog[i], before)
      {
        assert i < |ws.catalog| ==> SettledAt(remote, overlay, ws, ws.catalog[i], before);
      }
      RotatedSettled(remote, overlay, next, entries[PAGE_SIZE..], newUuid, k + 1, now, before);
    } else {
      var next := Activated(ws, newUuid(k), now, entries, before);
      forall i | 0 <= i < |next.catalog|
        ensures SettledAt(remote, overlay, next, next.catalog[i], before)
      {
        assert i < |ws.catalog| ==> SettledAt(remote, overlay, ws, ws.catalog[i], before);
      }
    }
  }

  ghost predicate ArchivedSettled(
    remote: Workspace, overlay: Overlay, ws: Workspace, a: nat, before: (string, string) -> bool)
  {
    forall i :: 0 <= i < |ws.catalog| && i != a ==> SettledAt(remote, overlay, ws, ws.catalog[i], before)
  }

  lemma EditedSettled(remote: Workspace, a: nat, overlay: Overlay, before: (string, string) -> bool)
    requires WellFormedAt(remote, a)
    ensures ArchivedSettled(remote, overlay, EditedWorkspace(remote, overlay, before), a, before)
  {
    var edited := EditedWorkspace(remote, overlay, before);
    forall i | 0 <= i < |edited.catalog| && i != a
      ensures SettledAt(remote, overlay, edited, edited.catalog[i], before)
    {
      assert ArchivedOk(remote, remote.catalog[i]);
      if !Edited(overlay, remote, overlay.Keys, remote.catalog[i].uuid) {
        assert edited.catalog[i] == remote.catalog[i];
      }
    }
  }

  /** From any well-formed remote, every page that a build rewrites, edited,
      rotated or active, is summarised by its catalog entry; every other page
      holds what it held. */
  lemma BuildSummarises(
    remote: Workspace, a: nat, overlay: Overlay, newUuid: nat -> string, now: string, before: (string, string) -> bool)
    requires WellFormedAt(remote, a) && Unused(remote, newUuid, 0)
    ensures var built := Build(remote, overlay, newUuid, now, before);
            && built.Ready? && AllSettled(remote, overlay, built.ws, before)
            && (AllSummarised(remote, before) ==> AllSummarised(built.ws, before))
  {
    var edited, entries, uuid :=
      EditedWorkspace(remote, overlay, before), ActiveEntries(remote, overlay), remote.catalog[a].uuid;
    BuildCases(remote, a, overlay, newUuid, now, before);
    EditsWellFormed(remote, a, overlay, before);
    EditedSettled(remote, a, overlay, before);
    if |entries| < PAGE_SIZE {
      UpdatedSettled(remote, overlay, edited, a, entries, before);
    } else {
      ClearedShelved(remote, a, overlay, newUuid, before);
      ClearedSettled(remote, overlay, edited, a, before);
      RotatedSettled(remote, overlay, ClearedOf(edited, uuid), entries, newUuid, 0, now, before);
    }
    SettledIsSummarised(remote, overlay, Build(remote, overlay, newUuid, now, before).ws, before);
  }

  lemma SettledIsSummarised(remote: Workspace, overlay: Overlay, ws: Workspace, before: (string, string) -> bool)
    requires AllSettled(remote, overlay, ws, before)
    ensures AllSummarised(remote, before) ==> AllSummarised(ws, before)
  {
    if AllSummarised(remote, before) {
      forall i | 0 <= i < |ws.catalog|
        ensures SummarisedAt(ws, ws.catalog[i], before)
      {
        assert SettledAt(remote, overlay, ws, ws.catalog[i], before);
        if Untouched(remote, overlay, ws.catalog[i]) {
          var j :| 0 <= j < |remote.catalog| && remote.catalog[j] == ws.catalog[i];
          assert SummarisedAt(remote, remote.catalog[j], before);
        }
      }
    }
  }

  /** The summary of every rewritten page bounds the entries it holds. */
  lemma RewrittenAreBounded(
    remote: Workspace, a: nat, overlay: Overlay, newUuid: nat -> string, now: string, before: (string, string) -> bool,
    i: nat)
    requires WellFormedAt(remote, a) && Unused(remote, newUuid, 0) && Precedence(before)
    ensures var built := Build(remote, overlay, newUuid, now, before);
            built.Ready? &&
            (i < |built.ws.catalog| && !Untouched(remote, overlay, built.ws.catalog[i]) ==>
               var p := built.ws.catalog[i];
               Bounds(Summary(p.channels, p.minAppVersion), EntriesOf(built.ws, p), before))
  {
    BuildSummarises(remote, a, overlay, newUuid, now, before);
    var built := Build(remote, overlay, newUuid, now, before).ws;
    if i < |built.catalog| && !Untouched(remote, overlay, built.catalog[i]) {
      assert SettledAt(remote, overlay, built, built.catalog[i], before);
      SummaryBounds(EntriesOf(built, built.catalog[i]), before);
    }
  }

  lemma UpdatedSettled(
    remote: Workspace, overlay: Overlay, ws: Workspace, a: nat, entries: seq<Entry>, before: (string, string) -> bool)
    requires Filed(ws) && ActiveAt(ws.catalog, a) && ws.active.Some? && ArchivedSettled(remote, overlay, ws, a, before)
    ensures AllSettled(remote, overlay, Updated(ws, ws.catalog[a].uuid, entries, before), before)
  {
    var after := Updated(ws, ws.catalog[a].uuid, entries, before);
    forall i | 0 <= i < |after.catalog|
      ensures SettledAt(remote, overlay, after, after.catalog[i], before)
    {
      if i != a {
        assert SettledAt(remote, overlay, ws, ws.catalog[i], before) && after.catalog[i] == ws.catalog[i];
      }
    }
  }

  lemma ClearedSettled(remote: Workspace, overlay: Overlay, ws: Workspace, a: nat, before: (string, string) -> bool)
    requires Filed(ws) && ActiveAt(ws.catalog, a) && ArchivedSettled(remote, overlay, ws, a, before)
    ensures AllSettled(remote, overlay, ClearedOf(ws, ws.catalog[a].uuid), before)
  {
    var cleared := ClearedOf(ws, ws.catalog[a].uuid);
    forall i: nat | i < |cleared.catalog|
      ensures SettledAt(remote, overlay, cleared, cleared.catalog[i], before)
    {
      var j := ClearedMembers(ws, a, i);
      assert SettledAt(remote, overlay, ws, ws.catalog[j], before);
    }
  }

  // ---- Publishing again and again ------------------------------------------

  datatype Publish = Publish(overlay: Overlay, newUuid: nat -> string, now: string)

  /** After a publish the built workspace is the remote. */
  function Republished(remote: Workspace, p: Publish, before: (string, string) -> bool): Workspace {
    var built := Build(remote, p.overlay, p.newUuid, p.now, before);
    if built.Ready? then built.ws else remote
  }

  /** New uuids, and no archived page that loses or gains ids. */
  ghost predicate Proper(remote: Workspace, p: Publish) {
    Unused(remote, p.newUuid, 0) && KeepsTwenty(remote, p.overlay)
  }

  ghost predicate PublishAt(remotes: seq<Workspace>, ps: seq<Publish>, before: (string, string) -> bool, i: nat)
    requires |remotes| == |ps| + 1 && i < |ps|
  {
    Proper(remotes[i], ps[i]) && remotes[i + 1] == Republished(remotes[i], ps[i], before)
  }

  /** The remotes that a sequence of proper publishes goes through. */
  ghost predicate Publishes(remotes: seq<Workspace>, ps: seq<Publish>, before: (string, string) -> bool) {
    && |remotes| == |ps| + 1
    && forall i: nat {:trigger PublishAt(remotes, ps, before, i)} :: i < |ps| ==> PublishAt(remotes, ps, before, i)
  }

  /** However often workspaces are published, the remote stays well-formed. */
  lemma {:induction false} PublishesKeep(
    remotes: seq<Workspace>, ps: seq<Publish>, before: (string, string) -> bool, i: nat)
    requires Publishes(remotes, ps, before) && WellFormed(remotes[0]) && i <= |ps|
    ensures WellFormed(remotes[i])
  {
    if i > 0 {
      PublishesKeep(remotes, ps, before, i - 1);
      NextPublish(remotes, ps, before, i - 1);
    }
  }

  lemma NextPublish(remotes: seq<Workspace>, ps: seq<Publish>, before: (string, string) -> bool, i: nat)
    requires Publishes(remotes, ps, before) && i < |ps| && WellFormed(remotes[i])
    ensures WellFormed(remotes[i + 1])
    ensures AllSettled(remotes[i], ps[i].overlay, remotes[i + 1], before)
    ensures AllSummarised(remotes[i], before) ==> AllSummarised(remotes[i + 1], before)
  {
    assert PublishAt(remotes, ps, before, i);
    OnePublish(remotes[i], ps[i], before);
  }

  /** Each publish summarises what it rewrites; a remote without stale
      summaries never gets one. */
  lemma {:induction false} PublishesSummarise(
    remotes: seq<Workspace>, ps: seq<Publish>, before: (string, string) -> bool, i: nat)
    requires Publishes(remotes, ps, before) && WellFormed(remotes[0]) && i <= |ps|
    ensures i > 0 ==> AllSettled(remotes[i - 1], ps[i - 1].overlay, remotes[i], before)
    ensures AllSummarised(remotes[0], before) ==> AllSummarised(remotes[i], before)
  {
    if i > 0 {
      PublishesSummarise(remotes, ps, before, i - 1);
      PublishesKeep(remotes, ps, before, i - 1);
      NextPublish(remotes, ps, before, i - 1);
    }
  }

  /** Each of them passes the structural preflight. */
  lemma PublishesPass(remotes: seq<Workspace>, ps: seq<Publish>, before: (string, string) -> bool, i: nat)
    requires Publishes(remotes, ps, before) && WellFormed(remotes[0]) && i <= |ps|
    ensures StructuralIssues(remotes[i]) == []
  {
    PublishesKeep(remotes, ps, before, i);
    var a :| WellFormedAt(remotes[i], a);
    WellFormedAcceptable(remotes[i], a);
    PreflightPassesIff(remotes[i]);
  }

  /** Each publish of a run holds exactly the entries its overlay makes of the
      remote before it. */
  lemma PublishesConserve(remotes: seq<Workspace>, ps: seq<Publish>, before: (string, string) -> bool, i: nat)
    requires Publishes(remotes, ps, before) && WellFormed(remotes[0]) && i < |ps|
    ensures Contents(remotes[i + 1]) == ExpectedTotal(remotes[i], ps[i].overlay, remotes[i].catalog)
  {
    PublishesKeep(remotes, ps, before, i);
    assert PublishAt(remotes, ps, before, i);
    OnePublish(remotes[i], ps[i], before);
  }

  lemma OnePublish(was: Workspace, p: Publish, before: (string, string) -> bool)
    requires WellFormed(was) && Proper(was, p)
    ensures var after := Republished(was, p, before);
            && WellFormed(after) && AllSettled(was, p.overlay, after, before)
            && (AllSummarised(was, before) ==> AllSummarised(after, before))
            && Contents(after) == ExpectedTotal(was, p.overlay, was.catalog)
  {
    var a :| WellFormedAt(was, a);
    BuildWellFormedIff(was, a, p.overlay, p.newUuid, p.now, before);
    BuildSummarises(was, a, p.overlay, p.newUuid, p.now, before);
    BuildConserves(was, a, p.overlay, p.newUuid, p.now, before);
  }
}
