/** The blob workers of a publish. */
module ResourceManagement {
  // A shared, lock-protected dedup map and counters, and any number of tasks
  // interleaved at their atomic sections.

  import opened StoreTypes

  // ---- The lock-protected sections -----------------------------------------

  datatype Counters = Counters(dedup: set<BlobId>, registered: nat, existing: nat, uploaded: nat)

  function Registered(c: Counters, blob: BlobId): Counters {
    c.(dedup := c.dedup + {blob}, registered := c.registered + 1)
  }

  function Handled(c: Counters, found: bool): Counters {
    c.(existing := c.existing + if found then 1 else 0, uploaded := c.uploaded + 1)
  }

  class ResourceManager {
    var dedup: set<BlobId>
    var registered: nat
    var existing: nat
    var uploaded: nat

    ghost function View(): Counters
      reads this
    {
      Counters(dedup, registered, existing, uploaded)
    }

    constructor ()
      ensures View() == Counters({}, 0, 0, 0)
    {
      dedup, registered, existing, uploaded := {}, 0, 0, 0;
    }

    /** First section of `process_blob`: count the call; the first caller of a
        path gets to handle it. */
    method Register(blob: BlobId) returns (first: bool)
      modifies this
      ensures first == (blob !in old(dedup))
      ensures View() == Registered(old(View()), blob)
    {
      registered := registered + 1;
      if blob in dedup {
        assert dedup + {blob} == dedup;
        return false;
      }
      dedup := dedup + {blob};
      first := true;
    }

    /** Second section: count a handled path, found on the remote or uploaded. */
    method CountHandled(found: bool)
      modifies this
      ensures View() == Handled(old(View()), found)
    {
      if found {
        existing := existing + 1;
      }
      uploaded := uploaded + 1;
    }
  }

  // ---- Interleaved tasks ---------------------------------------------------

  /** A local blob is processed; one missing locally must exist remotely. */
  datatype Task = Process(blob: BlobId) | MustExist(blob: BlobId)

  /** Where a task stands between its atomic actions. */
  datatype Pc =
    | Pending
    | Duplicate
    | Checking
    | Found
    | Missing
    | Uploaded
    | Counted(found: bool)
    | Verified
    | Failed

  /** `checks` and `uploads` count the existence requests and the uploads sent
      for a path, answered or not. */
  datatype Pool = Pool(
    tasks: seq<Task>, pcs: seq<Pc>, counters: Counters, remote: set<BlobId>,
    owner: map<BlobId, nat>, checks: multiset<BlobId>, uploads: multiset<BlobId>)

  function Start(tasks: seq<Task>, remote: set<BlobId>): Pool {
    Pool(tasks, seq(|tasks|, _ => Pending), Counters({}, 0, 0, 0), remote, map[], multiset{}, multiset{})
  }

  predicate Live(pc: Pc) {
    !(pc.Duplicate? || pc.Counted? || pc.Verified? || pc.Failed?)
  }

  /** One atomic action of task `i`; `fails` says that a remote request errs. */
  function Act(p: Pool, i: nat, fails: bool): Pool
    requires i < |p.tasks| == |p.pcs| && Live(p.pcs[i])
  {
    var b := p.tasks[i].blob;
    match p.pcs[i]
    case Pending =>
      if p.tasks[i].MustExist? then
        p.(checks := p.checks + multiset{b},
           pcs := p.pcs[i := if !fails && b in p.remote then Verified else Failed])
      else if b in p.counters.dedup then
        p.(pcs := p.pcs[i := Duplicate], counters := Registered(p.counters, b))
      else
        p.(pcs := p.pcs[i := Checking], counters := Registered(p.counters, b), owner := p.owner[b := i])
    case Checking =>
      p.(checks := p.checks + multiset{b},
         pcs := p.pcs[i := if fails then Failed else if b in p.remote then Found else Missing])
    case Found =>
      p.(pcs := p.pcs[i := Counted(true)], counters := Handled(p.counters, true))
    case Missing =>
      if fails then p.(pcs := p.pcs[i := Failed])
      else p.(pcs := p.pcs[i := Uploaded], remote := p.remote + {b}, uploads := p.uploads + multiset{b})
    case Uploaded =>
      p.(pcs := p.pcs[i := Counted(false)], counters := Handled(p.counters, false))
    case _ => p
  }

  // ---- What every interleaving keeps ---------------------------------------

  predicate Owning(t: Task, pc: Pc) {
    t.Process? && !pc.Pending? && !pc.Duplicate?
  }

  function CountedTasks(pcs: seq<Pc>): set<nat> {
    set i: nat | i < |pcs| && pcs[i].Counted?
  }

  function FoundTasks(pcs: seq<Pc>): set<nat> {
    set i: nat | i < |pcs| && pcs[i] == Counted(true)
  }

  function RegisteredTasks(tasks: seq<Task>, pcs: seq<Pc>): set<nat> {
    set i: nat | i < |pcs| && i < |tasks| && tasks[i].Process? && !pcs[i].Pending?
  }

  /** The requests already sent for a blob that is missing locally. */
  function RequiredTasks(tasks: seq<Task>, pcs: seq<Pc>, b: BlobId): set<nat> {
    set i: nat | i < |pcs| && i < |tasks| && tasks[i] == MustExist(b) && !pcs[i].Pending?
  }

  ghost predicate Shaped(p: Pool) {
    |p.pcs| == |p.tasks| && p.counters.dedup == p.owner.Keys
  }

  /** What holds of one task: an owning task is its path's owner, and a task
      past its remote request has its blob on the remote. */
  ghost predicate TaskOk(p: Pool, i: nat)
    requires Shaped(p) && i < |p.tasks|
  {
    var t, pc := p.tasks[i], p.pcs[i];
    && (Owning(t, pc) ==> t.blob in p.owner && p.owner[t.blob] == i)
    && (t.MustExist? ==> pc.Pending? || pc.Verified? || pc.Failed?)
    && (pc.Verified? ==> t.MustExist?)
    && (pc.Duplicate? ==> t.blob in p.owner)
    && (pc.Found? || pc.Uploaded? || pc.Counted? || pc.Verified? ==> t.blob in p.remote)
  }

  /** What holds of one path: its owner processes it, checks it once and alone
      uploads it, at most once; every other check is one of the requests for a
      blob that is missing locally, each of which sends its own. */
  ghost predicate PathOk(p: Pool, b: BlobId)
    requires Shaped(p)
  {
    var required := |RequiredTasks(p.tasks, p.pcs, b)|;
    if b !in p.owner then p.checks[b] == required && p.uploads[b] == 0
    else
      && p.owner[b] < |p.tasks| && p.tasks[p.owner[b]] == Process(b) && Owning(p.tasks[p.owner[b]], p.pcs[p.owner[b]])
      && var pc := p.pcs[p.owner[b]];
         && p.checks[b] == required + (if pc.Checking? then 0 else 1)
         && p.uploads[b] <= 1
         && (pc.Checking? || pc.Found? || pc.Missing? || pc == Counted(true) ==> p.uploads[b] == 0)
         && (pc.Uploaded? || pc == Counted(false) ==> p.uploads[b] == 1)
  }

  ghost predicate CountersMatch(p: Pool) {
    && p.counters.uploaded == |CountedTasks(p.pcs)|
    && p.counters.existing == |FoundTasks(p.pcs)|
    && p.counters.registered == |RegisteredTasks(p.tasks, p.pcs)|
  }

  ghost predicate PoolInv(p: Pool) {
    && Shaped(p)
    && (forall i: nat {:trigger TaskOk(p, i)} :: i < |p.tasks| ==> TaskOk(p, i))
    && (forall b {:trigger PathOk(p, b)} :: PathOk(p, b))
    && CountersMatch(p)
  }

  lemma TaskStep(p: Pool, i: nat, fails: bool, j: nat)
    requires Shaped(p) && i < |p.tasks| && j < |p.tasks| && Live(p.pcs[i])
    requires TaskOk(p, i) && TaskOk(p, j)
    requires PathOk(p, p.tasks[i].blob) && PathOk(p, p.tasks[j].blob)
    ensures Shaped(Act(p, i, fails)) && TaskOk(Act(p, i, fails), j)
  {
    assert p.counters.dedup + {p.tasks[i].blob} == p.owner.Keys + {p.tasks[i].blob};
  }

  lemma PathStep(p: Pool, i: nat, fails: bool, b: BlobId)
    requires Shaped(p) && i < |p.tasks| && Live(p.pcs[i])
    requires TaskOk(p, i) && PathOk(p, b) && PathOk(p, p.tasks[i].blob)
    requires Shaped(Act(p, i, fails))
    ensures PathOk(Act(p, i, fails), b)
  {
    assert Act(p, i, fails).pcs == p.pcs[i := Act(p, i, fails).pcs[i]];
    RequiredUpdate(p.tasks, p.pcs, i, Act(p, i, fails).pcs[i], b);
  }

  lemma RequiredUpdate(tasks: seq<Task>, pcs: seq<Pc>, i: nat, pc: Pc, b: BlobId)
    requires i < |pcs| == |tasks| && !pc.Pending?
    ensures |RequiredTasks(tasks, pcs[i := pc], b)| ==
            |RequiredTasks(tasks, pcs, b)| + if tasks[i] == MustExist(b) && pcs[i].Pending? then 1 else 0
  {
    assert RequiredTasks(tasks, pcs[i := pc], b) ==
           RequiredTasks(tasks, pcs, b) + if tasks[i] == MustExist(b) && pcs[i].Pending? then {i} else {};
  }

  lemma CountedUpdate(pcs: seq<Pc>, i: nat, pc: Pc)
    requires i < |pcs| && !pcs[i].Counted?
    ensures |CountedTasks(pcs[i := pc])| == |CountedTasks(pcs)| + if pc.Counted? then 1 else 0
  {
    assert CountedTasks(pcs[i := pc]) == CountedTasks(pcs) + if pc.Counted? then {i} else {};
  }

  lemma FoundUpdate(pcs: seq<Pc>, i: nat, pc: Pc)
    requires i < |pcs| && !pcs[i].Counted?
    ensures |FoundTasks(pcs[i := pc])| == |FoundTasks(pcs)| + if pc == Counted(true) then 1 else 0
  {
    assert FoundTasks(pcs[i := pc]) == FoundTasks(pcs) + if pc == Counted(true) then {i} else {};
  }

  lemma RegisteredUpdate(tasks: seq<Task>, pcs: seq<Pc>, i: nat, pc: Pc)
    requires i < |pcs| == |tasks| && !pc.Pending?
    ensures |RegisteredTasks(tasks, pcs[i := pc])| ==
            |RegisteredTasks(tasks, pcs)| + if tasks[i].Process? && pcs[i].Pending? then 1 else 0
  {
    assert RegisteredTasks(tasks, pcs[i := pc]) ==
           RegisteredTasks(tasks, pcs) + if tasks[i].Process? && pcs[i].Pending? then {i} else {};
  }

  lemma CountersStep(p: Pool, i: nat, fails: bool)
    requires Shaped(p) && CountersMatch(p) && i < |p.tasks| && Live(p.pcs[i])
    ensures CountersMatch(Act(p, i, fails))
  {
    var pc := Act(p, i, fails).pcs[i];
    assert Act(p, i, fails).pcs == p.pcs[i := pc];
    CountedUpdate(p.pcs, i, pc);
    FoundUpdate(p.pcs, i, pc);
    RegisteredUpdate(p.tasks, p.pcs, i, pc);
  }

  /** One action of any task keeps the invariant and only adds blobs the tasks name. */
  lemma ActKeeps(p: Pool, i: nat, fails: bool)
    requires PoolInv(p) && i < |p.tasks| && Live(p.pcs[i])
    ensures PoolInv(Act(p, i, fails))
    ensures p.remote <= Act(p, i, fails).remote <= p.remote + {p.tasks[i].blob}
    ensures Act(p, i, fails).tasks == p.tasks
  {
    var p' := Act(p, i, fails);
    assert TaskOk(p, i) && PathOk(p, p.tasks[i].blob);
    TaskStep(p, i, fails, i);
    forall j: nat | j < |p.tasks|
      ensures TaskOk(p', j)
    {
      assert TaskOk(p, j) && PathOk(p, p.tasks[j].blob);
      TaskStep(p, i, fails, j);
    }
    forall b
      ensures PathOk(p', b)
    {
      assert PathOk(p, b);
      PathStep(p, i, fails, b);
    }
    CountersStep(p, i, fails);
  }

  // ---- Whole interleavings -------------------------------------------------

  datatype Choice = Choice(task: nat, fails: bool)

  predicate Possible(p: Pool, c: Choice) {
    c.task < |p.tasks| == |p.pcs| && Live(p.pcs[c.task])
  }

  function Perform(p: Pool, c: Choice): Pool {
    if Possible(p, c) then Act(p, c.task, c.fails) else p
  }

  /** Any schedule: a choice that is not possible leaves the pool alone. */
  function Interleave(p: Pool, schedule: seq<Choice>): Pool {
    if schedule == [] then p
    else Perform(Interleave(p, schedule[..|schedule| - 1]), schedule[|schedule| - 1])
  }

  function TaskBlobs(tasks: seq<Task>): set<BlobId> {
    set t | t in tasks :: t.blob
  }

  function ProcessBlobs(tasks: seq<Task>): set<BlobId> {
    set t | t in tasks && t.Process? :: t.blob
  }

  lemma {:induction false} InterleaveKeeps(p: Pool, schedule: seq<Choice>)
    requires PoolInv(p)
    ensures PoolInv(Interleave(p, schedule))
    ensures Interleave(p, schedule).tasks == p.tasks
    ensures p.remote <= Interleave(p, schedule).remote <= p.remote + TaskBlobs(p.tasks)
  {
    if schedule != [] {
      var before, c := Interleave(p, schedule[..|schedule| - 1]), schedule[|schedule| - 1];
      InterleaveKeeps(p, schedule[..|schedule| - 1]);
      if Possible(before, c) {
        ActKeeps(before, c.task, c.fails);
        assert p.tasks[c.task] in p.tasks;
      }
    }
  }

  /** `before` is what the remote held at the start: the rest was uploaded, and
      the owners' findings are about `before`. */
  ghost predicate FindingOk(p: Pool, before: set<BlobId>, i: nat)
    requires i < |p.tasks| == |p.pcs|
  {
    && (p.pcs[i].Found? || p.pcs[i] == Counted(true) ==> p.tasks[i].blob in before)
    && (p.pcs[i].Missing? || p.pcs[i].Uploaded? || p.pcs[i] == Counted(false) ==> p.tasks[i].blob !in before)
  }

  ghost predicate Faithful(p: Pool, before: set<BlobId>) {
    && PoolInv(p)
    && (forall b :: b in p.remote <==> b in before || p.uploads[b] > 0)
    && (forall b :: b in before ==> p.uploads[b] == 0)
    && (forall i: nat {:trigger FindingOk(p, before, i)} :: i < |p.tasks| ==> FindingOk(p, before, i))
  }

  lemma ActKeepsFaithful(p: Pool, before: set<BlobId>, i: nat, fails: bool)
    requires Faithful(p, before) && i < |p.tasks| && Live(p.pcs[i])
    ensures Faithful(Act(p, i, fails), before)
  {
    var p' := Act(p, i, fails);
    ActKeeps(p, i, fails);
    assert TaskOk(p, i) && PathOk(p, p.tasks[i].blob) && FindingOk(p, before, i);
    forall j: nat | j < |p.tasks|
      ensures FindingOk(p', before, j)
    {
      assert FindingOk(p, before, j);
    }
  }

  lemma {:induction false} InterleaveKeepsFaithful(p: Pool, before: set<BlobId>, schedule: seq<Choice>)
    requires Faithful(p, before)
    ensures Faithful(Interleave(p, schedule), before)
  {
    if schedule != [] {
      var reached, c := Interleave(p, schedule[..|schedule| - 1]), schedule[|schedule| - 1];
      InterleaveKeepsFaithful(p, before, schedule[..|schedule| - 1]);
      if Possible(reached, c) {
        ActKeepsFaithful(reached, before, c.task, c.fails);
      }
    }
  }

  /** The tasks that require `b` without processing it. */
  function MustExistTasks(tasks: seq<Task>, b: BlobId): set<nat> {
    set i: nat | i < |tasks| && tasks[i] == MustExist(b)
  }

  /** Under any interleaving the processing of a path sends at most one
      existence request and one upload, none if the path was on the remote;
      whatever other requests there are belong to tasks that require the blob,
      one each. */
  lemma EachPathOnce(tasks: seq<Task>, remote: set<BlobId>, schedule: seq<Choice>, b: BlobId)
    ensures var p := Interleave(Start(tasks, remote), schedule);
            && p.uploads[b] <= 1 && (b in remote ==> p.uploads[b] == 0)
            && p.checks[b] <= |MustExistTasks(tasks, b)| + 1
            && (MustExist(b) !in tasks ==> p.checks[b] <= 1)
            && (Process(b) !in tasks ==> p.checks[b] <= |MustExistTasks(tasks, b)| && p.uploads[b] == 0)
  {
    InterleaveKeeps(Start(tasks, remote), schedule);
    InterleaveKeepsFaithful(Start(tasks, remote), remote, schedule);
    PathCounts(Interleave(Start(tasks, remote), schedule), b);
  }

  lemma PathCounts(p: Pool, b: BlobId)
    requires PoolInv(p)
    ensures p.uploads[b] <= 1
    ensures p.checks[b] <= |MustExistTasks(p.tasks, b)| + 1
    ensures MustExist(b) !in p.tasks ==> p.checks[b] <= 1
    ensures Process(b) !in p.tasks ==> p.checks[b] <= |MustExistTasks(p.tasks, b)| && p.uploads[b] == 0
  {
    assert PathOk(p, b);
    SubsetSize(RequiredTasks(p.tasks, p.pcs, b), MustExistTasks(p.tasks, b));
    if MustExist(b) !in p.tasks {
      assert MustExistTasks(p.tasks, b) == {};
    }
    if b in p.owner {
      assert p.tasks[p.owner[b]] in p.tasks;
    }
  }

  lemma SubsetSize<T>(a: set<T>, b: set<T>)
    requires a <= b
    ensures |a| <= |b|
  {
    assert b == a + (b - a);
  }

  predicate Quiescent(p: Pool) {
    |p.pcs| == |p.tasks| && forall i :: 0 <= i < |p.pcs| ==> !Live(p.pcs[i])
  }

  /** When all tasks came to an end, failed or not, the requests sent for a path
      are exactly one for its processing and one for each task that requires it. */
  lemma ChecksAtQuiescence(tasks: seq<Task>, remote: set<BlobId>, schedule: seq<Choice>, b: BlobId)
    requires Quiescent(Interleave(Start(tasks, remote), schedule))
    ensures Interleave(Start(tasks, remote), schedule).checks[b] ==
            |MustExistTasks(tasks, b)| + if Process(b) in tasks then 1 else 0
  {
    InterleaveKeeps(Start(tasks, remote), schedule);
    QuiescentChecks(Interleave(Start(tasks, remote), schedule), b);
  }

  ghost predicate ChecksExact(p: Pool, b: BlobId) {
    p.checks[b] == |MustExistTasks(p.tasks, b)| + if Process(b) in p.tasks then 1 else 0
  }

  lemma QuiescentChecks(p: Pool, b: BlobId)
    requires PoolInv(p) && Quiescent(p)
    ensures ChecksExact(p, b)
  {
    assert PathOk(p, b);
    assert RequiredTasks(p.tasks, p.pcs, b) == MustExistTasks(p.tasks, b);
    if b in p.owner {
      assert p.tasks[p.owner[b]] in p.tasks;
    }
    if Process(b) in p.tasks {
      var i :| 0 <= i < |p.tasks| && p.tasks[i] == Process(b);
      assert TaskOk(p, i);
    }
  }

  predicate Succeeded(p: Pool) {
    Quiescent(p) && forall i :: 0 <= i < |p.pcs| ==> !p.pcs[i].Failed?
  }

  lemma SetImageSize(owner: map<BlobId, nat>, tasks: seq<Task>)
    requires forall b :: b in owner ==> owner[b] < |tasks| && tasks[owner[b]] == Process(b)
    ensures |set b | b in owner :: owner[b]| == |owner|
    decreases |owner|
  {
    if |owner| > 0 {
      var b :| b in owner;
      var rest := owner - {b};
      assert owner.Keys == rest.Keys + {b};
      SetImageSize(rest, tasks);
      assert (set c | c in owner :: owner[c]) == (set c | c in rest :: rest[c]) + {owner[b]};
    } else {
      assert (set c | c in owner :: owner[c]) == {};
    }
  }

  function ProcessTasks(tasks: seq<Task>): set<nat> {
    set i: nat | i < |tasks| && tasks[i].Process?
  }

  /** Every blob is on the remote, every call was counted, the requests
      sent for each path are as many as they must be, and the counters agree
      with the distinct paths. */
  ghost predicate AllAccounted(p: Pool, before: set<BlobId>) {
    && p.remote == before + TaskBlobs(p.tasks)
    && p.counters.dedup == ProcessBlobs(p.tasks)
    && p.counters.uploaded == |ProcessBlobs(p.tasks)|
    && p.counters.existing == |ProcessBlobs(p.tasks) * before|
    && p.counters.registered == |ProcessTasks(p.tasks)|
    && forall b {:trigger ChecksExact(p, b)} :: ChecksExact(p, b)
  }

  /** When all tasks succeeded, everything is accounted for, whatever the schedule. */
  lemma AtQuiescence(tasks: seq<Task>, remote: set<BlobId>, schedule: seq<Choice>)
    requires Succeeded(Interleave(Start(tasks, remote), schedule))
    ensures Interleave(Start(tasks, remote), schedule).tasks == tasks
    ensures AllAccounted(Interleave(Start(tasks, remote), schedule), remote)
  {
    InterleaveKeeps(Start(tasks, remote), schedule);
    InterleaveKeepsFaithful(Start(tasks, remote), remote, schedule);
    QuiescentPool(Interleave(Start(tasks, remote), schedule), remote);
  }

  lemma QuiescentTask(p: Pool, i: nat)
    requires PoolInv(p) && Succeeded(p) && i < |p.tasks|
    ensures p.tasks[i].blob in p.remote
    ensures p.tasks[i].Process? ==> p.tasks[i].blob in p.owner
    ensures p.pcs[i].Counted? ==> p.tasks[i].blob in p.owner && p.owner[p.tasks[i].blob] == i
  {
    assert TaskOk(p, i);
    var b := p.tasks[i].blob;
    if p.tasks[i].Process? {
      assert PathOk(p, b);
      assert TaskOk(p, p.owner[b]);
    }
  }

  lemma QuiescentPath(p: Pool, b: BlobId)
    requires PoolInv(p) && Succeeded(p) && b in p.owner
    ensures p.owner[b] < |p.tasks| && p.tasks[p.owner[b]] == Process(b) && p.pcs[p.owner[b]].Counted?
  {
    assert PathOk(p, b);
    assert TaskOk(p, p.owner[b]);
  }

  lemma OwnersAreCounted(p: Pool)
    requires PoolInv(p) && Succeeded(p)
    ensures CountedTasks(p.pcs) == set b | b in p.owner :: p.owner[b]
  {
    var owners := set b | b in p.owner :: p.owner[b];
    forall i: nat
      ensures i in CountedTasks(p.pcs) <==> i in owners
    {
      if i in CountedTasks(p.pcs) {
        QuiescentTask(p, i);
      }
      if i in owners {
        var b :| b in p.owner && p.owner[b] == i;
        QuiescentPath(p, b);
      }
    }
  }

  lemma OwnedAreProcessed(p: Pool)
    requires PoolInv(p) && Succeeded(p)
    ensures p.owner.Keys == ProcessBlobs(p.tasks)
  {
    forall b
      ensures b in p.owner <==> b in ProcessBlobs(p.tasks)
    {
      if b in p.owner {
        QuiescentPath(p, b);
        assert p.tasks[p.owner[b]] in p.tasks;
      }
      if b in ProcessBlobs(p.tasks) {
        var t :| t in p.tasks && t.Process? && t.blob == b;
        var i :| 0 <= i < |p.tasks| && p.tasks[i] == t;
        QuiescentTask(p, i);
      }
    }
  }

  lemma RemoteAtQuiescence(p: Pool, before: set<BlobId>)
    requires PoolInv(p) && Succeeded(p) && before <= p.remote <= before + TaskBlobs(p.tasks)
    ensures p.remote == before + TaskBlobs(p.tasks)
  {
    forall b | b in TaskBlobs(p.tasks)
      ensures b in p.remote
    {
      var t :| t in p.tasks && t.blob == b;
      var i :| 0 <= i < |p.tasks| && p.tasks[i] == t;
      QuiescentTask(p, i);
    }
  }

  lemma UploadedAtQuiescence(p: Pool)
    requires PoolInv(p) && Succeeded(p)
    ensures p.counters.dedup == ProcessBlobs(p.tasks) && p.counters.uploaded == |ProcessBlobs(p.tasks)|
  {
    OwnedAreProcessed(p);
    OwnersAreCounted(p);
    forall b | b in p.owner
      ensures p.owner[b] < |p.tasks| && p.tasks[p.owner[b]] == Process(b)
    {
      QuiescentPath(p, b);
    }
    SetImageSize(p.owner, p.tasks);
  }

  lemma QuiescentPool(p: Pool, before: set<BlobId>)
    requires Faithful(p, before) && Succeeded(p)
    requires before <= p.remote <= before + TaskBlobs(p.tasks)
    ensures AllAccounted(p, before)
  {
    RemoteAtQuiescence(p, before);
    UploadedAtQuiescence(p);
    FoundAreExisting(p, before);
    assert RegisteredTasks(p.tasks, p.pcs) == ProcessTasks(p.tasks);
    forall b
      ensures ChecksExact(p, b)
    {
      QuiescentChecks(p, b);
    }
  }

  lemma FoundAreExisting(p: Pool, before: set<BlobId>)
    requires Faithful(p, before) && Succeeded(p)
    ensures |FoundTasks(p.pcs)| == |ProcessBlobs(p.tasks) * before|
  {
    var owned := map b | b in p.owner && b in before :: p.owner[b];
    forall b | b in owned
      ensures owned[b] < |p.tasks| && p.tasks[owned[b]] == Process(b)
    {
      QuiescentPath(p, b);
    }
    forall i: nat
      ensures i in FoundTasks(p.pcs) <==> i in set b | b in owned :: owned[b]
    {
      if i in FoundTasks(p.pcs) {
        assert FindingOk(p, before, i);
        QuiescentTask(p, i);
        assert owned[p.tasks[i].blob] == i;
      }
      if i in set b | b in owned :: owned[b] {
        var b :| b in owned && owned[b] == i;
        QuiescentPath(p, b);
        assert FindingOk(p, before, i);
      }
    }
    assert FoundTasks(p.pcs) == set b | b in owned :: owned[b];
    SetImageSize(owned, p.tasks);
    OwnedAreProcessed(p);
    assert owned.Keys == ProcessBlobs(p.tasks) * before;
  }

  // ---- Finishing -----------------------------------------------------------

  predicate NoErrors(schedule: seq<Choice>) {
    forall c :: c in schedule ==> !c.fails
  }

  predicate NoneFailed(p: Pool) {
    forall i :: 0 <= i < |p.pcs| ==> !p.pcs[i].Failed?
  }

  /** The blobs that are missing locally are on the remote. */
  predicate RequiredPresent(tasks: seq<Task>, remote: set<BlobId>) {
    forall t :: t in tasks && t.MustExist? ==> t.blob in remote
  }

  /** No blob is both processed and required. */
  ghost predicate Separated(tasks: seq<Task>) {
    forall b :: Process(b) in tasks ==> MustExist(b) !in tasks
  }

  /** Without errors no task fails, whatever the schedule. */
  lemma {:induction false} NoErrorNoFailure(p: Pool, schedule: seq<Choice>)
    requires PoolInv(p) && NoneFailed(p) && RequiredPresent(p.tasks, p.remote) && NoErrors(schedule)
    ensures NoneFailed(Interleave(p, schedule))
  {
    if schedule != [] {
      var earlier, c := schedule[..|schedule| - 1], schedule[|schedule| - 1];
      NoErrorNoFailure(p, earlier);
      InterleaveKeeps(p, earlier);
      if Possible(Interleave(p, earlier), c) {
        assert c in schedule && p.tasks[c.task] in p.tasks;
      }
    }
  }

  /** How many actions a task has ahead of it at most. */
  function Ahead(pc: Pc): nat {
    match pc
    case Pending => 4
    case Checking => 3
    case Missing => 2
    case Found | Uploaded => 1
    case _ => 0
  }

  lemma {:induction false} InterleaveConcat(p: Pool, a: seq<Choice>, b: seq<Choice>)
    ensures Interleave(p, a + b) == Interleave(Interleave(p, a), b)
  {
    if b == [] {
      assert a + b == a;
    } else {
      assert (a + b)[..|a + b| - 1] == a + b[..|b| - 1];
      InterleaveConcat(p, a, b[..|b| - 1]);
    }
  }

  /** `n` turns of task `i` lead from `p` to `q`: the task is that much closer
      to its end or there, and the others are where they were. */
  ghost predicate Advanced(p: Pool, q: Pool, i: nat, n: nat) {
    && q.tasks == p.tasks && |q.pcs| == |p.pcs|
    && (forall j :: 0 <= j < |p.pcs| && j != i ==> q.pcs[j] == p.pcs[j])
    && (i < |p.pcs| && Live(q.pcs[i]) ==> Live(p.pcs[i]) && Ahead(q.pcs[i]) + n <= Ahead(p.pcs[i]))
  }

  lemma OneTurn(p: Pool, i: nat)
    requires i < |p.tasks| == |p.pcs|
    ensures Advanced(p, Perform(p, Choice(i, false)), i, 1)
  {
  }

  lemma AdvancedFurther(p: Pool, q: Pool, r: Pool, i: nat, n: nat)
    requires i < |p.pcs| && Advanced(p, q, i, n) && Advanced(q, r, i, 1)
    ensures Advanced(p, r, i, n + 1)
  {
  }

  lemma OneMoreChoice(p: Pool, schedule: seq<Choice>, c: Choice)
    ensures Interleave(p, schedule + [c]) == Perform(Interleave(p, schedule), c)
  {
    assert (schedule + [c])[..|schedule + [c]| - 1] == schedule;
  }

  /** Turns of one task only. */
  lemma {:induction false} TakeTurns(p: Pool, i: nat, n: nat) returns (turns: seq<Choice>, q: Pool)
    requires i < |p.tasks| == |p.pcs|
    ensures q == Interleave(p, turns) && Advanced(p, q, i, n) && NoErrors(turns)
  {
    turns, q := [], p;
    if n > 0 {
      var earlier, before := TakeTurns(p, i, n - 1);
      OneMoreChoice(p, earlier, Choice(i, false));
      turns, q := earlier + [Choice(i, false)], Perform(before, Choice(i, false));
      OneTurn(before, i);
      AdvancedFurther(p, before, q, i, n - 1);
    }
  }

  ghost predicate Ended(p: Pool, q: Pool, n: nat) {
    && q.tasks == p.tasks && |q.pcs| == |p.pcs|
    && forall i :: 0 <= i < n && i < |q.pcs| ==> !Live(q.pcs[i])
  }

  lemma OneMoreEnds(p: Pool, q: Pool, r: Pool, i: nat)
    requires Ended(p, q, i) && i < |p.pcs| && Advanced(q, r, i, 4)
    ensures Ended(p, r, i + 1)
  {
  }

  /** One task after the other, each to its end: four turns are enough. */
  lemma {:induction false} FinishTasks(p: Pool, n: nat) returns (schedule: seq<Choice>, q: Pool)
    requires n <= |p.tasks| == |p.pcs|
    ensures q == Interleave(p, schedule) && Ended(p, q, n) && NoErrors(schedule)
  {
    schedule, q := [], p;
    if n > 0 {
      var earlier, before := FinishTasks(p, n - 1);
      var turns, after := TakeTurns(before, n - 1, 4);
      InterleaveConcat(p, earlier, turns);
      OneMoreEnds(p, before, after, n - 1);
      schedule, q := earlier + turns, after;
    }
  }

  /** Success needs every blob that is missing locally on the remote. */
  lemma SuccessNeedsRequired(tasks: seq<Task>, remote: set<BlobId>, schedule: seq<Choice>)
    requires Separated(tasks) && Succeeded(Interleave(Start(tasks, remote), schedule))
    ensures RequiredPresent(tasks, remote)
  {
    var p := Interleave(Start(tasks, remote), schedule);
    InterleaveKeeps(Start(tasks, remote), schedule);
    InterleaveKeepsFaithful(Start(tasks, remote), remote, schedule);
    forall t | t in tasks && t.MustExist?
      ensures t.blob in remote
    {
      var i :| 0 <= i < |tasks| && tasks[i] == t;
      QuiescentTask(p, i);
      PathCounts(p, t.blob);
    }
  }

  /** When no request errs and every task comes to its end, the workers succeed
      exactly when the remote has every blob that is missing locally: which
      interleaving happens does not matter. */
  lemma SucceedsIff(tasks: seq<Task>, remote: set<BlobId>, schedule: seq<Choice>)
    requires Separated(tasks) && NoErrors(schedule) && Quiescent(Interleave(Start(tasks, remote), schedule))
    ensures Succeeded(Interleave(Start(tasks, remote), schedule)) <==> RequiredPresent(tasks, remote)
  {
    if RequiredPresent(tasks, remote) {
      NoErrorNoFailure(Start(tasks, remote), schedule);
    }
    if Succeeded(Interleave(Start(tasks, remote), schedule)) {
      SuccessNeedsRequired(tasks, remote, schedule);
    }
  }

  /** The workers never block one another: wherever they are, as long as no
      task failed they can all still succeed. */
  lemma CanFinish(tasks: seq<Task>, remote: set<BlobId>, schedule: seq<Choice>)
    requires RequiredPresent(tasks, remote) && NoneFailed(Interleave(Start(tasks, remote), schedule))
    ensures exists rest :: NoErrors(rest) && Succeeded(Interleave(Start(tasks, remote), schedule + rest))
  {
    var reached := Interleave(Start(tasks, remote), schedule);
    InterleaveKeeps(Start(tasks, remote), schedule);
    var rest, done := FinishTasks(reached, |tasks|);
    NoErrorNoFailure(reached, rest);
    InterleaveConcat(Start(tasks, remote), schedule, rest);
    assert Succeeded(done);
  }
}
