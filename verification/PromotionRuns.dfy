/** What flows into the target of promotions along a run: nothing that the
    source channel does not advertise, when the target is filled by promotion
    from it only and the source moves, by commits, promotions, pushes or
    reverts, to descendants only. */
module PromotionRuns {
  import opened StoreTypes
  import opened History
  import opened ReleaseStore
  import opened Reachability
  import opened Promotion
  import opened PromotionProperties
  import opened StoreRuns

  /** The target's ancestors include the channel's head. */
  ghost predicate MovesForward(st: State, c: ChannelName, target: Hash) {
    var older := LineageOf(st, HeadOf(st, c));
    && target in st.lineage && |older| <= |st.lineage[target]|
    && st.lineage[target][|st.lineage[target]| - |older|..] == older
  }

  /** Runs in which `stable` is filled by promotions from `testing` only and
      `testing` is never moved but forward. Stable may be reverted to a former
      head. */
  ghost predicate FlowStep(st: State, step: Step, testing: ChannelName, stable: ChannelName) {
    && Allowed(st, step)
    && match step
       case Commit(c, _, push, _) => c == stable ==> !push
       case Push(c, target, _) => c != stable && (c == testing ==> MovesForward(st, testing, target))
       case Revert(c, target, _) =>
         (c == testing ==> MovesForward(st, testing, target))
             && (c == stable ==> exists e :: e in ReflogOf(st, stable) && e.to == target)
       case Promote(rq, _, _, _) => rq.target == stable ==> rq.source == testing
       case _ => true
  }

  ghost predicate FlowAt(states: seq<State>, steps: seq<Step>, i: nat, testing: ChannelName, stable: ChannelName)
    requires |states| == |steps| + 1 && i < |steps|
  {
    FlowStep(states[i], steps[i], testing, stable)
  }

  ghost predicate FlowRun(states: seq<State>, steps: seq<Step>, testing: ChannelName, stable: ChannelName) {
    && Run(states, steps) && states[0] == EMPTY
    && forall i: nat {:trigger FlowAt(states, steps, i, testing, stable)} ::
         i < |steps| ==> FlowAt(states, steps, i, testing, stable)
  }

  /** Some generation of the chain lists the pair. */
  ghost predicate Listed(chain: seq<Generation>, sid: ServerId, h: Hash) {
    exists i :: 0 <= i < |chain| && ResourceOf(chain[i].resources, sid) == Some(h)
  }

  ghost predicate Covered(inner: seq<Generation>, outer: seq<Generation>) {
    forall sid, h :: Listed(inner, sid, h) ==> Listed(outer, sid, h)
  }

  /** Every generation that ever was stable's head is covered by testing's head. */
  ghost predicate Flow(st: State, testing: ChannelName, stable: ChannelName) {
    forall e :: e in ReflogOf(st, stable) ==>
      e.to in st.lineage && Covered(st.lineage[e.to], LineageOf(st, HeadOf(st, testing)))
  }

  lemma CoveredByLonger(inner: seq<Generation>, outer: seq<Generation>, g: Generation)
    requires Covered(inner, outer)
    ensures Covered(inner, [g] + outer)
  {
    forall sid, h | Listed(inner, sid, h)
      ensures Listed([g] + outer, sid, h)
    {
      assert Listed(outer, sid, h);
      var i :| 0 <= i < |outer| && ResourceOf(outer[i].resources, sid) == Some(h);
      assert ([g] + outer)[i + 1] == outer[i];
    }
  }

  lemma LongerCovered(g: Generation, inner: seq<Generation>, outer: seq<Generation>)
    requires Covered(inner, outer)
    requires forall sid, h :: ResourceOf(g.resources, sid) == Some(h) ==> Listed(outer, sid, h)
    ensures Covered([g] + inner, outer)
  {
    forall sid, h | Listed([g] + inner, sid, h)
      ensures Listed(outer, sid, h)
    {
      var i :| 0 <= i < |[g] + inner| && ResourceOf(([g] + inner)[i].resources, sid) == Some(h);
      if i > 0 {
        assert inner[i - 1] == ([g] + inner)[i];
        assert Listed(inner, sid, h);
      }
    }
  }

  /** The flow survives when stable's reflog stays, known lineages stay, and
      testing's head stays or gets one child. */
  lemma FlowFrame(st: State, st': State, testing: ChannelName, stable: ChannelName, g: Generation)
    requires Flow(st, testing, stable)
    requires ReflogOf(st', stable) == ReflogOf(st, stable)
    requires forall h :: h in st.lineage ==> h in st'.lineage && st'.lineage[h] == st.lineage[h]
    requires var before, after := LineageOf(st, HeadOf(st, testing)), LineageOf(st', HeadOf(st', testing));
             after == before || after == [g] + before
    ensures Flow(st', testing, stable)
  {
    var before := LineageOf(st, HeadOf(st, testing));
    forall e | e in ReflogOf(st', stable)
      ensures e.to in st'.lineage && Covered(st'.lineage[e.to], LineageOf(st', HeadOf(st', testing)))
    {
      assert Covered(st.lineage[e.to], before);
      CoveredByLonger(st.lineage[e.to], before, g);
    }
  }

  lemma CoveredBySuffix(inner: seq<Generation>, outer: seq<Generation>, longer: seq<Generation>)
    requires Covered(inner, outer) && |outer| <= |longer| && longer[|longer| - |outer|..] == outer
    ensures Covered(inner, longer)
  {
    forall sid, h | Listed(inner, sid, h)
      ensures Listed(longer, sid, h)
    {
      assert Listed(outer, sid, h);
      var i :| 0 <= i < |outer| && ResourceOf(outer[i].resources, sid) == Some(h);
      assert longer[|longer| - |outer| + i] == outer[i];
    }
  }

  /** Moving testing's head to a descendant keeps the flow. */
  lemma ForwardKeepsFlow(st: State, st': State, target: Hash, testing: ChannelName, stable: ChannelName)
    requires Flow(st, testing, stable) && MovesForward(st, testing, target) && target != NoHash
    requires st'.lineage == st.lineage && HeadOf(st', testing) == target
    requires ReflogOf(st', stable) == ReflogOf(st, stable)
    ensures Flow(st', testing, stable)
  {
    forall e | e in ReflogOf(st', stable)
      ensures e.to in st'.lineage && Covered(st'.lineage[e.to], LineageOf(st', target))
    {
      CoveredBySuffix(st.lineage[e.to], LineageOf(st, HeadOf(st, testing)), st.lineage[target]);
    }
  }

  /** A head of a registered channel was created. */
  lemma HeadCreated(st: State, c: ChannelName)
    requires Inv(st) && HeadOf(st, c) != NoHash
    ensures HeadOf(st, c) in st.lineage && HeadOf(st, c) in st.histories
  {
  }

  lemma HeadIsLastTarget(st: State, c: ChannelName)
    requires Inv(st) && HeadOf(st, c) != NoHash
    ensures exists e :: e in ReflogOf(st, c) && e.to == HeadOf(st, c)
  {
    var log := ReflogOf(st, c);
    assert ReflogPath(log, HeadOf(st, c));
    assert log[|log| - 1] in log;
  }

  /** What a source generation vouches for is listed along its chain. */
  lemma ValidIsListed(st: State, source: Hash, c: Candidate)
    requires Inv(st) && source in st.histories && c in ValidPairs(st, source)
    ensures Listed(st.lineage[source], c.server, c.checkout)
  {
    var chain := st.lineage[source];
    assert LinealAt(st.lineage, source);
    assert st.gens[source] == chain[0];
    if c in ResourcePairs(chain[0].resources) {
      var i :| 0 <= i < |chain[0].resources|
          && Candidate(chain[0].resources[i].serverId, chain[0].resources[i].snapshotHash) == c;
      ResourceOfDistinct(chain[0].resources, c.server);
    } else {
      var history := st.histories[source];
      var e :| e in history && c in EntryPairs(e);
      var i :| 0 <= i < |history| && history[i] == e;
      LookupDistinct(history, e.serverId);
      assert SnapshotsOf(history, c.server) == Runs(chain, c.server);
      RunsHashes(chain, c.server, c.checkout);
    }
  }

  /** A promoted generation lists only what testing's chain lists. */
  lemma PromotedIsListed(
    st: State, rq: Request, h: Hash, now: string, subject: string, testing: ChannelName, stable: ChannelName,
    sid: ServerId, snap: Hash)
    requires Inv(st) && Flow(st, testing, stable) && Refusal(st, rq) == None
    requires rq.source == testing && rq.target == stable
    requires ResourceOf(PromotedGeneration(st, rq, h, now, subject).resources, sid) == Some(snap)
    ensures Listed(LineageOf(st, HeadOf(st, testing)), sid, snap)
  {
    var admitted, current := AdmittedBy(st, rq), ParentResources(st, stable);
    OverlayIsOverride(current, admitted, sid);
    HeadCreated(st, testing);
    if CheckoutFor(admitted, sid).Some? {
      CheckoutForMember(admitted, sid);
      var c := Candidate(sid, snap);
      AdmittedExactly(st, rq, c);
      assert c in ValidPairs(st, HeadOf(st, testing)) by {
        var unknown := set d | d in rq.candidates && d !in ValidPairs(st, HeadOf(st, testing));
        assert c !in unknown;
      }
      ValidIsListed(st, HeadOf(st, testing), c);
    } else {
      var head := HeadOf(st, stable);
      HeadIsLastTarget(st, stable);
      HeadCreated(st, stable);
      assert st.gens[head] == st.lineage[head][0];
      assert Listed(st.lineage[head], sid, snap);
    }
  }

  /** What a promotion that happens does to heads, reflogs and lineages. */
  lemma PromotedShape(st: State, rq: Request, h: Hash, now: string, subject: string, c: ChannelName)
    requires Refusal(st, rq) == None && AdmittedBy(st, rq) != [] && h !in st.gens
    ensures var st', g := Promoted(st, rq, h, now, subject), PromotedGeneration(st, rq, h, now, subject);
            && h in st'.lineage && st'.lineage[h] == [g] + LineageOf(st, HeadOf(st, rq.target))
            && (c != rq.target ==> HeadOf(st', c) == HeadOf(st, c) && ReflogOf(st', c) == ReflogOf(st, c))
            && HeadOf(st', rq.target) == h
            && (forall e :: e in ReflogOf(st', rq.target) ==> e in ReflogOf(st, rq.target) || e.to == h)
  {
    CreatedAndPushedShape(st, PromotedGeneration(st, rq, h, now, subject), rq.target, now, c, h);
  }

  lemma PromoteKeepsFlow(
    st: State, st': State, rq: Request, h: Hash, now: string, subject: string, testing: ChannelName,
    stable: ChannelName)
    requires Inv(st) && Flow(st, testing, stable) && testing != stable
    requires rq.target == stable ==> rq.source == testing
    requires Refusal(st, rq) == None
    requires NoHash !in st'.lineage && h in st'.lineage
    requires st'.lineage[h] == [PromotedGeneration(st, rq, h, now, subject)] + LineageOf(st, HeadOf(st, rq.target))
    requires forall k :: k in st.lineage ==> k in st'.lineage && st'.lineage[k] == st.lineage[k]
    requires forall c :: c in {testing, stable} && c != rq.target ==>
               HeadOf(st', c) == HeadOf(st, c) && ReflogOf(st', c) == ReflogOf(st, c)
    requires HeadOf(st', rq.target) == h
    requires forall e :: e in ReflogOf(st', rq.target) ==> e in ReflogOf(st, rq.target) || e.to == h
    ensures Flow(st', testing, stable)
  {
    if rq.target == stable {
      StableGrows(st, st', rq, h, now, subject, testing, stable);
    } else {
      if rq.target != testing {
        SameHeadLineage(st, st', testing);
      }
      FlowFrame(st, st', testing, stable, PromotedGeneration(st, rq, h, now, subject));
    }
  }

  lemma PromoteStepKeepsFlow(
    st: State, rq: Request, h: Hash, now: string, subject: string, testing: ChannelName, stable: ChannelName)
    requires Inv(st) && Flow(st, testing, stable) && testing != stable
    requires FlowStep(st, Promote(rq, h, now, subject), testing, stable)
    ensures Flow(Promoted(st, rq, h, now, subject), testing, stable)
  {
    if Refusal(st, rq) == None && AdmittedBy(st, rq) != [] {
      PromotedShape(st, rq, h, now, subject, testing);
      PromotedShape(st, rq, h, now, subject, stable);
      PromoteKeeps(st, rq, h, now, subject);
      forall k | k in st.lineage
        ensures k in Promoted(st, rq, h, now, subject).lineage
                && Promoted(st, rq, h, now, subject).lineage[k] == st.lineage[k]
      {
        PromotedLineage(st, rq, h, now, subject, k);
      }
      PromoteKeepsFlow(st, Promoted(st, rq, h, now, subject), rq, h, now, subject, testing, stable);
    }
  }

  lemma SameHeadLineage(st: State, st': State, c: ChannelName)
    requires Inv(st) && HeadOf(st', c) == HeadOf(st, c)
    requires forall k :: k in st.lineage ==> k in st'.lineage && st'.lineage[k] == st.lineage[k]
    requires NoHash !in st'.lineage
    ensures LineageOf(st', HeadOf(st', c)) == LineageOf(st, HeadOf(st, c))
  {
    if HeadOf(st, c) != NoHash {
      HeadCreated(st, c);
    }
  }

  lemma StableIsCovered(st: State, testing: ChannelName, stable: ChannelName)
    requires Inv(st) && Flow(st, testing, stable)
    ensures Covered(LineageOf(st, HeadOf(st, stable)), LineageOf(st, HeadOf(st, testing)))
  {
    if HeadOf(st, stable) != NoHash {
      HeadCreated(st, stable);
      HeadIsLastTarget(st, stable);
    }
  }

  lemma StableGrows(
    st: State, st': State, rq: Request, h: Hash, now: string, subject: string,
    testing: ChannelName, stable: ChannelName)
    requires Inv(st) && Flow(st, testing, stable) && testing != stable
    requires Refusal(st, rq) == None && rq.source == testing && rq.target == stable
    requires h in st'.lineage
    requires st'.lineage[h] == [PromotedGeneration(st, rq, h, now, subject)] + LineageOf(st, HeadOf(st, stable))
    requires forall k :: k in st.lineage ==> k in st'.lineage && st'.lineage[k] == st.lineage[k]
    requires HeadOf(st', testing) == HeadOf(st, testing)
    requires forall e :: e in ReflogOf(st', stable) ==> e in ReflogOf(st, stable) || e.to == h
    ensures Flow(st', testing, stable)
  {
    var g := PromotedGeneration(st, rq, h, now, subject);
    HeadCreated(st, testing);
    var outer := LineageOf(st, HeadOf(st, testing));
    forall sid, snap | ResourceOf(g.resources, sid) == Some(snap)
      ensures Listed(outer, sid, snap)
    {
      PromotedIsListed(st, rq, h, now, subject, testing, stable, sid, snap);
    }
    StableIsCovered(st, testing, stable);
    LongerCovered(g, LineageOf(st, HeadOf(st, stable)), outer);
  }

  /** What a commit does to heads, reflogs and lineages. */
  lemma CommittedShape(st: State, c: ChannelName, g: Generation, push: bool, now: string, d: ChannelName)
    requires g.hash !in st.gens && g.hash !in st.lineage && g.meta.parent == HeadOf(st, c)
    ensures var st' := Committed(st, c, g, push, now);
            && g.hash in st'.lineage && st'.lineage[g.hash] == [g] + LineageOf(st, HeadOf(st, c))
            && (forall k :: k in st.lineage ==> k in st'.lineage && st'.lineage[k] == st.lineage[k])
            && (d != c || !push ==> HeadOf(st', d) == HeadOf(st, d) && ReflogOf(st', d) == ReflogOf(st, d))
            && (push ==> HeadOf(st', c) == g.hash)
            && (NoHash !in st.lineage && g.hash != NoHash ==> NoHash !in st'.lineage)
  {
  }

  lemma CommitKeepsFlow(
    st: State, c: ChannelName, g: Generation, push: bool, now: string, testing: ChannelName, stable: ChannelName)
    requires Inv(st) && Flow(st, testing, stable) && testing != stable
    requires FlowStep(st, Commit(c, g, push, now), testing, stable)
    ensures Flow(Committed(st, c, g, push, now), testing, stable)
  {
    assert g.hash !in st.gens;
    CommittedShape(st, c, g, push, now, testing);
    CommittedShape(st, c, g, push, now, stable);
    ChildKeepsFlow(st, Committed(st, c, g, push, now), c, g, push, testing, stable);
  }

  lemma ChildKeepsFlow(
    st: State, st': State, c: ChannelName, g: Generation, push: bool, testing: ChannelName, stable: ChannelName)
    requires Inv(st) && Flow(st, testing, stable)
    requires NoHash !in st'.lineage && g.hash in st'.lineage
    requires st'.lineage[g.hash] == [g] + LineageOf(st, HeadOf(st, c))
    requires forall k :: k in st.lineage ==> k in st'.lineage && st'.lineage[k] == st.lineage[k]
    requires testing != c || !push ==> HeadOf(st', testing) == HeadOf(st, testing)
    requires push ==> HeadOf(st', c) == g.hash
    requires ReflogOf(st', stable) == ReflogOf(st, stable)
    ensures Flow(st', testing, stable)
  {
    if testing != c || !push {
      SameHeadLineage(st, st', testing);
    }
    FlowFrame(st, st', testing, stable, g);
  }

  lemma QuietKeepsFlow(st: State, st': State, testing: ChannelName, stable: ChannelName)
    requires Flow(st, testing, stable)
    requires st'.lineage == st.lineage && HeadOf(st', testing) == HeadOf(st, testing)
    requires ReflogOf(st', stable) == ReflogOf(st, stable)
    ensures Flow(st', testing, stable)
  {
    var log := ReflogOf(st, stable);
    forall e | e in log
      ensures e.to in st'.lineage && Covered(st'.lineage[e.to], LineageOf(st', HeadOf(st', testing)))
    {
      assert e.to in st.lineage;
    }
  }

  lemma RevertKeepsFlow(st: State, c: ChannelName, target: Hash, now: string, testing: ChannelName, stable: ChannelName)
    requires Flow(st, testing, stable) && testing != stable && target != NoHash && c in st.heads
    requires c == testing ==> MovesForward(st, testing, target)
    requires c == stable ==> exists e :: e in ReflogOf(st, stable) && e.to == target
    ensures Flow(Reverted(st, c, target, now), testing, stable)
  {
    var st' := Reverted(st, c, target, now);
    if c == testing {
      ForwardKeepsFlow(st, st', target, testing, stable);
    } else if c == stable {
      var f :| f in ReflogOf(st, stable) && f.to == target;
      forall e | e in ReflogOf(st', stable)
        ensures e.to in st'.lineage && Covered(st'.lineage[e.to], LineageOf(st', HeadOf(st', testing)))
      {
        assert e in ReflogOf(st, stable) || e.to == f.to;
      }
    } else {
      QuietKeepsFlow(st, st', testing, stable);
    }
  }

  lemma PushKeepsFlow(st: State, c: ChannelName, target: Hash, now: string, testing: ChannelName, stable: ChannelName)
    requires Flow(st, testing, stable) && testing != stable && target != NoHash
    requires c != stable && (c == testing ==> MovesForward(st, testing, target))
    ensures Flow(Pushed(st, c, target, now), testing, stable)
  {
    var st' := Pushed(st, c, target, now);
    if c == testing {
      ForwardKeepsFlow(st, st', target, testing, stable);
    } else {
      QuietKeepsFlow(st, st', testing, stable);
    }
  }

  predicate Quiet(step: Step) {
    !step.Commit? && !step.Promote? && !step.Revert? && !step.Push?
  }

  lemma QuietStepKeepsFlow(st: State, step: Step, testing: ChannelName, stable: ChannelName)
    requires Flow(st, testing, stable) && Quiet(step)
    ensures Flow(Next(st, step), testing, stable)
  {
    match step
    case Register(c) => QuietKeepsFlow(st, EnsuredChannel(st, c), testing, stable);
    case Prune(depth) => QuietKeepsFlow(st, Pruned(st, depth), testing, stable);
    case AddSnapshot(h, snap) => QuietKeepsFlow(st, st.(resourceSnaps := st.resourceSnaps[h := snap]), testing, stable);
    case AddRelease(h, index) => QuietKeepsFlow(st, st.(releaseSnaps := st.releaseSnaps[h := index]), testing, stable);
    case AddBlob(b) => QuietKeepsFlow(st, st.(blobs := st.blobs + {b}), testing, stable);
    case Suppress(c, list) => QuietKeepsFlow(st, st.(suppressions := st.suppressions[c := list]), testing, stable);
  }

  lemma StepKeepsFlow(st: State, step: Step, testing: ChannelName, stable: ChannelName)
    requires Inv(st) && Flow(st, testing, stable) && testing != stable
    requires FlowStep(st, step, testing, stable)
    ensures Flow(Next(st, step), testing, stable)
  {
    match step
    case Commit(c, g, push, now) => CommitKeepsFlow(st, c, g, push, now, testing, stable);
    case Promote(rq, h, now, subject) => PromoteStepKeepsFlow(st, rq, h, now, subject, testing, stable);
    case Push(c, target, now) => PushKeepsFlow(st, c, target, now, testing, stable);
    case Revert(c, target, now) => RevertKeepsFlow(st, c, target, now, testing, stable);
    case _ => QuietStepKeepsFlow(st, step, testing, stable);
  }

  lemma {:induction false} RunKeepsFlow(
    states: seq<State>, steps: seq<Step>, i: nat, testing: ChannelName, stable: ChannelName)
    requires testing != stable && FlowRun(states, steps, testing, stable) && i <= |steps|
    ensures Flow(states[i], testing, stable)
  {
    if i > 0 {
      RunKeepsFlow(states, steps, i - 1, testing, stable);
      FromEmptyKeeps(states, steps, i - 1);
      assert StepAt(states, steps, i - 1) && FlowAt(states, steps, i - 1, testing, stable);
      StepKeepsFlow(states[i - 1], steps[i - 1], testing, stable);
    }
  }

  lemma FromEmptyKeeps(states: seq<State>, steps: seq<Step>, i: nat)
    requires Run(states, steps) && states[0] == EMPTY && i <= |steps|
    ensures Inv(states[i])
  {
    EmptyInv();
    RunKeeps(states, steps, i);
  }

  /** The snapshot is recorded for the server in the history of the channel's head. */
  ghost predicate HeadRecords(st: State, c: ChannelName, sid: ServerId, snap: Hash) {
    HeadOf(st, c) in st.histories && snap in HashesOf(SnapshotsOf(st.histories[HeadOf(st, c)], sid))
  }

  /** In every state of such a run, every checkout stable's history records for
      a server is recorded for it in testing's. */
  lemma StableWithinTesting(
    states: seq<State>, steps: seq<Step>, i: nat, testing: ChannelName, stable: ChannelName, sid: ServerId, snap: Hash)
    requires testing != stable && FlowRun(states, steps, testing, stable) && i <= |steps|
    requires HeadRecords(states[i], stable, sid, snap)
    ensures HeadRecords(states[i], testing, sid, snap)
  {
    RunKeepsFlow(states, steps, i, testing, stable);
    FromEmptyKeeps(states, steps, i);
    FlowInHistories(states[i], testing, stable, sid, snap);
  }

  lemma FlowInHistories(st: State, testing: ChannelName, stable: ChannelName, sid: ServerId, snap: Hash)
    requires Inv(st) && Flow(st, testing, stable)
    requires HeadRecords(st, stable, sid, snap)
    ensures HeadRecords(st, testing, sid, snap)
  {
    var s, t := HeadOf(st, stable), HeadOf(st, testing);
    assert s in st.gens;
    HeadIsLastTarget(st, stable);
    assert SnapshotsOf(st.histories[s], sid) == Runs(st.lineage[s], sid);
    RunsHashes(st.lineage[s], sid, snap);
    assert Listed(st.lineage[s], sid, snap);
    assert Listed(LineageOf(st, t), sid, snap);
    assert t in st.lineage;
    if t == NoHash {
      assert false;
    }
    HeadCreated(st, testing);
    assert SnapshotsOf(st.histories[t], sid) == Runs(st.lineage[t], sid);
    RunsHashes(st.lineage[t], sid, snap);
  }
}
