/** The reflogs along runs: append-only, and no head moves without an entry. */
module ReflogRuns {
  import opened StoreTypes
  import opened ReleaseStore
  import opened Reachability
  import opened Promotion
  import opened StoreRuns

  /** What a step adds to a channel's reflog. */
  ghost function LoggedBy(st: State, step: Step, c: ChannelName): seq<ReflogEntry> {
    match step
    case Push(d, target, now) => if d == c then [ReflogEntry(HeadOf(st, c), target, "push", now)] else []
    case Revert(d, target, now) => if d == c then [ReflogEntry(HeadOf(st, c), target, "revert", now)] else []
    case Commit(d, g, push, now) =>
      if push && d == c then [ReflogEntry(HeadOf(st, c), g.hash, "push", now)] else []
    case Promote(rq, h, now, _) =>
      if rq.target == c && Refusal(st, rq).None? && AdmittedBy(st, rq) != []
      then [ReflogEntry(HeadOf(st, c), h, "push", now)] else []
    case _ => []
  }

  /** The reflog gains `entries`, and the head is where the last of them leads. */
  ghost predicate Moves(st: State, st': State, c: ChannelName, entries: seq<ReflogEntry>) {
    && ReflogOf(st', c) == ReflogOf(st, c) + entries
    && HeadOf(st', c) == if entries == [] then HeadOf(st, c) else entries[|entries| - 1].to
  }

  lemma CreatedMoves(st: State, g: Generation, c: ChannelName)
    ensures Moves(st, Created(st, g), c, [])
  {
  }

  lemma RegisteredMoves(st: State, d: ChannelName, c: ChannelName)
    ensures Moves(st, EnsuredChannel(st, d), c, [])
  {
  }

  lemma HeadMoves(st: State, d: ChannelName, target: Hash, op: string, now: string, c: ChannelName)
    ensures Moves(st, HeadMoved(st, d, target, op, now), c,
                  if d == c then [ReflogEntry(HeadOf(st, c), target, op, now)] else [])
  {
  }

  lemma CommittedMoves(st: State, d: ChannelName, g: Generation, push: bool, now: string, c: ChannelName)
    ensures Moves(st, Committed(st, d, g, push, now), c, LoggedBy(st, Commit(d, g, push, now), c))
  {
    RegisteredMoves(st, d, c);
    CreatedMoves(EnsuredChannel(st, d), g, c);
    if push {
      HeadMoves(Created(EnsuredChannel(st, d), g), d, g.hash, "push", now, c);
    }
  }

  lemma CreatedAndPushedMoves(st: State, g: Generation, d: ChannelName, now: string, c: ChannelName)
    ensures Moves(st, CreatedAndPushed(st, g, d, now), c,
                  if d == c then [ReflogEntry(HeadOf(st, c), g.hash, "push", now)] else [])
  {
    CreatedMoves(st, g, c);
    RegisteredMoves(Created(st, g), d, c);
    HeadMoves(EnsuredChannel(Created(st, g), d), d, g.hash, "push", now, c);
  }

  lemma PromotedHappens(st: State, rq: Request, h: Hash, now: string, subject: string, g: Generation)
    requires Refusal(st, rq).None? && AdmittedBy(st, rq) != [] && g == PromotedGeneration(st, rq, h, now, subject)
    ensures Promoted(st, rq, h, now, subject) == CreatedAndPushed(st, g, rq.target, now)
  {
  }

  lemma PromotedMoves(st: State, rq: Request, h: Hash, now: string, subject: string, c: ChannelName)
    requires Refusal(st, rq).None? && AdmittedBy(st, rq) != []
    ensures Moves(st, Promoted(st, rq, h, now, subject), c,
                  if rq.target == c then [ReflogEntry(HeadOf(st, c), h, "push", now)] else [])
  {
    var g := PromotedGeneration(st, rq, h, now, subject);
    PromotedHappens(st, rq, h, now, subject, g);
    CreatedAndPushedMoves(st, g, rq.target, now, c);
  }

  lemma NotPromotedMoves(st: State, rq: Request, h: Hash, now: string, subject: string, c: ChannelName)
    requires Refusal(st, rq).Some? || AdmittedBy(st, rq) == []
    ensures Moves(st, Promoted(st, rq, h, now, subject), c, [])
  {
    assert Promoted(st, rq, h, now, subject) == st;
  }

  lemma PrunedMoves(st: State, depth: nat, c: ChannelName)
    ensures Moves(st, Pruned(st, depth), c, [])
  {
  }

  /** A push or a revert adds its entry to the channel's reflog, a commit that
      pushes and a promotion that happens add a push, and nothing else touches
      a reflog or a head. */
  lemma StepLogs(st: State, step: Step, c: ChannelName)
    ensures Moves(st, Next(st, step), c, LoggedBy(st, step, c))
  {
    match step
    case Push(d, target, now) => HeadMoves(st, d, target, "push", now, c);
    case Revert(d, target, now) => HeadMoves(st, d, target, "revert", now, c);
    case Commit(d, g, push, now) => CommittedMoves(st, d, g, push, now, c);
    case Promote(rq, h, now, subject) =>
      if Refusal(st, rq).None? && AdmittedBy(st, rq) != [] {
        PromotedMoves(st, rq, h, now, subject, c);
      } else {
        NotPromotedMoves(st, rq, h, now, subject, c);
      }
    case Register(d) => RegisteredMoves(st, d, c);
    case Prune(depth) => PrunedMoves(st, depth, c);
    case AddSnapshot(_, _) =>
    case AddRelease(_, _) =>
    case AddBlob(_) =>
    case Suppress(_, _) =>
  }

  /** The reflog was only added to, and the head moved only with an entry. */
  ghost predicate Logged(st: State, st': State, c: ChannelName) {
    && ReflogOf(st, c) <= ReflogOf(st', c)
    && (ReflogOf(st, c) == ReflogOf(st', c) ==> HeadOf(st, c) == HeadOf(st', c))
  }

  lemma MovesAreLogged(st: State, st': State, c: ChannelName, entries: seq<ReflogEntry>)
    requires Moves(st, st', c, entries)
    ensures Logged(st, st', c)
  {
    if entries != [] {
      assert |ReflogOf(st', c)| > |ReflogOf(st, c)|;
    }
  }

  lemma LoggedTransitive(a: State, b: State, d: State, c: ChannelName)
    requires Logged(a, b, c) && Logged(b, d, c)
    ensures Logged(a, d, c)
  {
  }

  lemma NextLogged(states: seq<State>, steps: seq<Step>, i: nat, c: ChannelName)
    requires Run(states, steps) && i < |steps|
    ensures Logged(states[i], states[i + 1], c)
  {
    assert StepAt(states, steps, i);
    StepLogs(states[i], steps[i], c);
    MovesAreLogged(states[i], states[i + 1], c, LoggedBy(states[i], steps[i], c));
  }

  /** Along a run nothing is ever taken out of a reflog, and no head moves
      without an entry. */
  lemma {:induction false} ReflogsGrow(states: seq<State>, steps: seq<Step>, i: nat, j: nat, c: ChannelName)
    requires Run(states, steps) && i <= j <= |steps|
    ensures Logged(states[i], states[j], c)
  {
    if i < j {
      ReflogsGrow(states, steps, i, j - 1, c);
      NextLogged(states, steps, j - 1, c);
      LoggedTransitive(states[i], states[j - 1], states[j], c);
    }
  }

  // ---- The registry --------------------------------------------------------

  /** Channels are listed once, and only ever added at the end. */
  ghost predicate RegistryExtends(st: State, st': State) {
    && st.channels <= st'.channels
    && (EachOnce(st.channels) ==> EachOnce(st'.channels))
  }

  ghost predicate EachOnce(channels: seq<ChannelName>) {
    forall i, j :: 0 <= i < j < |channels| ==> channels[i] != channels[j]
  }

  lemma EnsuredRegistered(st: State, c: ChannelName)
    ensures RegistryExtends(st, EnsuredChannel(st, c))
  {
  }

  lemma StepRegisters(st: State, step: Step)
    ensures RegistryExtends(st, Next(st, step))
  {
    match step
    case Register(c) => EnsuredRegistered(st, c);
    case Commit(c, g, push, now) =>
      EnsuredRegistered(st, c);
      assert Committed(st, c, g, push, now).channels == EnsuredChannel(st, c).channels;
    case Promote(rq, h, now, subject) =>
      if Refusal(st, rq).None? && AdmittedBy(st, rq) != [] {
        PromotedRegisters(st, rq, h, now, subject);
      } else {
        assert Promoted(st, rq, h, now, subject) == st;
      }
    case Push(_, _, _) =>
    case Revert(_, _, _) =>
    case Prune(_) =>
    case AddSnapshot(_, _) =>
    case AddRelease(_, _) =>
    case AddBlob(_) =>
    case Suppress(_, _) =>
  }

  lemma PromotedRegisters(st: State, rq: Request, h: Hash, now: string, subject: string)
    requires Refusal(st, rq).None? && AdmittedBy(st, rq) != []
    ensures RegistryExtends(st, Promoted(st, rq, h, now, subject))
  {
    var g := PromotedGeneration(st, rq, h, now, subject);
    PromotedHappens(st, rq, h, now, subject, g);
    EnsuredRegistered(Created(st, g), rq.target);
    assert Created(st, g).channels == st.channels;
    assert CreatedAndPushed(st, g, rq.target, now).channels == EnsuredChannel(Created(st, g), rq.target).channels;
  }

  lemma RegisteredTransitive(a: State, b: State, c: State)
    requires RegistryExtends(a, b) && RegistryExtends(b, c)
    ensures RegistryExtends(a, c)
  {
  }

  lemma NextRegisters(states: seq<State>, steps: seq<Step>, i: nat)
    requires Run(states, steps) && i < |steps|
    ensures RegistryExtends(states[i], states[i + 1])
  {
    assert StepAt(states, steps, i);
    StepRegisters(states[i], steps[i]);
  }

  /** Along a run no channel is unregistered, listed twice or moved. */
  lemma {:induction false} RegistryGrows(states: seq<State>, steps: seq<Step>, i: nat, j: nat)
    requires Run(states, steps) && i <= j <= |steps|
    ensures RegistryExtends(states[i], states[j])
  {
    if i < j {
      RegistryGrows(states, steps, i, j - 1);
      NextRegisters(states, steps, j - 1);
      RegisteredTransitive(states[i], states[j - 1], states[j]);
    }
  }
}
