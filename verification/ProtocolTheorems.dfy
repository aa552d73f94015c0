/** What the protocol guarantees in every run, with frames lost, repeated and delayed without bound. */
module ProtocolTheorems {
  import opened Common
  import opened Snapshots
  import opened Session
  import opened Protocol
  import opened ProtocolInvariants
  import opened ProtocolSteps

  ghost predicate Reachable(s: State) {
    exists pageSize: nat, steps: seq<Step> :: IsRun(Init(pageSize), steps) && After(Init(pageSize), steps) == s
  }

  lemma ReachableIsOk(s: State)
    requires Reachable(s)
    ensures Inv(s)
  {
    var pageSize: nat, steps :| IsRun(Init(pageSize), steps) && After(Init(pageSize), steps) == s;
    InitIsOk(pageSize);
    RunKeepsInv(Init(pageSize), steps);
  }

  /** The steps of one session. */
  predicate IsSessionStep(step: Step) {
    || step.Receive? || step.LoseConnection? || IsMemoryStep(step) || IsPlainStep(step) || step.SendPart?
    || step.BeginCommit?
  }

  /** A step of another session, or of the server, leaves a session as it is. */
  lemma OtherSessionStays(s: State, step: Step, c: SessionId)
    requires Enabled(s, step) && c in s.clients && !(IsSessionStep(step) && step.c == c)
    ensures c in Next(s, step).clients && Next(s, step).clients[c] == s.clients[c]
  {
  }

  lemma StepGrows(s: State, step: Step)
    requires Enabled(s, step) && |s.w.srv.snaps| == |s.w.srv.log| + 1 && GrantsOk(s.w)
    ensures Grows(s.w, Next(s, step).w)
  {
    if step.HandlePart? { PartGrows(s, step.rid, step.slot); }
    else if IsServerStep(step) { ServerStepGrows(s, step); }
    else { assert Next(s, step).w.srv == s.w.srv; }
  }

  predicate IsServerStep(step: Step) {
    || step.HandleOpen? || step.HandleResume? || step.HandleFetch? || step.HandleClose? || step.Refuse?
    || step.DeleteDatabase?
  }

  lemma ServerStepGrows(s: State, step: Step)
    requires Enabled(s, step) && IsServerStep(step) && |s.w.srv.snaps| == |s.w.srv.log| + 1 && GrantsOk(s.w)
    ensures Grows(s.w, Next(s, step).w)
  {
    if step.HandleFetch? || step.Refuse? { assert Next(s, step).w == s.w; }
    else if step.DeleteDatabase? { assert Next(s, step).w.srv.grants == s.w.srv.grants; }
  }

  lemma DecideGrows(s: State, rid: RequestId, a: Assembly)
    requires |s.w.srv.snaps| == |s.w.srv.log| + 1
    ensures Grows(s.w, Decide(s, rid, a).w)
  {
    if Verdict(s.w.srv, a).Some? { assert Decide(s, rid, a).w == s.w; }
  }

  lemma PartGrows(s: State, rid: RequestId, slot: nat)
    requires rid < |s.w.sent| && s.w.sent[rid].Part? && |s.w.srv.snaps| == |s.w.srv.log| + 1
    ensures Grows(s.w, DoPart(s, rid, slot, s.w.sent[rid]).w)
  {
    var a := Assemble(s.w.srv, slot, s.w.sent[rid]);
    if a.Some? { DecideGrows(WithoutSlot(s, slot), rid, a.value); }
  }

  /** What a reachable state says about one version, one session, one call. */
  lemma VersionFacts(s: State, v: nat)
    requires Reachable(s) && v < Version(s)
    ensures |s.w.srv.snaps| == Version(s) + 1 && EventOk(s.w, v)
  {
    ReachableIsOk(s);
  }

  lemma SessionFacts(s: State, c: SessionId)
    requires Reachable(s) && c in s.clients
    ensures ClientOk(s.w, c, s.clients[c])
  {
    ReachableIsOk(s);
  }

  lemma CallFacts(s: State, id: CommitId)
    requires Reachable(s) && id in s.w.calls
    ensures CallOk(s.w.calls, s.clients, id) && CallsOrdered(s.w.calls)
  {
    ReachableIsOk(s);
  }

  lemma AnswerFacts(s: State, rid: RequestId, a: Answer)
    requires Reachable(s) && Reply(rid, a) in s.answers
    ensures AnswerOk(s.w, rid, a)
  {
    ReachableIsOk(s);
  }

  lemma {:induction false} RunSnoc(s: State, steps: seq<Step>, step: Step)
    requires IsRun(s, steps) && Enabled(After(s, steps), step)
    ensures IsRun(s, steps + [step]) && After(s, steps + [step]) == Next(After(s, steps), step)
    decreases |steps|
  {
    var longer := steps + [step];
    if steps == [] {
      assert longer[1..] == [];
    } else {
      RunSnoc(Next(s, steps[0]), steps[1..], step);
      assert longer[1..] == steps[1..] + [step];
    }
  }

  /** Whatever a reachable state can do leads to a reachable state. */
  lemma ReachableStep(s: State, step: Step)
    requires Reachable(s) && Enabled(s, step)
    ensures Reachable(Next(s, step))
  {
    var pageSize: nat, steps :| IsRun(Init(pageSize), steps) && After(Init(pageSize), steps) == s;
    RunSnoc(Init(pageSize), steps, step);
  }

  lemma {:induction false} ReachableRun(s: State, steps: seq<Step>)
    requires Reachable(s) && IsRun(s, steps)
    ensures Reachable(After(s, steps)) && Grows(s.w, After(s, steps).w)
    decreases |steps|
  {
    if steps != [] {
      ReachableStep(s, steps[0]);
      StepGrowsReachably(s, steps[0]);
      ReachableRun(Next(s, steps[0]), steps[1..]);
    }
  }

  // ---------------------------------------------------------------------------------------------------------------
  // Commits
  // ---------------------------------------------------------------------------------------------------------------

  /** No commit id is applied twice. */
  lemma AppliedAtMostOnce(s: State, u: nat, v: nat)
    requires Reachable(s) && u < Version(s) && v < Version(s)
    requires s.w.srv.log[u].Applied? && s.w.srv.log[v].Applied? && s.w.srv.log[u].id == s.w.srv.log[v].id
    ensures u == v
  {
    VersionFacts(s, u);
    VersionFacts(s, v);
  }

  /** The file as the session sees it: the snapshot overlaid with the blocks in memory. */
  function View(m: Mem, snap: Snapshot, pageSize: nat): Snapshot {
    seq(m.count, i requires 0 <= i < m.count => if i in m.held then m.held[i] else At(snap, i, pageSize))
  }

  /** On top of the version `cl` knows, the server applied commit `id`, and what it left is the file as `cl` sees it. */
  ghost predicate IsCommitted(cl: Client, id: CommitId, srv: Server) {
    && cl.version < |srv.log| && cl.version + 1 < |srv.snaps|
    && srv.log[cl.version] == Applied(id, cl.epoch)
    && srv.snaps[cl.version + 1] == View(cl.mem, srv.snaps[cl.version], srv.pageSize)
  }

  /**
   * A commit that returned success was applied exactly once, as a whole, on top of the version it was based on: the
   * next version is the file exactly as the session saw it when it called `commit`.
   */
  lemma AcknowledgedCommit(s: State, step: Step, rest: seq<Step>)
    requires Reachable(s) && Enabled(s, step) && step.BeginCommit? && IsRun(Next(s, step), rest)
    requires step.c in After(Next(s, step), rest).clients
    requires step.id in After(Next(s, step), rest).clients[step.c].done
    ensures IsCommitted(s.clients[step.c], step.id, After(Next(s, step), rest).w.srv)
  {
    var t, cl := Next(s, step), s.clients[step.c];
    ReachableStep(s, step);
    ReachableRun(t, rest);
    var z := After(t, rest);
    SessionFacts(z, step.c);
    assert IsApplied(z.w, step.id);
    DoneWasRecorded(s, step, rest);
    RecordedCallStays(s, step, rest);
    VersionFacts(z, cl.version);
    SeenSnapshotStays(s, step, rest);
    AppliedIsView(cl.mem, z.w.srv.snaps[cl.version], z.w.srv.pageSize);
  }

  lemma SeenSnapshotStays(s: State, step: Step, rest: seq<Step>)
    requires Reachable(s) && Enabled(s, step) && step.BeginCommit? && IsRun(Next(s, step), rest)
    ensures var cl, srv := s.clients[step.c], After(Next(s, step), rest).w.srv;
            cl.version < |srv.snaps| && Coherent(cl.mem, srv.snaps[cl.version], srv.pageSize)
  {
    SessionFacts(s, step.c);
    ReachableStep(s, step);
    ReachableRun(Next(s, step), rest);
    BegunCallIsRecorded(s, step);
  }

  /** A commit refused by the revocation check is never reported as successful. */
  lemma DoneWasRecorded(s: State, step: Step, rest: seq<Step>)
    requires Reachable(s) && Enabled(s, step) && step.BeginCommit? && IsRun(Next(s, step), rest)
    requires step.c in After(Next(s, step), rest).clients
    requires step.id in After(Next(s, step), rest).clients[step.c].done
    ensures step.id in Next(s, step).w.calls
  {
    BegunCallIsRecorded(s, step);
    if step.id !in Next(s, step).w.calls {
      SessionFacts(s, step.c);
      ReachableStep(s, step);
      BrokenStaysBroken(Next(s, step), rest, step.c);
    }
  }

  /** The description of a call never changes. */
  lemma RecordedCallStays(s: State, step: Step, rest: seq<Step>)
    requires Reachable(s) && Enabled(s, step) && step.BeginCommit? && IsRun(Next(s, step), rest)
    requires step.id in Next(s, step).w.calls
    ensures step.id in After(Next(s, step), rest).w.calls
    ensures var cl, call := s.clients[step.c], After(Next(s, step), rest).w.calls[step.id];
            && call.base == cl.version && call.epoch == cl.epoch && call.count == cl.mem.count
            && call.writes == DirtyBlocks(cl.mem)
  {
    BegunCallIsRecorded(s, step);
    ReachableStep(s, step);
    ReachableRun(Next(s, step), rest);
  }

  lemma AppliedIsView(m: Mem, snap: Snapshot, pageSize: nat)
    requires Coherent(m, snap, pageSize)
    ensures Apply(snap, m.count, DirtyBlocks(m), pageSize) == View(m, snap, pageSize)
  {
  }

  /** A commit that gets past the revocation check is recorded as it was called. */
  lemma BegunCallIsRecorded(s: State, step: Step)
    requires Enabled(s, step) && step.BeginCommit?
    ensures var t, cl := Next(s, step), s.clients[step.c];
            t.w.srv == s.w.srv && t.clients[step.c].done == cl.done &&
            if step.id in t.w.calls then
              var call := t.w.calls[step.id];
              && call.base == cl.version && call.epoch == cl.epoch && call.count == cl.mem.count
              && call.writes == DirtyBlocks(cl.mem)
            else t.clients[step.c].broken == Some(Fenced)
  {
  }

  /**
   * The commits applied for one session appear in the order of its calls, every acknowledged call is among them, and
   * no call is applied more than once.
   */
  lemma AppliedInCallOrder(s: State, u: nat, v: nat)
    requires Reachable(s) && u < v < Version(s) && s.w.srv.log[u].Applied? && s.w.srv.log[v].Applied?
    ensures var a, b := s.w.srv.log[u].id, s.w.srv.log[v].id;
            a in s.w.calls && b in s.w.calls
            && (s.w.calls[a].client == s.w.calls[b].client ==> s.w.calls[a].order < s.w.calls[b].order)
  {
    VersionFacts(s, u);
    VersionFacts(s, v);
    CallFacts(s, s.w.srv.log[u].id);
  }

  lemma AcknowledgedAreApplied(s: State, c: SessionId, id: CommitId)
    requires Reachable(s) && c in s.clients && id in s.clients[c].done
    ensures exists v :: 0 <= v < Version(s) && s.w.srv.log[v] == Applied(id, s.clients[c].epoch)
  {
    SessionFacts(s, c);
    assert IsApplied(s.w, id);
    CallFacts(s, id);
    assert s.w.srv.log[s.w.calls[id].base] == Applied(id, s.clients[c].epoch);
  }

  // ---------------------------------------------------------------------------------------------------------------
  // Fencing
  // ---------------------------------------------------------------------------------------------------------------

  /** Epochs along the log never decrease. */
  lemma EpochsNeverDecrease(s: State, u: nat, v: nat)
    requires Reachable(s) && u < v < Version(s)
    ensures s.w.srv.log[u].epoch <= s.w.srv.log[v].epoch
  {
    ReachableIsOk(s);
  }

  /** Once a lease is granted, nothing is applied under an older one, however late its frames arrive. */
  lemma {:induction false} OldLeaseNeverCommits(s: State, steps: seq<Step>, v: nat)
    requires Reachable(s) && IsRun(s, steps) && Version(s) <= v < Version(After(s, steps))
    ensures s.w.srv.epoch <= After(s, steps).w.srv.log[v].epoch
    decreases |steps|
  {
    if steps != [] {
      var t := Next(s, steps[0]);
      ReachableStep(s, steps[0]);
      ReachableRun(t, steps[1..]);
      StepGrowsReachably(s, steps[0]);
      if v < Version(t) { StepAppendsCurrent(s, steps[0], v); }
      else { OldLeaseNeverCommits(t, steps[1..], v); }
    }
  }

  lemma StepGrowsReachably(s: State, step: Step)
    requires Reachable(s) && Enabled(s, step)
    ensures Grows(s.w, Next(s, step).w)
  {
    ReachableIsOk(s);
    StepGrows(s, step);
  }

  lemma StepAppendsCurrent(s: State, step: Step, v: nat)
    requires Enabled(s, step) && Version(s) <= v < Version(Next(s, step))
    ensures s.w.srv.epoch <= Next(s, step).w.srv.log[v].epoch
  {
    if step.HandlePart? { PartAppendsCurrent(s, step.rid, step.slot); }
    else if !step.DeleteDatabase? { LogStays(s, step); }
  }

  lemma LogStays(s: State, step: Step)
    requires Enabled(s, step) && !step.HandlePart? && !step.DeleteDatabase?
    ensures Next(s, step).w.srv.log == s.w.srv.log
  {
  }

  lemma PartAppendsCurrent(s: State, rid: RequestId, slot: nat)
    requires rid < |s.w.sent| && s.w.sent[rid].Part? && |s.w.srv.snaps| == |s.w.srv.log| + 1
    ensures var t := DoPart(s, rid, slot, s.w.sent[rid]);
            t.w.srv.log == s.w.srv.log ||
            exists id :: t.w.srv.log == s.w.srv.log + [Applied(id, s.w.srv.epoch)]
  {
  }

  /** A session that was told its lease is revoked, or that reports itself fenced, has lost its lease for good. */
  lemma FencedIsReal(s: State, c: SessionId, steps: seq<Step>)
    requires Reachable(s) && c in s.clients && s.clients[c].epoch > 0 && IsRun(s, steps)
    requires s.clients[c].revokedTo > s.clients[c].epoch || s.clients[c].broken == Some(Fenced)
    ensures !Current(After(s, steps).w.srv, s.clients[c].epoch)
  {
    SessionFacts(s, c);
    ReachableRun(s, steps);
  }

  // ---------------------------------------------------------------------------------------------------------------
  // Reading
  // ---------------------------------------------------------------------------------------------------------------

  /**
   * While the database is usable, what it reads is the snapshot of its version overlaid with its uncommitted writes:
   * nothing else ever gets into memory.
   */
  lemma ReadsSeeTheSnapshot(s: State, c: SessionId, i: nat)
    requires Reachable(s) && c in s.clients && Serving(s.clients[c]) && i < s.clients[c].mem.count
    ensures var cl := s.clients[c];
            && cl.version < |s.w.srv.snaps|
            && var snap := s.w.srv.snaps[cl.version];
            && View(cl.mem, snap, s.w.srv.pageSize)[i] ==
               (if i in DirtyBlocks(cl.mem) then DirtyBlocks(cl.mem)[i] else At(snap, i, s.w.srv.pageSize))
            && (IsClean(cl.mem) ==> View(cl.mem, snap, s.w.srv.pageSize) == snap)
  {
    SessionFacts(s, c);
  }

  // ---------------------------------------------------------------------------------------------------------------
  // Failure
  // ---------------------------------------------------------------------------------------------------------------

  /** A database that broke for good: nothing about it changes any more. */
  predicate BrokenForGood(cl: Client) { cl.broken.Some? && cl.broken.value != Uncertain }

  /** What session `c` sent from request `from` on. */
  predicate SentNothing(s: State, c: SessionId, from: nat) {
    forall r :: from <= r < |s.w.sent| ==> s.w.sent[r].client != c
  }

  lemma {:induction false} BrokenStaysBroken(s: State, steps: seq<Step>, c: SessionId)
    requires Reachable(s) && IsRun(s, steps) && c in s.clients && BrokenForGood(s.clients[c])
    ensures var t := After(s, steps);
            && c in t.clients && t.clients[c].broken == s.clients[c].broken
            && t.clients[c].version == s.clients[c].version && t.clients[c].mem == s.clients[c].mem
            && t.clients[c].done == s.clients[c].done
            && |s.w.sent| <= |t.w.sent| && SentNothing(t, c, |s.w.sent|)
    decreases |steps|
  {
    if steps != [] {
      var t := Next(s, steps[0]);
      if steps[0].SendPart? { SessionFacts(s, steps[0].c); }
      SessionFacts(s, c);
      BrokenStep(s, steps[0], c);
      ReachableStep(s, steps[0]);
      ReachableRun(t, steps[1..]);
      BrokenStaysBroken(t, steps[1..], c);
      var z := After(t, steps[1..]);
      forall r | |s.w.sent| <= r < |z.w.sent| ensures z.w.sent[r].client != c {
        if r < |t.w.sent| { assert z.w.sent[r] == t.w.sent[r]; }
      }
    }
  }

  lemma BrokenStep(s: State, step: Step, c: SessionId)
    requires Enabled(s, step) && c in s.clients && BrokenForGood(s.clients[c]) && PhaseOk(s.w, c, s.clients[c])
    requires step.SendPart? ==> ClientOk(s.w, step.c, s.clients[step.c])
    ensures var t := Next(s, step);
            && c in t.clients && t.clients[c].broken == s.clients[c].broken
            && t.clients[c].version == s.clients[c].version && t.clients[c].mem == s.clients[c].mem
            && t.clients[c].done == s.clients[c].done
            && |s.w.sent| <= |t.w.sent| && SentNothing(t, c, |s.w.sent|)
  {
    assert s.clients[c].phase.Idle? || s.clients[c].phase.Gone?;
    if IsSessionStep(step) && step.c == c {
      BrokenOwnStep(s, step, c);
    } else {
      OtherSessionStays(s, step, c);
      if IsSessionStep(step) { OtherSessionSends(s, step, c); }
    }
  }

  lemma BrokenOwnStep(s: State, step: Step, c: SessionId)
    requires Enabled(s, step) && IsSessionStep(step) && step.c == c && c in s.clients && BrokenForGood(s.clients[c])
    requires s.clients[c].phase.Idle? || s.clients[c].phase.Gone?
    ensures var t := Next(s, step);
            && c in t.clients && t.clients[c].broken == s.clients[c].broken
            && t.clients[c].version == s.clients[c].version && t.clients[c].mem == s.clients[c].mem
            && t.clients[c].done == s.clients[c].done && t.w.sent == s.w.sent
  {
  }

  lemma OtherSessionSends(s: State, step: Step, c: SessionId)
    requires Enabled(s, step) && IsSessionStep(step) && step.c != c
    requires step.SendPart? ==> ClientOk(s.w, step.c, s.clients[step.c])
    ensures |s.w.sent| <= |Next(s, step).w.sent| && SentNothing(Next(s, step), c, |s.w.sent|)
  {
  }

  /**
   * A database that could not reach the server becomes usable again only at the end of a heal: the lease was resumed,
   * the version is the client's or the one of its pending commit, and the blocks were loaded anew as of that version.
   */
  lemma OnlyHealRepairs(s: State, step: Step, c: SessionId)
    requires Reachable(s) && Enabled(s, step) && c in s.clients && s.clients[c].broken == Some(Uncertain)
    requires Next(s, step).clients[c].broken.None?
    ensures var cl, next := s.clients[c], Next(s, step).clients[c];
            && step.Receive? && step.c == c && next.phase.Idle? && next.pending.None?
            && IsClean(next.mem)
            && next.version < |s.w.srv.snaps|
            && View(next.mem, s.w.srv.snaps[next.version], s.w.srv.pageSize) == s.w.srv.snaps[next.version]
            && (cl.phase == Resuming(Healing, Some(step.rid)) ==>
                  && step.answer.Opened? && step.answer.version == next.version
                  && (next.version == cl.version || PendingApplied(cl, next.version, step.answer.lastId)))
            && (cl.phase.Resuming? || (cl.phase.Loading? && cl.phase.purpose.ForHeal? && step.answer.Pages?))
  {
    SessionFacts(s, c);
    RepairShape(s, step, c);
    ReachableStep(s, step);
    SessionFacts(Next(s, step), c);
  }

  lemma RepairShape(s: State, step: Step, c: SessionId)
    requires Enabled(s, step) && c in s.clients && PhaseOk(s.w, c, s.clients[c])
    requires s.clients[c].broken == Some(Uncertain) && Next(s, step).clients[c].broken.None?
    ensures var cl, next := s.clients[c], Next(s, step).clients[c];
            && step.Receive? && step.c == c && Next(s, step).w == s.w
            && next.phase.Idle? && next.pending.None? && IsClean(next.mem) && next.epoch > 0
            && (cl.phase == Resuming(Healing, Some(step.rid)) ==>
                  && step.answer.Opened? && step.answer.version == next.version
                  && (next.version == cl.version || PendingApplied(cl, next.version, step.answer.lastId)))
            && (cl.phase.Resuming? || (cl.phase.Loading? && cl.phase.purpose.ForHeal? && step.answer.Pages?))
  {
    if !(IsSessionStep(step) && step.c == c) { OtherSessionStays(s, step, c); }
    else if !step.Receive? { OnlyAnswersRepair(s, step); }
    else { AnswerRepairs(s.clients[c], step.rid, step.answer, step.late, step.renew); }
  }

  lemma OnlyAnswersRepair(s: State, step: Step)
    requires Enabled(s, step) && IsSessionStep(step) && !step.Receive? && step.c in s.clients
    requires s.clients[step.c].broken == Some(Uncertain)
    ensures Next(s, step).clients[step.c].broken.Some?
  {
  }

  lemma AnswerRepairs(cl: Client, rid: RequestId, a: Answer, late: bool, renew: bool)
    requires Waits(cl, rid) && cl.broken == Some(Uncertain) && React(cl, rid, a, late, renew).broken.None?
    requires cl.phase.Loading? ==> cl.phase.purpose.ForHeal? && cl.pending.None? && cl.epoch > 0
    requires cl.phase.Resuming? ==> cl.phase.why.Healing? && cl.epoch > 0
    requires !cl.phase.Opening? && !cl.phase.AwaitAck?
    ensures var next := React(cl, rid, a, late, renew);
            && next.phase.Idle? && next.pending.None? && IsClean(next.mem) && next.epoch > 0
            && (cl.phase == Resuming(Healing, Some(rid)) ==>
                  && a.Opened? && a.version == next.version
                  && (next.version == cl.version || PendingApplied(cl, next.version, a.lastId)))
            && (cl.phase.Resuming? || (cl.phase.Loading? && cl.phase.purpose.ForHeal? && a.Pages?))
  {
  }
}
