/** What `Diverged` says about the commit that reported it. */
module ProtocolDiverged {
  import opened Common
  import opened Snapshots
  import opened Session
  import opened Protocol
  import opened ProtocolInvariants
  import opened ProtocolTheorems
  import opened ProtocolLease

  /**
   * A commit that ends as `Diverged` was applied exactly if the server named it as its last commit. The resume after
   * a broken connection compares the id, so there `Diverged` means not applied; the resume at the top of the loop
   * compares only the version.
   */
  lemma DivergedOutcome(s: State, step: Step, rest: seq<Step>)
    requires Reachable(s) && Enabled(s, step) && step.Receive? && s.clients[step.c].broken.None?
    requires Next(s, step).clients[step.c].broken == Some(Diverged) && IsRun(Next(s, step), rest)
    ensures var cl := s.clients[step.c];
            && cl.phase.Resuming? && cl.pending.Some? && step.answer.Opened?
            && (IsApplied(After(Next(s, step), rest).w, cl.pending.value) <==> step.answer.lastId == cl.pending)
            && (cl.phase.why.AfterBreak? ==> step.answer.lastId != cl.pending)
  {
    DivergedNow(s, step);
    AnswerChangesNothing(s, step, rest);
    FixedOutcome(s.w, After(Next(s, step), rest).w, s.clients[step.c].pending.value);
  }

  lemma DivergedNow(s: State, step: Step)
    requires Reachable(s) && Enabled(s, step) && step.Receive? && s.clients[step.c].broken.None?
    requires Next(s, step).clients[step.c].broken == Some(Diverged)
    ensures var cl := s.clients[step.c];
            && cl.phase.Resuming? && cl.pending.Some? && step.answer.Opened?
            && cl.pending.value in s.w.calls && s.w.calls[cl.pending.value].base < |s.w.srv.log|
            && (IsApplied(s.w, cl.pending.value) <==> step.answer.lastId == cl.pending)
            && (cl.phase.why.AfterBreak? ==> step.answer.lastId != cl.pending)
  {
    var c, cl, a := step.c, s.clients[step.c], step.answer;
    SessionFacts(s, c);
    DivergedShape(cl, step.rid, a, step.late, step.renew);
    ReachableLeases(s, c);
    AnswerFacts(s, step.rid, a);
    assert cl.version <= a.version <= cl.version + 1;
    VersionFacts(s, cl.version);
  }

  /** Taking an answer changes the session alone, and the world only grows afterwards. */
  lemma AnswerChangesNothing(s: State, step: Step, rest: seq<Step>)
    requires Reachable(s) && Enabled(s, step) && step.Receive? && IsRun(Next(s, step), rest)
    ensures Reachable(After(Next(s, step), rest)) && Grows(s.w, After(Next(s, step), rest).w)
  {
    ReachableStep(s, step);
    ReachableRun(Next(s, step), rest);
    assert Next(s, step).w == s.w;
  }

  lemma DivergedShape(cl: Client, rid: RequestId, a: Answer, late: bool, renew: bool)
    requires Waits(cl, rid) && cl.broken.None? && React(cl, rid, a, late, renew).broken == Some(Diverged)
    ensures cl.phase.Resuming? && a.Opened? && a.version != cl.version && !cl.phase.why.Reading?
    ensures cl.phase.why.AfterBreak? ==> a.version != cl.version + 1 || a.lastId != Some(cl.phase.why.id)
  {
  }

  /** Once the version a call was based on is taken, whether the call was applied never changes. */
  lemma FixedOutcome(w: World, x: World, id: CommitId)
    requires Grows(w, x) && id in w.calls && w.calls[id].base < |w.srv.log|
    ensures IsApplied(w, id) <==> IsApplied(x, id)
  {
    assert x.srv.log[w.calls[id].base] == w.srv.log[w.calls[id].base];
  }

  // ---------------------------------------------------------------------------------------------------------------
  // A run in which an applied commit is reported as Diverged
  // ---------------------------------------------------------------------------------------------------------------

  const BLOCK: Block := [1]
  const WRITTEN := Mem(1, map[0 := BLOCK], {0}, true)
  const WRITER := Client(0, false, 1, 0, None, None, WRITTEN, 0, Idle, [])
  const CALL := Call(0, 1, 0, 1, map[0 := BLOCK], [[BlockWrite(0, BLOCK)]], 0)

  /** A session opens an empty database and writes one block. */
  lemma OpensAndWrites() returns (s: State)
    ensures Reachable(s) && s.w.srv.log == [] && s.w.srv.snaps == [[]] && s.w.srv.epoch == 1 && s.w.srv.live
    ensures s.w.srv.lastId.None? && s.w.sent == [Open(0)] && s.w.calls == map[]
    ensures 0 in s.clients && s.clients[0] == WRITER
  {
    s := Init(1);
    assert IsRun(s, []) && After(s, []) == s;
    ReachableStep(s, StartOpen(0, false));
    s := Next(s, StartOpen(0, false));
    ReachableStep(s, HandleOpen(0));
    s := Next(s, HandleOpen(0));
    ReachableStep(s, Receive(0, 0, Opened(1, 0, 0, None), false, false));
    s := Next(s, Receive(0, 0, Opened(1, 0, 0, None), false, false));
    ReachableStep(s, Write(0, 0, BLOCK));
    s := Next(s, Write(0, 0, BLOCK));
    assert s.clients[0].mem.held == map[0 := BLOCK];
  }

  lemma OnePart()
    ensures DirtyBlocks(WRITTEN) == map[0 := BLOCK]
    ensures Flatten(CALL.parts) == [BlockWrite(0, BLOCK)] && Overlay(Flatten(CALL.parts)) == map[0 := BLOCK]
  {
    assert Flatten(CALL.parts[..0]) == [];
    assert [] + [BlockWrite(0, BLOCK)] == [BlockWrite(0, BLOCK)];
    assert Overlay([BlockWrite(0, BLOCK)][..0]) == map[];
  }

  /** It calls `commit` and sends the only part. */
  lemma Commits() returns (s: State)
    ensures Reachable(s) && s.w.srv.log == [] && s.w.srv.snaps == [[]] && s.w.srv.epoch == 1 && s.w.srv.live
    ensures s.w.srv.lastId.None? && s.w.sent == [Open(0), PartFrame(7, CALL, 0)] && s.w.calls == map[7 := CALL]
    ensures 0 in s.clients && s.clients[0] == WRITER.(pending := Some(7), phase := AwaitAck(7, [1], None))
  {
    s := OpensAndWrites();
    OnePart();
    ReachableStep(s, BeginCommit(0, 7, CALL.parts, true));
    s := Next(s, BeginCommit(0, 7, CALL.parts, true));
    assert s.w.calls[7] == CALL;
    ReachableStep(s, SendPart(0));
    s := Next(s, SendPart(0));
    assert s.clients[0].phase.ids == [] + [1] == [1];
  }

  lemma IsAppliedByServer() returns (s: State)
    ensures Reachable(s) && s.w.srv.log == [Applied(7, 1)] && |s.w.srv.snaps| == 2 && s.w.srv.epoch == 1 && s.w.srv.live
    ensures s.w.srv.lastId == Some(7) && |s.w.srv.snaps[1]| == 1 && |s.w.sent| == 2 && s.w.calls == map[7 := CALL]
    ensures 0 in s.clients && s.clients[0] == WRITER.(pending := Some(7), phase := AwaitAck(7, [1], None))
  {
    var before := Commits();
    var f := before.w.sent[1];
    assert f == PartFrame(7, CALL, 0);
    var a := Assembly(7, 1, 0, 1, 1, CALL.parts[0]);
    assert Assemble(before.w.srv, 0, f) == Some(a) && !f.more;
    s := Next(before, HandlePart(1, 0));
    ReachableStep(before, HandlePart(1, 0));
    assert Verdict(before.w.srv, a).None?;
  }

  /** The server applies the commit but answers with a transient error, and the access token is due for renewal. */
  lemma FailsTransiently() returns (s: State)
    ensures Reachable(s) && s.w.srv.log == [Applied(7, 1)] && |s.w.srv.snaps| == 2 && s.w.srv.epoch == 1 && s.w.srv.live
    ensures s.w.srv.lastId == Some(7) && |s.w.srv.snaps[1]| == 1 && |s.w.sent| == 2 && s.w.calls == map[7 := CALL]
    ensures 0 in s.clients && s.clients[0] == WRITER.(pending := Some(7), phase := Resuming(TopOfLoop(7), None))
  {
    s := IsAppliedByServer();
    ReachableStep(s, Refuse(1, Internal));
    s := Next(s, Refuse(1, Internal));
    ReachableStep(s, Receive(0, 1, Error(Internal), false, true));
    s := Next(s, Receive(0, 1, Error(Internal), false, true));
  }

  /** A run that ends with `Diverged` although its commit was applied: the case the top of the loop does not see. */
  lemma DivergedAlthoughApplied() returns (s: State)
    ensures Reachable(s) && 0 in s.clients && s.clients[0].broken == Some(Diverged)
    ensures s.clients[0].pending == Some(7) && IsApplied(s.w, 7)
  {
    s := FailsTransiently();
    ReachableStep(s, SendResume(0));
    s := Next(s, SendResume(0));
    ReachableStep(s, HandleResume(2));
    s := Next(s, HandleResume(2));
    ReachableStep(s, Receive(0, 2, Opened(1, 1, 1, Some(7)), false, false));
    s := Next(s, Receive(0, 2, Opened(1, 1, 1, Some(7)), false, false));
  }
}
