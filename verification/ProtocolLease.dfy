/**
 * How far the server can be ahead of the session that holds the lease.
 *
 * In every run it is at most one version ahead. If moreover the frames of a dropped connection do not outlive the
 * resume that replaces it (`Timely`), it is ahead exactly by the pending commit, and healing is exact.
 */
module ProtocolLease {
  import opened Common
  import opened Session
  import opened Protocol
  import opened ProtocolInvariants
  import opened ProtocolSteps
  import opened ProtocolTheorems

  predicate AwaitsResume(cl: Client, rid: RequestId) { cl.phase.Resuming? && cl.phase.resumeId == Some(rid) }

  predicate AwaitsOpen(cl: Client, rid: RequestId) { cl.phase == Opening(rid) }

  /** The holder of the current lease is at most one version behind, also in the answer it is waiting for. */
  ghost predicate LeaseOk(srv: Server, answers: set<Reply>, cl: Client) {
    && (cl.epoch > 0 && Current(srv, cl.epoch) ==> |srv.log| <= cl.version + 1)
    && (forall reply <- answers :: reply.answer.Opened? ==>
          && (AwaitsResume(cl, reply.rid) ==> reply.answer.version <= cl.version + 1)
          && (AwaitsOpen(cl, reply.rid) && Current(srv, reply.answer.epoch) ==> |srv.log| <= reply.answer.version))
  }

  ghost predicate LeasesOk(s: State) {
    forall c <- s.clients :: LeaseOk(s.w.srv, s.answers, s.clients[c])
  }

  /** A lease belongs to one session, and to none before that session took its answer. */
  lemma LeaseHasOneHolder(w: World, clients: map<SessionId, Client>, id: CommitId, c: SessionId)
    requires ClientsOk(w, clients) && id in w.calls && CallOk(w.calls, clients, id) && c in clients
    requires w.calls[id].epoch in w.srv.grants && w.srv.grants[w.calls[id].epoch] == clients[c].openRid
    ensures w.calls[id].client == c && clients[c].epoch == w.calls[id].epoch > 0
  {
    var d := w.calls[id].client;
    assert ClientOk(w, d, clients[d]) && ClientOk(w, c, clients[c]);
  }

  /** When commit `id` is applied, only its own session can hold the current lease. */
  lemma ApplyKeepsLease(s: State, id: CommitId, srv: Server, c: SessionId)
    requires Inv(s) && c in s.clients && LeaseOk(s.w.srv, s.answers, s.clients[c])
    requires id in s.w.calls && s.w.calls[id].epoch == s.w.srv.epoch == srv.epoch && srv.live
    requires |srv.log| == s.w.calls[id].base + 1
    ensures LeaseOk(srv, s.answers, s.clients[c])
  {
    var cl := s.clients[c];
    assert CallOk(s.w.calls, s.clients, id) && ClientOk(s.w, c, cl);
    if cl.epoch > 0 && Current(srv, cl.epoch) { LeaseHasOneHolder(s.w, s.clients, id, c); }
    forall reply <- s.answers
      ensures !(reply.answer.Opened? && AwaitsOpen(cl, reply.rid) && Current(srv, reply.answer.epoch))
    {
      assert AnswerOk(s.w, reply.rid, reply.answer);
      if reply.answer.Opened? && AwaitsOpen(cl, reply.rid) && Current(srv, reply.answer.epoch) {
        LeaseHasOneHolder(s.w, s.clients, id, c);
      }
    }
  }

  /** A session whose version does not change and that waits for no other resume keeps its bound. */
  lemma ReceiveKeepsLease(s: State, step: Step)
    requires Inv(s) && Enabled(s, step) && step.Receive? && LeaseOk(s.w.srv, s.answers, s.clients[step.c])
    ensures LeaseOk(s.w.srv, s.answers, Next(s, step).clients[step.c])
  {
    var c, cl := step.c, s.clients[step.c];
    assert ClientOk(s.w, c, cl) && AnswerOk(s.w, step.rid, step.answer);
    ReactEndsWait(cl, step.rid, step.answer, step.late, step.renew);
    ReactKeepsClientOf(s, step);
  }

  lemma ReactKeepsClientOf(s: State, step: Step)
    requires Inv(s) && Enabled(s, step) && step.Receive?
    ensures Advances(s.clients[step.c], Next(s, step).clients[step.c])
  {
    PartsNonempty(s);
    assert ClientOk(s.w, step.c, s.clients[step.c]) && AnswerOk(s.w, step.rid, step.answer);
    ReactKeepsClient(s.w, step.c, s.clients[step.c], step.rid, step.answer, step.late, step.renew);
  }

  /** After taking an answer the session waits for no resume and no open. */
  lemma ReactEndsWait(cl: Client, rid: RequestId, a: Answer, late: bool, renew: bool)
    requires Waits(cl, rid)
    ensures var next := React(cl, rid, a, late, renew);
            && (next.phase.Resuming? ==> next.phase.resumeId.None?) && !next.phase.Opening?
            && (cl.phase.Opening? && next.epoch > 0 && cl.epoch == 0 ==>
                  a.Opened? && next.epoch == a.epoch && next.version == a.version)
            && (!cl.phase.Opening? ==> next.epoch == cl.epoch)
  {
    match cl.phase
    case AwaitAck(id, ids, refusal) => AckEndsWait(cl, id, ids, refusal, rid, a, late, renew);
    case Resuming(why, _) => if a.Opened? { ResumedEndsWait(cl, why, a, late, renew); }
    case _ =>
  }

  lemma AckEndsWait(cl: Client, id: CommitId, ids: seq<RequestId>, refusal: Option<Code>, rid: RequestId, a: Answer,
                    late: bool, renew: bool)
    requires ids != []
    ensures var next := OnAwaitAck(cl, id, ids, refusal, rid, a, late, renew);
            (next.phase.Resuming? ==> next.phase.resumeId.None?) && !next.phase.Opening? && next.epoch == cl.epoch
  {
  }

  lemma ResumedEndsWait(cl: Client, why: Why, a: Answer, late: bool, renew: bool)
    requires a.Opened?
    ensures var next := OnResumed(cl, why, a.version, a.count, a.lastId, late, renew);
            (next.phase.Resuming? ==> next.phase.resumeId.None?) && !next.phase.Opening? && next.epoch == cl.epoch
  {
  }

  // ---------------------------------------------------------------------------------------------------------------
  // Every run
  // ---------------------------------------------------------------------------------------------------------------

  /** Any other step of the session keeps its version and its lease, and it waits for no answer given before. */
  lemma SessionStepKeepsLease(s: State, step: Step)
    requires Enabled(s, step) && IsSessionStep(step) && !step.Receive? && AnswersOk(s.w, s.answers)
    requires step.c in s.clients ==> LeaseOk(s.w.srv, s.answers, s.clients[step.c])
    ensures LeaseOk(s.w.srv, s.answers, Next(s, step).clients[step.c])
  {
    if step.StartOpen? || step.SendResume? {
      forall reply <- s.answers ensures reply.rid < |s.w.sent| { assert AnswerOk(s.w, reply.rid, reply.answer); }
    } else {
      WaitsForNothingNew(s, step);
    }
  }

  lemma WaitsForNothingNew(s: State, step: Step)
    requires Enabled(s, step) && IsSessionStep(step) && !step.Receive? && !step.StartOpen? && !step.SendResume?
    ensures step.c in s.clients
    ensures var cl, next := s.clients[step.c], Next(s, step).clients[step.c];
            && next.epoch == cl.epoch && next.version == cl.version && next.openRid == cl.openRid
            && (next.phase == cl.phase ||
                ((next.phase.Resuming? ==> next.phase.resumeId.None?) && !next.phase.Opening?))
  {
    if step.LoseConnection? { LossWaitsForNothing(s.clients[step.c], step.late); }
  }

  lemma LossWaitsForNothing(cl: Client, late: bool)
    ensures var next := Lost(cl, late);
            && next.epoch == cl.epoch && next.version == cl.version && next.openRid == cl.openRid
            && (next.phase == cl.phase ||
                ((next.phase.Resuming? ==> next.phase.resumeId.None?) && !next.phase.Opening?))
  {
  }

  /** Only session `c` changes, and what it sends is nobody else's. */
  predicate SendsOwn(s: State, t: State, c: SessionId) {
    && c in t.clients
    && t.w.srv == s.w.srv && t.answers == s.answers && t.clients == s.clients[c := t.clients[c]]
    && (t.w.sent == s.w.sent
        || (|t.w.sent| == |s.w.sent| + 1 && s.w.sent <= t.w.sent && t.w.sent[|s.w.sent|].client == c))
  }

  lemma SendsOwnParts(s: State, step: Step)
    requires Enabled(s, step) && IsSessionStep(step)
    requires step.c in s.clients ==> ClientOk(s.w, step.c, s.clients[step.c])
    ensures SendsOwn(s, Next(s, step), step.c)
  {
    if step.SendPart? { assert s.w.calls[s.clients[step.c].phase.id].client == step.c; }
    else if step.StartOpen? || step.SendResume? || step.SendFetch? || step.Close? || step.BeginCommit? {
      SendsOwnFrame(s, step);
    }
    else { SendsNothing(s, step); }
  }

  lemma SendsOwnFrame(s: State, step: Step)
    requires Enabled(s, step)
    requires step.StartOpen? || step.SendResume? || step.SendFetch? || step.Close? || step.BeginCommit?
    ensures SendsOwn(s, Next(s, step), step.c)
  {
  }

  lemma SendsNothing(s: State, step: Step)
    requires Enabled(s, step) && IsSessionStep(step)
    requires !step.StartOpen? && !step.SendResume? && !step.SendFetch? && !step.Close? && !step.SendPart?
    requires !step.BeginCommit?
    ensures SendsOwn(s, Next(s, step), step.c) && Next(s, step).w == s.w
  {
  }

  lemma OwnStepKeepsLease(s: State, step: Step)
    requires Inv(s) && LeasesOk(s) && Enabled(s, step) && IsSessionStep(step)
    ensures LeaseOk(s.w.srv, s.answers, Next(s, step).clients[step.c])
  {
    if step.Receive? { ReceiveKeepsLease(s, step); } else { SessionStepKeepsLease(s, step); }
  }

  lemma SessionStepKeepsLeases(s: State, step: Step)
    requires Inv(s) && LeasesOk(s) && Enabled(s, step) && IsSessionStep(step)
    ensures LeasesOk(Next(s, step))
  {
    OwnStepKeepsLease(s, step);
    SendsOwnParts(s, step);
    var t := Next(s, step);
    forall c <- t.clients ensures LeaseOk(t.w.srv, t.answers, t.clients[c]) {
      if c != step.c { assert LeaseOk(s.w.srv, s.answers, s.clients[c]); }
    }
  }

  /** A lease that is no longer current binds nobody. */
  lemma LostLease(w: World, srv: Server, answers: set<Reply>, c: SessionId, cl: Client)
    requires ClientOk(w, c, cl) && AnswersOk(w, answers) && LeaseOk(w.srv, answers, cl)
    requires srv.epoch > w.srv.epoch || !srv.live
    ensures LeaseOk(srv, answers, cl)
  {
    forall reply <- answers
      ensures reply.answer.Opened? && AwaitsOpen(cl, reply.rid) ==> !Current(srv, reply.answer.epoch)
    {
      assert AnswerOk(w, reply.rid, reply.answer);
    }
  }

  lemma LeaseChangeKeepsLeases(s: State, step: Step)
    requires Inv(s) && LeasesOk(s) && Enabled(s, step)
    requires step.HandleOpen? || step.DeleteDatabase? || step.HandleClose?
    ensures LeasesOk(Next(s, step))
  {
    var t := Next(s, step);
    LeaseChangeShape(s, step);
    forall c <- t.clients ensures LeaseOk(t.w.srv, t.answers, t.clients[c]) {
      var cl := s.clients[c];
      assert ClientOk(s.w, c, cl) && LeaseOk(s.w.srv, s.answers, cl);
      if t.w.srv != s.w.srv {
        LostLease(s.w, t.w.srv, s.answers, c, cl);
        AnswersKeepLease(s.w, t.w.srv, s.answers, t.answers, c, cl);
      }
    }
  }

  /** The lease changes hands, and the server answers with its state if it grants a new one. */
  lemma LeaseChangeShape(s: State, step: Step)
    requires Enabled(s, step) && (step.HandleOpen? || step.DeleteDatabase? || step.HandleClose?)
    ensures var t := Next(s, step);
            && t.clients == s.clients && t.w.sent == s.w.sent && t.w.srv.floors == s.w.srv.floors
            && (t.w.srv.epoch > s.w.srv.epoch || !t.w.srv.live || t.w.srv == s.w.srv)
            && (t.w.srv == s.w.srv ==> t.answers == s.answers)
            && forall reply <- t.answers :: reply in s.answers || GrantsTo(s.w.sent, t.w.srv, reply)
  {
  }

  ghost predicate GrantsTo(sent: seq<Request>, srv: Server, reply: Reply) {
    reply.rid < |sent| && sent[reply.rid].Open? && reply.answer == CurrentState(srv)
  }

  lemma AnswersKeepLease(w: World, srv: Server, answers: set<Reply>, more: set<Reply>, c: SessionId, cl: Client)
    requires ClientOk(w, c, cl) && LeaseOk(srv, answers, cl)
    requires forall reply <- more :: reply in answers || GrantsTo(w.sent, srv, reply)
    ensures LeaseOk(srv, more, cl)
  {
  }

  lemma AnswerStepKeepsLeases(s: State, step: Step)
    requires Inv(s) && LeasesOk(s) && Enabled(s, step) && (step.HandleResume? || step.HandleFetch? || step.Refuse?)
    ensures LeasesOk(Next(s, step))
  {
    var t := Next(s, step);
    if step.HandleResume? { ResumeShape(s, step.rid); } else { PlainAnswerShape(s, step); }
    forall c <- t.clients ensures LeaseOk(t.w.srv, t.answers, t.clients[c]) {
      assert ClientOk(s.w, c, s.clients[c]) && LeaseOk(s.w.srv, s.answers, s.clients[c]);
      AnsweredKeepsLease(s.w, t.w.srv, s.answers, t.answers, c, s.clients[c]);
    }
  }

  /** The server resumes the current lease of this request, and says where it is. */
  ghost predicate ResumesFor(w: World, reply: Reply) {
    && reply.rid < |w.sent| && w.sent[reply.rid].Resume? && Current(w.srv, w.sent[reply.rid].epoch)
    && reply.answer == CurrentState(w.srv)
  }

  /** The server answers a request and changes nothing but what it remembers of resumes. */
  ghost predicate OnlyAnswers(s: State, t: State) {
    && t.clients == s.clients && t.w.sent == s.w.sent && t.w.srv == s.w.srv.(floors := t.w.srv.floors)
    && forall reply <- t.answers :: reply in s.answers || (reply.answer.Opened? ==> ResumesFor(s.w, reply))
  }

  lemma ResumeShape(s: State, rid: RequestId)
    requires Enabled(s, HandleResume(rid))
    ensures OnlyAnswers(s, Next(s, HandleResume(rid)))
  {
  }

  lemma PlainAnswerShape(s: State, step: Step)
    requires Enabled(s, step) && (step.HandleFetch? || step.Refuse?)
    ensures OnlyAnswers(s, Next(s, step)) && Next(s, step).w == s.w
    ensures forall reply <- Next(s, step).answers :: reply in s.answers || !reply.answer.Opened?
  {
  }

  lemma AnsweredKeepsLease(w: World, srv: Server, answers: set<Reply>, more: set<Reply>, c: SessionId, cl: Client)
    requires ClientOk(w, c, cl) && LeaseOk(w.srv, answers, cl) && srv == w.srv.(floors := srv.floors)
    requires forall reply <- more :: reply in answers || (reply.answer.Opened? ==> ResumesFor(w, reply))
    ensures LeaseOk(srv, more, cl)
  {
  }

  lemma PartKeepsLeases(s: State, rid: RequestId, slot: nat)
    requires Inv(s) && LeasesOk(s) && rid < |s.w.sent| && s.w.sent[rid].Part?
    ensures LeasesOk(DoPart(s, rid, slot, s.w.sent[rid]))
  {
    var t := DoPart(s, rid, slot, s.w.sent[rid]);
    PartAssembles(s, rid, slot);
    PartOutcome(s, rid, slot);
    forall c <- t.clients ensures LeaseOk(t.w.srv, t.answers, t.clients[c]) {
      assert LeaseOk(s.w.srv, s.answers, s.clients[c]);
      if t.w.srv.log != s.w.srv.log { ApplyKeepsLease(s, s.w.sent[rid].id, t.w.srv, c); }
    }
  }

  /** What becomes of a commit whose last part arrived. */
  lemma DecideOutcome(s: State, rid: RequestId, a: Assembly)
    requires |s.w.srv.snaps| == |s.w.srv.log| + 1
    ensures var t := Decide(s, rid, a);
            && PartFrameRule(s, t)
            && if t.w.srv.log == s.w.srv.log then t.w.srv.lastId == s.w.srv.lastId
               else
                 && Current(s.w.srv, a.epoch) && a.base == |s.w.srv.log|
                 && |t.w.srv.log| == |s.w.srv.log| + 1 && t.w.srv.lastId == Some(a.id)
  {
    if Verdict(s.w.srv, a).Some? { assert Decide(s, rid, a).w == s.w; }
  }

  /** What else a step of the server changes when it handles part `f`. */
  ghost predicate PartFrameRule(s: State, t: State) {
    && t.clients == s.clients && t.w.sent == s.w.sent && t.w.calls == s.w.calls
    && t.w.srv.epoch == s.w.srv.epoch && t.w.srv.live == s.w.srv.live && t.w.srv.floors == s.w.srv.floors
    && (forall reply <- t.answers :: reply in s.answers || !reply.answer.Opened?)
    && s.answers <= t.answers
  }

  lemma PartShape(s: State, rid: RequestId, slot: nat, f: Request)
    requires f.Part? && |s.w.srv.snaps| == |s.w.srv.log| + 1
    ensures var t, a := DoPart(s, rid, slot, f), Assemble(s.w.srv, slot, f);
            && PartFrameRule(s, t)
            && if t.w.srv.log == s.w.srv.log then t.w.srv.lastId == s.w.srv.lastId
               else
                 && a.Some? && Current(s.w.srv, a.value.epoch) && a.value.base == |s.w.srv.log|
                 && |t.w.srv.log| == |s.w.srv.log| + 1 && t.w.srv.lastId == Some(a.value.id)
  {
    var a := Assemble(s.w.srv, slot, f);
    if a.Some? { DecideOutcome(WithoutSlot(s, slot), rid, a.value); }
  }

  /** A part leaves the log alone, or applies its own commit under the current lease on top of the current version. */
  lemma PartOutcome(s: State, rid: RequestId, slot: nat)
    requires Inv(s) && rid < |s.w.sent| && s.w.sent[rid].Part?
    ensures var t, f := DoPart(s, rid, slot, s.w.sent[rid]), s.w.sent[rid];
            && PartFrameRule(s, t)
            && if t.w.srv.log == s.w.srv.log then t.w.srv.lastId == s.w.srv.lastId
               else
                 && Current(s.w.srv, f.epoch) && f.base == |s.w.srv.log|
                 && |t.w.srv.log| == |s.w.srv.log| + 1 && t.w.srv.lastId == Some(f.id)
    ensures var f := s.w.sent[rid];
            && f.id in s.w.calls && f.client == s.w.calls[f.id].client && f.base == s.w.calls[f.id].base
            && f.epoch == s.w.calls[f.id].epoch
  {
    PartAssembles(s, rid, slot);
    PartShape(s, rid, slot, s.w.sent[rid]);
  }

  lemma StepKeepsLeases(s: State, step: Step)
    requires Inv(s) && LeasesOk(s) && Enabled(s, step)
    ensures LeasesOk(Next(s, step))
  {
    if IsSessionStep(step) { SessionStepKeepsLeases(s, step); }
    else if step.HandlePart? { PartKeepsLeases(s, step.rid, step.slot); }
    else if step.HandleResume? || step.HandleFetch? || step.Refuse? { AnswerStepKeepsLeases(s, step); }
    else { LeaseChangeKeepsLeases(s, step); }
  }

  lemma {:induction false} RunKeepsLeases(s: State, steps: seq<Step>)
    requires Inv(s) && LeasesOk(s) && IsRun(s, steps)
    ensures LeasesOk(After(s, steps))
    decreases |steps|
  {
    if steps != [] {
      StepKeepsInv(s, steps[0]);
      StepKeepsLeases(s, steps[0]);
      RunKeepsLeases(Next(s, steps[0]), steps[1..]);
    }
  }

  lemma ReachableLeases(s: State, c: SessionId)
    requires Reachable(s) && c in s.clients
    ensures LeaseOk(s.w.srv, s.answers, s.clients[c])
  {
    var pageSize: nat, steps :| IsRun(Init(pageSize), steps) && After(Init(pageSize), steps) == s;
    InitIsOk(pageSize);
    RunKeepsLeases(Init(pageSize), steps);
  }

  /** The server is never more than one version ahead of the session that holds the lease. */
  lemma AtMostOneAhead(s: State, c: SessionId)
    requires Reachable(s) && c in s.clients && s.clients[c].epoch > 0 && Current(s.w.srv, s.clients[c].epoch)
    ensures s.clients[c].version <= Version(s) <= s.clients[c].version + 1
  {
    ReachableLeases(s, c);
    SessionFacts(s, c);
  }
}
