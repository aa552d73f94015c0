/**
 * Healing, when frames of a dropped connection do not outlive the resume that replaces it.
 *
 * Then the server is, while the lease is current, at the session's version, or one above it exactly when its last
 * commit is the pending one. A heal therefore finds out the truth about the pending commit, ends at the server's
 * version, and can be repeated if it fails half way.
 */
module ProtocolHeal {
  import opened Common
  import opened Session
  import opened Protocol
  import opened ProtocolInvariants
  import opened ProtocolSteps
  import opened ProtocolTheorems
  import opened ProtocolLease

  /** The newest answered resume of session `c`; its older requests are dead. */
  function Floor(srv: Server, c: SessionId): nat { if c in srv.floors then srv.floors[c] else 0 }

  ghost predicate InStep(srv: Server, cl: Client) {
    cl.epoch > 0 && Current(srv, cl.epoch) ==>
      || |srv.log| == cl.version
      || (|srv.log| == cl.version + 1 && cl.pending.Some? && srv.lastId == cl.pending)
  }

  /** Every part that can still take effect belongs to the pending commit, or is outdated. */
  ghost predicate PartsAreMine(srv: Server, sent: seq<Request>, c: SessionId, cl: Client) {
    forall r :: Floor(srv, c) <= r < |sent| && sent[r].Part? && sent[r].client == c ==>
      cl.pending == Some(sent[r].id) || sent[r].base < cl.version
  }

  /** The answer the session waits for says where the server is now. */
  ghost predicate AnswersAreFresh(srv: Server, answers: set<Reply>, c: SessionId, cl: Client) {
    forall reply <- answers :: reply.answer.Opened? ==>
      && (AwaitsResume(cl, reply.rid) || AwaitsOpen(cl, reply.rid) ==>
            Current(srv, reply.answer.epoch) ==> reply.answer.version == |srv.log| && reply.answer.lastId == srv.lastId)
      && (AwaitsResume(cl, reply.rid) ==> reply.rid <= Floor(srv, c))
  }

  /** Nothing was sent after the resume the session waits for. */
  ghost predicate ResumeIsNewest(sent: seq<Request>, c: SessionId, cl: Client) {
    cl.phase.Resuming? && cl.phase.resumeId.Some? ==>
      forall r :: cl.phase.resumeId.value < r < |sent| && sent[r].Part? ==> sent[r].client != c
  }

  ghost predicate SessionInStep(w: World, answers: set<Reply>, c: SessionId, cl: Client) {
    && InStep(w.srv, cl)
    && PartsAreMine(w.srv, w.sent, c, cl)
    && AnswersAreFresh(w.srv, answers, c, cl)
    && ResumeIsNewest(w.sent, c, cl)
  }

  ghost predicate AllInStep(s: State) {
    forall c <- s.clients :: SessionInStep(s.w, s.answers, c, s.clients[c])
  }

  ghost predicate IsInStep(s: State, c: SessionId) {
    c in s.clients && SessionInStep(s.w, s.answers, c, s.clients[c])
  }

  // ---------------------------------------------------------------------------------------------------------------
  // A session takes an answer
  // ---------------------------------------------------------------------------------------------------------------

  /** How taking an answer can change the version and the pending commit. */
  ghost predicate MovesTo(cl: Client, rid: RequestId, a: Answer, next: Client) {
    || (next.epoch == cl.epoch && next.version == cl.version && next.pending == cl.pending)
    || (cl.phase.Opening? && a.Opened? && next.epoch == a.epoch && next.version == a.version
        && next.pending == cl.pending)
    || (cl.phase.AwaitAck? && a.Ack? && cl.phase.ids != [] && rid == cl.phase.ids[|cl.phase.ids| - 1]
        && next.epoch == cl.epoch && next.version == a.ackVersion && next.pending.None?)
    || (cl.phase.Resuming? && a.Opened? && next.epoch == cl.epoch && next.version == a.version && next.pending.None?)
  }

  lemma ReactMoves(cl: Client, rid: RequestId, a: Answer, late: bool, renew: bool)
    requires Waits(cl, rid)
    ensures MovesTo(cl, rid, a, React(cl, rid, a, late, renew))
  {
    if cl.phase.AwaitAck? { AwaitMoves(cl, rid, a, late, renew); }
    else if cl.phase.Resuming? { ResumeMoves(cl, rid, a, late, renew); }
  }

  lemma AwaitMoves(cl: Client, rid: RequestId, a: Answer, late: bool, renew: bool)
    requires Waits(cl, rid) && cl.phase.AwaitAck?
    ensures MovesTo(cl, rid, a, React(cl, rid, a, late, renew))
  {
  }

  lemma ResumeMoves(cl: Client, rid: RequestId, a: Answer, late: bool, renew: bool)
    requires Waits(cl, rid) && cl.phase.Resuming?
    ensures MovesTo(cl, rid, a, React(cl, rid, a, late, renew))
  {
  }

  /** Parts are sent only once a session is open, and those of the pending commit are based on its version. */
  ghost predicate PartsOf(w: World, c: SessionId, cl: Client) {
    forall r :: 0 <= r < |w.sent| && w.sent[r].Part? && w.sent[r].client == c ==>
      cl.epoch > 0 && (cl.pending == Some(w.sent[r].id) ==> w.sent[r].base == cl.version)
  }

  lemma PartsAreOfCalls(s: State, c: SessionId)
    requires Inv(s) && c in s.clients
    ensures PartsOf(s.w, c, s.clients[c])
  {
    var cl := s.clients[c];
    forall r | 0 <= r < |s.w.sent| && s.w.sent[r].Part? && s.w.sent[r].client == c
      ensures cl.epoch > 0 && (cl.pending == Some(s.w.sent[r].id) ==> s.w.sent[r].base == cl.version)
    {
      assert RequestOk(s.w, s.w.sent[r]) && CallOk(s.w.calls, s.clients, s.w.sent[r].id) && ClientOk(s.w, c, cl);
    }
  }

  lemma ReceiveKeepsInStep(s: State, step: Step)
    requires Inv(s) && Enabled(s, step) && step.Receive?
    requires SessionInStep(s.w, s.answers, step.c, s.clients[step.c])
    ensures IsInStep(Next(s, step), step.c)
  {
    var c, cl, a, next := step.c, s.clients[step.c], step.answer, Next(s, step).clients[step.c];
    assert ClientOk(s.w, c, cl) && AnswerOk(s.w, step.rid, a);
    ReactEndsWait(cl, step.rid, a, step.late, step.renew);
    ReactMoves(cl, step.rid, a, step.late, step.renew);
    PartsAreOfCalls(s, c);
    MovesKeepInStep(s.w, s.answers, c, cl, step.rid, a, next);
  }

  lemma MovesKeepInStep(w: World, answers: set<Reply>, c: SessionId, cl: Client, rid: RequestId, a: Answer,
                        next: Client)
    requires ClientOk(w, c, cl) && AnswerOk(w, rid, a) && SessionInStep(w, answers, c, cl)
    requires Waits(cl, rid) && Reply(rid, a) in answers
    requires (next.phase.Resuming? ==> next.phase.resumeId.None?) && !next.phase.Opening?
    requires MovesTo(cl, rid, a, next) && PartsOf(w, c, cl)
    ensures SessionInStep(w, answers, c, next)
  {
    if cl.phase.AwaitAck? && a.Ack? {
      AckedPart(w, c, cl, rid, a);
    }
  }

  /** An acknowledgement of the last part is one of the pending commit. */
  lemma AckedPart(w: World, c: SessionId, cl: Client, rid: RequestId, a: Answer)
    requires ClientOk(w, c, cl) && AnswerOk(w, rid, a) && cl.phase.AwaitAck? && rid in cl.phase.ids && a.Ack?
    ensures cl.pending == Some(a.id) && a.ackVersion == cl.version + 1 <= |w.srv.log|
  {
    var k :| 0 <= k < |cl.phase.ids| && cl.phase.ids[k] == rid;
    assert w.sent[rid] == PartFrame(cl.phase.id, w.calls[cl.phase.id], k);
  }

  // ---------------------------------------------------------------------------------------------------------------
  // Other steps
  // ---------------------------------------------------------------------------------------------------------------

  /** A step in which the session neither moves on nor waits for an answer given before. */
  ghost predicate Quiet(w: World, x: World, c: SessionId, cl: Client, next: Client) {
    && x.srv == w.srv
    && next.epoch == cl.epoch && next.version == cl.version && (next.pending == cl.pending || cl.pending.None?)
    && (next.phase == cl.phase || !next.phase.Opening?)
    && (next.phase == cl.phase || !next.phase.Resuming? || next.phase.resumeId.None?
        || next.phase.resumeId == Some(|w.sent|))
    && (|| x.sent == w.sent
        || (|x.sent| == |w.sent| + 1 && w.sent <= x.sent
            && (x.sent[|w.sent|].Part? ==>
                  && x.sent[|w.sent|].client == c && next.pending == Some(x.sent[|w.sent|].id)
                  && !next.phase.Resuming?)))
  }

  lemma QuietKeepsInStep(w: World, x: World, answers: set<Reply>, c: SessionId, cl: Client, next: Client)
    requires SessionInStep(w, answers, c, cl) && Quiet(w, x, c, cl, next)
    requires forall reply <- answers :: reply.rid < |w.sent|
    ensures SessionInStep(x, answers, c, next)
  {
  }

  lemma SessionStepIsQuiet(s: State, step: Step)
    requires Enabled(s, step) && IsSessionStep(step) && !step.Receive? && !step.StartOpen?
    requires ClientOk(s.w, step.c, s.clients[step.c])
    ensures Quiet(s.w, Next(s, step).w, step.c, s.clients[step.c], Next(s, step).clients[step.c])
  {
    if step.SendPart? || step.BeginCommit? { CommitStepIsQuiet(s, step); }
    else if step.LoseConnection? { LossIsQuiet(s, step); }
    else if IsMemoryStep(step) { MemoryStepIsQuiet(s, step); }
    else { PlainStepIsQuiet(s, step); }
  }

  lemma CommitStepIsQuiet(s: State, step: Step)
    requires Enabled(s, step) && (step.SendPart? || step.BeginCommit?) && ClientOk(s.w, step.c, s.clients[step.c])
    ensures Quiet(s.w, Next(s, step).w, step.c, s.clients[step.c], Next(s, step).clients[step.c])
  {
  }

  lemma LossIsQuiet(s: State, step: Step)
    requires Enabled(s, step) && step.LoseConnection?
    ensures Quiet(s.w, Next(s, step).w, step.c, s.clients[step.c], Next(s, step).clients[step.c])
  {
    LossWaitsForNothing(s.clients[step.c], step.late);
  }

  lemma MemoryStepIsQuiet(s: State, step: Step)
    requires Enabled(s, step) && IsMemoryStep(step)
    ensures Quiet(s.w, Next(s, step).w, step.c, s.clients[step.c], Next(s, step).clients[step.c])
  {
  }

  lemma PlainStepIsQuiet(s: State, step: Step)
    requires Enabled(s, step) && IsPlainStep(step) && !step.StartOpen?
    ensures Quiet(s.w, Next(s, step).w, step.c, s.clients[step.c], Next(s, step).clients[step.c])
  {
  }

  lemma AnswersAreOld(w: World, answers: set<Reply>)
    requires AnswersOk(w, answers)
    ensures forall reply <- answers :: reply.rid < |w.sent|
  {
    forall reply <- answers ensures reply.rid < |w.sent| { assert AnswerOk(w, reply.rid, reply.answer); }
  }

  lemma NewSessionInStep(s: State, step: Step)
    requires Inv(s) && Enabled(s, step) && step.StartOpen?
    ensures IsInStep(Next(s, step), step.c)
  {
    AnswersAreOld(s.w, s.answers);
    forall r | 0 <= r < |s.w.sent| && s.w.sent[r].Part? ensures s.w.sent[r].client != step.c {
      assert RequestOk(s.w, s.w.sent[r]) && CallOk(s.w.calls, s.clients, s.w.sent[r].id);
    }
  }

  lemma OwnStepKeepsInStep(s: State, step: Step)
    requires Inv(s) && AllInStep(s) && Enabled(s, step) && IsSessionStep(step)
    ensures IsInStep(Next(s, step), step.c)
  {
    if step.StartOpen? { NewSessionInStep(s, step); }
    else if step.Receive? { ReceiveKeepsInStep(s, step); }
    else { QuietStepKeepsInStep(s, step); }
  }

  lemma QuietStepKeepsInStep(s: State, step: Step)
    requires Inv(s) && Enabled(s, step) && IsSessionStep(step) && !step.Receive? && !step.StartOpen?
    requires SessionInStep(s.w, s.answers, step.c, s.clients[step.c])
    ensures IsInStep(Next(s, step), step.c)
  {
    AnswersAreOld(s.w, s.answers);
    assert ClientOk(s.w, step.c, s.clients[step.c]);
    SessionStepIsQuiet(s, step);
    SendsOwnParts(s, step);
    QuietKeepsInStep(s.w, Next(s, step).w, s.answers, step.c, s.clients[step.c], Next(s, step).clients[step.c]);
  }

  lemma OtherKeepsInStep(w: World, x: World, answers: set<Reply>, c: SessionId, cl: Client)
    requires SessionInStep(w, answers, c, cl) && x.srv == w.srv
    requires x.sent == w.sent || (|x.sent| == |w.sent| + 1 && w.sent <= x.sent && x.sent[|w.sent|].client != c)
    ensures SessionInStep(x, answers, c, cl)
  {
  }

  lemma SessionStepKeepsInStep(s: State, step: Step)
    requires Inv(s) && AllInStep(s) && Enabled(s, step) && IsSessionStep(step)
    ensures AllInStep(Next(s, step))
  {
    var t := Next(s, step);
    OwnStepKeepsInStep(s, step);
    SendsOwnParts(s, step);
    forall c <- t.clients ensures SessionInStep(t.w, t.answers, c, t.clients[c]) {
      if c != step.c { OtherKeepsInStep(s.w, t.w, s.answers, c, s.clients[c]); }
    }
  }

  // ---------------------------------------------------------------------------------------------------------------
  // Server steps
  // ---------------------------------------------------------------------------------------------------------------

  /** Part `f`, sent as request `rid`, is in time and its commit can be applied now. */
  ghost predicate CanApply(w: World, clients: map<SessionId, Client>, rid: RequestId) {
    && rid < |w.sent| && w.sent[rid].Part?
    && var f := w.sent[rid];
    && Floor(w.srv, f.client) <= rid
    && f.id in w.calls && CallOk(w.calls, clients, f.id)
    && f.client == w.calls[f.id].client && f.base == w.calls[f.id].base && f.epoch == w.calls[f.id].epoch
    && Current(w.srv, f.epoch) && f.base == |w.srv.log|
  }

  /** The commit that is applied is the pending one of the only session that can hold the lease. */
  lemma AppliedIsPending(w: World, clients: map<SessionId, Client>, rid: RequestId, c: SessionId)
    requires ClientsOk(w, clients) && CanApply(w, clients, rid) && c in clients
    requires InStep(w.srv, clients[c]) && PartsAreMine(w.srv, w.sent, c, clients[c])
    ensures clients[c].epoch > 0 && Current(w.srv, clients[c].epoch) ==>
              clients[c].pending == Some(w.sent[rid].id) && clients[c].version == |w.srv.log|
  {
    if clients[c].epoch > 0 && Current(w.srv, clients[c].epoch) {
      assert ClientOk(w, c, clients[c]);
      LeaseHasOneHolder(w, clients, w.sent[rid].id, c);
    }
  }

  /** Nobody is waiting for an answer that speaks of the lease under which a commit is applied. */
  lemma NobodyWaits(w: World, clients: map<SessionId, Client>, rid: RequestId, c: SessionId, reply: Reply)
    requires ClientsOk(w, clients) && CanApply(w, clients, rid) && c in clients
    requires AnswerOk(w, reply.rid, reply.answer) && reply.answer.Opened?
    requires AwaitsResume(clients[c], reply.rid) || AwaitsOpen(clients[c], reply.rid)
    requires AwaitsResume(clients[c], reply.rid) ==> reply.rid <= Floor(w.srv, c)
    requires ResumeIsNewest(w.sent, c, clients[c])
    ensures !Current(w.srv, reply.answer.epoch)
  {
    assert ClientOk(w, c, clients[c]);
    if Current(w.srv, reply.answer.epoch) { LeaseHasOneHolder(w, clients, w.sent[rid].id, c); }
  }

  lemma ApplyKeepsInStep(s: State, t: State, rid: RequestId, c: SessionId)
    requires ClientsOk(s.w, s.clients) && AnswersOk(s.w, s.answers) && CanApply(s.w, s.clients, rid)
    requires c in s.clients && SessionInStep(s.w, s.answers, c, s.clients[c]) && PartFrameRule(s, t)
    requires |t.w.srv.log| == |s.w.srv.log| + 1 && t.w.srv.lastId == Some(s.w.sent[rid].id)
    ensures SessionInStep(t.w, t.answers, c, s.clients[c])
  {
    var cl := s.clients[c];
    AppliedIsPending(s.w, s.clients, rid, c);
    forall reply <- t.answers | reply.answer.Opened? && (AwaitsResume(cl, reply.rid) || AwaitsOpen(cl, reply.rid))
      ensures !Current(t.w.srv, reply.answer.epoch)
    {
      assert AnswerOk(s.w, reply.rid, reply.answer);
      NobodyWaits(s.w, s.clients, rid, c, reply);
    }
  }

  /** A part that changes nothing in the log changes nothing here. */
  lemma UnappliedKeepsInStep(s: State, t: State, c: SessionId)
    requires c in s.clients && SessionInStep(s.w, s.answers, c, s.clients[c]) && PartFrameRule(s, t)
    requires t.w.srv.log == s.w.srv.log && t.w.srv.lastId == s.w.srv.lastId
    ensures SessionInStep(t.w, t.answers, c, s.clients[c])
  {
  }

  lemma PartKeepsInStep(s: State, rid: RequestId, slot: nat)
    requires Inv(s) && AllInStep(s) && rid < |s.w.sent| && s.w.sent[rid].Part?
    requires Floor(s.w.srv, s.w.sent[rid].client) <= rid
    ensures AllInStep(DoPart(s, rid, slot, s.w.sent[rid]))
  {
    var t := DoPart(s, rid, slot, s.w.sent[rid]);
    PartOutcome(s, rid, slot);
    if t.w.srv.log != s.w.srv.log { assert CanApply(s.w, s.clients, rid); }
    forall c <- t.clients ensures SessionInStep(t.w, t.answers, c, t.clients[c]) {
      assert SessionInStep(s.w, s.answers, c, s.clients[c]);
      if t.w.srv.log == s.w.srv.log { UnappliedKeepsInStep(s, t, c); } else { ApplyKeepsInStep(s, t, rid, c); }
    }
  }

  /** After the lease changed hands, nothing binds its old holder, and the answer with the new one is fresh. */
  lemma LeaseChangeKeepsInStep(s: State, step: Step)
    requires Inv(s) && AllInStep(s) && Enabled(s, step)
    requires step.HandleOpen? || step.DeleteDatabase? || step.HandleClose?
    ensures AllInStep(Next(s, step))
  {
    var t := Next(s, step);
    LeaseChangeShape(s, step);
    forall c <- t.clients ensures SessionInStep(t.w, t.answers, c, t.clients[c]) {
      assert ClientOk(s.w, c, s.clients[c]) && SessionInStep(s.w, s.answers, c, s.clients[c]);
      if t.w.srv != s.w.srv { LostLeaseKeepsInStep(s.w, t.w, s.answers, t.answers, c, s.clients[c]); }
    }
  }

  lemma LostLeaseKeepsInStep(w: World, x: World, answers: set<Reply>, more: set<Reply>, c: SessionId, cl: Client)
    requires ClientOk(w, c, cl) && AnswersOk(w, answers) && SessionInStep(w, answers, c, cl)
    requires x.sent == w.sent && x.srv.floors == w.srv.floors && (x.srv.epoch > w.srv.epoch || !x.srv.live)
    requires forall reply <- more :: reply in answers || GrantsTo(w.sent, x.srv, reply)
    ensures SessionInStep(x, more, c, cl)
  {
    forall reply <- more | reply.answer.Opened? && (AwaitsResume(cl, reply.rid) || AwaitsOpen(cl, reply.rid))
      ensures Current(x.srv, reply.answer.epoch) ==>
                reply.answer.version == |x.srv.log| && reply.answer.lastId == x.srv.lastId
      ensures AwaitsResume(cl, reply.rid) ==> reply.rid <= Floor(x.srv, c)
    {
      if reply in answers { assert AnswerOk(w, reply.rid, reply.answer); }
    }
  }

  lemma AnswerStepKeepsInStep(s: State, step: Step)
    requires Inv(s) && AllInStep(s) && Enabled(s, step) && (step.HandleFetch? || step.Refuse?)
    ensures AllInStep(Next(s, step))
  {
    var t := Next(s, step);
    PlainAnswerShape(s, step);
    forall c <- t.clients ensures SessionInStep(t.w, t.answers, c, t.clients[c]) {
      assert SessionInStep(s.w, s.answers, c, s.clients[c]);
    }
  }

  lemma ResumeKeepsInStep(s: State, rid: RequestId)
    requires Inv(s) && AllInStep(s) && rid < |s.w.sent| && s.w.sent[rid].Resume?
    ensures AllInStep(DoResume(s, rid, s.w.sent[rid].client, s.w.sent[rid].epoch))
  {
    var t := DoResume(s, rid, s.w.sent[rid].client, s.w.sent[rid].epoch);
    forall c <- t.clients ensures SessionInStep(t.w, t.answers, c, t.clients[c]) {
      assert ClientOk(s.w, c, s.clients[c]) && SessionInStep(s.w, s.answers, c, s.clients[c]);
      AnsweredResumeKeepsInStep(s, t, rid, c);
    }
  }

  lemma AnsweredResumeKeepsInStep(s: State, t: State, rid: RequestId, c: SessionId)
    requires rid < |s.w.sent| && s.w.sent[rid].Resume? && c in s.clients
    requires t == DoResume(s, rid, s.w.sent[rid].client, s.w.sent[rid].epoch)
    requires ClientOk(s.w, c, s.clients[c]) && SessionInStep(s.w, s.answers, c, s.clients[c])
    requires |s.w.srv.snaps| == |s.w.srv.log| + 1
    ensures SessionInStep(t.w, t.answers, c, s.clients[c])
  {
  }

  // ---------------------------------------------------------------------------------------------------------------
  // Timely runs
  // ---------------------------------------------------------------------------------------------------------------

  lemma TimelyStepKeepsInStep(s: State, step: Step)
    requires Inv(s) && AllInStep(s) && Enabled(s, step) && Timely(s, step)
    ensures AllInStep(Next(s, step))
  {
    if IsSessionStep(step) { SessionStepKeepsInStep(s, step); }
    else if step.HandlePart? { PartKeepsInStep(s, step.rid, step.slot); }
    else if step.HandleResume? { ResumeKeepsInStep(s, step.rid); }
    else if step.HandleFetch? || step.Refuse? { AnswerStepKeepsInStep(s, step); }
    else { LeaseChangeKeepsInStep(s, step); }
  }

  lemma {:induction false} TimelyRunKeepsInStep(s: State, steps: seq<Step>)
    requires Inv(s) && AllInStep(s) && IsTimelyRun(s, steps)
    ensures IsRun(s, steps) && AllInStep(After(s, steps))
    decreases |steps|
  {
    if steps != [] {
      StepKeepsInv(s, steps[0]);
      TimelyStepKeepsInStep(s, steps[0]);
      TimelyRunKeepsInStep(Next(s, steps[0]), steps[1..]);
    }
  }

  ghost predicate TimelyReachable(s: State) {
    exists pageSize: nat, steps: seq<Step> ::
      IsTimelyRun(Init(pageSize), steps) && IsRun(Init(pageSize), steps) && After(Init(pageSize), steps) == s
  }

  lemma TimelyFacts(s: State, c: SessionId)
    requires TimelyReachable(s) && c in s.clients
    ensures Reachable(s) && ClientOk(s.w, c, s.clients[c]) && SessionInStep(s.w, s.answers, c, s.clients[c])
  {
    var pageSize: nat, steps :|
      IsTimelyRun(Init(pageSize), steps) && IsRun(Init(pageSize), steps) && After(Init(pageSize), steps) == s;
    InitIsOk(pageSize);
    TimelyRunKeepsInStep(Init(pageSize), steps);
    SessionFacts(s, c);
  }

  /**
   * While its lease is current, the server is at the session's version, or one above it. It is one above exactly when
   * the pending commit was applied, and then the server names it as its last commit.
   */
  lemma ServerIsInStep(s: State, c: SessionId)
    requires TimelyReachable(s) && c in s.clients && s.clients[c].epoch > 0 && Current(s.w.srv, s.clients[c].epoch)
    ensures var cl := s.clients[c];
            && cl.version <= Version(s) <= cl.version + 1
            && (Version(s) == cl.version + 1 <==> cl.pending.Some? && IsApplied(s.w, cl.pending.value))
            && (Version(s) == cl.version + 1 ==> s.w.srv.lastId == cl.pending)
  {
    TimelyFacts(s, c);
    if Version(s) > 0 {
      VersionFacts(s, Version(s) - 1);
      ReachableIsOk(s);
    }
  }

  /** While the lease is current, a heal never ends in `Diverged`, and it ends at the server's version. */
  lemma HealIsExact(s: State, step: Step, c: SessionId)
    requires TimelyReachable(s) && Enabled(s, step) && step.Receive? && step.c == c && step.answer.Opened?
    requires s.clients[c].phase == Resuming(Healing, Some(step.rid)) && Current(s.w.srv, s.clients[c].epoch)
    ensures var cl, next := s.clients[c], Next(s, step).clients[c];
            && next.broken != Some(Diverged)
            && next.version == Version(s) && next.pending.None?
            && (next.version == cl.version + 1 <==> cl.pending.Some? && IsApplied(s.w, cl.pending.value))
  {
    TimelyFacts(s, c);
    ServerIsInStep(s, c);
    AnswerFacts(s, step.rid, step.answer);
  }

  /** The session heals, and after the step it is broken as before: it could not load its blocks or check its copy. */
  ghost predicate FillFails(s: State, step: Step) {
    && Enabled(s, step) && IsSessionStep(step) && step.c in s.clients
    && var cl, next := s.clients[step.c], Next(s, step).clients[step.c];
    && ((cl.phase.Loading? && cl.phase.purpose.ForHeal?) ||
        (step.Receive? && step.answer.Opened? && cl.phase == Resuming(Healing, Some(step.rid))))
    && next.phase.Idle? && next.broken == Some(Uncertain)
  }

  /** Whatever else the answer to the next resume says, the heal does not diverge from version `version`. */
  ghost predicate CanRetry(cl: Client, version: nat) {
    forall count, lastId, late, renew ::
      var retried := OnResumed(cl, Healing, version, count, lastId, late, renew);
      retried.broken != Some(Diverged) && retried.version == version
  }

  lemma SameVersionCanRetry(cl: Client)
    requires cl.broken == Some(Uncertain)
    ensures CanRetry(cl, cl.version)
  {
  }

  /**
   * A heal that fails while it loads the blocks or checks the local copy, after the version moved, can be repeated: the
   * session then asks for the version the server has, so the next resume does not diverge.
   */
  lemma FailedFillCanBeRetried(s: State, step: Step)
    requires TimelyReachable(s) && FillFails(s, step) && Current(s.w.srv, s.clients[step.c].epoch)
    ensures CanRetry(Next(s, step).clients[step.c], Version(s))
  {
    TimelyFacts(s, step.c);
    if s.clients[step.c].phase.Resuming? { HealIsExact(s, step, step.c); }
    else { LoadingKeepsVersion(s, step); }
    SameVersionCanRetry(Next(s, step).clients[step.c]);
  }

  lemma LoadingKeepsVersion(s: State, step: Step)
    requires Enabled(s, step) && IsSessionStep(step) && step.c in s.clients
    requires s.clients[step.c].phase.Loading? && Next(s, step).clients[step.c].phase.Idle?
    ensures Next(s, step).clients[step.c].version == s.clients[step.c].version
  {
  }
}
