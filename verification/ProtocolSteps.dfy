/** Every step of the protocol keeps the invariant of module ProtocolInvariants. */
module ProtocolSteps {
  import opened Common
  import opened Snapshots
  import opened Session
  import opened Protocol
  import opened ProtocolInvariants

  // ---------------------------------------------------------------------------------------------------------------
  // Memory
  // ---------------------------------------------------------------------------------------------------------------

  /** Blocks written or dropped keep memory coherent. */
  lemma MemoryStaysCoherent(m: Mem, snap: Snapshot, pageSize: nat, index: nat, data: Block, count: nat)
    requires Coherent(m, snap, pageSize)
    ensures Coherent(WriteBlock(m, index, data), snap, pageSize)
    ensures Coherent(TruncateTo(m, count), snap, pageSize)
    ensures index !in m.dirty ==> Coherent(Evict(m, index), snap, pageSize)
  {
  }

  lemma LoadedStaysCoherent(m: Mem, snap: Snapshot, pageSize: nat, first: nat, blocks: seq<Block>)
    requires Coherent(m, snap, pageSize) && first + |blocks| <= m.count
    requires blocks == Slice(snap, first, |blocks|, pageSize)
    ensures Coherent(Keep(m, first, blocks), snap, pageSize)
  {
    var kept := Keep(m, first, blocks);
    forall i <- kept.held | i !in kept.dirty ensures kept.held[i] == At(snap, i, pageSize) {
      if i !in m.held { assert kept.held[i] == blocks[i - first] == At(snap, first + (i - first), pageSize); }
    }
  }

  /** After a commit was applied, memory belongs to the version it made. */
  lemma CommittedIsCoherent(m: Mem, snap: Snapshot, pageSize: nat)
    requires Coherent(m, snap, pageSize)
    ensures Coherent(m.(dirty := {}, resized := false), Apply(snap, m.count, DirtyBlocks(m), pageSize), pageSize)
  {
  }

  // ---------------------------------------------------------------------------------------------------------------
  // A session takes an answer
  // ---------------------------------------------------------------------------------------------------------------

  /** The session keeps its lease, and its version never goes back. */
  predicate Advances(cl: Client, next: Client) {
    cl.epoch > 0 ==> cl.version <= next.version && next.epoch == cl.epoch
  }

  lemma SuccessKeepsClient(w: World, c: SessionId, cl: Client, id: CommitId, version: nat)
    requires |w.srv.snaps| == |w.srv.log| + 1 && ClientOk(w, c, cl)
    requires Committing(w, c, cl, id) && Serving(cl)
    requires IsApplied(w, id) && EventOk(w, cl.version) && version == w.calls[id].base + 1
    ensures ClientOk(w, c, Succeed(cl, id, version)) && Advances(cl, Succeed(cl, id, version))
  {
    CommittedIsCoherent(cl.mem, w.srv.snaps[cl.version], w.srv.pageSize);
  }

  lemma FillKeepsClient(w: World, c: SessionId, cl: Client, purpose: Purpose, count: nat, failed: bool)
    requires ClientOk(w, c, cl.(phase := Gone)) && cl.epoch > 0 && cl.pending.None?
    requires LoadsAll(w, cl, count)
    requires (purpose.ForOpen? && cl.broken.None?) || (purpose.ForHeal? && cl.broken == Some(Uncertain))
    ensures ClientOk(w, c, Fill(cl, purpose, count, failed))
  {
  }

  lemma BreakKeepsClient(w: World, c: SessionId, cl: Client, b: Broken)
    requires ClientOk(w, c, cl) && cl.epoch > 0
    requires b.Fenced? ==> NotCurrent(w.srv, cl.epoch)
    ensures ClientOk(w, c, Break(cl, b)) && Advances(cl, Break(cl, b))
  {
  }

  /** A commit in progress may turn to sending from the start, or to resuming the lease. */
  lemma RetryKeepsClient(w: World, c: SessionId, cl: Client, id: CommitId)
    requires ClientOk(w, c, cl) && cl.epoch > 0 && Committing(w, c, cl, id) && Serving(cl)
    requires w.calls[id].parts != []
    ensures ClientOk(w, c, cl.(phase := Sending(id, [])))
    ensures ClientOk(w, c, cl.(phase := Resuming(AfterBreak(id), None)))
    ensures ClientOk(w, c, cl.(phase := Resuming(TopOfLoop(id), None)))
  {
  }

  lemma RefusalKeepsClient(w: World, c: SessionId, cl: Client, id: CommitId, code: Code, late: bool, renew: bool)
    requires ClientOk(w, c, cl) && cl.epoch > 0 && Committing(w, c, cl, id) && Serving(cl)
    requires w.calls[id].parts != [] && (IsFenced(code) ==> NotCurrent(w.srv, cl.epoch))
    ensures ClientOk(w, c, OnRefusal(cl, id, code, late, renew))
    ensures Advances(cl, OnRefusal(cl, id, code, late, renew))
  {
    RetryKeepsClient(w, c, cl, id);
    if IsFenced(code) { BreakKeepsClient(w, c, cl, Fenced); }
    BreakKeepsClient(w, c, cl, Uncertain);
    BreakKeepsClient(w, c, cl, Refused);
  }

  lemma ResumeLostKeepsClient(w: World, c: SessionId, cl: Client, late: bool)
    requires ClientOk(w, c, cl) && cl.phase.Resuming?
    ensures ClientOk(w, c, OnResumeLost(cl, cl.phase.why, late))
    ensures Advances(cl, OnResumeLost(cl, cl.phase.why, late))
  {
    BreakKeepsClient(w, c, cl, Uncertain);
  }

  lemma ResumeErrorKeepsClient(w: World, c: SessionId, cl: Client, code: Code, late: bool)
    requires ClientOk(w, c, cl) && cl.phase.Resuming?
    requires IsFenced(code) ==> NotCurrent(w.srv, cl.epoch)
    ensures ClientOk(w, c, OnResumeError(cl, cl.phase.why, code, late))
    ensures Advances(cl, OnResumeError(cl, cl.phase.why, code, late))
  {
    match cl.phase.why
    case Healing => BreakKeepsClient(w, c, cl, BreakOn(code));
    case Reading(_, _) => BreakKeepsClient(w, c, cl, if IsAccessDenied(code) then Denied else Uncertain);
    case _ =>
      if IsFenced(code) { BreakKeepsClient(w, c, cl, Fenced); }
      else if IsAccessDenied(code) { BreakKeepsClient(w, c, cl, Denied); }
      else { ResumeLostKeepsClient(w, c, cl, late); }
  }

  lemma LoadLostKeepsClient(w: World, c: SessionId, cl: Client)
    requires ClientOk(w, c, cl) && cl.phase.Loading?
    ensures ClientOk(w, c, OnLoadLost(cl, cl.phase.purpose))
    ensures Advances(cl, OnLoadLost(cl, cl.phase.purpose))
  {
    if cl.phase.purpose.ForHeal? { BreakKeepsClient(w, c, cl, Uncertain); }
  }

  lemma LoadErrorKeepsClient(w: World, c: SessionId, cl: Client, code: Code)
    requires ClientOk(w, c, cl) && cl.phase.Loading?
    requires IsFenced(code) ==> NotCurrent(w.srv, cl.epoch)
    ensures ClientOk(w, c, OnLoadError(cl, cl.phase.purpose, code))
    ensures Advances(cl, OnLoadError(cl, cl.phase.purpose, code))
  {
    match cl.phase.purpose
    case ForHeal => BreakKeepsClient(w, c, cl, BreakOn(code));
    case ForRead => if IsFenced(code) { BreakKeepsClient(w, c, cl, Fenced); } else { LoadLostKeepsClient(w, c, cl); }
    case ForOpen => LoadLostKeepsClient(w, c, cl);
  }

  lemma HealedKeepsClient(w: World, c: SessionId, cl: Client, a: Answer, late: bool)
    requires ClientOk(w, c, cl) && cl.phase.Resuming? && cl.phase.why.Healing? && a.Opened?
    requires a.version <= |w.srv.log| < |w.srv.snaps| && a.count == |w.srv.snaps[a.version]|
    ensures ClientOk(w, c, OnResumed(cl, Healing, a.version, a.count, a.lastId, late, false))
  {
    if a.version != cl.version && !PendingApplied(cl, a.version, a.lastId) {
      BreakKeepsClient(w, c, cl, Diverged);
    } else {
      FillKeepsClient(w, c, cl.(version := a.version, pending := None), ForHeal, a.count, late);
    }
  }

  lemma ResumedKeepsClient(w: World, c: SessionId, cl: Client, a: Answer, late: bool, renew: bool)
    requires HistoryOk(w) && ClientOk(w, c, cl) && cl.phase.Resuming? && a.Opened?
    requires a.version <= |w.srv.log| && a.count == |w.srv.snaps[a.version]| && LastIdOk(w, a.lastId, a.version)
    requires forall id <- w.calls :: w.calls[id].parts != []
    ensures ClientOk(w, c, OnResumed(cl, cl.phase.why, a.version, a.count, a.lastId, late, renew))
    ensures Advances(cl, OnResumed(cl, cl.phase.why, a.version, a.count, a.lastId, late, renew))
  {
    match cl.phase.why
    case TopOfLoop(id) => if a.version != cl.version { BreakKeepsClient(w, c, cl, Diverged); }
                          else { RetryKeepsClient(w, c, cl, id); }
    case AfterBreak(id) => ReopenedKeepsClient(w, c, cl, id, a, late, renew);
    case Healing => HealedKeepsClient(w, c, cl, a, late);
    case Reading(first, count) => ReadsOnKeepsClient(w, c, cl, first, count);
  }

  lemma ReopenedKeepsClient(w: World, c: SessionId, cl: Client, id: CommitId, a: Answer, late: bool, renew: bool)
    requires HistoryOk(w) && ClientOk(w, c, cl) && cl.phase.Resuming? && cl.phase.why == AfterBreak(id) && a.Opened?
    requires a.version <= |w.srv.log| && LastIdOk(w, a.lastId, a.version)
    requires forall d <- w.calls :: w.calls[d].parts != []
    ensures ClientOk(w, c, OnResumed(cl, AfterBreak(id), a.version, a.count, a.lastId, late, renew))
    ensures Advances(cl, OnResumed(cl, AfterBreak(id), a.version, a.count, a.lastId, late, renew))
  {
    if a.version == cl.version + 1 && a.lastId == Some(id) {
      assert EventOk(w, cl.version);
      SuccessKeepsClient(w, c, cl, id, a.version);
    } else if a.version != cl.version {
      BreakKeepsClient(w, c, cl, Diverged);
    } else {
      RetryKeepsClient(w, c, cl, id);
    }
  }

  lemma ReadsOnKeepsClient(w: World, c: SessionId, cl: Client, first: nat, count: nat)
    requires ClientOk(w, c, cl) && cl.phase.Resuming? && cl.phase.why == Reading(first, count)
    ensures ClientOk(w, c, cl.(phase := Loading(ForRead, first, count, None)))
  {
  }

  lemma AwaitAckKeepsClient(w: World, c: SessionId, cl: Client, rid: RequestId, a: Answer, late: bool, renew: bool)
    requires HistoryOk(w) && ClientOk(w, c, cl) && cl.phase.AwaitAck? && rid in cl.phase.ids && AnswerOk(w, rid, a)
    ensures ClientOk(w, c, React(cl, rid, a, late, renew)) && Advances(cl, React(cl, rid, a, late, renew))
  {
    var id, ids := cl.phase.id, cl.phase.ids;
    var k :| 0 <= k < |ids| && ids[k] == rid;
    assert w.sent[rid] == PartFrame(id, w.calls[id], k);
    match a
    case Error(code) => PartRefusedKeepsClient(w, c, cl, rid, code, late, renew);
    case Ack(_, _) => PartAckedKeepsClient(w, c, cl, rid, a, k, late, renew);
    case _ => RetryKeepsClient(w, c, cl, id);
  }

  lemma PartAckedKeepsClient(w: World, c: SessionId, cl: Client, rid: RequestId, a: Answer, k: nat, late: bool,
                             renew: bool)
    requires HistoryOk(w) && ClientOk(w, c, cl) && cl.phase.AwaitAck? && a.Ack? && AnswerOk(w, rid, a)
    requires k < |cl.phase.ids| && cl.phase.ids[k] == rid && rid < |w.sent|
    requires w.sent[rid] == PartFrame(cl.phase.id, w.calls[cl.phase.id], k)
    ensures ClientOk(w, c, React(cl, rid, a, late, renew)) && Advances(cl, React(cl, rid, a, late, renew))
  {
    var id, ids, refusal := cl.phase.id, cl.phase.ids, cl.phase.refusal;
    if rid != ids[|ids| - 1] { RetryKeepsClient(w, c, cl, id); }
    else if refusal.Some? { RefusalKeepsClient(w, c, cl, id, refusal.value, late, renew); }
    else { AckedKeepsClient(w, c, cl, rid, a, k); }
  }

  /** A part that is refused as fenced speaks for the lease of the session. */
  lemma FencedPart(w: World, c: SessionId, cl: Client, rid: RequestId, code: Code)
    requires ClientOk(w, c, cl) && cl.phase.AwaitAck? && rid in cl.phase.ids && AnswerOk(w, rid, Error(code))
    ensures IsFenced(code) ==> NotCurrent(w.srv, cl.epoch)
  {
    var k :| 0 <= k < |cl.phase.ids| && cl.phase.ids[k] == rid;
    assert w.sent[rid] == PartFrame(cl.phase.id, w.calls[cl.phase.id], k);
  }

  lemma RememberedKeepsClient(w: World, c: SessionId, cl: Client, code: Code)
    requires ClientOk(w, c, cl) && cl.phase.AwaitAck? && (IsFenced(code) ==> NotCurrent(w.srv, cl.epoch))
    ensures ClientOk(w, c, cl.(phase := AwaitAck(cl.phase.id, cl.phase.ids, Some(code))))
  {
  }

  lemma PartRefusedKeepsClient(w: World, c: SessionId, cl: Client, rid: RequestId, code: Code, late: bool, renew: bool)
    requires ClientOk(w, c, cl) && cl.phase.AwaitAck? && rid in cl.phase.ids && AnswerOk(w, rid, Error(code))
    ensures ClientOk(w, c, React(cl, rid, Error(code), late, renew))
    ensures Advances(cl, React(cl, rid, Error(code), late, renew))
  {
    var first := if cl.phase.refusal.Some? then cl.phase.refusal.value else code;
    FencedPart(w, c, cl, rid, code);
    ReactRefused(cl, rid, code, late, renew);
    if rid == cl.phase.ids[|cl.phase.ids| - 1] { LastRefusalKeepsClient(w, c, cl, first, late, renew); }
    else { RememberedKeepsClient(w, c, cl, first); }
  }

  lemma LastRefusalKeepsClient(w: World, c: SessionId, cl: Client, code: Code, late: bool, renew: bool)
    requires ClientOk(w, c, cl) && cl.phase.AwaitAck? && cl.phase.ids != []
    requires IsFenced(code) ==> NotCurrent(w.srv, cl.epoch)
    ensures ClientOk(w, c, OnRefusal(cl, cl.phase.id, code, late, renew))
    ensures Advances(cl, OnRefusal(cl, cl.phase.id, code, late, renew))
  {
    RefusalKeepsClient(w, c, cl, cl.phase.id, code, late, renew);
  }

  /** The first refusal decides once the last part is answered; until then it is remembered. */
  lemma ReactRefused(cl: Client, rid: RequestId, code: Code, late: bool, renew: bool)
    requires cl.phase.AwaitAck? && rid in cl.phase.ids
    ensures var id, ids := cl.phase.id, cl.phase.ids;
            var first := if cl.phase.refusal.Some? then cl.phase.refusal.value else code;
            React(cl, rid, Error(code), late, renew) ==
            if rid == ids[|ids| - 1] then OnRefusal(cl, id, first, late, renew)
            else cl.(phase := AwaitAck(id, ids, Some(first)))
  {
  }

  lemma AckedKeepsClient(w: World, c: SessionId, cl: Client, rid: RequestId, a: Answer, k: nat)
    requires HistoryOk(w) && ClientOk(w, c, cl) && cl.phase.AwaitAck? && a.Ack? && AnswerOk(w, rid, a)
    requires k < |cl.phase.ids| && cl.phase.ids[k] == rid && rid < |w.sent|
    requires cl.phase.id in w.calls && k < |w.calls[cl.phase.id].parts|
    requires w.sent[rid] == PartFrame(cl.phase.id, w.calls[cl.phase.id], k)
    ensures var next := Succeed(cl, cl.phase.id, a.ackVersion);
            ClientOk(w, c, next) && Advances(cl, next)
  {
    assert EventOk(w, cl.version);
    SuccessKeepsClient(w, c, cl, cl.phase.id, a.ackVersion);
  }

  lemma LoadingKeepsClient(w: World, c: SessionId, cl: Client, rid: RequestId, a: Answer, late: bool, renew: bool)
    requires ClientOk(w, c, cl) && cl.phase.Loading? && cl.phase.loadId == Some(rid) && AnswerOk(w, rid, a)
    ensures ClientOk(w, c, React(cl, rid, a, late, renew)) && Advances(cl, React(cl, rid, a, late, renew))
  {
    if a.Error? {
      LoadErrorKeepsClient(w, c, cl, a.code);
    } else if !a.Pages? || |a.blocks| != cl.phase.count {
      LoadLostKeepsClient(w, c, cl);
    } else {
      var snap := w.srv.snaps[cl.version];
      if cl.phase.purpose.ForRead? {
        LoadedStaysCoherent(cl.mem, snap, w.srv.pageSize, cl.phase.first, a.blocks);
      } else {
        LoadedStaysCoherent(Emptied(|a.blocks|), snap, w.srv.pageSize, 0, a.blocks);
      }
    }
  }

  lemma OpeningKeepsClient(w: World, c: SessionId, cl: Client, rid: RequestId, a: Answer, late: bool, renew: bool)
    requires ClientOk(w, c, cl) && cl.phase == Opening(rid) && AnswerOk(w, rid, a)
    ensures ClientOk(w, c, React(cl, rid, a, late, renew)) && Advances(cl, React(cl, rid, a, late, renew))
  {
    if a.Opened? { FillKeepsClient(w, c, cl.(epoch := a.epoch, version := a.version), ForOpen, a.count, late); }
  }

  lemma ReactKeepsClient(w: World, c: SessionId, cl: Client, rid: RequestId, a: Answer, late: bool, renew: bool)
    requires HistoryOk(w) && ClientOk(w, c, cl) && Waits(cl, rid) && AnswerOk(w, rid, a)
    requires forall id <- w.calls :: w.calls[id].parts != []
    ensures ClientOk(w, c, React(cl, rid, a, late, renew)) && Advances(cl, React(cl, rid, a, late, renew))
  {
    match cl.phase {
      case Opening(_) => OpeningKeepsClient(w, c, cl, rid, a, late, renew);
      case AwaitAck(_, _, _) => AwaitAckKeepsClient(w, c, cl, rid, a, late, renew);
      case Resuming(_, _) =>
        if a.Opened? { ResumedKeepsClient(w, c, cl, a, late, renew); }
        else if a.Error? { ResumeErrorKeepsClient(w, c, cl, a.code, late); }
        else { ResumeLostKeepsClient(w, c, cl, late); }
      case Loading(_, _, _, _) => LoadingKeepsClient(w, c, cl, rid, a, late, renew);
    }
  }

  lemma LostKeepsClient(w: World, c: SessionId, cl: Client, late: bool)
    requires ClientOk(w, c, cl)
    requires forall id <- w.calls :: w.calls[id].parts != []
    ensures ClientOk(w, c, Lost(cl, late)) && Advances(cl, Lost(cl, late))
  {
    match cl.phase {
      case Sending(id, _) => RetryKeepsClient(w, c, cl, id);
      case AwaitAck(id, _, _) => RetryKeepsClient(w, c, cl, id);
      case Resuming(_, _) => ResumeLostKeepsClient(w, c, cl, late);
      case Loading(_, _, _, _) => LoadLostKeepsClient(w, c, cl);
      case _ =>
    }
  }

  // ---------------------------------------------------------------------------------------------------------------
  // Client steps
  // ---------------------------------------------------------------------------------------------------------------

  /** Session `c` becomes `cl` and may send one request; nothing else changes. */
  ghost predicate OnlySession(s: State, t: State, c: SessionId, cl: Client) {
    && t.clients == s.clients[c := cl] && t.answers == s.answers
    && t.w.srv == s.w.srv && t.w.calls == s.w.calls
    && (t.w.sent == s.w.sent || (|t.w.sent| == |s.w.sent| + 1 && s.w.sent <= t.w.sent))
  }

  /** Only session `c` moves, and it and what it sends are as they must be. */
  ghost predicate IsOwnStep(s: State, t: State, c: SessionId) {
    && c in t.clients && OnlySession(s, t, c, t.clients[c]) && ClientOk(t.w, c, t.clients[c])
    && (t.w.sent == s.w.sent || RequestOk(t.w, t.w.sent[|s.w.sent|]))
    && (c in s.clients ==> Advances(s.clients[c], t.clients[c]))
  }

  lemma CallsStayOk(calls: map<CommitId, Call>, clients: map<SessionId, Client>, c: SessionId, cl: Client)
    requires CallsOk(calls, clients)
    requires c in clients ==> Advances(clients[c], cl)
    ensures CallsOk(calls, clients[c := cl])
  {
    forall id <- calls ensures CallOk(calls, clients[c := cl], id) { CallStaysOk(calls, clients, c, cl, id); }
  }

  lemma CallStaysOk(calls: map<CommitId, Call>, clients: map<SessionId, Client>, c: SessionId, cl: Client,
                    id: CommitId)
    requires id in calls && CallOk(calls, clients, id) && (c in clients ==> Advances(clients[c], cl))
    ensures CallOk(calls, clients[c := cl], id)
  {
  }

  lemma HistoryStaysOk(w: World, x: World)
    requires HistoryOk(w) && x.srv == w.srv && x.calls == w.calls
    ensures HistoryOk(x)
  {
    forall v | 0 <= v < |x.srv.log| ensures EventOk(x, v) { assert EventOk(w, v); }
  }

  lemma SessionStepKeepsInv(s: State, t: State, c: SessionId)
    requires Inv(s) && IsOwnStep(s, t, c)
    ensures Inv(t)
  {
    assert Grows(s.w, t.w);
    RestGrows(s, t.w);
    HistoryStaysOk(s.w, t.w);
    CallsStayOk(s.w.calls, s.clients, c, t.clients[c]);
    assert GrantsOk(t.w);
    forall r <- t.w.sent ensures RequestOk(t.w, r) {
      var k :| 0 <= k < |t.w.sent| && t.w.sent[k] == r;
      if k < |s.w.sent| { assert s.w.sent[k] == r; }
    }
  }

  lemma PartsNonempty(s: State)
    requires Inv(s)
    ensures forall id <- s.w.calls :: s.w.calls[id].parts != []
  {
    forall id <- s.w.calls ensures s.w.calls[id].parts != [] { assert CallOk(s.w.calls, s.clients, id); }
  }

  lemma ReceiveKeepsInv(s: State, step: Step)
    requires Inv(s) && Enabled(s, step) && (step.Receive? || step.LoseConnection?)
    ensures Inv(Next(s, step))
  {
    var c := step.c;
    var cl := s.clients[c];
    PartsNonempty(s);
    assert ClientOk(s.w, c, cl);
    if step.Receive? {
      assert AnswerOk(s.w, step.rid, step.answer);
      ReactKeepsClient(s.w, c, cl, step.rid, step.answer, step.late, step.renew);
    } else {
      LostKeepsClient(s.w, c, cl, step.late);
    }
    SessionStepKeepsInv(s, Next(s, step), c);
  }

  predicate IsMemoryStep(step: Step) {
    step.Write? || step.Truncate? || step.EvictBlock? || step.FromCopy?
  }

  lemma MemoryStepKeepsClient(s: State, step: Step)
    requires Enabled(s, step) && IsMemoryStep(step) && ClientOk(s.w, step.c, s.clients[step.c])
    ensures ClientOk(s.w, step.c, Next(s, step).clients[step.c])
  {
    var cl := s.clients[step.c];
    var snap := s.w.srv.snaps[cl.version];
    match step {
      case Write(_, index, data) => MemoryStaysCoherent(cl.mem, snap, s.w.srv.pageSize, index, data, 0);
      case Truncate(_, count) => MemoryStaysCoherent(cl.mem, snap, s.w.srv.pageSize, 0, [], count);
      case EvictBlock(_, index) => MemoryStaysCoherent(cl.mem, snap, s.w.srv.pageSize, index, [], 0);
      case FromCopy(_, index) =>
        var block := At(snap, index, s.w.srv.pageSize);
        assert [block] == Slice(snap, index, 1, s.w.srv.pageSize);
        LoadedStaysCoherent(cl.mem, snap, s.w.srv.pageSize, index, [block]);
    }
  }

  lemma MemoryStepKeepsInv(s: State, step: Step)
    requires Inv(s) && Enabled(s, step) && IsMemoryStep(step)
    ensures Inv(Next(s, step))
  {
    MemoryStepKeepsClient(s, step);
    SessionStepKeepsInv(s, Next(s, step), step.c);
  }

  lemma SendPartIsOwn(s: State, c: SessionId)
    requires CanSendPart(s, c) && ClientOk(s.w, c, s.clients[c])
    ensures IsOwnStep(s, DoSendPart(s, c), c)
  {
    var w, x, cl := s.w, DoSendPart(s, c).w, s.clients[c];
    var id, ids := cl.phase.id, cl.phase.ids + [|w.sent|];
    ClientGrows(w, x, c, cl);
    forall k | 0 <= k < |ids| ensures ids[k] < |x.sent| && x.sent[ids[k]] == PartFrame(id, x.calls[id], k) {
      if k < |ids| - 1 { assert w.sent[cl.phase.ids[k]] == PartFrame(id, w.calls[id], k); }
    }
    assert SentParts(x, id, ids);
  }

  lemma SendPartKeepsInv(s: State, c: SessionId)
    requires Inv(s) && CanSendPart(s, c)
    ensures Inv(DoSendPart(s, c))
  {
    assert ClientOk(s.w, c, s.clients[c]);
    SendPartIsOwn(s, c);
    SessionStepKeepsInv(s, DoSendPart(s, c), c);
  }

  /** The remaining steps of a session: it sends something else, or only its phase changes. */
  predicate IsPlainStep(step: Step) {
    || step.StartOpen? || step.StartRead? || step.SendResume? || step.SendFetch? || step.StartHeal?
    || step.NoteRevoked? || step.Close? || step.Crash?
  }

  lemma StartOpenIsOwn(s: State, c: SessionId, preload: bool)
    requires c !in s.clients && |s.w.srv.snaps| > 0
    ensures IsOwnStep(s, Next(s, StartOpen(c, preload)), c)
  {
  }

  lemma SendResumeIsOwn(s: State, c: SessionId)
    requires Enabled(s, SendResume(c)) && ClientOk(s.w, c, s.clients[c])
    ensures IsOwnStep(s, Next(s, SendResume(c)), c)
  {
    ClientGrows(s.w, Next(s, SendResume(c)).w, c, s.clients[c]);
  }

  lemma SendFetchIsOwn(s: State, c: SessionId)
    requires Enabled(s, SendFetch(c)) && ClientOk(s.w, c, s.clients[c])
    ensures IsOwnStep(s, Next(s, SendFetch(c)), c)
  {
    ClientGrows(s.w, Next(s, SendFetch(c)).w, c, s.clients[c]);
  }

  lemma CloseIsOwn(s: State, c: SessionId)
    requires Enabled(s, Close(c)) && ClientOk(s.w, c, s.clients[c])
    ensures IsOwnStep(s, Next(s, Close(c)), c)
  {
    ClientGrows(s.w, Next(s, Close(c)).w, c, s.clients[c]);
  }

  lemma StartReadIsOwn(s: State, c: SessionId, first: nat, count: nat, connected: bool)
    requires Enabled(s, StartRead(c, first, count, connected)) && ClientOk(s.w, c, s.clients[c])
    ensures IsOwnStep(s, Next(s, StartRead(c, first, count, connected)), c)
  {
  }

  lemma QuietStepIsOwn(s: State, step: Step)
    requires Enabled(s, step) && (step.StartHeal? || step.NoteRevoked? || step.Crash?)
    requires ClientOk(s.w, step.c, s.clients[step.c])
    ensures IsOwnStep(s, Next(s, step), step.c)
  {
  }

  lemma SendStepKeepsInv(s: State, step: Step)
    requires Inv(s) && Enabled(s, step) && (step.StartOpen? || step.SendResume? || step.SendFetch?)
    ensures Inv(Next(s, step))
  {
    match step
    case StartOpen(c, preload) =>
      StartOpenIsOwn(s, c, preload);
      SessionStepKeepsInv(s, Next(s, step), c);
    case SendResume(c) =>
      SendResumeIsOwn(s, c);
      SessionStepKeepsInv(s, Next(s, step), c);
    case SendFetch(c) =>
      SendFetchIsOwn(s, c);
      SessionStepKeepsInv(s, Next(s, step), c);
  }

  lemma PhaseStepKeepsInv(s: State, step: Step)
    requires Inv(s) && Enabled(s, step) && IsPlainStep(step)
    requires !step.StartOpen? && !step.SendResume? && !step.SendFetch?
    ensures Inv(Next(s, step))
  {
    if step.StartRead? { StartReadIsOwn(s, step.c, step.first, step.count, step.connected); }
    else if step.Close? { CloseIsOwn(s, step.c); }
    else { QuietStepIsOwn(s, step); }
    SessionStepKeepsInv(s, Next(s, step), step.c);
  }

  lemma PlainStepKeepsInv(s: State, step: Step)
    requires Inv(s) && Enabled(s, step) && IsPlainStep(step)
    ensures Inv(Next(s, step))
  {
    if step.StartOpen? || step.SendResume? || step.SendFetch? { SendStepKeepsInv(s, step); }
    else { PhaseStepKeepsInv(s, step); }
  }

  lemma BeginCommitKeepsClient(s: State, step: Step)
    requires Enabled(s, step) && step.BeginCommit? && ClientOk(s.w, step.c, s.clients[step.c])
    requires s.clients[step.c].revokedTo <= s.clients[step.c].epoch
    ensures ClientOk(Next(s, step).w, step.c, Next(s, step).clients[step.c])
    ensures Grows(s.w, Next(s, step).w)
  {
    var w, x, cl := s.w, Next(s, step).w, s.clients[step.c];
    assert Grows(w, x);
    ClientGrows(w, x, step.c, cl);
    forall d <- cl.done ensures d != step.id { assert IsApplied(w, d); }
  }

  lemma NewCallKeepsInv(s: State, t: State, c: SessionId)
    requires Inv(s) && Grows(s.w, t.w) && c in t.clients && t.clients == s.clients[c := t.clients[c]]
    requires t.answers == s.answers && t.w.srv == s.w.srv && t.w.sent == s.w.sent
    requires HistoryOk(t.w) && ClientOk(t.w, c, t.clients[c])
    requires CallsOk(t.w.calls, t.clients)
    ensures Inv(t)
  {
    RestGrows(s, t.w);
  }

  lemma BeginCommitKeepsInv(s: State, step: Step)
    requires Inv(s) && Enabled(s, step) && step.BeginCommit?
    ensures Inv(Next(s, step))
  {
    var c, t := step.c, Next(s, step);
    var cl := s.clients[c];
    if cl.revokedTo > cl.epoch {
      FencedCommitKeepsInv(s, step);
    } else {
      BeginCommitKeepsClient(s, step);
      NewCallKeepsHistory(s, t, step.id);
      NewCallKeepsCalls(s.w.calls, s.clients, step.id, t.w.calls[step.id]);
      CallsStayOk(t.w.calls, s.clients, c, t.clients[c]);
      NewCallKeepsInv(s, t, c);
    }
  }

  lemma FencedCommitKeepsInv(s: State, step: Step)
    requires Inv(s) && Enabled(s, step) && step.BeginCommit?
    requires s.clients[step.c].revokedTo > s.clients[step.c].epoch
    ensures Inv(Next(s, step))
  {
    var c, cl := step.c, s.clients[step.c];
    assert ClientOk(s.w, c, cl);
    BreakKeepsClient(s.w, c, cl, Fenced);
    SessionStepKeepsInv(s, Next(s, step), c);
  }

  lemma NewCallKeepsHistory(s: State, t: State, id: CommitId)
    requires HistoryOk(s.w) && t.w.srv == s.w.srv && id !in s.w.calls && id in t.w.calls
    requires t.w.calls == s.w.calls[id := t.w.calls[id]]
    ensures HistoryOk(t.w)
  {
    forall v | 0 <= v < |t.w.srv.log| ensures EventOk(t.w, v) { assert EventOk(s.w, v); }
  }

  lemma NewCallKeepsCalls(calls: map<CommitId, Call>, clients: map<SessionId, Client>, id: CommitId, call: Call)
    requires CallsOk(calls, clients)
    requires id !in calls && call.order == |calls| && call.client in clients
    requires clients[call.client].epoch == call.epoch > 0 && clients[call.client].version == call.base
    requires call.parts != [] && Overlay(Flatten(call.parts)) == call.writes
    ensures CallsOk(calls[id := call], clients)
  {
    var next := calls[id := call];
    assert |next| == |calls| + 1;
    forall d <- next ensures CallOk(next, clients, d) {
      if d != id { assert CallOk(calls, clients, d); }
    }
    forall a <- next, b <- next | next[a].client == next[b].client
      ensures next[a].order < next[b].order ==> next[a].base <= next[b].base
      ensures next[a].order == next[b].order ==> a == b
    {
      if a != id { assert CallOk(calls, clients, a); }
      if b != id { assert CallOk(calls, clients, b); }
    }
  }

  // ---------------------------------------------------------------------------------------------------------------
  // Server steps
  // ---------------------------------------------------------------------------------------------------------------

  /** The server changes and answers at most one request; the sessions do not change. */
  lemma ServerStepKeepsInv(s: State, t: State)
    requires Inv(s) && Grows(s.w, t.w)
    requires t.clients == s.clients && t.w.sent == s.w.sent && t.w.calls == s.w.calls
    requires HistoryOk(t.w) && GrantsOk(t.w)
    requires forall slot <- t.w.srv.assemblies ::
               (slot in s.w.srv.assemblies && t.w.srv.assemblies[slot] == s.w.srv.assemblies[slot])
               || AssemblyOk(t.w, t.w.srv.assemblies[slot])
    requires forall reply <- t.answers :: reply in s.answers || AnswerOk(t.w, reply.rid, reply.answer)
    ensures Inv(t)
  {
    RestGrows(s, t.w);
  }

  /** Only the lease, the assemblies or the history variables change: the log is as before. */
  lemma LogUnchangedKeepsHistory(w: World, x: World)
    requires HistoryOk(w) && x.srv.log == w.srv.log && x.srv.snaps == w.srv.snaps && x.calls == w.calls
    requires x.srv.pageSize == w.srv.pageSize && x.srv.lastId == w.srv.lastId && w.srv.epoch <= x.srv.epoch
    ensures HistoryOk(x)
  {
    forall v | 0 <= v < |x.srv.log| ensures EventOk(x, v) { assert EventOk(w, v); }
  }

  lemma CurrentStateOk(w: World, rid: RequestId)
    requires HistoryOk(w) && rid < |w.sent|
    requires (w.sent[rid].Resume? && w.sent[rid].epoch == w.srv.epoch && w.sent[rid].known <= |w.srv.log|) ||
             (w.sent[rid].Open? && w.srv.epoch > 0 && w.srv.epoch in w.srv.grants && w.srv.grants[w.srv.epoch] == rid)
    ensures AnswerOk(w, rid, CurrentState(w.srv))
  {
  }

  lemma AnswerKeepsInv(s: State, rid: RequestId, a: Answer)
    requires Inv(s) && AnswerOk(s.w, rid, a)
    ensures Inv(AddAnswer(s, rid, a))
  {
    assert AddAnswer(s, rid, a).w == s.w;
  }

  lemma RefusalKeepsInv(s: State, rid: RequestId, code: Code)
    requires Inv(s) && rid < |s.w.sent| && !IsFenced(code)
    ensures Inv(AddAnswer(s, rid, Error(code)))
  {
    AnswerKeepsInv(s, rid, Error(code));
  }

  /** The lease, the assemblies or the history variables change, the log and the answers do not. */
  lemma QuietServerStepKeepsInv(s: State, srv: Server)
    requires Inv(s) && Grows(s.w, s.w.(srv := srv)) && GrantsOk(s.w.(srv := srv))
    requires srv.log == s.w.srv.log && srv.snaps == s.w.srv.snaps && srv.lastId == s.w.srv.lastId
    requires forall slot <- srv.assemblies ::
               (slot in s.w.srv.assemblies && srv.assemblies[slot] == s.w.srv.assemblies[slot])
               || AssemblyOk(s.w.(srv := srv), srv.assemblies[slot])
    ensures Inv(SetServer(s, srv))
  {
    LogUnchangedKeepsHistory(s.w, s.w.(srv := srv));
    ServerStepKeepsInv(s, SetServer(s, srv));
  }

  lemma OpenKeepsInv(s: State, step: Step)
    requires Inv(s) && Enabled(s, step) && step.HandleOpen?
    ensures Inv(Next(s, step))
  {
    var srv := Next(s, step).w.srv;
    QuietServerStepKeepsInv(s, srv);
    CurrentStateOk(SetServer(s, srv).w, step.rid);
    AnswerKeepsInv(SetServer(s, srv), step.rid, CurrentState(srv));
  }

  lemma ResumeKeepsInv(s: State, step: Step)
    requires Inv(s) && Enabled(s, step) && step.HandleResume?
    ensures Inv(Next(s, step))
  {
    var r := s.w.sent[step.rid];
    assert RequestOk(s.w, r);
    if Current(s.w.srv, r.epoch) { GrantedResumeKeepsInv(s, step.rid); }
    else { AnswerKeepsInv(s, step.rid, Error(FencedCode)); }
  }

  lemma GrantedResumeKeepsInv(s: State, rid: RequestId)
    requires Inv(s) && rid < |s.w.sent| && s.w.sent[rid].Resume? && Current(s.w.srv, s.w.sent[rid].epoch)
    requires RequestOk(s.w, s.w.sent[rid])
    ensures Inv(DoResume(s, rid, s.w.sent[rid].client, s.w.sent[rid].epoch))
  {
    var srv := DoResume(s, rid, s.w.sent[rid].client, s.w.sent[rid].epoch).w.srv;
    QuietServerStepKeepsInv(s, srv);
    assert CurrentState(srv) == CurrentState(s.w.srv);
    CurrentStateOk(SetServer(s, srv).w, rid);
    AnswerKeepsInv(SetServer(s, srv), rid, CurrentState(srv));
  }

  lemma FetchAnswerOk(w: World, rid: RequestId)
    requires rid < |w.sent| && w.sent[rid].Fetch? && w.sent[rid].version < |w.srv.snaps|
    ensures var f := w.sent[rid];
            AnswerOk(w, rid, Pages(f.first, Slice(w.srv.snaps[f.version], f.first, f.count, w.srv.pageSize)))
  {
  }

  lemma AnswerStepKeepsInv(s: State, step: Step)
    requires Inv(s) && Enabled(s, step) && (step.HandleFetch? || step.Refuse?)
    ensures Inv(Next(s, step))
  {
    var f := s.w.sent[step.rid];
    if step.Refuse? {
      assert RequestOk(s.w, s.w.sent[step.rid]);
      AnswerKeepsInv(s, step.rid, Error(step.code));
    } else if f.version < |s.w.srv.snaps| && f.version == Version(s) {
      FetchAnswerOk(s.w, step.rid);
      AnswerKeepsInv(s, step.rid, Pages(f.first, Slice(s.w.srv.snaps[f.version], f.first, f.count, s.w.srv.pageSize)));
    } else {
      AnswerKeepsInv(s, step.rid, Error(VersionConflict));
    }
  }

  lemma DeleteKeepsInv(s: State, step: Step)
    requires Inv(s) && step.DeleteDatabase?
    ensures Inv(Next(s, step))
  {
    var t := DoDelete(s, step.keepsLastId);
    assert Grows(s.w, t.w);
    DeleteKeepsHistory(s, step.keepsLastId);
    ServerStepKeepsInv(s, t);
  }

  lemma DeleteKeepsHistory(s: State, keepsLastId: bool)
    requires HistoryOk(s.w) && Grows(s.w, DoDelete(s, keepsLastId).w)
    ensures HistoryOk(DoDelete(s, keepsLastId).w)
  {
    var w, x := s.w, DoDelete(s, keepsLastId).w;
    forall v | 0 <= v < |x.srv.log| ensures EventOk(x, v) {
      if v < |w.srv.log| { assert EventOk(w, v); }
    }
    forall u, v | 0 <= u < v < |x.srv.log| ensures x.srv.log[u].epoch <= x.srv.log[v].epoch {
      assert EventOk(w, u);
    }
    if x.srv.lastId.Some? { AppliedGrows(w, x, x.srv.lastId.value); }
  }

  /** A part that is accepted extends a prefix of one call by its next part. */
  lemma AssembledOk(w: World, slot: nat, f: Request)
    requires f.Part? && RequestOk(w, f)
    requires slot in w.srv.assemblies ==> AssemblyOk(w, w.srv.assemblies[slot])
    ensures var a := Assemble(w.srv, slot, f);
            a.Some? ==> AssemblyOk(w, a.value) && a.value.id == f.id && a.value.next == f.part + 1
  {
    var call := w.calls[f.id];
    assert call.parts[..f.part + 1][..f.part] == call.parts[..f.part];
    if f.part == 0 {
      assert Flatten(call.parts[..0]) == [];
      assert f.blocks == [] + f.blocks;
    }
  }

  /** A commit is applied only as a whole: the last part completes exactly the blocks of the call. */
  lemma CompleteIsWhole(w: World, clients: map<SessionId, Client>, a: Assembly)
    requires AssemblyOk(w, a) && a.next == |w.calls[a.id].parts| && CallOk(w.calls, clients, a.id)
    ensures Overlay(a.blocks) == w.calls[a.id].writes
  {
    assert w.calls[a.id].parts[..a.next] == w.calls[a.id].parts;
  }

  /** The world after commit `id` was applied on top of the current version. */
  lemma ApplyKeepsHistory(w: World, x: World, id: CommitId)
    requires HistoryOk(w) && id in w.calls && w.calls[id].base == |w.srv.log| && w.calls[id].epoch == w.srv.epoch
    requires var next := Apply(w.srv.snaps[|w.srv.log|], w.calls[id].count, w.calls[id].writes, w.srv.pageSize);
             x.srv.log == w.srv.log + [Applied(id, w.srv.epoch)] && x.srv.snaps == w.srv.snaps + [next]
    requires x.calls == w.calls && x.srv.pageSize == w.srv.pageSize && x.srv.lastId == Some(id)
    requires x.srv.epoch == w.srv.epoch
    ensures HistoryOk(x) && IsApplied(x, id)
  {
    forall v | 0 <= v < |x.srv.log| ensures EventOk(x, v) {
      if v < |w.srv.log| { assert EventOk(w, v); }
    }
    forall u, v | 0 <= u < v < |x.srv.log| ensures x.srv.log[u].epoch <= x.srv.log[v].epoch {
      assert EventOk(w, u);
    }
  }

  lemma ApplyKeepsInv(s: State, a: Assembly)
    requires Inv(s) && AssemblyOk(s.w, a) && a.next == |s.w.calls[a.id].parts| && Verdict(s.w.srv, a).None?
    ensures Inv(SetServer(s, ApplyTo(s.w.srv, a))) && IsApplied(SetServer(s, ApplyTo(s.w.srv, a)).w, a.id)
  {
    var t := SetServer(s, ApplyTo(s.w.srv, a));
    CompleteIsWhole(s.w, s.clients, a);
    ApplyKeepsHistory(s.w, t.w, a.id);
    ServerStepKeepsInv(s, t);
  }

  lemma VerdictOk(w: World, rid: RequestId, a: Assembly)
    requires HistoryOk(w) && AssemblyOk(w, a) && Verdict(w.srv, a).Some?
    requires rid < |w.sent| && w.sent[rid].Part? && w.sent[rid].id == a.id && RequestOk(w, w.sent[rid])
    ensures AnswerOk(w, rid, Verdict(w.srv, a).value)
  {
  }

  lemma DecideKeepsInv(s: State, rid: RequestId, a: Assembly)
    requires Inv(s) && AssemblyOk(s.w, a) && a.next == |s.w.calls[a.id].parts|
    requires rid < |s.w.sent| && s.w.sent[rid].Part? && s.w.sent[rid].id == a.id && RequestOk(s.w, s.w.sent[rid])
    ensures Inv(Decide(s, rid, a))
  {
    if Verdict(s.w.srv, a).Some? {
      VerdictOk(s.w, rid, a);
      AnswerKeepsInv(s, rid, Verdict(s.w.srv, a).value);
    } else {
      AckKeepsInv(s, rid, a);
    }
  }

  lemma AckKeepsInv(s: State, rid: RequestId, a: Assembly)
    requires Inv(s) && AssemblyOk(s.w, a) && a.next == |s.w.calls[a.id].parts| && Verdict(s.w.srv, a).None?
    requires rid < |s.w.sent| && s.w.sent[rid].Part? && s.w.sent[rid].id == a.id && RequestOk(s.w, s.w.sent[rid])
    ensures Inv(AddAnswer(SetServer(s, ApplyTo(s.w.srv, a)), rid, Ack(a.id, |s.w.srv.log| + 1)))
  {
    ApplyKeepsInv(s, a);
    AnswerKeepsInv(SetServer(s, ApplyTo(s.w.srv, a)), rid, Ack(a.id, |s.w.srv.log| + 1));
  }

  function WithoutSlot(s: State, slot: nat): State {
    SetServer(s, s.w.srv.(assemblies := s.w.srv.assemblies - {slot}))
  }

  /** What a part adds to the assembly in its slot, and the server without that slot. */
  lemma PartAssembles(s: State, rid: RequestId, slot: nat)
    requires Inv(s) && rid < |s.w.sent| && s.w.sent[rid].Part?
    ensures var f := s.w.sent[rid];
            var a := Assemble(s.w.srv, slot, f);
            && RequestOk(WithoutSlot(s, slot).w, f)
            && (a.Some? ==> && AssemblyOk(s.w, a.value) && AssemblyOk(WithoutSlot(s, slot).w, a.value)
                            && a.value.id == f.id && a.value.next == f.part + 1)
  {
    AssembledOk(s.w, slot, s.w.sent[rid]);
  }

  lemma DropSlotKeepsInv(s: State, slot: nat)
    requires Inv(s)
    ensures Inv(WithoutSlot(s, slot))
  {
    QuietServerStepKeepsInv(s, s.w.srv.(assemblies := s.w.srv.assemblies - {slot}));
  }

  lemma StoredPartKeepsInv(s: State, slot: nat, a: Assembly)
    requires Inv(s) && AssemblyOk(s.w, a)
    ensures Inv(SetServer(s, s.w.srv.(assemblies := s.w.srv.assemblies[slot := a])))
  {
    QuietServerStepKeepsInv(s, s.w.srv.(assemblies := s.w.srv.assemblies[slot := a]));
  }

  lemma LastPartKeepsInv(s: State, rid: RequestId, slot: nat)
    requires Inv(s) && rid < |s.w.sent| && s.w.sent[rid].Part? && !s.w.sent[rid].more
    requires Assemble(s.w.srv, slot, s.w.sent[rid]).Some?
    ensures Inv(DoPart(s, rid, slot, s.w.sent[rid]))
  {
    PartAssembles(s, rid, slot);
    DropSlotKeepsInv(s, slot);
    DecideKeepsInv(WithoutSlot(s, slot), rid, Assemble(s.w.srv, slot, s.w.sent[rid]).value);
  }

  lemma RefusedPartKeepsInv(s: State, rid: RequestId, slot: nat)
    requires Inv(s) && rid < |s.w.sent| && s.w.sent[rid].Part? && Assemble(s.w.srv, slot, s.w.sent[rid]).None?
    ensures Inv(DoPart(s, rid, slot, s.w.sent[rid]))
  {
    DropSlotKeepsInv(s, slot);
    RefusalKeepsInv(WithoutSlot(s, slot), rid, BadRequest);
  }

  lemma MiddlePartKeepsInv(s: State, rid: RequestId, slot: nat)
    requires Inv(s) && rid < |s.w.sent| && s.w.sent[rid].Part? && s.w.sent[rid].more
    requires Assemble(s.w.srv, slot, s.w.sent[rid]).Some?
    ensures Inv(DoPart(s, rid, slot, s.w.sent[rid]))
  {
    PartAssembles(s, rid, slot);
    StoredPartKeepsInv(s, slot, Assemble(s.w.srv, slot, s.w.sent[rid]).value);
  }

  lemma PartKeepsInv(s: State, rid: RequestId, slot: nat)
    requires Inv(s) && rid < |s.w.sent| && s.w.sent[rid].Part?
    ensures Inv(DoPart(s, rid, slot, s.w.sent[rid]))
  {
    if Assemble(s.w.srv, slot, s.w.sent[rid]).None? { RefusedPartKeepsInv(s, rid, slot); }
    else if s.w.sent[rid].more { MiddlePartKeepsInv(s, rid, slot); }
    else { LastPartKeepsInv(s, rid, slot); }
  }

  lemma CloseKeepsInv(s: State, step: Step)
    requires Inv(s) && Enabled(s, step) && step.HandleClose?
    ensures Inv(Next(s, step))
  {
    QuietServerStepKeepsInv(s, Next(s, step).w.srv);
  }

  // ---------------------------------------------------------------------------------------------------------------
  // All steps
  // ---------------------------------------------------------------------------------------------------------------

  lemma StepKeepsInv(s: State, step: Step)
    requires Inv(s) && Enabled(s, step)
    ensures Inv(Next(s, step))
  {
    if step.Receive? || step.LoseConnection? { ReceiveKeepsInv(s, step); }
    else if IsMemoryStep(step) { MemoryStepKeepsInv(s, step); }
    else if IsPlainStep(step) { PlainStepKeepsInv(s, step); }
    else if step.SendPart? { SendPartKeepsInv(s, step.c); }
    else if step.BeginCommit? { BeginCommitKeepsInv(s, step); }
    else if step.HandlePart? { PartKeepsInv(s, step.rid, step.slot); }
    else if step.DeleteDatabase? { DeleteKeepsInv(s, step); }
    else if step.HandleFetch? || step.Refuse? { AnswerStepKeepsInv(s, step); }
    else if step.HandleOpen? { OpenKeepsInv(s, step); }
    else if step.HandleResume? { ResumeKeepsInv(s, step); }
    else { CloseKeepsInv(s, step); }
  }

  lemma InitIsOk(pageSize: nat)
    ensures Inv(Init(pageSize))
  {
  }

  /** Every run, however long and however the network behaves, stays within the invariant. */
  lemma {:induction false} RunKeepsInv(s: State, steps: seq<Step>)
    requires Inv(s) && IsRun(s, steps)
    ensures Inv(After(s, steps))
    decreases |steps|
  {
    if steps != [] {
      StepKeepsInv(s, steps[0]);
      RunKeepsInv(Next(s, steps[0]), steps[1..]);
    }
  }
}
