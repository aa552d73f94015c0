/**
 * What every step of the protocol keeps.
 *
 * Each part of the state is described against the server's history (the log, its snapshots, the calls, the leases).
 * That history only grows (`Grows`), and every description survives growth. A step therefore only has to establish the
 * description of the one part it changes.
 */
module ProtocolInvariants {
  import opened Common
  import opened Snapshots
  import opened Session
  import opened Protocol

  // ---------------------------------------------------------------------------------------------------------------
  // Descriptions
  // ---------------------------------------------------------------------------------------------------------------

  /** The lease with this epoch can never commit again. */
  ghost predicate NotCurrent(srv: Server, epoch: nat) {
    epoch < srv.epoch || (epoch == srv.epoch && !srv.live)
  }

  /** Commit `id` was applied, on top of the version its call was based on. */
  ghost predicate IsApplied(w: World, id: CommitId) {
    && id in w.calls
    && w.calls[id].base < |w.srv.log|
    && w.srv.log[w.calls[id].base] == Applied(id, w.calls[id].epoch)
  }

  /** A last commit id reported together with `version`: it names the commit that made this version, if one did. */
  ghost predicate LastIdOk(w: World, lastId: Option<CommitId>, version: nat)
    requires version <= |w.srv.log|
  {
    && (lastId.Some? ==> IsApplied(w, lastId.value) && w.calls[lastId.value].base < version)
    && (version > 0 && w.srv.log[version - 1].Applied? ==> lastId == Some(w.srv.log[version - 1].id))
  }

  ghost predicate EventOk(w: World, v: nat)
    requires v < |w.srv.log| && |w.srv.snaps| == |w.srv.log| + 1
  {
    match w.srv.log[v]
    case Applied(id, epoch) =>
      && id in w.calls && w.calls[id].base == v && w.calls[id].epoch == epoch && epoch <= w.srv.epoch
      && w.srv.snaps[v + 1] == Apply(w.srv.snaps[v], w.calls[id].count, w.calls[id].writes, w.srv.pageSize)
    case Deleted(epoch) => epoch <= w.srv.epoch && w.srv.snaps[v + 1] == []
  }

  ghost predicate HistoryOk(w: World) {
    && |w.srv.snaps| == |w.srv.log| + 1
    && (forall v :: 0 <= v < |w.srv.log| ==> EventOk(w, v))
    && (forall u, v :: 0 <= u < v < |w.srv.log| ==> w.srv.log[u].epoch <= w.srv.log[v].epoch)
    && LastIdOk(w, w.srv.lastId, |w.srv.log|)
  }

  ghost predicate GrantsOk(w: World) {
    forall e <- w.srv.grants :: e <= w.srv.epoch && w.srv.grants[e] < |w.sent| && w.sent[w.srv.grants[e]].Open?
  }

  ghost predicate RequestOk(w: World, r: Request) {
    && (r.Part? ==> r.id in w.calls && r.part < |w.calls[r.id].parts| && r == PartFrame(r.id, w.calls[r.id], r.part))
    && (r.Part? || r.Resume? ==> r.epoch <= w.srv.epoch)
    && (r.Resume? ==> r.known <= |w.srv.log|)
  }

  /** The parts collected so far are exactly the first parts of one call. */
  ghost predicate AssemblyOk(w: World, a: Assembly) {
    && a.id in w.calls
    && var call := w.calls[a.id];
    && a.epoch == call.epoch && a.base == call.base && a.count == call.count
    && 0 < a.next <= |call.parts|
    && a.blocks == Flatten(call.parts[..a.next])
  }

  ghost predicate AnswerOk(w: World, rid: RequestId, a: Answer) {
    && rid < |w.sent|
    && match a
       case Opened(epoch, version, count, lastId) =>
         && (w.sent[rid].Open? || w.sent[rid].Resume?)
         && version <= |w.srv.log| && version < |w.srv.snaps| && count == |w.srv.snaps[version]|
         && LastIdOk(w, lastId, version)
         && (w.sent[rid].Resume? ==> w.sent[rid].known <= version && w.sent[rid].epoch == epoch)
         && (w.sent[rid].Open? ==> 0 < epoch <= w.srv.epoch && epoch in w.srv.grants && w.srv.grants[epoch] == rid)
       case Ack(id, version) =>
         w.sent[rid].Part? && w.sent[rid].id == id && IsApplied(w, id) && version == w.calls[id].base + 1
       case Pages(_, blocks) =>
         && w.sent[rid].Fetch? && w.sent[rid].version < |w.srv.snaps|
         && blocks == Slice(w.srv.snaps[w.sent[rid].version], w.sent[rid].first, w.sent[rid].count, w.srv.pageSize)
       case Error(code) =>
         IsFenced(code) ==> (w.sent[rid].Part? || w.sent[rid].Resume?) && NotCurrent(w.srv, w.sent[rid].epoch)
  }

  /**
   * Every clean block in memory has the content of the snapshot, modified blocks are always in memory, and the size
   * is the snapshot's unless it was changed.
   */
  ghost predicate Coherent(m: Mem, snap: Snapshot, pageSize: nat) {
    && m.dirty <= m.held.Keys
    && (!m.resized ==> m.count == |snap|)
    && (forall i <- m.held :: i < m.count)
    && (forall i <- m.held :: i !in m.dirty ==> m.held[i] == At(snap, i, pageSize))
  }

  /** The commit in progress is the one that was called, with the blocks now in memory. */
  ghost predicate Committing(w: World, c: SessionId, cl: Client, id: CommitId) {
    && cl.pending == Some(id) && cl.broken.None? && id in w.calls && id !in cl.done
    && w.calls[id].writes == DirtyBlocks(cl.mem) && w.calls[id].count == cl.mem.count
  }

  ghost predicate SentParts(w: World, id: CommitId, ids: seq<RequestId>) {
    && id in w.calls && |ids| <= |w.calls[id].parts|
    && forall k :: 0 <= k < |ids| ==> ids[k] < |w.sent| && w.sent[ids[k]] == PartFrame(id, w.calls[id], k)
  }

  ghost predicate LoadsAll(w: World, cl: Client, count: nat) {
    cl.version < |w.srv.snaps| && count == |w.srv.snaps[cl.version]|
  }

  ghost predicate PhaseOk(w: World, c: SessionId, cl: Client) {
    match cl.phase
    case Opening(r) => r == cl.openRid && cl.epoch == 0 && cl.pending.None? && cl.broken.None?
    case Gone => true
    case Idle => cl.epoch > 0 && (cl.broken.None? ==> cl.pending.None?)
    case Sending(id, ids) =>
      cl.epoch > 0 && Committing(w, c, cl, id) && SentParts(w, id, ids) && |ids| < |w.calls[id].parts|
    case AwaitAck(id, ids, refusal) =>
      && cl.epoch > 0 && Committing(w, c, cl, id) && SentParts(w, id, ids) && |ids| == |w.calls[id].parts|
      && (refusal.Some? && IsFenced(refusal.value) ==> NotCurrent(w.srv, cl.epoch))
    case Resuming(why, rid) =>
      && cl.epoch > 0
      && (rid.Some? ==> rid.value < |w.sent| && w.sent[rid.value] == Resume(c, cl.epoch, cl.version))
      && (match why
          case TopOfLoop(id) => Committing(w, c, cl, id)
          case AfterBreak(id) => Committing(w, c, cl, id)
          case Healing => cl.broken == Some(Uncertain)
          case Reading(first, n) => cl.broken.None? && cl.pending.None? && first + n <= cl.mem.count)
    case Loading(purpose, first, count, rid) =>
      && cl.epoch > 0 && cl.pending.None?
      && (rid.Some? ==> rid.value < |w.sent| && w.sent[rid.value] == Fetch(c, cl.version, first, count))
      && (match purpose
          case ForOpen => cl.broken.None? && first == 0 && LoadsAll(w, cl, count)
          case ForHeal => cl.broken == Some(Uncertain) && first == 0 && LoadsAll(w, cl, count)
          case ForRead => cl.broken.None? && first + count <= cl.mem.count)
  }

  /** The blocks in memory may be read. */
  predicate Serving(cl: Client) {
    && cl.epoch > 0 && cl.broken.None? && !cl.phase.Gone? && !cl.phase.Opening?
    && !(cl.phase.Loading? && cl.phase.purpose.ForOpen?)
  }

  ghost predicate ClientOk(w: World, c: SessionId, cl: Client) {
    && cl.openRid < |w.sent| && w.sent[cl.openRid] == Open(c)
    && cl.revokedTo <= w.srv.epoch
    && cl.version <= |w.srv.log| && cl.version < |w.srv.snaps|
    && (cl.epoch > 0 ==> cl.epoch <= w.srv.epoch && cl.epoch in w.srv.grants && w.srv.grants[cl.epoch] == cl.openRid)
    && (cl.pending.Some? ==>
          && cl.pending.value in w.calls && w.calls[cl.pending.value].client == c
          && w.calls[cl.pending.value].epoch == cl.epoch && w.calls[cl.pending.value].base == cl.version)
    && (cl.broken == Some(Fenced) ==> NotCurrent(w.srv, cl.epoch))
    && (forall id <- cl.done :: IsApplied(w, id) && w.calls[id].client == c)
    && PhaseOk(w, c, cl)
    && (Serving(cl) ==> Coherent(cl.mem, w.srv.snaps[cl.version], w.srv.pageSize))
  }

  ghost predicate CallOk(calls: map<CommitId, Call>, clients: map<SessionId, Client>, id: CommitId)
    requires id in calls
  {
    var call := calls[id];
    && call.parts != [] && Overlay(Flatten(call.parts)) == call.writes
    && call.client in clients && clients[call.client].epoch == call.epoch && call.epoch > 0
    && call.base <= clients[call.client].version
    && call.order < |calls|
  }

  /** Calls of one session are based on versions that never decrease. */
  ghost predicate CallsOrdered(calls: map<CommitId, Call>) {
    forall a <- calls, b <- calls :: calls[a].client == calls[b].client ==>
      (calls[a].order < calls[b].order ==> calls[a].base <= calls[b].base)
      && (calls[a].order == calls[b].order ==> a == b)
  }

  ghost predicate RequestsOk(w: World) {
    forall r <- w.sent :: RequestOk(w, r)
  }

  ghost predicate AssembliesOk(w: World) {
    forall slot <- w.srv.assemblies :: AssemblyOk(w, w.srv.assemblies[slot])
  }

  ghost predicate AnswersOk(w: World, answers: set<Reply>) {
    forall reply <- answers :: AnswerOk(w, reply.rid, reply.answer)
  }

  ghost predicate ClientsOk(w: World, clients: map<SessionId, Client>) {
    forall c <- clients :: ClientOk(w, c, clients[c])
  }

  ghost predicate CallsOk(calls: map<CommitId, Call>, clients: map<SessionId, Client>) {
    (forall id <- calls :: CallOk(calls, clients, id)) && CallsOrdered(calls)
  }

  ghost predicate Inv(s: State) {
    && HistoryOk(s.w)
    && GrantsOk(s.w)
    && RequestsOk(s.w)
    && AssembliesOk(s.w)
    && AnswersOk(s.w, s.answers)
    && ClientsOk(s.w, s.clients)
    && CallsOk(s.w.calls, s.clients)
  }

  // ---------------------------------------------------------------------------------------------------------------
  // Growth
  // ---------------------------------------------------------------------------------------------------------------

  ghost predicate Grows(w: World, x: World) {
    && w.srv.log <= x.srv.log && w.srv.snaps <= x.srv.snaps && w.sent <= x.sent
    && x.srv.pageSize == w.srv.pageSize
    && (forall id <- w.calls :: id in x.calls && x.calls[id] == w.calls[id])
    && (forall e <- w.srv.grants :: e in x.srv.grants && x.srv.grants[e] == w.srv.grants[e])
    && w.srv.epoch <= x.srv.epoch && (w.srv.epoch == x.srv.epoch ==> (x.srv.live ==> w.srv.live))
  }

  lemma AppliedGrows(w: World, x: World, id: CommitId)
    requires Grows(w, x) && IsApplied(w, id)
    ensures IsApplied(x, id)
  {
    assert x.srv.log[..|w.srv.log|] == w.srv.log;
  }

  lemma AnswerGrows(w: World, x: World, rid: RequestId, a: Answer)
    requires Grows(w, x) && AnswerOk(w, rid, a)
    ensures AnswerOk(x, rid, a)
  {
    if a.Opened? && a.lastId.Some? { AppliedGrows(w, x, a.lastId.value); }
    if a.Ack? { AppliedGrows(w, x, a.id); }
  }

  lemma SentPartsGrow(w: World, x: World, id: CommitId, ids: seq<RequestId>)
    requires Grows(w, x) && SentParts(w, id, ids)
    ensures SentParts(x, id, ids)
  {
    forall k | 0 <= k < |ids|
      ensures ids[k] < |x.sent| && x.sent[ids[k]] == PartFrame(id, x.calls[id], k)
    {
      assert w.sent[ids[k]] == PartFrame(id, w.calls[id], k);
    }
  }

  lemma ClientGrows(w: World, x: World, c: SessionId, cl: Client)
    requires Grows(w, x) && ClientOk(w, c, cl)
    ensures ClientOk(x, c, cl)
  {
    forall id <- cl.done ensures IsApplied(x, id) && x.calls[id].client == c {
      assert IsApplied(w, id);
      AppliedGrows(w, x, id);
    }
    if cl.phase.Sending? || cl.phase.AwaitAck? { SentPartsGrow(w, x, cl.phase.id, cl.phase.ids); }
  }

  /** Everything a step left alone keeps its description. */
  lemma RestGrows(s: State, x: World)
    requires Inv(s) && Grows(s.w, x)
    ensures forall r <- s.w.sent :: RequestOk(x, r)
    ensures forall slot <- s.w.srv.assemblies :: AssemblyOk(x, s.w.srv.assemblies[slot])
    ensures AnswersOk(x, s.answers)
    ensures ClientsOk(x, s.clients)
  {
    forall reply <- s.answers ensures AnswerOk(x, reply.rid, reply.answer) {
      AnswerGrows(s.w, x, reply.rid, reply.answer);
    }
    forall c <- s.clients ensures ClientOk(x, c, s.clients[c]) { ClientGrows(s.w, x, c, s.clients[c]); }
  }
}
