/**
 * The commit and lease protocol between any number of client sessions and the page server.
 *
 * The server is not part of the repository; its behaviour is the one `sqlite_remote.proto` promises. The network is as
 * unkind as possible: every request ever sent stays in `sent` and can be handled again at any time, in any order, or
 * never, and every answer ever given stays in `answers`. This covers loss, duplication and delay of frames.
 *
 * A request id is the position of the request in `sent`. The code numbers requests per client and never reuses a
 * number, also across reconnects; the position renames these numbers in the same order.
 */
module Protocol {
  import opened Common
  import opened Snapshots
  import opened Session

  type SessionId = nat

  datatype Request =
    | Open(client: SessionId)
    | Resume(client: SessionId, epoch: nat, known: nat)
    | Part(client: SessionId, id: CommitId, epoch: nat, base: nat, count: nat, blocks: seq<BlockWrite>,
           more: bool, part: nat)
    | Fetch(client: SessionId, version: nat, first: nat, count: nat)
    | CloseDb(client: SessionId, epoch: nat)

  /** An incomplete commit on the server: the parts that arrived so far, in order. */
  datatype Assembly = Assembly(id: CommitId, epoch: nat, base: nat, count: nat, next: nat, blocks: seq<BlockWrite>)

  /** What happened at each version: a commit under a lease, or the deletion of the database. */
  datatype Event = Applied(id: CommitId, epoch: nat) | Deleted(epoch: nat)

  datatype Reply = Reply(rid: RequestId, answer: Answer)

  /**
   * The server. The current version is the length of `log`, and `snaps[v]` is the file at version v. `grants` remembers
   * which request each lease epoch answered, `floors` the newest answered resume of each session. Both are history:
   * no step of the server depends on them.
   */
  datatype Server = Server(
    pageSize: nat, log: seq<Event>, snaps: seq<Snapshot>, lastId: Option<CommitId>, epoch: nat, live: bool,
    assemblies: map<nat, Assembly>, grants: map<nat, RequestId>, floors: map<SessionId, RequestId>)

  /** A call of `commit`, as history: what it was to write, on top of which version, under which lease. */
  datatype Call = Call(client: SessionId, epoch: nat, base: nat, count: nat, writes: map<nat, Block>,
                       parts: seq<seq<BlockWrite>>, order: nat)

  /** The server together with everything that was ever asked of it. */
  datatype World = World(srv: Server, sent: seq<Request>, calls: map<CommitId, Call>)

  datatype State = State(w: World, clients: map<SessionId, Client>, answers: set<Reply>)

  datatype Step =
    // A client session.
    | StartOpen(c: SessionId, preload: bool)
    | Write(c: SessionId, index: nat, data: Block)
    | Truncate(c: SessionId, count: nat)
    | EvictBlock(c: SessionId, index: nat)
    | FromCopy(c: SessionId, index: nat)
    | StartRead(c: SessionId, first: nat, count: nat, connected: bool)
    | BeginCommit(c: SessionId, id: CommitId, parts: seq<seq<BlockWrite>>, connected: bool)
    | SendPart(c: SessionId)
    | SendResume(c: SessionId)
    | SendFetch(c: SessionId)
    | Receive(c: SessionId, rid: RequestId, answer: Answer, late: bool, renew: bool)
    | LoseConnection(c: SessionId, late: bool)
    | StartHeal(c: SessionId)
    | NoteRevoked(c: SessionId, epoch: nat)
    | Close(c: SessionId)
    | Crash(c: SessionId)
    // The server.
    | HandleOpen(rid: RequestId)
    | HandleResume(rid: RequestId)
    | HandlePart(rid: RequestId, slot: nat)
    | HandleFetch(rid: RequestId)
    | HandleClose(rid: RequestId)
    | Refuse(rid: RequestId, code: Code)
    | DeleteDatabase(keepsLastId: bool)

  function Version(s: State): nat { |s.w.srv.log| }

  function Init(pageSize: nat): State {
    State(World(Server(pageSize, [], [[]], None, 0, false, map[], map[], map[]), [], map[]), map[], {})
  }

  // ---------------------------------------------------------------------------------------------------------------
  // Client steps
  // ---------------------------------------------------------------------------------------------------------------

  predicate Usable(s: State, c: SessionId) {
    c in s.clients && s.clients[c].phase.Idle? && s.clients[c].broken.None?
  }

  function SetClient(s: State, c: SessionId, cl: Client): State { s.(clients := s.clients[c := cl]) }

  function Send(s: State, c: SessionId, cl: Client, r: Request): State {
    s.(clients := s.clients[c := cl], w := s.w.(sent := s.w.sent + [r]))
  }

  function NewClient(rid: RequestId, preload: bool): Client {
    Client(rid, preload, 0, 0, None, None, Emptied(0), 0, Opening(rid), [])
  }

  /** The frame of part `k` of a call, as `Remote::parts` builds it. */
  function PartFrame(id: CommitId, call: Call, k: nat): Request
    requires k < |call.parts|
  {
    Part(call.client, id, call.epoch, call.base, call.count, call.parts[k], k + 1 < |call.parts|, k)
  }

  function DoBeginCommit(s: State, c: SessionId, id: CommitId, parts: seq<seq<BlockWrite>>, connected: bool): State
    requires c in s.clients
  {
    var cl := s.clients[c];
    var started := StartCommit(cl, id, connected);
    if started.broken.Some? then SetClient(s, c, started)
    else
      var call := Call(c, cl.epoch, cl.version, cl.mem.count, DirtyBlocks(cl.mem), parts, |s.w.calls|);
      s.(clients := s.clients[c := started], w := s.w.(calls := s.w.calls[id := call]))
  }

  predicate CanSendPart(s: State, c: SessionId) {
    && c in s.clients && s.clients[c].phase.Sending? && s.clients[c].phase.id in s.w.calls
    && |s.clients[c].phase.ids| < |s.w.calls[s.clients[c].phase.id].parts|
  }

  function DoSendPart(s: State, c: SessionId): State
    requires CanSendPart(s, c)
  {
    var cl := s.clients[c];
    var id, ids := cl.phase.id, cl.phase.ids + [|s.w.sent|];
    var call := s.w.calls[id];
    var phase := if |ids| == |call.parts| then AwaitAck(id, ids, None) else Sending(id, ids);
    Send(s, c, cl.(phase := phase), PartFrame(id, call, |ids| - 1))
  }

  // ---------------------------------------------------------------------------------------------------------------
  // Server steps
  // ---------------------------------------------------------------------------------------------------------------

  function SetServer(s: State, srv: Server): State { s.(w := s.w.(srv := srv)) }

  function AddAnswer(s: State, rid: RequestId, a: Answer): State { s.(answers := s.answers + {Reply(rid, a)}) }

  function CurrentState(srv: Server): Answer {
    var count := if |srv.snaps| == 0 then 0 else |srv.snaps[|srv.snaps| - 1]|;
    Opened(srv.epoch, |srv.log|, count, srv.lastId)
  }

  /** A new lease: the epoch grows, so that every earlier lease is fenced. */
  function DoOpen(s: State, rid: RequestId): State {
    var srv := s.w.srv.(epoch := s.w.srv.epoch + 1, live := true, grants := s.w.srv.grants[s.w.srv.epoch + 1 := rid]);
    AddAnswer(SetServer(s, srv), rid, CurrentState(srv))
  }

  predicate Current(srv: Server, epoch: nat) { srv.live && srv.epoch == epoch }

  function DoResume(s: State, rid: RequestId, c: SessionId, epoch: nat): State {
    if Current(s.w.srv, epoch) then
      var floor := if c in s.w.srv.floors then Max(s.w.srv.floors[c], rid) else rid;
      AddAnswer(SetServer(s, s.w.srv.(floors := s.w.srv.floors[c := floor])), rid, CurrentState(s.w.srv))
    else AddAnswer(s, rid, Error(FencedCode))
  }

  /** Whether a part directly follows the parts collected so far and repeats their description of the commit. */
  predicate Continues(a: Assembly, f: Request)
    requires f.Part?
  {
    a.next == f.part && a.id == f.id && a.epoch == f.epoch && a.base == f.base && a.count == f.count
  }

  /** Part 0 starts a commit and discards an incomplete one. Any other part must continue the one in its slot. */
  function Assemble(srv: Server, slot: nat, f: Request): Option<Assembly>
    requires f.Part?
  {
    if f.part == 0 then Some(Assembly(f.id, f.epoch, f.base, f.count, 1, f.blocks))
    else if slot in srv.assemblies && Continues(srv.assemblies[slot], f) then
      var a := srv.assemblies[slot];
      Some(a.(next := a.next + 1, blocks := a.blocks + f.blocks))
    else None
  }

  /** Why a complete commit is not applied, if it is not: its lease, a repetition, or its version. */
  function Verdict(srv: Server, a: Assembly): Option<Answer> {
    if !Current(srv, a.epoch) then Some(Error(FencedCode))
    else if srv.lastId == Some(a.id) && |srv.log| == a.base + 1 then Some(Ack(a.id, |srv.log|))
    else if a.base != |srv.log| then Some(Error(VersionConflict))
    else None
  }

  function ApplyTo(srv: Server, a: Assembly): Server
    requires |srv.snaps| == |srv.log| + 1
  {
    var next := Apply(srv.snaps[|srv.log|], a.count, Overlay(a.blocks), srv.pageSize);
    srv.(log := srv.log + [Applied(a.id, a.epoch)], snaps := srv.snaps + [next], lastId := Some(a.id))
  }

  /** The last part arrived. */
  function Decide(s: State, rid: RequestId, a: Assembly): State
    requires |s.w.srv.snaps| == |s.w.srv.log| + 1
  {
    match Verdict(s.w.srv, a)
    case Some(answer) => AddAnswer(s, rid, answer)
    case None => AddAnswer(SetServer(s, ApplyTo(s.w.srv, a)), rid, Ack(a.id, |s.w.srv.log| + 1))
  }

  function DoPart(s: State, rid: RequestId, slot: nat, f: Request): State
    requires f.Part? && |s.w.srv.snaps| == |s.w.srv.log| + 1
  {
    var assembled := Assemble(s.w.srv, slot, f);
    var without := SetServer(s, s.w.srv.(assemblies := s.w.srv.assemblies - {slot}));
    if assembled.None? then AddAnswer(without, rid, Error(BadRequest))
    else if f.more then SetServer(s, s.w.srv.(assemblies := s.w.srv.assemblies[slot := assembled.value]))
    else Decide(without, rid, assembled.value)
  }

  function DoFetch(s: State, rid: RequestId, f: Request): State
    requires f.Fetch?
  {
    if f.version < |s.w.srv.snaps| && f.version == Version(s) then
      AddAnswer(s, rid, Pages(f.first, Slice(s.w.srv.snaps[f.version], f.first, f.count, s.w.srv.pageSize)))
    else AddAnswer(s, rid, Error(VersionConflict))
  }

  /** A deletion counts as a version and takes the lease away from everyone. */
  function DoDelete(s: State, keepsLastId: bool): State {
    var srv := s.w.srv;
    SetServer(s, srv.(log := srv.log + [Deleted(srv.epoch + 1)], snaps := srv.snaps + [[]], epoch := srv.epoch + 1,
                      live := false, lastId := if keepsLastId then srv.lastId else None))
  }

  /** The request speaks for a lease that is not the current one; the server may refuse any part of a commit for it. */
  predicate IsOutdated(srv: Server, r: Request) { (r.Part? || r.Resume?) && !Current(srv, r.epoch) }

  // ---------------------------------------------------------------------------------------------------------------
  // Runs
  // ---------------------------------------------------------------------------------------------------------------

  predicate Enabled(s: State, step: Step) {
    match step
    case StartOpen(c, _) => c !in s.clients
    case Write(c, index, data) => Usable(s, c)
    case Truncate(c, _) => Usable(s, c)
    case EvictBlock(c, index) =>
      Usable(s, c) && index in s.clients[c].mem.held && index !in s.clients[c].mem.dirty
    case FromCopy(c, index) =>
      // The local copy serves blocks of the client's version; module CopyCoherence shows when it does.
      Usable(s, c) && index < s.clients[c].mem.count && s.clients[c].version < |s.w.srv.snaps|
    case StartRead(c, first, count, _) => Usable(s, c) && first + count <= s.clients[c].mem.count
    case BeginCommit(c, id, parts, _) =>
      && Usable(s, c) && !IsClean(s.clients[c].mem) && id !in s.w.calls
      && parts != [] && Overlay(Flatten(parts)) == DirtyBlocks(s.clients[c].mem)
    case SendPart(c) => CanSendPart(s, c)
    case SendResume(c) => c in s.clients && s.clients[c].phase.Resuming? && s.clients[c].phase.resumeId.None?
    case SendFetch(c) => c in s.clients && s.clients[c].phase.Loading? && s.clients[c].phase.loadId.None?
    case Receive(c, rid, answer, _, _) =>
      c in s.clients && Waits(s.clients[c], rid) && Reply(rid, answer) in s.answers
    case LoseConnection(c, _) => c in s.clients
    case StartHeal(c) => c in s.clients && s.clients[c].phase.Idle? && s.clients[c].broken == Some(Uncertain)
    case NoteRevoked(c, epoch) => c in s.clients && epoch <= s.w.srv.epoch
    case Close(c) => c in s.clients && s.clients[c].phase.Idle?
    case Crash(c) => c in s.clients
    case HandleOpen(rid) => rid < |s.w.sent| && s.w.sent[rid].Open?
    case HandleResume(rid) => rid < |s.w.sent| && s.w.sent[rid].Resume?
    case HandlePart(rid, _) => rid < |s.w.sent| && s.w.sent[rid].Part? && |s.w.srv.snaps| == |s.w.srv.log| + 1
    case HandleFetch(rid) => rid < |s.w.sent| && s.w.sent[rid].Fetch?
    case HandleClose(rid) => rid < |s.w.sent| && s.w.sent[rid].CloseDb?
    case Refuse(rid, code) => rid < |s.w.sent| && (IsFenced(code) ==> IsOutdated(s.w.srv, s.w.sent[rid]))
    case DeleteDatabase(_) => true
  }

  function Next(s: State, step: Step): State
    requires Enabled(s, step)
  {
    match step
    case StartOpen(c, preload) => Send(s, c, NewClient(|s.w.sent|, preload), Open(c))
    case Write(c, index, data) =>
      SetClient(s, c, s.clients[c].(mem := WriteBlock(s.clients[c].mem, index, data)))
    case Truncate(c, count) => SetClient(s, c, s.clients[c].(mem := TruncateTo(s.clients[c].mem, count)))
    case EvictBlock(c, index) => SetClient(s, c, s.clients[c].(mem := Evict(s.clients[c].mem, index)))
    case FromCopy(c, index) =>
      var block := At(s.w.srv.snaps[s.clients[c].version], index, s.w.srv.pageSize);
      SetClient(s, c, s.clients[c].(mem := Keep(s.clients[c].mem, index, [block])))
    case StartRead(c, first, count, connected) =>
      var phase := if connected then Loading(ForRead, first, count, None) else Resuming(Reading(first, count), None);
      SetClient(s, c, s.clients[c].(phase := phase))
    case BeginCommit(c, id, parts, connected) => DoBeginCommit(s, c, id, parts, connected)
    case SendPart(c) => DoSendPart(s, c)
    case SendResume(c) =>
      var cl := s.clients[c];
      Send(s, c, cl.(phase := Resuming(cl.phase.why, Some(|s.w.sent|))), Resume(c, cl.epoch, cl.version))
    case SendFetch(c) =>
      var cl := s.clients[c];
      var phase := Loading(cl.phase.purpose, cl.phase.first, cl.phase.count, Some(|s.w.sent|));
      Send(s, c, cl.(phase := phase), Fetch(c, cl.version, cl.phase.first, cl.phase.count))
    case Receive(c, rid, answer, late, renew) => SetClient(s, c, React(s.clients[c], rid, answer, late, renew))
    case LoseConnection(c, late) => SetClient(s, c, Lost(s.clients[c], late))
    case StartHeal(c) => SetClient(s, c, s.clients[c].(phase := Resuming(Healing, None)))
    case NoteRevoked(c, epoch) =>
      SetClient(s, c, s.clients[c].(revokedTo := Max(s.clients[c].revokedTo, epoch)))
    case Close(c) =>
      var cl := s.clients[c].(phase := Gone);
      if s.clients[c].broken.Some? then SetClient(s, c, cl) else Send(s, c, cl, CloseDb(c, cl.epoch))
    case Crash(c) => SetClient(s, c, s.clients[c].(phase := Gone))
    case HandleOpen(rid) => DoOpen(s, rid)
    case HandleResume(rid) => DoResume(s, rid, s.w.sent[rid].client, s.w.sent[rid].epoch)
    case HandlePart(rid, slot) => DoPart(s, rid, slot, s.w.sent[rid])
    case HandleFetch(rid) => DoFetch(s, rid, s.w.sent[rid])
    case HandleClose(rid) => SetServer(s, s.w.srv.(live := s.w.srv.live && s.w.srv.epoch != s.w.sent[rid].epoch))
    case Refuse(rid, code) => AddAnswer(s, rid, Error(code))
    case DeleteDatabase(keepsLastId) => DoDelete(s, keepsLastId)
  }

  /** Whether `steps` is a run from `s`: every step is possible when its turn comes. */
  ghost predicate IsRun(s: State, steps: seq<Step>)
    decreases |steps|
  {
    steps == [] || (Enabled(s, steps[0]) && IsRun(Next(s, steps[0]), steps[1..]))
  }

  /** The state a run ends in. */
  ghost function After(s: State, steps: seq<Step>): State
    requires IsRun(s, steps)
    decreases |steps|
  {
    if steps == [] then s else After(Next(s, steps[0]), steps[1..])
  }

  /**
   * Frames of a dropped connection do not outlive the resume that replaces it: once a resume of a session is answered,
   * no commit part that session sent before it takes effect.
   */
  ghost predicate Timely(s: State, step: Step) {
    step.HandlePart? && step.rid < |s.w.sent| && s.w.sent[step.rid].Part? ==>
      var c := s.w.sent[step.rid].client;
      c in s.w.srv.floors ==> step.rid >= s.w.srv.floors[c]
  }

  ghost predicate IsTimelyRun(s: State, steps: seq<Step>)
    decreases |steps|
  {
    steps == [] ||
    (Enabled(s, steps[0]) && Timely(s, steps[0]) && IsTimelyRun(Next(s, steps[0]), steps[1..]))
  }
}
