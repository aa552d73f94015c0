/**
 * One open database as the client sees it: the lease, the version, the pending commit, the reason it broke, the blocks
 * in memory, and where the current call stands.
 *
 * The code blocks inside nested loops (`commit`, `resume_until`, `Client::commit`). Here a call is cut at its waits:
 * a phase says what the client waits for, and `React` and `Lost` say how it goes on. Clocks are inputs: `late` is the
 * outcome of a deadline test, `renew` that the access token is due when the loop looks at the connection. After opening
 * or healing, `late` says that the check of the local copy failed.
 */
module Session {
  import opened Common

  type CommitId = nat
  type RequestId = nat

  /** Error codes of the server that the client tells apart. */
  datatype Code =
    | FencedCode | SlotTaken | Internal | RateLimited | AccessDenied | VersionConflict | BadRequest | OtherCode

  predicate IsFenced(code: Code) { code.FencedCode? || code.SlotTaken? }

  predicate IsTransient(code: Code) { code.Internal? || code.RateLimited? }

  predicate IsAccessDenied(code: Code) { code.AccessDenied? }

  datatype Answer =
    | Opened(epoch: nat, version: nat, count: nat, lastId: Option<CommitId>)
    | Ack(id: CommitId, ackVersion: nat)
    | Pages(first: nat, blocks: seq<Block>)
    | Error(code: Code)

  /** Why a database cannot be used. */
  datatype Broken = Fenced | Uncertain | Diverged | Refused | Denied

  /** Blocks in memory: those held, and those modified since the last commit. */
  datatype Mem = Mem(count: nat, held: map<nat, Block>, dirty: set<nat>, resized: bool)

  /** Why the lease is being resumed. */
  datatype Why = TopOfLoop(id: CommitId) | AfterBreak(id: CommitId) | Healing | Reading(first: nat, count: nat)

  datatype Purpose = ForOpen | ForHeal | ForRead

  datatype Phase =
    | Opening(openId: RequestId)
    | Idle
    | Sending(id: CommitId, ids: seq<RequestId>)
    | AwaitAck(id: CommitId, ids: seq<RequestId>, refusal: Option<Code>)
    | Resuming(why: Why, resumeId: Option<RequestId>)
    | Loading(purpose: Purpose, first: nat, count: nat, loadId: Option<RequestId>)
    | Gone

  /** `done` lists the commits that were reported as successful. */
  datatype Client = Client(
    openRid: RequestId, preload: bool, epoch: nat, version: nat, pending: Option<CommitId>, broken: Option<Broken>,
    mem: Mem, revokedTo: nat, phase: Phase, done: seq<CommitId>)

  predicate IsClean(m: Mem) { m.dirty == {} && !m.resized }

  function Emptied(count: nat): Mem { Mem(count, map[], {}, false) }

  /** Blocks modified since the last commit. */
  function DirtyBlocks(m: Mem): map<nat, Block> { map i | i in m.dirty && i in m.held :: m.held[i] }

  /** Block `i` of a run of blocks that starts at `first`. */
  function InRun(first: nat, blocks: seq<Block>, i: nat): Block
    requires first <= i < first + |blocks|
  {
    blocks[i - first]
  }

  /** A block already in memory is kept: it may be newer than the one loaded. */
  function Keep(m: Mem, first: nat, blocks: seq<Block>): Mem {
    m.(held := (map i | first <= i < first + |blocks| :: InRun(first, blocks, i)) + m.held)
  }

  function Break(cl: Client, b: Broken): Client { cl.(broken := Some(b), phase := Idle) }

  /** The commit is durable: it becomes the version the blocks in memory belong to. */
  function Succeed(cl: Client, id: CommitId, version: nat): Client {
    cl.(version := version, pending := None, phase := Idle, done := cl.done + [id],
        mem := cl.mem.(dirty := {}, resized := false))
  }

  /** The loop of `commit` goes round: on the current connection it sends at once, otherwise it resumes first. */
  function Again(cl: Client, id: CommitId, renew: bool): Client {
    cl.(phase := if renew then Resuming(TopOfLoop(id), None) else Sending(id, []))
  }

  /** All blocks of the file were loaded, or none are needed yet: the database is usable. */
  function Filled(cl: Client, mem: Mem): Client { cl.(mem := mem, broken := None, phase := Idle) }

  /**
   * Loads the blocks after opening or healing: with preloading all of them, otherwise none. Even then the check of the
   * local copy needs the server if the copy is behind, and may have `failed`.
   */
  function Fill(cl: Client, purpose: Purpose, count: nat, failed: bool): Client {
    if cl.preload && count > 0 then cl.(phase := Loading(purpose, 0, count, None))
    else if failed then OnLoadLost(cl, purpose)
    else Filled(cl, Emptied(count))
  }

  /** A refused commit, after the answer to its last part. */
  function OnRefusal(cl: Client, id: CommitId, code: Code, late: bool, renew: bool): Client {
    if IsFenced(code) then Break(cl, Fenced)
    else if IsTransient(code) then if late then Break(cl, Uncertain) else Again(cl, id, renew)
    else Break(cl, Refused)
  }

  /** How an error of a heal attempt breaks the database. */
  function BreakOn(code: Code): Broken {
    if IsFenced(code) then Fenced
    else if IsAccessDenied(code) then Denied
    else if IsTransient(code) then Uncertain
    else Refused
  }

  function OnResumeError(cl: Client, why: Why, code: Code, late: bool): Client {
    match why
    case TopOfLoop(_) | AfterBreak(_) =>
      if IsFenced(code) then Break(cl, Fenced)
      else if IsAccessDenied(code) then Break(cl, Denied)
      else OnResumeLost(cl, why, late)
    case Healing => Break(cl, BreakOn(code))
    case Reading(_, _) => if IsAccessDenied(code) then Break(cl, Denied) else Break(cl, Uncertain)
  }

  /** No answer to a resume, or one that does not fit: `resume_until` tries again until the deadline. */
  function OnResumeLost(cl: Client, why: Why, late: bool): Client {
    match why
    case TopOfLoop(_) | AfterBreak(_) => if late then Break(cl, Uncertain) else cl.(phase := Resuming(why, None))
    case Healing | Reading(_, _) => Break(cl, Uncertain)
  }

  predicate PendingApplied(cl: Client, version: nat, lastId: Option<CommitId>) {
    version == cl.version + 1 && cl.pending.Some? && lastId == cl.pending
  }

  function OnResumed(cl: Client, why: Why, version: nat, count: nat, lastId: Option<CommitId>, late: bool,
                     renew: bool): Client
  {
    match why
    case TopOfLoop(id) => if version != cl.version then Break(cl, Diverged) else cl.(phase := Sending(id, []))
    case AfterBreak(id) =>
      if version == cl.version + 1 && lastId == Some(id) then Succeed(cl, id, version)
      else if version != cl.version then Break(cl, Diverged)
      else Again(cl, id, renew)
    case Healing =>
      if version != cl.version && !PendingApplied(cl, version, lastId) then Break(cl, Diverged)
      else Fill(cl.(version := version, pending := None), ForHeal, count, late)
    case Reading(first, n) => cl.(phase := Loading(ForRead, first, n, None))
  }

  function OnLoaded(cl: Client, purpose: Purpose, first: nat, blocks: seq<Block>): Client {
    match purpose
    case ForRead => cl.(mem := Keep(cl.mem, first, blocks), phase := Idle)
    case ForOpen | ForHeal => Filled(cl, Keep(Emptied(|blocks|), 0, blocks))
  }

  /** A read that fails leaves the database usable unless the server says it is fenced. */
  function OnLoadError(cl: Client, purpose: Purpose, code: Code): Client {
    match purpose
    case ForOpen => cl.(phase := Gone)
    case ForHeal => Break(cl, BreakOn(code))
    case ForRead => if IsFenced(code) then Break(cl, Fenced) else cl.(phase := Idle)
  }

  function OnLoadLost(cl: Client, purpose: Purpose): Client {
    match purpose
    case ForOpen => cl.(phase := Gone)
    case ForHeal => Break(cl, Uncertain)
    case ForRead => cl.(phase := Idle)
  }

  function OnAwaitAck(cl: Client, id: CommitId, ids: seq<RequestId>, refusal: Option<Code>,
                      rid: RequestId, a: Answer, late: bool, renew: bool): Client
    requires ids != []
  {
    var isLast := rid == ids[|ids| - 1];
    match a
    case Error(code) =>
      var first := if refusal.Some? then refusal.value else code;
      if isLast then OnRefusal(cl, id, first, late, renew)
      else cl.(phase := AwaitAck(id, ids, Some(first)))
    case Ack(_, version) =>
      if !isLast then cl.(phase := Resuming(AfterBreak(id), None))
      else if refusal.Some? then OnRefusal(cl, id, refusal.value, late, renew)
      else Succeed(cl, id, version)
    case _ => cl.(phase := Resuming(AfterBreak(id), None))
  }

  /** Whether the client takes an answer to request `rid` now; answers to other requests are skipped. */
  predicate Waits(cl: Client, rid: RequestId) {
    match cl.phase
    case Opening(r) => r == rid
    case AwaitAck(_, ids, _) => rid in ids
    case Resuming(_, r) => r == Some(rid)
    case Loading(_, _, _, r) => r == Some(rid)
    case _ => false
  }

  /** The client takes answer `a` to request `rid`. */
  function React(cl: Client, rid: RequestId, a: Answer, late: bool, renew: bool): Client
    requires Waits(cl, rid)
  {
    match cl.phase
    case Opening(_) =>
      (match a
       case Opened(epoch, version, count, _) => Fill(cl.(epoch := epoch, version := version), ForOpen, count, late)
       case _ => cl.(phase := Gone))
    case AwaitAck(id, ids, refusal) => OnAwaitAck(cl, id, ids, refusal, rid, a, late, renew)
    case Resuming(why, _) =>
      (match a
       case Opened(_, version, count, lastId) => OnResumed(cl, why, version, count, lastId, late, renew)
       case Error(code) => OnResumeError(cl, why, code, late)
       case _ => OnResumeLost(cl, why, late))
    case Loading(purpose, first, count, _) =>
      (match a
       case Pages(_, blocks) =>
         if |blocks| == count then OnLoaded(cl, purpose, first, blocks) else OnLoadLost(cl, purpose)
       case Error(code) => OnLoadError(cl, purpose, code)
       case _ => OnLoadLost(cl, purpose))
  }

  /** The connection breaks, or cannot be opened, while the client sends or waits. */
  function Lost(cl: Client, late: bool): Client {
    match cl.phase
    case Opening(_) => cl.(phase := Gone)
    case Sending(id, _) => cl.(phase := Resuming(AfterBreak(id), None))
    case AwaitAck(id, _, _) => cl.(phase := Resuming(AfterBreak(id), None))
    case Resuming(why, _) => OnResumeLost(cl, why, late)
    case Loading(purpose, _, _, _) => OnLoadLost(cl, purpose)
    case Idle => cl
    case Gone => cl
  }

  /** `commit` starts: a revoked lease breaks the database at once, otherwise `id` is pending. */
  function StartCommit(cl: Client, id: CommitId, connected: bool): Client {
    if cl.revokedTo > cl.epoch then Break(cl, Fenced)
    else Again(cl.(pending := Some(id)), id, !connected)
  }

  /** One block is overwritten; writing past the end grows the file. */
  function WriteBlock(m: Mem, index: nat, data: Block): Mem {
    Mem(Max(m.count, index + 1), m.held[index := data], m.dirty + {index}, m.resized || index >= m.count)
  }

  function TruncateTo(m: Mem, count: nat): Mem {
    if count == m.count then m
    else Mem(count, map i | i in m.held && i < count :: m.held[i], set i | i in m.dirty && i < count, true)
  }

  /** A clean block leaves memory. */
  function Evict(m: Mem, index: nat): Mem { m.(held := m.held - {index}) }
}
