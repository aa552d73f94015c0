/**
 * The loops of module Database, and the protocol.
 *
 * A connection numbers its requests itself; the protocol numbers them by their position among all that were ever sent.
 * Under the renaming that follows from the order of sending, the moves of a session are steps of the protocol, however
 * the server and the other sessions go on between them. What holds of every run holds of the loops.
 */
module ProtocolMoves {
  import opened Common
  import opened Session
  import opened SessionMoves
  import opened Protocol
  import opened ProtocolInvariants
  import opened ProtocolTheorems

  // ---------------------------------------------------------------------------------------------------------------
  // Renaming requests
  // ---------------------------------------------------------------------------------------------------------------

  type Renaming = map<RequestId, RequestId>

  function To(n: Renaming, r: RequestId): RequestId { if r in n then n[r] else r }

  function ToAll(n: Renaming, ids: seq<RequestId>): (renamed: seq<RequestId>)
    ensures |renamed| == |ids| && forall i :: 0 <= i < |ids| ==> renamed[i] == To(n, ids[i])
  {
    seq(|ids|, i requires 0 <= i < |ids| => To(n, ids[i]))
  }

  function ToIfAny(n: Renaming, r: Option<RequestId>): Option<RequestId> {
    if r.Some? then Some(To(n, r.value)) else None
  }

  function RenamedPhase(n: Renaming, p: Phase): Phase {
    match p
    case Opening(r) => Opening(To(n, r))
    case Sending(id, ids) => Sending(id, ToAll(n, ids))
    case AwaitAck(id, ids, refusal) => AwaitAck(id, ToAll(n, ids), refusal)
    case Resuming(why, r) => Resuming(why, ToIfAny(n, r))
    case Loading(purpose, first, count, r) => Loading(purpose, first, count, ToIfAny(n, r))
    case Idle => Idle
    case Gone => Gone
  }

  function Renamed(n: Renaming, openRid: RequestId, cl: Client): Client {
    cl.(openRid := openRid, phase := RenamedPhase(n, cl.phase))
  }

  /** The move as the protocol names its requests: what it sends is at position `next`. */
  function RenamedMove(n: Renaming, m: Move, next: RequestId): Move {
    match m
    case SentPart(_, of) => SentPart(next, of)
    case SentResume(_) => SentResume(next)
    case SentLoad(_) => SentLoad(next)
    case Took(rid, a, late, renew) => Took(To(n, rid), a, late, renew)
    case LostLink(_) => m
    case Noted(_) => m
  }

  function Extended(n: Renaming, m: Move, next: RequestId): Renaming {
    if SentId(m) == [] then n else n[SentId(m)[0] := next]
  }

  /** Every request the phase speaks of has its name. */
  predicate Knows(n: Renaming, p: Phase) {
    match p
    case Opening(r) => r in n
    case Sending(_, ids) => forall r <- ids :: r in n
    case AwaitAck(_, ids, _) => forall r <- ids :: r in n
    case Resuming(_, r) => r.Some? ==> r.value in n
    case Loading(_, _, _, r) => r.Some? ==> r.value in n
    case Idle => true
    case Gone => true
  }

  /** Different requests have different names, which are positions before `next`. */
  ghost predicate IsNaming(n: Renaming, next: RequestId) {
    && (forall a <- n :: n[a] < next)
    && forall a <- n, b <- n :: n[a] == n[b] ==> a == b
  }

  lemma {:induction false} ExtendedKeepsAll(n: Renaming, more: Renaming, ids: seq<RequestId>)
    requires (forall r <- ids :: r in n) && forall r <- n :: r in more && more[r] == n[r]
    ensures ToAll(more, ids) == ToAll(n, ids)
  {
    forall i | 0 <= i < |ids| ensures To(more, ids[i]) == To(n, ids[i]) { assert ids[i] in n; }
  }

  // ---------------------------------------------------------------------------------------------------------------
  // Moves commute with renaming
  // ---------------------------------------------------------------------------------------------------------------

  ghost predicate Commutes(n: Renaming, openRid: RequestId, cl: Client, m: Move, next: RequestId)
    requires Legal(cl, m)
  {
    var more, renamed := Extended(n, m, next), RenamedMove(n, m, next);
    && Legal(Renamed(n, openRid, cl), renamed)
    && Moved(Renamed(n, openRid, cl), renamed) == Renamed(more, openRid, Moved(cl, m))
    && Knows(more, Moved(cl, m).phase)
  }

  lemma {:induction false} SendCommutes(n: Renaming, openRid: RequestId, cl: Client, m: Move, next: RequestId)
    requires Legal(cl, m) && Knows(n, cl.phase) && |SentId(m)| == 1 && SentId(m)[0] !in n
    ensures Commutes(n, openRid, cl, m, next)
  {
    if m.SentPart? {
      var ids, more := cl.phase.ids, Extended(n, m, next);
      ExtendedKeepsAll(n, more, ids);
      assert ToAll(more, ids + [m.part]) == ToAll(n, ids) + [next];
    }
  }

  /** Only the request that was asked last is the last one under its new name, too. */
  lemma {:induction false} SameRequest(n: Renaming, next: RequestId, ids: seq<RequestId>, rid: RequestId)
    requires IsNaming(n, next) && (forall r <- ids :: r in n) && rid in n
    ensures rid in ids <==> To(n, rid) in ToAll(n, ids)
    ensures ids != [] ==> (rid == ids[|ids| - 1] <==> To(n, rid) == ToAll(n, ids)[|ids| - 1])
  {
    if rid in ids {
      var i :| 0 <= i < |ids| && ids[i] == rid;
      assert ToAll(n, ids)[i] == To(n, rid);
    }
    if To(n, rid) in ToAll(n, ids) {
      var i :| 0 <= i < |ids| && ToAll(n, ids)[i] == To(n, rid);
      assert ids[i] in ids;
    }
    if ids != [] { assert ids[|ids| - 1] in ids; }
  }

  lemma {:induction false} RefusalCommutes(n: Renaming, o: RequestId, cl: Client, id: CommitId, code: Code, late: bool,
                                           renew: bool)
    ensures OnRefusal(Renamed(n, o, cl), id, code, late, renew) == Renamed(n, o, OnRefusal(cl, id, code, late, renew))
    ensures Knows(n, OnRefusal(cl, id, code, late, renew).phase)
  {
    assert ToAll(n, []) == [];
  }

  lemma {:induction false} ResumeErrorCommutes(n: Renaming, o: RequestId, cl: Client, why: Why, code: Code, late: bool)
    ensures OnResumeError(Renamed(n, o, cl), why, code, late) == Renamed(n, o, OnResumeError(cl, why, code, late))
    ensures OnResumeLost(Renamed(n, o, cl), why, late) == Renamed(n, o, OnResumeLost(cl, why, late))
    ensures Knows(n, OnResumeError(cl, why, code, late).phase) && Knows(n, OnResumeLost(cl, why, late).phase)
  {
  }

  lemma {:induction false} FillCommutes(n: Renaming, o: RequestId, cl: Client, purpose: Purpose, count: nat,
                                        failed: bool)
    requires !purpose.ForRead?
    ensures Fill(Renamed(n, o, cl), purpose, count, failed) == Renamed(n, o, Fill(cl, purpose, count, failed))
    ensures Knows(n, Fill(cl, purpose, count, failed).phase)
  {
  }

  lemma {:induction false} ResumedCommutes(n: Renaming, o: RequestId, cl: Client, why: Why, a: Answer, late: bool,
                                           renew: bool)
    requires a.Opened?
    ensures var next := OnResumed(cl, why, a.version, a.count, a.lastId, late, renew);
            && OnResumed(Renamed(n, o, cl), why, a.version, a.count, a.lastId, late, renew) == Renamed(n, o, next)
            && Knows(n, next.phase)
  {
    assert ToAll(n, []) == [];
    if why.Healing? { FillCommutes(n, o, cl.(version := a.version, pending := None), ForHeal, a.count, late); }
  }

  lemma {:induction false} LoadCommutes(n: Renaming, o: RequestId, cl: Client, purpose: Purpose, first: nat,
                                        blocks: seq<Block>, code: Code)
    ensures OnLoaded(Renamed(n, o, cl), purpose, first, blocks) == Renamed(n, o, OnLoaded(cl, purpose, first, blocks))
    ensures OnLoadError(Renamed(n, o, cl), purpose, code) == Renamed(n, o, OnLoadError(cl, purpose, code))
    ensures OnLoadLost(Renamed(n, o, cl), purpose) == Renamed(n, o, OnLoadLost(cl, purpose))
    ensures Knows(n, OnLoaded(cl, purpose, first, blocks).phase)
    ensures Knows(n, OnLoadError(cl, purpose, code).phase) && Knows(n, OnLoadLost(cl, purpose).phase)
  {
  }

  lemma {:induction false} AwaitCommutes(n: Renaming, o: RequestId, cl: Client, id: CommitId, ids: seq<RequestId>,
                                         refusal: Option<Code>, rid: RequestId, a: Answer, late: bool, renew: bool)
    requires ids != [] && (forall r <- ids :: r in n)
    requires rid == ids[|ids| - 1] <==> To(n, rid) == ToAll(n, ids)[|ids| - 1]
    ensures var next := OnAwaitAck(cl, id, ids, refusal, rid, a, late, renew);
            && Renamed(n, o, next) ==
               OnAwaitAck(Renamed(n, o, cl), id, ToAll(n, ids), refusal, To(n, rid), a, late, renew)
            && Knows(n, next.phase)
  {
    if a.Error? { RefusalCommutes(n, o, cl, id, if refusal.Some? then refusal.value else a.code, late, renew); }
    if a.Ack? && refusal.Some? { RefusalCommutes(n, o, cl, id, refusal.value, late, renew); }
  }

  lemma {:induction false} AckCommutes(n: Renaming, o: RequestId, cl: Client, m: Move, next: RequestId)
    requires IsNaming(n, next) && Knows(n, cl.phase) && m.Took? && Legal(cl, m) && cl.phase.AwaitAck?
    ensures Commutes(n, o, cl, m, next)
  {
    SameRequest(n, next, cl.phase.ids, m.rid);
    AwaitCommutes(n, o, cl, cl.phase.id, cl.phase.ids, cl.phase.refusal, m.rid, m.a, m.late, m.renew);
  }

  lemma {:induction false} ResumeCommutes(n: Renaming, o: RequestId, cl: Client, m: Move, next: RequestId)
    requires Knows(n, cl.phase) && m.Took? && Legal(cl, m) && cl.phase.Resuming?
    ensures Commutes(n, o, cl, m, next)
  {
    if m.a.Opened? { ResumedCommutes(n, o, cl, cl.phase.why, m.a, m.late, m.renew); }
    ResumeErrorCommutes(n, o, cl, cl.phase.why, if m.a.Error? then m.a.code else OtherCode, m.late);
  }

  lemma {:induction false} OpenCommutes(n: Renaming, o: RequestId, cl: Client, m: Move, next: RequestId)
    requires Knows(n, cl.phase) && m.Took? && Legal(cl, m) && cl.phase.Opening?
    ensures Commutes(n, o, cl, m, next)
  {
    if m.a.Opened? {
      FillCommutes(n, o, cl.(epoch := m.a.epoch, version := m.a.version), ForOpen, m.a.count, m.late);
    }
  }

  lemma {:induction false} LoadedCommutes(n: Renaming, o: RequestId, cl: Client, m: Move, next: RequestId)
    requires Knows(n, cl.phase) && m.Took? && Legal(cl, m) && cl.phase.Loading?
    ensures Commutes(n, o, cl, m, next)
  {
    LoadCommutes(n, o, cl, cl.phase.purpose, cl.phase.first, if m.a.Pages? then m.a.blocks else [],
                 if m.a.Error? then m.a.code else OtherCode);
  }

  lemma {:induction false} LostCommutes(n: Renaming, o: RequestId, cl: Client, m: Move, next: RequestId)
    requires Knows(n, cl.phase) && m.LostLink?
    ensures Commutes(n, o, cl, m, next)
  {
    if cl.phase.Resuming? { ResumeErrorCommutes(n, o, cl, cl.phase.why, OtherCode, m.isLate); }
    if cl.phase.Loading? { LoadCommutes(n, o, cl, cl.phase.purpose, 0, [], OtherCode); }
  }

  lemma {:induction false} MoveCommutes(n: Renaming, openRid: RequestId, cl: Client, m: Move, next: RequestId)
    requires IsNaming(n, next) && Knows(n, cl.phase) && Legal(cl, m) && forall r <- SentId(m) :: r !in n
    ensures Commutes(n, openRid, cl, m, next) && IsNaming(Extended(n, m, next), next + 1)
  {
    if |SentId(m)| == 1 { SendCommutes(n, openRid, cl, m, next); }
    else if m.Took? && cl.phase.AwaitAck? { AckCommutes(n, openRid, cl, m, next); }
    else if m.Took? && cl.phase.Resuming? { ResumeCommutes(n, openRid, cl, m, next); }
    else if m.Took? && cl.phase.Loading? { LoadedCommutes(n, openRid, cl, m, next); }
    else if m.Took? { OpenCommutes(n, openRid, cl, m, next); }
    else if m.LostLink? { LostCommutes(n, openRid, cl, m, next); }
  }

  // ---------------------------------------------------------------------------------------------------------------
  // A move is a step
  // ---------------------------------------------------------------------------------------------------------------

  /** The step a move of session `c` is. */
  function StepOf(c: SessionId, m: Move): Step {
    match m
    case SentPart(_, _) => SendPart(c)
    case SentResume(_) => SendResume(c)
    case SentLoad(_) => SendFetch(c)
    case Took(rid, a, late, renew) => Receive(c, rid, a, late, renew)
    case LostLink(late) => LoseConnection(c, late)
    case Noted(epoch) => NoteRevoked(c, epoch)
  }

  /**
   * What a move needs of the world: a frame gets the next position as its id, the parts are those of the call, an
   * answer was given, and a revocation names an epoch the server has granted.
   */
  predicate WorldAllows(s: State, c: SessionId, m: Move) {
    match m
    case SentPart(rid, of) =>
      rid == |s.w.sent| && CanSendPart(s, c) && of == |s.w.calls[s.clients[c].phase.id].parts|
    case SentResume(rid) => rid == |s.w.sent|
    case SentLoad(rid) => rid == |s.w.sent|
    case Took(rid, a, _, _) => Reply(rid, a) in s.answers
    case LostLink(_) => true
    case Noted(epoch) => epoch <= s.w.srv.epoch
  }

  lemma {:induction false} MoveIsAStep(s: State, c: SessionId, m: Move)
    requires c in s.clients && Legal(s.clients[c], m) && WorldAllows(s, c, m)
    ensures Enabled(s, StepOf(c, m)) && Next(s, StepOf(c, m)).clients == s.clients[c := Moved(s.clients[c], m)]
    ensures |Next(s, StepOf(c, m)).w.sent| == |s.w.sent| + |SentId(m)| && Next(s, StepOf(c, m)).w.calls == s.w.calls
  {
  }

  // ---------------------------------------------------------------------------------------------------------------
  // Whole calls
  // ---------------------------------------------------------------------------------------------------------------

  /** What happens while a call runs: a move of its session, or a step of the server or of another session. */
  datatype Item = Own(move: Move) | Other(step: Step)

  function OwnMoves(items: seq<Item>): seq<Move> {
    if items == [] then [] else (if items[0].Own? then [items[0].move] else []) + OwnMoves(items[1..])
  }

  predicate IsStepOf(step: Step, c: SessionId) { IsSessionStep(step) && step.c == c }

  /** An answer is one the server gave to this request, and a revocation is a real one. */
  predicate IsHonest(s: State, n: Renaming, m: Move) {
    match m
    case Took(rid, a, _, _) => Reply(To(n, rid), a) in s.answers
    case Noted(epoch) => epoch <= s.w.srv.epoch
    case _ => true
  }

  function Try(s: State, step: Step): State { if Enabled(s, step) then Next(s, step) else s }

  /** The world plays along: its own steps are possible, and what it tells the session is true. */
  ghost predicate Plays(s: State, c: SessionId, n: Renaming, items: seq<Item>)
    decreases |items|
  {
    items == [] ||
    match items[0]
    case Own(m) =>
      var next := |s.w.sent|;
      && IsHonest(s, n, m)
      && Plays(Try(s, StepOf(c, RenamedMove(n, m, next))), c, Extended(n, m, next), items[1..])
    case Other(step) => Enabled(s, step) && !IsStepOf(step, c) && Plays(Next(s, step), c, n, items[1..])
  }

  /** The state in the end. */
  ghost function Played(s: State, c: SessionId, n: Renaming, items: seq<Item>): State
    decreases |items|
  {
    if items == [] then s
    else
      match items[0]
      case Own(m) =>
        var next := |s.w.sent|;
        Played(Try(s, StepOf(c, RenamedMove(n, m, next))), c, Extended(n, m, next), items[1..])
      case Other(step) => Played(Try(s, step), c, n, items[1..])
  }

  /** The commit a phase is about. */
  function CommitOf(p: Phase): Option<CommitId> {
    match p
    case Sending(id, _) => Some(id)
    case AwaitAck(id, _, _) => Some(id)
    case Resuming(TopOfLoop(id), _) => Some(id)
    case Resuming(AfterBreak(id), _) => Some(id)
    case _ => None
  }

  /** The commit the phase is about was called with this many parts. */
  ghost predicate CalledWith(w: World, p: Phase, parts: nat) {
    var id := CommitOf(p);
    id.Some? ==> id.value in w.calls && |w.calls[id.value].parts| == parts
  }

  predicate SameCall(p: Phase, q: Phase) { CommitOf(q).None? || CommitOf(q) == CommitOf(p) }

  lemma {:induction false} ReactKeepsCall(cl: Client, m: Move)
    requires m.Took? && Legal(cl, m)
    ensures SameCall(cl.phase, Moved(cl, m).phase)
  {
    match cl.phase
    case AwaitAck(id, ids, refusal) => AwaitKeepsCall(cl, id, ids, refusal, m.rid, m.a, m.late, m.renew);
    case Resuming(why, _) => if m.a.Opened? { ResumedKeepsCall(cl, why, m.a, m.late, m.renew); }
    case _ =>
  }

  lemma {:induction false} AwaitKeepsCall(cl: Client, id: CommitId, ids: seq<RequestId>, refusal: Option<Code>,
                                          rid: RequestId, a: Answer, late: bool, renew: bool)
    requires ids != []
    ensures SameCall(AwaitAck(id, ids, refusal), OnAwaitAck(cl, id, ids, refusal, rid, a, late, renew).phase)
  {
  }

  lemma {:induction false} ResumedKeepsCall(cl: Client, why: Why, a: Answer, late: bool, renew: bool)
    requires a.Opened?
    ensures SameCall(Resuming(why, None), OnResumed(cl, why, a.version, a.count, a.lastId, late, renew).phase)
  {
  }

  lemma {:induction false} MoveKeepsCall(cl: Client, m: Move)
    requires Legal(cl, m)
    ensures SameCall(cl.phase, Moved(cl, m).phase)
  {
    if m.Took? { ReactKeepsCall(cl, m); }
  }

  /** The protocol has the session as `cl`, under the names of `n`. */
  ghost predicate Stands(s: State, c: SessionId, n: Renaming, cl: Client, parts: nat, newest: nat) {
    && Reachable(s) && c in s.clients && s.clients[c] == Renamed(n, s.clients[c].openRid, cl)
    && IsNaming(n, |s.w.sent|) && Knows(n, cl.phase) && CalledWith(s.w, cl.phase, parts)
    && forall r <- n :: r <= newest
  }

  /** A session that is sending has parts left to send. */
  lemma {:induction false} PartsAreLeft(s: State, c: SessionId)
    requires Reachable(s) && c in s.clients && s.clients[c].phase.Sending?
    ensures CanSendPart(s, c)
  {
    ReachableIsOk(s);
    assert ClientOk(s.w, c, s.clients[c]);
  }

  lemma {:induction false} OwnMoveIsAStep(s: State, c: SessionId, n: Renaming, cl: Client, m: Move, parts: nat,
                                          newest: nat, newer: nat) returns (t: State)
    requires Stands(s, c, n, cl, parts, newest) && Legal(cl, m) && IsHonest(s, n, m) && Rising(SentId(m), newest, newer)
    requires m.SentPart? ==> m.of == parts
    ensures var step := StepOf(c, RenamedMove(n, m, |s.w.sent|)); Enabled(s, step) && t == Next(s, step)
    ensures Stands(t, c, Extended(n, m, |s.w.sent|), Moved(cl, m), parts, newer)
  {
    var next, o := |s.w.sent|, s.clients[c].openRid;
    var renamed := RenamedMove(n, m, next);
    forall r <- SentId(m) ensures r !in n { }
    MoveCommutes(n, o, cl, m, next);
    if m.SentPart? { PartsAreLeft(s, c); }
    MoveIsAStep(s, c, renamed);
    t := Next(s, StepOf(c, renamed));
    ReachableStep(s, StepOf(c, renamed));
    MoveKeepsCall(cl, m);
  }

  lemma {:induction false} OtherStepKeepsSession(s: State, c: SessionId, n: Renaming, cl: Client, step: Step,
                                                 parts: nat, newest: nat)
    requires Stands(s, c, n, cl, parts, newest) && Enabled(s, step) && !IsStepOf(step, c)
    ensures Stands(Next(s, step), c, n, cl, parts, newest)
  {
    ReachableStep(s, step);
    StepGrowsReachably(s, step);
    OtherSessionStays(s, step, c);
  }

  /** The moves lead to `end`, number what they send upwards, and send parts of a commit of `parts` parts. */
  ghost predicate IsCall(cl: Client, newest: nat, moves: seq<Move>, end: Client, last: nat, parts: nat) {
    Makes(cl, newest, moves, end, last) && forall m <- moves :: m.SentPart? ==> m.of == parts
  }

  lemma {:induction false} CallAfterMove(cl: Client, newest: nat, m: Move, rest: seq<Move>, end: Client, last: nat,
                                         parts: nat) returns (newer: nat)
    requires IsCall(cl, newest, [m] + rest, end, last, parts)
    ensures Legal(cl, m) && (m.SentPart? ==> m.of == parts) && Rising(SentId(m), newest, newer)
    ensures IsCall(Moved(cl, m), newer, rest, end, last, parts)
  {
    assert ([m] + rest)[1..] == rest && m in [m] + rest;
    var ids := SentIds([m] + rest);
    assert ids == SentId(m) + SentIds(rest);
    newer := if SentId(m) == [] then newest else ids[0];
    RisingSplits(SentId(m), SentIds(rest), newest, last);
  }

  lemma {:induction false} RisingSplits(a: seq<RequestId>, b: seq<RequestId>, from: nat, to: nat)
    requires |a| <= 1 && Rising(a + b, from, to)
    ensures var mid := if a == [] then from else (a + b)[0]; Rising(a, from, mid) && Rising(b, mid, to)
  {
    forall i | 0 <= i < |b| ensures b[i] == (a + b)[|a| + i] { }
  }

  /** One thing that happens is one step. */
  lemma {:induction false} ItemIsAStep(s: State, c: SessionId, n: Renaming, cl: Client, newest: nat, items: seq<Item>,
                                       end: Client, last: nat, parts: nat)
    returns (step: Step, names: Renaming, next: Client, newer: nat)
    requires Stands(s, c, n, cl, parts, newest) && items != [] && Plays(s, c, n, items)
    requires IsCall(cl, newest, OwnMoves(items), end, last, parts)
    ensures Enabled(s, step) && Stands(Next(s, step), c, names, next, parts, newer)
    ensures Plays(Next(s, step), c, names, items[1..])
    ensures Played(Next(s, step), c, names, items[1..]) == Played(s, c, n, items)
    ensures IsCall(next, newer, OwnMoves(items[1..]), end, last, parts)
  {
    if items[0].Own? {
      var m := items[0].move;
      newer := CallAfterMove(cl, newest, m, OwnMoves(items[1..]), end, last, parts);
      var _ := OwnMoveIsAStep(s, c, n, cl, m, parts, newest, newer);
      step, names, next := StepOf(c, RenamedMove(n, m, |s.w.sent|)), Extended(n, m, |s.w.sent|), Moved(cl, m);
    } else {
      step, names, next, newer := items[0].step, n, cl, newest;
      OtherStepKeepsSession(s, c, n, cl, step, parts, newest);
      assert OwnMoves(items) == OwnMoves(items[1..]);
    }
  }

  /** A call of a session, whatever the others do meanwhile, is a run of the protocol. */
  lemma {:induction false} CallIsARun(s: State, c: SessionId, n: Renaming, cl: Client, newest: nat, items: seq<Item>,
                                      end: Client, last: nat, parts: nat) returns (steps: seq<Step>, names: Renaming)
    requires Stands(s, c, n, cl, parts, newest) && Plays(s, c, n, items)
    requires IsCall(cl, newest, OwnMoves(items), end, last, parts)
    ensures IsRun(s, steps) && After(s, steps) == Played(s, c, n, items)
    ensures Stands(Played(s, c, n, items), c, names, end, parts, last)
    decreases |items|
  {
    if items == [] {
      steps, names := [], n;
      EndsHere(s, c, n, cl, newest, last, parts);
    } else {
      var step, more, next, newer := ItemIsAStep(s, c, n, cl, newest, items, end, last, parts);
      steps, names := CallIsARun(Next(s, step), c, more, next, newer, items[1..], end, last, parts);
      RunStarts(s, step, steps);
      steps := [step] + steps;
    }
  }

  lemma {:induction false} EndsHere(s: State, c: SessionId, n: Renaming, cl: Client, newest: nat, last: nat, parts: nat)
    requires Stands(s, c, n, cl, parts, newest) && newest <= last
    ensures Stands(s, c, n, cl, parts, last)
  {
  }

  lemma {:induction false} RunStarts(s: State, step: Step, rest: seq<Step>)
    requires Enabled(s, step) && IsRun(Next(s, step), rest)
    ensures IsRun(s, [step] + rest) && After(s, [step] + rest) == After(Next(s, step), rest)
  {
    assert ([step] + rest)[1..] == rest;
  }
}
