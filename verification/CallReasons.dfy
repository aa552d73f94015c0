/**
 * Why a call ends as it does. Every move of a commit or a heal has its reason in what happened on the connection, and
 * so has the state it leaves the database in: it is not broken if server, network and clock let it work.
 */
module CallReasons {
  import opened Common
  import opened Session
  import opened SessionMoves
  import opened Link

  // ---------------------------------------------------------------------------------------------------------------
  // What happened
  // ---------------------------------------------------------------------------------------------------------------

  /** At some point the connection failed its user. */
  ghost predicate BrokeDown(log: seq<Event>, before: nat) {
    exists n :: before < n <= |log| && Failed(log[..n], before)
  }

  /** A request was answered so. */
  ghost predicate GotReply(log: seq<Event>, before: nat, what: Ask, rid: RequestId, a: Answer) {
    Happened(log, before, Asked(rid, what)) && Happened(log, before, Arrived(Frame(rid, Reply(a))))
  }

  /** A login or a request for the lease was answered so. */
  ghost predicate GotLease(log: seq<Event>, before: nat, rid: RequestId, a: Answer) {
    GotReply(log, before, LeaseAsk, rid, a) || GotReply(log, before, LoginAsk, rid, a)
  }

  ghost predicate PartRefused(log: seq<Event>, before: nat, code: Code) {
    exists rid :: GotReply(log, before, PartAsk, rid, Error(code))
  }

  ghost predicate LeaseRefused(log: seq<Event>, before: nat, code: Code) {
    exists rid :: GotLease(log, before, rid, Error(code))
  }

  ghost predicate LoadRefused(log: seq<Event>, before: nat, code: Code) {
    exists rid :: GotReply(log, before, LoadAsk, rid, Error(code))
  }

  /** The server named another version, where `applied` is the commit that may have made the next one. */
  ghost predicate NamedOther(log: seq<Event>, before: nat, version: nat, applied: Option<CommitId>) {
    exists rid, a :: GotLease(log, before, rid, a) && IsOther(a, version, applied)
  }

  predicate IsOther(a: Answer, version: nat, applied: Option<CommitId>) {
    a.Opened? && a.version != version && (applied.Some? ==> a.version != version + 1 || a.lastId != applied)
  }

  lemma {:induction false} HappenedStill(log: seq<Event>, longer: seq<Event>, before: nat, e: Event)
    requires log <= longer && Happened(log, before, e)
    ensures Happened(longer, before, e)
  {
    var i :| before <= i < |log| && log[i] == e;
    assert longer[i] == e;
  }

  lemma {:induction false} LossIsABreak(late: bool, cl: Client, before: nat, was: seq<Event>, log: seq<Event>)
    requires was <= log && Justified(cl, LostLink(late), before, was)
    ensures BrokeDown(log, before) && (late ==> Happened(log, before, Clock(true)))
  {
    var n := if Failed(was, before) then |was| else |was| - 1;
    assert log[..n] == was[..n];
    assert was[..|was|] == was;
    assert Failed(log[..n], before);
    if late { assert log[|was| - 1] == Clock(true); }
  }

  /** What happened was in store. */
  lemma {:induction false} HappenedFromStore(a: Store, before: nat, b: Store, log: seq<Event>, e: Event)
    requires Told(a, before, b, log) && Happened(log, before, e)
    ensures Explained(e, a, b)
  {
    var i :| before <= i < |log| && log[i] == e;
    assert ExplainedAt(log, i, a, b);
  }

  /** So was every break: a fault of a send or of dialling, a cut, the end of what arrives, or a frame without use. */
  lemma {:induction false} BreakFromStore(a: Store, before: nat, b: Store, log: seq<Event>)
    requires Told(a, before, b, log) && BrokeDown(log, before)
    ensures || MayBeDown(a, b) || IsUsed(a.dialFaults, b.dialFaults, true)
            || (exists x :: IsUsed(a.incoming, b.incoming, x) && (!x.Frame? || IsUnusable(log, x)))
  {
    var n :| before < n <= |log| && Failed(log[..n], before);
    var e := log[n - 1];
    assert log[..n][n - 1] == e;
    assert ExplainedAt(log, n - 1, a, b);
    if e.Arrived? && IsUnusable(log[..n], e.x) { UnusableStill(log[..n], log, e.x); }
  }

  lemma {:induction false} UnusableStill(log: seq<Event>, longer: seq<Event>, x: Incoming)
    requires log <= longer && IsUnusable(log, x)
    ensures IsUnusable(longer, x)
  {
    var what :| Asked(x.rid, what) in log && if what.LoginAsk? then !x.body.Welcome? else !x.body.Reply?;
    assert Asked(x.rid, what) in longer;
  }

  // ---------------------------------------------------------------------------------------------------------------
  // A commit
  // ---------------------------------------------------------------------------------------------------------------

  /** An answer to a login or a request for the lease that is of no use, but does not say that the lease is lost. */
  predicate IsUseless(a: Answer) {
    !a.Opened? && (a.Error? ==> !a.code.FencedCode? && !a.code.SlotTaken? && !a.code.AccessDenied?)
  }

  ghost predicate GotUseless(log: seq<Event>, before: nat) {
    exists rid, a :: GotLease(log, before, rid, a) && IsUseless(a)
  }

  /** What must have happened if a commit leaves the database broken for reason `b`. */
  ghost predicate CommitReason(b: Broken, version: nat, before: nat, log: seq<Event>) {
    match b
    case Fenced =>
      || PartRefused(log, before, FencedCode) || PartRefused(log, before, SlotTaken)
      || LeaseRefused(log, before, FencedCode) || LeaseRefused(log, before, SlotTaken)
    case Denied => LeaseRefused(log, before, AccessDenied)
    case Refused =>
      || PartRefused(log, before, AccessDenied) || PartRefused(log, before, VersionConflict)
      || PartRefused(log, before, BadRequest) || PartRefused(log, before, OtherCode)
    case Diverged => NamedOther(log, before, version, None)
    case Uncertain =>
      && Happened(log, before, Clock(true))
      && (BrokeDown(log, before) || GotUseless(log, before) ||
          PartRefused(log, before, Internal) || PartRefused(log, before, RateLimited))
  }

  predicate Commits(p: Phase) {
    p.Sending? || (p.AwaitAck? && p.ids != []) || (p.Resuming? && (p.why.TopOfLoop? || p.why.AfterBreak?))
  }

  /** What a commit waits for was asked for, and what it remembers was said. */
  ghost predicate Recorded(p: Phase, before: nat, log: seq<Event>) {
    match p
    case Sending(_, ids) => forall rid <- ids :: Happened(log, before, Asked(rid, PartAsk))
    case AwaitAck(_, ids, refusal) =>
      && (forall rid <- ids :: Happened(log, before, Asked(rid, PartAsk)))
      && (refusal.Some? ==> PartRefused(log, before, refusal.value))
    case Resuming(_, r) => r.Some? ==> WasAsked(p, r.value, before, log)
    case Loading(_, _, _, r) => r.Some? ==> WasAsked(p, r.value, before, log)
    case _ => true
  }

  ghost predicate WasAsked(p: Phase, rid: RequestId, before: nat, log: seq<Event>) {
    if p.Loading? then Happened(log, before, Asked(rid, LoadAsk))
    else Happened(log, before, Asked(rid, LeaseAsk)) || Happened(log, before, Asked(rid, LoginAsk))
  }

  /** The commit goes on, or it is over for a reason. */
  ghost predicate CommitSound(cl: Client, version: nat, before: nat, log: seq<Event>) {
    if cl.phase.Idle? then cl.broken.Some? ==> CommitReason(cl.broken.value, version, before, log)
    else Commits(cl.phase) && cl.broken.None? && cl.version == version && Recorded(cl.phase, before, log)
  }

  lemma {:induction false} RefusalIsSound(cl: Client, id: CommitId, code: Code, late: bool, renew: bool, before: nat,
                                          log: seq<Event>)
    requires cl.broken.None? && PartRefused(log, before, code) && (late ==> Happened(log, before, Clock(true)))
    ensures CommitSound(OnRefusal(cl, id, code, late, renew), cl.version, before, log)
  {
  }

  lemma {:induction false} PartAnswerIsSound(cl: Client, rid: RequestId, a: Answer, late: bool, renew: bool,
                                             before: nat, log: seq<Event>)
    requires cl.phase.AwaitAck? && CommitSound(cl, cl.version, before, log) && Waits(cl, rid)
    requires Happened(log, before, Arrived(Frame(rid, Reply(a)))) && (late ==> Happened(log, before, Clock(true)))
    ensures CommitSound(React(cl, rid, a, late, renew), cl.version, before, log)
  {
    if a.Error? { assert GotReply(log, before, PartAsk, rid, a); }
    var refusal := cl.phase.refusal;
    if refusal.Some? || a.Error? {
      RefusalIsSound(cl, cl.phase.id, if refusal.Some? then refusal.value else a.code, late, renew, before, log);
    }
  }

  lemma {:induction false} LeaseAnswerIsSound(cl: Client, rid: RequestId, a: Answer, late: bool, renew: bool,
                                              before: nat, log: seq<Event>)
    requires cl.phase.Resuming? && CommitSound(cl, cl.version, before, log) && Waits(cl, rid)
    requires Happened(log, before, Arrived(Frame(rid, Reply(a)))) && (late ==> Happened(log, before, Clock(true)))
    ensures CommitSound(React(cl, rid, a, late, renew), cl.version, before, log)
  {
    assert GotLease(log, before, rid, a);
    if IsUseless(a) { assert GotUseless(log, before); }
    if IsOther(a, cl.version, None) { assert NamedOther(log, before, cl.version, None); }
  }

  lemma {:induction false} SendIsSound(cl: Client, m: Move, before: nat, log: seq<Event>)
    requires Commits(cl.phase) && CommitSound(cl, cl.version, before, log) && Legal(cl, m)
    requires m.SentPart? ==> Happened(log, before, Asked(m.part, PartAsk))
    requires m.SentResume? ==> WasAsked(cl.phase, m.resume, before, log)
    requires m.SentPart? || m.SentResume?
    ensures CommitSound(Moved(cl, m), cl.version, before, log)
  {
  }

  /** One move of a commit. */
  lemma {:induction false} CommitMoveIsSound(cl: Client, m: Move, version: nat, before: nat, was: seq<Event>,
                                             log: seq<Event>)
    requires CommitSound(cl, version, before, log) && Legal(cl, m) && was <= log && Justified(cl, m, before, was)
    ensures CommitSound(Moved(cl, m), version, before, log)
  {
    match m
    case SentPart(rid, _) =>
      HappenedStill(was, log, before, Asked(rid, PartAsk));
      SendIsSound(cl, m, before, log);
    case SentResume(rid) =>
      var what := if Happened(was, before, Asked(rid, LeaseAsk)) then LeaseAsk else LoginAsk;
      HappenedStill(was, log, before, Asked(rid, what));
      SendIsSound(cl, m, before, log);
    case SentLoad(_) =>
    case Took(rid, a, late, renew) =>
      HappenedStill(was, log, before, Arrived(Frame(rid, Reply(a))));
      if late { HappenedStill(was, log, before, Clock(true)); }
      if cl.phase.AwaitAck? { PartAnswerIsSound(cl, rid, a, late, renew, before, log); }
      else { LeaseAnswerIsSound(cl, rid, a, late, renew, before, log); }
    case LostLink(late) => LossIsABreak(late, cl, before, was, log);
    case Noted(_) =>
  }

  lemma {:induction false} CommitIsSound(t: Trace, cl: Client, newest: nat, log: seq<Event>, n: nat)
    requires Follows(t, cl, newest, log) && n <= |t.steps| && CommitSound(t.start, t.start.version, t.before, log)
    ensures CommitSound(ClientAt(t, n), t.start.version, t.before, log)
  {
    if n > 0 {
      CommitIsSound(t, cl, newest, log, n - 1);
      assert StepHolds(t, n - 1, log);
      var s := t.steps[n - 1];
      CommitMoveIsSound(ClientAt(t, n - 1), s.move, t.start.version, t.before, s.log, log);
    }
  }

  /** A commit that leaves the database broken had a reason, and uncertain only after a deadline. */
  lemma {:induction false} CommitHasReason(t: Trace, cl: Client, newest: nat, log: seq<Event>)
    requires Follows(t, cl, newest, log) && Commits(t.start.phase) && t.start.broken.None? && cl.phase.Idle?
    requires t.start.phase.Sending? ==> t.start.phase.ids == []
    requires t.start.phase.Resuming? ==> t.start.phase.resumeId.None?
    requires !t.start.phase.AwaitAck?
    ensures cl.broken.Some? ==> CommitReason(cl.broken.value, t.start.version, t.before, log)
  {
    CommitIsSound(t, cl, newest, log, |t.steps|);
  }

  // ---------------------------------------------------------------------------------------------------------------
  // A heal
  // ---------------------------------------------------------------------------------------------------------------

  /** The server refused the lease or the blocks of a heal. */
  ghost predicate HealRefused(log: seq<Event>, before: nat, code: Code) {
    LeaseRefused(log, before, code) || LoadRefused(log, before, code)
  }

  /** The file was said to have `count` blocks. */
  ghost predicate NamedCount(log: seq<Event>, before: nat, count: nat) {
    exists rid, a :: GotLease(log, before, rid, a) && a.Opened? && a.count == count
  }

  predicate IsOdd(a: Answer) { a.Ack? || a.Pages? }

  /** A request for the lease was answered with something else, or one for the blocks with anything but these blocks. */
  ghost predicate GotOdd(log: seq<Event>, before: nat) {
    || (exists rid, a :: GotLease(log, before, rid, a) && IsOdd(a))
    || (exists rid, a, count :: GotReply(log, before, LoadAsk, rid, a) && IsWrong(a, count) &&
                                NamedCount(log, before, count))
  }

  predicate IsWrong(a: Answer, count: nat) { !a.Error? && !(a.Pages? && |a.blocks| == count) }

  /** What must have happened if a heal leaves the database broken for reason `b`. */
  ghost predicate HealReason(b: Broken, version: nat, pending: Option<CommitId>, before: nat, log: seq<Event>) {
    match b
    case Fenced => HealRefused(log, before, FencedCode) || HealRefused(log, before, SlotTaken)
    case Denied => HealRefused(log, before, AccessDenied)
    case Refused =>
      || HealRefused(log, before, VersionConflict) || HealRefused(log, before, BadRequest)
      || HealRefused(log, before, OtherCode)
    case Diverged => NamedOther(log, before, version, pending)
    case Uncertain =>
      || BrokeDown(log, before) || HealRefused(log, before, Internal) || HealRefused(log, before, RateLimited)
      || Happened(log, before, CopyCheck(true)) || GotOdd(log, before)
  }

  /** The heal goes on, or it is over: the database works, or there is a reason why it does not. */
  ghost predicate HealSound(cl: Client, version: nat, pending: Option<CommitId>, before: nat, log: seq<Event>) {
    if cl.phase.Idle? then cl.broken.Some? ==> HealReason(cl.broken.value, version, pending, before, log)
    else
      && Heals(cl.phase) && Recorded(cl.phase, before, log)
      && (cl.phase.Resuming? ==> cl.version == version && cl.pending == pending)
      && (cl.phase.Loading? ==> NamedCount(log, before, cl.phase.count))
  }

  lemma {:induction false} HealLeaseIsSound(cl: Client, rid: RequestId, a: Answer, late: bool, renew: bool, before: nat,
                                            log: seq<Event>)
    requires cl.phase.Resuming? && HealSound(cl, cl.version, cl.pending, before, log) && Waits(cl, rid)
    requires Happened(log, before, Arrived(Frame(rid, Reply(a)))) && (late ==> Happened(log, before, CopyCheck(true)))
    ensures HealSound(React(cl, rid, a, late, renew), cl.version, cl.pending, before, log)
  {
    assert GotLease(log, before, rid, a);
    if a.Error? { assert LeaseRefused(log, before, a.code); }
    if IsOdd(a) { assert GotOdd(log, before); }
    if IsOther(a, cl.version, cl.pending) { assert NamedOther(log, before, cl.version, cl.pending); }
    if a.Opened? { assert NamedCount(log, before, a.count); }
  }

  lemma {:induction false} HealLoadIsSound(cl: Client, rid: RequestId, a: Answer, late: bool, renew: bool, version: nat,
                                           pending: Option<CommitId>, before: nat, log: seq<Event>)
    requires cl.phase.Loading? && HealSound(cl, version, pending, before, log) && Waits(cl, rid)
    requires Happened(log, before, Arrived(Frame(rid, Reply(a))))
    ensures HealSound(React(cl, rid, a, late, renew), version, pending, before, log)
  {
    assert GotReply(log, before, LoadAsk, rid, a);
    if a.Error? { assert LoadRefused(log, before, a.code); }
    if IsWrong(a, cl.phase.count) { assert GotOdd(log, before); }
  }

  lemma {:induction false} HealMoveIsSound(cl: Client, m: Move, version: nat, pending: Option<CommitId>, before: nat,
                                           was: seq<Event>, log: seq<Event>)
    requires HealSound(cl, version, pending, before, log) && Legal(cl, m) && was <= log
    requires Justified(cl, m, before, was)
    ensures HealSound(Moved(cl, m), version, pending, before, log)
  {
    match m
    case SentPart(_, _) =>
    case SentResume(rid) =>
      var what := if Happened(was, before, Asked(rid, LeaseAsk)) then LeaseAsk else LoginAsk;
      HappenedStill(was, log, before, Asked(rid, what));
    case SentLoad(rid) => HappenedStill(was, log, before, Asked(rid, LoadAsk));
    case Took(rid, a, late, renew) =>
      HappenedStill(was, log, before, Arrived(Frame(rid, Reply(a))));
      if late { HappenedStill(was, log, before, CopyCheck(true)); }
      if cl.phase.Resuming? { HealLeaseIsSound(cl, rid, a, late, renew, before, log); }
      else { HealLoadIsSound(cl, rid, a, late, renew, version, pending, before, log); }
    case LostLink(late) => LossIsABreak(late, cl, before, was, log);
    case Noted(_) =>
  }

  lemma {:induction false} HealIsSound(t: Trace, cl: Client, newest: nat, log: seq<Event>, n: nat)
    requires Follows(t, cl, newest, log) && n <= |t.steps|
    requires HealSound(t.start, t.start.version, t.start.pending, t.before, log)
    ensures HealSound(ClientAt(t, n), t.start.version, t.start.pending, t.before, log)
  {
    if n > 0 {
      HealIsSound(t, cl, newest, log, n - 1);
      assert StepHolds(t, n - 1, log);
      var s := t.steps[n - 1];
      HealMoveIsSound(ClientAt(t, n - 1), s.move, t.start.version, t.start.pending, t.before, s.log, log);
    }
  }

  /** A heal that does not succeed had a reason. */
  lemma {:induction false} HealHasReason(t: Trace, cl: Client, newest: nat, log: seq<Event>)
    requires Follows(t, cl, newest, log) && t.start.phase == Resuming(Healing, None) && cl.phase.Idle?
    ensures cl.broken.Some? ==> HealReason(cl.broken.value, t.start.version, t.start.pending, t.before, log)
  {
    HealIsSound(t, cl, newest, log, |t.steps|);
  }
}
