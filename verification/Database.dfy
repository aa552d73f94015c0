/**
 * `commit`, `heal` and the resumption of a lease as the loops they are. Each call is shown to make moves of the session
 * and nothing else. Module DatabaseRuns carries over to them what holds of every run of sessions and server.
 */
module Database {
  import opened Common
  import opened Session
  import opened SessionMoves
  import opened Link
  import opened CallReasons

  class Database {
    const link: Link
    const openRid: RequestId
    const preload: bool
    const epoch: nat
    var version: nat
    var pending: Option<CommitId>
    var broken: Option<Broken>
    var mem: Mem
    var login: nat
    ghost var done: seq<CommitId>

    constructor (link: Link, openRid: RequestId, preload: bool, epoch: nat, version: nat, mem: Mem)
      ensures this.link == link && broken.None? && pending.None? && this.version == version && done == []
    {
      this.link, this.openRid, this.preload := link, openRid, preload;
      this.epoch, this.version, this.mem := epoch, version, mem;
      pending, broken, done, login := None, None, [], link.logins;
    }

    /** The session this object stands for, while a call is at `phase`. */
    ghost function Abs(phase: Phase): Client
      reads this, link
    {
      Client(openRid, preload, epoch, version, pending, broken, mem, link.revokedTo, phase, done)
    }

    /** Whether the database is open on a connection that is usable; not once the access token is to be renewed. */
    method OnCurrentConnection(ghost t: Trace, ghost cl: Client, ghost newest: nat) returns (current: bool)
      requires Follows(t, cl, newest, link.log) && Told(t.store, t.before, link.Left(), link.log)
      modifies link`dues, link`log
      ensures current <==> link.connected && old(link.TokenLasts()) && link.logins == login
      ensures Follows(t, cl, newest, link.log) && old(link.log) <= link.log
      ensures Told(t.store, t.before, link.Left(), link.log)
    {
      ghost var log, left := link.log, link.Left();
      var due := link.IsDue();
      FollowsStill(t, cl, newest, log, newest, link.log);
      ToldOn(t.store, t.before, left, log, link.Left(), link.log);
      current := link.connected && !due && link.logins == login;
    }

    /** The session has come to `cl`, and what happened on the way comes from what was in store. */
    ghost predicate On(t: Trace, cl: Client)
      reads link
    {
      Follows(t, cl, link.nextId, link.log) && Told(t.store, t.before, link.Left(), link.log)
    }

    /** Whether the deadline has passed. */
    method IsLate(ghost t: Trace, ghost cl: Client) returns (late: bool)
      requires On(t, cl)
      modifies link`clock, link`log
      ensures On(t, cl) && link.log == old(link.log) + [Clock(late)]
      ensures !late ==> |link.clock| < |old(link.clock)|
    {
      ghost var log, left := link.log, link.Left();
      late := link.IsLate();
      FollowsStill(t, cl, link.nextId, log, link.nextId, link.log);
      ToldOn(t.store, t.before, left, log, link.Left(), link.log);
    }

    /** Whether the check of the local copy fails. */
    method CopyFails(ghost t: Trace, ghost cl: Client) returns (fails: bool)
      requires On(t, cl)
      modifies link`copyFaults, link`log
      ensures On(t, cl) && link.log == old(link.log) + [CopyCheck(fails)] && fails == !old(link.CopyWorks())
    {
      ghost var log, left := link.log, link.Left();
      fails := link.CopyFails();
      FollowsStill(t, cl, link.nextId, log, link.nextId, link.log);
      ToldOn(t.store, t.before, left, log, link.Left(), link.log);
    }

    /** Opens a new connection and sends the login on it. */
    method DialAndSend(ghost t: Trace, ghost cl: Client) returns (rid: Option<RequestId>)
      requires On(t, cl)
      modifies link`connected, link`nextId, link`sendFaults, link`dialFaults, link`log
      ensures Follows(t, cl, old(link.nextId), link.log) && Told(t.store, t.before, link.Left(), link.log)
      ensures old(link.log) <= link.log && link.nextId >= old(link.nextId)
      ensures if rid.Some? then
                && link.connected && rid.value == link.nextId == old(link.nextId) + 1
                && link.log == old(link.log) + [Asked(rid.value, LoginAsk)]
              else Failed(link.log, t.before)
    {
      ghost var newest, log, left := link.nextId, link.log, link.Left();
      var dialled := link.Dial();
      ToldOn(t.store, t.before, left, log, link.Left(), link.log);
      FollowsStill(t, cl, newest, log, newest, link.log);
      if !dialled { return None; }
      left := link.Left();
      rid := link.Send(LoginAsk);
      ToldOn(t.store, t.before, left, log, link.Left(), link.log);
      FollowsStill(t, cl, newest, log, newest, link.log);
    }

    /** Opens a new connection and logs in. `refused` is the request and the error if the server does not let it in. */
    method Reconnect(ghost t: Trace, ghost cl: Client)
        returns (ok: bool, refused: Option<(RequestId, Code)>, ghost t': Trace, ghost cl': Client)
      requires cl.revokedTo == link.revokedTo && On(t, cl)
      modifies link
      ensures Follows(t', cl', old(link.nextId), link.log) && GoesOn(t, t') && cl' == cl.(revokedTo := link.revokedTo)
      ensures |link.incoming| <= |old(link.incoming)| && Told(t.store, t.before, link.Left(), link.log)
      ensures link.clock == old(link.clock) && link.nextId >= old(link.nextId) && old(link.log) <= link.log
      ensures ok ==> link.connected
      ensures !ok && refused.None? ==> Failed(link.log, t.before)
      ensures refused.Some? ==> !ok && old(link.nextId) < refused.value.0 <= link.nextId
      ensures refused.Some? ==> IsRefused(link.log, t.before, refused.value.0, refused.value.1)
      ensures refused.Some? ==> Frame(refused.value.0, Reply(Error(refused.value.1))) in t.store.incoming
    {
      ok, refused, t', cl' := false, None, t, cl;
      ghost var newest, log, left := link.nextId, link.log, link.Left();
      var rid := DialAndSend(t, cl);
      if rid.None? { return; }
      var r;
      ghost var taken, asked := [], link.log;
      left := link.Left();
      r, t', cl', taken := link.Await([rid.value], t, cl, newest, 0);
      ToldOn(t.store, t.before, left, asked, link.Left(), link.log);
      if r.Broke? { return; }
      KindsLeft(t.store, left);
      IsThere(t.store.incoming, left.incoming, Frame(r.rid, r.body));
      LoginAnswered(log, asked, link.log, t.before, rid.value, r);
      match r.body
      case Welcome =>
        link.logins := link.logins + 1;
        ok := true;
      case Reply(a) =>
        if a.Error? { refused := Some((r.rid, a.code)); }
      case Revocation(_) =>
    }

    /** Asks for the lease again, on a new connection if the old one is broken. */
    method Resume(why: Why, ghost t: Trace, ghost cl: Client, ghost n: nat)
        returns (r: Sent, ghost t': Trace, ghost cl': Client)
      requires cl == Abs(Resuming(why, None)) && On(t, cl)
      modifies link, this`login
      ensures On(t', cl') && GoesOn(t, t') && link.clock == old(link.clock) && old(link.log) <= link.log
      ensures |link.incoming| <= |old(link.incoming)|
      ensures r.Answered? ==> cl' == Abs(Resuming(why, Some(r.rid)))
      ensures r.Answered? ==> Frame(r.rid, Reply(r.answer)) in t.store.incoming
      ensures r.Answered? && r.answer.Opened? ==> |link.incoming| < |old(link.incoming)| && link.connected
      ensures r.Answered? ==> Said(link.log, t.before, Arrived(Frame(r.rid, Reply(r.answer))))
      ensures r.Unknown? ==> cl'.phase.Resuming? && cl' == Abs(Resuming(why, cl'.phase.resumeId))
      ensures r.Unknown? ==> Failed(link.log, t.before)
      ensures old(link.Sends(2) && link.TokenLasts()) && FirstAnswer(old(link.incoming), n, [old(link.nextId) + 1]) ==>
                TakesAt(old(link.incoming), n, r, link.incoming)
      ensures old(link.Sends(2) && link.TokenLasts()) && r.Answered? ==>
                link.Sends(1) && link.nextId == old(link.nextId) + 1 && link.copyFaults == old(link.copyFaults)
    {
      t', cl' := t, cl;
      ghost var newest, log, left := link.nextId, link.log, link.Left();
      var due := link.IsDue();
      ToldOn(t.store, t.before, left, log, link.Left(), link.log);
      FollowsStill(t', cl', newest, log, newest, link.log);
      if !link.connected || due {
        var ok, refused;
        ghost var was := link.log;
        ok, refused, t', cl' := Reconnect(t, cl);
        PrefixOn(log, was, link.log);
        FollowsStill(t', cl', newest, link.log, link.nextId, link.log);
        if refused.Some? {
          t', cl' := MoveFollows(t', cl', newest, link.log, SentResume(refused.value.0), link.nextId, link.log);
          return Answered(refused.value.0, Error(refused.value.1)), t', cl';
        }
        if !ok { return Unknown, t', cl'; }
      }
      ghost var was := link.log;
      r, t', cl' := AskForLease(why, t', cl', n);
      PrefixOn(log, was, link.log);
    }

    method AskForLease(why: Why, ghost t: Trace, ghost cl: Client, ghost n: nat)
        returns (r: Sent, ghost t': Trace, ghost cl': Client)
      requires cl == Abs(Resuming(why, None)) && On(t, cl)
      modifies link, this`login
      ensures On(t', cl') && GoesOn(t, t') && link.clock == old(link.clock) && old(link.log) <= link.log
      ensures |link.incoming| <= |old(link.incoming)|
      ensures r.Answered? ==> cl' == Abs(Resuming(why, Some(r.rid)))
      ensures r.Answered? ==> Frame(r.rid, Reply(r.answer)) in t.store.incoming
      ensures r.Answered? ==> |link.incoming| < |old(link.incoming)| && link.connected
      ensures r.Answered? ==> Said(link.log, t.before, Arrived(Frame(r.rid, Reply(r.answer))))
      ensures r.Unknown? ==> cl'.phase.Resuming? && cl' == Abs(Resuming(why, cl'.phase.resumeId))
      ensures r.Unknown? ==> Failed(link.log, t.before)
      ensures old(link.Sends(2)) && FirstAnswer(old(link.incoming), n, [old(link.nextId) + 1]) ==>
                TakesAt(old(link.incoming), n, r, link.incoming)
      ensures old(link.Sends(2)) && r.Answered? ==>
                link.Sends(1) && link.nextId == old(link.nextId) + 1 && link.copyFaults == old(link.copyFaults)
    {
      ghost var asked, left, log := None, link.Left(), link.log;
      KindsLeft(t.store, left);
      r, asked, t', cl' := link.Request(LeaseAsk, t, cl, n);
      ToldOn(t.store, t.before, left, log, link.Left(), link.log);
      if r.Answered? && r.answer.Opened? { login := link.logins; }
    }

    /** Resumes the lease, again and again until the deadline. Without an answer of use the database is broken. */
    method ResumeUntil(why: Why, ghost t: Trace, ghost cl: Client)
        returns (r: Option<(RequestId, Answer)>, ghost t': Trace, ghost cl': Client)
      requires cl == Abs(Resuming(why, None)) && (why.TopOfLoop? || why.AfterBreak?) && On(t, cl)
      modifies link, this`login, this`broken
      ensures On(t', cl') && GoesOn(t, t') && |link.incoming| <= |old(link.incoming)| && old(link.log) <= link.log
      ensures r.Some? ==> r.value.1.Opened? && Frame(r.value.0, Reply(r.value.1)) in t.store.incoming
      ensures r.Some? ==> Said(link.log, t.before, Arrived(Frame(r.value.0, Reply(r.value.1))))
      ensures r.Some? ==> cl' == Abs(Resuming(why, Some(r.value.0))) && |link.incoming| < |old(link.incoming)|
      ensures r.Some? ==> broken == old(broken)
      ensures r.None? ==> broken.Some? && cl' == Abs(Idle)
    {
      t', cl' := t, cl;
      while true
        invariant On(t', cl') && GoesOn(t, t') && |link.incoming| <= |old(link.incoming)| && old(link.log) <= link.log
        invariant cl' == Abs(Resuming(why, None)) && broken == old(broken)
        decreases |link.clock|
      {
        var sent;
        ghost var was := link.log;
        sent, t', cl' := Resume(why, t', cl', 0);
        PrefixOn(old(link.log), was, link.log);
        if sent.Answered? && sent.answer.Opened? { return Some((sent.rid, sent.answer)), t', cl'; }
        var retry;
        was := link.log;
        retry, t', cl' := OnResumeFailed(why, sent, t', cl');
        PrefixOn(old(link.log), was, link.log);
        if !retry { return None, t', cl'; }
      }
    }

    /** A resume that failed: a lost lease or a refused login is final, anything else only after the deadline. */
    method OnResumeFailed(why: Why, sent: Sent, ghost t: Trace, ghost cl: Client)
        returns (retry: bool, ghost t': Trace, ghost cl': Client)
      requires On(t, cl) && (why.TopOfLoop? || why.AfterBreak?)
      requires cl.phase.Resuming? && cl == Abs(Resuming(why, cl.phase.resumeId))
      requires sent.Answered? ==> cl.phase.resumeId == Some(sent.rid) && !sent.answer.Opened?
      requires sent.Answered? ==> Frame(sent.rid, Reply(sent.answer)) in t.store.incoming
      requires sent.Answered? ==> Said(link.log, t.before, Arrived(Frame(sent.rid, Reply(sent.answer))))
      requires sent.Unknown? ==> Failed(link.log, t.before)
      modifies link`clock, link`log, this`broken
      ensures On(t', cl') && GoesOn(t, t') && old(link.log) <= link.log
      ensures retry ==> cl' == Abs(Resuming(why, None)) && broken == old(broken) && |link.clock| < |old(link.clock)|
      ensures !retry ==> cl' == Abs(Idle) && broken.Some?
    {
      var stop := None;
      if sent.Answered? && sent.answer.Error? {
        stop := if IsFenced(sent.answer.code) then Some(Fenced)
                else if IsAccessDenied(sent.answer.code) then Some(Denied) else None;
      }
      var late := false;
      ghost var log := link.log;
      if stop.None? { late := IsLate(t, cl); }
      retry := stop.None? && !late;
      if !retry { broken := if stop.Some? then stop else Some(Uncertain); }
      if sent.Answered? {
        t', cl' := AnswerFollows(t, cl, link.nextId, log, link.log, sent.rid, sent.answer, late, false);
      } else {
        t', cl' := LossFollows(t, cl, link.nextId, log, link.log, late);
      }
    }

    /** Sends the part after those with the ids `ids`. */
    method SendPart(id: CommitId, ids: seq<RequestId>, ghost t: Trace, ghost cl: Client)
        returns (rid: Option<RequestId>, ghost t': Trace, ghost cl': Client)
      requires cl == Abs(Sending(id, ids)) && On(t, cl) && |ids| < t.parts
      modifies link`connected, link`nextId, link`sendFaults, link`log
      ensures On(t', cl') && GoesOn(t, t') && old(link.log) <= link.log && link.nextId >= old(link.nextId)
      ensures rid.Some? <==> old(link.Sends(1))
      ensures if rid.None? then cl' == Abs(Resuming(AfterBreak(id), None))
              else
                && link.connected && rid.value == link.nextId == old(link.nextId) + 1
                && link.sendFaults == (if old(link.sendFaults) == [] then [] else old(link.sendFaults)[1..])
                && Happened(link.log, t.before, Asked(rid.value, PartAsk))
                && cl' == Abs(if |ids| + 1 < t.parts then Sending(id, ids + [rid.value])
                              else AwaitAck(id, ids + [rid.value], None))
    {
      ghost var newest, log, left := link.nextId, link.log, link.Left();
      rid := link.Send(PartAsk);
      ToldOn(t.store, t.before, left, log, link.Left(), link.log);
      if rid.None? {
        t', cl' := MoveFollows(t, cl, newest, log, LostLink(false), link.nextId, link.log);
      } else {
        t', cl' := AskFollows(t, cl, newest, log, PartAsk, rid.value, link.log);
      }
    }

    /** Sends all parts of a commit and waits for the answer to the last one. `refusal` is the first refusal before. */
    method SendParts(id: CommitId, parts: nat, ghost t: Trace, ghost cl: Client, ghost n: nat)
        returns (r: Sent, refusal: Option<Code>, ghost t': Trace, ghost cl': Client)
      requires cl == Abs(Sending(id, [])) && parts > 0 && On(t, cl) && t.parts == parts
      modifies link
      ensures On(t', cl') && GoesOn(t, t') && cl' == Abs(cl'.phase) && |link.incoming| <= |old(link.incoming)|
      ensures r.Answered? ==> AwaitsLast(cl'.phase, id, r.rid, refusal) && |link.incoming| < |old(link.incoming)|
      ensures r.Answered? ==> Frame(r.rid, Reply(r.answer)) in t.store.incoming && (r.answer.Ack? || r.answer.Error?)
      ensures r.Answered? ==> Said(link.log, t.before, Arrived(Frame(r.rid, Reply(r.answer))))
      ensures r.Unknown? ==> cl'.phase == Resuming(AfterBreak(id), None)
      ensures old(link.Sends(parts)) && AckComes(old(link.incoming), n, old(link.nextId), parts) ==>
                refusal.None? && r == Answered(old(link.nextId) + parts, old(link.incoming)[n].body.answer)
    {
      r, refusal, t', cl' := Unknown, None, t, cl;
      ghost var frames, first := link.incoming, link.nextId;
      var ids: seq<RequestId> := [];
      while |ids| < parts
        invariant |ids| <= parts && 0 !in ids && On(t', cl') && GoesOn(t, t')
        invariant forall rid <- ids :: Happened(link.log, t.before, Asked(rid, PartAsk))
        invariant link.incoming == frames && link.nextId >= first
        invariant old(link.Sends(parts)) ==>
                    link.Sends(parts - |ids|) && AreNext(ids, first) && link.nextId == first + |ids|
        invariant cl' == Abs(if |ids| < parts then Sending(id, ids) else AwaitAck(id, ids, None))
      {
        ghost var log := link.log;
        var rid;
        rid, t', cl' := SendPart(id, ids, t', cl');
        if rid.None? { return; }
        AskedStill(ids, log, t.before, link.log);
        ids := ids + [rid.value];
      }
      ghost var taken;
      NextIds(ids, first, frames, n);
      r, refusal, t', cl', taken := AwaitCommit(id, ids, t', cl', n);
    }

    /**
     * Waits for the answer to the last part. The server also answers every part it refuses: `refusal` is the first
     * refusal before the answer to the last part.
     */
    method AwaitCommit(id: CommitId, ids: seq<RequestId>, ghost t: Trace, ghost cl: Client, ghost n: nat)
        returns (r: Sent, refusal: Option<Code>, ghost t': Trace, ghost cl': Client, ghost taken: seq<Incoming>)
      requires cl == Abs(AwaitAck(id, ids, None)) && ids != [] && 0 !in ids && On(t, cl)
      requires forall rid <- ids :: Happened(link.log, t.before, Asked(rid, PartAsk))
      modifies link
      ensures On(t', cl') && GoesOn(t, t') && cl' == Abs(cl'.phase) && old(link.incoming) == taken + link.incoming
      ensures r.Answered? ==> AwaitsLast(cl'.phase, id, r.rid, refusal) && r.rid == ids[|ids| - 1]
      ensures r.Answered? ==> Frame(r.rid, Reply(r.answer)) in t.store.incoming
      ensures r.Answered? ==> EndsWith(taken, Frame(r.rid, Reply(r.answer))) && (r.answer.Ack? || r.answer.Error?)
      ensures r.Answered? ==> Said(link.log, t.before, Arrived(Frame(r.rid, Reply(r.answer))))
      ensures r.Answered? ==> refusal == FirstRefusal(Before(taken), ids)
      ensures r.Unknown? ==> cl'.phase == Resuming(AfterBreak(id), None)
      ensures old(link.connected) && FirstIsFinal(old(link.incoming), n, ids) ==>
                refusal.None? && r == Answered(ids[|ids| - 1], old(link.incoming)[n].body.answer)
    {
      r, refusal, t', cl', taken := Unknown, None, t, cl, [];
      while true
        invariant On(t', cl') && GoesOn(t, t') && r.Unknown? && old(link.log) <= link.log
        invariant cl' == Abs(AwaitAck(id, ids, refusal)) && refusal == FirstRefusal(taken, ids)
        invariant old(link.incoming) == taken + link.incoming
        invariant if taken == [] then link.connected == old(link.connected)
                  else !(old(link.connected) && FirstIsFinal(old(link.incoming), n, ids))
        decreases |link.incoming|
      {
        var got;
        ghost var log := link.log;
        got, t', cl', taken := AwaitPart(ids, t', cl', n, old(link.incoming), taken);
        PrefixOn(old(link.log), log, link.log);
        if got.Got? && IsFinal(got, ids) { return Answered(got.rid, got.body.answer), refusal, t', cl', taken; }
        var go;
        go, refusal, t', cl' := OnPartFrame(id, ids, refusal, got, t', cl', old(link.log), log);
        if !go { return; }
      }
    }

    /** Waits for the next frame that answers a part, where `all` is what there was to arrive and `known` what did. */
    method AwaitPart(ids: seq<RequestId>, ghost t: Trace, ghost cl: Client, ghost n: nat, ghost all: seq<Incoming>,
                     ghost known: seq<Incoming>)
        returns (got: Received, ghost t': Trace, ghost cl': Client, ghost taken: seq<Incoming>)
      requires cl.revokedTo == link.revokedTo && ids != [] && 0 !in ids && On(t, cl) && all == known + link.incoming
      modifies link`connected, link`revokedTo, link`incoming, link`log
      ensures On(t', cl') && GoesOn(t, t') && cl' == cl.(revokedTo := link.revokedTo)
      ensures IsNextPart(all, known, taken, link.incoming, ids, got) && Reported(old(link.log), link.log, got)
      ensures got.Got? ==> Frame(got.rid, got.body) in t.store.incoming
      ensures known == [] && old(link.connected) && FirstIsFinal(all, n, ids) ==>
                got.Got? && Frame(got.rid, got.body) == all[n]
    {
      ghost var read, left, log := [], link.Left(), link.log;
      assert known == [] ==> left.incoming == all;
      got, t', cl', read := link.Await(ids, t, cl, link.nextId, n);
      ToldOn(t.store, t.before, left, log, link.Left(), link.log);
      NextPart(all, known, left.incoming, read, link.incoming, ids, got);
      taken := known + read;
      if got.Got? {
        KindsLeft(t.store, left);
        IsThere(t.store.incoming, left.incoming, Frame(got.rid, got.body));
      }
    }

    /** A frame that is not the answer to the last part: a refusal is remembered, anything else ends the attempt. */
    method OnPartFrame(id: CommitId, ids: seq<RequestId>, refusal: Option<Code>, got: Received, ghost t: Trace,
                       ghost cl: Client, ghost asked: seq<Event>, ghost log: seq<Event>)
        returns (go: bool, first: Option<Code>, ghost t': Trace, ghost cl': Client)
      requires On(t, cl) && cl == Abs(AwaitAck(id, ids, refusal)) && ids != []
      requires got.Got? ==> got.rid in ids && !IsFinal(got, ids) && Frame(got.rid, got.body) in t.store.incoming
      requires asked <= log && Reported(log, link.log, got) && t.before <= |log|
      requires forall rid <- ids :: Happened(asked, t.before, Asked(rid, PartAsk))
      ensures On(t', cl') && GoesOn(t, t') && cl' == Abs(cl'.phase)
      ensures go <==> got.Got? && got.body.Reply? && got.body.answer.Error?
      ensures cl'.phase == if go then AwaitAck(id, ids, first) else Resuming(AfterBreak(id), None)
      ensures first == if go && refusal.None? then Some(got.body.answer.code) else refusal
    {
      var answer := if got.Got? && got.body.Reply? then Some(got.body.answer) else None;
      go := answer.Some? && answer.value.Error?;
      first := if go && refusal.None? then Some(answer.value.code) else refusal;
      if answer.Some? {
        t', cl' := AnswerFollows(t, cl, link.nextId, link.log, link.log, got.rid, answer.value, false, false);
      } else {
        if got.Got? { UnusableFails(log, link.log, t.before, PartAsk, got); }
        t', cl' := LossFollows(t, cl, link.nextId, link.log, link.log, false);
      }
    }

    /** The commit is durable. */
    method Succeeds(id: CommitId, version: nat)
      modifies this`version, this`pending, this`mem, this`done
      ensures Abs(Idle) == Succeed(old(Abs(Idle)), id, version)
    {
      this.version, pending, done := version, None, done + [id];
      mem := mem.(dirty := {}, resized := false);
    }

    /** The server answered the last part: the commit is applied, or refused for a reason that decides what follows. */
    method OnAnswer(id: CommitId, rid: RequestId, a: Answer, refusal: Option<Code>, ghost t: Trace, ghost cl: Client)
        returns (again: Option<bool>, ghost t': Trace, ghost cl': Client)
      requires On(t, cl) && cl == Abs(cl.phase) && AwaitsLast(cl.phase, id, rid, refusal)
      requires Frame(rid, Reply(a)) in t.store.incoming && (a.Ack? || a.Error?) && broken.None? && pending == Some(id)
      requires Said(link.log, t.before, Arrived(Frame(rid, Reply(a))))
      modifies link`clock, link`dues, link`log, this`version, this`pending, this`broken, this`mem, this`done
      ensures On(t', cl') && GoesOn(t, t')
      ensures again.None? ==> cl' == Abs(Idle) && (broken.None? <==> a.Ack? && refusal.None?)
      ensures done == if a.Ack? && refusal.None? then old(done) + [id] else old(done)
      ensures a.Ack? && refusal.None? ==> again.None? && version == a.ackVersion
      ensures again.Some? ==> cl' == Again(Abs(Idle), id, !again.value)
      ensures again.Some? ==> broken.None? && pending == Some(id) && done == old(done)
    {
      again := None;
      var late, renew := false, false;
      ghost var log := link.log;
      if a.Ack? && refusal.None? {
        Succeeds(id, a.ackVersion);
      } else {
        var code := if refusal.Some? then refusal.value else a.code;
        if IsFenced(code) {
          broken := Some(Fenced);
        } else if IsTransient(code) {
          late := IsLate(t, cl);
          if late {
            broken := Some(Uncertain);
          } else {
            var current := OnCurrentConnection(t, cl, link.nextId);
            renew, again := !current, Some(current);
          }
        } else {
          broken := Some(Refused);
        }
      }
      t', cl' := AnswerFollows(t, cl, link.nextId, log, link.log, rid, a, late, renew);
    }

    /** The lease is resumed: the server's version and last commit tell whether the commit was applied. */
    method OnReopened(id: CommitId, rid: RequestId, a: Answer, ghost t: Trace, ghost cl: Client)
        returns (again: Option<bool>, ghost t': Trace, ghost cl': Client)
      requires On(t, cl) && cl == Abs(Resuming(AfterBreak(id), Some(rid))) && a.Opened?
      requires Frame(rid, Reply(a)) in t.store.incoming && broken.None? && pending == Some(id)
      requires Said(link.log, t.before, Arrived(Frame(rid, Reply(a))))
      modifies link`dues, link`log, this`version, this`pending, this`broken, this`mem, this`done
      ensures On(t', cl') && GoesOn(t, t')
      ensures again.None? ==> cl' == Abs(Idle) && (broken.None? <==> done == old(done) + [id])
      ensures again.None? && broken.Some? ==> done == old(done)
      ensures again.Some? ==> cl' == Again(Abs(Idle), id, !again.value)
      ensures again.Some? ==> broken.None? && pending == Some(id) && done == old(done)
    {
      again := None;
      var renew := false;
      ghost var log := link.log;
      if a.version == version + 1 && a.lastId == Some(id) {
        Succeeds(id, a.version);
      } else if a.version != version {
        broken := Some(Diverged);
      } else {
        var current := OnCurrentConnection(t, cl, link.nextId);
        renew, again := !current, Some(current);
      }
      t', cl' := AnswerFollows(t, cl, link.nextId, log, link.log, rid, a, false, renew);
    }

    /** Sends the commit and waits; if the connection breaks, finds out whether it was applied. */
    method CommitOnce(id: CommitId, parts: nat, ghost t: Trace, ghost cl: Client, ghost n: nat)
        returns (again: Option<bool>, ghost t': Trace, ghost cl': Client)
      requires cl == Abs(Sending(id, [])) && parts > 0 && On(t, cl) && t.parts == parts
      requires broken.None? && pending == Some(id)
      modifies link, this`version, this`pending, this`broken, this`mem, this`login, this`done
      ensures On(t', cl') && GoesOn(t, t') && |link.incoming| <= |old(link.incoming)|
      ensures again.None? ==> cl' == Abs(Idle) && (broken.None? <==> done == old(done) + [id])
      ensures again.None? && broken.Some? ==> done == old(done)
      ensures again.Some? ==> cl' == Again(Abs(Idle), id, !again.value) && |link.incoming| < |old(link.incoming)|
      ensures again.Some? ==> broken.None? && pending == Some(id) && done == old(done)
      ensures old(link.Sends(parts)) && AckComes(old(link.incoming), n, old(link.nextId), parts) ==>
                again.None? && broken.None? && version == old(link.incoming)[n].body.answer.ackVersion
    {
      var r, refusal;
      r, refusal, t', cl' := SendParts(id, parts, t, cl, n);
      if r.Answered? {
        again, t', cl' := OnAnswer(id, r.rid, r.answer, refusal, t', cl');
      } else {
        var reopened;
        reopened, t', cl' := ResumeUntil(AfterBreak(id), t', cl');
        if reopened.None? { return None, t', cl'; }
        again, t', cl' := OnReopened(id, reopened.value.0, reopened.value.1, t', cl');
      }
    }

    /** The database is not open on the current connection: it is resumed there before anything is sent. */
    method ResumeFirst(id: CommitId, ghost t: Trace, ghost cl: Client)
        returns (ok: bool, ghost t': Trace, ghost cl': Client)
      requires cl == Abs(Resuming(TopOfLoop(id), None)) && broken.None? && On(t, cl)
      modifies link, this`login, this`broken
      ensures On(t', cl') && GoesOn(t, t') && |link.incoming| <= |old(link.incoming)|
      ensures if ok then cl' == Abs(Sending(id, [])) && broken.None? else cl' == Abs(Idle) && broken.Some?
    {
      var r;
      r, t', cl' := ResumeUntil(TopOfLoop(id), t, cl);
      if r.None? { return false, t', cl'; }
      ok := r.value.1.version == version;
      if !ok { broken := Some(Diverged); }
      t', cl' := AnswerFollows(t', cl', link.nextId, link.log, link.log, r.value.0, r.value.1, false, false);
    }

    /**
     * The database is open on a connection that works for `parts` requests, its lease is not known to be lost, and the
     * first answer to one of these requests, frame `n`, acknowledges the last one.
     */
    ghost predicate IsReady(parts: nat, n: nat)
      reads this, link
    {
      && link.Sends(parts) && link.TokenLasts() && link.logins == login && link.revokedTo <= epoch
      && AckComes(link.incoming, n, link.nextId, parts)
    }

    /**
     * Commits everything since the last commit. The loop makes the moves of a session that starts the commit, each for
     * a reason on the connection, until that session is idle again; it succeeds exactly if the session does.
     *
     * It does succeed if nothing gets in the way and the first answer to one of its parts acknowledges the last one.
     * It breaks the database only for a reason, and leaves it uncertain only once the clock says that it is late.
     */
    method Commit(id: CommitId, parts: nat) returns (r: Option<Broken>, ghost t: Trace)
      requires parts > 0
      modifies link, this`version, this`pending, this`broken, this`mem, this`login, this`done
      ensures r == broken
      ensures old(broken).Some? || IsClean(old(mem)) ==> Abs(Idle) == old(Abs(Idle)) && t.steps == []
      ensures old(broken).None? && !IsClean(old(mem)) ==>
                && (exists connected :: t.start == StartCommit(old(Abs(Idle)), id, connected))
                && t == Trace(t.start, old(link.nextId), |old(link.log)|, old(link.Left()), parts, t.steps)
                && On(t, Abs(Idle))
                && done == if r.None? then old(done) + [id] else old(done)
      ensures old(broken).None? && !IsClean(old(mem)) ==>
                forall n: nat | old(IsReady(parts, n)) ::
                  r.None? && version == old(link.incoming)[n].body.answer.ackVersion
      ensures old(broken).None? && !IsClean(old(mem)) && r.Some? ==>
                if old(link.revokedTo) > epoch then r == Some(Fenced)
                else CommitReason(r.value, old(version), |old(link.log)|, link.log)
    {
      t := Trace(Abs(Idle), link.nextId, |link.log|, link.Left(), parts, []);
      ToldNothing(link.Left(), link.log);
      if broken.Some? || IsClean(mem) { return broken, t; }
      if link.revokedTo > epoch {
        t := t.(start := StartCommit(Abs(Idle), id, true));
        broken := Some(Fenced);
        return broken, t;
      }
      ghost var n: nat := 0;
      if k: nat :| IsReady(parts, k) { n := k; }
      forall k: nat | IsReady(parts, k) ensures k == n { AckIsFirst(link.incoming, k, n, link.nextId, parts); }
      var current := OnCurrentConnection(t, t.start, link.nextId);
      t := t.(start := StartCommit(Abs(Idle), id, current));
      pending := Some(id);
      r, t := CommitLoop(id, parts, current, t, t.start, n);
      CommitHasReason(t, Abs(Idle), link.nextId, link.log);
    }

    /** Resumes first if need be, sends the commit, and does so again until it is known what became of it. */
    method CommitLoop(id: CommitId, parts: nat, onCurrent: bool, ghost t: Trace, ghost cl: Client, ghost n: nat)
        returns (r: Option<Broken>, ghost t': Trace)
      requires On(t, cl) && cl == Again(Abs(Idle), id, !onCurrent) && parts > 0 && t.parts == parts
      requires broken.None? && pending == Some(id)
      modifies link, this`version, this`pending, this`broken, this`mem, this`login, this`done
      ensures r == broken && On(t', Abs(Idle)) && GoesOn(t, t')
      ensures done == if r.None? then old(done) + [id] else old(done)
      ensures onCurrent && old(link.Sends(parts)) && AckComes(old(link.incoming), n, old(link.nextId), parts) ==>
                r.None? && version == old(link.incoming)[n].body.answer.ackVersion
    {
      t' := t;
      var current := onCurrent;
      ghost var at, first := cl, true;
      ghost var isReady := onCurrent && link.Sends(parts) && AckComes(link.incoming, n, link.nextId, parts);
      while true
        invariant On(t', at) && at == Again(Abs(Idle), id, !current) && GoesOn(t, t')
        invariant broken.None? && pending == Some(id) && done == old(done)
        invariant if first then
                    && current == onCurrent && link.Sends(parts) == old(link.Sends(parts))
                    && link.incoming == old(link.incoming) && link.nextId == old(link.nextId)
                  else !isReady
        decreases |link.incoming|
      {
        if !current {
          var ok;
          ok, t', at := ResumeFirst(id, t', at);
          if !ok { return broken, t'; }
        }
        var again;
        again, t', at := CommitOnce(id, parts, t', at, n);
        if again.None? { return broken, t'; }
        current, first := again.value, false;
      }
    }

    // -------------------------------------------------------------------------------------------------------------
    // Healing
    // -------------------------------------------------------------------------------------------------------------

    /** Asks for all blocks of the file. */
    method AskForBlocks(count: nat, ghost t: Trace, ghost cl: Client, ghost n: nat)
        returns (r: Sent, ghost t': Trace, ghost cl': Client)
      requires cl == Abs(Loading(ForHeal, 0, count, None)) && On(t, cl)
      modifies link
      ensures On(t', cl') && GoesOn(t, t') && cl'.phase.Loading?
      ensures cl' == Abs(Loading(ForHeal, 0, count, cl'.phase.loadId))
      ensures r.Answered? ==> cl'.phase.loadId == Some(r.rid) && Frame(r.rid, Reply(r.answer)) in t.store.incoming
      ensures r.Answered? ==> Said(link.log, t.before, Arrived(Frame(r.rid, Reply(r.answer))))
      ensures r.Unknown? ==> Failed(link.log, t.before)
      ensures old(link.Sends(1)) && FirstAnswer(old(link.incoming), n, [old(link.nextId) + 1]) ==>
                TakesAt(old(link.incoming), n, r, link.incoming)
    {
      ghost var asked, left, log := None, link.Left(), link.log;
      KindsLeft(t.store, left);
      r, asked, t', cl' := link.Request(LoadAsk, t, cl, n);
      ToldOn(t.store, t.before, left, log, link.Left(), link.log);
    }

    /** Loads all blocks of the file again. */
    method Reload(count: nat, ghost t: Trace, ghost cl: Client, ghost n: nat, ghost e: Option<Code>)
        returns (ghost t': Trace)
      requires cl == Abs(Loading(ForHeal, 0, count, None)) && On(t, cl)
      modifies link, this`broken, this`mem
      ensures On(t', Abs(Idle)) && GoesOn(t, t')
      ensures broken.Some? ==> mem == old(mem)
      ensures old(link.Sends(1)) && BlocksCome(old(link.incoming), n, old(link.nextId) + 1, count, e) ==>
                if e.None? then broken.None? else BreaksHeal(e.value, broken)
    {
      var r;
      ghost var cl';
      r, t', cl' := AskForBlocks(count, t, cl, n);
      if r.Answered? && r.answer.Pages? && |r.answer.blocks| == count {
        t', cl' := AnswerFollows(t', cl', link.nextId, link.log, link.log, r.rid, r.answer, false, false);
        mem, broken := Keep(Emptied(count), 0, r.answer.blocks), None;
      } else {
        t' := OnHealFailed(r, t', cl');
      }
    }

    /**
     * The lease is resumed: the version must be the known one, or the one the pending commit made. With on-demand
     * loading, the check of the local copy may fail.
     */
    method OnHealing(rid: RequestId, a: Answer, ghost t: Trace, ghost cl: Client)
        returns (reload: Option<nat>, ghost t': Trace, ghost cl': Client)
      requires cl == Abs(Resuming(Healing, Some(rid))) && a.Opened? && On(t, cl)
      requires Frame(rid, Reply(a)) in t.store.incoming && Said(link.log, t.before, Arrived(Frame(rid, Reply(a))))
      modifies link`copyFaults, link`log, this`version, this`pending, this`broken, this`mem
      ensures On(t', cl') && GoesOn(t, t')
      ensures if reload.Some? then cl' == Abs(Loading(ForHeal, 0, reload.value, None)) else cl' == Abs(Idle)
      ensures var fits := Fits(a, old(version), old(pending));
              && reload == (if fits && preload && a.count > 0 then Some(a.count) else None)
              && (fits && reload.None? && old(link.CopyWorks()) ==> broken.None?)
    {
      reload := None;
      ghost var log := link.log;
      var failed := false;
      var applied := a.version == version + 1 && pending.Some? && a.lastId == pending;
      if a.version != version && !applied {
        broken := Some(Diverged);
      } else {
        version, pending := a.version, None;
        if preload && a.count > 0 {
          reload := Some(a.count);
        } else {
          failed := CopyFails(t, cl);
          if failed { broken := Some(Uncertain); } else { mem, broken := Emptied(a.count), None; }
        }
      }
      t', cl' := AnswerFollows(t, cl, link.nextId, log, link.log, rid, a, failed, false);
    }

    /** The server did not say what a heal needs to go on. */
    method OnHealFailed(sent: Sent, ghost t: Trace, ghost cl: Client) returns (ghost t': Trace)
      requires cl == Abs(cl.phase) && On(t, cl)
      requires Heals(cl.phase) && (sent.Answered? ==> Waits(cl, sent.rid))
      requires sent.Answered? ==> Frame(sent.rid, Reply(sent.answer)) in t.store.incoming
      requires sent.Answered? ==> !HealsOn(cl.phase, sent.answer)
      requires sent.Answered? ==> Said(link.log, t.before, Arrived(Frame(sent.rid, Reply(sent.answer))))
      requires sent.Unknown? ==> Failed(link.log, t.before)
      modifies this`broken
      ensures On(t', Abs(Idle)) && GoesOn(t, t') && broken.Some?
      ensures sent.Answered? && sent.answer.Error? ==> BreaksHeal(sent.answer.code, broken)
    {
      broken := Some(if sent.Answered? && sent.answer.Error? then BreakOn(sent.answer.code) else Uncertain);
      ghost var end;
      if sent.Answered? {
        t', end := AnswerFollows(t, cl, link.nextId, link.log, link.log, sent.rid, sent.answer, false, false);
      } else {
        t', end := LossFollows(t, cl, link.nextId, link.log, link.log, false);
      }
    }

    /**
     * What the frames bring for a heal on a connection that works: frame `n` answers the request for the lease, and if
     * blocks are needed, frame `k` after it the request for them. All is well, or the server answers error `e`.
     */
    ghost predicate HealMeets(n: nat, k: nat, e: Option<Code>)
      reads this, link
    {
      && link.Sends(2) && link.TokenLasts() && FirstAnswer(link.incoming, n, [link.nextId + 1])
      && link.incoming[n].body.Reply?
      && var a, rest := link.incoming[n].body.answer, link.incoming[n + 1..];
      if a.Error? then e == Some(a.code)
      else
        && a.Opened? && Fits(a, version, pending)
        && if preload && a.count > 0 then BlocksCome(rest, k, link.nextId + 2, a.count, e)
           else e.None? && link.CopyWorks()
    }

    lemma MeetsOnce(n: nat, k: nat, e: Option<Code>, n': nat, k': nat, e': Option<Code>)
      requires HealMeets(n, k, e) && HealMeets(n', k', e')
      ensures e == e'
    {
      assert n == n';
      var a, rest := link.incoming[n].body.answer, link.incoming[n + 1..];
      if a.Opened? && preload && a.count > 0 { BlocksComeOnce(rest, k, k', link.nextId + 2, a.count, e, e'); }
    }

    /**
     * Makes a database usable again that broke because the server could not be reached: the moves of a heal, each for a
     * reason. It succeeds if nothing gets in the way. If the server answers an error, its code says what follows.
     */
    method Heal() returns (r: Option<Broken>, ghost t: Trace)
      requires broken == Some(Uncertain)
      modifies link, this`version, this`pending, this`broken, this`mem, this`login
      ensures r == broken && done == old(done)
      ensures t == Trace(old(Abs(Resuming(Healing, None))), old(link.nextId), |old(link.log)|, old(link.Left()), 0,
                         t.steps)
      ensures On(t, Abs(Idle))
      ensures forall n: nat, k: nat | old(HealMeets(n, k, None)) :: r.None?
      ensures forall n: nat, k: nat, code: Code | old(HealMeets(n, k, Some(code))) :: BreaksHeal(code, r)
      ensures r.Some? ==> HealReason(r.value, old(version), old(pending), |old(link.log)|, link.log)
    {
      ghost var n: nat, k: nat, e: Option<Code> := 0, 0, None;
      if n', k', e' :| HealMeets(n', k', e') { n, k, e := n', k', e'; }
      forall n': nat, k': nat | old(HealMeets(n', k', None)) ensures HealMeets(n, k, None) {
        MeetsOnce(n, k, e, n', k', None);
      }
      forall n': nat, k': nat, code: Code | old(HealMeets(n', k', Some(code))) ensures HealMeets(n, k, Some(code)) {
        MeetsOnce(n, k, e, n', k', Some(code));
      }
      r, t := HealOnce(n, k, e);
      HealHasReason(t, Abs(Idle), link.nextId, link.log);
    }

    method HealOnce(ghost n: nat, ghost k: nat, ghost e: Option<Code>) returns (r: Option<Broken>, ghost t: Trace)
      requires broken == Some(Uncertain)
      modifies link, this`version, this`pending, this`broken, this`mem, this`login
      ensures r == broken && done == old(done)
      ensures t == Trace(old(Abs(Resuming(Healing, None))), old(link.nextId), |old(link.log)|, old(link.Left()), 0,
                         t.steps)
      ensures On(t, Abs(Idle))
      ensures old(HealMeets(n, k, e)) ==> if e.None? then r.None? else BreaksHeal(e.value, r)
    {
      ghost var cl := Abs(Resuming(Healing, None));
      t := Trace(cl, link.nextId, |link.log|, link.Left(), 0, []);
      ToldNothing(link.Left(), link.log);
      var sent;
      sent, t, cl := Resume(Healing, t, cl, n);
      if sent.Answered? && sent.answer.Opened? {
        var reload;
        reload, t, cl := OnHealing(sent.rid, sent.answer, t, cl);
        if reload.Some? { t := Reload(reload.value, t, cl, k, e); }
      } else {
        t := OnHealFailed(sent, t, cl);
      }
      r := broken;
    }
  }

  // ---------------------------------------------------------------------------------------------------------------
  // Reasons
  // ---------------------------------------------------------------------------------------------------------------

  ghost predicate AreNext(ids: seq<RequestId>, first: nat) { forall i :: 0 <= i < |ids| ==> ids[i] == first + 1 + i }

  /** The first frame for one of the next `parts` requests acknowledges the last of them. */
  ghost predicate AckComes(frames: seq<Incoming>, n: nat, first: nat, parts: nat) {
    && n < |frames| && frames[n].Frame? && frames[n].rid == first + parts
    && frames[n].body.Reply? && frames[n].body.answer.Ack?
    && forall k :: 0 <= k < n ==> frames[k].Frame? && !(first < frames[k].rid <= first + parts)
  }

  lemma {:induction false} AckIsFirst(frames: seq<Incoming>, n: nat, k: nat, first: nat, parts: nat)
    requires parts > 0 && AckComes(frames, n, first, parts) && AckComes(frames, k, first, parts)
    ensures n == k
  {
  }

  lemma {:induction false} NextIds(ids: seq<RequestId>, first: nat, frames: seq<Incoming>, n: nat)
    requires ids != []
    ensures AreNext(ids, first) && AckComes(frames, n, first, |ids|) ==> FirstIsFinal(frames, n, ids)
  {
    if AreNext(ids, first) && AckComes(frames, n, first, |ids|) {
      assert frames[n].rid == ids[|ids| - 1];
    }
  }

  /** The first frame for one of these requests is the answer to the last one. */
  ghost predicate FirstIsFinal(frames: seq<Incoming>, n: nat, ids: seq<RequestId>) {
    ids != [] && FirstAnswer(frames, n, ids) && IsFinal(Got(frames[n].rid, frames[n].body), ids)
  }

  /** The version the server names is the known one, or the one that the pending commit made. */
  predicate Fits(a: Answer, version: nat, pending: Option<CommitId>)
    requires a.Opened?
  {
    a.version == version || (a.version == version + 1 && pending.Some? && a.lastId == pending)
  }

  /** The answer with which a heal goes on. */
  predicate HealsOn(p: Phase, a: Answer) {
    if p.Loading? then a.Pages? && |a.blocks| == p.count else a.Opened?
  }

  lemma {:induction false} AskedStill(ids: seq<RequestId>, log: seq<Event>, before: nat, longer: seq<Event>)
    requires log <= longer && forall rid <- ids :: Happened(log, before, Asked(rid, PartAsk))
    ensures forall rid <- ids :: Happened(longer, before, Asked(rid, PartAsk))
  {
    forall rid <- ids ensures Happened(longer, before, Asked(rid, PartAsk)) {
      var i :| before <= i < |log| && log[i] == Asked(rid, PartAsk);
      assert longer[i] == log[i];
    }
  }

  /** The first frame for request `rid` brings `count` blocks, or error `e`. */
  ghost predicate BlocksCome(frames: seq<Incoming>, n: nat, rid: RequestId, count: nat, e: Option<Code>) {
    && FirstAnswer(frames, n, [rid]) && frames[n].body.Reply?
    && var a := frames[n].body.answer;
    if e.Some? then a == Error(e.value) else a.Pages? && |a.blocks| == count
  }

  lemma {:induction false} BlocksComeOnce(frames: seq<Incoming>, n: nat, k: nat, rid: RequestId, count: nat,
                                          e: Option<Code>, f: Option<Code>)
    requires BlocksCome(frames, n, rid, count, e) && BlocksCome(frames, k, rid, count, f)
    ensures e == f
  {
  }

  /** A login that just was refused. */
  ghost predicate IsRefused(log: seq<Event>, before: nat, rid: RequestId, code: Code) {
    Happened(log, before, Asked(rid, LoginAsk)) && Said(log, before, Arrived(Frame(rid, Reply(Error(code)))))
  }

  lemma {:induction false} LoginAnswered(log: seq<Event>, asked: seq<Event>, now: seq<Event>, before: nat,
                                         rid: RequestId, got: Received)
    requires before <= |log| && asked == log + [Asked(rid, LoginAsk)] && got.Got? && Reported(asked, now, got)
    requires got.rid == rid
    ensures log <= now
    ensures !got.body.Welcome? ==> Failed(now, before)
    ensures got.body.Reply? && got.body.answer.Error? ==> IsRefused(now, before, rid, got.body.answer.code)
  {
    assert now[|log|] == asked[|log|] == Asked(rid, LoginAsk);
    assert log <= now;
  }

  /** The answer to the last part. */
  predicate IsFinal(got: Received, ids: seq<RequestId>)
    requires got.Got? && ids != []
  {
    got.rid == ids[|ids| - 1] && got.body.Reply? && (got.body.answer.Ack? || got.body.answer.Error?)
  }

  /** The first refusal of one of the requests `ids`. */
  function FirstRefusal(frames: seq<Incoming>, ids: seq<RequestId>): Option<Code> {
    if frames == [] then None
    else
      var n := |frames| - 1;
      var earlier := FirstRefusal(frames[..n], ids);
      if earlier.None? && Refuses(frames[n], ids) then Some(frames[n].body.answer.code) else earlier
  }

  predicate Refuses(x: Incoming, ids: seq<RequestId>) {
    x.Frame? && x.rid in ids && x.body.Reply? && x.body.answer.Error?
  }

  /** Frames for others refuse nothing, so only the last frame of what was read can. */
  lemma {:induction false} ReadOn(all: seq<Incoming>, taken: seq<Incoming>, left: seq<Incoming>, read: seq<Incoming>,
                                  rest: seq<Incoming>, ids: seq<RequestId>)
    requires all == taken + left && left == read + rest && forall x <- Before(read) :: ForOther(x, ids)
    ensures all == (taken + read) + rest
    ensures read != [] ==>
            var x, known := read[|read| - 1], FirstRefusal(taken, ids);
            && EndsWith(taken + read, x) && x in all && FirstRefusal(Before(taken + read), ids) == known
            && FirstRefusal(taken + read, ids) ==
               if known.None? && Refuses(x, ids) then Some(x.body.answer.code) else known
  {
    OthersRefuseNothing(taken, Before(read), ids);
    if read != [] {
      assert (taken + read)[..|taken + read| - 1] == taken + Before(read);
      assert (taken + read)[|taken + read| - 1] == read[|read| - 1];
      assert all[|taken + read| - 1] == read[|read| - 1];
    }
  }

  /** After `known`, the frames of `taken` arrived, the last of which answers one of the requests `ids`. */
  ghost predicate IsNextPart(all: seq<Incoming>, known: seq<Incoming>, taken: seq<Incoming>, rest: seq<Incoming>,
                             ids: seq<RequestId>, got: Received)
  {
    && all == taken + rest
    && (got.Got? ==>
          var x, refusal := Frame(got.rid, got.body), FirstRefusal(known, ids);
          && got.rid in ids && |taken| > |known| && EndsWith(taken, x) && FirstRefusal(Before(taken), ids) == refusal
          && FirstRefusal(taken, ids) ==
             if refusal.None? && Refuses(x, ids) then Some(x.body.answer.code) else refusal)
  }

  lemma {:induction false} NextPart(all: seq<Incoming>, known: seq<Incoming>, left: seq<Incoming>, read: seq<Incoming>,
                                    rest: seq<Incoming>, ids: seq<RequestId>, got: Received)
    requires all == known + left && left == read + rest && forall x <- Before(read) :: ForOther(x, ids)
    requires got.Got? ==> got.rid in ids && EndsWith(read, Frame(got.rid, got.body))
    ensures IsNextPart(all, known, known + read, rest, ids, got)
  {
    ReadOn(all, known, left, read, rest, ids);
  }

  lemma {:induction false} OthersRefuseNothing(taken: seq<Incoming>, more: seq<Incoming>, ids: seq<RequestId>)
    requires forall x <- more :: ForOther(x, ids)
    ensures FirstRefusal(taken + more, ids) == FirstRefusal(taken, ids)
    decreases |more|
  {
    if more == [] {
      assert taken + more == taken;
    } else {
      var n := |more| - 1;
      assert (taken + more)[..|taken + more| - 1] == taken + more[..n];
      assert (taken + more)[|taken + more| - 1] == more[n] && more[n] in more;
      OthersRefuseNothing(taken, more[..n], ids);
    }
  }

  /** The call waits for the answer `rid` to its last part. */
  predicate AwaitsLast(p: Phase, id: CommitId, rid: RequestId, refusal: Option<Code>) {
    p.AwaitAck? && p.id == id && p.ids != [] && p.ids[|p.ids| - 1] == rid && p.refusal == refusal
  }
}
