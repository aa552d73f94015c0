/** The connection to the server: requests get increasing ids, and an answer belongs to the request with its id. */
module Link {
  import opened Common
  import opened Session
  import opened SessionMoves

  /** What arrives next: a frame, a frame that cannot be decoded, or the end of the connection. */
  datatype Incoming = Frame(rid: RequestId, body: Body) | Garbled | Cut

  /** `Revocation` comes unprompted, with request id 0. */
  datatype Body = Reply(answer: Answer) | Welcome | Revocation(epoch: nat)

  datatype Received = Got(rid: RequestId, body: Body) | Broke

  /** Outcome of a request: the answer to it, or nothing of use. */
  datatype Sent = Answered(rid: RequestId, answer: Answer) | Unknown

  // ---------------------------------------------------------------------------------------------------------------
  // What happened
  // ---------------------------------------------------------------------------------------------------------------

  datatype Ask = LoginAsk | LeaseAsk | PartAsk | LoadAsk

  /**
   * What happens on a connection and around it, in order: a request goes out or cannot, no new connection can be
   * opened, a frame arrives or none is left, a test of the deadline, of the access token, of the local copy.
   */
  datatype Event =
    | Asked(rid: RequestId, what: Ask)
    | NoSend
    | NoDial
    | Arrived(x: Incoming)
    | RanOut
    | Clock(late: bool)
    | Token(due: bool)
    | CopyCheck(fails: bool)

  /** `e` is among the events from `before` on. */
  ghost predicate Happened(log: seq<Event>, before: nat, e: Event) { exists i :: before <= i < |log| && log[i] == e }

  ghost predicate Said(log: seq<Event>, before: nat, e: Event) { before < |log| && log[|log| - 1] == e }

  /** A frame that does not answer request `rid` as it must: a login with a welcome, anything else with a reply. */
  ghost predicate IsUnusable(log: seq<Event>, x: Incoming) {
    x.Frame? && exists what :: Asked(x.rid, what) in log && if what.LoginAsk? then !x.body.Welcome? else !x.body.Reply?
  }

  /** The last event, after `before`, is one with which a connection fails its user. */
  ghost predicate Failed(log: seq<Event>, before: nat) {
    && before < |log|
    && var e := log[|log| - 1];
    e.NoSend? || e.NoDial? || e.RanOut? || (e.Arrived? && (!e.x.Frame? || IsUnusable(log, e.x)))
  }

  /** That, and then the deadline was tested. */
  ghost predicate FailedLate(log: seq<Event>, before: nat, late: bool) {
    log != [] && log[|log| - 1] == Clock(late) && Failed(log[..|log| - 1], before)
  }

  /** What happened since `before` gives reason for the move. A heal has no deadline, but checks the local copy. */
  ghost predicate Justified(cl: Client, m: Move, before: nat, log: seq<Event>) {
    match m
    case SentPart(rid, _) => Happened(log, before, Asked(rid, PartAsk))
    case SentResume(rid) => Happened(log, before, Asked(rid, LeaseAsk)) || Happened(log, before, Asked(rid, LoginAsk))
    case SentLoad(rid) => Happened(log, before, Asked(rid, LoadAsk))
    case Took(rid, a, late, _) =>
      && Happened(log, before, Arrived(Frame(rid, Reply(a))))
      && (late ==> Said(log, before, if Heals(cl.phase) then CopyCheck(true) else Clock(true)))
    case LostLink(late) => if late then FailedLate(log, before, true)
                           else Failed(log, before) || FailedLate(log, before, false)
    case Noted(epoch) => Happened(log, before, Arrived(Frame(0, Revocation(epoch))))
  }

  // ---------------------------------------------------------------------------------------------------------------
  // What is in store
  // ---------------------------------------------------------------------------------------------------------------

  /** Whether the connection is up, and what server, network, clock, login and local copy have in store. */
  datatype Store = Store(connected: bool, incoming: seq<Incoming>, sendFaults: seq<bool>, dialFaults: seq<bool>,
                         clock: seq<bool>, dues: seq<bool>, copyFaults: seq<bool>)

  /** `b` is what is left of `a`. */
  ghost predicate IsLeft<T>(a: seq<T>, b: seq<T>) {
    |b| <= |a| && forall i :: 0 <= i < |b| ==> b[i] == a[|a| - |b| + i]
  }

  /** `x` is among what was used up of `a`, if `b` is left. */
  ghost predicate IsUsed<T>(a: seq<T>, b: seq<T>, x: T) { exists i :: 0 <= i < |a| - |b| && a[i] == x }

  /** The connection was down to begin with, or there is a reason why it is. */
  ghost predicate MayBeDown(a: Store, b: Store) {
    || !a.connected || IsUsed(a.sendFaults, b.sendFaults, true) || IsUsed(a.incoming, b.incoming, Cut)
    || b.incoming == []
  }

  /** The event comes from what was used up between `a` and `b`. */
  ghost predicate Explained(e: Event, a: Store, b: Store) {
    match e
    case Asked(_, _) => true
    case NoSend => MayBeDown(a, b)
    case NoDial => IsUsed(a.dialFaults, b.dialFaults, true)
    case Arrived(x) => IsUsed(a.incoming, b.incoming, x)
    case RanOut => MayBeDown(a, b)
    case Clock(late) => late ==> IsUsed(a.clock, b.clock, true) || b.clock == []
    case Token(due) => due ==> IsUsed(a.dues, b.dues, true)
    case CopyCheck(fails) => fails ==> IsUsed(a.copyFaults, b.copyFaults, true)
  }

  ghost predicate ExplainedAt(log: seq<Event>, i: nat, a: Store, b: Store)
    requires i < |log|
  {
    Explained(log[i], a, b)
  }

  datatype Kind = Up | Frames | Sends | Dials | Deadlines | Tokens | Copies

  /** Of each kind, what `b` has is left of what `a` had. */
  ghost predicate IsLeftOf(kind: Kind, a: Store, b: Store) {
    match kind
    case Up => b.connected || MayBeDown(a, b)
    case Frames => IsLeft(a.incoming, b.incoming)
    case Sends => IsLeft(a.sendFaults, b.sendFaults)
    case Dials => IsLeft(a.dialFaults, b.dialFaults)
    case Deadlines => IsLeft(a.clock, b.clock)
    case Tokens => IsLeft(a.dues, b.dues)
    case Copies => IsLeft(a.copyFaults, b.copyFaults)
  }

  ghost predicate AllLeft(a: Store, b: Store) { forall kind :: IsLeftOf(kind, a, b) }

  /** `b` is left of `a`, and all that the log tells since `before` comes from what was used up. */
  ghost predicate Told(a: Store, before: nat, b: Store, log: seq<Event>) {
    before <= |log| && AllLeft(a, b) && forall i :: before <= i < |log| ==> ExplainedAt(log, i, a, b)
  }

  lemma {:induction false} LeftOn<T>(a: seq<T>, b: seq<T>, c: seq<T>)
    requires IsLeft(a, b) && IsLeft(b, c)
    ensures IsLeft(a, c)
    ensures forall x :: IsUsed(a, b, x) || IsUsed(b, c, x) ==> IsUsed(a, c, x)
  {
    forall x | IsUsed(b, c, x) ensures IsUsed(a, c, x) {
      var i :| 0 <= i < |b| - |c| && b[i] == x;
      assert a[|a| - |b| + i] == x;
    }
  }

  lemma {:induction false} KindsLeft(a: Store, b: Store)
    requires AllLeft(a, b)
    ensures IsLeft(a.incoming, b.incoming) && IsLeft(a.sendFaults, b.sendFaults) && IsLeft(a.dialFaults, b.dialFaults)
    ensures IsLeft(a.clock, b.clock) && IsLeft(a.dues, b.dues) && IsLeft(a.copyFaults, b.copyFaults)
    ensures b.connected || MayBeDown(a, b)
  {
    assert IsLeftOf(Up, a, b) && IsLeftOf(Frames, a, b) && IsLeftOf(Sends, a, b) && IsLeftOf(Dials, a, b);
    assert IsLeftOf(Deadlines, a, b) && IsLeftOf(Tokens, a, b) && IsLeftOf(Copies, a, b);
  }

  lemma {:induction false} AllLeftOn(a: Store, b: Store, c: Store)
    requires AllLeft(a, b) && AllLeft(b, c)
    ensures AllLeft(a, c) && (MayBeDown(a, b) || MayBeDown(b, c) ==> MayBeDown(a, c))
    ensures forall e :: Explained(e, a, b) || Explained(e, b, c) ==> Explained(e, a, c)
  {
    KindsLeft(a, b);
    KindsLeft(b, c);
    LeftOn(a.incoming, b.incoming, c.incoming);
    LeftOn(a.sendFaults, b.sendFaults, c.sendFaults);
    LeftOn(a.dialFaults, b.dialFaults, c.dialFaults);
    LeftOn(a.clock, b.clock, c.clock);
    LeftOn(a.dues, b.dues, c.dues);
    LeftOn(a.copyFaults, b.copyFaults, c.copyFaults);
  }

  lemma {:induction false} ToldOn(a: Store, before: nat, b: Store, log: seq<Event>, c: Store, longer: seq<Event>)
    requires Told(a, before, b, log) && Told(b, |log|, c, longer) && log <= longer
    ensures Told(a, before, c, longer)
  {
    AllLeftOn(a, b, c);
    forall i | before <= i < |longer| ensures ExplainedAt(longer, i, a, c) {
      if i < |log| { assert ExplainedAt(log, i, a, b) && longer[i] == log[i]; }
      else { assert ExplainedAt(longer, i, b, c); }
    }
  }

  /** Nothing happens. */
  lemma {:induction false} ToldNothing(a: Store, log: seq<Event>)
    ensures Told(a, |log|, a, log)
  {
  }

  /** One thing happens. */
  lemma {:induction false} ToldOne(a: Store, b: Store, log: seq<Event>, e: Event)
    requires AllLeft(a, b) && Explained(e, a, b)
    ensures Told(a, |log|, b, log + [e])
  {
  }

  lemma {:induction false} IsThere<T>(a: seq<T>, b: seq<T>, x: T)
    requires IsLeft(a, b) && x in b
    ensures x in a
  {
    var i :| 0 <= i < |b| && b[i] == x;
    assert a[|a| - |b| + i] == x;
  }

  // ---------------------------------------------------------------------------------------------------------------
  // Traces
  // ---------------------------------------------------------------------------------------------------------------

  /** One move: the session and the newest id of a request after it, and what had happened by then. */
  datatype Step = Step(move: Move, after: Client, newest: nat, log: seq<Event>)

  /**
   * The moves of a session since it was `start`, when `from` was the newest id of a request and `before` events had
   * happened; what was in store then; and how many parts its commit has.
   */
  datatype Trace = Trace(start: Client, from: nat, before: nat, store: Store, parts: nat, steps: seq<Step>)

  function Moves(t: Trace): (moves: seq<Move>)
    ensures |moves| == |t.steps| && forall k :: 0 <= k < |moves| ==> moves[k] == t.steps[k].move
  {
    seq(|t.steps|, k requires 0 <= k < |t.steps| => t.steps[k].move)
  }

  function ClientAt(t: Trace, k: nat): Client
    requires k <= |t.steps|
  {
    if k == 0 then t.start else t.steps[k - 1].after
  }

  function NewestAt(t: Trace, k: nat): nat
    requires k <= |t.steps|
  {
    if k == 0 then t.from else t.steps[k - 1].newest
  }

  /** An answer that is taken is one of the frames, and what is sent is a part of the commit. */
  predicate IsOf(t: Trace, m: Move) {
    (m.Took? ==> Frame(m.rid, Reply(m.a)) in t.store.incoming) && (m.SentPart? ==> m.of == t.parts)
  }

  /** Move `k` was possible, had a reason, and numbered what it sent higher than everything before. */
  ghost predicate StepHolds(t: Trace, k: nat, log: seq<Event>)
    requires k < |t.steps|
  {
    var cl, s := ClientAt(t, k), t.steps[k];
    && Legal(cl, s.move) && s.after == Moved(cl, s.move) && Rising(SentId(s.move), NewestAt(t, k), s.newest)
    && IsOf(t, s.move) && s.log <= log && Justified(cl, s.move, t.before, s.log)
  }

  /** The moves have led to `cl`, each with reason, and `newest` is the newest id of a request by now. */
  ghost predicate Follows(t: Trace, cl: Client, newest: nat, log: seq<Event>) {
    && t.before <= |log| && cl == ClientAt(t, |t.steps|) && NewestAt(t, |t.steps|) <= newest
    && forall k :: 0 <= k < |t.steps| ==> StepHolds(t, k, log)
  }

  ghost predicate GoesOn(t: Trace, t': Trace) { t' == t.(steps := t'.steps) }

  function Add(t: Trace, m: Move, cl: Client, newest: nat, log: seq<Event>): Trace {
    t.(steps := t.steps + [Step(m, cl, newest, log)])
  }

  lemma {:induction false} FollowsStill(t: Trace, cl: Client, newest: nat, log: seq<Event>, newer: nat,
                                        longer: seq<Event>)
    requires Follows(t, cl, newest, log) && newest <= newer && log <= longer
    ensures Follows(t, cl, newer, longer)
  {
    forall k | 0 <= k < |t.steps| ensures StepHolds(t, k, longer) {
      assert StepHolds(t, k, log);
      PrefixOn(t.steps[k].log, log, longer);
    }
  }

  lemma PrefixOn<T>(a: seq<T>, b: seq<T>, c: seq<T>)
    requires a <= b <= c
    ensures a <= c
  {
  }

  lemma {:induction false} MoveFollows(t: Trace, cl: Client, newest: nat, log: seq<Event>, m: Move, newer: nat,
                                       longer: seq<Event>) returns (t': Trace, cl': Client)
    requires Follows(t, cl, newest, log) && log <= longer && Legal(cl, m) && Rising(SentId(m), newest, newer)
    requires IsOf(t, m) && Justified(cl, m, t.before, longer)
    ensures Follows(t', cl', newer, longer) && GoesOn(t, t') && cl' == Moved(cl, m)
  {
    cl' := Moved(cl, m);
    t' := Add(t, m, cl', newer, longer);
    FollowsStill(t, cl, newest, log, newer, longer);
    forall k | 0 <= k < |t'.steps| ensures StepHolds(t', k, longer) {
      assert 0 < k ==> t'.steps[k - 1] == t.steps[k - 1];
      if k < |t.steps| { assert StepHolds(t, k, longer) && t'.steps[k] == t.steps[k]; }
    }
  }

  /** The moves of a trace are those of a session. */
  lemma {:induction false} FollowsMakes(t: Trace, cl: Client, newest: nat, log: seq<Event>)
    requires Follows(t, cl, newest, log)
    ensures Makes(t.start, t.from, Moves(t), cl, newest)
    ensures forall m <- Moves(t) :: IsOf(t, m)
  {
    MakesUpTo(t, cl, newest, log, |t.steps|);
    assert Moves(t)[..|t.steps|] == Moves(t);
    forall m <- Moves(t) ensures IsOf(t, m) {
      var k :| 0 <= k < |t.steps| && t.steps[k].move == m;
      assert StepHolds(t, k, log);
    }
  }

  lemma {:induction false} MakesUpTo(t: Trace, cl: Client, newest: nat, log: seq<Event>, n: nat)
    requires Follows(t, cl, newest, log) && n <= |t.steps|
    ensures Makes(t.start, t.from, Moves(t)[..n], ClientAt(t, n), NewestAt(t, n))
  {
    if n > 0 {
      MakesUpTo(t, cl, newest, log, n - 1);
      assert StepHolds(t, n - 1, log);
      var s := t.steps[n - 1];
      MakesTo(t.start, t.from, Moves(t)[..n - 1], ClientAt(t, n - 1), NewestAt(t, n - 1), s.move, s.newest);
      assert Moves(t)[..n] == Moves(t)[..n - 1] + [s.move];
    }
  }

  /** The move of a session that sends a request. */
  function SentBy(what: Ask, rid: RequestId, parts: nat): Move
    requires !what.LoginAsk?
  {
    match what
    case LeaseAsk => SentResume(rid)
    case PartAsk => SentPart(rid, parts)
    case LoadAsk => SentLoad(rid)
  }

  /** A request that just went out is a move. */
  lemma {:induction false} AskFollows(t: Trace, cl: Client, newest: nat, log: seq<Event>, what: Ask, rid: RequestId,
                                      longer: seq<Event>) returns (t': Trace, cl': Client)
    requires Follows(t, cl, newest, log) && longer == log + [Asked(rid, what)] && newest < rid
    requires !what.LoginAsk? && Legal(cl, SentBy(what, rid, t.parts))
    ensures Follows(t', cl', rid, longer) && GoesOn(t, t') && cl' == Moved(cl, SentBy(what, rid, t.parts))
    ensures Happened(longer, t.before, Asked(rid, what))
  {
    assert longer[|log|] == Asked(rid, what);
    t', cl' := MoveFollows(t, cl, newest, log, SentBy(what, rid, t.parts), rid, longer);
  }

  /** So is an answer that arrived last, but for a test of the deadline or the copy. */
  lemma {:induction false} AnswerFollows(t: Trace, cl: Client, newest: nat, was: seq<Event>, log: seq<Event>,
                                         rid: RequestId, a: Answer, late: bool, renew: bool)
      returns (t': Trace, cl': Client)
    requires Follows(t, cl, newest, log) && was <= log && Said(was, t.before, Arrived(Frame(rid, Reply(a))))
    requires Legal(cl, Took(rid, a, late, renew)) && Frame(rid, Reply(a)) in t.store.incoming
    requires late ==> Said(log, t.before, if Heals(cl.phase) then CopyCheck(true) else Clock(true))
    ensures Follows(t', cl', newest, log) && GoesOn(t, t') && cl' == React(cl, rid, a, late, renew)
  {
    assert log[|was| - 1] == Arrived(Frame(rid, Reply(a)));
    t', cl' := MoveFollows(t, cl, newest, log, Took(rid, a, late, renew), newest, log);
  }

  /** And so is a failure of the connection. */
  lemma {:induction false} LossFollows(t: Trace, cl: Client, newest: nat, was: seq<Event>, log: seq<Event>, late: bool)
      returns (t': Trace, cl': Client)
    requires Follows(t, cl, newest, log) && Failed(was, t.before)
    requires (log == was && !late) || log == was + [Clock(late)]
    ensures Follows(t', cl', newest, log) && GoesOn(t, t') && cl' == Lost(cl, late)
  {
    assert log != was ==> log[..|log| - 1] == was;
    t', cl' := MoveFollows(t, cl, newest, log, LostLink(late), newest, log);
  }

  /** The session waits for request `asked`. */
  function Waiting(cl: Client, asked: Option<RequestId>): Client {
    match cl.phase
    case Resuming(why, _) => cl.(phase := Resuming(why, asked))
    case Loading(purpose, first, count, _) => cl.(phase := Loading(purpose, first, count, asked))
    case _ => cl
  }

  /** Frame `n` answers a request: a reply is the result, and the frames after it are left. */
  ghost predicate TakesAt(frames: seq<Incoming>, n: nat, r: Sent, rest: seq<Incoming>) {
    && n < |frames| && frames[n].Frame? && rest == frames[n + 1..]
    && if frames[n].body.Reply? then r == Answered(frames[n].rid, frames[n].body.answer) else r.Unknown?
  }

  lemma {:induction false} UnusableFails(log: seq<Event>, now: seq<Event>, before: nat, what: Ask, got: Received)
    requires before <= |log| && Reported(log, now, got) && got.Got? && !got.body.Reply?
    requires Asked(got.rid, what) in log && !what.LoginAsk?
    ensures Failed(now, before)
  {
    assert Asked(got.rid, what) in now;
  }

  /** A revocation that just arrived is noted. */
  lemma {:induction false} RevocationFollows(t: Trace, cl: Client, newest: nat, log: seq<Event>, epoch: nat)
      returns (t': Trace, cl': Client)
    requires Follows(t, cl, newest, log) && Said(log, t.before, Arrived(Frame(0, Revocation(epoch))))
    ensures Follows(t', cl', newest, log) && GoesOn(t, t') && cl' == cl.(revokedTo := Max(cl.revokedTo, epoch))
  {
    t', cl' := MoveFollows(t, cl, newest, log, Noted(epoch), newest, log);
  }

  /** The newest epoch that was known or that an unprompted revocation among the frames names. */
  function RevokedBy(frames: seq<Incoming>, known: nat): nat {
    if frames == [] then known
    else
      var n := |frames| - 1;
      var epoch := RevokedBy(frames[..n], known);
      if Revokes(frames[n]) then Max(epoch, frames[n].body.epoch) else epoch
  }

  predicate Revokes(x: Incoming) { Unprompted(x) && x.body.Revocation? }

  lemma {:induction false} RevokedByIsMax(frames: seq<Incoming>, known: nat)
    ensures RevokedBy(frames, known) >= known
    ensures forall x <- frames :: Revokes(x) ==> x.body.epoch <= RevokedBy(frames, known)
    ensures RevokedBy(frames, known) == known ||
            exists x :: x in frames && Revokes(x) && x.body.epoch == RevokedBy(frames, known)
    decreases |frames|
  {
    if frames != [] {
      var n := |frames| - 1;
      RevokedByIsMax(frames[..n], known);
      forall x <- frames | Revokes(x) ensures x.body.epoch <= RevokedBy(frames, known) {
        assert x == frames[n] || x in frames[..n];
      }
    }
  }

  lemma {:induction false} RevokedByMore(frames: seq<Incoming>, more: seq<Incoming>, known: nat)
    ensures RevokedBy(frames + more, known) == RevokedBy(more, RevokedBy(frames, known))
    decreases |more|
  {
    if more == [] {
      assert frames + more == frames;
    } else {
      var n := |more| - 1;
      assert (frames + more)[..|frames| + n] == frames + more[..n];
      RevokedByMore(frames, more[..n], known);
    }
  }

  /** Of the frames of `all`, those of `taken` arrived, and their revocations are known. */
  ghost predicate Heard(all: seq<Incoming>, taken: seq<Incoming>, rest: seq<Incoming>, known: nat, now: nat) {
    all == taken + rest && now == RevokedBy(taken, known)
  }

  lemma {:induction false} HeardOn(all: seq<Incoming>, taken: seq<Incoming>, rest: seq<Incoming>, known: nat, now: nat,
                                   more: seq<Incoming>, left: seq<Incoming>, later: nat)
    requires Heard(all, taken, rest, known, now) && Heard(rest, more, left, now, later)
    ensures Heard(all, taken + more, left, known, later)
  {
    RevokedByMore(taken, more, known);
    assert taken + (more + left) == (taken + more) + left;
  }

  /** The next frame was heard. */
  lemma {:induction false} HeardNext(all: seq<Incoming>, taken: seq<Incoming>, rest: seq<Incoming>, known: nat,
                                     now: nat)
    requires Heard(all, taken, rest, known, now) && rest != []
    ensures Heard(all, taken + [rest[0]], rest[1..], known,
                  if Revokes(rest[0]) then Max(now, rest[0].body.epoch) else now)
  {
    assert (taken + [rest[0]])[..|taken|] == taken;
  }

  /** The frames of `taken` in front of its last one. */
  function Before(taken: seq<Incoming>): seq<Incoming> { if taken == [] then [] else taken[..|taken| - 1] }

  predicate EndsWith(taken: seq<Incoming>, x: Incoming) { taken != [] && taken[|taken| - 1] == x }

  predicate Unprompted(x: Incoming) { x.Frame? && x.rid == 0 }

  predicate ForOther(x: Incoming, ids: seq<RequestId>) { x.Frame? && x.rid !in ids }

  /** Frame `n` is the first one with one of these ids, and the connection delivers everything before it. */
  ghost predicate FirstAnswer(frames: seq<Incoming>, n: nat, ids: seq<RequestId>) {
    n < |frames| && frames[n].Frame? && frames[n].rid in ids && forall k :: 0 <= k < n ==> ForOther(frames[k], ids)
  }

  /** Why nothing more was received: the connection was down, ended, or sent what cannot be read. */
  ghost predicate Breaks(connected: bool, taken: seq<Incoming>, rest: seq<Incoming>) {
    !connected || EndsWith(taken, Cut) || EndsWith(taken, Garbled) || rest == []
  }

  /** Waiting for `ids` ended with the last frame of `taken`, if there was one for them. */
  ghost predicate IsWaited(all: seq<Incoming>, taken: seq<Incoming>, rest: seq<Incoming>, ids: seq<RequestId>,
                           r: Received)
  {
    && |rest| <= |all| && (forall x <- Before(taken) :: ForOther(x, ids))
    && (r.Got? ==> r.rid in ids && EndsWith(taken, Frame(r.rid, r.body)) && Frame(r.rid, r.body) in all)
  }

  /** If frame `n` is the first for `ids`, it is the one that was found. */
  ghost predicate FindsFirst(all: seq<Incoming>, n: nat, rest: seq<Incoming>, ids: seq<RequestId>, r: Received) {
    FirstAnswer(all, n, ids) ==> r.Got? && Frame(r.rid, r.body) == all[n] && rest == all[n + 1..]
  }

  lemma {:induction false} WaitGoesOn(all: seq<Incoming>, taken: seq<Incoming>, left: seq<Incoming>,
                                      more: seq<Incoming>, rest: seq<Incoming>, ids: seq<RequestId>, r: Received,
                                      up: bool, n: nat)
    requires all == taken + left && left == more + rest && 0 !in ids
    requires (forall x <- taken :: ForOther(x, ids)) && (forall x <- Before(more) :: Unprompted(x))
    requires r.Got? ==> EndsWith(more, Frame(r.rid, r.body)) && r.rid != 0
    requires r.Broke? ==> Breaks(up, more, rest)
    requires r.Broke? && !EndsWith(more, Cut) && !EndsWith(more, Garbled) ==> forall x <- more :: Unprompted(x)
    ensures r.Got? && r.rid !in ids ==> forall x <- taken + more :: ForOther(x, ids)
    ensures r.Broke? || r.rid in ids ==> IsWaited(all, taken + more, rest, ids, r)
    ensures (r.Broke? || r.rid in ids) && up ==> FindsFirst(all, n, rest, ids, r)
  {
    var now := taken + more;
    BeforeAdded(taken, more);
    assert all == now + rest;
    if more != [] { assert now[|now| - 1] == more[|more| - 1] && now[|now| - 1] in all; }
    if (r.Broke? || r.rid in ids) && up && FirstAnswer(all, n, ids) {
      FirstAnswerIsNext(all, n, ids, now, rest, r);
    }
  }

  /** Without a break, waiting ends at the first answer. */
  lemma {:induction false} FirstAnswerIsNext(all: seq<Incoming>, n: nat, ids: seq<RequestId>, taken: seq<Incoming>,
                                             rest: seq<Incoming>, r: Received)
    requires FirstAnswer(all, n, ids) && all == taken + rest && (forall x <- Before(taken) :: ForOther(x, ids))
    requires r.Got? ==> EndsWith(taken, Frame(r.rid, r.body)) && r.rid in ids
    requires r.Broke? ==> EndsWith(taken, Cut) || EndsWith(taken, Garbled) ||
                          (rest == [] && forall x <- taken :: ForOther(x, ids))
    ensures r.Got? && Frame(r.rid, r.body) == all[n] && |taken| == n + 1 && rest == all[n + 1..]
  {
    var p := |taken| - 1;
    forall k | 0 <= k < p ensures ForOther(all[k], ids) { assert Before(taken)[k] == all[k]; }
    assert 0 <= p ==> all[p] == taken[p] && taken[p] in taken;
    assert all[|taken|..] == rest;
  }

  class Link {
    var connected: bool
    var logins: nat
    var nextId: nat
    /** The newest epoch a revocation of this database named. */
    var revokedTo: nat
    /** What the server, the network, the clock, the login and the local copy still have in store. */
    var incoming: seq<Incoming>
    var sendFaults: seq<bool>
    var dialFaults: seq<bool>
    var clock: seq<bool>
    var dues: seq<bool>
    var copyFaults: seq<bool>
    ghost var log: seq<Event>

    constructor (incoming: seq<Incoming>, sendFaults: seq<bool>, dialFaults: seq<bool>, clock: seq<bool>,
                 dues: seq<bool>, copyFaults: seq<bool>)
      ensures this.incoming == incoming && this.sendFaults == sendFaults && this.dialFaults == dialFaults
      ensures this.clock == clock && this.dues == dues && this.copyFaults == copyFaults
      ensures nextId == 0 && revokedTo == 0 && !connected && log == []
    {
      this.incoming, this.sendFaults, this.dialFaults := incoming, sendFaults, dialFaults;
      this.clock, this.dues, this.copyFaults := clock, dues, copyFaults;
      connected, logins, nextId, revokedTo, log := false, 0, 0, 0, [];
    }

    ghost function Left(): Store
      reads this
    {
      Store(connected, incoming, sendFaults, dialFaults, clock, dues, copyFaults)
    }

    /** The connection is up, and the next `n` requests go out on it. */
    ghost predicate Sends(n: nat)
      reads this
    {
      connected && forall k :: 0 <= k < n && k < |sendFaults| ==> !sendFaults[k]
    }

    /** The access token is not to be renewed when it is tested next. */
    ghost predicate TokenLasts()
      reads this
    {
      dues == [] || !dues[0]
    }

    /** The local copy passes its next check. */
    ghost predicate CopyWorks()
      reads this
    {
      copyFaults == [] || !copyFaults[0]
    }

    /** The deadline test. Time passes: once the clock has run out, every test says yes. */
    method IsLate() returns (late: bool)
      modifies this`clock, this`log
      ensures late == (old(clock) == [] || old(clock)[0]) && clock == if old(clock) == [] then [] else old(clock)[1..]
      ensures log == old(log) + [Clock(late)]
      ensures Told(old(Left()), |old(log)|, Left(), log)
    {
      late := clock == [] || clock[0];
      if clock != [] { clock := clock[1..]; }
      log := log + [Clock(late)];
      ToldOne(old(Left()), Left(), old(log), Clock(late));
    }

    /** Whether the access token is to be renewed. */
    method IsDue() returns (due: bool)
      modifies this`dues, this`log
      ensures due == !old(TokenLasts()) && dues == if old(dues) == [] then [] else old(dues)[1..]
      ensures log == old(log) + [Token(due)]
      ensures Told(old(Left()), |old(log)|, Left(), log)
    {
      due := dues != [] && dues[0];
      if dues != [] { dues := dues[1..]; }
      log := log + [Token(due)];
      ToldOne(old(Left()), Left(), old(log), Token(due));
    }

    /** Whether the check of the local copy fails, which may need the server. */
    method CopyFails() returns (fails: bool)
      modifies this`copyFaults, this`log
      ensures fails == !old(CopyWorks())
      ensures log == old(log) + [CopyCheck(fails)]
      ensures Told(old(Left()), |old(log)|, Left(), log)
    {
      fails := copyFaults != [] && copyFaults[0];
      if copyFaults != [] { copyFaults := copyFaults[1..]; }
      log := log + [CopyCheck(fails)];
      ToldOne(old(Left()), Left(), old(log), CopyCheck(fails));
    }

    /** Opens a new connection. */
    method Dial() returns (ok: bool)
      modifies this`connected, this`dialFaults, this`log
      ensures ok == (old(dialFaults) == [] || !old(dialFaults)[0])
      ensures if ok then connected && log == old(log) else log == old(log) + [NoDial]
      ensures Told(old(Left()), |old(log)|, Left(), log)
    {
      ok := dialFaults == [] || !dialFaults[0];
      if dialFaults != [] { dialFaults := dialFaults[1..]; }
      if ok {
        connected := true;
      } else {
        log := log + [NoDial];
        ToldOne(old(Left()), Left(), old(log), NoDial);
      }
    }

    /** Sends a frame under a new id. A failure breaks the connection. */
    method Send(what: Ask) returns (rid: Option<RequestId>)
      modifies this`connected, this`nextId, this`sendFaults, this`log
      ensures rid.Some? <==> old(Sends(1))
      ensures rid.Some? ==> connected && rid.value == nextId == old(nextId) + 1
      ensures rid.Some? ==> sendFaults == if old(sendFaults) == [] then [] else old(sendFaults)[1..]
      ensures rid.None? ==> !connected && nextId >= old(nextId)
      ensures log == old(log) + [if rid.Some? then Asked(rid.value, what) else NoSend]
      ensures Told(old(Left()), |old(log)|, Left(), log)
    {
      if !connected {
        log := log + [NoSend];
        ToldOne(old(Left()), Left(), old(log), NoSend);
        return None;
      }
      nextId := nextId + 1;
      var ok := sendFaults == [] || !sendFaults[0];
      if sendFaults != [] { sendFaults := sendFaults[1..]; }
      if !ok {
        connected := false;
        log := log + [NoSend];
        ToldOne(old(Left()), Left(), old(log), NoSend);
        return None;
      }
      rid := Some(nextId);
      log := log + [Asked(nextId, what)];
      ToldOne(old(Left()), Left(), old(log), Asked(nextId, what));
    }

    /** What arrives next, if the connection is up and there is anything. */
    method Take(ghost t: Trace, ghost cl: Client, ghost newest: nat) returns (next: Option<Incoming>)
      requires Follows(t, cl, newest, log)
      modifies this`connected, this`incoming, this`log
      ensures if old(connected) && old(incoming) != [] then
                && next == Some(old(incoming)[0]) && incoming == old(incoming)[1..] && connected == !next.value.Cut?
                && log == old(log) + [Arrived(next.value)]
              else next.None? && incoming == old(incoming) && !connected && log == old(log) + [RanOut]
      ensures Follows(t, cl, newest, log) && Told(old(Left()), |old(log)|, Left(), log)
    {
      ghost var e := RanOut;
      if !connected || incoming == [] {
        next, connected := None, false;
      } else {
        next, incoming, e := Some(incoming[0]), incoming[1..], Arrived(incoming[0]);
        if next.value.Cut? { connected := false; }
      }
      ToldOne(old(Left()), Left(), log, e);
      FollowsStill(t, cl, newest, log, newest, log + [e]);
      log := log + [e];
    }

    /** The next frame that is not unprompted. Revocations are noted on the way. */
    method Receive(ghost t: Trace, ghost cl: Client, ghost newest: nat)
        returns (r: Received, ghost t': Trace, ghost cl': Client, ghost taken: seq<Incoming>)
      requires cl.revokedTo == revokedTo && Follows(t, cl, newest, log)
      modifies this`connected, this`revokedTo, this`incoming, this`log
      ensures Heard(old(incoming), taken, incoming, old(revokedTo), revokedTo)
      ensures forall x <- Before(taken) :: Unprompted(x)
      ensures r.Got? ==> EndsWith(taken, Frame(r.rid, r.body)) && r.rid != 0
      ensures r.Broke? ==> Breaks(old(connected), taken, incoming)
      ensures r.Broke? && !EndsWith(taken, Cut) && !EndsWith(taken, Garbled) ==> forall x <- taken :: Unprompted(x)
      ensures Follows(t', cl', newest, log) && GoesOn(t, t') && cl' == cl.(revokedTo := revokedTo)
      ensures r.Got? ==> connected == old(connected)
      ensures Reported(old(log), log, r) && Told(old(Left()), |old(log)|, Left(), log)
    {
      t', cl', taken := t, cl, [];
      ToldNothing(Left(), log);
      while true
        invariant Heard(old(incoming), taken, incoming, old(revokedTo), revokedTo)
        invariant forall x <- taken :: Unprompted(x)
        invariant Follows(t', cl', newest, log) && GoesOn(t, t') && cl' == cl.(revokedTo := revokedTo)
        invariant connected == old(connected) && old(log) <= log && Told(old(Left()), |old(log)|, Left(), log)
        decreases |incoming|
      {
        ghost var before, was := Left(), log;
        var next := Take(t', cl', newest);
        ToldOn(old(Left()), |old(log)|, before, was, Left(), log);
        if next.None? { return Broke, t', cl', taken; }
        HeardNext(old(incoming), taken, before.incoming, old(revokedTo), revokedTo);
        taken := taken + [next.value];
        match next.value
        case Cut => return Broke, t', cl', taken;
        case Garbled => return Broke, t', cl', taken;
        case Frame(rid, body) =>
          if rid != 0 { return Got(rid, body), t', cl', taken; }
          if body.Revocation? {
            t', cl' := RevocationFollows(t', cl', newest, log, body.epoch);
            revokedTo := Max(revokedTo, body.epoch);
          }
      }
    }

    /** Waits for an answer to one of the requests `ids`: the first frame with such an id. Other frames are skipped. */
    method Await(ids: seq<RequestId>, ghost t: Trace, ghost cl: Client, ghost newest: nat, ghost n: nat)
        returns (r: Received, ghost t': Trace, ghost cl': Client, ghost taken: seq<Incoming>)
      requires cl.revokedTo == revokedTo && 0 !in ids && Follows(t, cl, newest, log)
      modifies this`connected, this`revokedTo, this`incoming, this`log
      ensures Heard(old(incoming), taken, incoming, old(revokedTo), revokedTo)
      ensures IsWaited(old(incoming), taken, incoming, ids, r)
      ensures Follows(t', cl', newest, log) && GoesOn(t, t') && cl' == cl.(revokedTo := revokedTo)
      ensures r.Got? ==> connected == old(connected)
      ensures Reported(old(log), log, r) && Told(old(Left()), |old(log)|, Left(), log)
      ensures old(connected) ==> FindsFirst(old(incoming), n, incoming, ids, r)
    {
      t', cl', taken := t, cl, [];
      ToldNothing(Left(), log);
      while true
        invariant Heard(old(incoming), taken, incoming, old(revokedTo), revokedTo)
        invariant forall x <- taken :: ForOther(x, ids)
        invariant Follows(t', cl', newest, log) && GoesOn(t, t') && cl' == cl.(revokedTo := revokedTo)
        invariant connected == old(connected) && old(log) <= log && Told(old(Left()), |old(log)|, Left(), log)
        decreases |incoming|
      {
        ghost var more, left, known, was, before := [], incoming, revokedTo, log, Left();
        r, t', cl', more := Receive(t', cl', newest);
        ReportedOn(old(log), was, log, r);
        ToldOn(old(Left()), |old(log)|, before, was, Left(), log);
        HeardOn(old(incoming), taken, left, old(revokedTo), known, more, incoming, revokedTo);
        WaitGoesOn(old(incoming), taken, left, more, incoming, ids, r, old(connected), n);
        taken := taken + more;
        if r.Broke? || r.rid in ids { return; }
      }
    }

    /** Sends the request a session needs next and waits for the answer. */
    method Request(what: Ask, ghost t: Trace, ghost cl: Client, ghost n: nat)
        returns (r: Sent, ghost asked: Option<RequestId>, ghost t': Trace, ghost cl': Client)
      requires what == if cl.phase.Resuming? then LeaseAsk else LoadAsk
      requires (cl.phase.Resuming? || cl.phase.Loading?) && Waiting(cl, None) == cl && cl.revokedTo == revokedTo
      requires Follows(t, cl, nextId, log) && IsLeft(t.store.incoming, incoming)
      modifies this`connected, this`nextId, this`sendFaults, this`revokedTo, this`incoming, this`log
      ensures Follows(t', cl', nextId, log) && GoesOn(t, t') && old(log) <= log && |incoming| <= |old(incoming)|
      ensures Told(old(Left()), |old(log)|, Left(), log)
      ensures cl' == Waiting(cl, asked).(revokedTo := revokedTo)
      ensures r.Answered? ==> asked == Some(r.rid) && |incoming| < |old(incoming)| && connected
      ensures r.Answered? ==> Frame(r.rid, Reply(r.answer)) in t.store.incoming
      ensures r.Answered? ==> Said(log, t.before, Arrived(Frame(r.rid, Reply(r.answer))))
      ensures r.Unknown? ==> Failed(log, t.before)
      ensures r.Answered? || connected ==> sendFaults == if old(sendFaults) == [] then [] else old(sendFaults)[1..]
      ensures r.Answered? ==> nextId == old(nextId) + 1
      ensures old(Sends(1)) && FirstAnswer(old(incoming), n, [old(nextId) + 1]) ==>
                TakesAt(old(incoming), n, r, incoming)
    {
      r, asked, t', cl' := Unknown, None, t, cl;
      ghost var newest, was := nextId, log;
      var rid := Send(what);
      if rid.None? {
        FollowsStill(t, cl, newest, was, nextId, log);
        return;
      }
      asked := rid;
      t', cl' := AskFollows(t, cl, newest, was, what, rid.value, log);
      var got;
      ghost var taken, sent := [], log;
      ghost var before := Left();
      got, t', cl', taken := Await([rid.value], t', cl', nextId, n);
      PrefixOn(was, sent, log);
      ToldOn(old(Left()), |was|, before, sent, Left(), log);
      if got.Got? {
        IsThere(t.store.incoming, old(incoming), Frame(got.rid, got.body));
        if got.body.Reply? { r := Answered(rid.value, got.body.answer); }
        else { UnusableFails(sent, log, t.before, what, got); }
      }
    }
  }

  /** The log goes on, and ends with the frame that is returned, or with the reason why there is none. */
  ghost predicate Reported(was: seq<Event>, log: seq<Event>, r: Received) {
    && was <= log && |was| < |log|
    && var e := log[|log| - 1];
    if r.Got? then e == Arrived(Frame(r.rid, r.body)) else e.RanOut? || (e.Arrived? && !e.x.Frame?)
  }

  lemma ReportedOn(a: seq<Event>, b: seq<Event>, c: seq<Event>, r: Received)
    requires a <= b && Reported(b, c, r)
    ensures Reported(a, c, r)
  {
    PrefixOn(a, b, c);
  }

  lemma BeforeAdded(taken: seq<Incoming>, more: seq<Incoming>)
    ensures more != [] ==> Before(taken + more) == taken + Before(more) && more == Before(more) + [more[|more| - 1]]
  {
  }
}
