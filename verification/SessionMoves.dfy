/** Moves of a session, one at a time: what the nested loops of a call amount to. */
module SessionMoves {
  import opened Common
  import opened Session

  /** A frame is sent, an answer taken, the connection lost, or a revocation noted. A commit has `of` parts. */
  datatype Move =
    | SentPart(part: RequestId, of: nat)
    | SentResume(resume: RequestId)
    | SentLoad(load: RequestId)
    | Took(rid: RequestId, a: Answer, late: bool, renew: bool)
    | LostLink(isLate: bool)
    | Noted(epoch: nat)

  predicate Heals(p: Phase) { (p.Resuming? && p.why.Healing?) || (p.Loading? && p.purpose.ForHeal?) }

  /** The reason for which a code breaks a database that heals. */
  predicate BreaksHeal(code: Code, broken: Option<Broken>) {
    match code
    case FencedCode => broken == Some(Fenced)
    case SlotTaken => broken == Some(Fenced)
    case AccessDenied => broken == Some(Denied)
    case Internal => broken == Some(Uncertain)
    case RateLimited => broken == Some(Uncertain)
    case VersionConflict => broken == Some(Refused)
    case BadRequest => broken == Some(Refused)
    case OtherCode => broken == Some(Refused)
  }

  predicate Legal(cl: Client, m: Move) {
    match m
    case SentPart(_, _) => cl.phase.Sending?
    case SentResume(_) => cl.phase.Resuming? && cl.phase.resumeId.None?
    case SentLoad(_) => cl.phase.Loading? && cl.phase.loadId.None?
    case Took(rid, _, _, _) => Waits(cl, rid) && (cl.phase.AwaitAck? ==> cl.phase.ids != [])
    case LostLink(_) => true
    case Noted(_) => true
  }

  function Moved(cl: Client, m: Move): Client
    requires Legal(cl, m)
  {
    match m
    case SentPart(rid, of) =>
      var ids := cl.phase.ids + [rid];
      cl.(phase := if |ids| == of then AwaitAck(cl.phase.id, ids, None) else Sending(cl.phase.id, ids))
    case SentResume(rid) => cl.(phase := Resuming(cl.phase.why, Some(rid)))
    case SentLoad(rid) => cl.(phase := Loading(cl.phase.purpose, cl.phase.first, cl.phase.count, Some(rid)))
    case Took(rid, a, late, renew) => React(cl, rid, a, late, renew)
    case LostLink(late) => Lost(cl, late)
    case Noted(epoch) => cl.(revokedTo := Max(cl.revokedTo, epoch))
  }

  /** The moves are possible one after the other and lead from `a` to `b`. */
  ghost predicate Leads(a: Client, moves: seq<Move>, b: Client)
    decreases |moves|
  {
    if moves == [] then a == b else Legal(a, moves[0]) && Leads(Moved(a, moves[0]), moves[1..], b)
  }

  /** The id a move gives to the frame it sends. */
  function SentId(m: Move): seq<RequestId> {
    match m
    case SentPart(rid, _) => [rid]
    case SentResume(rid) => [rid]
    case SentLoad(rid) => [rid]
    case _ => []
  }

  function SentIds(moves: seq<Move>): seq<RequestId> {
    if moves == [] then [] else SentId(moves[0]) + SentIds(moves[1..])
  }

  ghost predicate Rising(ids: seq<RequestId>, from: nat, to: nat) {
    && from <= to && (forall i :: 0 <= i < |ids| ==> from < ids[i] <= to)
    && forall i, j :: 0 <= i < j < |ids| ==> ids[i] < ids[j]
  }

  /** The moves lead from `a` to `b`, and no frame has the id of an earlier one. */
  ghost predicate Makes(a: Client, from: nat, moves: seq<Move>, b: Client, to: nat) {
    Leads(a, moves, b) && Rising(SentIds(moves), from, to)
  }

  lemma {:induction false} LeadsOn(a: Client, moves: seq<Move>, b: Client, more: seq<Move>, c: Client)
    requires Leads(a, moves, b) && Leads(b, more, c)
    ensures Leads(a, moves + more, c)
    decreases |moves|
  {
    if moves == [] {
      assert moves + more == more;
    } else {
      assert (moves + more)[1..] == moves[1..] + more;
      LeadsOn(Moved(a, moves[0]), moves[1..], b, more, c);
    }
  }

  lemma {:induction false} SentIdsOn(moves: seq<Move>, more: seq<Move>)
    ensures SentIds(moves + more) == SentIds(moves) + SentIds(more)
    decreases |moves|
  {
    if moves == [] {
      assert moves + more == more;
    } else {
      assert (moves + more)[1..] == moves[1..] + more;
      SentIdsOn(moves[1..], more);
    }
  }

  lemma {:induction false} MakesOn(a: Client, from: nat, moves: seq<Move>, b: Client, mid: nat, more: seq<Move>,
                                   c: Client, to: nat)
    requires Makes(a, from, moves, b, mid) && Makes(b, mid, more, c, to)
    ensures Makes(a, from, moves + more, c, to)
  {
    LeadsOn(a, moves, b, more, c);
    SentIdsOn(moves, more);
    RisingOn(SentIds(moves), from, mid, SentIds(more), to);
  }

  lemma {:induction false} RisingOn(ids: seq<RequestId>, from: nat, mid: nat, more: seq<RequestId>, to: nat)
    requires Rising(ids, from, mid) && Rising(more, mid, to)
    ensures Rising(ids + more, from, to)
  {
    var all := ids + more;
    forall i, j | 0 <= i < j < |all| ensures all[i] < all[j] { }
  }

  lemma {:induction false} MakesTo(a: Client, from: nat, moves: seq<Move>, b: Client, mid: nat, m: Move, to: nat)
    requires Makes(a, from, moves, b, mid) && Legal(b, m) && Rising(SentId(m), mid, to)
    ensures Makes(a, from, moves + [m], Moved(b, m), to)
  {
    assert [m][1..] == [] && SentIds([m]) == SentId(m) + [];
    MakesOn(a, from, moves, b, mid, [m], Moved(b, m), to);
  }
}
