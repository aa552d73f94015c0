/** What each error code of the server makes of a session, in every place where one can arrive. */
module ProtocolErrors {
  import opened Common
  import opened Session
  import opened SessionMoves
  import opened Protocol

  /** The step hands session `c` an error. */
  predicate TakesError(s: State, step: Step) { Enabled(s, step) && step.Receive? && step.answer.Error? }

  /**
   * A heal whose resume or load is answered with an error can be tried again exactly if the server could not serve it
   * just then. Otherwise it is over for good.
   */
  lemma HealError(s: State, step: Step)
    requires TakesError(s, step)
    requires var phase := s.clients[step.c].phase;
             phase == Resuming(Healing, Some(step.rid)) || (phase.Loading? && phase.purpose.ForHeal?)
    ensures var t, code := Next(s, step), step.answer.code;
            && BreaksHeal(code, t.clients[step.c].broken) && t.clients[step.c].mem == s.clients[step.c].mem
            && (Enabled(t, StartHeal(step.c)) <==> code.Internal? || code.RateLimited?)
  {
  }

  /** The refusal of a commit that counts: the first one, once the last part is answered. */
  function Counts(phase: Phase, code: Code): Code
    requires phase.AwaitAck?
  {
    if phase.refusal.Some? then phase.refusal.value else code
  }

  /**
   * A commit whose last part is refused. What the server could not do just then is sent again from the first part,
   * until it is too late; a lost lease fences, and anything else is final.
   */
  lemma CommitError(s: State, step: Step)
    requires TakesError(s, step) && s.clients[step.c].phase.AwaitAck?
    requires var ids := s.clients[step.c].phase.ids; ids != [] && ids[|ids| - 1] == step.rid
    ensures var cl, next := s.clients[step.c], Next(s, step).clients[step.c];
            next == match Counts(cl.phase, step.answer.code)
                    case FencedCode => cl.(broken := Some(Fenced), phase := Idle)
                    case SlotTaken => cl.(broken := Some(Fenced), phase := Idle)
                    case Internal => SentAgain(cl, step.late, step.renew)
                    case RateLimited => SentAgain(cl, step.late, step.renew)
                    case _ => cl.(broken := Some(Refused), phase := Idle)
  {
  }

  function SentAgain(cl: Client, late: bool, renew: bool): Client
    requires cl.phase.AwaitAck?
  {
    if late then cl.(broken := Some(Uncertain), phase := Idle)
    else if renew then cl.(phase := Resuming(TopOfLoop(cl.phase.id), None))
    else cl.(phase := Sending(cl.phase.id, []))
  }

  /** A part before the last one that is refused: the first refusal is remembered, and the commit goes on. */
  lemma EarlyRefusal(s: State, step: Step)
    requires TakesError(s, step) && s.clients[step.c].phase.AwaitAck?
    requires var ids := s.clients[step.c].phase.ids; ids != [] && ids[|ids| - 1] != step.rid
    ensures var cl, next := s.clients[step.c], Next(s, step).clients[step.c];
            next == cl.(phase := cl.phase.(refusal := Some(Counts(cl.phase, step.answer.code))))
  {
  }

  /** A resume in the middle of a commit: a lost lease and a refused login are final, anything else once it is late. */
  lemma ResumeError(s: State, step: Step)
    requires TakesError(s, step) && s.clients[step.c].phase.Resuming?
    requires s.clients[step.c].phase.why.TopOfLoop? || s.clients[step.c].phase.why.AfterBreak?
    ensures var cl, next, code := s.clients[step.c], Next(s, step).clients[step.c], step.answer.code;
            next == if code.FencedCode? || code.SlotTaken? then cl.(broken := Some(Fenced), phase := Idle)
                    else if code.AccessDenied? then cl.(broken := Some(Denied), phase := Idle)
                    else if step.late then cl.(broken := Some(Uncertain), phase := Idle)
                    else cl.(phase := Resuming(cl.phase.why, None))
  {
  }

  /** A read: an error of the load fails the read alone, unless the lease is lost; one of the resume breaks. */
  lemma ReadError(s: State, step: Step)
    requires TakesError(s, step)
    requires var phase := s.clients[step.c].phase;
             (phase.Loading? && phase.purpose.ForRead?) || (phase.Resuming? && phase.why.Reading?)
    ensures var cl, next, code := s.clients[step.c], Next(s, step).clients[step.c], step.answer.code;
            next == if cl.phase.Loading? && !code.FencedCode? && !code.SlotTaken? then cl.(phase := Idle)
                    else cl.(phase := Idle, broken := Some(if cl.phase.Loading? then Fenced
                                                           else if code.AccessDenied? then Denied else Uncertain))
  {
  }

  /** An open that is answered with an error, or whose load is, is over. */
  lemma OpenError(s: State, step: Step)
    requires TakesError(s, step)
    requires var phase := s.clients[step.c].phase; phase.Opening? || (phase.Loading? && phase.purpose.ForOpen?)
    ensures Next(s, step).clients[step.c] == s.clients[step.c].(phase := Gone)
  {
  }
}
