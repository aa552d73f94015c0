/**
 * What a deletion can destroy, as it can be told when it is asked for: the deletion waits for the connections there
 * are, and each of them may still have created the database by then.
 */
module BrowserDelete {
  import opened Common
  import opened BrowserLocal

  /** A connection that has a transaction waiting to create the head, or whose instance has yet to begin one. */
  ghost predicate CanOpen(s: State, c: nat) {
    && c in s.conns
    && (s.conns[c].head == Some(true) || (CanBegin(s, c) && IsAwaited(s, c)))
  }

  ghost predicate IsAwaited(s: State, c: nat) { exists i :: i in s.phases && s.phases[i] == Connected(c) }

  /** There is nothing to delete, and nobody who is connected can still open the database. */
  ghost predicate Harmless(s: State) { StoredDb(s).epoch == 0 && forall c <- s.conns :: !CanOpen(s, c) }

  /** The deletion is about to drop a database that some connection opened, and perhaps committed to. */
  predicate Destroys(s: State, r: nat) { Enabled(s, CompleteDelete(r)) && StoredDb(s).epoch > 0 }

  // ---------------------------------------------------------------------------------------------------------------
  // While a harmless deletion waits, nothing is created
  // ---------------------------------------------------------------------------------------------------------------

  ghost predicate Spared(s: State, r: nat) { r < s.next && (r in s.deletions ==> Harmless(s)) }

  /** No connection is new, and none can do more than before. */
  ghost predicate Subsides(s: State, e: State) {
    && StoredDb(e).epoch == StoredDb(s).epoch && (e.store.Some? ==> s.store.Some?)
    && (forall c <- e.conns :: c in s.conns && Settles(s.conns[c], e.conns[c]))
    && (forall i <- e.phases :: e.phases[i].Connected? ==> i in s.phases && s.phases[i] == e.phases[i])
  }

  predicate Settles(was: Conn, now: Conn) {
    && (now.head == was.head || (now.head.None? && now.closing)) && (was.closing ==> now.closing)
    && now.epoch == was.epoch
  }

  lemma {:induction false} CouldOpenBefore(s: State, e: State, c: nat)
    requires Subsides(s, e) && CanOpen(e, c)
    ensures c in s.conns && CanOpen(s, c)
  {
    if e.conns[c].head != Some(true) {
      var i :| i in e.phases && e.phases[i] == Connected(c);
      assert s.phases[i] == Connected(c);
    }
  }

  lemma {:induction false} SubsidesStaysHarmless(s: State, e: State)
    requires Harmless(s) && Subsides(s, e)
    ensures Harmless(e)
  {
    forall c <- e.conns ensures !CanOpen(e, c) {
      if CanOpen(e, c) { CouldOpenBefore(s, e, c); }
    }
  }

  lemma {:induction false} EndedSubsides(s: State, i: nat)
    ensures Subsides(s, Ended(s, i))
  {}

  lemma {:induction false} QuietStepSubsides(s: State, step: Step)
    requires Enabled(s, step) && (IsPhaseStep(step) || IsConnStep(step)) && !step.BeginHead?
    ensures Subsides(s, Next(s, step))
  {
    if step.OpenFails? || step.Close? || step.Crash? { EndedSubsides(s, step.i); }
  }

  /** A step that can lead to more is one of a connection that can open the database. */
  lemma {:induction false} StepSubsides(s: State, step: Step)
    requires Enabled(s, step) && StoredDb(s).epoch == 0 && s.deletions != map[]
    ensures Subsides(s, Next(s, step)) || exists c :: c in s.conns && CanOpen(s, c)
  {
    if step.BeginHead? {
      assert IsAwaited(s, PhaseOf(s, step.i).c);
    } else if step.RunHead? {
      assert s.conns[step.conn].head == Some(true) ==> CanOpen(s, step.conn);
    } else if IsPhaseStep(step) || IsConnStep(step) {
      QuietStepSubsides(s, step);
    }
  }

  lemma {:induction false} StepKeepsSpared(s: State, step: Step, r: nat)
    requires Spared(s, r) && Enabled(s, step)
    ensures Spared(Next(s, step), r)
  {
    if r in s.deletions {
      StepSubsides(s, step);
      SubsidesStaysHarmless(s, Next(s, step));
    }
  }

  lemma {:induction false} RunKeepsSpared(s: State, steps: seq<Step>, r: nat)
    requires Spared(s, r) && IsRun(s, steps)
    ensures Spared(After(s, steps), r)
    decreases |steps|
  {
    if steps == [] {
    } else {
      StepKeepsSpared(s, steps[0], r);
      RunKeepsSpared(Next(s, steps[0]), steps[1..], r);
    }
  }

  // ---------------------------------------------------------------------------------------------------------------
  // Otherwise something may be destroyed
  // ---------------------------------------------------------------------------------------------------------------

  /** The deletion waits, with nothing left to wait for but connections. */
  ghost predicate Doomed(t: State, s: State, r: nat) { Reaches(t, s) && r in s.deletions && StoredDb(s).epoch > 0 }

  lemma {:induction false} Advance(t: State, s: State, step: Step) returns (e: State)
    requires Reaches(t, s) && Enabled(s, step)
    ensures Reaches(t, e) && e == Next(s, step)
  {
    e := Next(s, step);
    GoesOn(t, s, step);
  }

  /** The transactions of a connection are aborted, and it is closed. */
  lemma {:induction false} Closes(t: State, s: State, r: nat, c: nat) returns (e: State)
    requires Doomed(t, s, r) && c in s.conns
    ensures Doomed(t, e, r) && e.conns == s.conns - {c}
  {
    e := Aborts(t, s, c);
    e := Advance(t, e, VersionChange(c));
    e := Advance(t, e, FinishClose(c));
  }

  lemma {:induction false} Aborts(t: State, s: State, c: nat) returns (e: State)
    requires Reaches(t, s) && c in s.conns
    ensures Reaches(t, e) && e == s.(conns := e.conns) && e.conns.Keys == s.conns.Keys && e.conns - {c} == s.conns - {c}
    ensures e.conns[c].head.None? && e.conns[c].pending.None?
  {
    e := s;
    if e.conns[c].head.Some? { e := Advance(t, e, AbortHead(c)); }
    if e.conns[c].pending.Some? { e := Advance(t, e, AbortCommit(c)); }
  }

  lemma {:induction false} AllClose(t: State, s: State, r: nat) returns (e: State)
    requires Doomed(t, s, r)
    ensures Reaches(t, e) && Destroys(e, r)
    decreases |s.conns|
  {
    if s.conns == map[] {
      e := s;
    } else {
      var c :| c in s.conns;
      e := Closes(t, s, r, c);
      assert e.conns.Keys == s.conns.Keys - {c};
      assert |e.conns.Keys| < |s.conns.Keys|;
      e := AllClose(t, e, r);
    }
  }

  /** A connection that can open the database does, and then all close. */
  lemma {:induction false} OpensAndCloses(t: State, s: State, r: nat, c: nat) returns (e: State)
    requires Reaches(t, s) && r in s.deletions && s.store.Some? && CanOpen(s, c)
    ensures Reaches(t, e) && Destroys(e, r)
  {
    e := s;
    if s.conns[c].head != Some(true) {
      var i :| i in s.phases && s.phases[i] == Connected(c);
      e := Advance(t, e, BeginHead(i, true));
    }
    e := Advance(t, e, RunHead(c));
    e := AllClose(t, e, r);
  }

  lemma {:induction false} AskingIsHarmless(s: State, i: nat)
    requires Harmless(s) && Enabled(s, RequestDelete(i))
    ensures Spared(Next(s, RequestDelete(i)), s.next)
  {
    SubsidesStaysHarmless(s, Next(s, RequestDelete(i)));
  }

  lemma {:induction false} StillCanOpen(s: State, i: nat, c: nat)
    requires Enabled(s, RequestDelete(i)) && CanOpen(s, c)
    ensures CanOpen(Next(s, RequestDelete(i)), c)
  {
    if s.conns[c].head != Some(true) {
      var j :| j in s.phases && s.phases[j] == Connected(c);
      assert Next(s, RequestDelete(i)).phases[j] == Connected(c);
    }
  }

  lemma {:induction false} HarmCanBeDone(s: State, i: nat) returns (e: State)
    requires Reachable(s) && Enabled(s, RequestDelete(i)) && !Harmless(s)
    ensures Reaches(Next(s, RequestDelete(i)), e) && Destroys(e, s.next)
  {
    var t := Next(s, RequestDelete(i));
    assert IsRun(t, []) && After(t, []) == t;
    if StoredDb(s).epoch > 0 {
      e := AllClose(t, t, s.next);
    } else {
      ReachableIsOk(s);
      var c :| c in s.conns && CanOpen(s, c);
      assert ConnOk(s, c);
      StillCanOpen(s, i, c);
      e := OpensAndCloses(t, t, s.next, c);
    }
  }

  /**
   * A deletion can come to drop a database that has been opened exactly if there was one when it was asked for, or
   * somebody was connected then who could still create it. This is what an instance could look at before it deletes.
   */
  lemma {:induction false} DeletionDestroysIff(s: State, i: nat)
    requires Reachable(s) && Enabled(s, RequestDelete(i))
    ensures (exists e :: Reaches(Next(s, RequestDelete(i)), e) && Destroys(e, s.next)) <==> !Harmless(s)
  {
    var t := Next(s, RequestDelete(i));
    if Harmless(s) {
      AskingIsHarmless(s, i);
      forall e | Reaches(t, e) ensures !Destroys(e, s.next) {
        var steps :| IsRun(t, steps) && After(t, steps) == e;
        RunKeepsSpared(t, steps, s.next);
      }
    } else {
      var e := HarmCanBeDone(s, i);
    }
  }
}
