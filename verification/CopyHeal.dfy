/**
 * The exception to coherence: a heal with on-demand loading that finds its pending commit applied while the copy is
 * already being written. Nothing refreshes the copy then.
 */
module CopyHeal {
  import opened Common
  import opened Snapshots
  import opened Header
  import opened CopyFile
  import opened CopyHistory
  import opened CopySession
  import opened CopyCoherence

  /** Such a heal before its last step: the lease is resumed, and the copy is left alone because it is being written. */
  function Resumed(o: Owner, s: State, taking: Taking): State
    requires InHistory(s) && s.session.Some?
  {
    Next(o, Next(o, s, StartHeal), TakeCopy(taking))
  }

  lemma {:induction false} HealMoves(o: Owner, s: State, taking: Taking)
    requires Inv(o, s) && InHistory(s) && s.session.Some?
    requires var t := s.session.value;
             t.onDemand && t.local.Writing? && !t.local.givenUp && Enabled(o, s, StartHeal) && t.applied
    ensures var t, e := s.session.value, Resumed(o, s, taking);
            && e.history == s.history && e.disk == s.disk
            && e.session == Some(t.(version := t.version + 1, pending := None, applied := false, moved := true,
                                    stage := Checked(false)))
            && Next(o, e, FinishLoading(false)) ==
               e.(session := Some(e.session.value.(stage := Usable, moved := false)))
  {
  }

  /**
   * After it the copy serves the new version exactly if it holds no block of the pending commit with another content,
   * and exactly then the heal does not count as stale.
   */
  lemma {:induction false} HealServes(o: Owner, s: State, taking: Taking)
    requires Inv(o, s) && InHistory(s) && s.session.Some?
    requires var t := s.session.value;
             t.onDemand && t.local.Writing? && !t.local.givenUp && Enabled(o, s, StartHeal) && t.applied
    ensures var t, e := s.session.value, Next(o, Resumed(o, s, taking), FinishLoading(false));
            var held := Final(BlocksOn(s.disk), t.local.queue);
            && e.session.Some? && e.session.value.stage.Usable? && e.session.value.version == t.version + 1
            && e.disk == s.disk && e.session.value.local == t.local
            && (ServesVersion(e.history, held, t.version + 1) <==> !HoldsOld(held, t.pending.value))
            && (StaleHeal(Resumed(o, s, taking), FinishLoading(false)) <==> HoldsOld(held, t.pending.value))
  {
    var t := s.session.value;
    HealMoves(o, s, taking);
    assert IsStep(s.history, t.version, o.pageSize);
    UnwrittenCommitAgrees(s.history, t.version, Final(BlocksOn(s.disk), t.local.queue), t.pending.value, o.pageSize);
  }

  // ---------------------------------------------------------------------------------------------------------------
  // A run that ends with a stale copy
  // ---------------------------------------------------------------------------------------------------------------

  const OWNER: Owner := Owner([], [], 1)
  const FIRST: BlockWrite := BlockWrite(0, [1])
  const SECOND: BlockWrite := BlockWrite(0, [2])
  const HELD: Disk := File(Copy(Head([], [], 1, 1, 1), map[0 := [1]]), true)
  const TAKING: Taking := Taking(false, false, None, None)

  lemma OneWrite(w: BlockWrite, s: Snapshot)
    requires w.index == 0
    ensures Overlay([w]) == map[0 := w.data]
    ensures Apply(s, 1, Overlay([w]), 1) == [w.data]
  {
    assert Overlay([w][..0]) == map[];
  }

  /** A session opens a new database with on-demand loading. */
  lemma Opens() returns (s: State)
    ensures Reachable(OWNER, s) && s.history == History([[]], []) && s.disk == Absent
    ensures s.session == Some(Session(0, true, Ready, Usable, None, false, false))
  {
    s := State(History([[]], []), Absent, None);
    assert IsRun(OWNER, s, []) && After(OWNER, s, []) == s;
    ReachableStep(OWNER, s, StartOpen(true, true));
    s := Next(OWNER, s, StartOpen(true, true));
    ReachableStep(OWNER, s, TakeCopy(TAKING));
    s := Next(OWNER, s, TakeCopy(TAKING));
    ReachableStep(OWNER, s, FinishLoading(false));
    s := Next(OWNER, s, FinishLoading(false));
  }

  /** It commits a block, which reaches the copy. */
  lemma CommitsOnce() returns (s: State)
    ensures Reachable(OWNER, s) && s.history == History([[], [[1]]], [Committed(1, map[0 := [1]])]) && s.disk == HELD
    ensures s.session == Some(Session(1, true, Writing([], false), Usable, None, false, false))
  {
    s := Opens();
    OneWrite(FIRST, []);
    ReachableStep(OWNER, s, Commit(1, [FIRST]));
    s := Next(OWNER, s, Commit(1, [FIRST]));
    var queue := s.session.value.local.queue;
    assert queue == [] + [Job(HELD.copy.head, [FIRST])] && queue[1..] == [];
    ReachableStep(OWNER, s, WriteJob);
    s := Next(OWNER, s, WriteJob);
    assert s.disk.copy.blocks == map[0 := [1]];
  }

  /** The next commit is applied, but its answer is lost. */
  lemma LosesAnAnswer() returns (s: State)
    ensures Reachable(OWNER, s) && s.disk == HELD
    ensures s.history == History([[], [[1]], [[2]]], [Committed(1, map[0 := [1]]), Committed(1, map[0 := [2]])])
    ensures s.session ==
            Some(Session(1, true, Writing([], false), Broken, Some(Committed(1, map[0 := [2]])), true, false))
  {
    s := CommitsOnce();
    OneWrite(SECOND, [[1]]);
    ReachableStep(OWNER, s, BreakInCommit(1, [SECOND]));
    s := Next(OWNER, s, BreakInCommit(1, [SECOND]));
    ReachableStep(OWNER, s, ApplyPending);
    s := Next(OWNER, s, ApplyPending);
  }

  /** The session heals, and its copy serves the block from before the commit as one of the version after it. */
  lemma StaleHealServesOldBlock() returns (s: State)
    ensures Reachable(OWNER, s) && s.session.Some? && Readable(s.session.value) && s.session.value.version == 2
    ensures s.history.snaps == [[], [[1]], [[2]]] && s.disk == HELD && s.disk.copy.blocks[0] != s.history.snaps[2][0]
    ensures s.session == Some(Session(2, true, Writing([], false), Usable, None, false, false))
  {
    s := LosesAnAnswer();
    ReachableStep(OWNER, s, StartHeal);
    s := Next(OWNER, s, StartHeal);
    ReachableStep(OWNER, s, TakeCopy(TAKING));
    s := Next(OWNER, s, TakeCopy(TAKING));
    ReachableStep(OWNER, s, FinishLoading(false));
    s := Next(OWNER, s, FinishLoading(false));
  }

  const TAIL: BlockWrite := BlockWrite(1, [3])
  const REHEADED: Disk := File(Copy(Head([], [], 1, 2, 3), map[0 := [1], 1 := [3]]), true)

  lemma OneMore()
    ensures Overlay([TAIL]) == map[1 := [3]] && Apply([[2]], 2, Overlay([TAIL]), 1) == [[2], [3]]
  {
    assert Overlay([TAIL][..0]) == map[];
  }

  /** The session commits another block. */
  lemma CommitsTail() returns (s: State)
    ensures Reachable(OWNER, s) && s.disk == HELD && s.history.snaps == [[], [[1]], [[2]], [[2], [3]]]
    ensures var queue := [Job(REHEADED.copy.head, [TAIL])];
            s.session == Some(Session(3, true, Writing(queue, false), Usable, None, false, false))
  {
    s := StaleHealServesOldBlock();
    OneMore();
    ReachableStep(OWNER, s, Commit(2, [TAIL]));
    s := Next(OWNER, s, Commit(2, [TAIL]));
    var job := Job(REHEADED.copy.head, [TAIL]);
    assert s.session.value.local.queue == [] + [job] && [] + [job] == [job];
  }

  /** The copy gets a new head, with the old block under it. */
  lemma CommitsAgain() returns (s: State)
    ensures Reachable(OWNER, s) && s.disk == REHEADED && s.history.snaps == [[], [[1]], [[2]], [[2], [3]]]
    ensures s.session == Some(Session(3, true, Writing([], false), Usable, None, false, false))
  {
    s := CommitsTail();
    OneMore();
    assert s.session.value.local.queue[1..] == [];
    ReachableStep(OWNER, s, WriteJob);
    s := Next(OWNER, s, WriteJob);
    assert s.disk.copy.blocks == map[0 := [1], 1 := [3]];
  }

  /** A later session finds the copy at the server's version, and trusts the old block in it. */
  lemma LaterSessionTrustsOldBlock() returns (s: State)
    ensures Reachable(OWNER, s) && s.session.Some? && Readable(s.session.value) && s.session.value.local.Ready?
    ensures s.session.value.version == 3 && s.history.snaps == [[], [[1]], [[2]], [[2], [3]]]
    ensures s.disk == REHEADED && s.disk.copy.blocks[0] != s.history.snaps[3][0]
  {
    s := CommitsAgain();
    ReachableStep(OWNER, s, Close);
    s := Next(OWNER, s, Close);
    ReachableStep(OWNER, s, StartOpen(true, true));
    s := Next(OWNER, s, StartOpen(true, true));
    ReachableStep(OWNER, s, TakeCopy(TAKING));
    s := Next(OWNER, s, TakeCopy(TAKING));
    ReachableStep(OWNER, s, FinishLoading(false));
    s := Next(OWNER, s, FinishLoading(false));
  }
}
