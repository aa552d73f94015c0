/** The calls of module Database, in a world of other sessions and the server. */
module DatabaseRuns {
  import opened Common
  import opened Snapshots
  import opened Session
  import opened SessionMoves
  import opened Protocol
  import opened ProtocolInvariants
  import opened ProtocolTheorems
  import opened ProtocolMoves
  import Link
  import D = Database

  /** The protocol has the session that is idle as `cl`. */
  ghost predicate IsSession(s: State, c: SessionId, cl: Client) {
    Reachable(s) && c in s.clients && cl.phase.Idle? && s.clients[c] == cl.(openRid := s.clients[c].openRid)
  }

  lemma {:induction false} CommitStands(s: State, c: SessionId, cl: Client, step: Step, newest: nat)
    requires IsSession(s, c, cl) && Enabled(s, step) && step.BeginCommit? && step.c == c
    ensures Stands(Next(s, step), c, map[], StartCommit(cl, step.id, step.connected), |step.parts|, newest)
  {
    ReachableStep(s, step);
    assert ToAll(map[], []) == [];
  }

  /** A commit that the loop reports as done was applied as a whole, on top of the version the session knew. */
  lemma {:induction false} DoneIsCommitted(s: State, c: SessionId, cl: Client, step: Step, newest: nat,
                                           items: seq<Item>, end: Client, last: nat)
    requires IsSession(s, c, cl) && Enabled(s, step) && step.BeginCommit? && step.c == c
    requires IsCall(StartCommit(cl, step.id, step.connected), newest, OwnMoves(items), end, last, |step.parts|)
    requires Plays(Next(s, step), c, map[], items) && step.id in end.done
    ensures var after := Played(Next(s, step), c, map[], items);
            && Reachable(after) && c in after.clients && after.clients[c].done == end.done
            && IsCommitted(s.clients[c], step.id, after.w.srv)
  {
    CommitStands(s, c, cl, step, newest);
    var steps, names := CallIsARun(Next(s, step), c, map[], StartCommit(cl, step.id, step.connected), newest, items,
                                   end, last, |step.parts|);
    AcknowledgedCommit(s, step, steps);
  }

  lemma {:induction false} IsCommittedInEveryWorld(s: State, c: SessionId, cl: Client, step: Step, newest: nat,
                                                   moves: seq<Move>, end: Client, last: nat)
    requires IsSession(s, c, cl) && Enabled(s, step) && step.BeginCommit? && step.c == c && step.id in end.done
    requires IsCall(StartCommit(cl, step.id, step.connected), newest, moves, end, last, |step.parts|)
    ensures forall items | OwnMoves(items) == moves && Plays(Next(s, step), c, map[], items) ::
              IsCommitted(s.clients[c], step.id, Played(Next(s, step), c, map[], items).w.srv)
  {
    forall items | OwnMoves(items) == moves && Plays(Next(s, step), c, map[], items)
      ensures IsCommitted(s.clients[c], step.id, Played(Next(s, step), c, map[], items).w.srv)
    {
      DoneIsCommitted(s, c, cl, step, newest, items, end, last);
    }
  }

  /**
   * `commit` of a session of the protocol. If it returns success, then in every world that played along while it ran,
   * the server has applied this commit, and the next version is the file as it was when `commit` was called.
   */
  method Commit(db: D.Database, id: CommitId, parts: seq<seq<BlockWrite>>, ghost s: State, ghost c: SessionId)
      returns (r: Option<Broken>, ghost t: Link.Trace, ghost step: Step)
    requires IsSession(s, c, db.Abs(Idle)) && db.broken.None? && !IsClean(db.mem) && id !in s.w.calls
    requires parts != [] && Overlay(Flatten(parts)) == DirtyBlocks(db.mem)
    modifies db.link, db`version, db`pending, db`broken, db`mem, db`login, db`done
    ensures r == db.broken && Enabled(s, step)
    ensures step.BeginCommit? && step.c == c && step.id == id && step.parts == parts
    ensures r.None? ==> forall items | OwnMoves(items) == Link.Moves(t) && Plays(Next(s, step), c, map[], items) ::
              IsCommitted(s.clients[c], id, Played(Next(s, step), c, map[], items).w.srv)
  {
    ghost var cl, newest := db.Abs(Idle), db.link.nextId;
    r, t := db.Commit(id, |parts|);
    ghost var connected :| t.start == StartCommit(cl, id, connected);
    step := BeginCommit(c, id, parts, connected);
    ghost var end, last := db.Abs(Idle), db.link.nextId;
    if r.None? {
      assert id == end.done[|end.done| - 1];
      Link.FollowsMakes(t, end, last, db.link.log);
      IsCommittedInEveryWorld(s, c, cl, step, newest, Link.Moves(t), end, last);
    }
  }

  /** The session can be used, and the blocks in memory that it did not modify are those of its version. */
  ghost predicate ServesItsVersion(s: State, c: SessionId, version: nat) {
    && Usable(s, c) && s.clients[c].version == version && version < |s.w.srv.snaps|
    && Coherent(s.clients[c].mem, s.w.srv.snaps[version], s.w.srv.pageSize)
  }

  lemma {:induction false} HealedServes(s: State, c: SessionId, cl: Client, newest: nat, items: seq<Item>, end: Client,
                                        last: nat)
    requires IsSession(s, c, cl) && Enabled(s, StartHeal(c)) && end.phase.Idle? && end.broken.None?
    requires IsCall(cl.(phase := Resuming(Healing, None)), newest, OwnMoves(items), end, last, 0)
    requires Plays(Next(s, StartHeal(c)), c, map[], items)
    ensures ServesItsVersion(Played(Next(s, StartHeal(c)), c, map[], items), c, end.version)
  {
    var t := Next(s, StartHeal(c));
    ReachableStep(s, StartHeal(c));
    var steps, names := CallIsARun(t, c, map[], cl.(phase := Resuming(Healing, None)), newest, items, end, last, 0);
    IdleServes(Played(t, c, map[], items), c);
  }

  lemma {:induction false} IdleServes(s: State, c: SessionId)
    requires Reachable(s) && Usable(s, c)
    ensures ServesItsVersion(s, c, s.clients[c].version)
  {
    ReachableIsOk(s);
    assert ClientOk(s.w, c, s.clients[c]);
  }

  /** `heal` of a session of the protocol: after a success the session can be used at the version it then has. */
  method Heal(db: D.Database, ghost s: State, ghost c: SessionId) returns (r: Option<Broken>, ghost t: Link.Trace)
    requires IsSession(s, c, db.Abs(Idle)) && db.broken == Some(Uncertain)
    modifies db.link, db`version, db`pending, db`broken, db`mem, db`login
    ensures r == db.broken && Enabled(s, StartHeal(c))
    ensures r.None? ==>
              forall items | OwnMoves(items) == Link.Moves(t) && Plays(Next(s, StartHeal(c)), c, map[], items) ::
                ServesItsVersion(Played(Next(s, StartHeal(c)), c, map[], items), c, db.version)
  {
    ghost var cl, newest := db.Abs(Idle), db.link.nextId;
    r, t := db.Heal();
    ghost var end, last := db.Abs(Idle), db.link.nextId;
    if r.None? {
      Link.FollowsMakes(t, end, last, db.link.log);
      forall items | OwnMoves(items) == Link.Moves(t) && Plays(Next(s, StartHeal(c)), c, map[], items)
        ensures ServesItsVersion(Played(Next(s, StartHeal(c)), c, map[], items), c, db.version)
      {
        HealedServes(s, c, cl, newest, items, end, last);
      }
    }
  }
}
