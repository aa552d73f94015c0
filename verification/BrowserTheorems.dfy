/** What holds in every run over a database kept in the browser, and two things that do not. */
module BrowserTheorems {
  import opened Common
  import opened Snapshots
  import opened BrowserLocal

  // ---------------------------------------------------------------------------------------------------------------
  // Fencing
  // ---------------------------------------------------------------------------------------------------------------

  /** `log[j]` opened the database for `c`, and all there is after it are commits. */
  ghost predicate OpenedAt(log: seq<Event>, c: nat, j: nat) {
    && j < |log| && log[j] == OpenedBy(c)
    && (forall k :: j < k < |log| ==> log[k].CommittedBy?)
  }

  lemma {:induction false} LatestOpenerOpened(log: seq<Event>, c: nat) returns (j: nat)
    requires LatestOpener(log) == Some(c)
    ensures OpenedAt(log, c, j)
  {
    var n := |log| - 1;
    if log[n].OpenedBy? {
      j := n;
    } else {
      j := LatestOpenerOpened(log[..n], c);
    }
  }

  /**
   * Between the opening of a connection and a commit of it, nothing happens to the database but commits, all of them
   * its own: no other instance opened it, and it was not deleted and created again.
   */
  lemma {:induction false} OnlyLatestOpenerCommits(s: State, k: nat) returns (j: nat)
    requires Reachable(s) && k < |s.log| && s.log[k].CommittedBy?
    ensures j < k && s.log[j] == OpenedBy(s.log[k].c)
    ensures forall m :: j < m < k ==> s.log[m].CommittedBy? && s.log[m].c == s.log[k].c
  {
    ReachableIsOk(s);
    var c := s.log[k].c;
    j := LatestOpenerOpened(s.log[..k], c);
    forall m | j < m < k ensures s.log[m].CommittedBy? && s.log[m].c == c {
      assert s.log[..k][m] == s.log[m];
      CommitsKeepOpener(s.log, j, m, c);
    }
  }

  lemma {:induction false} CommitsKeepOpener(log: seq<Event>, j: nat, m: nat, c: nat)
    requires j < m <= |log| && log[j] == OpenedBy(c)
    requires forall k :: j < k < m ==> log[k].CommittedBy?
    ensures LatestOpener(log[..m]) == Some(c)
    decreases m
  {
    if j + 1 < m {
      assert log[..m][..m - 1] == log[..m - 1];
      CommitsKeepOpener(log, j, m - 1, c);
    }
  }

  // ---------------------------------------------------------------------------------------------------------------
  // Contents
  // ---------------------------------------------------------------------------------------------------------------

  /** The stored database as a file: blocks that were never written are zeros. */
  function FileIn(db: Db, pageSize: nat): Snapshot {
    seq(db.count, i requires 0 <= i => if i in db.blocks then db.blocks[i] else Zeros(pageSize))
  }

  ghost predicate NothingBeyond(db: Db) { forall i <- db.blocks :: i < db.count }

  /** A transaction does to the stored file what a commit does to a version on the server. */
  lemma {:induction false} TransactionIsApply(db: Db, tx: Tx, pageSize: nat)
    requires NothingBeyond(db)
    ensures FileIn(CommitTo(db, tx), pageSize) == Apply(FileIn(db, pageSize), tx.count, Overlay(tx.blocks), pageSize)
    ensures NothingBeyond(CommitTo(db, tx))
  {
  }

  lemma {:induction false} ReplayEnds(log: seq<Event>)
    ensures NothingBeyond(Replay(log))
    decreases |log|
  {
    if log != [] { ReplayEnds(log[..|log| - 1]); }
  }

  /** Every commit is there as a whole or not at all: the stored database is what the log says. */
  lemma {:induction false} StoredIsWhole(s: State)
    requires Reachable(s)
    ensures StoredDb(s) == Replay(s.log) && NothingBeyond(StoredDb(s))
  {
    ReachableIsOk(s);
    ReplayEnds(s.log);
  }

  /**
   * Epochs start again after a deletion, but no connection outlives the database it was opened on: one whose commit
   * is still to run belongs to the stored database, and its commit takes effect exactly if it opened it last.
   */
  lemma {:induction false} NoStaleConnection(s: State, c: nat)
    requires Reachable(s) && Enabled(s, RunCommit(c))
    ensures s.conns[c].inc == s.store.value.0
    ensures s.conns[c].epoch.Some? ==>
            (Next(s, RunCommit(c)).log == s.log + [CommittedBy(c, s.conns[c].pending.value)] <==>
             s.conns[c].epoch.value == StoredDb(s).epoch)
    ensures s.conns[c].epoch.Some? && s.conns[c].epoch.value == StoredDb(s).epoch ==> LatestOpener(s.log) == Some(c)
  {
    ReachableIsOk(s);
    assert ConnOk(s, c);
  }

  // ---------------------------------------------------------------------------------------------------------------
  // Getting through
  // ---------------------------------------------------------------------------------------------------------------

  lemma {:induction false} OpenGoesThrough(s: State, i: nat) returns (e: State)
    requires PhaseOf(s, i).Idle? && s.deletions == map[]
    ensures Reaches(s, e) && e.log == s.log + [OpenedBy(s.next)] && PhaseOf(e, i) == Open(s.next, false)
    ensures StoredDb(e) == StoredDb(s).(epoch := StoredDb(s).epoch + 1) && e.store.Some?
    ensures s.next in e.conns && e.conns[s.next] == Conn(i, e.store.value.0, Some(StoredDb(e).epoch), false, None, None)
  {
    assert IsRun(s, []) && After(s, []) == s;
    GoesOn(s, s, Acquire(i, true, false));
    e := Next(s, Acquire(i, true, false));
    GoesOn(s, e, Connect(i));
    e := Next(e, Connect(i));
    GoesOn(s, e, BeginHead(i, true));
    e := Next(e, BeginHead(i, true));
    GoesOn(s, e, RunHead(s.next));
    e := Next(e, RunHead(s.next));
  }

  /**
   * Whatever the other instances are at, one that steals the lock of a database that nobody deletes can open it, create
   * it if need be, and commit.
   */
  lemma {:induction false} CommitGoesThrough(s: State, i: nat, tx: Tx) returns (e: State)
    requires PhaseOf(s, i).Idle? && s.deletions == map[]
    ensures Reaches(s, e) && e.log == s.log + [OpenedBy(s.next), CommittedBy(s.next, tx)]
    ensures StoredDb(e) == CommitTo(StoredDb(s).(epoch := StoredDb(s).epoch + 1), tx)
  {
    e := OpenGoesThrough(s, i);
    GoesOn(s, e, BeginCommit(i, tx));
    e := Next(e, BeginCommit(i, tx));
    GoesOn(s, e, RunCommit(s.next));
    e := Next(e, RunCommit(s.next));
    assert e.log == s.log + [OpenedBy(s.next)] + [CommittedBy(s.next, tx)];
  }

  // ---------------------------------------------------------------------------------------------------------------
  // Opening without creating
  // ---------------------------------------------------------------------------------------------------------------

  /** Some connection opened the database after the first `mark` events, and it was not deleted since. */
  ghost predicate OpenedSince(log: seq<Event>, mark: nat) {
    exists j :: mark <= j < |log| && log[j].OpenedBy? && OpenedAt(log, log[j].c, j)
  }

  lemma {:induction false} OpenedSinceMark(log: seq<Event>, mark: nat)
    requires mark <= |log| && LatestOpener(log[..mark]).None?
    ensures LatestOpener(log).Some? <==> OpenedSince(log, mark)
  {
    if LatestOpener(log).Some? {
      var c := LatestOpener(log).value;
      var j := LatestOpenerOpened(log, c);
      if j < mark {
        CommitsKeepOpener(log, j, mark, c);
      } else {
        assert log[j] == OpenedBy(c);
      }
    }
    if OpenedSince(log, mark) {
      var j :| mark <= j < |log| && log[j].OpenedBy? && OpenedAt(log, log[j].c, j);
      CommitsKeepOpener(log, j, |log|, log[j].c);
      assert log[..|log|] == log;
    }
  }

  /**
   * An instance that opened without `create` and found nothing deletes the database. What that deletion drops when it
   * completes has a head, and perhaps blocks, exactly if a connection opened the database since the instance looked.
   */
  lemma {:induction false} NotFoundDeletes(s: State, r: nat)
    requires Reachable(s) && Enabled(s, CompleteDelete(r)) && s.deletions[r].Some?
    ensures Next(s, CompleteDelete(r)).store.None? && Next(s, CompleteDelete(r)).log == s.log + [Dropped]
    ensures StoredDb(s).epoch > 0 <==> OpenedSince(s.log, s.deletions[r].value)
  {
    ReachableIsOk(s);
    OpenedSinceMark(s.log, s.deletions[r].value);
  }

  // ---------------------------------------------------------------------------------------------------------------
  // Three runs
  // ---------------------------------------------------------------------------------------------------------------

  lemma {:induction false} Do(s: State, step: Step) returns (e: State)
    requires Reachable(s) && Enabled(s, step)
    ensures Reachable(e) && e == Next(s, step)
  {
    e := Next(s, step);
    GoesOn(INITIAL, s, step);
  }

  lemma {:induction false} Start() returns (s: State)
    ensures Reachable(s) && s == INITIAL
  {
    s := INITIAL;
    assert IsRun(s, []) && After(s, []) == s;
  }

  const TX: Tx := Tx(1, [BlockWrite(0, [1])])
  const LOOKED: Conn := Conn(0, 0, None, true, None, None)
  const FRESH: Conn := Conn(1, 0, None, false, None, None)
  const OPENED: Conn := Conn(1, 0, Some(1), false, None, None)

  /** Instance 0 connects without `create`. */
  lemma {:induction false} Looks() returns (s: State)
    ensures Reachable(s)
    ensures s == State(Some((0, EMPTY)), map[0 := Conn(0, 0, None, false, Some(false), None)], 1,
                       map[0 := Connected(0)], Some(0), map[], [])
  {
    s := Start();
    s := Do(s, Acquire(0, false, false));
    s := Do(s, Connect(0));
    s := Do(s, BeginHead(0, false));
  }

  /** It finds nothing. */
  lemma {:induction false} FindsNothing() returns (s: State)
    ensures Reachable(s)
    ensures s == State(Some((0, EMPTY)), map[0 := LOOKED], 1, map[0 := NotFound(0)], Some(0), map[], [])
  {
    s := Looks();
    s := Do(s, RunHead(0));
  }

  /** Instance 1 takes over the lock and connects. */
  lemma {:induction false} IsTakenOver() returns (s: State)
    ensures Reachable(s)
    ensures s == State(Some((0, EMPTY)), map[0 := LOOKED, 1 := FRESH], 2, map[0 := NotFound(0), 1 := Connected(1)],
                       Some(1), map[], [])
  {
    s := FindsNothing();
    s := Do(s, Acquire(1, true, false));
    s := Do(s, Connect(1));
  }

  /** Instance 1 creates the database and commits. */
  lemma {:induction false} CreatesAndCommits(s: State) returns (e: State)
    requires Reachable(s) && s.store == Some((0, EMPTY)) && s.conns == map[0 := LOOKED, 1 := FRESH]
    requires PhaseOf(s, 1) == Connected(1) && s.log == []
    ensures Reachable(e) && e.log == [OpenedBy(1), CommittedBy(1, TX)] && e.store.Some?
    ensures e.conns == map[0 := LOOKED, 1 := OPENED] && e.phases == s.phases[1 := Open(1, false)]
    ensures e.deletions == s.deletions && e.next == s.next
  {
    e := Creates(s);
    e := Do(e, BeginCommit(1, TX));
    e := Do(e, RunCommit(1));
    assert e.log == [OpenedBy(1)] + [CommittedBy(1, TX)];
  }

  lemma {:induction false} Creates(s: State) returns (e: State)
    requires Reachable(s) && s.store == Some((0, EMPTY)) && s.conns == map[0 := LOOKED, 1 := FRESH]
    requires PhaseOf(s, 1) == Connected(1) && s.log == []
    ensures Reachable(e) && e.log == [OpenedBy(1)] && e.store == Some((0, Db(1, 0, map[])))
    ensures e.conns == map[0 := LOOKED, 1 := OPENED] && e.phases == s.phases[1 := Open(1, false)]
    ensures e.deletions == s.deletions && e.next == s.next
  {
    e := Do(s, BeginHead(1, true));
    e := Do(e, RunHead(1));
    assert e.log == [] + [OpenedBy(1)];
  }

  lemma {:induction false} CommitIsStored(s: State)
    requires Reachable(s) && s.log == [OpenedBy(1), CommittedBy(1, TX)]
    ensures StoredDb(s).blocks == map[0 := [1]]
  {
    StoredIsWhole(s);
    assert Replay([OpenedBy(1)]) == EMPTY.(epoch := 1) by { assert [OpenedBy(1)][..0] == []; }
    assert s.log[..1] == [OpenedBy(1)];
    assert TX.blocks[..0] == [];
    assert Overlay(TX.blocks) == map[0 := [1]];
  }

  /** The connections close, as a deletion asks of them, and the deletion completes. */
  lemma {:induction false} ClosesAndDrops(s: State, r: nat) returns (e: State)
    requires Reachable(s) && s.conns == map[0 := LOOKED, 1 := OPENED] && r in s.deletions
    ensures Reachable(e) && e.store.None? && e.log == s.log + [Dropped] && e.phases == s.phases
  {
    e := Do(s, VersionChange(1));
    e := ClosesBoth(e);
    e := Do(e, CompleteDelete(r));
  }

  lemma {:induction false} ClosesBoth(s: State) returns (e: State)
    requires Reachable(s) && s.conns == map[0 := LOOKED, 1 := OPENED.(closing := true)]
    ensures Reachable(e) && e == s.(conns := map[])
  {
    e := Do(s, FinishClose(0));
    e := Do(e, FinishClose(1));
  }

  /** Instance 1 commits; instance 0 goes on to delete what it did not find, and with it that commit. */
  lemma {:induction false} NotFoundDeletesACommit() returns (before: State, after: State)
    ensures Reachable(before) && PhaseOf(before, 0).NotFound? && StoredDb(before).blocks == map[0 := [1]]
    ensures Reachable(after) && PhaseOf(after, 1) == PhaseOf(before, 1) == Open(1, false)
    ensures after.store.None? && after.log == before.log + [Dropped]
  {
    before := IsTakenOver();
    before := CreatesAndCommits(before);
    CommitIsStored(before);
    after := Do(before, RequestDelete(0));
    after := ClosesAndDrops(after, 2);
  }

  /** Instance 0 asks for the deletion before instance 1, which is connected already, creates the database. */
  lemma {:induction false} NotFoundDeletesALaterCommit() returns (asked: State, after: State)
    ensures Reachable(asked) && asked.deletions == map[2 := Some(0)] && StoredDb(asked).epoch == 0
    ensures Reachable(after) && after.store.None? && after.log == [OpenedBy(1), CommittedBy(1, TX), Dropped]
  {
    asked := IsTakenOver();
    asked := Do(asked, RequestDelete(0));
    after := CreatesAndCommits(asked);
    after := ClosesAndDrops(after, 2);
  }

  /** Instance 0 steals the lock while instance 1 is opening, and opens the database. */
  lemma {:induction false} Steals() returns (s: State)
    ensures Reachable(s) && s.holder == Some(0) && s.next == 1 && s.deletions == map[] && s.log == []
    ensures s.store == Some((0, EMPTY)) && s.conns == map[0 := Conn(0, 0, None, false, Some(true), None)]
    ensures s.phases == map[0 := Connected(0), 1 := Locked(false)]
  {
    s := Start();
    s := Do(s, Acquire(1, false, false));
    s := Do(s, Acquire(0, true, false));
    s := Do(s, Connect(0));
    s := Do(s, BeginHead(0, true));
  }

  /** Both open it, instance 1 last. */
  lemma {:induction false} BothOpen() returns (s: State)
    ensures Reachable(s) && s.holder == Some(0) && s.store == Some((0, Db(2, 0, map[]))) && s.deletions == map[]
    ensures 0 in s.conns && s.conns[0] == Conn(0, 0, Some(1), false, None, None)
    ensures PhaseOf(s, 0) == Open(0, false)
  {
    s := Steals();
    s := Do(s, RunHead(0));
    s := Do(s, Connect(1));
    s := Do(s, BeginHead(1, true));
    s := Do(s, RunHead(1));
  }

  /** The order of openings decides, not the lock: an instance that lost the lock while opening fences the holder. */
  lemma {:induction false} HolderIsFenced() returns (s: State)
    ensures Reachable(s) && s.holder == Some(0) && PhaseOf(s, 0) == Open(0, false)
    ensures Enabled(s, RunCommit(0)) && Next(s, RunCommit(0)).log == s.log
    ensures StoredDb(Next(s, RunCommit(0))) == StoredDb(s)
  {
    s := BothOpen();
    s := Do(s, BeginCommit(0, TX));
  }
}
