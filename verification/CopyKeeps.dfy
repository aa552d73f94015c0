/**
 * What the local copy keeps. Coherence alone would hold of a copy that is always thrown away: here is when it is not,
 * and that everything a session loads or commits gets there unless a write fails.
 */
module CopyKeeps {
  import opened Common
  import opened Snapshots
  import opened Header
  import opened CopyFile
  import opened FileStore
  import opened CopyHistory
  import opened CopySession
  import opened CopyCoherence

  // ---------------------------------------------------------------------------------------------------------------
  // Checking a copy
  // ---------------------------------------------------------------------------------------------------------------

  /** A session that has not written to the copy yet checks it, and its head can be read. */
  ghost predicate Checks(o: Owner, s: State, taking: Taking) {
    && InHistory(s) && s.session.Some? && s.session.value.local.Ready? && Enabled(o, s, TakeCopy(taking))
    && !taking.headFails
  }

  /** The head names this user, this database and its page size, and the file is trusted. */
  predicate IsOurs(o: Owner, d: Disk) {
    && d.File? && d.trusted && d.copy.head.subject == o.subject && d.copy.head.dbId == o.dbId
    && d.copy.head.pageSize == o.pageSize
  }

  /** The copy is used from now on, and the session is otherwise as it was. */
  predicate UsesCopy(s: State, e: State) {
    && e.history == s.history && s.session.Some? && e.session.Some?
    && e.session.value == s.session.value.(stage := Checked(true))
  }

  /**
   * A copy of this database is used as it is if it is current. One that is behind is used if the change list is there:
   * every block that is not in the list stays as it was, and no other.
   */
  lemma {:induction false} GoodCopyIsUsed(o: Owner, s: State, taking: Taking)
    requires Checks(o, s, taking) && IsOurs(o, s.disk)
    ensures var e, t := Next(o, s, TakeCopy(taking)), s.session.value;
            && (s.disk.copy.head.version == t.version ==> UsesCopy(s, e) && e.disk == s.disk)
            && (s.disk.copy.head.version < t.version && taking.changes.Some? && taking.forgetLeaves.None? ==>
                  && UsesCopy(s, e) && IsOurs(o, e.disk) && e.disk.copy.head.version == t.version
                  && e.disk.copy.head.pageCount == |s.history.snaps[t.version]|
                  && KeepsUnnamed(s.disk.copy.blocks, e.disk.copy.blocks, |s.history.snaps[t.version]|,
                                  taking.changes.value))
  {
  }

  /** Any other copy is removed, except one that is ahead: that one stays, and the database is not opened. */
  lemma {:induction false} OtherCopyIsRemoved(o: Owner, s: State, taking: Taking)
    requires Checks(o, s, taking)
    ensures var e, t := Next(o, s, TakeCopy(taking)), s.session.value;
            && (!IsOurs(o, s.disk) || (s.disk.copy.head.version < t.version && taking.changes.None?) ==>
                  && e.session.Some? && e.session.value.stage == Checked(false)
                  && (if taking.clearFails then e.disk == s.disk && e.session.value.local.NoCopy?
                      else e.disk.Absent? && e.session.value.local.Ready?))
            && (IsOurs(o, s.disk) && s.disk.copy.head.version > t.version ==>
                  e.disk == s.disk && e.session == Some(t.(stage := Broken)))
  {
  }

  // ---------------------------------------------------------------------------------------------------------------
  // What is queued
  // ---------------------------------------------------------------------------------------------------------------

  /** What the copy will hold once everything that is queued is written. */
  ghost function Held(s: State): map<nat, Block>
    requires s.session.Some?
  {
    Final(BlocksOn(s.disk), QueueOf(s.session.value.local))
  }

  /** Writes to the copy have not failed so far. */
  predicate HasCopy(t: Session) { t.local.Ready? || (t.local.Writing? && !t.local.givenUp) }

  lemma {:induction false} JobGains(m: map<nat, Block>, count: nat, ws: seq<BlockWrite>)
    ensures Replaces(m, Written(m, count, ws), count, ws)
  {
    forall i: nat { OverlayIsLast(ws, i); }
  }

  lemma {:induction false} QueuedGains(d: Disk, l: Local, head: Head, ws: seq<BlockWrite>)
    requires l.Ready? || (l.Writing? && !l.givenUp)
    requires ws != []
    ensures var l' := Queued(l, head, ws);
            && l'.Writing? && !l'.givenUp
            && Replaces(Final(BlocksOn(d), QueueOf(l)), Final(BlocksOn(d), QueueOf(l')), head.pageCount, ws)
  {
    var held := Final(BlocksOn(d), QueueOf(l));
    FinalSnoc(BlocksOn(d), QueueOf(l), Job(head, ws));
    JobGains(held, head.pageCount, ws);
  }

  /** Blocks that were fetched are queued for the copy, with the content of the session's version. */
  lemma {:induction false} FetchedIsKept(o: Owner, s: State, indexes: seq<nat>)
    requires InHistory(s) && Enabled(o, s, Fetched(indexes)) && HasCopy(s.session.value) && indexes != []
    ensures var e, snap := Next(o, s, Fetched(indexes)), s.history.snaps[s.session.value.version];
            && e.session.Some? && HasCopy(e.session.value) && e.disk == s.disk
            && (forall k :: 0 <= k < |indexes| && indexes[k] < |snap| ==>
                  indexes[k] in Held(e) && Held(e)[indexes[k]] == snap[indexes[k]])
            && (forall i: nat :: i in Held(s) && i < |snap| ==> i in Held(e))
  {
    var t := s.session.value;
    var snap := s.history.snaps[t.version];
    var ws := BlocksAt(snap, indexes, o.pageSize);
    QueuedGains(s.disk, t.local, HeadAt(o, s.history, t.version), ws);
    forall k | 0 <= k < |indexes| && indexes[k] < |snap|
      ensures exists j: nat :: LastWrite(ws, j, indexes[k]) && ws[j].data == snap[indexes[k]]
    {
      var j := LastOf(ws, k);
    }
  }

  lemma {:induction false} LastOf(ws: seq<BlockWrite>, k: nat) returns (j: nat)
    requires k < |ws|
    ensures k <= j && LastWrite(ws, j, ws[k].index)
    decreases |ws| - k
  {
    if exists i :: k < i < |ws| && ws[i].index == ws[k].index {
      var i :| k < i < |ws| && ws[i].index == ws[k].index;
      j := LastOf(ws, i);
    } else {
      j := k;
    }
  }

  /** So are the blocks of a commit, over those the copy had. */
  lemma {:induction false} CommittedIsKept(o: Owner, s: State, count: nat, ws: seq<BlockWrite>)
    requires InHistory(s) && Enabled(o, s, Commit(count, ws)) && HasCopy(s.session.value) && ws != []
    ensures var e := Next(o, s, Commit(count, ws));
            e.session.Some? && HasCopy(e.session.value) && Replaces(Held(s), Held(e), count, ws)
  {
    var t := s.session.value;
    QueuedGains(s.disk, t.local, Head(o.subject, o.dbId, o.pageSize, count, t.version + 1), ws);
  }

  // ---------------------------------------------------------------------------------------------------------------
  // What is written
  // ---------------------------------------------------------------------------------------------------------------

  function WriteJobs(n: nat): seq<Step> { if n == 0 then [] else [WriteJob] + WriteJobs(n - 1) }

  /** Once the background thread has written everything, the copy holds it, under the head that was queued last. */
  lemma {:induction false} AllIsWritten(o: Owner, s: State)
    requires InHistory(s) && s.session.Some? && s.session.value.local.Writing? && !s.session.value.local.givenUp
    ensures var queue := s.session.value.local.queue;
            && IsRun(o, s, WriteJobs(|queue|))
            && var e := After(o, s, WriteJobs(|queue|));
            && e.session == Some(s.session.value.(local := Writing([], false))) && e.history == s.history
            && BlocksOn(e.disk) == Held(s)
            && (queue != [] ==> e.disk.File? && e.disk.trusted && e.disk.copy.head == queue[|queue| - 1].head)
    decreases |s.session.value.local.queue|
  {
    var queue := s.session.value.local.queue;
    if queue == [] {
    } else {
      var e := Next(o, s, WriteJob);
      AllIsWritten(o, e);
      assert WriteJobs(|queue|)[1..] == WriteJobs(|queue| - 1);
      if |queue| > 1 { assert queue[1..][|queue| - 2] == queue[|queue| - 1]; }
    }
  }

  /**
   * A session whose last write carries its version leaves a copy that the next session uses, with every block that was
   * queued, if nobody changed the database in between.
   */
  lemma {:induction false} NextSessionFindsIt(o: Owner, s: State, onDemand: bool, taking: Taking)
    requires InHistory(s) && s.session.Some? && s.session.value.local.Writing? && !s.session.value.local.givenUp
    requires var t, queue := s.session.value, s.session.value.local.queue;
             queue != [] && Latest(s) == t.version && queue[|queue| - 1].head == HeadAt(o, s.history, t.version)
    requires !taking.headFails
    ensures var t, queue := s.session.value, s.session.value.local.queue;
            && IsRun(o, s, WriteJobs(|queue|))
            && var written := After(o, s, WriteJobs(|queue|));
            && InHistory(written) && Enabled(o, written, Close)
            && var closed := Next(o, written, Close);
            && Enabled(o, closed, StartOpen(onDemand, true))
            && var begun := Next(o, closed, StartOpen(onDemand, true));
            && InHistory(begun) && Enabled(o, begun, TakeCopy(taking))
            && var checked := Next(o, begun, TakeCopy(taking));
            && UsesCopy(begun, checked) && checked.session.value.version == t.version
            && checked.disk.File? && checked.disk.copy.blocks == Held(s)
  {
    AllIsWritten(o, s);
    var begun := Next(o, Next(o, After(o, s, WriteJobs(|s.session.value.local.queue|)), Close),
                       StartOpen(onDemand, true));
    GoodCopyIsUsed(o, begun, taking);
  }
}
