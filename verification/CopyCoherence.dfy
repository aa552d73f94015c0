/**
 * Coherence of the local copy: whatever it serves is the server's block at the session's version, across sessions,
 * crashes, failed writes, catch-ups, commits that only cut the file, breaks and heals; with one exception, a heal that
 * moves the version under a copy that is already being written, which is shown as well.
 */
module CopyCoherence {
  import opened Common
  import opened Snapshots
  import opened Header
  import opened FileStore
  import opened CopyHistory
  import opened CopySession

  // ---------------------------------------------------------------------------------------------------------------
  // The queue
  // ---------------------------------------------------------------------------------------------------------------

  function AfterJob(m: map<nat, Block>, j: Job): map<nat, Block> { Written(m, j.head.pageCount, j.blocks) }

  /** The blocks once all jobs are written. */
  function Final(m: map<nat, Block>, queue: seq<Job>): map<nat, Block>
    decreases |queue|
  {
    if queue == [] then m else Final(AfterJob(m, queue[0]), queue[1..])
  }

  predicate HeadFits(o: Owner, h: History, head: Head) {
    head.version < |h.snaps| && head == HeadAt(o, h, head.version)
  }

  /** Every job leaves blocks of its own version. */
  ghost predicate Chain(o: Owner, h: History, m: map<nat, Block>, queue: seq<Job>)
    decreases |queue|
  {
    queue == [] ||
    (&& HeadFits(o, h, queue[0].head) && Agrees(AfterJob(m, queue[0]), h.snaps[queue[0].head.version])
     && Chain(o, h, AfterJob(m, queue[0]), queue[1..]))
  }

  lemma {:induction false} FinalSnoc(m: map<nat, Block>, queue: seq<Job>, j: Job)
    ensures Final(m, queue + [j]) == AfterJob(Final(m, queue), j)
    decreases |queue|
  {
    if queue == [] {
      assert [j][1..] == [] && [] + [j] == [j];
    } else {
      assert (queue + [j])[1..] == queue[1..] + [j];
      FinalSnoc(AfterJob(m, queue[0]), queue[1..], j);
    }
  }

  lemma {:induction false} ChainSnoc(o: Owner, h: History, m: map<nat, Block>, queue: seq<Job>, j: Job)
    requires Chain(o, h, m, queue) && HeadFits(o, h, j.head)
    requires Agrees(AfterJob(Final(m, queue), j), h.snaps[j.head.version])
    ensures Chain(o, h, m, queue + [j])
    decreases |queue|
  {
    if queue == [] {
      assert [j][1..] == [] && [] + [j] == [j];
    } else {
      assert (queue + [j])[1..] == queue[1..] + [j];
      ChainSnoc(o, h, AfterJob(m, queue[0]), queue[1..], j);
    }
  }

  ghost predicate Within(m: map<nat, Block>, n: map<nat, Block>) { forall i <- m :: i in n && n[i] == m[i] }

  /** Jobs keep their meaning if the blocks they were queued for are lost. */
  lemma {:induction false} LessIsFine(o: Owner, h: History, m: map<nat, Block>, n: map<nat, Block>, queue: seq<Job>)
    requires Within(m, n) && Chain(o, h, n, queue)
    ensures Chain(o, h, m, queue) && Within(Final(m, queue), Final(n, queue))
    decreases |queue|
  {
    if queue != [] {
      var j := queue[0];
      assert Within(AfterJob(m, j), AfterJob(n, j));
      LessIsFine(o, h, AfterJob(m, j), AfterJob(n, j), queue[1..]);
    }
  }

  /** Later versions do not change what earlier ones are. */
  lemma {:induction false} ChainGrows(o: Owner, h: History, k: History, m: map<nat, Block>, queue: seq<Job>)
    requires Chain(o, h, m, queue) && h.snaps <= k.snaps
    ensures Chain(o, k, m, queue)
    decreases |queue|
  {
    if queue != [] { ChainGrows(o, h, k, AfterJob(m, queue[0]), queue[1..]); }
  }

  // ---------------------------------------------------------------------------------------------------------------
  // The invariant
  // ---------------------------------------------------------------------------------------------------------------

  /** A copy of ours that is trusted has blocks of the version its head names. */
  ghost predicate DiskOk(o: Owner, h: History, d: Disk) {
    Fitting(o, d) ==>
      && HeadFits(o, h, d.copy.head) && Agrees(d.copy.blocks, h.snaps[d.copy.head.version])
      && forall i <- d.copy.blocks :: i < d.copy.head.pageCount
  }

  /** A copy may be written: nothing is there, or a trusted copy of ours. */
  predicate MayWrite(o: Owner, d: Disk) { d.Absent? || Fitting(o, d) }

  /** What the session will find in the copy, once its jobs are written, is of its version. */
  ghost predicate ServesVersion(h: History, m: map<nat, Block>, v: int) { 0 <= v < |h.snaps| && Agrees(m, h.snaps[v]) }

  ghost predicate NotAhead(o: Owner, d: Disk, queue: seq<Job>, v: nat) {
    && (Fitting(o, d) ==> d.copy.head.version <= v)
    && (forall j <- queue :: j.head.version <= v)
  }

  ghost predicate WritingOk(o: Owner, h: History, d: Disk, t: Session)
    requires t.local.Writing?
  {
    !t.local.givenUp ==>
      && MayWrite(o, d) && Chain(o, h, BlocksOn(d), t.local.queue)
      && ServesVersion(h, Final(BlocksOn(d), t.local.queue), CopyVersion(t))
      && Known(h, Final(BlocksOn(d), t.local.queue), CopyVersion(t))
  }

  /** The version the copy will be at: behind the session's while a heal has moved that. */
  function CopyVersion(t: Session): int { if t.moved then t.version - 1 else t.version }

  /** A heal moved the version by the one commit that was pending, under a copy that is being written. */
  ghost predicate MovedOk(h: History, t: Session) {
    t.moved ==> t.local.Writing? && 0 < t.version <= |h.log| && h.log[t.version - 1].Committed? && t.pending.None?
  }

  ghost predicate ReadyOk(o: Owner, h: History, d: Disk, t: Session) {
    t.stage.Checked? || t.stage.Usable? ==> MayWrite(o, d) && ServesVersion(h, BlocksOn(d), t.version)
  }

  function QueueOf(l: Local): seq<Job> { if l.Writing? then l.queue else [] }

  ghost predicate SessionOk(o: Owner, h: History, d: Disk, t: Session) {
    && t.version < |h.snaps| && NotAhead(o, d, QueueOf(t.local), t.version)
    && MovedOk(h, t)
    && (t.local.Writing? ==> WritingOk(o, h, d, t))
    && (t.local.Ready? ==> ReadyOk(o, h, d, t))
    && (t.stage == Checked(true) || t.stage.Usable? ==> !t.moved)
    && (t.applied ==> t.pending.Some? && t.version < |h.log| && h.log[t.version] == t.pending.value)
    && (t.pending.Some? ==>
          t.stage.Broken? && t.pending.value.Committed? && HoleFree(h, t.version, t.pending.value, o.pageSize))
  }

  ghost predicate Inv(o: Owner, s: State) {
    && ValidHistory(s.history, o.pageSize) && DiskOk(o, s.history, s.disk)
    && (s.session.Some? ==> SessionOk(o, s.history, s.disk, s.session.value))
  }

  /** The copy holds a block of the commit with another content. */
  ghost predicate HoldsOld(m: map<nat, Block>, c: Change) {
    c.Committed? && exists i :: i in m && i < c.count && i in c.writes && m[i] != c.writes[i]
  }

  /**
   * A heal that ends with the version moved under a copy that is being written, nothing loaded again, and an old block
   * of the commit in the copy.
   */
  ghost predicate StaleHeal(s: State, step: Step) {
    step.FinishLoading? && !step.preloaded && s.session.Some? &&
    var t := s.session.value;
    && t.moved && t.local.Writing? && !t.local.givenUp && 0 < t.version <= |s.history.log|
    && HoldsOld(Final(BlocksOn(s.disk), t.local.queue), s.history.log[t.version - 1])
  }

  // ---------------------------------------------------------------------------------------------------------------
  // Blocks from the server
  // ---------------------------------------------------------------------------------------------------------------

  lemma {:induction false} OverlayOfBlocks(s: Snapshot, indexes: seq<nat>, pageSize: nat, i: nat)
    ensures var writes := Overlay(BlocksAt(s, indexes, pageSize));
            (i in writes <==> i in indexes) && (i in writes ==> writes[i] == At(s, i, pageSize))
    decreases |indexes|
  {
    if indexes != [] {
      var n := |indexes| - 1;
      assert BlocksAt(s, indexes, pageSize)[..n] == BlocksAt(s, indexes[..n], pageSize);
      assert indexes == indexes[..n] + [indexes[n]];
      OverlayOfBlocks(s, indexes[..n], pageSize, i);
    }
  }

  /** Fetched blocks go with those that agree already, or with any if all blocks were fetched. */
  lemma {:induction false} FetchedAgrees(m: map<nat, Block>, s: Snapshot, indexes: seq<nat>, pageSize: nat)
    requires Agrees(m, s) || indexes == AllIndexes(|s|)
    ensures Agrees(Written(m, |s|, BlocksAt(s, indexes, pageSize)), s)
  {
    var ws := BlocksAt(s, indexes, pageSize);
    var kept := Written(m, |s|, ws);
    forall i <- kept ensures i < |s| ==> kept[i] == s[i] {
      OverlayOfBlocks(s, indexes, pageSize, i);
      if indexes == AllIndexes(|s|) { assert indexes[i] == i; }
    }
  }

  // ---------------------------------------------------------------------------------------------------------------
  // Steps of the session
  // ---------------------------------------------------------------------------------------------------------------

  /** The session has a copy it can hand blocks to. */
  ghost predicate Accepts(o: Owner, h: History, d: Disk, l: Local) {
    l.Ready? || (l.Writing? && !l.givenUp) ==> MayWrite(o, d) && Chain(o, h, BlocksOn(d), QueueOf(l))
  }

  lemma {:induction false} QueuedIsOk(o: Owner, h: History, d: Disk, t: Session, l: Local, ws: seq<BlockWrite>)
    requires t.version < |h.snaps| && Accepts(o, h, d, l) && NotAhead(o, d, QueueOf(l), t.version)
    requires t.local == Queued(l, HeadAt(o, h, t.version), ws) && ws != [] && !t.moved
    requires Agrees(Written(Final(BlocksOn(d), QueueOf(l)), |h.snaps[t.version]|, ws), h.snaps[t.version])
    ensures t.local.Writing? ==> WritingOk(o, h, d, t)
    ensures NotAhead(o, d, QueueOf(t.local), t.version) && !t.local.Ready?
  {
    if l.Ready? || (l.Writing? && !l.givenUp) {
      var j := Job(HeadAt(o, h, t.version), ws);
      ChainSnoc(o, h, BlocksOn(d), QueueOf(l), j);
      FinalSnoc(BlocksOn(d), QueueOf(l), j);
    }
  }

  lemma {:induction false} FetchKeepsInv(o: Owner, s: State, indexes: seq<nat>)
    requires Inv(o, s) && InHistory(s) && Enabled(o, s, Fetched(indexes))
    ensures Inv(o, Next(o, s, Fetched(indexes)))
  {
    var t, t' := s.session.value, Next(o, s, Fetched(indexes)).session.value;
    var snap := s.history.snaps[t.version];
    if indexes == [] || t.local.NoCopy? {
      assert t' == t;
    } else {
      if !(t.local.Writing? && t.local.givenUp) {
        FetchedAgrees(Final(BlocksOn(s.disk), QueueOf(t.local)), snap, indexes, o.pageSize);
        QueuedIsOk(o, s.history, s.disk, t', t.local, BlocksAt(snap, indexes, o.pageSize));
      }
    }
  }

  /** A copy under which the version moved serves it exactly if it holds no old block of the commit that moved it. */
  lemma {:induction false} MovedCopyServes(o: Owner, h: History, d: Disk, t: Session)
    requires ValidHistory(h, o.pageSize) && SessionOk(o, h, d, t) && t.moved && !t.local.givenUp
    ensures var held := Final(BlocksOn(d), t.local.queue);
            && (ServesVersion(h, held, t.version) <==> !HoldsOld(held, h.log[t.version - 1]))
            && Known(h, held, t.version)
  {
    assert IsStep(h, t.version - 1, o.pageSize);
    UnwrittenCommitAgrees(h, t.version - 1, Final(BlocksOn(d), t.local.queue), h.log[t.version - 1], o.pageSize);
  }

  lemma {:induction false} LoadingKeepsInv(o: Owner, s: State, preloaded: bool)
    requires Inv(o, s) && InHistory(s) && Enabled(o, s, FinishLoading(preloaded))
    requires !StaleHeal(s, FinishLoading(preloaded))
    ensures Inv(o, Next(o, s, FinishLoading(preloaded)))
  {
    var t, t' := s.session.value, Next(o, s, FinishLoading(preloaded)).session.value;
    var snap := s.history.snaps[t.version];
    if !preloaded && t.moved && !t.local.givenUp { MovedCopyServes(o, s.history, s.disk, t); }
    if preloaded && snap != [] && !t.local.NoCopy? && !(t.local.Writing? && t.local.givenUp) {
      FetchedAgrees(Final(BlocksOn(s.disk), QueueOf(t.local)), snap, AllIndexes(|snap|), o.pageSize);
      QueuedIsOk(o, s.history, s.disk, t', t.local, BlocksAt(snap, AllIndexes(|snap|), o.pageSize));
    }
  }

  /** Versions are only added: what held of earlier ones still holds. */
  lemma {:induction false} HistoryGrows(o: Owner, h: History, k: History, d: Disk, t: Session)
    requires h.snaps <= k.snaps && h.log <= k.log && SessionOk(o, h, d, t)
    ensures SessionOk(o, k, d, t)
  {
    if t.local.Writing? && !t.local.givenUp { ChainGrows(o, h, k, BlocksOn(d), t.local.queue); }
    if t.pending.Some? { HoleFreeStays(h, k, t.version, t.pending.value, o.pageSize); }
  }

  lemma {:induction false} OthersKeepInv(o: Owner, s: State, change: Change)
    requires Inv(o, s) && InHistory(s) && HoleFree(s.history, Latest(s), change, o.pageSize)
    ensures Inv(o, s.(history := Extended(s.history, change, o.pageSize)))
  {
    ExtendedIsValid(s.history, change, o.pageSize);
    if s.session.Some? {
      HistoryGrows(o, s.history, Extended(s.history, change, o.pageSize), s.disk, s.session.value);
    }
  }

  /** A commit without blocks leaves the head behind, yet what the copy holds is of the new version. */
  lemma {:induction false} CommitKeepsInv(o: Owner, s: State, count: nat, ws: seq<BlockWrite>)
    requires Inv(o, s) && InHistory(s) && Enabled(o, s, Commit(count, ws))
    ensures Inv(o, Next(o, s, Commit(count, ws)))
  {
    var change := Committed(count, Overlay(ws));
    OthersKeepInv(o, s, change);
    var h := Extended(s.history, change, o.pageSize);
    var t, t' := s.session.value, Next(o, s, Commit(count, ws)).session.value;
    var held := Final(BlocksOn(s.disk), QueueOf(t.local));
    if t.local.Ready? || (t.local.Writing? && !t.local.givenUp) {
      HoleFreeCommitAgrees(s.history, t.version, held, count, ws, o.pageSize);
      if ws != [] { QueuedIsOk(o, h, s.disk, t', t.local, ws); }
    }
  }

  // ---------------------------------------------------------------------------------------------------------------
  // Steps of the background thread
  // ---------------------------------------------------------------------------------------------------------------

  lemma {:induction false} JobKeepsInv(o: Owner, s: State)
    requires Inv(o, s) && InHistory(s) && Enabled(o, s, WriteJob)
    ensures Inv(o, Next(o, s, WriteJob))
  {
  }

  /** A failed write clears the copy: what is written later goes with what is left. */
  lemma {:induction false} FailedJobKeepsInv(o: Owner, s: State, leaves: Disk, clearFails: bool)
    requires Inv(o, s) && InHistory(s) && Enabled(o, s, FailJob(leaves, clearFails))
    ensures Inv(o, Next(o, s, FailJob(leaves, clearFails)))
  {
    if clearFails { GivenUpKeepsInv(o, s, leaves); } else { ClearedKeepsInv(o, s, leaves); }
  }

  lemma {:induction false} ClearedKeepsInv(o: Owner, s: State, leaves: Disk)
    requires Inv(o, s) && InHistory(s) && Enabled(o, s, FailJob(leaves, false))
    ensures Inv(o, Next(o, s, FailJob(leaves, false)))
  {
    ClearedIsOk(o, s.history, s.disk, s.session.value);
  }

  /** The rest of the queue can be written to a copy that was cleared. */
  lemma {:induction false} ClearedIsOk(o: Owner, h: History, d: Disk, t: Session)
    requires t.local.Writing? && t.local.queue != [] && !t.local.givenUp && WritingOk(o, h, d, t)
    ensures WritingOk(o, h, Absent, t.(local := Writing(t.local.queue[1..], false)))
  {
    var first, rest := t.local.queue[0], t.local.queue[1..];
    var all, left := Final(BlocksOn(d), t.local.queue), Final(map[], rest);
    LessIsFine(o, h, map[], AfterJob(BlocksOn(d), first), rest);
    assert Within(left, all);
  }

  lemma {:induction false} GivenUpKeepsInv(o: Owner, s: State, leaves: Disk)
    requires Inv(o, s) && InHistory(s) && Enabled(o, s, FailJob(leaves, true))
    ensures Inv(o, Next(o, s, FailJob(leaves, true)))
  {
  }

  lemma {:induction false} CrashKeepsInv(o: Owner, s: State, leaves: Disk)
    requires Inv(o, s) && InHistory(s) && Enabled(o, s, Crash(leaves))
    ensures Inv(o, Next(o, s, Crash(leaves)))
  {
  }

  // ---------------------------------------------------------------------------------------------------------------
  // Checking a copy
  // ---------------------------------------------------------------------------------------------------------------

  lemma {:induction false} TakingKeepsInv(o: Owner, s: State, taking: Taking)
    requires Inv(o, s) && InHistory(s) && Enabled(o, s, TakeCopy(taking))
    ensures Inv(o, Next(o, s, TakeCopy(taking)))
  {
    var t, d := s.session.value, s.disk;
    if t.local.Ready? && !taking.headFails && Fitting(o, d) && d.copy.head.version < t.version && taking.changes.Some? {
      CatchUpKeepsInv(o, s, taking);
    }
  }

  lemma {:induction false} CatchUpKeepsInv(o: Owner, s: State, taking: Taking)
    requires Inv(o, s) && InHistory(s) && Enabled(o, s, TakeCopy(taking)) && s.session.value.local.Ready?
    requires !taking.headFails && Fitting(o, s.disk) && taking.changes.Some?
    requires s.disk.copy.head.version < s.session.value.version
    ensures Inv(o, Next(o, s, TakeCopy(taking)))
  {
    var t, copy := s.session.value, s.disk.copy;
    CaughtUpAgrees(s.history, copy.head.version, t.version, copy.blocks, taking.changes.value, o.pageSize);
  }

  // ---------------------------------------------------------------------------------------------------------------
  // Runs
  // ---------------------------------------------------------------------------------------------------------------

  lemma {:induction false} StepKeepsInv(o: Owner, s: State, step: Step)
    requires Inv(o, s) && InHistory(s) && Enabled(o, s, step) && !StaleHeal(s, step)
    ensures Inv(o, Next(o, s, step)) && InHistory(Next(o, s, step))
  {
    match step
    case OthersChange(change) => OthersKeepInv(o, s, change);
    case TakeCopy(taking) => TakingKeepsInv(o, s, taking);
    case FinishLoading(preloaded) => LoadingKeepsInv(o, s, preloaded);
    case Fetched(indexes) => FetchKeepsInv(o, s, indexes);
    case Commit(count, blocks) => CommitKeepsInv(o, s, count, blocks);
    case ApplyPending => OthersKeepInv(o, s, s.session.value.pending.value);
    case WriteJob => JobKeepsInv(o, s);
    case FailJob(leaves, clearFails) => FailedJobKeepsInv(o, s, leaves, clearFails);
    case Crash(leaves) => CrashKeepsInv(o, s, leaves);
    case _ =>
  }

  /** Before the first session: a new database, and a file that is not a copy of it. */
  predicate Initial(o: Owner, s: State) { s.history == History([[]], []) && !Fitting(o, s.disk) && s.session.None? }

  ghost predicate IsRun(o: Owner, s: State, steps: seq<Step>)
    decreases |steps|
  {
    steps == [] || (InHistory(s) && Enabled(o, s, steps[0]) && IsRun(o, Next(o, s, steps[0]), steps[1..]))
  }

  ghost function After(o: Owner, s: State, steps: seq<Step>): State
    requires IsRun(o, s, steps)
    decreases |steps|
  {
    if steps == [] then s else After(o, Next(o, s, steps[0]), steps[1..])
  }

  /** No heal of the run moves the version under a copy that is being written. */
  ghost predicate NeverStale(o: Owner, s: State, steps: seq<Step>)
    requires IsRun(o, s, steps)
    decreases |steps|
  {
    steps == [] || (!StaleHeal(s, steps[0]) && NeverStale(o, Next(o, s, steps[0]), steps[1..]))
  }

  lemma {:induction false} RunKeepsInv(o: Owner, s: State, steps: seq<Step>)
    requires Inv(o, s) && InHistory(s) && IsRun(o, s, steps) && NeverStale(o, s, steps)
    ensures Inv(o, After(o, s, steps)) && InHistory(After(o, s, steps))
    decreases |steps|
  {
    if steps != [] {
      StepKeepsInv(o, s, steps[0]);
      RunKeepsInv(o, Next(o, s, steps[0]), steps[1..]);
    }
  }

  ghost predicate Reachable(o: Owner, e: State) {
    exists s, steps :: Initial(o, s) && IsRun(o, s, steps) && After(o, s, steps) == e
  }

  lemma {:induction false} RunSnoc(o: Owner, s: State, steps: seq<Step>, step: Step)
    requires IsRun(o, s, steps) && InHistory(After(o, s, steps)) && Enabled(o, After(o, s, steps), step)
    ensures IsRun(o, s, steps + [step]) && After(o, s, steps + [step]) == Next(o, After(o, s, steps), step)
    decreases |steps|
  {
    if steps == [] {
      assert [step][1..] == [] && [] + [step] == [step];
    } else {
      assert (steps + [step])[1..] == steps[1..] + [step];
      RunSnoc(o, Next(o, s, steps[0]), steps[1..], step);
    }
  }

  lemma ReachableStep(o: Owner, e: State, step: Step)
    requires Reachable(o, e) && InHistory(e) && Enabled(o, e, step)
    ensures Reachable(o, Next(o, e, step))
  {
    var s, steps :| Initial(o, s) && IsRun(o, s, steps) && After(o, s, steps) == e;
    RunSnoc(o, s, steps, step);
  }

  /** A read reaches the copy itself: in `Ready` at once, in `Writing` when all jobs before it are done. */
  predicate Readable(t: Session) {
    (t.stage.Usable? || t.stage == Checked(true)) && (t.local.Ready? || t.local == Writing([], false))
  }

  /** Coherence: whatever the copy serves below the page count is the server's block at the session's version. */
  lemma {:induction false} CopyServesVersion(o: Owner, s: State, steps: seq<Step>, i: nat)
    requires Initial(o, s) && IsRun(o, s, steps) && NeverStale(o, s, steps)
    ensures InHistory(After(o, s, steps))
    ensures var e := After(o, s, steps);
            e.session.Some? && Readable(e.session.value) && e.disk.File? ==>
              var snap := e.history.snaps[e.session.value.version];
              && e.disk.trusted && Ours(o, e.disk.copy.head)
              && (i in e.disk.copy.blocks && i < |snap| ==> e.disk.copy.blocks[i] == snap[i])
  {
    RunKeepsInv(o, s, steps);
  }

  // ---------------------------------------------------------------------------------------------------------------
  // What holds of every run, stale heals or not
  // ---------------------------------------------------------------------------------------------------------------

  /** What is queued belongs to this database and is not ahead of version `v`. */
  ghost predicate JobsFine(o: Owner, l: Local, v: nat) {
    forall j <- QueueOf(l) :: Ours(o, j.head) && j.head.version <= v
  }

  /** The file may be written whenever it might be, and neither it nor a job is ahead of the session. */
  ghost predicate Guarded(o: Owner, s: State) {
    && (Fitting(o, s.disk) ==> s.disk.copy.head.version < |s.history.snaps|)
    && (s.session.Some? ==>
          var t := s.session.value;
          && (Fitting(o, s.disk) ==> s.disk.copy.head.version <= t.version) && JobsFine(o, t.local, t.version)
          && ((t.local.Writing? && !t.local.givenUp) || (t.local.Ready? && (t.stage.Checked? || t.stage.Usable?)) ==>
                MayWrite(o, s.disk)))
  }

  lemma {:induction false} TakingKeepsGuarded(o: Owner, s: State, taking: Taking)
    requires Guarded(o, s) && InHistory(s) && Enabled(o, s, TakeCopy(taking))
    ensures Guarded(o, Next(o, s, TakeCopy(taking)))
  {
  }

  predicate IsJobStep(step: Step) { step.WriteJob? || step.FailJob? || step.Crash? }

  lemma {:induction false} JobKeepsGuarded(o: Owner, s: State, step: Step)
    requires Guarded(o, s) && InHistory(s) && Enabled(o, s, step) && IsJobStep(step)
    ensures Guarded(o, Next(o, s, step))
  {
    if s.session.value.local.Writing? && s.session.value.local.queue != [] {
      assert s.session.value.local.queue[0] in s.session.value.local.queue;
    }
  }

  predicate IsQueueStep(step: Step) { step.FinishLoading? || step.Fetched? || step.Commit? }

  lemma {:induction false} QueuedIsFine(o: Owner, l: Local, head: Head, ws: seq<BlockWrite>, v: nat)
    requires JobsFine(o, l, v) && Ours(o, head) && head.version <= v
    ensures JobsFine(o, Queued(l, head, ws), v)
  {
  }

  lemma {:induction false} QueueKeepsGuarded(o: Owner, s: State, step: Step)
    requires Guarded(o, s) && InHistory(s) && Enabled(o, s, step) && IsQueueStep(step)
    ensures Guarded(o, Next(o, s, step))
  {
    var t := s.session.value;
    var snap := s.history.snaps[t.version];
    if step.Commit? {
      QueuedIsFine(o, t.local, Head(o.subject, o.dbId, o.pageSize, step.count, t.version + 1), step.blocks,
                   t.version + 1);
    } else {
      var indexes := if step.Fetched? then step.indexes else AllIndexes(|snap|);
      QueuedIsFine(o, t.local, HeadAt(o, s.history, t.version), BlocksAt(snap, indexes, o.pageSize), t.version);
    }
  }

  lemma {:induction false} StepKeepsGuarded(o: Owner, s: State, step: Step)
    requires Guarded(o, s) && InHistory(s) && Enabled(o, s, step)
    ensures Guarded(o, Next(o, s, step)) && InHistory(Next(o, s, step))
  {
    if step.TakeCopy? { TakingKeepsGuarded(o, s, step.taking); }
    else if IsJobStep(step) { JobKeepsGuarded(o, s, step); }
    else if IsQueueStep(step) { QueueKeepsGuarded(o, s, step); }
  }

  lemma {:induction false} RunKeepsGuarded(o: Owner, s: State, steps: seq<Step>)
    requires Guarded(o, s) && InHistory(s) && IsRun(o, s, steps)
    ensures Guarded(o, After(o, s, steps))
    decreases |steps|
  {
    if steps != [] {
      StepKeepsGuarded(o, s, steps[0]);
      RunKeepsGuarded(o, Next(o, s, steps[0]), steps[1..]);
    }
  }

  /** The background thread never writes over a file that is not trusted, or is another database's. */
  lemma {:induction false} NeverOverUntrusted(o: Owner, s: State, steps: seq<Step>)
    requires Initial(o, s) && IsRun(o, s, steps)
    ensures var e := After(o, s, steps);
            e.session.Some? && e.session.value.local.Writing? && !e.session.value.local.givenUp ==>
              e.disk.Absent? || (e.disk.trusted && Ours(o, e.disk.copy.head))
  {
    RunKeepsGuarded(o, s, steps);
  }

  /** The copy is never ahead of the session: the refusal to open such a copy needs a server that lost commits. */
  lemma {:induction false} NeverAhead(o: Owner, s: State, steps: seq<Step>)
    requires Initial(o, s) && IsRun(o, s, steps)
    ensures var e := After(o, s, steps);
            e.session.Some? && Fitting(o, e.disk) ==> e.disk.copy.head.version <= e.session.value.version
  {
    RunKeepsGuarded(o, s, steps);
  }
}
