/**
 * Life of a local copy across sessions, as steps: opening and catching up, fetches and commits that are written to it
 * in the background, failed writes, crashes, breaks and heals, and what others do on the server meanwhile.
 */
module CopySession {
  import opened Common
  import opened Snapshots
  import opened Header
  import opened CopyFile
  import opened FileStore
  import opened CopyHistory

  /** The database a session belongs to. A copy of another one is not used. */
  datatype Owner = Owner(subject: seq<Byte>, dbId: seq<Byte>, pageSize: nat)

  /** The file: absent, or with a header that can be trusted or not, and the blocks its bitmap marks. */
  datatype Disk = Absent | File(copy: Copy, trusted: bool)

  datatype Job = Job(head: Head, blocks: seq<BlockWrite>)

  /** `Ready`: before the first write of the session. `Writing`: jobs queue up for a background thread. */
  datatype Local = NoCopy | Ready | Writing(queue: seq<Job>, givenUp: bool)

  /** `Loading`: opening or healing, before and after the copy was checked; `usable` if it holds this version. */
  datatype Stage = Loading | Checked(usable: bool) | Usable | Broken

  /**
   * `pending`: a commit that ended without an answer, and whether the server applied it. `moved`: a heal moved the
   * version under a copy that was already being written.
   */
  datatype Session = Session(version: nat, onDemand: bool, local: Local, stage: Stage,
                             pending: Option<Change>, applied: bool, moved: bool)

  datatype State = State(history: History, disk: Disk, session: Option<Session>)

  /** What the environment decides while a copy is checked. */
  datatype Taking = Taking(headFails: bool, clearFails: bool, changes: Option<seq<nat>>, forgetLeaves: Option<Disk>)

  datatype Step =
    | OthersChange(change: Change)
    | OthersUseFile(disk: Disk)
    | StartOpen(onDemand: bool, withCopy: bool)
    | TakeCopy(taking: Taking)
    | FinishLoading(preloaded: bool)
    | Fail
    | Fetched(indexes: seq<nat>)
    | Commit(count: nat, blocks: seq<BlockWrite>)
    | BreakInCommit(count: nat, blocks: seq<BlockWrite>)
    | ApplyPending
    | StartHeal
    | WriteJob
    | FailJob(leaves: Disk, clearFails: bool)
    | DropCopy
    | Crash(leaves: Disk)
    | Close

  // ---------------------------------------------------------------------------------------------------------------
  // Pieces
  // ---------------------------------------------------------------------------------------------------------------

  predicate Ours(o: Owner, h: Head) { h.subject == o.subject && h.dbId == o.dbId && h.pageSize == o.pageSize }

  predicate Fitting(o: Owner, d: Disk) { d.File? && d.trusted && Ours(o, d.copy.head) }

  function BlocksOn(d: Disk): map<nat, Block> { if d.Absent? then map[] else d.copy.blocks }

  function Latest(s: State): int { |s.history.snaps| - 1 }

  function HeadAt(o: Owner, h: History, v: nat): Head
    requires v < |h.snaps|
  {
    Head(o.subject, o.dbId, o.pageSize, |h.snaps[v]|, v)
  }

  function JobResult(d: Disk, j: Job): Disk {
    File(Copy(j.head, Written(BlocksOn(d), j.head.pageCount, j.blocks)), true)
  }

  /** What an interrupted write leaves: the old copy, the new one, none, or one that is not trusted. */
  predicate MayRemain(before: Disk, after: Disk, leaves: Disk) {
    leaves == before || leaves == after || leaves.Absent? || !leaves.trusted
  }

  /** Hands blocks to the background thread. Without blocks nothing is written, not even the head. */
  function Queued(l: Local, h: Head, blocks: seq<BlockWrite>): Local {
    if l.NoCopy? || blocks == [] then l
    else Writing((if l.Writing? then l.queue else []) + [Job(h, blocks)], l.Writing? && l.givenUp)
  }

  function BlocksAt(s: Snapshot, indexes: seq<nat>, pageSize: nat): (ws: seq<BlockWrite>)
    ensures |ws| == |indexes|
    ensures forall k :: 0 <= k < |ws| ==> ws[k] == BlockWrite(indexes[k], At(s, indexes[k], pageSize))
  {
    seq(|indexes|, k requires 0 <= k < |indexes| => BlockWrite(indexes[k], At(s, indexes[k], pageSize)))
  }

  function AllIndexes(n: nat): (indexes: seq<nat>)
    ensures |indexes| == n && forall k :: 0 <= k < n ==> indexes[k] == k
  {
    seq(n, k => k)
  }

  // ---------------------------------------------------------------------------------------------------------------
  // Steps
  // ---------------------------------------------------------------------------------------------------------------

  /** The session's version is one the server has had. */
  predicate InHistory(s: State) {
    |s.history.snaps| > 0 && (s.session.Some? ==> s.session.value.version < |s.history.snaps|)
  }

  ghost predicate Enabled(o: Owner, s: State, step: Step)
    requires InHistory(s)
  {
    if s.session.None? then
      match step
      case OthersChange(change) => HoleFree(s.history, Latest(s), change, o.pageSize)
      case OthersUseFile(d) => !Fitting(o, d)
      case StartOpen(_, _) => true
      case _ => false
    else
      var t := s.session.value;
      match step
      case OthersChange(change) => HoleFree(s.history, Latest(s), change, o.pageSize)
      case TakeCopy(taking) => t.stage.Loading? && MayTake(o, s, t, taking)
      case FinishLoading(preloaded) =>
        t.stage.Checked? && if t.onDemand then !preloaded else preloaded || t.stage.usable
      case Fail => !t.stage.Broken?
      case Fetched(_) => (t.stage.Usable? || t.stage == Checked(true)) && Latest(s) == t.version
      case Commit(count, blocks) =>
        && t.stage.Usable? && Latest(s) == t.version
        && HoleFree(s.history, t.version, Committed(count, Overlay(blocks)), o.pageSize)
      case BreakInCommit(count, blocks) =>
        t.stage.Usable? && HoleFree(s.history, t.version, Committed(count, Overlay(blocks)), o.pageSize)
      case ApplyPending => t.stage.Broken? && t.pending.Some? && !t.applied && Latest(s) == t.version
      case StartHeal => t.stage.Broken? && (Latest(s) == t.version || (t.applied && Latest(s) == t.version + 1))
      case WriteJob => t.local.Writing? && t.local.queue != []
      case FailJob(leaves, _) =>
        && t.local.Writing? && t.local.queue != [] && !t.local.givenUp
        && MayRemain(s.disk, JobResult(s.disk, t.local.queue[0]), leaves)
      case Crash(leaves) =>
        if t.local.Writing? && t.local.queue != [] && !t.local.givenUp
        then MayRemain(s.disk, JobResult(s.disk, t.local.queue[0]), leaves)
        else leaves == s.disk
      case DropCopy => t.local.Writing? ==> t.local.queue == []
      case Close => t.local.Writing? ==> t.local.queue == []
      case _ => false
  }

  /** The change list is the server's; a catch-up that fails leaves what an interrupted write leaves. */
  ghost predicate MayTake(o: Owner, s: State, t: Session, taking: Taking) {
    Fitting(o, s.disk) && s.disk.copy.head.version < t.version && taking.changes.Some? ==>
      && Latest(s) == t.version && t.version <= |s.history.log|
      && IsChangeList(s.history, s.disk.copy.head.version, t.version, taking.changes.value)
      && (taking.forgetLeaves.Some? ==>
            MayRemain(s.disk, CaughtUp(o, s, t, taking.changes.value), taking.forgetLeaves.value))
  }

  function CaughtUp(o: Owner, s: State, t: Session, changed: seq<nat>): Disk
    requires t.version < |s.history.snaps|
  {
    var h := HeadAt(o, s.history, t.version);
    File(Copy(h, Forgotten(BlocksOn(s.disk), h.pageCount, changed)), true)
  }

  /** A copy that cannot be used is removed. If that fails, the session goes on without a copy. */
  function Cleared(s: State, t: Session, clearFails: bool): State {
    if clearFails then s.(session := Some(t.(local := NoCopy, stage := Checked(false))))
    else s.(disk := Absent, session := Some(t.(stage := Checked(false))))
  }

  function Taken(o: Owner, s: State, t: Session, taking: Taking): State
    requires t.version < |s.history.snaps|
  {
    if !t.local.Ready? then s.(session := Some(t.(stage := Checked(false))))
    else if taking.headFails then s.(session := Some(t.(local := NoCopy, stage := Checked(false))))
    else if !Fitting(o, s.disk) then Cleared(s, t, taking.clearFails)
    else if s.disk.copy.head.version > t.version then s.(session := Some(t.(stage := Broken)))
    else if s.disk.copy.head.version == t.version then s.(session := Some(t.(stage := Checked(true))))
    else if taking.changes.None? then Cleared(s, t, taking.clearFails)
    else if taking.forgetLeaves.Some? then
      s.(disk := taking.forgetLeaves.value, session := Some(t.(local := NoCopy, stage := Checked(false))))
    else
      s.(disk := CaughtUp(o, s, t, taking.changes.value), session := Some(t.(stage := Checked(true))))
  }

  function Next(o: Owner, s: State, step: Step): State
    requires InHistory(s)
  {
    if s.session.None? then
      match step
      case OthersChange(change) => s.(history := Extended(s.history, change, o.pageSize))
      case OthersUseFile(d) => s.(disk := d)
      case StartOpen(onDemand, withCopy) =>
        s.(session := Some(Session(Latest(s), onDemand, if withCopy then Ready else NoCopy, Loading,
                                   None, false, false)))
      case _ => s
    else
      var t := s.session.value;
      var snap := s.history.snaps[t.version];
      match step
      case OthersChange(change) => s.(history := Extended(s.history, change, o.pageSize))
      case TakeCopy(taking) => Taken(o, s, t, taking)
      case FinishLoading(preloaded) =>
        var blocks := BlocksAt(snap, AllIndexes(|snap|), o.pageSize);
        s.(session := Some(t.(stage := Usable, moved := false,
                              local := if preloaded then Queued(t.local, HeadAt(o, s.history, t.version), blocks)
                                       else t.local)))
      case Fail => s.(session := Some(t.(stage := Broken)))
      case Fetched(indexes) =>
        var blocks := BlocksAt(snap, indexes, o.pageSize);
        s.(session := Some(t.(local := Queued(t.local, HeadAt(o, s.history, t.version), blocks))))
      case Commit(count, blocks) =>
        var h := Extended(s.history, Committed(count, Overlay(blocks)), o.pageSize);
        var head := Head(o.subject, o.dbId, o.pageSize, count, t.version + 1);
        s.(history := h, session := Some(t.(version := t.version + 1, local := Queued(t.local, head, blocks))))
      case BreakInCommit(count, blocks) =>
        s.(session := Some(t.(stage := Broken, pending := Some(Committed(count, Overlay(blocks))), applied := false)))
      case ApplyPending =>
        if t.pending.None? then s
        else s.(history := Extended(s.history, t.pending.value, o.pageSize), session := Some(t.(applied := true)))
      case StartHeal =>
        s.(session := Some(t.(version := Latest(s), stage := Loading, pending := None, applied := false,
                              moved := t.local.Writing? && (t.moved || Latest(s) != t.version))))
      case WriteJob =>
        if !t.local.Writing? || t.local.queue == [] then s
        else
          s.(disk := if t.local.givenUp then s.disk else JobResult(s.disk, t.local.queue[0]),
             session := Some(t.(local := t.local.(queue := t.local.queue[1..]))))
      case FailJob(leaves, clearFails) =>
        if !t.local.Writing? || t.local.queue == [] then s
        else
          s.(disk := if clearFails then leaves else Absent,
             session := Some(t.(local := Writing(t.local.queue[1..], clearFails))))
      case DropCopy => s.(session := Some(t.(local := NoCopy, moved := false)))
      case Crash(leaves) => s.(disk := leaves, session := None)
      case Close => s.(session := None)
      case _ => s
  }

  // ---------------------------------------------------------------------------------------------------------------
  // The file behind it
  // ---------------------------------------------------------------------------------------------------------------

  function DiskOf(f: seq<Byte>): Disk {
    if View(f).Some? then File(View(f).value, true)
    else if ReadHeader(f).None? then Absent
    else File(Copy(ReadHeader(f).value.0, BlocksShown(f, ReadHeader(f).value.0)), false)
  }

  /** A tidy file that a session may write is one that a write takes over as it is. */
  lemma {:induction false} MayWriteIsWritable(o: Owner, f: seq<Byte>)
    requires Tidy(f) && (DiskOf(f).Absent? || Fitting(o, DiskOf(f)))
    ensures Writable(f, o.pageSize)
  {
    TidyIsWritable(f, o.pageSize);
  }

  /** What an interrupted write leaves is what the steps allow, and tidy. */
  lemma {:induction false} CrashRemains(m: Moment, p: Promise, f: seq<Byte>, g: seq<Byte>)
    requires Safe(m, p) && MayLeave(m, g) && p.before == View(f) && p.after.Some?
    ensures MayRemain(DiskOf(f), File(p.after.value, true), DiskOf(g)) && (p.tidy ==> Tidy(g))
  {
    assert Keeps(p, g);
  }

  lemma {:induction false} WritableBlocks(f: seq<Byte>, pageSize: nat)
    requires Writable(f, pageSize)
    ensures BlocksOn(DiskOf(f)) == BlocksOf(View(f)) && Tidy(f)
  {
    TidyIsWritable(f, pageSize);
  }

  lemma {:induction false} ResidueWritten(f: seq<Byte>, h: Head, ws: seq<BlockWrite>)
    requires Writable(f, h.pageSize)
    ensures Written(Residue(f, h), h.pageCount, ws) == Written(BlocksOn(DiskOf(f)), h.pageCount, ws)
  {
    ResidueOfTrusted(f, h);
    WritableBlocks(f, h.pageSize);
    WrittenClips(BlocksOf(View(f)), h.pageCount, ws);
  }

  /**
   * A write that succeeds is the step of a job. One that stops anywhere leaves what the steps allow; if it is trusted,
   * it can be written again.
   */
  lemma {:induction false} WriteIsAJob(f: seq<Byte>, g: seq<Byte>, m: Moment, j: Job)
    requires Writable(f, j.head.pageSize)
    ensures var written := Copy(j.head, Written(Residue(f, j.head), j.head.pageCount, j.blocks));
            var p := Promise(View(f), Some(written), Tidy(f));
            && (View(g) == p.after <==> DiskOf(g) == JobResult(DiskOf(f), j))
            && (Safe(m, p) && MayLeave(m, g) ==>
                  MayRemain(DiskOf(f), JobResult(DiskOf(f), j), DiskOf(g)) && Tidy(g))
  {
    var p := Promise(View(f), Some(Copy(j.head, Written(Residue(f, j.head), j.head.pageCount, j.blocks))), Tidy(f));
    ResidueWritten(f, j.head, j.blocks);
    WritableBlocks(f, j.head.pageSize);
    if Safe(m, p) && MayLeave(m, g) { CrashRemains(m, p, f, g); }
  }

  /** The same of a catch-up. */
  lemma {:induction false} ForgetIsACatchUp(o: Owner, s: State, t: Session, f: seq<Byte>, g: seq<Byte>, m: Moment,
                                            changed: seq<nat>)
    requires t.version < |s.history.snaps| && Writable(f, o.pageSize) && s.disk == DiskOf(f)
    ensures var h := HeadAt(o, s.history, t.version);
            var p := Promise(View(f), Some(Copy(h, Without(Residue(f, h), changed))), Tidy(f));
            && (View(g) == p.after <==> DiskOf(g) == CaughtUp(o, s, t, changed))
            && (Safe(m, p) && MayLeave(m, g) ==> MayRemain(s.disk, CaughtUp(o, s, t, changed), DiskOf(g)) && Tidy(g))
  {
    var h := HeadAt(o, s.history, t.version);
    var p := Promise(View(f), Some(Copy(h, Without(Residue(f, h), changed))), Tidy(f));
    ResidueOfTrusted(f, h);
    WritableBlocks(f, h.pageSize);
    assert Without(Residue(f, h), changed) == Forgotten(BlocksOn(s.disk), h.pageCount, changed);
    if Safe(m, p) && MayLeave(m, g) { CrashRemains(m, p, f, g); }
  }
}
