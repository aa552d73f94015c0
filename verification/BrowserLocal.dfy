/**
 * Databases kept only in the browser, as steps of any number of instances over one database name: a Web Lock that can
 * be stolen, an IndexedDB database whose deletion waits until its connections are closed, and an epoch in the stored
 * head that every commit checks in its own transaction.
 */
module BrowserLocal {
  import opened Common
  import opened Snapshots

  /** The stored database: epoch and page count from the head, epoch 0 if there is no head yet, and the blocks. */
  datatype Db = Db(epoch: nat, count: nat, blocks: map<nat, Block>)

  datatype Tx = Tx(count: nat, blocks: seq<BlockWrite>)

  /**
   * A connection of instance `owner` to incarnation `inc` of the database: the epoch its opening set, whether it is
   * being closed, and its transactions that have not run yet: the one on the head, with `create`, and a commit.
   */
  datatype Conn = Conn(owner: nat, inc: nat, epoch: Option<nat>, closing: bool, head: Option<bool>, pending: Option<Tx>)

  /** `NotFound`: opened without `create`, found no head, and goes on to delete; `mark` counts the events before. */
  datatype Phase =
    | Idle
    | Locked(deletes: bool)
    | Connected(c: nat)
    | NotFound(mark: nat)
    | Open(c: nat, lost: bool)
    | Deleting(request: nat)

  datatype Event = OpenedBy(c: nat) | CommittedBy(c: nat, tx: Tx) | Dropped

  /**
   * `store` is the database and its incarnation; `log` what happened to it, over all incarnations. A deletion that was
   * asked for by an open that found nothing remembers how many events there were when it looked.
   */
  datatype State = State(store: Option<(nat, Db)>, conns: map<nat, Conn>, next: nat, phases: map<nat, Phase>,
                         holder: Option<nat>, deletions: map<nat, Option<nat>>, log: seq<Event>)

  datatype Step =
    | Acquire(i: nat, steal: bool, deletes: bool)
    | Connect(i: nat)
    | BeginHead(i: nat, create: bool)
    | RunHead(conn: nat)
    | AbortHead(conn: nat)
    | OpenFails(i: nat)
    | BeginCommit(i: nat, tx: Tx)
    | RunCommit(conn: nat)
    | AbortCommit(conn: nat)
    | LearnLost(i: nat)
    | Close(i: nat)
    | Crash(i: nat)
    | RequestDelete(i: nat)
    | VersionChange(conn: nat)
    | FinishClose(conn: nat)
    | CompleteDelete(request: nat)
    | CancelDelete(request: nat)
    | DeleteDone(i: nat)

  const EMPTY: Db := Db(0, 0, map[])
  const INITIAL: State := State(None, map[], 0, map[], None, map[], [])

  // ---------------------------------------------------------------------------------------------------------------
  // Transactions
  // ---------------------------------------------------------------------------------------------------------------

  /** Blocks are written, then those beyond the new end are deleted, and the head is replaced. */
  function CommitTo(db: Db, tx: Tx): Db {
    var all := db.blocks + Overlay(tx.blocks);
    Db(db.epoch, tx.count, map i | i in all && i < tx.count :: all[i])
  }

  /** What the events leave behind, if every commit is there as a whole. */
  function Replay(log: seq<Event>): Db {
    if log == [] then EMPTY
    else
      var before, n := Replay(log[..|log| - 1]), |log| - 1;
      match log[n]
      case OpenedBy(_) => before.(epoch := before.epoch + 1)
      case CommittedBy(_, tx) => CommitTo(before, tx)
      case Dropped => EMPTY
  }

  /** The connection that opened the database last, unless it was deleted since. */
  function LatestOpener(log: seq<Event>): Option<nat> {
    if log == [] then None
    else
      match log[|log| - 1]
      case OpenedBy(c) => Some(c)
      case CommittedBy(_, _) => LatestOpener(log[..|log| - 1])
      case Dropped => None
  }

  // ---------------------------------------------------------------------------------------------------------------
  // Steps
  // ---------------------------------------------------------------------------------------------------------------

  function PhaseOf(s: State, i: nat): Phase { if i in s.phases then s.phases[i] else Idle }

  function Enter(s: State, i: nat, p: Phase): State { s.(phases := s.phases[i := p]) }

  /** Releasing a lock that was stolen does nothing. */
  function Released(s: State, i: nat): State { if s.holder == Some(i) then s.(holder := None) else s }

  /** A connection that is closed runs no new transaction; those it has already finish first. */
  function Closing(s: State, c: nat): State {
    if c in s.conns then s.(conns := s.conns[c := s.conns[c].(closing := true)]) else s
  }

  function Settle(s: State, c: nat): State {
    if c in s.conns then s.(conns := s.conns[c := s.conns[c].(pending := None)]) else s
  }

  predicate Alive(s: State, c: nat) { c in s.conns && !s.conns[c].closing && s.store.Some? }

  predicate CanBegin(s: State, c: nat) { Alive(s, c) && s.conns[c].head.None? && s.conns[c].epoch.None? }

  predicate Enabled(s: State, step: Step) {
    match step
    case Acquire(i, steal, _) => PhaseOf(s, i).Idle? && (steal || s.holder.None?)
    case Connect(i) => PhaseOf(s, i) == Locked(false) && s.deletions == map[]
    case BeginHead(i, _) => PhaseOf(s, i).Connected? && CanBegin(s, PhaseOf(s, i).c)
    case RunHead(c) => c in s.conns && s.conns[c].head.Some? && s.store.Some?
    case AbortHead(c) => c in s.conns && s.conns[c].head.Some?
    case OpenFails(i) => PhaseOf(s, i).Locked? || PhaseOf(s, i).Connected?
    case BeginCommit(i, _) =>
      var p := PhaseOf(s, i);
      p.Open? && !p.lost && Alive(s, p.c) && s.conns[p.c].pending.None?
    case RunCommit(c) => c in s.conns && s.conns[c].pending.Some? && s.store.Some?
    case AbortCommit(c) => c in s.conns && s.conns[c].pending.Some?
    case LearnLost(i) => PhaseOf(s, i).Open? && s.holder != Some(i)
    case Close(i) => PhaseOf(s, i).Open?
    case Crash(i) => true
    case RequestDelete(i) => PhaseOf(s, i).NotFound? || PhaseOf(s, i) == Locked(true)
    case VersionChange(c) => s.deletions != map[] && c in s.conns
    case FinishClose(c) => c in s.conns && s.conns[c].closing && s.conns[c].head.None? && s.conns[c].pending.None?
    case CompleteDelete(r) => r in s.deletions && s.conns == map[]
    case CancelDelete(r) => r in s.deletions
    case DeleteDone(i) => PhaseOf(s, i).Deleting? && PhaseOf(s, i).request !in s.deletions
  }

  /** The connection of an instance, if it has one. */
  function ConnOf(p: Phase): Option<nat> { if p.Connected? || p.Open? then Some(p.c) else None }

  function Ended(s: State, i: nat): State {
    var e := Released(Enter(s, i, Idle), i);
    if ConnOf(PhaseOf(s, i)).Some? then Closing(e, ConnOf(PhaseOf(s, i)).value) else e
  }

  /** Opens the IndexedDB database, which creates it if there is none. */
  function Connects(s: State, i: nat): State {
    var store := if s.store.Some? then s.store.value else (s.next, EMPTY);
    Enter(s.(store := Some(store), conns := s.conns[s.next := Conn(i, store.0, None, false, None, None)],
             next := s.next + 1), i, Connected(s.next))
  }

  /** The instance goes on, if it is still there and waits for this connection. */
  function GoOn(s: State, c: nat, p: Phase): State
    requires c in s.conns
  {
    if PhaseOf(s, s.conns[c].owner) == Connected(c) then Enter(s, s.conns[c].owner, p) else s
  }

  /**
   * One transaction on the head: increments its epoch, or creates it with epoch 1 if that is asked for. It also runs on
   * a connection that is being closed. An instance that finds nothing closes the connection.
   */
  function HeadRan(s: State, c: nat): State
    requires c in s.conns && s.conns[c].head.Some? && s.store.Some?
  {
    var db, conn := s.store.value.1, s.conns[c];
    if db.epoch == 0 && !conn.head.value then
      GoOn(s.(conns := s.conns[c := conn.(head := None, closing := true)]), c, NotFound(|s.log|))
    else
      GoOn(s.(store := Some((s.store.value.0, db.(epoch := db.epoch + 1))), log := s.log + [OpenedBy(c)],
              conns := s.conns[c := conn.(head := None, epoch := Some(db.epoch + 1))]), c, Open(c, false))
  }

  /** One transaction: if the epoch in the head is still that of the connection, writes everything, else nothing. */
  function CommitRan(s: State, c: nat): State
    requires c in s.conns && s.conns[c].pending.Some? && s.store.Some?
  {
    var db, conn := s.store.value.1, s.conns[c];
    if db.epoch == 0 || conn.epoch != Some(db.epoch) then Settle(s, c)
    else
      Settle(s.(store := Some((s.store.value.0, CommitTo(db, conn.pending.value))),
                log := s.log + [CommittedBy(c, conn.pending.value)]), c)
  }

  function MarkOf(p: Phase): Option<nat> { if p.NotFound? then Some(p.mark) else None }

  function Next(s: State, step: Step): State
    requires Enabled(s, step)
  {
    match step
    case Acquire(i, _, deletes) => Enter(s.(holder := Some(i)), i, Locked(deletes))
    case Connect(i) => Connects(s, i)
    case BeginHead(i, create) =>
      var c := PhaseOf(s, i).c;
      s.(conns := s.conns[c := s.conns[c].(head := Some(create))])
    case RunHead(c) => HeadRan(s, c)
    case AbortHead(c) => s.(conns := s.conns[c := s.conns[c].(head := None, closing := true)])
    case OpenFails(i) => Ended(s, i)
    case BeginCommit(i, tx) =>
      var c := PhaseOf(s, i).c;
      s.(conns := s.conns[c := s.conns[c].(pending := Some(tx))])
    case RunCommit(c) => CommitRan(s, c)
    case AbortCommit(c) => Settle(s, c)
    case LearnLost(i) => Enter(s, i, PhaseOf(s, i).(lost := true))
    case Close(i) => Ended(s, i)
    case Crash(i) => Ended(s, i)
    case RequestDelete(i) =>
      Enter(s.(deletions := s.deletions[s.next := MarkOf(PhaseOf(s, i))], next := s.next + 1), i, Deleting(s.next))
    case VersionChange(c) => Closing(s, c)
    case FinishClose(c) => s.(conns := s.conns - {c})
    case CompleteDelete(r) => s.(store := None, deletions := s.deletions - {r}, log := s.log + [Dropped])
    case CancelDelete(r) => s.(deletions := s.deletions - {r})
    case DeleteDone(i) => Released(Enter(s, i, Idle), i)
  }

  // ---------------------------------------------------------------------------------------------------------------
  // The invariant
  // ---------------------------------------------------------------------------------------------------------------

  function StoredDb(s: State): Db { if s.store.Some? then s.store.value.1 else EMPTY }

  /** Every connection is to the database that is stored, and no other has the epoch of the latest opener. */
  ghost predicate ConnOk(s: State, c: nat)
    requires c in s.conns
  {
    var conn := s.conns[c];
    && c < s.next && s.store.Some? && conn.inc == s.store.value.0
    && (conn.epoch.Some? ==> 0 < conn.epoch.value <= s.store.value.1.epoch)
    && (conn.epoch == Some(s.store.value.1.epoch) ==> LatestOpener(s.log) == Some(c))
  }

  /** Every commit was one of the connection that had opened the database last. */
  ghost predicate CommitsOfLatest(log: seq<Event>) {
    forall k :: 0 <= k < |log| && log[k].CommittedBy? ==> LatestOpener(log[..k]) == Some(log[k].c)
  }

  /** When an instance that found nothing looked, there was nothing. */
  ghost predicate MarkOk(log: seq<Event>, mark: Option<nat>) {
    mark.Some? ==> mark.value <= |log| && LatestOpener(log[..mark.value]).None?
  }

  ghost predicate MarksOk(s: State) {
    && (forall i <- s.phases :: MarkOk(s.log, MarkOf(s.phases[i])))
    && (forall r <- s.deletions :: r < s.next && MarkOk(s.log, s.deletions[r]))
  }

  ghost predicate Inv(s: State) {
    && (forall c <- s.conns :: ConnOk(s, c))
    && StoredDb(s) == Replay(s.log) && (StoredDb(s).epoch == 0 <==> LatestOpener(s.log).None?)
    && CommitsOfLatest(s.log) && MarksOk(s)
  }

  // ---------------------------------------------------------------------------------------------------------------
  // Every step keeps it
  // ---------------------------------------------------------------------------------------------------------------

  /** No mark is new, but for those that a phase hands to a deletion. */
  ghost predicate OldMarks(s: State, e: State) {
    && (forall i <- e.phases ::
          MarkOf(e.phases[i]).Some? ==> i in s.phases && MarkOf(s.phases[i]) == MarkOf(e.phases[i]))
    && (forall r <- e.deletions ::
          r < e.next && (r in s.deletions || e.deletions[r].None? || HasMark(s, e.deletions[r])))
    && (forall r <- e.deletions :: r in s.deletions ==> e.deletions[r] == s.deletions[r])
  }

  ghost predicate HasMark(s: State, mark: Option<nat>) { exists i :: i in s.phases && MarkOf(s.phases[i]) == mark }

  /** Nothing but locks, phases and the progress of connections changed. */
  ghost predicate SameDatabase(s: State, e: State) {
    && e.store == s.store && e.log == s.log && s.next <= e.next && OldMarks(s, e)
    && (forall c <- e.conns :: c in s.conns && e.conns[c].inc == s.conns[c].inc && e.conns[c].epoch == s.conns[c].epoch)
  }

  lemma {:induction false} SameDatabaseKeepsInv(s: State, e: State)
    requires Inv(s) && SameDatabase(s, e)
    ensures Inv(e)
  {
    forall c <- e.conns ensures ConnOk(e, c) { assert ConnOk(s, c); }
  }

  lemma {:induction false} MarkStays(log: seq<Event>, event: Event, mark: Option<nat>)
    requires MarkOk(log, mark)
    ensures MarkOk(log + [event], mark)
  {
    if mark.Some? { assert (log + [event])[..mark.value] == log[..mark.value]; }
  }

  /** What an event adds to the log, and what it leaves. */
  lemma {:induction false} LogGrows(log: seq<Event>, event: Event)
    requires CommitsOfLatest(log) && (event.CommittedBy? ==> LatestOpener(log) == Some(event.c))
    ensures CommitsOfLatest(log + [event])
    ensures LatestOpener(log + [event]) ==
            match event case OpenedBy(c) => Some(c) case CommittedBy(_, _) => LatestOpener(log) case Dropped => None
    ensures Replay(log + [event]) ==
            match event
            case OpenedBy(_) => Replay(log).(epoch := Replay(log).epoch + 1)
            case CommittedBy(_, tx) => CommitTo(Replay(log), tx)
            case Dropped => EMPTY
  {
    var more := log + [event];
    assert more[..|log|] == log;
    forall k | 0 <= k < |more| && more[k].CommittedBy? ensures LatestOpener(more[..k]) == Some(more[k].c) {
      assert more[..k] == log[..k];
      assert log[..|log|] == log;
    }
  }

  lemma {:induction false} MarksGrow(s: State, e: State, event: Event)
    requires MarksOk(s) && OldMarks(s, e) && e.log == s.log + [event]
    ensures MarksOk(e)
  {
    forall i <- e.phases ensures MarkOk(e.log, MarkOf(e.phases[i])) {
      if i in s.phases { MarkStays(s.log, event, MarkOf(s.phases[i])); }
    }
    forall r <- e.deletions ensures MarkOk(e.log, e.deletions[r]) {
      if r in s.deletions { MarkStays(s.log, event, s.deletions[r]); }
      else if e.deletions[r].Some? {
        var i :| i in s.phases && MarkOf(s.phases[i]) == e.deletions[r];
        MarkStays(s.log, event, e.deletions[r]);
      }
    }
  }

  lemma {:induction false} ConnectKeepsInv(s: State, i: nat)
    requires Inv(s) && Enabled(s, Connect(i))
    ensures Inv(Next(s, Connect(i)))
  {
    var e := Connects(s, i);
    forall c <- e.conns ensures ConnOk(e, c) { if c != s.next { assert ConnOk(s, c); } }
  }

  lemma {:induction false} FoundNothingKeepsInv(s: State, c: nat)
    requires Inv(s) && Enabled(s, RunHead(c)) && s.store.value.1.epoch == 0 && !s.conns[c].head.value
    ensures Inv(HeadRan(s, c))
  {
    var e := HeadRan(s, c);
    assert s.log[..|s.log|] == s.log;
    forall d <- e.conns ensures ConnOk(e, d) { assert ConnOk(s, d); }
    forall i <- e.phases ensures MarkOk(e.log, MarkOf(e.phases[i])) { }
  }

  lemma {:induction false} OpenedKeepsInv(s: State, c: nat)
    requires Inv(s) && Enabled(s, RunHead(c)) && !(s.store.value.1.epoch == 0 && !s.conns[c].head.value)
    ensures Inv(HeadRan(s, c))
  {
    var e := HeadRan(s, c);
    LogGrows(s.log, OpenedBy(c));
    MarksGrow(s, e, OpenedBy(c));
    forall d <- e.conns ensures ConnOk(e, d) { assert ConnOk(s, d); }
  }

  lemma {:induction false} CommitKeepsInv(s: State, c: nat)
    requires Inv(s) && Enabled(s, RunCommit(c))
    ensures Inv(Next(s, RunCommit(c)))
  {
    var e := CommitRan(s, c);
    assert ConnOk(s, c);
    if e.log == s.log {
      SameDatabaseKeepsInv(s, e);
    } else {
      LogGrows(s.log, CommittedBy(c, s.conns[c].pending.value));
      MarksGrow(s, e, CommittedBy(c, s.conns[c].pending.value));
      forall d <- e.conns ensures ConnOk(e, d) { assert ConnOk(s, d); }
    }
  }

  lemma {:induction false} DeletionKeepsInv(s: State, r: nat)
    requires Inv(s) && Enabled(s, CompleteDelete(r))
    ensures Inv(Next(s, CompleteDelete(r)))
  {
    LogGrows(s.log, Dropped);
    MarksGrow(s, Next(s, CompleteDelete(r)), Dropped);
  }

  ghost predicate KnownDeletions(s: State) { forall r <- s.deletions :: r < s.next }

  /** Steps of an instance that changes its phase, and perhaps closes its connection. */
  predicate IsPhaseStep(step: Step) {
    step.Acquire? || step.OpenFails? || step.LearnLost? || step.Close? || step.Crash? || step.DeleteDone?
  }

  lemma {:induction false} EndedIsQuiet(s: State, i: nat)
    requires KnownDeletions(s)
    ensures SameDatabase(s, Ended(s, i))
  {
  }

  lemma {:induction false} EnteredIsQuiet(s: State, i: nat, p: Phase, holder: Option<nat>)
    requires KnownDeletions(s) && !p.NotFound?
    ensures SameDatabase(s, Enter(s.(holder := holder), i, p))
  {
  }

  lemma {:induction false} PhaseStep(s: State, step: Step)
    requires Enabled(s, step) && IsPhaseStep(step) && KnownDeletions(s)
    ensures SameDatabase(s, Next(s, step))
  {
    match step
    case Acquire(i, _, deletes) => EnteredIsQuiet(s, i, Locked(deletes), Some(i));
    case LearnLost(i) => EnteredIsQuiet(s, i, PhaseOf(s, i).(lost := true), s.holder);
    case DeleteDone(i) => EnteredIsQuiet(s, i, Idle, if s.holder == Some(i) then None else s.holder);
    case OpenFails(i) => EndedIsQuiet(s, i);
    case Close(i) => EndedIsQuiet(s, i);
    case Crash(i) => EndedIsQuiet(s, i);
  }

  /** Steps of a connection that change nothing in the database. */
  predicate IsConnStep(step: Step) {
    || step.BeginHead? || step.AbortHead? || step.BeginCommit? || step.AbortCommit? || step.VersionChange?
    || step.FinishClose?
  }

  lemma {:induction false} ConnStep(s: State, step: Step)
    requires Enabled(s, step) && IsConnStep(step) && KnownDeletions(s)
    ensures SameDatabase(s, Next(s, step))
  {
  }

  lemma {:induction false} DeletionStep(s: State, step: Step)
    requires Enabled(s, step) && (step.RequestDelete? || step.CancelDelete?) && KnownDeletions(s)
    ensures SameDatabase(s, Next(s, step))
  {
    if step.RequestDelete? && PhaseOf(s, step.i).NotFound? { assert HasMark(s, MarkOf(s.phases[step.i])); }
  }

  lemma {:induction false} QuietStepKeepsInv(s: State, step: Step)
    requires Inv(s) && Enabled(s, step)
    requires IsPhaseStep(step) || IsConnStep(step) || step.RequestDelete? || step.CancelDelete?
    ensures Inv(Next(s, step))
  {
    if IsPhaseStep(step) { PhaseStep(s, step); }
    else if IsConnStep(step) { ConnStep(s, step); }
    else { DeletionStep(s, step); }
    SameDatabaseKeepsInv(s, Next(s, step));
  }

  lemma {:induction false} HeadKeepsInv(s: State, c: nat)
    requires Inv(s) && Enabled(s, RunHead(c))
    ensures Inv(Next(s, RunHead(c)))
  {
    if s.store.value.1.epoch == 0 && !s.conns[c].head.value { FoundNothingKeepsInv(s, c); }
    else { OpenedKeepsInv(s, c); }
  }

  lemma {:induction false} StepKeepsInv(s: State, step: Step)
    requires Inv(s) && Enabled(s, step)
    ensures Inv(Next(s, step))
  {
    match step
    case Connect(i) => ConnectKeepsInv(s, i);
    case RunHead(c) => HeadKeepsInv(s, c);
    case RunCommit(c) => CommitKeepsInv(s, c);
    case CompleteDelete(r) => DeletionKeepsInv(s, r);
    case _ => QuietStepKeepsInv(s, step);
  }

  // ---------------------------------------------------------------------------------------------------------------
  // Runs
  // ---------------------------------------------------------------------------------------------------------------

  ghost predicate IsRun(s: State, steps: seq<Step>)
    decreases |steps|
  {
    steps == [] || (Enabled(s, steps[0]) && IsRun(Next(s, steps[0]), steps[1..]))
  }

  ghost function After(s: State, steps: seq<Step>): State
    requires IsRun(s, steps)
    decreases |steps|
  {
    if steps == [] then s else After(Next(s, steps[0]), steps[1..])
  }

  ghost predicate Reaches(s: State, e: State) { exists steps :: IsRun(s, steps) && After(s, steps) == e }

  ghost predicate Reachable(s: State) { Reaches(INITIAL, s) }

  lemma {:induction false} LogKeeps(s: State, step: Step)
    requires Enabled(s, step)
    ensures s.log <= Next(s, step).log
  {
  }

  /** Every run keeps the invariant, and only adds to the log. */
  lemma {:induction false} RunKeepsInv(s: State, steps: seq<Step>)
    requires Inv(s) && IsRun(s, steps)
    ensures Inv(After(s, steps)) && s.log <= After(s, steps).log
    decreases |steps|
  {
    if steps != [] {
      StepKeepsInv(s, steps[0]);
      LogKeeps(s, steps[0]);
      RunKeepsInv(Next(s, steps[0]), steps[1..]);
    }
  }

  lemma ReachableIsOk(s: State)
    requires Reachable(s)
    ensures Inv(s)
  {
    var steps :| IsRun(INITIAL, steps) && After(INITIAL, steps) == s;
    RunKeepsInv(INITIAL, steps);
  }

  lemma {:induction false} RunSnoc(s: State, steps: seq<Step>, step: Step)
    requires IsRun(s, steps) && Enabled(After(s, steps), step)
    ensures IsRun(s, steps + [step]) && After(s, steps + [step]) == Next(After(s, steps), step)
    decreases |steps|
  {
    if steps == [] {
      assert [step][1..] == [] && [] + [step] == [step];
    } else {
      assert (steps + [step])[1..] == steps[1..] + [step];
      RunSnoc(Next(s, steps[0]), steps[1..], step);
    }
  }

  lemma {:induction false} GoesOn(s: State, e: State, step: Step)
    requires Reaches(s, e) && Enabled(e, step)
    ensures Reaches(s, Next(e, step))
  {
    var steps :| IsRun(s, steps) && After(s, steps) == e;
    RunSnoc(s, steps, step);
  }
}
