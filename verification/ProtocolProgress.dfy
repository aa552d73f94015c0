/**
 * What a session can get done. Nothing else says that the protocol ever does anything: the other theorems would hold of
 * sessions that break at once and of a server that refuses everything.
 */
module ProtocolProgress {
  import opened Common
  import opened Snapshots
  import opened Session
  import opened Protocol
  import opened ProtocolInvariants
  import opened ProtocolSteps
  import opened ProtocolTheorems
  import opened ProtocolHeal

  /** Some run leads from `s` to `t`, and no frame of a dropped connection takes effect in it. */
  ghost predicate CanReach(s: State, t: State) {
    exists steps :: IsRun(s, steps) && IsTimelyRun(s, steps) && After(s, steps) == t
  }

  lemma {:induction false} ReachesItself(s: State)
    ensures CanReach(s, s)
  {
    assert IsRun(s, []) && IsTimelyRun(s, []) && After(s, []) == s;
  }

  lemma {:induction false} TimelySnoc(s: State, steps: seq<Step>, step: Step)
    requires IsRun(s, steps) && IsTimelyRun(s, steps) && Enabled(After(s, steps), step) && Timely(After(s, steps), step)
    ensures IsTimelyRun(s, steps + [step])
    decreases |steps|
  {
    var longer := steps + [step];
    if steps == [] {
      assert longer[1..] == [];
    } else {
      TimelySnoc(Next(s, steps[0]), steps[1..], step);
      assert longer[1..] == steps[1..] + [step];
    }
  }

  lemma {:induction false} ReachesOn(s: State, t: State, step: Step)
    requires CanReach(s, t) && Enabled(t, step) && Timely(t, step)
    ensures CanReach(s, Next(t, step))
  {
    var steps :| IsRun(s, steps) && IsTimelyRun(s, steps) && After(s, steps) == t;
    RunSnoc(s, steps, step);
    TimelySnoc(s, steps, step);
    assert After(s, steps + [step]) == Next(t, step);
  }

  // ---------------------------------------------------------------------------------------------------------------
  // A commit
  // ---------------------------------------------------------------------------------------------------------------

  /** Only session `c` differs, and what was sent goes on. */
  ghost predicate SameButFor(s: State, t: State, c: SessionId) {
    && c in s.clients && c in t.clients && t.clients == s.clients[c := t.clients[c]]
    && t.w.srv == s.w.srv && t.w.calls == s.w.calls && t.answers == s.answers && s.w.sent <= t.w.sent
  }

  /** The session has sent the parts `ids` of its commit, all of them after request `from`. */
  ghost predicate HasSent(s: State, c: SessionId, cl: Client, id: CommitId, ids: seq<RequestId>, from: nat) {
    && id in s.w.calls && |ids| <= |s.w.calls[id].parts| && c in s.clients
    && s.clients[c] == cl.(phase := if |ids| < |s.w.calls[id].parts| then Sending(id, ids) else AwaitAck(id, ids, None))
    && forall k :: 0 <= k < |ids| ==> from <= ids[k] < |s.w.sent| && s.w.sent[ids[k]] == PartFrame(id, s.w.calls[id], k)
  }

  lemma {:induction false} SendsOnePart(s: State, c: SessionId, cl: Client, id: CommitId, ids: seq<RequestId>,
                                        from: nat)
    requires HasSent(s, c, cl, id, ids, from) && |ids| < |s.w.calls[id].parts| && from <= |s.w.sent|
    ensures Enabled(s, SendPart(c)) && Timely(s, SendPart(c))
    ensures var t := Next(s, SendPart(c)); HasSent(t, c, cl, id, ids + [|s.w.sent|], from) && SameButFor(s, t, c)
  {
  }

  lemma {:induction false} SendsAllParts(o: State, s: State, c: SessionId, cl: Client, id: CommitId,
                                         ids: seq<RequestId>, from: nat) returns (t: State, all: seq<RequestId>)
    requires CanReach(o, s) && HasSent(s, c, cl, id, ids, from) && from <= |s.w.sent|
    ensures CanReach(o, t) && HasSent(t, c, cl, id, all, from) && SameButFor(s, t, c)
    ensures |all| == |t.w.calls[id].parts|
    decreases |s.w.calls[id].parts| - |ids|
  {
    if |ids| == |s.w.calls[id].parts| {
      t, all := s, ids;
    } else {
      SendsOnePart(s, c, cl, id, ids, from);
      var next := Next(s, SendPart(c));
      ReachesOn(o, s, SendPart(c));
      t, all := SendsAllParts(o, next, c, cl, id, ids + [|s.w.sent|], from);
    }
  }

  /** The server has collected the first `n` parts of the call. */
  ghost predicate HasCollected(srv: Server, id: CommitId, call: Call, n: nat) {
    && 0 in srv.assemblies && n <= |call.parts|
    && srv.assemblies[0] == Assembly(id, call.epoch, call.base, call.count, n, Flatten(call.parts[..n]))
  }

  /** Everything but the parts the server collects stays as it is. */
  ghost predicate SameButParts(s: State, t: State) {
    && t.clients == s.clients && t.answers == s.answers && t.w.sent == s.w.sent && t.w.calls == s.w.calls
    && t.w.srv == s.w.srv.(assemblies := t.w.srv.assemblies)
  }

  lemma {:induction false} FlattenPrefix<T>(parts: seq<seq<T>>, n: nat)
    requires n < |parts|
    ensures Flatten(parts[..n + 1]) == Flatten(parts[..n]) + parts[n]
    ensures n == 0 ==> Flatten(parts[..1]) == parts[0]
  {
    assert parts[..n + 1][..n] == parts[..n];
    assert n == 0 ==> Flatten(parts[..0]) + parts[0] == parts[0];
  }

  lemma {:induction false} CollectsOnePart(s: State, id: CommitId, rid: RequestId, n: nat)
    requires |s.w.srv.snaps| == |s.w.srv.log| + 1 && id in s.w.calls && n + 1 < |s.w.calls[id].parts|
    requires rid < |s.w.sent| && s.w.sent[rid] == PartFrame(id, s.w.calls[id], n)
    requires n > 0 ==> HasCollected(s.w.srv, id, s.w.calls[id], n)
    ensures Enabled(s, HandlePart(rid, 0))
    ensures var t := Next(s, HandlePart(rid, 0)); HasCollected(t.w.srv, id, s.w.calls[id], n + 1) && SameButParts(s, t)
  {
    FlattenPrefix(s.w.calls[id].parts, n);
  }

  /** No resume of the session was answered after request `from`: its parts from there on are timely. */
  ghost predicate IsFresh(srv: Server, c: SessionId, from: nat) { c in srv.floors ==> srv.floors[c] <= from }

  lemma {:induction false} CollectsParts(o: State, s: State, c: SessionId, cl: Client, id: CommitId,
                                         ids: seq<RequestId>, from: nat, n: nat) returns (t: State)
    requires CanReach(o, s) && HasSent(s, c, cl, id, ids, from) && |ids| == |s.w.calls[id].parts| && n < |ids|
    requires |s.w.srv.snaps| == |s.w.srv.log| + 1 && s.w.calls[id].client == c && IsFresh(s.w.srv, c, from)
    ensures CanReach(o, t) && SameButParts(s, t) && (n > 0 ==> HasCollected(t.w.srv, id, s.w.calls[id], n))
    decreases n
  {
    if n == 0 {
      t := s;
    } else {
      t := CollectsParts(o, s, c, cl, id, ids, from, n - 1);
      CollectsOnePart(t, id, ids[n - 1], n - 1);
      ReachesOn(o, t, HandlePart(ids[n - 1], 0));
      t := Next(t, HandlePart(ids[n - 1], 0));
    }
  }

  /** The last part completes the commit, and the server applies it. */
  lemma {:induction false} AppliesCommit(s: State, id: CommitId, rid: RequestId, n: nat)
    requires |s.w.srv.snaps| == |s.w.srv.log| + 1 && id in s.w.calls && n + 1 == |s.w.calls[id].parts|
    requires rid < |s.w.sent| && s.w.sent[rid] == PartFrame(id, s.w.calls[id], n)
    requires n > 0 ==> HasCollected(s.w.srv, id, s.w.calls[id], n)
    requires Current(s.w.srv, s.w.calls[id].epoch) && s.w.calls[id].base == Version(s)
    ensures Enabled(s, HandlePart(rid, 0))
    ensures var t := Next(s, HandlePart(rid, 0));
            && t.w.srv.log == s.w.srv.log + [Applied(id, s.w.calls[id].epoch)] && t.clients == s.clients
            && Reply(rid, Ack(id, Version(s) + 1)) in t.answers
  {
    FlattenPrefix(s.w.calls[id].parts, n);
  }

  /** The commit is done, on top of version `base`. */
  ghost predicate IsDone(s: State, c: SessionId, id: CommitId, base: nat) {
    && Usable(s, c) && id in s.clients[c].done && s.clients[c].version == base + 1 == Version(s)
    && s.w.srv.log[base] == Applied(id, s.clients[c].epoch)
  }

  lemma {:induction false} AckIsTaken(s: State, c: SessionId, cl: Client, id: CommitId, ids: seq<RequestId>)
    requires ids != [] && c in s.clients && s.clients[c] == cl.(phase := AwaitAck(id, ids, None)) && cl.broken.None?
    requires Reply(ids[|ids| - 1], Ack(id, Version(s))) in s.answers
    requires s.w.srv.log != [] && s.w.srv.log[Version(s) - 1] == Applied(id, cl.epoch)
    ensures var step := Receive(c, ids[|ids| - 1], Ack(id, Version(s)), false, false);
            Enabled(s, step) && IsDone(Next(s, step), c, id, Version(s) - 1)
  {
    var next := Next(s, Receive(c, ids[|ids| - 1], Ack(id, Version(s)), false, false));
    assert next.clients[c].done == cl.done + [id];
  }

  lemma {:induction false} CollectedCommitIsDone(o: State, s: State, c: SessionId, cl: Client, id: CommitId,
                                                 ids: seq<RequestId>, from: nat) returns (t: State)
    requires CanReach(o, s) && HasSent(s, c, cl, id, ids, from) && |ids| == |s.w.calls[id].parts| > 0
    requires |ids| > 1 ==> HasCollected(s.w.srv, id, s.w.calls[id], |ids| - 1)
    requires |s.w.srv.snaps| == |s.w.srv.log| + 1 && s.w.calls[id].client == c && IsFresh(s.w.srv, c, from)
    requires Current(s.w.srv, s.w.calls[id].epoch) && s.w.calls[id].base == Version(s)
    requires cl.broken.None? && cl.epoch == s.w.calls[id].epoch
    ensures CanReach(o, t) && IsDone(t, c, id, Version(s))
  {
    var n := |ids| - 1;
    AppliesCommit(s, id, ids[n], n);
    ReachesOn(o, s, HandlePart(ids[n], 0));
    t := Next(s, HandlePart(ids[n], 0));
    AckIsTaken(t, c, cl, id, ids);
    var taken := Receive(c, ids[n], Ack(id, Version(t)), false, false);
    ReachesOn(o, t, taken);
    t := Next(t, taken);
  }

  lemma {:induction false} SentCommitIsDone(o: State, s: State, c: SessionId, cl: Client, id: CommitId, from: nat)
      returns (t: State)
    requires CanReach(o, s) && HasSent(s, c, cl, id, [], from) && from <= |s.w.sent| && s.w.calls[id].parts != []
    requires |s.w.srv.snaps| == |s.w.srv.log| + 1 && s.w.calls[id].client == c && IsFresh(s.w.srv, c, from)
    requires Current(s.w.srv, s.w.calls[id].epoch) && s.w.calls[id].base == Version(s)
    requires cl.broken.None? && cl.epoch == s.w.calls[id].epoch
    ensures CanReach(o, t) && IsDone(t, c, id, Version(s))
  {
    var ids;
    t, ids := SendsAllParts(o, s, c, cl, id, [], from);
    t := CollectsParts(o, t, c, cl, id, ids, from, |ids| - 1);
    t := CollectedCommitIsDone(o, t, c, cl, id, ids, from);
  }

  ghost predicate FloorsOk(w: World) { forall c <- w.srv.floors :: w.srv.floors[c] < |w.sent| }

  lemma {:induction false} StepKeepsFloors(s: State, step: Step)
    requires Enabled(s, step) && FloorsOk(s.w)
    ensures FloorsOk(Next(s, step).w)
  {
    if step.HandlePart? { PartKeepsFloors(s, step.rid, step.slot); }
  }

  lemma {:induction false} PartKeepsFloors(s: State, rid: RequestId, slot: nat)
    requires rid < |s.w.sent| && s.w.sent[rid].Part? && |s.w.srv.snaps| == |s.w.srv.log| + 1
    ensures var t := DoPart(s, rid, slot, s.w.sent[rid]); t.w.srv.floors == s.w.srv.floors && t.w.sent == s.w.sent
  {
  }

  lemma {:induction false} RunKeepsFloors(s: State, steps: seq<Step>)
    requires IsRun(s, steps) && FloorsOk(s.w)
    ensures FloorsOk(After(s, steps).w)
    decreases |steps|
  {
    if steps != [] {
      StepKeepsFloors(s, steps[0]);
      RunKeepsFloors(Next(s, steps[0]), steps[1..]);
    }
  }

  lemma {:induction false} ReachableFloors(s: State)
    requires Reachable(s)
    ensures FloorsOk(s.w)
  {
    var pageSize: nat, steps :| IsRun(Init(pageSize), steps) && After(Init(pageSize), steps) == s;
    RunKeepsFloors(Init(pageSize), steps);
  }

  lemma {:induction false} VersionsOk(s: State)
    requires Reachable(s)
    ensures |s.w.srv.snaps| == |s.w.srv.log| + 1 && FloorsOk(s.w)
  {
    ReachableIsOk(s);
    ReachableFloors(s);
  }

  /** The session holds the lease, and the server is at its version. */
  predicate IsUpToDate(s: State, c: SessionId) {
    c in s.clients && Current(s.w.srv, s.clients[c].epoch) && s.clients[c].version == Version(s)
  }

  lemma {:induction false} GrantsResume(o: State, s: State, c: SessionId) returns (t: State)
    requires CanReach(o, s) && c in s.clients && s.clients[c].phase.Resuming? && s.clients[c].phase.resumeId.None?
    requires Current(s.w.srv, s.clients[c].epoch) && FloorsOk(s.w)
    ensures CanReach(o, t) && FloorsOk(t.w) && t.w.calls == s.w.calls && |t.w.sent| > |s.w.sent|
    ensures t.w.srv == s.w.srv.(floors := t.w.srv.floors)
    ensures var cl, rid := s.clients[c], |s.w.sent|;
            && t.clients == s.clients[c := cl.(phase := Resuming(cl.phase.why, Some(rid)))]
            && t.answers == s.answers + {Reply(rid, CurrentState(s.w.srv))}
  {
    var rid := |s.w.sent|;
    ReachesOn(o, s, SendResume(c));
    t := Next(s, SendResume(c));
    ReachesOn(o, t, HandleResume(rid));
    t := Next(t, HandleResume(rid));
  }

  /** The lease is resumed: the session goes on as it does with the server's current state. */
  lemma {:induction false} ResumesLease(o: State, s: State, c: SessionId) returns (t: State)
    requires CanReach(o, s) && c in s.clients && s.clients[c].phase.Resuming? && s.clients[c].phase.resumeId.None?
    requires Current(s.w.srv, s.clients[c].epoch) && FloorsOk(s.w)
    ensures CanReach(o, t) && FloorsOk(t.w) && c in t.clients && t.w.calls == s.w.calls && |t.w.sent| > |s.w.sent|
    ensures t.w.srv == s.w.srv.(floors := t.w.srv.floors)
    ensures t.answers >= s.answers
    ensures var cl, a := s.clients[c], CurrentState(s.w.srv);
            t.clients[c] == OnResumed(cl, cl.phase.why, a.version, a.count, a.lastId, false, false)
  {
    var rid := |s.w.sent|;
    t := GrantsResume(o, s, c);
    var taken := Receive(c, rid, CurrentState(s.w.srv), false, false);
    ReachesOn(o, t, taken);
    t := Next(t, taken);
  }

  lemma {:induction false} CommitGoesThrough(s: State, c: SessionId, id: CommitId, parts: seq<seq<BlockWrite>>,
                                             connected: bool) returns (t: State)
    requires Reachable(s) && Enabled(s, BeginCommit(c, id, parts, connected)) && IsUpToDate(s, c)
    ensures CanReach(Next(s, BeginCommit(c, id, parts, connected)), t) && IsDone(t, c, id, Version(s))
  {
    var step := BeginCommit(c, id, parts, connected);
    var o := Next(s, step);
    ReachableStep(s, step);
    VersionsOk(o);
    SessionFacts(s, c);
    ReachesItself(o);
    t := o;
    if !connected { t := ResumesLease(o, o, c); }
    t := SentCommitIsDone(o, t, c, t.clients[c], id, |t.w.sent|);
  }

  /** Nothing is applied under a lease that is not current. */
  lemma {:induction false} DeadLeaseNeverCommits(s: State, steps: seq<Step>, epoch: nat, v: nat)
    requires Reachable(s) && IsRun(s, steps) && NotCurrent(s.w.srv, epoch)
    requires Version(s) <= v < Version(After(s, steps)) && After(s, steps).w.srv.log[v].Applied?
    ensures After(s, steps).w.srv.log[v].epoch != epoch
    decreases |steps|
  {
    if steps != [] {
      var t := Next(s, steps[0]);
      ReachableStep(s, steps[0]);
      ReachableRun(t, steps[1..]);
      StepGrowsReachably(s, steps[0]);
      if v < Version(t) { AppliesUnderCurrent(s, steps[0], v); }
      else { DeadLeaseNeverCommits(t, steps[1..], epoch, v); }
    }
  }

  lemma {:induction false} AppliesUnderCurrent(s: State, step: Step, v: nat)
    requires Enabled(s, step) && Version(s) <= v < Version(Next(s, step)) && Next(s, step).w.srv.log[v].Applied?
    ensures Current(s.w.srv, Next(s, step).w.srv.log[v].epoch)
  {
    if step.HandlePart? { PartAppliesUnderCurrent(s, step.rid, step.slot); }
    else if !step.DeleteDatabase? { LogStays(s, step); }
  }

  lemma {:induction false} PartAppliesUnderCurrent(s: State, rid: RequestId, slot: nat)
    requires rid < |s.w.sent| && s.w.sent[rid].Part? && |s.w.srv.snaps| == |s.w.srv.log| + 1
    ensures var t := DoPart(s, rid, slot, s.w.sent[rid]);
            t.w.srv.log == s.w.srv.log ||
            exists id, epoch :: t.w.srv.log == s.w.srv.log + [Applied(id, epoch)] && Current(s.w.srv, epoch)
  {
  }

  ghost predicate Succeeds(s: State, steps: seq<Step>, c: SessionId, id: CommitId) {
    IsRun(s, steps) && c in After(s, steps).clients && id in After(s, steps).clients[c].done
  }

  lemma {:induction false} SuccessNeedsLease(s: State, step: Step, rest: seq<Step>)
    requires Reachable(s) && Enabled(s, step) && step.BeginCommit? && Succeeds(Next(s, step), rest, step.c, step.id)
    ensures IsUpToDate(s, step.c)
  {
    var t, cl := Next(s, step), s.clients[step.c];
    AcknowledgedCommit(s, step, rest);
    BegunCallIsRecorded(s, step);
    ReachableStep(s, step);
    ReachableRun(t, rest);
    SessionFacts(s, step.c);
    if cl.version < Version(s) { VersionFacts(s, cl.version); }
    else if NotCurrent(s.w.srv, cl.epoch) { DeadLeaseNeverCommits(t, rest, cl.epoch, cl.version); }
  }

  /**
   * A commit can succeed exactly if its session holds the lease and the server is at its version, whether or not it has
   * to resume first. So none is lost to anything but a lease that is gone or a version that is not its own.
   */
  lemma {:induction false} CommitCanSucceed(s: State, step: Step)
    requires Reachable(s) && Enabled(s, step) && step.BeginCommit?
    ensures (exists rest :: Succeeds(Next(s, step), rest, step.c, step.id)) <==> IsUpToDate(s, step.c)
  {
    var o := Next(s, step);
    if rest :| Succeeds(o, rest, step.c, step.id) {
      SuccessNeedsLease(s, step, rest);
    }
    if IsUpToDate(s, step.c) {
      var t := CommitGoesThrough(s, step.c, step.id, step.parts, step.connected);
      var rest :| IsRun(o, rest) && IsTimelyRun(o, rest) && After(o, rest) == t;
      assert Succeeds(o, rest, step.c, step.id);
    }
  }

  // ---------------------------------------------------------------------------------------------------------------
  // Loading blocks
  // ---------------------------------------------------------------------------------------------------------------

  lemma {:induction false} AnswersFetch(o: State, s: State, c: SessionId) returns (t: State)
    requires CanReach(o, s) && c in s.clients && s.clients[c].phase.Loading? && s.clients[c].phase.loadId.None?
    requires |s.w.srv.snaps| == |s.w.srv.log| + 1 && s.clients[c].version == Version(s)
    ensures CanReach(o, t) && t.w.srv == s.w.srv
    ensures var cl, rid := s.clients[c], |s.w.sent|;
            var p := cl.phase;
            && t.clients == s.clients[c := cl.(phase := Loading(p.purpose, p.first, p.count, Some(rid)))]
            && Reply(rid, Pages(p.first, Slice(s.w.srv.snaps[cl.version], p.first, p.count, s.w.srv.pageSize)))
               in t.answers
  {
    ReachesOn(o, s, SendFetch(c));
    t := Next(s, SendFetch(c));
    ReachesOn(o, t, HandleFetch(|s.w.sent|));
    t := Next(t, HandleFetch(|s.w.sent|));
  }

  /** The blocks a session waits for arrive. */
  lemma {:induction false} LoadsBlocks(o: State, s: State, c: SessionId) returns (t: State)
    requires CanReach(o, s) && c in s.clients && s.clients[c].phase.Loading? && s.clients[c].phase.loadId.None?
    requires |s.w.srv.snaps| == |s.w.srv.log| + 1 && s.clients[c].version == Version(s)
    ensures CanReach(o, t) && c in t.clients && t.w.srv == s.w.srv
    ensures var cl := s.clients[c];
            var first, count := cl.phase.first, cl.phase.count;
            var blocks := Slice(s.w.srv.snaps[cl.version], first, count, s.w.srv.pageSize);
            t.clients[c] == OnLoaded(cl, cl.phase.purpose, first, blocks)
  {
    var rid, cl := |s.w.sent|, s.clients[c];
    var a := Pages(cl.phase.first, Slice(s.w.srv.snaps[cl.version], cl.phase.first, cl.phase.count, s.w.srv.pageSize));
    t := AnswersFetch(o, s, c);
    ReachesOn(o, t, Receive(c, rid, a, false, false));
    t := Next(t, Receive(c, rid, a, false, false));
  }

  /** All blocks of these are in memory, and what was there before is still there. */
  ghost predicate HoldsRun(m: Mem, before: Mem, first: nat, count: nat) {
    && (forall i :: first <= i < first + count ==> i in m.held)
    && (forall i <- before.held :: i in m.held && m.held[i] == before.held[i])
    && m == before.(held := m.held)
  }

  /** A session that holds the lease at the server's version can read, also if it has to resume first. */
  lemma {:induction false} ReadGoesThrough(s: State, step: Step) returns (t: State)
    requires Reachable(s) && Enabled(s, step) && step.StartRead? && IsUpToDate(s, step.c)
    ensures CanReach(Next(s, step), t) && Usable(t, step.c)
    ensures HoldsRun(t.clients[step.c].mem, s.clients[step.c].mem, step.first, step.count)
  {
    var o := Next(s, step);
    VersionsOk(s);
    ReachesItself(o);
    t := o;
    if !step.connected { t := ResumesLease(o, o, step.c); }
    t := LoadsBlocks(o, t, step.c);
  }

  /** Everyone can open the database at any time: the session then has the lease, and with preloading all blocks. */
  lemma {:induction false} OpenGoesThrough(s: State, step: Step) returns (t: State)
    requires Reachable(s) && Enabled(s, step) && step.StartOpen?
    ensures CanReach(Next(s, step), t) && Usable(t, step.c) && IsUpToDate(t, step.c) && Version(t) == Version(s)
    ensures step.preload ==> forall i :: 0 <= i < t.clients[step.c].mem.count ==> i in t.clients[step.c].mem.held
    ensures Version(s) < |s.w.srv.snaps| && t.clients[step.c].mem.count == |s.w.srv.snaps[Version(s)]|
  {
    var o, rid, c := Next(s, step), |s.w.sent|, step.c;
    VersionsOk(s);
    ReachesItself(o);
    ReachesOn(o, o, HandleOpen(rid));
    t := Next(o, HandleOpen(rid));
    var taken := Receive(c, rid, CurrentState(t.w.srv), false, false);
    ReachesOn(o, t, taken);
    t := Next(t, taken);
    if t.clients[c].phase.Loading? { t := LoadsBlocks(o, t, c); }
  }

  // ---------------------------------------------------------------------------------------------------------------
  // A heal
  // ---------------------------------------------------------------------------------------------------------------

  ghost predicate IsHealed(s: State, steps: seq<Step>, c: SessionId) {
    IsRun(s, steps) && IsTimelyRun(s, steps) && Usable(After(s, steps), c)
  }

  lemma {:induction false} HealGoesThrough(s: State, c: SessionId) returns (t: State)
    requires TimelyReachable(s) && Enabled(s, StartHeal(c)) && Current(s.w.srv, s.clients[c].epoch)
    ensures CanReach(Next(s, StartHeal(c)), t) && Usable(t, c) && t.clients[c].version == Version(t) == Version(s)
  {
    TimelyFacts(s, c);
    VersionsOk(s);
    ServerIsInStep(s, c);
    t := FittingHealGoesThrough(s, c);
  }

  lemma {:induction false} FittingHealGoesThrough(s: State, c: SessionId) returns (t: State)
    requires Enabled(s, StartHeal(c)) && Current(s.w.srv, s.clients[c].epoch) && FloorsOk(s.w)
    requires |s.w.srv.snaps| == |s.w.srv.log| + 1
    requires var cl := s.clients[c]; cl.version == Version(s) || PendingApplied(cl, Version(s), s.w.srv.lastId)
    ensures CanReach(Next(s, StartHeal(c)), t) && Usable(t, c) && t.clients[c].version == Version(t) == Version(s)
  {
    var o := Next(s, StartHeal(c));
    ReachesItself(o);
    t := ResumesLease(o, o, c);
    if t.clients[c].phase.Loading? { t := LoadsBlocks(o, t, c); }
  }

  /** The session lost its lease, is broken, and waits for nothing but a refusal. */
  ghost predicate IsHopeless(s: State, c: SessionId) {
    && c in s.clients && s.clients[c].broken.Some? && s.clients[c].epoch > 0
    && NotCurrent(s.w.srv, s.clients[c].epoch)
    && match s.clients[c].phase
       case Idle => true
       case Gone => true
       case Resuming(why, r) =>
         && why.Healing?
         && (r.Some? ==> r.value < |s.w.sent| && s.w.sent[r.value].Resume? &&
                         s.w.sent[r.value].epoch == s.clients[c].epoch && NoGrant(s.answers, r.value))
       case _ => false
  }

  ghost predicate NoGrant(answers: set<Reply>, rid: RequestId) {
    forall reply <- answers :: reply.rid == rid ==> !reply.answer.Opened?
  }

  lemma {:induction false} OwnStepIsHopeless(s: State, step: Step, c: SessionId)
    requires Enabled(s, step) && IsHopeless(s, c) && IsSessionStep(step) && step.c == c
    requires forall reply <- s.answers :: reply.rid < |s.w.sent|
    ensures IsHopeless(Next(s, step), c)
  {
  }

  lemma {:induction false} OtherStepIsHopeless(s: State, step: Step, c: SessionId)
    requires Enabled(s, step) && IsHopeless(s, c) && !(IsSessionStep(step) && step.c == c)
    requires Grows(s.w, Next(s, step).w)
    ensures IsHopeless(Next(s, step), c)
  {
    OtherSessionStays(s, step, c);
    var phase := s.clients[c].phase;
    if phase.Resuming? && phase.resumeId.Some? { GrantsNothing(s, step, phase.resumeId.value); }
  }

  lemma {:induction false} GrantsNothing(s: State, step: Step, rid: RequestId)
    requires Enabled(s, step) && rid < |s.w.sent| && s.w.sent[rid].Resume? && NotCurrent(s.w.srv, s.w.sent[rid].epoch)
    requires NoGrant(s.answers, rid)
    ensures NoGrant(Next(s, step).answers, rid)
  {
    if step.HandlePart? { PartGrantsNothing(s, step.rid, step.slot, rid); }
  }

  lemma {:induction false} PartGrantsNothing(s: State, part: RequestId, slot: nat, rid: RequestId)
    requires part < |s.w.sent| && s.w.sent[part].Part? && |s.w.srv.snaps| == |s.w.srv.log| + 1
    requires NoGrant(s.answers, rid)
    ensures NoGrant(DoPart(s, part, slot, s.w.sent[part]).answers, rid)
  {
  }

  lemma {:induction false} HopelessStays(s: State, steps: seq<Step>, c: SessionId)
    requires Reachable(s) && IsRun(s, steps) && IsHopeless(s, c)
    ensures IsHopeless(After(s, steps), c)
    decreases |steps|
  {
    if steps != [] {
      var step := steps[0];
      ReachableStep(s, step);
      if IsSessionStep(step) && step.c == c {
        ReachableIsOk(s);
        OwnStepIsHopeless(s, step, c);
      } else {
        StepGrowsReachably(s, step);
        OtherStepIsHopeless(s, step, c);
      }
      HopelessStays(Next(s, step), steps[1..], c);
    }
  }

  /**
   * A heal can succeed exactly if the session still holds the lease, whatever has become of its pending commit.
   * Otherwise no number of attempts brings the session back.
   */
  lemma {:induction false} HealCanSucceed(s: State, c: SessionId)
    requires TimelyReachable(s) && Enabled(s, StartHeal(c))
    ensures (exists rest :: IsHealed(Next(s, StartHeal(c)), rest, c)) <==> Current(s.w.srv, s.clients[c].epoch)
  {
    var o := Next(s, StartHeal(c));
    TimelyFacts(s, c);
    if rest :| IsHealed(o, rest, c) {
      if NotCurrent(s.w.srv, s.clients[c].epoch) {
        ReachableStep(s, StartHeal(c));
        HopelessStays(o, rest, c);
      }
    }
    if Current(s.w.srv, s.clients[c].epoch) {
      var t := HealGoesThrough(s, c);
      var rest :| IsRun(o, rest) && IsTimelyRun(o, rest) && After(o, rest) == t;
      assert IsHealed(o, rest, c);
    }
  }
}
