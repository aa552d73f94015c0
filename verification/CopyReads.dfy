/** A block from the local copy is the one the protocol's step takes from the server's history. */
module CopyReads {
  import Session
  import Protocol
  import CopySession
  import CopyCoherence

  /** The two models speak of the same server and of the same session. */
  ghost predicate SameHistory(o: CopySession.Owner, e: CopySession.State, p: Protocol.State, c: Protocol.SessionId) {
    && c in p.clients && e.session.Some? && p.clients[c].version == e.session.value.version
    && p.w.srv.snaps == e.history.snaps && p.w.srv.pageSize == o.pageSize
  }

  lemma {:induction false} CopyServesTheStep(o: CopySession.Owner, s: CopySession.State, steps: seq<CopySession.Step>,
                                             p: Protocol.State, c: Protocol.SessionId, i: nat)
    requires CopyCoherence.Initial(o, s) && CopyCoherence.IsRun(o, s, steps) && CopyCoherence.NeverStale(o, s, steps)
    requires var e := CopyCoherence.After(o, s, steps);
             && SameHistory(o, e, p, c) && CopyCoherence.Readable(e.session.value) && e.disk.File?
             && i in e.disk.copy.blocks
    requires Protocol.Enabled(p, Protocol.FromCopy(c, i)) && i < |p.w.srv.snaps[p.clients[c].version]|
    ensures Protocol.Next(p, Protocol.FromCopy(c, i)).clients[c].mem ==
            Session.Keep(p.clients[c].mem, i, [CopyCoherence.After(o, s, steps).disk.copy.blocks[i]])
  {
    CopyCoherence.CopyServesVersion(o, s, steps, i);
  }
}
