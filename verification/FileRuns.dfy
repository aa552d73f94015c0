/**
 * Whole runs of the block cache against a flat machine: a file, the copy of it that was committed last, and what is in
 * store for the loads the cache needs, which the machine itself does without.
 */
module FileRuns {
  import opened Common
  import opened Snapshots
  import opened FlatFile
  import opened Pages
  import opened Faults

  datatype Flat = Flat(file: seq<Byte>, saved: seq<Byte>, faults: seq<bool>)

  /** `Commit`: whether the commit was accepted. One that was not leaves the changes in memory. */
  datatype Op =
    | Read(offset: nat, count: nat)
    | Write(offset: nat, data: seq<Byte>)
    | Truncate(size: nat)
    | Commit(accepted: bool)

  datatype Result = Got(bytes: seq<Byte>, short: bool) | Done | Error

  /** A write that starts past the end of the file, or a truncation that makes it longer. */
  predicate LeavesGap(op: Op, length: nat) {
    (op.Write? && op.data != [] && length < op.offset) || (op.Truncate? && length < op.size)
  }

  /** The data was written, or after a failure the part of it up to some page boundary. */
  ghost predicate Writes(f: seq<Byte>, g: seq<Byte>, pageSize: nat, offset: nat, data: seq<Byte>, ok: bool, n: nat)
    requires pageSize > 0
  {
    && n <= |data| && (ok <==> n == |data|) && (ok || n == 0 || AtBoundary(offset + n, pageSize))
    && g == FlatWritten(f, pageSize, offset, data[..n])
  }

  /** What an operation does to the flat machine and what it returns. It fails exactly if a load it needed fails. */
  ghost predicate FlatStep(f: Flat, op: Op, result: Result, g: Flat, pageSize: nat)
    requires pageSize > 0
  {
    match op
    case Read(offset, count) =>
      && g == f.(faults := g.faults) && Suffers(f.faults, g.faults, !result.Error?)
      && (result.Error? ||
          result == Got(FlatRead(f.file, offset, count), count > 0 && |f.file| < offset + count))
    case Write(offset, data) =>
      && g == f.(file := g.file, faults := g.faults) && Suffers(f.faults, g.faults, !result.Error?) && !result.Got?
      && exists n :: Writes(f.file, g.file, pageSize, offset, data, result.Done?, n)
    case Truncate(size) =>
      var length := Base(PagesFor(size, pageSize), pageSize);
      result.Done? && length <= |f.file| && g == f.(file := f.file[..length])
    case Commit(accepted) => if accepted then result.Done? && g == f.(saved := f.file) else result.Error? && g == f
  }

  /** The file as it is stored. */
  ghost function StoredFile(stored: Snapshot, pageSize: nat): seq<Byte>
    requires pageSize > 0 && BlocksFit(stored, pageSize)
  {
    FileOf(Image(pageSize, |stored|, map[], {}, false), stored)
  }

  ghost function FlatOf(m: Image, stored: Snapshot, faults: seq<bool>): Flat
    requires Sound(m, stored)
  {
    Flat(FileOf(m, stored), StoredFile(stored, m.pageSize), faults)
  }

  // ---------------------------------------------------------------------------------------------------------------
  // One operation
  // ---------------------------------------------------------------------------------------------------------------

  lemma {:induction false} WholePages(m: Image, stored: Snapshot, offset: nat, data: seq<Byte>, n: nat)
    requires Sound(m, stored) && n <= |data| && (data != [] ==> offset <= |FileOf(m, stored)|)
    ensures Overwritten(FileOf(m, stored), m, stored, offset, data[..n]) ==
            FlatWritten(FileOf(m, stored), m.pageSize, offset, data[..n])
  {
    if n > 0 { FlatExactlyWithoutGap(FileOf(m, stored), m, stored, offset, data[..n]); }
  }

  lemma {:induction false} CutIsPrefix(m: Image, stored: Snapshot, size: nat)
    requires Sound(m, stored) && size <= Base(m.pageCount, m.pageSize)
    ensures var count := PagesFor(size, m.pageSize);
            && count <= m.pageCount && Base(count, m.pageSize) <= Base(m.pageCount, m.pageSize)
            && Sound(Cut(m, count), stored)
            && FileOf(Cut(m, count), stored) == FileOf(m, stored)[..Base(count, m.pageSize)]
  {
    var count := PagesFor(size, m.pageSize);
    PagesForFits(size, m.pageSize);
    if m.pageCount < count { BaseOrdered(m.pageCount, count - 1, m.pageSize); }
    BaseOrdered(count, m.pageCount, m.pageSize);
    CutFile(m, stored, count);
  }

  lemma {:induction false} BaseOrdered(i: nat, j: nat, pageSize: nat)
    requires i <= j
    ensures Base(i, pageSize) <= Base(j, pageSize)
  {
    if i < j { BaseGrows(i, j, pageSize); }
  }

  /** What was committed is the file. */
  lemma {:induction false} CommittedIsTheFile(m: Image, stored: Snapshot)
    requires Sound(m, stored) && (m.allHeld ==> Complete(m))
    ensures BlocksFit(Committed(m, stored), m.pageSize) && NoHoles(m, stored)
    ensures StoredFile(Committed(m, stored), m.pageSize) == FileOf(m, stored)
  {
    var next := Committed(m, stored);
    CommitIsSound(m, stored);
    CommitStoresFile(m, stored);
    SamePagesSameFile(Image(m.pageSize, |next|, map[], {}, false), next, m, stored);
  }

  /** A cache as every run finds it: preloaded without a limit, it has every page in memory. */
  ghost predicate Ready(pages: Pages, source: Source)
    reads pages, source
  {
    && pages.Valid(source.stored) && pages.Bounded()
    && (pages.AllHeld() ==> Complete(pages.Img()))
  }

  ghost function FlatNow(pages: Pages, source: Source): Flat
    requires pages.Valid(source.stored)
    reads pages, source
  {
    FlatOf(pages.Img(), source.stored, source.faults)
  }

  method DoRead(pages: Pages, source: Source, offset: nat, count: nat) returns (result: Result)
    requires Ready(pages, source)
    modifies pages, source
    ensures Ready(pages, source)
    ensures FlatStep(old(FlatNow(pages, source)), Read(offset, count), result, FlatNow(pages, source), pages.pageSize)
    ensures pages.AllHeld() ==> !result.Error?
  {
    ghost var m, stored := pages.Img(), source.stored;
    var buf := new Byte[count];
    var r := pages.Read(source, buf, offset);
    SamePagesSameFile(m, stored, pages.Img(), stored);
    result := if r.Failed? then Error else Got(buf[..], r.Short?);
  }

  method DoWrite(pages: Pages, source: Source, offset: nat, data: seq<Byte>) returns (result: Result)
    requires Ready(pages, source) && !LeavesGap(Write(offset, data), |FlatNow(pages, source).file|)
    modifies pages, source
    ensures Ready(pages, source)
    ensures FlatStep(old(FlatNow(pages, source)), Write(offset, data), result, FlatNow(pages, source), pages.pageSize)
    ensures pages.AllHeld() ==> !result.Error?
  {
    ghost var m, stored := pages.Img(), source.stored;
    var ok, done := pages.Write(source, data, offset);
    WholePages(m, stored, offset, data, done);
    result := if ok then Done else Error;
    assert Writes(FileOf(m, stored), FileOf(pages.Img(), stored), pages.pageSize, offset, data, result.Done?, done);
  }

  method DoTruncate(pages: Pages, source: Source, size: nat) returns (result: Result)
    requires Ready(pages, source) && !LeavesGap(Truncate(size), |FlatNow(pages, source).file|)
    modifies pages, source
    ensures Ready(pages, source)
    ensures FlatStep(old(FlatNow(pages, source)), Truncate(size), result, FlatNow(pages, source), pages.pageSize)
  {
    ghost var m, stored := pages.Img(), source.stored;
    CutIsPrefix(m, stored, size);
    pages.Truncate(source.stored, size);
    result := Done;
  }

  method DoCommit(pages: Pages, source: Source, accepted: bool) returns (result: Result)
    requires Ready(pages, source)
    modifies pages, source
    ensures Ready(pages, source)
    ensures FlatStep(old(FlatNow(pages, source)), Commit(accepted), result, FlatNow(pages, source), pages.pageSize)
  {
    if !accepted { return Error; }
    ghost var m := pages.Img();
    CommittedIsTheFile(m, source.stored);
    var next := Apply(source.stored, pages.pageCount,
                      map i | i in pages.dirty && i in pages.cells :: pages.cells[i].data, pages.pageSize);
    assert next == Committed(m, source.stored);
    var _ := pages.CommitDone(source.stored);
    source.stored := next;
    result := Done;
  }

  method Do(pages: Pages, source: Source, op: Op) returns (result: Result)
    requires Ready(pages, source) && !LeavesGap(op, |FlatNow(pages, source).file|)
    modifies pages, source
    ensures Ready(pages, source)
    ensures FlatStep(old(FlatNow(pages, source)), op, result, FlatNow(pages, source), pages.pageSize)
    ensures pages.AllHeld() && !op.Commit? ==> !result.Error?
  {
    match op
    case Read(offset, count) => result := DoRead(pages, source, offset, count);
    case Write(offset, data) => result := DoWrite(pages, source, offset, data);
    case Truncate(size) => result := DoTruncate(pages, source, size);
    case Commit(accepted) => result := DoCommit(pages, source, accepted);
  }

  // ---------------------------------------------------------------------------------------------------------------
  // Every run
  // ---------------------------------------------------------------------------------------------------------------

  /** The flat machine can go through these states while the operations return these results. */
  ghost predicate IsFlatRun(states: seq<Flat>, ops: seq<Op>, results: seq<Result>, pageSize: nat)
    requires pageSize > 0
  {
    && |states| == |results| + 1 && |results| <= |ops|
    && forall k :: 0 <= k < |results| ==> FlatStep(states[k], ops[k], results[k], states[k + 1], pageSize)
  }

  /**
   * Runs operations until one of them would leave a gap in the file. For every source, every limit and every way the
   * loads end, the results are those of the flat machine, and so are the file and what is stored afterwards. Preloaded
   * without a limit, no read and no write fails.
   */
  method Play(pages: Pages, source: Source, ops: seq<Op>) returns (results: seq<Result>, ghost states: seq<Flat>)
    requires Ready(pages, source)
    modifies pages, source
    ensures Ready(pages, source) && IsFlatRun(states, ops, results, pages.pageSize)
    ensures states[0] == old(FlatNow(pages, source)) && states[|results|] == FlatNow(pages, source)
    ensures |results| < |ops| ==> LeavesGap(ops[|results|], |FlatNow(pages, source).file|)
    ensures pages.AllHeld() ==> forall k :: 0 <= k < |results| && !ops[k].Commit? ==> !results[k].Error?
  {
    results, states := [], [FlatNow(pages, source)];
    while |results| < |ops| && !LeavesGap(ops[|results|], pages.pageCount * pages.pageSize)
      invariant Ready(pages, source) && IsFlatRun(states, ops, results, pages.pageSize)
      invariant states[0] == old(FlatNow(pages, source)) && states[|results|] == FlatNow(pages, source)
      invariant pages.AllHeld() ==> forall k :: 0 <= k < |results| && !ops[k].Commit? ==> !results[k].Error?
      decreases |ops| - |results|
    {
      BaseIsProduct(pages.pageCount, pages.pageSize);
      var result := Do(pages, source, ops[|results|]);
      results := results + [result];
      states := states + [FlatNow(pages, source)];
    }
    BaseIsProduct(pages.pageCount, pages.pageSize);
  }
}
