/**
 * Versions of the database as a local copy sees them: when blocks of one version are still those of another, and what
 * the server's change log says about it.
 */
module CopyHistory {
  import opened Common
  import opened Snapshots
  import opened FileStore

  /** What turned one version into the next. A deletion empties the database and its change log. */
  datatype Change = Committed(count: nat, writes: map<nat, Block>) | Deleted

  /** `snaps[v]` is version `v`, and `log[v]` led from it to version `v + 1`. */
  datatype History = History(snaps: seq<Snapshot>, log: seq<Change>)

  function Applied(s: Snapshot, c: Change, pageSize: nat): Snapshot {
    match c
    case Committed(count, writes) => Apply(s, count, writes, pageSize)
    case Deleted => []
  }

  /** Block `i` had no content up to version `k`, as the page with SQLite's locking bytes, which is never written. */
  ghost predicate AlwaysZero(h: History, k: nat, i: nat, pageSize: nat) {
    forall v: nat :: v <= k && v < |h.snaps| && i < |h.snaps[v]| ==> h.snaps[v][i] == Zeros(pageSize)
  }

  /** A commit on version `k` that lets the file grow writes every block it adds, unless it never had content. */
  ghost predicate HoleFree(h: History, k: nat, c: Change, pageSize: nat)
    requires k < |h.snaps|
  {
    c.Committed? ==>
      forall i: nat :: |h.snaps[k]| <= i < c.count ==> i in c.writes || AlwaysZero(h, k, i, pageSize)
  }

  ghost predicate IsStep(h: History, k: nat, pageSize: nat)
    requires k < |h.log| && |h.snaps| == |h.log| + 1
  {
    h.snaps[k + 1] == Applied(h.snaps[k], h.log[k], pageSize) && HoleFree(h, k, h.log[k], pageSize)
  }

  ghost predicate ValidHistory(h: History, pageSize: nat) {
    |h.snaps| == |h.log| + 1 && forall k: nat :: k < |h.log| ==> IsStep(h, k, pageSize)
  }

  function Extended(h: History, c: Change, pageSize: nat): History
    requires |h.snaps| > 0
  {
    History(h.snaps + [Applied(h.snaps[|h.snaps| - 1], c, pageSize)], h.log + [c])
  }

  lemma {:induction false} ExtendedIsValid(h: History, c: Change, pageSize: nat)
    requires ValidHistory(h, pageSize) && HoleFree(h, |h.snaps| - 1, c, pageSize)
    ensures ValidHistory(Extended(h, c, pageSize), pageSize)
  {
    var e := Extended(h, c, pageSize);
    forall k: nat | k < |e.log| ensures IsStep(e, k, pageSize) {
      if k < |h.log| { assert IsStep(h, k, pageSize); }
      HoleFreeStays(h, e, k, e.log[k], pageSize);
    }
  }

  /** Versions that come later do not matter. */
  lemma {:induction false} HoleFreeStays(h: History, e: History, k: nat, c: Change, pageSize: nat)
    requires k < |h.snaps| && h.snaps <= e.snaps && HoleFree(h, k, c, pageSize)
    ensures HoleFree(e, k, c, pageSize)
  {
    if c.Committed? {
      forall i: nat | |h.snaps[k]| <= i < c.count ensures i in c.writes || AlwaysZero(e, k, i, pageSize) {
        assert i in c.writes || AlwaysZero(h, k, i, pageSize);
      }
    }
  }

  /** Every block of `m` that the snapshot has is the snapshot's. */
  ghost predicate Agrees(m: map<nat, Block>, s: Snapshot) {
    forall i <- m :: i < |s| ==> m[i] == s[i]
  }

  // ---------------------------------------------------------------------------------------------------------------
  // Commits
  // ---------------------------------------------------------------------------------------------------------------

  /**
   * Blocks that agree with a version agree with the next one, once the commit's blocks are written over them, exactly
   * if no block the commit added without writing it is still there with something else than zeros.
   */
  lemma {:induction false} CommitAgrees(m: map<nat, Block>, s: Snapshot, count: nat, ws: seq<BlockWrite>, pageSize: nat)
    requires Agrees(m, s)
    ensures Agrees(Written(m, count, ws), Apply(s, count, Overlay(ws), pageSize)) <==>
            (forall i <- m :: |s| <= i < count && i !in Overlay(ws) ==> m[i] == Zeros(pageSize))
  {
    assert forall i <- m :: i < count && i !in Overlay(ws) ==> i in Written(m, count, ws);
  }

  /** A block that was cut off stays in the copy, and a commit that adds it again without writing it brings it back. */
  lemma {:induction false} HoleBringsBlockBack()
    ensures var m, s := map[0 := [7]], [];
            Agrees(m, s) && Apply(s, 1, Overlay([]), 1) == [[0]] && Written(m, 1, []) == map[0 := [7]]
  {
    assert Zeros(1) == [0];
  }

  /** Blocks of some version up to `v`, and of no other. */
  ghost predicate Known(h: History, m: map<nat, Block>, v: int) {
    exists u: nat :: u <= v && u < |h.snaps| && Agrees(m, h.snaps[u]) && forall i <- m :: i < |h.snaps[u]|
  }

  /** So a commit without such a gap keeps the agreement, also one without blocks, after which nothing is written. */
  lemma {:induction false} HoleFreeCommitAgrees(h: History, v: nat, m: map<nat, Block>, count: nat, ws: seq<BlockWrite>,
                                                pageSize: nat)
    requires v < |h.snaps| && Agrees(m, h.snaps[v]) && Known(h, m, v)
    requires HoleFree(h, v, Committed(count, Overlay(ws)), pageSize)
    ensures var next := Apply(h.snaps[v], count, Overlay(ws), pageSize);
            Agrees(Written(m, count, ws), next) && (ws == [] ==> Agrees(m, next))
  {
    var u: nat :| u <= v && Agrees(m, h.snaps[u]) && forall i <- m :: i < |h.snaps[u]|;
    forall i <- m | |h.snaps[v]| <= i < count && i !in Overlay(ws) ensures m[i] == Zeros(pageSize) {
      assert AlwaysZero(h, v, i, pageSize);
    }
    CommitAgrees(m, h.snaps[v], count, ws, pageSize);
    if ws == [] { assert forall i <- m :: i < count ==> i in Written(m, count, ws); }
  }

  /** Without writing the commit's blocks, the rest agrees exactly if it has none of them with another content. */
  lemma {:induction false} UnwrittenCommitAgrees(h: History, v: nat, m: map<nat, Block>, c: Change, pageSize: nat)
    requires v < |h.snaps| && Agrees(m, h.snaps[v]) && Known(h, m, v) && c.Committed? && HoleFree(h, v, c, pageSize)
    ensures Agrees(m, Applied(h.snaps[v], c, pageSize)) <==>
            forall i <- m :: i < c.count && i in c.writes ==> m[i] == c.writes[i]
  {
    var u: nat :| u <= v && Agrees(m, h.snaps[u]) && forall i <- m :: i < |h.snaps[u]|;
    forall i <- m | |h.snaps[v]| <= i < c.count && i !in c.writes ensures m[i] == Zeros(pageSize) {
      assert AlwaysZero(h, v, i, pageSize);
    }
  }

  // ---------------------------------------------------------------------------------------------------------------
  // The change log
  // ---------------------------------------------------------------------------------------------------------------

  ghost predicate WrittenBy(c: Change, i: nat) { c.Committed? && i in c.writes }

  /** Some commit after version `v` wrote block `i`. */
  ghost predicate Touched(h: History, v: nat, w: nat, i: nat)
    requires v <= w <= |h.log|
  {
    exists k :: v <= k < w && WrittenBy(h.log[k], i)
  }

  /** The log reaches back to `v`: the database was not deleted since. */
  ghost predicate Covered(h: History, v: nat, w: nat)
    requires v <= w <= |h.log|
  {
    forall k :: v <= k < w ==> h.log[k].Committed?
  }

  ghost predicate IsChangeList(h: History, v: nat, w: nat, blocks: seq<nat>)
    requires v <= w <= |h.log|
  {
    Covered(h, v, w) && forall i: nat :: i in blocks <==> Touched(h, v, w, i)
  }

  /** A block that no commit wrote is the same in both versions, however the file shrank and grew in between. */
  lemma {:induction false} Untouched(h: History, v: nat, w: nat, i: nat, pageSize: nat)
    requires ValidHistory(h, pageSize) && v <= w <= |h.log| && Covered(h, v, w)
    requires !Touched(h, v, w, i) && i < |h.snaps[v]| && i < |h.snaps[w]|
    ensures h.snaps[v][i] == h.snaps[w][i]
    decreases w
  {
    if v < w {
      assert IsStep(h, w - 1, pageSize) && h.log[w - 1].Committed?;
      assert !WrittenBy(h.log[w - 1], i);
      if i < |h.snaps[w - 1]| { Untouched(h, v, w - 1, i, pageSize); }
      else { assert AlwaysZero(h, w - 1, i, pageSize); }
    }
  }

  /** Dropping the blocks the log lists leaves only blocks of the new version. */
  lemma {:induction false} CaughtUpAgrees(h: History, v: nat, w: nat, m: map<nat, Block>, changed: seq<nat>,
                                          pageSize: nat)
    requires ValidHistory(h, pageSize) && v <= w <= |h.log| && IsChangeList(h, v, w, changed)
    requires Agrees(m, h.snaps[v]) && forall i <- m :: i < |h.snaps[v]|
    ensures Agrees(Forgotten(m, |h.snaps[w]|, changed), h.snaps[w])
  {
    var kept := Forgotten(m, |h.snaps[w]|, changed);
    forall i <- kept ensures i < |h.snaps[w]| ==> kept[i] == h.snaps[w][i] {
      if i < |h.snaps[w]| { Untouched(h, v, w, i, pageSize); }
    }
  }

  // ---------------------------------------------------------------------------------------------------------------
  // Ranges to fetch
  // ---------------------------------------------------------------------------------------------------------------

  predicate Ascending(blocks: seq<nat>) { forall j, k :: 0 <= j < k < |blocks| ==> blocks[j] < blocks[k] }

  predicate InRange(r: (nat, nat), i: nat) { r.0 <= i < r.0 + r.1 }

  ghost predicate Covers(ranges: seq<(nat, nat)>, i: nat) { exists k :: 0 <= k < |ranges| && InRange(ranges[k], i) }

  /** Ranges are not empty, ascending, and not even adjacent. */
  ghost predicate Apart(ranges: seq<(nat, nat)>) {
    && (forall k :: 0 <= k < |ranges| ==> ranges[k].1 > 0)
    && (forall j, k :: 0 <= j < k < |ranges| ==> ranges[j].0 + ranges[j].1 < ranges[k].0)
  }

  /** Groups ascending indexes into ranges of consecutive ones. */
  method Runs(blocks: seq<nat>) returns (ranges: seq<(nat, nat)>)
    requires Ascending(blocks)
    ensures Apart(ranges)
    ensures forall i: nat :: Covers(ranges, i) <==> i in blocks
  {
    ranges := [];
    for n := 0 to |blocks|
      invariant Apart(ranges)
      invariant forall i: nat :: Covers(ranges, i) <==> i in blocks[..n]
      invariant ranges != [] ==> n > 0 && ranges[|ranges| - 1].0 + ranges[|ranges| - 1].1 == blocks[n - 1] + 1
    {
      ghost var before := ranges;
      var index := blocks[n];
      assert blocks[..n + 1] == blocks[..n] + [index];
      var last := |ranges| - 1;
      if last >= 0 && ranges[last].0 + ranges[last].1 == index {
        ranges := ranges[last := (ranges[last].0, ranges[last].1 + 1)];
        forall i: nat ensures Covers(ranges, i) <==> Covers(before, i) || i == index {
          WidenedCovers(before, last, i);
        }
      } else {
        ranges := ranges + [(index, 1)];
        forall i: nat ensures Covers(ranges, i) <==> Covers(before, i) || i == index {
          AppendedCovers(before, (index, 1), i);
        }
      }
    }
    assert blocks[..|blocks|] == blocks;
  }

  lemma WidenedCovers(ranges: seq<(nat, nat)>, k: nat, i: nat)
    requires k < |ranges|
    ensures Covers(ranges[k := (ranges[k].0, ranges[k].1 + 1)], i) <==>
            Covers(ranges, i) || i == ranges[k].0 + ranges[k].1
  {
    var wide := ranges[k := (ranges[k].0, ranges[k].1 + 1)];
    if Covers(ranges, i) {
      var j :| 0 <= j < |ranges| && InRange(ranges[j], i);
      assert InRange(wide[j], i);
    }
    if i == ranges[k].0 + ranges[k].1 { assert InRange(wide[k], i); }
    if Covers(wide, i) {
      var j :| 0 <= j < |wide| && InRange(wide[j], i);
      if i != ranges[k].0 + ranges[k].1 { assert InRange(ranges[j], i); }
    }
  }

  lemma AppendedCovers(ranges: seq<(nat, nat)>, r: (nat, nat), i: nat)
    ensures Covers(ranges + [r], i) <==> Covers(ranges, i) || InRange(r, i)
  {
    var more := ranges + [r];
    if Covers(ranges, i) {
      var j :| 0 <= j < |ranges| && InRange(ranges[j], i);
      assert InRange(more[j], i);
    }
    if InRange(r, i) { assert InRange(more[|ranges|], i); }
    if Covers(more, i) && !InRange(r, i) {
      var j :| 0 <= j < |more| && InRange(more[j], i);
      assert InRange(ranges[j], i);
    }
  }

  /** Cuts ranges at the end of the database and drops those beyond it. */
  method Clipped(ranges: seq<(nat, nat)>, pageCount: nat) returns (clipped: seq<(nat, nat)>)
    requires Apart(ranges)
    ensures Apart(clipped)
    ensures forall i: nat :: Covers(clipped, i) <==> Covers(ranges, i) && i < pageCount
  {
    clipped := [];
    for n := 0 to |ranges|
      invariant Apart(clipped)
      invariant forall k :: 0 <= k < |clipped| ==>
                  n > 0 && clipped[k].0 + clipped[k].1 <= ranges[n - 1].0 + ranges[n - 1].1
      invariant forall i: nat :: Covers(clipped, i) <==> Covers(ranges[..n], i) && i < pageCount
    {
      ghost var before := clipped;
      var r := ranges[n];
      assert ranges[..n + 1] == ranges[..n] + [r];
      var count := Min(r.1, Max(0, pageCount - r.0));
      if count > 0 { clipped := clipped + [(r.0, count)]; }
      forall i: nat ensures Covers(clipped, i) <==> Covers(ranges[..n + 1], i) && i < pageCount {
        AppendedCovers(ranges[..n], r, i);
        AppendedCovers(before, (r.0, count), i);
      }
    }
    assert ranges[..|ranges|] == ranges;
  }
}
