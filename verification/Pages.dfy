/**
 * The blocks of the main database file in memory: loaded on demand, evicted by age, and kept while modified.
 *
 * Every operation is proved against the flat file of module FlatFile, for every source of blocks and every way its
 * loads can end.
 */
module Pages {
  import opened Common
  import opened Snapshots
  import opened FlatFile
  import opened Faults

  /** Blocks loaded on a miss when the database was preloaded and the block has since been evicted. */
  const REFILL_BLOCKS: nat := 64

  datatype ReadResult = Full | Short | Failed

  /**
   * Where missing blocks come from: the server with its local copy, or IndexedDB. `stored` is the file as of the last
   * commit. Whether the next loads fail is in `faults`, and after how many blocks they end in `sizes`; one that does
   * not fail delivers at least one block. `asked` remembers what was asked for.
   */
  class Source {
    var stored: Snapshot
    var faults: seq<bool>
    var sizes: seq<nat>
    ghost var asked: seq<(nat, nat)>

    constructor (stored: Snapshot, faults: seq<bool>, sizes: seq<nat>)
      ensures this.stored == stored && this.faults == faults && this.sizes == sizes && asked == []
    {
      this.stored, this.faults, this.sizes, asked := stored, faults, sizes, [];
    }

    method Works() returns (ok: bool)
      modifies this`faults
      ensures Suffers(old(faults), faults, ok)
    {
      ok := faults == [] || !faults[0];
      ghost var n := if faults == [] then 0 else 1;
      if faults != [] { faults := faults[1..]; }
      assert Took(old(faults), faults, n, ok);
    }

    /**
     * Loads a run of missing blocks, or the first part of it. None of them is in memory: blocks that were loaded are
     * also written to the local copy, which must not get modified ones.
     */
    method Fill(pages: Pages, first: nat, count: nat) returns (ok: bool)
      requires pages.Valid(stored) && !pages.AllHeld() && count > 0 && first + count <= pages.pageCount
      requires forall i :: first <= i < first + count ==> i !in pages.cells
      modifies pages`cells, pages`clock, pages`history, this`faults, this`sizes, this`asked
      ensures pages.Valid(stored) && stored == old(stored)
      ensures SamePages(old(pages.Img()), pages.Img(), stored)
      ensures forall i <- old(pages.cells) :: i in pages.cells && pages.cells[i] == old(pages.cells[i])
      ensures CleanCount(pages.Img()) <= old(CleanCount(pages.Img())) + count
      ensures ok ==> first in pages.cells
      ensures Suffers(old(faults), faults, ok) && asked == old(asked) + [(first, count)]
    {
      var size := Min(if sizes == [] then count else sizes[0], count);
      if sizes != [] { sizes := sizes[1..]; }
      ok := Works();
      asked := asked + [(first, count)];
      Deliver(pages, first, if ok then Max(1, size) else size);
    }

    /** The first `n` blocks of the run arrive. */
    method Deliver(pages: Pages, first: nat, n: nat)
      requires pages.Valid(stored) && !pages.AllHeld() && first + n <= pages.pageCount
      requires forall i :: first <= i < first + n ==> i !in pages.cells
      modifies pages`cells, pages`clock, pages`history
      ensures pages.Valid(stored)
      ensures SamePages(old(pages.Img()), pages.Img(), stored)
      ensures forall i <- old(pages.cells) :: i in pages.cells && pages.cells[i] == old(pages.cells[i])
      ensures CleanCount(pages.Img()) <= old(CleanCount(pages.Img())) + n
      ensures n > 0 ==> first in pages.cells
    {
      ghost var m := pages.Img();
      var k := 0;
      while k < n
        invariant 0 <= k <= n
        invariant pages.Valid(stored) && pages.clock == old(pages.clock) + k
        invariant IsLoaded(m, pages.Img(), stored, first, k)
        invariant CleanCount(pages.Img()) <= CleanCount(m) + k
      {
        ghost var before := pages.Img();
        var index, data := first + k, At(stored, first + k, pages.pageSize);
        pages.Keep(stored, index, data);
        LoadedOneMore(m, before, stored, first, k, data, pages.clock);
        k := k + 1;
      }
      LoadingChangesNothing(m, pages.Img(), stored, first, n);
    }
  }

  class Pages {
    const pageSize: nat
    var pageCount: nat
    /** Page count after the last commit. */
    var stablePageCount: nat
    var cells: map<nat, Cell>
    var dirty: set<nat>
    var sizeChanged: bool
    /** `None`: the database was preloaded. `Some(n)`: blocks are loaded on demand, up to `n` per request. */
    const blocksPerFetch: Option<nat>
    /** Memory limit in blocks, if any. */
    const cap: Option<nat>
    /** LRU clock. */
    var clock: nat
    /** The block that was used at each tick, if any. */
    ghost var history: seq<Option<nat>>

    constructor (pageSize: nat, pageCount: nat, blocksPerFetch: Option<nat>, cap: Option<nat>)
      requires pageSize > 0 && (blocksPerFetch.Some? ==> blocksPerFetch.value > 0)
      ensures this.pageSize == pageSize && this.pageCount == stablePageCount == pageCount
      ensures this.blocksPerFetch == blocksPerFetch && this.cap == cap
      ensures cells == map[] && dirty == {} && !sizeChanged
      ensures forall stored :: BlocksFit(stored, pageSize) ==> Valid(stored)
    {
      this.pageSize, this.pageCount, stablePageCount := pageSize, pageCount, pageCount;
      cells, dirty, sizeChanged := map[], {}, false;
      this.blocksPerFetch, this.cap, clock, history := blocksPerFetch, cap, 0, [];
    }

    /** Preloaded without a memory limit: nothing is ever loaded again. */
    predicate AllHeld() { blocksPerFetch.None? && cap.None? }

    function PerFetch(): nat { if blocksPerFetch.Some? then blocksPerFetch.value else REFILL_BLOCKS }

    ghost function Img(): Image
      reads this
    {
      Image(pageSize, pageCount, cells, dirty, AllHeld())
    }

    ghost predicate Valid(stored: Snapshot)
      reads this
    {
      Sound(Img(), stored) && Ordered(cells, history) && clock == |history| && PerFetch() > 0
    }

    /** The most clean blocks that are ever held. */
    function Bound(): nat
      requires cap.Some?
    {
      Max(Max(cap.value, 1), PerFetch())
    }

    ghost predicate Bounded()
      reads this
    {
      cap.Some? ==> CleanCount(Img()) <= Bound()
    }

    /** Stores a block unless it is already in memory: that one may be newer. */
    method Keep(ghost stored: Snapshot, index: nat, data: Block)
      requires Valid(stored) && index < pageCount && (index !in cells ==> data == At(stored, index, pageSize))
      modifies this`cells, this`clock, this`history
      ensures Valid(stored) && clock == old(clock) + 1
      ensures Img() == Kept(old(Img()), index, data, clock)
      ensures history == old(history) + [if old(index in cells) then None else Some(index)]
      ensures CleanCount(Img()) <= old(CleanCount(Img())) + 1
    {
      ghost var m := Img();
      if index in cells { TickKeepsOrder(cells, history); } else { UseKeepsOrder(cells, history, index, data); }
      KeptChangesNothing(m, stored, index, data, clock + 1);
      KeptIsOneMore(m, index, data, clock + 1);
      clock := clock + 1;
      history := history + [if index in cells then None else Some(index)];
      if index !in cells { cells := cells[index := Cell(data, clock)]; }
      assert Img() == Kept(m, index, data, clock);
    }

    /** Advances the clock for block `index`, which was used now. */
    method Touch(ghost stored: Snapshot, index: nat)
      requires Valid(stored)
      modifies this`cells, this`clock, this`history
      ensures Valid(stored) && SamePages(old(Img()), Img(), stored) && cells.Keys == old(cells.Keys)
      ensures history == old(history) + [if index in cells then Some(index) else None]
      ensures index in cells ==> cells[index].used == clock == old(clock) + 1
    {
      if index in cells {
        UseKeepsOrder(cells, history, index, cells[index].data);
        cells := cells[index := Cell(cells[index].data, clock + 1)];
        history := history + [Some(index)];
      } else {
        TickKeepsOrder(cells, history);
        history := history + [None];
      }
      clock := clock + 1;
    }

    // -------------------------------------------------------------------------------------------------------------
    // Eviction
    // -------------------------------------------------------------------------------------------------------------

    /** The block of `candidates` that was not used for the longest time. */
    method Oldest(candidates: set<nat>) returns (o: nat)
      requires candidates != {} && candidates <= cells.Keys
      ensures o in candidates && forall c <- candidates :: cells[o].used <= cells[c].used
    {
      o :| o in candidates;
      var rest := candidates;
      while rest != {}
        invariant rest <= candidates && o in candidates
        invariant forall c <- candidates :: c !in rest ==> cells[o].used <= cells[c].used
        decreases rest
      {
        var c :| c in rest;
        if cells[c].used < cells[o].used { o := c; }
        rest := rest - {c};
      }
    }

    /** The `count` least recently used clean blocks; in the code a partial sort moves them to the front. */
    method LeastRecentlyUsed(ghost stored: Snapshot, clean: set<nat>, count: nat) returns (front: set<nat>)
      requires Valid(stored) && clean <= cells.Keys && count <= |clean|
      ensures front <= clean && |front| == count
      ensures forall a <- front, b <- clean - front :: cells[a].used < cells[b].used
    {
      front := {};
      while |front| < count
        invariant front <= clean && |front| <= count
        invariant forall a <- front, b <- clean - front :: cells[a].used < cells[b].used
        decreases count - |front|
      {
        ghost var before := front;
        assert clean - front == {} ==> front == clean;
        var o := Oldest(clean - front);
        front := front + {o};
        forall a <- front, b <- clean - front ensures cells[a].used < cells[b].used {
          assert b in clean - before;
          UsesDiffer(cells, history, a, b);
        }
      }
    }

    /** Every block that left memory since `before` is clean and was last used before every clean block that stayed. */
    ghost predicate EvictedByAge(before: map<nat, Cell>)
      reads this
    {
      forall e <- before :: e !in cells ==>
        e !in dirty && forall s <- cells :: s !in dirty ==> LastUse(history, e) < LastUse(history, s)
    }

    method EvictOldest(ghost stored: Snapshot, count: nat)
      requires Valid(stored) && !AllHeld() && count <= CleanCount(Img())
      modifies this`cells
      ensures Valid(stored) && SamePages(old(Img()), Img(), stored)
      ensures forall i <- cells :: i in old(cells) && cells[i] == old(cells[i])
      ensures EvictedByAge(old(cells))
      ensures CleanCount(Img()) == old(CleanCount(Img())) - count
    {
      ghost var m := Img();
      CleanIsTheRest(m);
      var front := LeastRecentlyUsed(stored, cells.Keys - dirty, count);
      EvictionChangesNothing(m, stored, front);
      EvictedCount(m, front);
      cells := cells - front;
    }

    /**
     * Evicts least recently used clean blocks until those in memory plus `incoming` fit the limit, down to 7/8 of it.
     */
    method MakeRoom(ghost stored: Snapshot, incoming: nat)
      requires Valid(stored)
      modifies this`cells
      ensures Valid(stored) && SamePages(old(Img()), Img(), stored)
      ensures forall i <- cells :: i in old(cells) && cells[i] == old(cells[i])
      ensures EvictedByAge(old(cells))
      ensures cap.None? ==> cells == old(cells)
      ensures cap.Some? ==> CleanCount(Img()) + incoming <= Max(Max(cap.value, 1), incoming)
      ensures cap.Some? ==>
                CleanCount(Img()) == old(CleanCount(Img()) - EvictCount(Img(), Max(cap.value, 1), incoming))
    {
      if cap.None? { return; }
      var limit := Max(cap.value, 1);
      CleanIsTheRest(Img());
      EvictionMakesRoom(Img(), limit, incoming);
      if |cells| + incoming <= limit { return; }
      var target := Max(limit - limit / 8 - incoming, 0);
      var count := Min(Max(|cells| - target, 0), |cells.Keys - dirty|);
      EvictOldest(stored, count);
    }

    // -------------------------------------------------------------------------------------------------------------
    // Reading
    // -------------------------------------------------------------------------------------------------------------

    /** The blocks from `first` on that are missing: all of them, or as many as one request loads. */
    ghost predicate IsMissingRun(first: nat, count: nat)
      reads this
    {
      && 0 < count <= PerFetch() && first + count <= pageCount
      && (forall i :: first <= i < first + count ==> i !in cells)
      && (count == PerFetch() || first + count == pageCount || first + count in cells)
    }

    /** Makes sure that block `index` is in memory: loads the run of missing blocks that starts there. */
    method EnsureLoaded(source: Source, index: nat) returns (ok: bool)
      requires Valid(source.stored) && Bounded() && index < pageCount
      modifies this`cells, this`clock, this`history, source`faults, source`sizes, source`asked
      ensures source.stored == old(source.stored) && Valid(source.stored) && Bounded()
      ensures SamePages(old(Img()), Img(), source.stored)
      ensures AllHeld() ==> cells.Keys == old(cells.Keys)
      ensures ok ==> index in cells || AllHeld()
      ensures Suffers(old(source.faults), source.faults, ok)
      ensures AllHeld() || old(index in cells) ==>
                ok && source.faults == old(source.faults) && source.asked == old(source.asked)
      ensures old(index in cells) ==> cells.Keys == old(cells.Keys) && cells[index].used == clock
      ensures !AllHeld() && old(index !in cells) ==>
                exists count :: source.asked == old(source.asked) + [(index, count)] && old(IsMissingRun(index, count))
    {
      ghost var m := Img();
      SuffersNothing(source.faults);
      if index in cells || index in dirty {
        Touch(source.stored, index);
        return true;
      }
      if AllHeld() { return true; }
      var count := 0;
      while count < PerFetch() && index + count < pageCount && index + count !in cells && index + count !in dirty
        invariant 0 <= count <= PerFetch() && index + count <= pageCount
        invariant forall i :: index <= i < index + count ==> i !in cells
        decreases pageCount - index - count
      {
        count := count + 1;
      }
      assert IsMissingRun(index, count);
      MakeRoom(source.stored, count);
      ghost var n := Img();
      ok := source.Fill(this, index, count);
      SamePagesTransitive(m, n, Img(), source.stored);
    }

    /** The page of a position, and the place on it. */
    method Locate(position: nat) returns (index: nat, within: nat)
      requires pageSize > 0
      ensures index == PageNo(position, pageSize) && within < pageSize
      ensures position == Base(index, pageSize) + within
    {
      DivisionLocates(position, pageSize);
      index, within := position / pageSize, position % pageSize;
    }

    /** Page `index` as it reads now. */
    method PageAt(source: Source, index: nat) returns (ok: bool, page: Block)
      requires Valid(source.stored) && Bounded() && index < pageCount
      modifies this`cells, this`clock, this`history, source`faults, source`sizes, source`asked
      ensures source.stored == old(source.stored) && Valid(source.stored) && Bounded()
      ensures SamePages(old(Img()), Img(), source.stored)
      ensures ok ==> page == PageOf(old(Img()), source.stored, index)
      ensures Suffers(old(source.faults), source.faults, ok)
      ensures AllHeld() || old(index in cells) ==> ok && cells.Keys == old(cells.Keys)
      ensures AllHeld() && old(Complete(Img())) ==> Complete(Img())
    {
      ok := EnsureLoaded(source, index);
      page := if index in cells then cells[index].data else Zeros(pageSize);
      assert ok ==> page == PageOf(Img(), source.stored, index);
    }

    /** The rest of a read that has reached the end of the file. */
    method ReadPastEnd(buf: array<Byte>, offset: nat, done: nat, ghost f: seq<Byte>)
      requires done <= buf.Length && |f| <= offset + done && buf[..done] == FlatRead(f, offset, done)
      modifies buf
      ensures buf[..] == FlatRead(f, offset, buf.Length)
    {
      ReadEnds(f, offset, done, buf.Length);
      CopyInto(buf, done, Zeros(buf.Length - done));
      assert buf[..] == buf[..buf.Length];
    }

    /** Every page of the file with one of the `n` bytes from `offset` on is in memory. */
    ghost predicate InMemory(offset: nat, n: nat)
      reads this
      requires pageSize > 0
    {
      PagesIn(cells.Keys, pageCount, pageSize, offset, n)
    }

    /** One turn of the loop in `Read`: the rest of one page, or the end of the file. */
    method ReadPiece(source: Source, buf: array<Byte>, offset: nat, done: nat, ghost f: seq<Byte>)
      returns (r: ReadResult, next: nat)
      requires Valid(source.stored) && Bounded() && done < buf.Length && f == FileOf(Img(), source.stored)
      requires buf[..done] == FlatRead(f, offset, done)
      modifies this`cells, this`clock, this`history, source`faults, source`sizes, source`asked, buf
      ensures source.stored == old(source.stored) && Valid(source.stored) && Bounded()
      ensures SamePages(old(Img()), Img(), source.stored)
      ensures r.Full? ==> done < next <= buf.Length && offset + next <= |f| && buf[..next] == FlatRead(f, offset, next)
      ensures r.Short? ==> |f| <= offset + done && buf[..] == FlatRead(f, offset, buf.Length)
      ensures Suffers(old(source.faults), source.faults, !r.Failed?)
      ensures AllHeld() || old(InMemory(offset + done, 1)) ==> !r.Failed? && cells.Keys == old(cells.Keys)
      ensures AllHeld() && old(Complete(Img())) ==> Complete(Img())
    {
      ghost var m, stored := Img(), source.stored;
      var index, within := Locate(offset + done);
      SuffersNothing(source.faults);
      next := done;
      if index >= pageCount {
        OnPage(offset + done, pageCount, pageSize);
        ReadPastEnd(buf, offset, done, f);
        return Short, next;
      }
      var ok, page := PageAt(source, index);
      if !ok { return Failed, next; }
      next := CopyPiece(buf, offset, done, page, within, m, stored, index);
      return Full, next;
    }

    /** Copies the part of the page that is asked for. */
    method CopyPiece(buf: array<Byte>, offset: nat, done: nat, page: Block, within: nat, ghost m: Image,
                     ghost stored: Snapshot, ghost index: nat) returns (next: nat)
      requires Sound(m, stored) && m.pageSize == pageSize && index < m.pageCount && page == PageOf(m, stored, index)
      requires within < pageSize && offset + done == Base(index, pageSize) + within && done < buf.Length
      requires buf[..done] == FlatRead(FileOf(m, stored), offset, done)
      modifies buf
      ensures done < next <= buf.Length && offset + next <= |FileOf(m, stored)|
      ensures buf[..next] == FlatRead(FileOf(m, stored), offset, next)
    {
      PagesFit(m, stored, index);
      var n := Min(pageSize - within, buf.Length - done);
      ReadContinues(m, stored, offset, done, index, within, n);
      CopyInto(buf, done, page[within..within + n]);
      next := done + n;
    }

    /**
     * Fills `buf` with the bytes of the file at `offset`. `Short` means that the read goes past the end of the file;
     * the part past the end is zero.
     */
    method Read(source: Source, buf: array<Byte>, offset: nat) returns (r: ReadResult)
      requires Valid(source.stored) && Bounded()
      modifies this`cells, this`clock, this`history, source`faults, source`sizes, source`asked, buf
      ensures source.stored == old(source.stored) && Valid(source.stored) && Bounded()
      ensures SamePages(old(Img()), Img(), source.stored)
      ensures !r.Failed? ==> buf[..] == FlatRead(FileOf(old(Img()), source.stored), offset, buf.Length)
      ensures !r.Failed? ==>
                (r.Full? <==> buf.Length == 0 || offset + buf.Length <= |FileOf(old(Img()), source.stored)|)
      ensures Suffers(old(source.faults), source.faults, !r.Failed?)
      ensures AllHeld() || old(InMemory(offset, buf.Length)) ==> !r.Failed?
      ensures AllHeld() && old(Complete(Img())) ==> Complete(Img())
    {
      ghost var m, stored := Img(), source.stored;
      ghost var f := FileOf(m, stored);
      var done := 0;
      SuffersNothing(source.faults);
      while done < buf.Length
        invariant 0 <= done <= buf.Length && source.stored == stored
        invariant Valid(stored) && Bounded() && SamePages(m, Img(), stored)
        invariant AllHeld() && Complete(m) ==> Complete(Img())
        invariant done > 0 ==> offset + done <= |f|
        invariant buf[..done] == FlatRead(f, offset, done)
        invariant Suffers(old(source.faults), source.faults, true)
        invariant AllHeld() || old(InMemory(offset, buf.Length)) ==> cells.Keys == old(cells.Keys)
      {
        ghost var before, faults := Img(), source.faults;
        SamePagesSameFile(m, stored, before, stored);
        r, done := ReadPiece(source, buf, offset, done, f);
        SuffersOn(old(source.faults), faults, source.faults, !r.Failed?);
        SamePagesTransitive(m, before, Img(), stored);
        if !r.Full? { return; }
      }
      assert buf[..] == buf[..done];
      r := Full;
    }

    // -------------------------------------------------------------------------------------------------------------
    // Writing
    // -------------------------------------------------------------------------------------------------------------

    /** Replaces page `index` and marks it as modified; a page past the end grows the file. */
    method PutPage(ghost stored: Snapshot, index: nat, data: Block)
      requires Valid(stored) && |data| == pageSize
      modifies this`cells, this`clock, this`history, this`dirty, this`pageCount, this`sizeChanged
      ensures Valid(stored)
      ensures Img() == Put(old(Img()), index, data, clock) && history == old(history) + [Some(index)]
      ensures sizeChanged == (old(sizeChanged) || index >= old(pageCount))
    {
      ghost var next := Put(Img(), index, data, clock + 1);
      PutStaysSound(Img(), stored, index, data, clock + 1);
      UseKeepsOrder(cells, history, index, data);
      clock := clock + 1;
      history := history + [Some(index)];
      cells := cells[index := Cell(data, clock)];
      dirty := dirty + {index};
      if index >= pageCount {
        pageCount := index + 1;
        sizeChanged := true;
      }
      assert Img() == next;
    }

    /** Writes `bytes` into page `index`, which is ready for it. */
    method PokeLoaded(ghost stored: Snapshot, index: nat, within: nat, bytes: seq<Byte>)
      requires Valid(stored) && Bounded() && ReadyToPoke(Img(), index, within, bytes)
      modifies this`cells, this`clock, this`history, this`dirty, this`pageCount, this`sizeChanged
      ensures Valid(stored) && Bounded()
      ensures FileOf(Img(), stored) ==
              Overwritten(FileOf(old(Img()), stored), old(Img()), stored, Base(index, pageSize) + within, bytes)
      ensures old(Complete(Img())) && index <= old(pageCount) ==> Complete(Img())
    {
      ghost var m := Img();
      var data := Patched(BasePage(cells, pageSize, index), within, bytes);
      PutPage(stored, index, data);
      PokeWritesFile(m, stored, index, within, bytes, clock);
      PutCount(m, index, data, clock);
      if Complete(m) && index <= m.pageCount { PutKeepsComplete(m, index, data, clock); }
    }

    /** Writes `bytes` into page `index`, which is loaded first if some of its content stays. */
    method Poke(source: Source, index: nat, within: nat, bytes: seq<Byte>) returns (ok: bool)
      requires Valid(source.stored) && Bounded() && 0 < |bytes| && within + |bytes| <= pageSize
      modifies this`cells, this`clock, this`history, this`dirty, this`pageCount, this`sizeChanged
      modifies source`faults, source`sizes, source`asked
      ensures source.stored == old(source.stored) && Valid(source.stored) && Bounded()
      ensures !ok ==> SamePages(old(Img()), Img(), source.stored) && sizeChanged == old(sizeChanged)
      ensures ok ==>
                FileOf(Img(), source.stored) ==
                Overwritten(FileOf(old(Img()), source.stored), old(Img()), source.stored,
                            Base(index, pageSize) + within, bytes)
      ensures AllHeld() && old(Complete(Img())) && index <= old(pageCount) ==> Complete(Img())
      ensures Suffers(old(source.faults), source.faults, ok)
      ensures AllHeld() || |bytes| == pageSize || index >= old(pageCount) || old(index in cells) ==>
                ok && source.asked == old(source.asked)
    {
      ghost var m, stored := Img(), source.stored;
      ok := Prepare(source, index, |bytes|);
      if !ok { return; }
      SamePagesSameFile(m, stored, Img(), stored);
      OverwrittenBehind(FileOf(m, stored), m, Img(), stored, Base(index, pageSize) + within, bytes);
      PokeLoaded(stored, index, within, bytes);
    }

    /** Loads page `index` if a write of `n` bytes leaves some of its content. */
    method Prepare(source: Source, index: nat, n: nat) returns (ok: bool)
      requires Valid(source.stored) && Bounded() && n <= pageSize
      modifies this`cells, this`clock, this`history, source`faults, source`sizes, source`asked
      ensures source.stored == old(source.stored) && Valid(source.stored) && Bounded()
      ensures SamePages(old(Img()), Img(), source.stored)
      ensures AllHeld() && old(Complete(Img())) ==> Complete(Img())
      ensures ok ==> n == pageSize || index >= pageCount || index in cells || AllHeld()
      ensures Suffers(old(source.faults), source.faults, ok)
      ensures AllHeld() || n == pageSize || index >= old(pageCount) || old(index in cells) ==>
                ok && source.asked == old(source.asked)
    {
      SuffersNothing(source.faults);
      ok := true;
      if n < pageSize && index < pageCount { ok := EnsureLoaded(source, index); }
    }

    /** One turn of the loop in `Write`: the part of `data` that falls on one page. */
    method WritePiece(source: Source, data: seq<Byte>, offset: nat, done: nat) returns (ok: bool, next: nat)
      requires Valid(source.stored) && Bounded() && done < |data|
      modifies this`cells, this`clock, this`history, this`dirty, this`pageCount, this`sizeChanged
      modifies source`faults, source`sizes, source`asked
      ensures source.stored == old(source.stored) && Valid(source.stored) && Bounded()
      ensures !ok ==> next == done && SamePages(old(Img()), Img(), source.stored) && sizeChanged == old(sizeChanged)
      ensures ok ==> done < next <= |data| && (next == |data| || AtBoundary(offset + next, pageSize))
      ensures ok ==>
                FileOf(Img(), source.stored) ==
                Overwritten(FileOf(old(Img()), source.stored), old(Img()), source.stored,
                            offset + done, data[done..next])
      ensures AllHeld() && old(Complete(Img())) && offset + done <= Base(old(pageCount), pageSize) ==> Complete(Img())
      ensures Suffers(old(source.faults), source.faults, ok)
      ensures AllHeld() || old(InMemory(offset + done, 1)) ==> ok && source.asked == old(source.asked)
    {
      var index, within := Locate(offset + done);
      var n := Min(pageSize - within, |data| - done);
      PageEndsPiece(index, pageSize);
      OnPage(offset + done, pageCount + 1, pageSize);
      ok := Poke(source, index, within, data[done..done + n]);
      next := if ok then done + n else done;
    }

    /**
     * Writes `data` at `offset`. A write that fails has written the part of `data` up to some page boundary and
     * nothing else.
     */
    method Write(source: Source, data: seq<Byte>, offset: nat) returns (ok: bool, ghost done: nat)
      requires Valid(source.stored) && Bounded()
      modifies this`cells, this`clock, this`history, this`dirty, this`pageCount, this`sizeChanged
      modifies source`faults, source`sizes, source`asked
      ensures source.stored == old(source.stored) && Valid(source.stored) && Bounded()
      ensures done <= |data| && (ok <==> done == |data|)
      ensures ok || done == 0 || AtBoundary(offset + done, pageSize)
      ensures FileOf(Img(), source.stored) ==
              Overwritten(FileOf(old(Img()), source.stored), old(Img()), source.stored, offset, data[..done])
      ensures AllHeld() && old(Complete(Img())) && (data == [] || offset <= Base(old(pageCount), pageSize)) ==>
                Complete(Img())
      ensures Suffers(old(source.faults), source.faults, ok)
      ensures AllHeld() ==> ok
    {
      ghost var m, stored := Img(), source.stored;
      var at := 0;
      ok := true;
      SuffersNothing(source.faults);
      assert Overwritten(FileOf(m, stored), m, stored, offset, data[..0]) == FileOf(m, stored);
      while ok && at < |data|
        invariant source.stored == stored && Wrote(m, stored, offset, data, at, ok) && (!ok ==> at < |data|)
        invariant Suffers(old(source.faults), source.faults, ok) && (AllHeld() ==> ok)
        decreases |data| - at, ok
      {
        ghost var faults := source.faults;
        ok, at := WriteNext(source, data, offset, at, m, stored);
        SuffersOn(old(source.faults), faults, source.faults, ok);
      }
      done := at;
    }

    /** The first `at` bytes of the data are written, up to the boundary of a page. */
    ghost predicate Wrote(m: Image, stored: Snapshot, offset: nat, data: seq<Byte>, at: nat, ok: bool)
      reads this
      requires Sound(m, stored)
    {
      && Valid(stored) && Bounded() && pageSize == m.pageSize && at <= |data|
      && (at == 0 && ok ==> Img() == m)
      && (0 < at < |data| ==> AtBoundary(offset + at, pageSize))
      && FileOf(Img(), stored) == Overwritten(FileOf(m, stored), m, stored, offset, data[..at])
      && (AllHeld() && Complete(m) && offset <= |FileOf(m, stored)| ==>
            Complete(Img()) && offset + at <= |FileOf(Img(), stored)|)
    }

    method WriteNext(source: Source, data: seq<Byte>, offset: nat, at: nat, ghost m: Image, ghost stored: Snapshot)
        returns (ok: bool, next: nat)
      requires Sound(m, stored) && source.stored == stored && at < |data| && Wrote(m, stored, offset, data, at, true)
      modifies this`cells, this`clock, this`history, this`dirty, this`pageCount, this`sizeChanged
      modifies source`faults, source`sizes, source`asked
      ensures source.stored == stored && Wrote(m, stored, offset, data, next, ok)
      ensures if ok then at < next else next == at
      ensures Suffers(old(source.faults), source.faults, ok) && (AllHeld() ==> ok)
    {
      ghost var before, f := Img(), FileOf(m, stored);
      ok, next := WritePiece(source, data, offset, at);
      if ok { WriteProgress(f, FileOf(before, stored), m, before, stored, offset, data, at, next); }
      else { SamePagesSameFile(before, stored, Img(), stored); }
    }

    /** Cuts or extends the file to just enough pages for `size` bytes. */
    method Truncate(ghost stored: Snapshot, size: nat)
      requires Valid(stored) && Bounded()
      modifies this`cells, this`dirty, this`pageCount, this`sizeChanged
      ensures Valid(stored) && Bounded() && pageCount == PagesFor(size, pageSize)
      ensures Img() == if pageCount == old(pageCount) then old(Img()) else Cut(old(Img()), pageCount)
      ensures sizeChanged == (old(sizeChanged) || pageCount != old(pageCount))
      ensures old(Complete(Img())) && pageCount <= old(pageCount) ==> Complete(Img())
    {
      var count := (size + pageSize - 1) / pageSize;
      if count != pageCount {
        CutFile(Img(), stored, count);
        CutCount(Img(), count);
        cells := map i | i in cells && i < count :: cells[i];
        dirty := set i | i in dirty && i < count;
        pageCount := count;
        sizeChanged := true;
      }
    }

    // -------------------------------------------------------------------------------------------------------------
    // Committing and loading everything
    // -------------------------------------------------------------------------------------------------------------

    /**
     * The changes were committed: from now on the stored blocks are those of the new version. The file stays as it is
     * unless pages were left out of a preloaded file, and memory is back within its limit.
     */
    method CommitDone(ghost stored: Snapshot) returns (written: set<nat>)
      requires Valid(stored)
      modifies this`cells, this`dirty, this`sizeChanged, this`stablePageCount
      ensures written == old(dirty) && dirty == {} && !sizeChanged && stablePageCount == pageCount
      ensures var next := Committed(old(Img()), stored);
              && Valid(next) && Bounded()
              && (NoHoles(old(Img()), stored) ==> FileOf(Img(), next) == FileOf(old(Img()), stored))
      ensures cap.Some? ==> |cells| <= Max(cap.value, 1)
      ensures AllHeld() && old(Complete(Img())) ==> Complete(Img())
    {
      ghost var m, next := Img(), Committed(Img(), stored);
      written := dirty;
      Clean(stored);
      MakeRoom(next, 0);
      SamePagesSameFile(m.(dirty := {}), next, Img(), next);
    }

    /** Nothing is modified any more: every block in memory is the stored one. */
    method Clean(ghost stored: Snapshot)
      requires Valid(stored)
      modifies this`dirty, this`sizeChanged, this`stablePageCount
      ensures Img() == old(Img()).(dirty := {}) && !sizeChanged && stablePageCount == pageCount
      ensures var next := Committed(old(Img()), stored);
              Valid(next) && (NoHoles(old(Img()), stored) ==> FileOf(Img(), next) == FileOf(old(Img()), stored))
    {
      CommitIsSound(Img(), stored);
      if NoHoles(Img(), stored) { CommitKeepsFile(Img(), stored); }
      dirty := {};
      sizeChanged := false;
      stablePageCount := pageCount;
    }

    /** Loads every block of the file, as with preloading, and then respects the memory limit. */
    method LoadAll(ghost stored: Snapshot, blocks: seq<Block>)
      requires Valid(stored) && Img() == Image(pageSize, |stored|, map[], {}, AllHeld()) && blocks == stored
      modifies this`cells, this`clock, this`history
      ensures Valid(stored) && dirty == {}
      ensures forall i :: 0 <= i < pageCount ==> PageOf(Img(), stored, i) == stored[i]
      ensures cap.None? ==> Complete(Img())
      ensures cap.Some? ==> |cells| <= Max(cap.value, 1)
    {
      var k := 0;
      while k < |blocks|
        invariant 0 <= k <= |blocks| && Valid(stored) && Img() == Image(pageSize, |stored|, cells, {}, AllHeld())
        invariant forall i :: 0 <= i < k ==> i in cells
      {
        Keep(stored, k, blocks[k]);
        k := k + 1;
      }
      MakeRoom(stored, 0);
    }
  }

  /** Copies `bytes` into `buf` from `at` on. */
  method CopyInto(buf: array<Byte>, at: nat, bytes: seq<Byte>)
    requires at + |bytes| <= buf.Length
    modifies buf
    ensures buf[..at + |bytes|] == old(buf[..at]) + bytes
  {
    forall j | at <= j < at + |bytes| { buf[j] := bytes[j - at]; }
  }
}
