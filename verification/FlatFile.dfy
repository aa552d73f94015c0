/**
 * The flat file that the block cache stands for.
 *
 * An image is the state of the cache as a value. A page in memory has its own content; a page that is not reads as the
 * stored block, or as zeros if the database was preloaded without a limit and nothing is ever loaded again.
 */
module FlatFile {
  import opened Common
  import opened Snapshots
  import Session

  /** A block in memory and the value of the LRU clock at its last use. */
  datatype Cell = Cell(data: Block, used: nat)

  datatype Image = Image(pageSize: nat, pageCount: nat, cells: map<nat, Cell>, dirty: set<nat>, allHeld: bool)

  /** What lies behind the pages that are not in memory. */
  function Behind(m: Image, stored: Snapshot, i: nat): Block {
    if m.allHeld then Zeros(m.pageSize) else At(stored, i, m.pageSize)
  }

  function PageOf(m: Image, stored: Snapshot, i: nat): Block {
    if i in m.cells then m.cells[i].data else Behind(m, stored, i)
  }

  ghost predicate BlocksFit(stored: Snapshot, pageSize: nat) {
    forall i :: 0 <= i < |stored| ==> |stored[i]| == pageSize
  }

  /** Blocks have the page size, modified blocks are in memory, and clean ones have the stored content. */
  ghost predicate Sound(m: Image, stored: Snapshot) {
    && m.pageSize > 0 && BlocksFit(stored, m.pageSize) && m.dirty <= m.cells.Keys
    && (forall i <- m.cells :: i < m.pageCount && |m.cells[i].data| == m.pageSize)
    && (forall i <- m.cells :: i !in m.dirty ==> m.cells[i].data == At(stored, i, m.pageSize))
  }

  lemma {:induction false} PagesFit(m: Image, stored: Snapshot, i: nat)
    requires Sound(m, stored)
    ensures |PageOf(m, stored, i)| == |Behind(m, stored, i)| == m.pageSize
  {
  }

  // ---------------------------------------------------------------------------------------------------------------
  // Positions
  // ---------------------------------------------------------------------------------------------------------------

  /** Where page `i` starts: `i * pageSize`. */
  function Base(i: nat, pageSize: nat): nat {
    if i == 0 then 0 else Base(i - 1, pageSize) + pageSize
  }

  lemma {:induction false} BaseIsProduct(i: nat, pageSize: nat)
    ensures Base(i, pageSize) == i * pageSize
  {
    if i > 0 {
      BaseIsProduct(i - 1, pageSize);
      assert (i - 1) * pageSize == i * pageSize - pageSize;
    }
  }

  lemma {:induction false} BaseGrows(i: nat, j: nat, pageSize: nat)
    requires i < j
    ensures Base(i, pageSize) + pageSize <= Base(j, pageSize)
  {
    if i < j - 1 { BaseGrows(i, j - 1, pageSize); }
  }

  lemma {:induction false} PageExists(p: nat, pageSize: nat)
    requires pageSize > 0
    ensures exists i: nat :: Base(i, pageSize) <= p < Base(i, pageSize) + pageSize
    decreases p
  {
    if p < pageSize {
      assert Base(0, pageSize) == 0;
    } else {
      PageExists(p - pageSize, pageSize);
      var i: nat :| Base(i, pageSize) <= p - pageSize < Base(i, pageSize) + pageSize;
      assert Base(i + 1, pageSize) == Base(i, pageSize) + pageSize;
    }
  }

  /** The page that position `p` lies on; `p / pageSize`. */
  ghost function PageNo(p: nat, pageSize: nat): (i: nat)
    requires pageSize > 0
    ensures Base(i, pageSize) <= p < Base(i, pageSize) + pageSize
  {
    PageExists(p, pageSize);
    var i: nat :| Base(i, pageSize) <= p < Base(i, pageSize) + pageSize;
    i
  }

  /** Page `i` holds exactly the positions from its start to the next page. */
  lemma {:induction false} OnPage(p: nat, i: nat, pageSize: nat)
    requires pageSize > 0
    ensures PageNo(p, pageSize) == i <==> Base(i, pageSize) <= p < Base(i, pageSize) + pageSize
    ensures PageNo(p, pageSize) < i <==> p < Base(i, pageSize)
  {
    var q := PageNo(p, pageSize);
    if q < i { BaseGrows(q, i, pageSize); }
    if i < q { BaseGrows(i, q, pageSize); }
  }

  /** Division finds the page of a position and the place on it. */
  lemma {:induction false} DivisionLocates(p: nat, pageSize: nat)
    requires pageSize > 0
    ensures p / pageSize == PageNo(p, pageSize)
    ensures p % pageSize == p - Base(PageNo(p, pageSize), pageSize)
  {
    var q := p / pageSize;
    BaseIsProduct(q, pageSize);
    OnPage(p, q, pageSize);
  }

  // ---------------------------------------------------------------------------------------------------------------
  // Bytes
  // ---------------------------------------------------------------------------------------------------------------

  /** The byte of `page` at position `p` of the file. */
  ghost function ByteIn(page: Block, p: nat, pageSize: nat): Byte
    requires pageSize > 0 && |page| == pageSize
  {
    page[p - Base(PageNo(p, pageSize), pageSize)]
  }

  /** Byte `p` of the file. */
  ghost function ByteOf(m: Image, stored: Snapshot, p: nat): Byte
    requires Sound(m, stored)
  {
    PagesFit(m, stored, PageNo(p, m.pageSize));
    ByteIn(PageOf(m, stored, PageNo(p, m.pageSize)), p, m.pageSize)
  }

  ghost function ByteBehind(m: Image, stored: Snapshot, p: nat): Byte
    requires Sound(m, stored)
  {
    PagesFit(m, stored, PageNo(p, m.pageSize));
    ByteIn(Behind(m, stored, PageNo(p, m.pageSize)), p, m.pageSize)
  }

  /** The whole file, as SQLite reads it. */
  ghost function FileOf(m: Image, stored: Snapshot): (f: seq<Byte>)
    requires Sound(m, stored)
    ensures |f| == Base(m.pageCount, m.pageSize)
  {
    seq(Base(m.pageCount, m.pageSize), p requires 0 <= p => ByteOf(m, stored, p))
  }

  /** The bytes of page `index` are where the file has them. */
  lemma {:induction false} PageBytes(m: Image, stored: Snapshot, index: nat)
    requires Sound(m, stored) && index < m.pageCount
    ensures Base(index, m.pageSize) + m.pageSize <= |FileOf(m, stored)| && |PageOf(m, stored, index)| == m.pageSize
    ensures forall p :: Base(index, m.pageSize) <= p < Base(index, m.pageSize) + m.pageSize ==>
              FileOf(m, stored)[p] == PageOf(m, stored, index)[p - Base(index, m.pageSize)]
  {
    BaseGrows(index, m.pageCount, m.pageSize);
    PagesFit(m, stored, index);
    forall p | Base(index, m.pageSize) <= p < Base(index, m.pageSize) + m.pageSize
      ensures FileOf(m, stored)[p] == PageOf(m, stored, index)[p - Base(index, m.pageSize)]
    {
      OnPage(p, index, m.pageSize);
    }
  }

  /** `n` bytes of the file from `offset` on; past the end there are zeros. */
  function FlatRead(f: seq<Byte>, offset: nat, n: nat): (bytes: seq<Byte>)
    ensures |bytes| == n
    ensures forall j :: 0 <= j < n ==> bytes[j] == if offset + j < |f| then f[offset + j] else 0
  {
    seq(n, j requires 0 <= j < n => if offset + j < |f| then f[offset + j] else 0)
  }

  /** A read goes on by a piece of the next page. */
  lemma {:induction false} ReadContinues(m: Image, stored: Snapshot, offset: nat, done: nat, index: nat,
                                         within: nat, n: nat)
    requires Sound(m, stored) && index < m.pageCount && within + n <= m.pageSize
    requires offset + done == Base(index, m.pageSize) + within
    ensures var f := FileOf(m, stored);
            && offset + done + n <= |f| && |PageOf(m, stored, index)| == m.pageSize
            && FlatRead(f, offset, done) + PageOf(m, stored, index)[within..within + n] == FlatRead(f, offset, done + n)
  {
    PageBytes(m, stored, index);
    var f := FileOf(m, stored);
    var whole, piece := FlatRead(f, offset, done + n), PageOf(m, stored, index)[within..within + n];
    forall j | done <= j < done + n ensures whole[j] == piece[j - done] {
      assert f[offset + j] == PageOf(m, stored, index)[offset + j - Base(index, m.pageSize)];
    }
  }

  lemma {:induction false} ReadEnds(f: seq<Byte>, offset: nat, done: nat, n: nat)
    requires |f| <= offset + done && done <= n
    ensures FlatRead(f, offset, done) + Zeros(n - done) == FlatRead(f, offset, n)
  {
  }

  // ---------------------------------------------------------------------------------------------------------------
  // Writing
  // ---------------------------------------------------------------------------------------------------------------

  /** Where the page of position `p` starts. */
  ghost function PageStart(p: nat, pageSize: nat): nat
    requires pageSize > 0
  {
    Base(PageNo(p, pageSize), pageSize)
  }

  /** Length of the file after a write: whole pages. */
  ghost function GrownLength(length: nat, offset: nat, n: nat, pageSize: nat): nat
    requires pageSize > 0
  {
    if n == 0 then length else Max(length, PageStart(offset + n - 1, pageSize) + pageSize)
  }

  /**
   * The file after writing `data` at `offset`. Pages between the old end and the page of `offset` were never written:
   * they show what lies behind them. The rest of the pages that are written is zero.
   */
  ghost function Overwritten(f: seq<Byte>, m: Image, stored: Snapshot, offset: nat, data: seq<Byte>): (g: seq<Byte>)
    requires Sound(m, stored)
    ensures |g| == GrownLength(|f|, offset, |data|, m.pageSize)
  {
    seq(GrownLength(|f|, offset, |data|, m.pageSize), p requires 0 <= p =>
        WrittenByte(f, m, stored, offset, data, p))
  }

  ghost function WrittenByte(f: seq<Byte>, m: Image, stored: Snapshot, offset: nat, data: seq<Byte>, p: nat): Byte
    requires Sound(m, stored)
  {
    if offset <= p < offset + |data| then data[p - offset]
    else if p < |f| then f[p]
    else if p < PageStart(offset, m.pageSize) then ByteBehind(m, stored, p)
    else 0
  }

  /** A flat file that grows in whole pages of zeros. */
  ghost function FlatWritten(f: seq<Byte>, pageSize: nat, offset: nat, data: seq<Byte>): (g: seq<Byte>)
    requires pageSize > 0
    ensures |g| == GrownLength(|f|, offset, |data|, pageSize)
  {
    seq(GrownLength(|f|, offset, |data|, pageSize), p requires 0 <= p =>
        if offset <= p < offset + |data| then data[p - offset] else if p < |f| then f[p] else 0)
  }

  lemma {:induction false} StartFacts(offset: nat, n: nat, pageSize: nat)
    requires pageSize > 0
    ensures PageStart(offset, pageSize) <= offset < PageStart(offset, pageSize) + pageSize
    ensures n > 0 ==> PageStart(offset, pageSize) <= PageStart(offset + n - 1, pageSize)
  {
    if n > 0 {
      OnPage(offset + n - 1, PageNo(offset, pageSize), pageSize);
      var a, b := PageNo(offset, pageSize), PageNo(offset + n - 1, pageSize);
      if a < b { BaseGrows(a, b, pageSize); }
    }
  }

  /** What lies behind the pages that a write at `offset` skips. */
  ghost predicate GapIsZero(m: Image, stored: Snapshot, length: nat, offset: nat)
    requires Sound(m, stored)
  {
    forall p :: length <= p < PageStart(offset, m.pageSize) ==> ByteBehind(m, stored, p) == 0
  }

  /**
   * A write behaves as on a flat file exactly if nothing but zeros lies behind the gap it leaves. Without a gap,
   * it always does.
   */
  lemma {:induction false} FlatExactlyWithoutGap(f: seq<Byte>, m: Image, stored: Snapshot, offset: nat, data: seq<Byte>)
    requires Sound(m, stored) && data != [] && f == FileOf(m, stored)
    ensures Overwritten(f, m, stored, offset, data) == FlatWritten(f, m.pageSize, offset, data) <==>
            GapIsZero(m, stored, |f|, offset)
    ensures offset <= |f| ==> GapIsZero(m, stored, |f|, offset)
  {
    var g, h := Overwritten(f, m, stored, offset, data), FlatWritten(f, m.pageSize, offset, data);
    StartFacts(offset, |data|, m.pageSize);
    if !GapIsZero(m, stored, |f|, offset) {
      var p :| |f| <= p < PageStart(offset, m.pageSize) && ByteBehind(m, stored, p) != 0;
      assert g[p] != h[p];
    }
  }

  /** A file of one block is cut to nothing and written from its second page on: the first page shows the old block. */
  lemma {:induction false} GapShowsOldBlock()
    ensures var m, stored := Image(1, 0, map[], {}, false), [[7]];
            && Sound(m, stored) && FileOf(m, stored) == []
            && Overwritten([], m, stored, 1, [9]) == [7, 9] && FlatWritten([], 1, 1, [9]) == [0, 9]
  {
    OnPage(0, 0, 1);
    OnPage(1, 1, 1);
  }

  /** `bytes` replace those of `page` from `within` on. */
  function Patched(page: Block, within: nat, bytes: seq<Byte>): (patched: Block)
    requires within + |bytes| <= |page|
    ensures |patched| == |page|
    ensures forall w :: 0 <= w < |page| ==>
              patched[w] == if within <= w < within + |bytes| then bytes[w - within] else page[w]
  {
    page[..within] + bytes + page[within + |bytes|..]
  }

  /** The page a write starts from: the one in memory, or an empty one. */
  function BasePage(cells: map<nat, Cell>, pageSize: nat, index: nat): Block {
    if index in cells then cells[index].data else Zeros(pageSize)
  }

  /** One page is replaced in memory. */
  function Put(m: Image, index: nat, data: Block, used: nat): Image {
    m.(cells := m.cells[index := Cell(data, used)], dirty := m.dirty + {index},
       pageCount := Max(m.pageCount, index + 1))
  }

  lemma {:induction false} PutStaysSound(m: Image, stored: Snapshot, index: nat, data: Block, used: nat)
    requires Sound(m, stored) && |data| == m.pageSize
    ensures Sound(Put(m, index, data, used), stored)
  {
  }

  /** One page is written in memory. */
  function Poked(m: Image, index: nat, within: nat, bytes: seq<Byte>, used: nat): Image
    requires within + |bytes| <= |BasePage(m.cells, m.pageSize, index)|
  {
    Put(m, index, Patched(BasePage(m.cells, m.pageSize, index), within, bytes), used)
  }

  /** The page holds what the write needs of it: all of it is written, it is new, or it was loaded. */
  predicate ReadyToPoke(m: Image, index: nat, within: nat, bytes: seq<Byte>) {
    && 0 < |bytes| && within + |bytes| <= m.pageSize
    && (|bytes| == m.pageSize || index >= m.pageCount || index in m.cells || m.allHeld)
  }

  lemma {:induction false} PokeStaysSound(m: Image, stored: Snapshot, index: nat, within: nat,
                                          bytes: seq<Byte>, used: nat)
    requires Sound(m, stored) && ReadyToPoke(m, index, within, bytes)
    ensures Sound(Poked(m, index, within, bytes, used), stored)
  {
    PutStaysSound(m, stored, index, Patched(BasePage(m.cells, m.pageSize, index), within, bytes), used);
  }

  /** The page that is written reads as patched; it was loaded, or nothing of it stays, or it is new. */
  lemma {:induction false} PokedPage(m: Image, stored: Snapshot, index: nat, within: nat, bytes: seq<Byte>, used: nat,
                                     i: nat)
    requires Sound(m, stored) && ReadyToPoke(m, index, within, bytes)
    ensures var next, base := Poked(m, index, within, bytes, used), BasePage(m.cells, m.pageSize, index);
            && PageOf(next, stored, i) == (if i == index then Patched(base, within, bytes) else PageOf(m, stored, i))
            && |base| == m.pageSize
            && (index < m.pageCount ==> base == PageOf(m, stored, index) || |bytes| == m.pageSize)
            && (index >= m.pageCount ==> base == Zeros(m.pageSize))
  {
  }

  lemma {:induction false} PokedByte(m: Image, stored: Snapshot, index: nat, within: nat, bytes: seq<Byte>,
                                     used: nat, p: nat)
    requires Sound(m, stored) && ReadyToPoke(m, index, within, bytes)
    requires Sound(Poked(m, index, within, bytes, used), stored)
    ensures var offset := Base(index, m.pageSize) + within;
            ByteOf(Poked(m, index, within, bytes, used), stored, p) ==
            if offset <= p < offset + |bytes| then bytes[p - offset]
            else if PageNo(p, m.pageSize) == index && index >= m.pageCount then 0
            else ByteOf(m, stored, p)
  {
    var next, q := Poked(m, index, within, bytes, used), PageNo(p, m.pageSize);
    OnPage(p, index, m.pageSize);
    PokedPage(m, stored, index, within, bytes, used, q);
    PagesFit(m, stored, q);
    if q == index {
      ByteOfPatched(BasePage(m.cells, m.pageSize, index), index, within, bytes, m.pageSize, p);
    }
  }

  lemma {:induction false} ByteOfPatched(page: Block, index: nat, within: nat, bytes: seq<Byte>, pageSize: nat, p: nat)
    requires |page| == pageSize && within + |bytes| <= pageSize && pageSize > 0 && PageNo(p, pageSize) == index
    ensures var offset := Base(index, pageSize) + within;
            ByteIn(Patched(page, within, bytes), p, pageSize) ==
            if offset <= p < offset + |bytes| then bytes[p - offset] else ByteIn(page, p, pageSize)
  {
  }

  /** A page of the file starts where its index says. */
  lemma {:induction false} StartOfPage(index: nat, within: nat, n: nat, pageSize: nat)
    requires 0 < n && within + n <= pageSize
    ensures PageStart(Base(index, pageSize) + within, pageSize) == Base(index, pageSize)
    ensures PageStart(Base(index, pageSize) + within + n - 1, pageSize) == Base(index, pageSize)
  {
    OnPage(Base(index, pageSize) + within, index, pageSize);
    OnPage(Base(index, pageSize) + within + n - 1, index, pageSize);
  }

  lemma {:induction false} PastTheEnd(m: Image, stored: Snapshot, p: nat)
    requires Sound(m, stored) && p >= Base(m.pageCount, m.pageSize)
    ensures ByteOf(m, stored, p) == ByteBehind(m, stored, p)
  {
    OnPage(p, m.pageCount, m.pageSize);
  }

  /** Beyond the old end of the file, on the page that is written or before it. */
  lemma {:induction false} PokedByteBeyond(m: Image, stored: Snapshot, index: nat, within: nat, bytes: seq<Byte>,
                                           used: nat, p: nat)
    requires Sound(m, stored) && ReadyToPoke(m, index, within, bytes)
    requires Sound(Poked(m, index, within, bytes, used), stored)
    requires Base(m.pageCount, m.pageSize) <= p < Base(index, m.pageSize) + m.pageSize
    requires !(Base(index, m.pageSize) + within <= p < Base(index, m.pageSize) + within + |bytes|)
    ensures ByteOf(Poked(m, index, within, bytes, used), stored, p) ==
            if p < Base(index, m.pageSize) then ByteBehind(m, stored, p) else 0
  {
    PokedByte(m, stored, index, within, bytes, used, p);
    PastTheEnd(m, stored, p);
    OnPage(p, index, m.pageSize);
    if index < m.pageCount { BaseGrows(index, m.pageCount, m.pageSize); }
  }

  lemma {:induction false} PokedByteIsWritten(m: Image, stored: Snapshot, index: nat, within: nat, bytes: seq<Byte>,
                                              used: nat, f: seq<Byte>, p: nat)
    requires Sound(m, stored) && ReadyToPoke(m, index, within, bytes)
    requires Sound(Poked(m, index, within, bytes, used), stored)
    requires f == FileOf(m, stored) && p < Max(|f|, Base(index, m.pageSize) + m.pageSize)
    ensures ByteOf(Poked(m, index, within, bytes, used), stored, p) ==
            WrittenByte(f, m, stored, Base(index, m.pageSize) + within, bytes, p)
  {
    var offset := Base(index, m.pageSize) + within;
    StartOfPage(index, within, |bytes|, m.pageSize);
    if offset <= p < offset + |bytes| || p < |f| {
      PokedByte(m, stored, index, within, bytes, used, p);
      OnPage(p, m.pageCount, m.pageSize);
    } else {
      PokedByteBeyond(m, stored, index, within, bytes, used, p);
    }
  }

  /** Writing one page in memory writes its bytes in the file. */
  lemma {:induction false} PokeWritesFile(m: Image, stored: Snapshot, index: nat, within: nat,
                                          bytes: seq<Byte>, used: nat)
    requires Sound(m, stored) && ReadyToPoke(m, index, within, bytes)
    ensures var next := Poked(m, index, within, bytes, used);
            && Sound(next, stored)
            && FileOf(next, stored) ==
               Overwritten(FileOf(m, stored), m, stored, Base(index, m.pageSize) + within, bytes)
  {
    PokeStaysSound(m, stored, index, within, bytes, used);
    var next := Poked(m, index, within, bytes, used);
    var g := Overwritten(FileOf(m, stored), m, stored, Base(index, m.pageSize) + within, bytes);
    var h := FileOf(next, stored);
    StartOfPage(index, within, |bytes|, m.pageSize);
    PagesLength(m.pageCount, index, m.pageSize);
    assert |g| == |h|;
    forall p | 0 <= p < |h| ensures h[p] == g[p] {
      PokedByteIsWritten(m, stored, index, within, bytes, used, FileOf(m, stored), p);
    }
  }

  lemma {:induction false} PagesLength(pageCount: nat, index: nat, pageSize: nat)
    ensures Base(Max(pageCount, index + 1), pageSize) ==
            Max(Base(pageCount, pageSize), Base(index, pageSize) + pageSize)
  {
    if pageCount < index + 1 { BaseGrows(pageCount, index + 1, pageSize); }
    else { BaseGrows(index, pageCount, pageSize); }
  }

  /** Writing piece by piece up to page boundaries is writing at once. */
  lemma {:induction false} OverwriteContinues(f: seq<Byte>, m: Image, next: Image, stored: Snapshot, offset: nat,
                                              a: seq<Byte>, b: seq<Byte>)
    requires Sound(m, stored) && Sound(next, stored) && next.pageSize == m.pageSize
    requires a == [] ==> next == m
    requires a != [] ==> AtBoundary(offset + |a|, m.pageSize)
    ensures Overwritten(Overwritten(f, m, stored, offset, a), next, stored, offset + |a|, b) ==
            Overwritten(f, m, stored, offset, a + b)
  {
    var ps := m.pageSize;
    var whole := Overwritten(f, m, stored, offset, a + b);
    var first := Overwritten(f, m, stored, offset, a);
    var second := Overwritten(first, next, stored, offset + |a|, b);
    if a == [] {
      assert a + b == b && first == f;
    } else {
      StartFacts(offset, |a|, ps);
      BoundaryFacts(offset + |a|, ps);
      if b == [] {
        assert a + b == a;
      } else {
        StartFacts(offset + |a|, |b|, ps);
        assert |whole| == |second|;
        forall p | 0 <= p < |whole| ensures whole[p] == second[p] { }
      }
    }
  }

  /** The part of `data` up to `was` is written; with the part up to `at`, the part up to `at` is. */
  lemma {:induction false} WriteProgress(f: seq<Byte>, g: seq<Byte>, m: Image, before: Image, stored: Snapshot,
                                         offset: nat, data: seq<Byte>, was: nat, at: nat)
    requires Sound(m, stored) && Sound(before, stored) && before.pageSize == m.pageSize && was <= at <= |data|
    requires was == 0 ==> before == m
    requires was > 0 ==> AtBoundary(offset + was, m.pageSize)
    requires g == Overwritten(f, m, stored, offset, data[..was])
    ensures Overwritten(g, before, stored, offset + was, data[was..at]) == Overwritten(f, m, stored, offset, data[..at])
  {
    OverwriteContinues(f, m, before, stored, offset, data[..was], data[was..at]);
    assert data[..was] + data[was..at] == data[..at];
  }

  /** Every page is in memory. */
  ghost predicate Complete(m: Image) {
    forall i :: 0 <= i < m.pageCount ==> i in m.cells
  }

  lemma {:induction false} PutKeepsComplete(m: Image, index: nat, data: Block, used: nat)
    requires Complete(m) && index <= m.pageCount
    ensures Complete(Put(m, index, data, used))
  {
  }

  /** What a write leaves depends on memory only through what lies behind it. */
  lemma {:induction false} OverwrittenBehind(f: seq<Byte>, m: Image, n: Image, stored: Snapshot, offset: nat,
                                             data: seq<Byte>)
    requires Sound(m, stored) && Sound(n, stored) && n.pageSize == m.pageSize && n.allHeld == m.allHeld
    ensures Overwritten(f, m, stored, offset, data) == Overwritten(f, n, stored, offset, data)
  {
    var g, h := Overwritten(f, m, stored, offset, data), Overwritten(f, n, stored, offset, data);
    forall p: nat ensures ByteBehind(m, stored, p) == ByteBehind(n, stored, p) { }
    assert forall p :: 0 <= p < |g| ==> g[p] == h[p];
  }

  /** A position where a page starts. */
  ghost predicate AtBoundary(p: nat, pageSize: nat)
    requires pageSize > 0
  {
    PageStart(p, pageSize) == p
  }

  /** A piece that fills up its page ends at a page boundary. */
  lemma {:induction false} PageEndsPiece(index: nat, pageSize: nat)
    requires pageSize > 0
    ensures AtBoundary(Base(index, pageSize) + pageSize, pageSize)
  {
    assert Base(index + 1, pageSize) == Base(index, pageSize) + pageSize;
    OnPage(Base(index + 1, pageSize), index + 1, pageSize);
  }

  /** At a page boundary the page before it ends. */
  lemma {:induction false} BoundaryFacts(p: nat, pageSize: nat)
    requires pageSize > 0 && p > 0 && AtBoundary(p, pageSize)
    ensures PageStart(p - 1, pageSize) + pageSize == p
  {
    var q := PageNo(p, pageSize);
    assert q > 0 && Base(q, pageSize) == Base(q - 1, pageSize) + pageSize;
    OnPage(p - 1, q - 1, pageSize);
  }

  /** Of the first `count` pages, every one with one of the `n` bytes from `offset` on is in memory. */
  ghost predicate PagesIn(held: set<nat>, count: nat, pageSize: nat, offset: nat, n: nat)
    requires pageSize > 0
  {
    forall p: nat :: offset <= p < offset + n && PageNo(p, pageSize) < count ==> PageNo(p, pageSize) in held
  }

  // ---------------------------------------------------------------------------------------------------------------
  // Truncating, committing, loading
  // ---------------------------------------------------------------------------------------------------------------

  /** Pages needed for `size` bytes. */
  function PagesFor(size: nat, pageSize: nat): nat
    requires pageSize > 0
  {
    (size + pageSize - 1) / pageSize
  }

  /** Just enough pages: they hold `size` bytes, and one page less does not. */
  lemma {:induction false} PagesForFits(size: nat, pageSize: nat)
    requires pageSize > 0
    ensures size <= Base(PagesFor(size, pageSize), pageSize)
    ensures size > 0 ==> PagesFor(size, pageSize) > 0 && Base(PagesFor(size, pageSize) - 1, pageSize) < size
  {
    var n := PagesFor(size, pageSize);
    DivisionLocates(size + pageSize - 1, pageSize);
    if n > 0 { assert Base(n, pageSize) == Base(n - 1, pageSize) + pageSize; }
    else { assert Base(0, pageSize) == 0; }
  }

  function Cut(m: Image, pageCount: nat): Image {
    m.(cells := map i | i in m.cells && i < pageCount :: m.cells[i],
       dirty := (set i | i in m.dirty && i < pageCount), pageCount := pageCount)
  }

  /**
   * A cut keeps the bytes of the pages that stay. A file that grows this way shows what lies behind the new pages: a
   * file that was cut and grows again shows its old stored blocks.
   */
  lemma {:induction false} CutFile(m: Image, stored: Snapshot, pageCount: nat)
    requires Sound(m, stored)
    ensures Sound(Cut(m, pageCount), stored)
    ensures var f, g := FileOf(m, stored), FileOf(Cut(m, pageCount), stored);
            && |g| == Base(pageCount, m.pageSize)
            && forall p :: 0 <= p < |g| ==> g[p] == if p < |f| then f[p] else ByteBehind(m, stored, p)
  {
    var f, g := FileOf(m, stored), FileOf(Cut(m, pageCount), stored);
    forall p | 0 <= p < |g| ensures g[p] == if p < |f| then f[p] else ByteBehind(m, stored, p) {
      OnPage(p, pageCount, m.pageSize);
      OnPage(p, m.pageCount, m.pageSize);
    }
  }

  /** The version a commit makes of the stored blocks. */
  function Committed(m: Image, stored: Snapshot): Snapshot {
    Apply(stored, m.pageCount, map i | i in m.dirty && i in m.cells :: m.cells[i].data, m.pageSize)
  }

  /** Every page that is not in memory has its stored content, also when nothing is ever loaded again. */
  predicate NoHoles(m: Image, stored: Snapshot) {
    m.allHeld ==> forall i :: 0 <= i < m.pageCount && i !in m.cells ==> At(stored, i, m.pageSize) == Zeros(m.pageSize)
  }

  /** Two caches whose pages have the same content stand for the same file. */
  lemma {:induction false} SamePagesSameFile(m: Image, stored: Snapshot, n: Image, other: Snapshot)
    requires Sound(m, stored) && Sound(n, other) && m.pageSize == n.pageSize && m.pageCount == n.pageCount
    requires forall i :: 0 <= i < m.pageCount ==> PageOf(m, stored, i) == PageOf(n, other, i)
    ensures FileOf(m, stored) == FileOf(n, other)
  {
    forall p | 0 <= p < Base(m.pageCount, m.pageSize) ensures ByteOf(m, stored, p) == ByteOf(n, other, p) {
      OnPage(p, m.pageCount, m.pageSize);
      assert PageOf(m, stored, PageNo(p, m.pageSize)) == PageOf(n, other, PageNo(p, m.pageSize));
    }
  }

  lemma {:induction false} CommitIsSound(m: Image, stored: Snapshot)
    requires Sound(m, stored)
    ensures Sound(m.(dirty := {}), Committed(m, stored)) && |Committed(m, stored)| == m.pageCount
  {
  }

  /** A commit makes the stored blocks equal to the file exactly if no page was left out of a preloaded file. */
  lemma {:induction false} CommitStoresFile(m: Image, stored: Snapshot)
    requires Sound(m, stored)
    ensures (forall i :: 0 <= i < m.pageCount ==> Committed(m, stored)[i] == PageOf(m, stored, i))
            <==> NoHoles(m, stored)
  {
    var next := Committed(m, stored);
    if forall i :: 0 <= i < m.pageCount ==> next[i] == PageOf(m, stored, i) {
      forall i | m.allHeld && 0 <= i < m.pageCount && i !in m.cells
        ensures At(stored, i, m.pageSize) == Zeros(m.pageSize)
      {
        assert next[i] == PageOf(m, stored, i);
      }
    }
  }

  /** A page that was never written in a file that is never loaded again reads as zeros and is not committed. */
  lemma {:induction false} HoleIsNotCommitted()
    ensures var m, stored := Image(1, 1, map[], {}, true), [[7]];
            Sound(m, stored) && PageOf(m, stored, 0) == [0] && Committed(m, stored) == [[7]]
  {
  }

  /** It then leaves the file as it is. */
  lemma {:induction false} CommitKeepsFile(m: Image, stored: Snapshot)
    requires Sound(m, stored) && NoHoles(m, stored)
    ensures Sound(m.(dirty := {}), Committed(m, stored))
    ensures FileOf(m.(dirty := {}), Committed(m, stored)) == FileOf(m, stored)
  {
    CommitIsSound(m, stored);
    CommitStoresFile(m, stored);
    SamePagesSameFile(m.(dirty := {}), Committed(m, stored), m, stored);
  }

  /** The tick at which block `i` was used last, or 0. `history` says of every tick which block it was for, if any. */
  ghost function LastUse(history: seq<Option<nat>>, i: nat): nat {
    if history == [] then 0
    else if history[|history| - 1] == Some(i) then |history|
    else LastUse(history[..|history| - 1], i)
  }

  lemma {:induction false} LastUseSnoc(history: seq<Option<nat>>, x: Option<nat>, i: nat)
    ensures LastUse(history + [x], i) == if x == Some(i) then |history| + 1 else LastUse(history, i)
  {
    assert (history + [x])[..|history|] == history;
  }

  /** That tick is one of the block, and no later one is. */
  lemma {:induction false} LastUseIsLast(history: seq<Option<nat>>, i: nat)
    ensures LastUse(history, i) <= |history|
    ensures LastUse(history, i) > 0 ==> history[LastUse(history, i) - 1] == Some(i)
    ensures forall k :: LastUse(history, i) <= k < |history| ==> history[k] != Some(i)
    decreases |history|
  {
    if history != [] { LastUseIsLast(history[..|history| - 1], i); }
  }

  /** Every block in memory knows when it was used last. */
  ghost predicate Ordered(cells: map<nat, Cell>, history: seq<Option<nat>>) {
    forall i <- cells :: cells[i].used == LastUse(history, i) && cells[i].used > 0
  }

  lemma {:induction false} UsesDiffer(cells: map<nat, Cell>, history: seq<Option<nat>>, i: nat, j: nat)
    requires Ordered(cells, history) && i in cells && j in cells && i != j
    ensures cells[i].used != cells[j].used
  {
    LastUseIsLast(history, i);
    LastUseIsLast(history, j);
  }

  lemma {:induction false} TickKeepsOrder(cells: map<nat, Cell>, history: seq<Option<nat>>)
    requires Ordered(cells, history)
    ensures Ordered(cells, history + [None])
  {
    forall i <- cells ensures cells[i].used == LastUse(history + [None], i) { LastUseSnoc(history, None, i); }
  }

  lemma {:induction false} UseKeepsOrder(cells: map<nat, Cell>, history: seq<Option<nat>>, index: nat, data: Block)
    requires Ordered(cells, history)
    ensures Ordered(cells[index := Cell(data, |history| + 1)], history + [Some(index)])
  {
    var next := cells[index := Cell(data, |history| + 1)];
    forall i <- next ensures next[i].used == LastUse(history + [Some(index)], i) && next[i].used > 0 {
      LastUseSnoc(history, Some(index), i);
    }
  }

  /** A block is stored in memory unless it is already there. */
  function Kept(m: Image, index: nat, data: Block, used: nat): Image {
    if index in m.cells then m else m.(cells := m.cells[index := Cell(data, used)])
  }

  /** The pages have the same content; only which of them are in memory may differ. */
  ghost predicate SamePages(m: Image, n: Image, stored: Snapshot) {
    && n.pageSize == m.pageSize && n.pageCount == m.pageCount && n.dirty == m.dirty && n.allHeld == m.allHeld
    && forall i :: 0 <= i < m.pageCount ==> PageOf(m, stored, i) == PageOf(n, stored, i)
  }

  /** Number of blocks in memory that are stored elsewhere too. */
  function CleanCount(m: Image): int { |m.cells| - |m.dirty| }

  lemma {:induction false} CleanIsTheRest(m: Image)
    requires m.dirty <= m.cells.Keys
    ensures |m.cells.Keys - m.dirty| == CleanCount(m)
  {
    assert m.cells.Keys == (m.cells.Keys - m.dirty) + m.dirty;
  }

  /** How many blocks are evicted for `incoming` new ones: down to 7/8 of the limit, as far as there are clean ones. */
  function EvictCount(m: Image, limit: nat, incoming: nat): int {
    if |m.cells| + incoming <= limit then 0
    else Min(Max(|m.cells| - Max(limit - limit / 8 - incoming, 0), 0), CleanCount(m))
  }

  /** What is left has room for the new blocks as far as clean blocks go, and no more is evicted than that takes. */
  lemma {:induction false} EvictionMakesRoom(m: Image, limit: nat, incoming: nat)
    requires CleanCount(m) >= 0
    ensures var left := |m.cells| - EvictCount(m, limit, incoming);
            && 0 <= EvictCount(m, limit, incoming) <= CleanCount(m)
            && CleanCount(m) - EvictCount(m, limit, incoming) + incoming <= Max(limit, incoming)
            && (|m.cells| + incoming <= limit ==> left == |m.cells|)
            && (left < |m.cells| ==> left >= limit - limit / 8 - incoming)
            && (EvictCount(m, limit, incoming) < CleanCount(m) ==> left + incoming <= Max(limit, incoming))
  {
  }

  lemma {:induction false} PutCount(m: Image, index: nat, data: Block, used: nat)
    requires m.dirty <= m.cells.Keys
    ensures CleanCount(Put(m, index, data, used)) <= CleanCount(m)
  {
    if index in m.dirty { assert m.dirty + {index} == m.dirty; }
  }

  lemma {:induction false} EvictedCount(m: Image, evicted: set<nat>)
    requires evicted <= m.cells.Keys
    ensures CleanCount(m.(cells := m.cells - evicted)) == CleanCount(m) - |evicted|
  {
    assert m.cells.Keys == (m.cells - evicted).Keys + evicted;
  }

  lemma {:induction false} CutCount(m: Image, pageCount: nat)
    requires m.dirty <= m.cells.Keys
    ensures CleanCount(Cut(m, pageCount)) <= CleanCount(m)
  {
    var cut := Cut(m, pageCount);
    CleanIsTheRest(m);
    CleanIsTheRest(cut);
    SubsetCount(cut.cells.Keys - cut.dirty, m.cells.Keys - m.dirty);
  }

  lemma {:induction false} SubsetCount(a: set<nat>, b: set<nat>)
    requires a <= b
    ensures |a| <= |b|
  {
    assert b == a + (b - a);
  }

  lemma {:induction false} KeptIsOneMore(m: Image, index: nat, data: Block, used: nat)
    ensures CleanCount(Kept(m, index, data, used)) <= CleanCount(m) + 1
  {
  }

  lemma {:induction false} KeptChangesNothing(m: Image, stored: Snapshot, index: nat, data: Block, used: nat)
    requires Sound(m, stored) && index < m.pageCount && (index !in m.cells ==> data == At(stored, index, m.pageSize))
    ensures var n := Kept(m, index, data, used);
            Sound(n, stored) && (!m.allHeld ==> SamePages(m, n, stored))
  {
  }

  /** `k` is `m` with `n` stored blocks from `first` on in memory. */
  ghost predicate IsLoaded(m: Image, k: Image, stored: Snapshot, first: nat, n: nat) {
    && k.pageSize == m.pageSize && k.pageCount == m.pageCount && k.dirty == m.dirty && k.allHeld == m.allHeld
    && (forall i <- m.cells :: i in k.cells && k.cells[i] == m.cells[i])
    && (forall i :: first <= i < first + n ==> i in k.cells)
    && (forall i <- k.cells :: i in m.cells || (first <= i < first + n && k.cells[i].data == At(stored, i, m.pageSize)))
  }

  lemma {:induction false} LoadedOneMore(m: Image, k: Image, stored: Snapshot, first: nat, n: nat, data: Block,
                                         used: nat)
    requires IsLoaded(m, k, stored, first, n) && data == At(stored, first + n, m.pageSize)
    ensures IsLoaded(m, Kept(k, first + n, data, used), stored, first, n + 1)
  {
  }

  lemma {:induction false} LoadingChangesNothing(m: Image, k: Image, stored: Snapshot, first: nat, n: nat)
    requires Sound(m, stored) && IsLoaded(m, k, stored, first, n) && first + n <= m.pageCount
    ensures Sound(k, stored) && (!m.allHeld ==> SamePages(m, k, stored))
  {
  }

  lemma {:induction false} EvictionChangesNothing(m: Image, stored: Snapshot, evicted: set<nat>)
    requires Sound(m, stored) && evicted <= m.cells.Keys - m.dirty && !m.allHeld
    ensures Sound(m.(cells := m.cells - evicted), stored) && SamePages(m, m.(cells := m.cells - evicted), stored)
  {
  }

  lemma {:induction false} SamePagesTransitive(m: Image, n: Image, o: Image, stored: Snapshot)
    requires SamePages(m, n, stored) && SamePages(n, o, stored)
    ensures SamePages(m, o, stored)
  {
    forall i | 0 <= i < m.pageCount ensures PageOf(m, stored, i) == PageOf(o, stored, i) {
      assert PageOf(m, stored, i) == PageOf(n, stored, i);
    }
  }

  // ---------------------------------------------------------------------------------------------------------------
  // The blocks in memory of a session
  // ---------------------------------------------------------------------------------------------------------------

  /** The image as the session of the protocol sees it. */
  function MemOf(m: Image, resized: bool): Session.Mem {
    Session.Mem(m.pageCount, map i | i in m.cells :: m.cells[i].data, m.dirty, resized)
  }

  /** The cache moves as the protocol says: one block is written, or the file is cut. */
  lemma {:induction false} CacheMoves(m: Image, resized: bool, index: nat, within: nat, bytes: seq<Byte>, used: nat,
                                      pageCount: nat)
    requires within + |bytes| <= |BasePage(m.cells, m.pageSize, index)|
    ensures MemOf(Poked(m, index, within, bytes, used), resized || index >= m.pageCount) ==
            Session.WriteBlock(MemOf(m, resized), index, Patched(BasePage(m.cells, m.pageSize, index), within, bytes))
    ensures pageCount != m.pageCount ==>
              MemOf(Cut(m, pageCount), true) == Session.TruncateTo(MemOf(m, resized), pageCount)
    ensures Session.DirtyBlocks(MemOf(m, resized)) == map i | i in m.dirty && i in m.cells :: m.cells[i].data
  {
  }
}
