/**
 * Layout of a local copy: the header, block `i` at `HEADER_BYTES + i * pageSize`, and behind the last block a bitmap
 * of the blocks that are present. What a file shows, and what a crash may leave of it.
 */
module CopyFile {
  import opened Common
  import opened Header
  import opened Bitmap
  import opened FlatFile

  // ---------------------------------------------------------------------------------------------------------------
  // Bytes of a file
  // ---------------------------------------------------------------------------------------------------------------

  /** The file after a write at `at`; a gap before it is filled with zeros. */
  function PutAt(f: seq<Byte>, at: nat, data: seq<Byte>): (g: seq<Byte>)
    ensures |g| == Max(|f|, at + |data|)
    ensures forall k :: 0 <= k < |g| ==>
              g[k] == if at <= k < at + |data| then data[k - at] else if k < |f| then f[k] else 0
  {
    var wide := f + Zeros(Max(0, at + |data| - |f|));
    wide[..at] + data + wide[at + |data|..]
  }

  function Resize(f: seq<Byte>, length: nat): (g: seq<Byte>)
    ensures |g| == length
    ensures forall k :: 0 <= k < length ==> g[k] == if k < |f| then f[k] else 0
  {
    if length <= |f| then f[..length] else f + Zeros(length - |f|)
  }

  /** Byte `k` of a file; past its end there are zeros, which a later write behind them makes real. */
  function ByteAt(f: seq<Byte>, k: nat): Byte { if k < |f| then f[k] else 0 }

  function HeaderOf(f: seq<Byte>): seq<Byte> { f[..Min(|f|, HEADER_BYTES)] }

  function BodyOf(f: seq<Byte>): seq<Byte> { f[Min(|f|, HEADER_BYTES)..] }

  function ReadHeader(f: seq<Byte>): Option<(Head, Byte)> {
    if |f| < HEADER_BYTES then None else Decode(f[..HEADER_BYTES])
  }

  // ---------------------------------------------------------------------------------------------------------------
  // What a file shows
  // ---------------------------------------------------------------------------------------------------------------

  /** A trusted copy: its head and the blocks it holds. */
  datatype Copy = Copy(head: Head, blocks: map<nat, Block>)

  function BlockStart(i: nat, pageSize: nat): nat { HEADER_BYTES + Base(i, pageSize) }

  function BitsAt(h: Head): nat { BlockStart(h.pageCount, h.pageSize) }

  /** The bitmap, or an empty one if the file is too short for it. */
  function BitsOf(f: seq<Byte>, h: Head): (bits: seq<Byte>)
    ensures |bits| == BytesFor(h.pageCount)
  {
    var length := BytesFor(h.pageCount);
    if |f| < BitsAt(h) + length then Zeros(length) else f[BitsAt(h)..BitsAt(h) + length]
  }

  predicate Marked(f: seq<Byte>, h: Head, i: nat) { i < h.pageCount && HasBit(BitsOf(f, h), i) }

  /** The bytes in the place of block `i`. */
  function RawBlock(f: seq<Byte>, i: nat, pageSize: nat): (data: Block)
    ensures |data| == pageSize
    ensures forall k: nat :: k < pageSize ==> data[k] == ByteAt(f, BlockStart(i, pageSize) + k)
  {
    var start := Min(BlockStart(i, pageSize), |f|);
    var here := f[start..Min(start + pageSize, |f|)];
    here + Zeros(pageSize - |here|)
  }

  /** A block that is marked lies within the file. */
  lemma {:induction false} MarkedLies(f: seq<Byte>, h: Head, i: nat)
    requires Marked(f, h, i)
    ensures BlockStart(i, h.pageSize) + h.pageSize <= |f|
    ensures f[BlockStart(i, h.pageSize)..BlockStart(i, h.pageSize) + h.pageSize] == RawBlock(f, i, h.pageSize)
  {
    ZeroHasNoBits(i % 8);
    BaseGrows(i, h.pageCount, h.pageSize);
    assert BlockStart(i, h.pageSize) + h.pageSize <= |f|;
    var block, start := f[BlockStart(i, h.pageSize)..BlockStart(i, h.pageSize) + h.pageSize], BlockStart(i, h.pageSize);
    forall k: nat | k < h.pageSize ensures block[k] == ByteAt(f, start + k) { }
  }

  function BlocksShown(f: seq<Byte>, h: Head): map<nat, Block> {
    map i: nat | i < h.pageCount && Marked(f, h, i) :: RawBlock(f, i, h.pageSize)
  }

  /** The copy in a file, unless the header is missing, damaged or marked as being written. */
  function View(f: seq<Byte>): Option<Copy> {
    var header := ReadHeader(f);
    if header.None? || header.value.1 != CLEAN then None
    else
      var h := header.value.0;
      Some(Copy(h, BlocksShown(f, h)))
  }

  /** The same as a relation: exactly the blocks of `m` are marked, and they are in place. */
  ghost predicate Shows(f: seq<Byte>, h: Head, m: map<nat, Block>) {
    && (forall i: nat :: i in m <==> Marked(f, h, i))
    && (forall i <- m :: m[i] == RawBlock(f, i, h.pageSize))
  }

  lemma {:induction false} ShownIsViewed(f: seq<Byte>, h: Head, m: map<nat, Block>)
    requires ReadHeader(f) == Some((h, CLEAN))
    ensures Shows(f, h, m) <==> View(f) == Some(Copy(h, m))
  {
    if Shows(f, h, m) { assert BlocksShown(f, h).Keys == m.Keys; assert BlocksShown(f, h) == m; }
  }

  /** No bit of a trusted copy is set at or beyond its page count. */
  ghost predicate Tidy(f: seq<Byte>) {
    View(f).Some? ==> TailClear(BitsOf(f, View(f).value.head), View(f).value.head.pageCount)
  }

  // ---------------------------------------------------------------------------------------------------------------
  // Crashes
  // ---------------------------------------------------------------------------------------------------------------

  /** A file between two operations: as of the last sync, as the process sees it, and whether blocks changed since. */
  datatype Moment = Moment(stable: seq<Byte>, cur: seq<Byte>, dirty: bool)

  predicate Settled(m: Moment) { m.stable == m.cur && !m.dirty }

  /**
   * What a crash may leave. The header page is replaced as a whole or not at all; behind it, anything may be left
   * if anything was written there since the last sync.
   */
  predicate MayLeave(m: Moment, f: seq<Byte>) {
    && (HeaderOf(f) == HeaderOf(m.stable) || HeaderOf(f) == HeaderOf(m.cur))
    && (!m.dirty ==> BodyOf(f) == BodyOf(m.stable))
  }

  /** What is promised about crashes: the copies that may be left, and whether a trusted one is tidy. */
  datatype Promise = Promise(before: Option<Copy>, after: Option<Copy>, tidy: bool)

  ghost predicate Keeps(p: Promise, f: seq<Byte>) {
    View(f) in {p.before, None, p.after} && (p.tidy ==> Tidy(f))
  }

  /** Whatever a crash leaves shows one of two copies, or none. */
  ghost predicate Safe(m: Moment, p: Promise) { forall f :: MayLeave(m, f) ==> Keeps(p, f) }

  /** While nothing but the header is pending, a crash leaves the old file or the new one. */
  lemma {:induction false} OldOrNew(m: Moment, f: seq<Byte>)
    requires !m.dirty && BodyOf(m.cur) == BodyOf(m.stable) && MayLeave(m, f)
    ensures f == m.stable || f == m.cur
  {
    assert f == HeaderOf(f) + BodyOf(f);
    assert m.stable == HeaderOf(m.stable) + BodyOf(m.stable);
    assert m.cur == HeaderOf(m.cur) + BodyOf(m.cur);
  }

  lemma {:induction false} HeaderPending(m: Moment, p: Promise)
    requires !m.dirty && BodyOf(m.cur) == BodyOf(m.stable) && Keeps(p, m.stable) && Keeps(p, m.cur)
    ensures Safe(m, p)
  {
    forall f | MayLeave(m, f) ensures Keeps(p, f) { OldOrNew(m, f); }
  }

  /** While the header says that the copy is being written, a crash leaves an untrusted copy, whatever is pending. */
  lemma {:induction false} BlocksPending(m: Moment, p: Promise)
    requires HeaderOf(m.stable) == HeaderOf(m.cur) && View(m.stable) == None
    ensures Safe(m, p)
  {
    forall f | MayLeave(m, f) ensures View(f) == None {
      assert |f| >= HEADER_BYTES ==> f[..HEADER_BYTES] == HeaderOf(f) == HeaderOf(m.stable);
      assert |m.stable| >= HEADER_BYTES ==> m.stable[..HEADER_BYTES] == HeaderOf(m.stable);
    }
  }
}
