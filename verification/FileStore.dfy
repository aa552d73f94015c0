/** The local copy in a file: blocks and head are replaced together, also if the process or the machine stops. */
module FileStore {
  import opened Common
  import opened Snapshots
  import opened Header
  import opened Bitmap
  import opened FlatFile
  import opened CopyFile
  import opened Faults

  // ---------------------------------------------------------------------------------------------------------------
  // What the operations do to a copy
  // ---------------------------------------------------------------------------------------------------------------

  function Clip(m: map<nat, Block>, count: nat): map<nat, Block> { map i | i in m && i < count :: m[i] }

  /** The blocks after a write: the old ones and the given ones, as far as the database still has them. */
  function Written(m: map<nat, Block>, count: nat, ws: seq<BlockWrite>): map<nat, Block> {
    Clip(m + Overlay(ws), count)
  }

  /** The blocks after a catch-up: the old ones that did not change. */
  function Forgotten(m: map<nat, Block>, count: nat, changed: seq<nat>): map<nat, Block> {
    Clip(Without(m, changed), count)
  }

  function Without(m: map<nat, Block>, changed: seq<nat>): map<nat, Block> {
    map i | i in m && i !in changed :: m[i]
  }

  lemma {:induction false} WrittenOneMore(m: map<nat, Block>, count: nat, ws: seq<BlockWrite>, k: nat)
    requires k < |ws|
    ensures Written(m, count, ws[..k + 1]) ==
            if ws[k].index < count then Written(m, count, ws[..k])[ws[k].index := ws[k].data]
            else Written(m, count, ws[..k])
  {
    assert ws[..k + 1][..k] == ws[..k];
  }

  /** Blocks beyond the end do not matter. */
  lemma {:induction false} WrittenClips(m: map<nat, Block>, count: nat, ws: seq<BlockWrite>)
    ensures Written(Clip(m, count), count, ws) == Written(m, count, ws)
  {
  }

  /** Blocks a file has in place, whether or not they are marked. */
  ghost predicate InPlace(f: seq<Byte>, pageSize: nat, m: map<nat, Block>) {
    forall i <- m :: m[i] == RawBlock(f, i, pageSize)
  }

  lemma {:induction false} SameRawBlock(f: seq<Byte>, g: seq<Byte>, i: nat, pageSize: nat)
    requires forall k: nat :: BlockStart(i, pageSize) <= k < BlockStart(i, pageSize) + pageSize ==>
                                ByteAt(g, k) == ByteAt(f, k)
    ensures RawBlock(g, i, pageSize) == RawBlock(f, i, pageSize)
  {
  }

  /** Writing block `j` leaves the others in place. */
  lemma {:induction false} PutKeepsBlocks(f: seq<Byte>, pageSize: nat, m: map<nat, Block>, j: nat, data: Block)
    requires InPlace(f, pageSize, m) && |data| == pageSize
    ensures InPlace(PutAt(f, BlockStart(j, pageSize), data), pageSize, m[j := data])
  {
    var g, n := PutAt(f, BlockStart(j, pageSize), data), m[j := data];
    forall i <- n ensures n[i] == RawBlock(g, i, pageSize) {
      if i < j { BaseGrows(i, j, pageSize); }
      if j < i { BaseGrows(j, i, pageSize); }
      if i != j { SameRawBlock(f, g, i, pageSize); }
    }
  }

  /** The file once the bitmap is behind the last block and nothing behind the bitmap. */
  function WithBits(f: seq<Byte>, h: Head, bits: seq<Byte>): seq<Byte> {
    Resize(PutAt(f, BitsAt(h), bits), BitsAt(h) + |bits|)
  }

  lemma {:induction false} BitsKeepBlocks(f: seq<Byte>, h: Head, bits: seq<Byte>, m: map<nat, Block>)
    requires InPlace(f, h.pageSize, m) && (forall i <- m :: i < h.pageCount) && |bits| == BytesFor(h.pageCount)
    ensures InPlace(WithBits(f, h, bits), h.pageSize, m) && BitsOf(WithBits(f, h, bits), h) == bits
  {
    var g := WithBits(f, h, bits);
    forall i <- m ensures m[i] == RawBlock(g, i, h.pageSize) {
      BaseGrows(i, h.pageCount, h.pageSize);
      SameRawBlock(f, g, i, h.pageSize);
    }
  }

  /** A new header in front of a file does not change its blocks. */
  lemma {:induction false} HeaderKeepsBlocks(f: seq<Byte>, bytes: seq<Byte>, pageSize: nat, m: map<nat, Block>)
    requires |bytes| == HEADER_BYTES && InPlace(f, pageSize, m)
    ensures InPlace(bytes + BodyOf(f), pageSize, m)
  {
    var g := bytes + BodyOf(f);
    forall i <- m ensures m[i] == RawBlock(g, i, pageSize) {
      forall k: nat | BlockStart(i, pageSize) <= k ensures ByteAt(g, k) == ByteAt(f, k) {
        HeaderKeepsByte(f, bytes, k);
      }
      SameRawBlock(f, g, i, pageSize);
    }
  }

  lemma {:induction false} HeaderKeepsByte(f: seq<Byte>, bytes: seq<Byte>, k: nat)
    requires |bytes| == HEADER_BYTES <= k
    ensures ByteAt(bytes + BodyOf(f), k) == ByteAt(f, k)
  {
  }

  lemma {:induction false} HeaderKeepsBits(f: seq<Byte>, bytes: seq<Byte>, h: Head)
    requires |f| >= HEADER_BYTES && |bytes| == HEADER_BYTES
    ensures BitsOf(bytes + BodyOf(f), h) == BitsOf(f, h)
  {
    var g := bytes + BodyOf(f);
    assert |g| == |f| && forall k :: HEADER_BYTES <= k < |f| ==> g[k] == f[k];
  }

  /**
   * What a write under head `h` finds in the file: whatever lies in the place of the blocks that the bitmap marks, also
   * if the header says that the file is being written, or has blocks of another size.
   */
  function Residue(f: seq<Byte>, h: Head): map<nat, Block> {
    if ReadHeader(f).None? then map[]
    else
      var bits := BitsOf(f, ReadHeader(f).value.0);
      map i: nat | i < h.pageCount && HasBit(bits, i) :: RawBlock(f, i, h.pageSize)
  }

  // ---------------------------------------------------------------------------------------------------------------
  // The file, and every state it was in
  // ---------------------------------------------------------------------------------------------------------------

  /** In every state that was added, a crash leaves what was promised. */
  ghost predicate AddedSafe(before: set<Moment>, past: set<Moment>, p: Promise) {
    forall m <- past :: m in before || Safe(m, p)
  }

  class File {
    var now: Moment
    /** Whether the next operations fail; once there is nothing left in store, they do not. */
    var faults: seq<bool>
    ghost var past: set<Moment>

    constructor (f: seq<Byte>, faults: seq<bool>)
      ensures now == Moment(f, f, false) && past == {now} && this.faults == faults
    {
      now := Moment(f, f, false);
      this.faults := faults;
      past := {Moment(f, f, false)};
    }

    method Works() returns (ok: bool)
      modifies this`faults
      ensures Suffers(old(faults), faults, ok)
    {
      ok := faults == [] || !faults[0];
      ghost var n := if faults == [] then 0 else 1;
      if faults != [] { faults := faults[1..]; }
      assert Took(old(faults), faults, n, ok);
    }

    method WriteHeader(bytes: seq<Byte>) returns (ok: bool)
      requires |bytes| == HEADER_BYTES
      modifies this
      ensures now == old(now).(cur := now.cur) && past == old(past) + {now}
      ensures now.cur == bytes + BodyOf(old(now.cur)) || (!ok && now.cur == old(now.cur))
      ensures Suffers(old(faults), faults, ok)
    {
      ok := Works();
      var reached: bool := *;
      if ok || reached { now := now.(cur := bytes + BodyOf(now.cur)); }
      past := past + {now};
    }

    /** Writes behind the header. If it fails, anything may be there. */
    method WriteAt(at: nat, data: seq<Byte>) returns (ok: bool)
      requires HEADER_BYTES <= at && HEADER_BYTES <= |now.cur|
      modifies this
      ensures now == old(now).(cur := now.cur, dirty := true) && past == old(past) + {now}
      ensures |now.cur| >= HEADER_BYTES && HeaderOf(now.cur) == HeaderOf(old(now.cur))
      ensures ok ==> now.cur == PutAt(old(now.cur), at, data)
      ensures Suffers(old(faults), faults, ok)
    {
      ok := Works();
      var left: seq<Byte> := *;
      now := now.(cur := if ok then PutAt(now.cur, at, data) else HeaderOf(now.cur) + left, dirty := true);
      past := past + {now};
    }

    method SetLength(length: nat) returns (ok: bool)
      requires HEADER_BYTES <= length && HEADER_BYTES <= |now.cur|
      modifies this
      ensures now == old(now).(cur := now.cur, dirty := true) && past == old(past) + {now}
      ensures |now.cur| >= HEADER_BYTES && HeaderOf(now.cur) == HeaderOf(old(now.cur))
      ensures ok ==> now.cur == Resize(old(now.cur), length)
      ensures Suffers(old(faults), faults, ok)
    {
      ok := Works();
      var left: seq<Byte> := *;
      now := now.(cur := if ok then Resize(now.cur, length) else HeaderOf(now.cur) + left, dirty := true);
      past := past + {now};
    }

    method Sync() returns (ok: bool)
      modifies this
      ensures past == old(past) + {now}
      ensures now == if ok then Moment(old(now.cur), old(now.cur), false) else old(now)
      ensures Suffers(old(faults), faults, ok)
    {
      ok := Works();
      if ok { now := Moment(now.cur, now.cur, false); }
      past := past + {now};
    }

    method Remove() returns (ok: bool)
      modifies this
      ensures past == old(past) + {now}
      ensures now == if ok then Moment([], [], false) else old(now)
      ensures Suffers(old(faults), faults, ok)
    {
      ok := Works();
      if ok { now := Moment([], [], false); }
      past := past + {now};
    }
  }

  // ---------------------------------------------------------------------------------------------------------------
  // The store
  // ---------------------------------------------------------------------------------------------------------------

  /** Heads that survive the header. */
  predicate Proper(h: Head) {
    Fits(h) && 0 < h.pageSize <= MAX_PAGE_SIZE && h.pageCount <= MAX_PAGE_COUNT
  }

  function BlocksOf(v: Option<Copy>): map<nat, Block> { if v.None? then map[] else v.value.blocks }

  /** Files a copy with blocks of `pageSize` bytes may be written to: no header, or a trusted copy of that size. */
  ghost predicate Writable(f: seq<Byte>, pageSize: nat) {
    var header := ReadHeader(f);
    header.Some? ==>
      var h := header.value.0;
      header.value.1 == CLEAN && h.pageSize == pageSize && TailClear(BitsOf(f, h), h.pageCount)
  }

  ghost predicate Marks(bits: seq<Byte>, m: map<nat, Block>) { forall i: nat :: HasBit(bits, i) <==> i in m }

  /** A write to a trusted copy finds its blocks, as far as the database still has them. */
  lemma {:induction false} ResidueOfTrusted(f: seq<Byte>, h: Head)
    requires Writable(f, h.pageSize)
    ensures Residue(f, h) == Clip(BlocksOf(View(f)), h.pageCount)
  {
  }

  /** Such a file is one that is tidy, with a header only if it is trusted and of the right page size. */
  lemma {:induction false} TidyIsWritable(f: seq<Byte>, pageSize: nat)
    ensures Writable(f, pageSize) <==>
            Tidy(f) && (ReadHeader(f).Some? ==> View(f).Some? && View(f).value.head.pageSize == pageSize)
  {
  }

  /** A file whose bitmap marks what is in place shows it once its header says so, and is tidy. */
  lemma {:induction false} FinishedShows(f: seq<Byte>, h: Head, m: map<nat, Block>)
    requires |f| >= HEADER_BYTES && Proper(h) && (forall i <- m :: i < h.pageCount)
    requires Marks(BitsOf(f, h), m) && InPlace(f, h.pageSize, m)
    ensures var g := Encode(h, CLEAN) + BodyOf(f);
            View(g) == Some(Copy(h, m)) && Tidy(g) && BodyOf(g) == BodyOf(f)
  {
    var bytes := Encode(h, CLEAN);
    var g := bytes + BodyOf(f);
    HeaderRoundTrip(h, CLEAN);
    assert g[..HEADER_BYTES] == bytes;
    HeaderKeepsBits(f, bytes, h);
    HeaderKeepsBlocks(f, bytes, h.pageSize, m);
    assert BitsOf(g, h) == BitsOf(f, h);
    assert Shows(g, h, m);
    ShownIsViewed(g, h, m);
  }

  lemma {:induction false} BeingWritten(h: Head, body: seq<Byte>)
    requires 36 + |h.subject| + |h.dbId| <= HEADER_BYTES
    ensures View(Encode(h, WRITING) + body) == None
  {
    EncodedState(h, WRITING);
    assert (Encode(h, WRITING) + body)[..HEADER_BYTES] == Encode(h, WRITING);
  }

  /** The blocks from `first` on, at most `count`, up to the first missing one. */
  function RunOf(held: map<nat, Block>, first: nat, count: nat): seq<Block>
    decreases count
  {
    if count > 0 && first in held then [held[first]] + RunOf(held, first + 1, count - 1) else []
  }

  /** All of them are there, in order, and unless there are `count`, the next one is missing. */
  lemma {:induction false} RunOfIsLongest(held: map<nat, Block>, first: nat, count: nat, k: nat)
    ensures |RunOf(held, first, count)| <= count
    ensures k < |RunOf(held, first, count)| ==> first + k in held && RunOf(held, first, count)[k] == held[first + k]
    ensures |RunOf(held, first, count)| < count ==> first + |RunOf(held, first, count)| !in held
    decreases count
  {
    if count > 0 && first in held { RunOfIsLongest(held, first + 1, count - 1, if k == 0 then 0 else k - 1); }
  }

  /** Block `i`, if it is marked. */
  method ReadBlock(f: seq<Byte>, h: Head, i: nat) returns (data: Option<Block>)
    ensures data == if Marked(f, h, i) then Some(RawBlock(f, i, h.pageSize)) else None
  {
    var present := new Present.From(BitsOf(f, h));
    if i >= h.pageCount || !HasBit(present.bytes, i) { return None; }
    MarkedLies(f, h, i);
    data := Some(f[BlockStart(i, h.pageSize)..BlockStart(i, h.pageSize) + h.pageSize]);
  }

  /** The same run in terms of the file. */
  function RawRun(f: seq<Byte>, h: Head, first: nat, count: nat): seq<Block>
    decreases count
  {
    if count > 0 && Marked(f, h, first)
    then [RawBlock(f, first, h.pageSize)] + RawRun(f, h, first + 1, count - 1)
    else []
  }

  lemma {:induction false} ShownAt(f: seq<Byte>, h: Head, held: map<nat, Block>, i: nat)
    requires Shows(f, h, held)
    ensures i in held <==> Marked(f, h, i)
    ensures i in held ==> held[i] == RawBlock(f, i, h.pageSize)
  {
  }

  lemma {:induction false} RawRunIsShown(f: seq<Byte>, h: Head, held: map<nat, Block>, first: nat, count: nat)
    requires Shows(f, h, held)
    ensures RawRun(f, h, first, count) == RunOf(held, first, count)
    decreases count
  {
    ShownAt(f, h, held, first);
    if count > 0 && first in held {
      RawRunIsShown(f, h, held, first + 1, count - 1);
      var rest, block := RunOf(held, first + 1, count - 1), held[first];
      assert RawRun(f, h, first, count) == [block] + rest;
    }
  }

  /** `blocks` and the run from `i` on are the whole run. */
  ghost predicate SoFar(f: seq<Byte>, h: Head, i: nat, left: nat, blocks: seq<Block>, all: seq<Block>) {
    blocks + RawRun(f, h, i, left) == all
  }

  lemma {:induction false} RunGoesOn(f: seq<Byte>, h: Head, i: nat, left: nat, blocks: seq<Block>, all: seq<Block>)
    requires SoFar(f, h, i, left, blocks, all)
    ensures left > 0 && Marked(f, h, i) ==>
              SoFar(f, h, i + 1, left - 1, blocks + [RawBlock(f, i, h.pageSize)], all)
    ensures left == 0 || !Marked(f, h, i) ==> blocks == all
  {
  }

  method ReadRun(f: seq<Byte>, h: Head, first: nat, count: nat) returns (blocks: seq<Block>)
    ensures blocks == RawRun(f, h, first, count)
  {
    blocks := [];
    var i, left := first, count;
    ghost var all := RawRun(f, h, first, count);
    while left > 0
      invariant SoFar(f, h, i, left, blocks, all)
    {
      RunGoesOn(f, h, i, left, blocks, all);
      var data := ReadBlock(f, h, i);
      if data.None? { return; }
      blocks := blocks + [data.value];
      i, left := i + 1, left - 1;
    }
    RunGoesOn(f, h, i, left, blocks, all);
  }

  /** The header says that the copy is being written, on disk as well. */
  ghost predicate Guarded(now: Moment) {
    HeaderOf(now.stable) == HeaderOf(now.cur) && View(now.stable) == None && |now.cur| >= HEADER_BYTES
  }

  /** The blocks of `m` are in place, and `bits` marks exactly them. */
  ghost predicate Ready(f: seq<Byte>, h: Head, bits: seq<Byte>, m: map<nat, Block>) {
    Marks(bits, m) && InPlace(f, h.pageSize, m)
  }

  /** A block is there afterwards exactly if it was before, lies within the database and is not named; unchanged. */
  ghost predicate KeepsUnnamed(before: map<nat, Block>, after: map<nat, Block>, count: nat, changed: seq<nat>) {
    forall i: nat ::
      && (i in after <==> i in before && i < count && forall k :: 0 <= k < |changed| ==> changed[k] != i)
      && (i in after ==> after[i] == before[i])
  }

  /** `ws[k]` is the last write to block `i`. */
  predicate LastWrite(ws: seq<BlockWrite>, k: nat, i: nat) {
    k < |ws| && ws[k].index == i && forall j :: k < j < |ws| ==> ws[j].index != i
  }

  /**
   * A block is there afterwards exactly if it lies within the database and was before or is written; the last write to
   * it decides, and what is not written is unchanged.
   */
  ghost predicate Replaces(before: map<nat, Block>, after: map<nat, Block>, count: nat, ws: seq<BlockWrite>) {
    && (forall i: nat :: i in after <==> i < count && (i in before || exists k: nat :: LastWrite(ws, k, i)))
    && (forall i: nat, k: nat :: i < count && LastWrite(ws, k, i) ==> i in after && after[i] == ws[k].data)
    && (forall i: nat :: i in after && !(exists k: nat :: LastWrite(ws, k, i)) ==> i in before && after[i] == before[i])
  }

  lemma {:induction false} OverlayIsLast(ws: seq<BlockWrite>, i: nat)
    ensures i in Overlay(ws) <==> exists k: nat :: LastWrite(ws, k, i)
    ensures forall k: nat :: LastWrite(ws, k, i) ==> i in Overlay(ws) && Overlay(ws)[i] == ws[k].data
    decreases |ws|
  {
    if ws != [] {
      var n := |ws| - 1;
      OverlayIsLast(ws[..n], i);
      if ws[n].index == i { assert LastWrite(ws, n, i); }
      forall k: nat | k < n ensures LastWrite(ws[..n], k, i) && ws[n].index != i <==> LastWrite(ws, k, i) { }
    }
  }

  lemma {:induction false} WrittenReplaces(f: seq<Byte>, h: Head, ws: seq<BlockWrite>)
    requires Writable(f, h.pageSize)
    ensures Replaces(BlocksOf(View(f)), Written(Residue(f, h), h.pageCount, ws), h.pageCount, ws)
  {
    ResidueOfTrusted(f, h);
    forall i: nat { OverlayIsLast(ws, i); }
  }

  lemma {:induction false} ForgottenKeeps(f: seq<Byte>, h: Head, changed: seq<nat>)
    requires Writable(f, h.pageSize)
    ensures KeepsUnnamed(BlocksOf(View(f)), Without(Residue(f, h), changed), h.pageCount, changed)
  {
    ResidueOfTrusted(f, h);
  }

  predicate Sized(ws: seq<BlockWrite>, pageSize: nat) { forall w <- ws :: |w.data| == pageSize }

  method Unmark(present: Present, changed: seq<nat>, ghost m: map<nat, Block>)
    requires Marks(present.bytes, m)
    modifies present
    ensures |present.bytes| == |old(present.bytes)| && Marks(present.bytes, Without(m, changed))
  {
    var k := 0;
    while k < |changed|
      invariant 0 <= k <= |changed| && |present.bytes| == |old(present.bytes)|
      invariant Marks(present.bytes, Without(m, changed[..k]))
    {
      assert changed[..k + 1] == changed[..k] + [changed[k]];
      present.Mark(changed[k], false);
      k := k + 1;
    }
    assert changed[..k] == changed;
  }

  class Store {
    const file: File

    constructor (file: File)
      ensures this.file == file
    {
      this.file := file;
    }

    /** The head, unless there is no copy or it is not trusted. */
    method Head() returns (ok: bool, head: Option<Head>)
      modifies file`faults
      ensures Suffers(old(file.faults), file.faults, ok)
      ensures ok ==> (head.Some? <==> View(file.now.cur).Some?)
      ensures head.Some? ==> View(file.now.cur).Some? && head.value == View(file.now.cur).value.head
    {
      ok := file.Works();
      if !ok { return false, None; }
      var header := ReadHeader(file.now.cur);
      head := if header.Some? && header.value.1 == CLEAN then Some(header.value.0) else None;
    }

    /** The blocks from `first` on, at most `count`, up to the first missing one; none of a copy that is not trusted. */
    method Read(first: nat, count: nat) returns (ok: bool, blocks: seq<Block>)
      modifies file`faults
      ensures Suffers(old(file.faults), file.faults, ok)
      ensures ok ==> blocks == RunOf(BlocksOf(View(file.now.cur)), first, count)
    {
      ok := file.Works();
      if !ok { return false, []; }
      var f := file.now.cur;
      var header := ReadHeader(f);
      if header.None? || header.value.1 != CLEAN { return true, []; }
      ghost var held := BlocksOf(View(f));
      ShownIsViewed(f, header.value.0, held);
      RawRunIsShown(f, header.value.0, held, first, count);
      blocks := ReadRun(f, header.value.0, first, count);
    }

    /** Marks the header as being written, before anything else changes. */
    method Begin(stale: Head, ghost p: Promise) returns (ok: bool)
      requires 36 + |stale.subject| + |stale.dbId| <= HEADER_BYTES && Settled(file.now) && Keeps(p, file.now.cur)
      modifies file
      ensures file.now in file.past && AddedSafe(old(file.past), file.past, p)
      ensures ok ==> Settled(file.now) && Guarded(file.now)
      ensures ok ==> file.now.cur == Encode(stale, WRITING) + BodyOf(old(file.now.cur))
      ensures Suffers(old(file.faults), file.faults, ok)
    {
      BeingWritten(stale, BodyOf(file.now.cur));
      ok := file.WriteHeader(Encode(stale, WRITING));
      HeaderPending(file.now, p);
      if !ok { return; }
      ghost var faults := file.faults;
      ok := file.Sync();
      SuffersOn(old(file.faults), faults, file.faults, ok);
      HeaderPending(file.now, p);
    }

    /** Writes one block and marks it. */
    method WriteBlock(h: Head, w: BlockWrite, present: Present, ghost m: map<nat, Block>, ghost p: Promise)
        returns (ok: bool)
      requires Guarded(file.now) && w.index / 8 < |present.bytes| && |w.data| == h.pageSize
      requires Ready(file.now.cur, h, present.bytes, m)
      modifies file, present
      ensures Guarded(file.now) && file.now in file.past && AddedSafe(old(file.past), file.past, p)
      ensures |present.bytes| == |old(present.bytes)|
      ensures ok ==> Ready(file.now.cur, h, present.bytes, m[w.index := w.data])
      ensures Suffers(old(file.faults), file.faults, ok)
    {
      PutKeepsBlocks(file.now.cur, h.pageSize, m, w.index, w.data);
      ok := file.WriteAt(BlockStart(w.index, h.pageSize), w.data);
      BlocksPending(file.now, p);
      if ok { present.Mark(w.index, true); }
    }

    /** Writes the blocks that lie within the database, and marks them. */
    method WriteBlocks(h: Head, ws: seq<BlockWrite>, present: Present, ghost m: map<nat, Block>, ghost p: Promise)
        returns (ok: bool)
      requires Guarded(file.now) && file.now in file.past
      requires |present.bytes| == BytesFor(h.pageCount) && Sized(ws, h.pageSize)
      requires Ready(file.now.cur, h, present.bytes, Written(m, h.pageCount, []))
      modifies file, present
      ensures Guarded(file.now) && file.now in file.past && AddedSafe(old(file.past), file.past, p)
      ensures |present.bytes| == BytesFor(h.pageCount)
      ensures ok ==> Ready(file.now.cur, h, present.bytes, Written(m, h.pageCount, ws))
      ensures Suffers(old(file.faults), file.faults, ok)
    {
      var k := 0;
      SuffersNothing(file.faults);
      while k < |ws|
        invariant 0 <= k <= |ws| && |present.bytes| == BytesFor(h.pageCount)
        invariant Guarded(file.now) && file.now in file.past && AddedSafe(old(file.past), file.past, p)
        invariant Suffers(old(file.faults), file.faults, true)
        invariant Ready(file.now.cur, h, present.bytes, Written(m, h.pageCount, ws[..k]))
      {
        WrittenOneMore(m, h.pageCount, ws, k);
        if ws[k].index < h.pageCount {
          ghost var faults := file.faults;
          ok := WriteBlock(h, ws[k], present, Written(m, h.pageCount, ws[..k]), p);
          SuffersOn(old(file.faults), faults, file.faults, ok);
          if !ok { return; }
        }
        k := k + 1;
      }
      assert ws[..k] == ws;
      ok := true;
    }

    /** Writes the bitmap and waits until it is stored with the blocks. */
    method Seal(h: Head, present: Present, ghost p: Promise) returns (ok: bool)
      requires Guarded(file.now) && |present.bytes| == BytesFor(h.pageCount)
      modifies file
      ensures Guarded(file.now) && file.now in file.past && AddedSafe(old(file.past), file.past, p)
      ensures ok ==> Settled(file.now) && file.now.cur == WithBits(old(file.now.cur), h, present.bytes)
      ensures Suffers(old(file.faults), file.faults, ok)
    {
      ok := file.WriteAt(BitsAt(h), present.bytes);
      BlocksPending(file.now, p);
      if !ok { return; }
      ghost var faults := file.faults;
      ok := file.SetLength(BitsAt(h) + |present.bytes|);
      SuffersOn(old(file.faults), faults, file.faults, ok);
      BlocksPending(file.now, p);
      if !ok { return; }
      faults := file.faults;
      ok := file.Sync();
      SuffersOn(old(file.faults), faults, file.faults, ok);
      BlocksPending(file.now, p);
    }

    /** Writes the bitmap, and once it is stored with the blocks, the new head. */
    method Finish(h: Head, present: Present, ghost m: map<nat, Block>, ghost p: Promise) returns (ok: bool)
      requires Guarded(file.now) && Proper(h) && |present.bytes| == BytesFor(h.pageCount)
      requires Ready(file.now.cur, h, present.bytes, m) && forall i <- m :: i < h.pageCount
      requires p.after == Some(Copy(h, m))
      modifies file
      ensures file.now in file.past && AddedSafe(old(file.past), file.past, p)
      ensures ok ==> Settled(file.now) && View(file.now.cur) == p.after && Tidy(file.now.cur)
      ensures Suffers(old(file.faults), file.faults, ok)
    {
      BitsKeepBlocks(file.now.cur, h, present.bytes, m);
      ok := Seal(h, present, p);
      if !ok { return; }
      FinishedShows(file.now.cur, h, m);
      ghost var faults := file.faults;
      ok := file.WriteHeader(Encode(h, CLEAN));
      SuffersOn(old(file.faults), faults, file.faults, ok);
      HeaderPending(file.now, p);
      if !ok { return; }
      faults := file.faults;
      ok := file.Sync();
      SuffersOn(old(file.faults), faults, file.faults, ok);
      HeaderPending(file.now, p);
    }

    /** The bitmap for the new page count, from the old header if there is one. */
    method Resized(before: Option<Head>, h: Head) returns (present: Present)
      requires before == match ReadHeader(file.now.cur) case None => None case Some(header) => Some(header.0)
      ensures fresh(present) && |present.bytes| == BytesFor(h.pageCount)
      ensures Ready(file.now.cur, h, present.bytes, Residue(file.now.cur, h))
    {
      if before.None? {
        present := new Present.Empty(h.pageCount);
      } else {
        var was := new Present.From(BitsOf(file.now.cur, before.value));
        present := was.Resized(h.pageCount);
      }
    }

    /**
     * Writes blocks and the new head. A crash at any moment leaves the copy in its previous state, in the new one, or
     * untrusted, and a tidy file stays tidy. Over a file that is not a trusted copy with blocks of this size, the new
     * copy takes whatever that file marks; the session removes such a file first.
     */
    method Write(h: Head, ws: seq<BlockWrite>) returns (ok: bool)
      requires Proper(h) && Sized(ws, h.pageSize) && Settled(file.now)
      modifies file
      ensures var f := old(file.now.cur);
              var p := Promise(View(f), Some(Copy(h, Written(Residue(f, h), h.pageCount, ws))), Tidy(f));
              && AddedSafe(old(file.past), file.past, p) && file.now in file.past
              && (ok ==> Settled(file.now) && View(file.now.cur) == p.after && Tidy(file.now.cur))
              && (ok && Writable(f, h.pageSize) ==>
                    View(file.now.cur).Some? && View(file.now.cur).value.head == h &&
                    Replaces(BlocksOf(View(f)), BlocksOf(View(file.now.cur)), h.pageCount, ws))
      ensures Suffers(old(file.faults), file.faults, ok)
    {
      ghost var f := file.now.cur;
      ghost var m := Residue(f, h);
      ghost var p := Promise(View(f), Some(Copy(h, Written(m, h.pageCount, ws))), Tidy(f));
      var header := ReadHeader(file.now.cur);
      var before := if header.None? then None else Some(header.value.0);
      var present := Resized(before, h);
      var stale := if before.None? then h.(version := 0) else before.value;
      ok := Begin(stale, p);
      if !ok { return; }
      HeaderKeepsBlocks(f, Encode(stale, WRITING), h.pageSize, m);
      ghost var faults := file.faults;
      ok := WriteRest(h, ws, present, m, p);
      SuffersOn(old(file.faults), faults, file.faults, ok);
      if ok && Writable(f, h.pageSize) { WrittenReplaces(f, h, ws); }
    }

    /** Everything after the header that says writing: the blocks, the bitmap and the new header. */
    method WriteRest(h: Head, ws: seq<BlockWrite>, present: Present, ghost m: map<nat, Block>, ghost p: Promise)
        returns (ok: bool)
      requires Guarded(file.now) && file.now in file.past && Proper(h)
      requires |present.bytes| == BytesFor(h.pageCount) && Sized(ws, h.pageSize)
      requires Ready(file.now.cur, h, present.bytes, m) && (forall i <- m :: i < h.pageCount)
      requires p.after == Some(Copy(h, Written(m, h.pageCount, ws)))
      modifies file, present
      ensures AddedSafe(old(file.past), file.past, p) && file.now in file.past
      ensures ok ==> Settled(file.now) && View(file.now.cur) == p.after && Tidy(file.now.cur)
      ensures Suffers(old(file.faults), file.faults, ok)
    {
      assert Written(m, h.pageCount, []) == m;
      ok := WriteBlocks(h, ws, present, m, p);
      if !ok { return; }
      ghost var faults := file.faults;
      ok := Finish(h, present, Written(m, h.pageCount, ws), p);
      SuffersOn(old(file.faults), faults, file.faults, ok);
    }

    /** Removes the given blocks and sets the new head; all other blocks stay. A crash behaves as for `Write`. */
    method Forget(h: Head, changed: seq<nat>) returns (ok: bool)
      requires Proper(h) && Settled(file.now) && file.now in file.past
      modifies file
      ensures var f := old(file.now.cur);
              var p := Promise(View(f), Some(Copy(h, Without(Residue(f, h), changed))), Tidy(f));
              && AddedSafe(old(file.past), file.past, p) && file.now in file.past
              && (ok ==> Settled(file.now) && View(file.now.cur) == p.after && Tidy(file.now.cur))
              && (ReadHeader(f).None? ==> !ok && file.now == old(file.now))
              && (ReadHeader(f).Some? ==> Suffers(old(file.faults), file.faults, ok))
              && (ok && Writable(f, h.pageSize) ==>
                    View(file.now.cur).Some? && View(file.now.cur).value.head == h &&
                    KeepsUnnamed(BlocksOf(View(f)), BlocksOf(View(file.now.cur)), h.pageCount, changed))
    {
      var header := ReadHeader(file.now.cur);
      if header.None? { return false; }
      ghost var f := file.now.cur;
      ghost var m := Residue(f, h);
      ghost var p := Promise(View(f), Some(Copy(h, Without(m, changed))), Tidy(f));
      var present := Resized(Some(header.value.0), h);
      Unmark(present, changed, m);
      ok := Begin(header.value.0, p);
      if !ok { return; }
      HeaderKeepsBlocks(f, Encode(header.value.0, WRITING), h.pageSize, m);
      ghost var faults := file.faults;
      ok := Finish(h, present, Without(m, changed), p);
      SuffersOn(old(file.faults), faults, file.faults, ok);
      if ok && Writable(f, h.pageSize) { ForgottenKeeps(f, h, changed); }
    }

    /** Removes the file. */
    method Clear() returns (ok: bool)
      modifies file
      ensures ok ==> Settled(file.now) && ReadHeader(file.now.cur) == None && Tidy(file.now.cur)
      ensures !ok ==> file.now == old(file.now)
      ensures Suffers(old(file.faults), file.faults, ok)
    {
      ok := file.Remove();
    }
  }
}
