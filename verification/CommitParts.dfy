/** Splitting a commit into frames, and the size of the frames in the Protocol Buffers encoding. */
module CommitParts {
  import opened Common
  import opened Snapshots
  import opened FlatFile
  import opened Wire
  import Header
  import Protocol

  const COMMIT_FRAME_OVERHEAD: nat := 256
  const COMMIT_BLOCK_OVERHEAD: nat := 16
  /** What the fields around the blocks take at most. */
  const FIELDS: nat := 207

  datatype Part = Part(dbId: seq<Byte>, commitId: seq<Byte>, epoch: nat, base: nat, count: nat,
                       blocks: seq<BlockWrite>, more: bool, part: nat)

  // ---------------------------------------------------------------------------------------------------------------
  // Chunks
  // ---------------------------------------------------------------------------------------------------------------

  /** `n` blocks at a time; the last chunk has what is left. */
  function Chunks(blocks: seq<BlockWrite>, n: nat): (chunks: seq<seq<BlockWrite>>)
    requires n > 0
  {
    if blocks == [] then []
    else if |blocks| <= n then [blocks]
    else [blocks[..n]] + Chunks(blocks[n..], n)
  }

  lemma {:induction false} FlattenCons<T>(first: seq<T>, rest: seq<seq<T>>)
    ensures Flatten([first] + rest) == first + Flatten(rest)
    decreases |rest|
  {
    if rest == [] {
      assert [first] + rest == [first] && [first][..0] == [];
    } else {
      var n := |rest| - 1;
      assert ([first] + rest)[..n + 1] == [first] + rest[..n];
      FlattenCons(first, rest[..n]);
    }
  }

  lemma {:induction false} ChunksPartition(blocks: seq<BlockWrite>, n: nat)
    requires n > 0
    ensures var chunks := Chunks(blocks, n);
            && Flatten(chunks) == blocks && (chunks == [] <==> blocks == [])
            && forall k :: 0 <= k < |chunks| ==> 0 < |chunks[k]| <= n && (k < |chunks| - 1 ==> |chunks[k]| == n)
    decreases |blocks|
  {
    if blocks == [] {
    } else if |blocks| <= n {
      assert [blocks][..0] == [];
    } else {
      ChunksPartition(blocks[n..], n);
      FlattenCons(blocks[..n], Chunks(blocks[n..], n));
    }
  }

  // ---------------------------------------------------------------------------------------------------------------
  // The modified blocks in index order
  // ---------------------------------------------------------------------------------------------------------------

  lemma {:induction false} HasLargest(s: set<nat>)
    requires s != {}
    ensures exists i :: i in s && forall j <- s :: j <= i
    decreases |s|
  {
    var x :| x in s;
    if s == {x} {
    } else {
      assert s - {x} != {};
      HasLargest(s - {x});
      var i :| i in s - {x} && forall j <- s - {x} :: j <= i;
      var m := Max(i, x);
      assert m in s && forall j <- s :: j == x || j in s - {x};
    }
  }

  function Largest(s: set<nat>): (i: nat)
    requires s != {}
    ensures i in s && forall j <- s :: j <= i
  {
    HasLargest(s);
    var i :| i in s && forall j <- s :: j <= i;
    i
  }

  lemma {:induction false} WithoutOne(dirty: map<nat, Block>, i: nat)
    requires i in dirty
    ensures |dirty - {i}| == |dirty| - 1 && (dirty - {i})[i := dirty[i]] == dirty
  {
    assert (dirty - {i}).Keys == dirty.Keys - {i};
  }

  function InOrder(dirty: map<nat, Block>): (blocks: seq<BlockWrite>)
    ensures |blocks| == |dirty|
    decreases |dirty|
  {
    if dirty == map[] then []
    else
      var i := Largest(dirty.Keys);
      WithoutOne(dirty, i);
      InOrder(dirty - {i}) + [BlockWrite(i, dirty[i])]
  }

  ghost predicate Ascending(blocks: seq<BlockWrite>) {
    forall a, b :: 0 <= a < b < |blocks| ==> blocks[a].index < blocks[b].index
  }

  /** The blocks are those of `dirty`, in index order. */
  ghost predicate IsOrdered(blocks: seq<BlockWrite>, dirty: map<nat, Block>) {
    && Ascending(blocks) && Overlay(blocks) == dirty
    && forall b <- blocks :: b.index in dirty && dirty[b.index] == b.data
  }

  lemma {:induction false} OneMoreBlock(blocks: seq<BlockWrite>, rest: map<nat, Block>, i: nat, data: Block)
    requires IsOrdered(blocks, rest) && forall j <- rest :: j < i
    ensures IsOrdered(blocks + [BlockWrite(i, data)], rest[i := data])
  {
    var all := blocks + [BlockWrite(i, data)];
    assert all[..|all| - 1] == blocks;
    forall a, b | 0 <= a < b < |all| ensures all[a].index < all[b].index { assert all[a] in blocks; }
  }

  /** Each modified block is there once, in index order, and together they are all. */
  lemma {:induction false} InOrderIsAll(dirty: map<nat, Block>)
    ensures IsOrdered(InOrder(dirty), dirty)
    decreases |dirty|
  {
    if dirty == map[] {
    } else {
      var i := Largest(dirty.Keys);
      var rest := dirty - {i};
      WithoutOne(dirty, i);
      InOrderIsAll(rest);
      OneMoreBlock(InOrder(rest), rest, i, dirty[i]);
    }
  }

  // ---------------------------------------------------------------------------------------------------------------
  // Parts
  // ---------------------------------------------------------------------------------------------------------------

  function PerPart(maxFrame: nat, pageSize: nat): nat {
    Max(Max(maxFrame - COMMIT_FRAME_OVERHEAD, 0) / (pageSize + COMMIT_BLOCK_OVERHEAD), 1)
  }

  /** The parts of a commit of the modified blocks, in index order; one without blocks if only the size changed. */
  function Parts(dbId: seq<Byte>, commitId: seq<Byte>, epoch: nat, base: nat, count: nat, dirty: map<nat, Block>,
                 pageSize: nat, maxFrame: nat): seq<Part>
  {
    var chunks := if dirty == map[] then [[]] else Chunks(InOrder(dirty), PerPart(maxFrame, pageSize));
    seq(|chunks|, k requires 0 <= k < |chunks| =>
      Part(dbId, commitId, epoch, base, count, chunks[k], k + 1 < |chunks|, k))
  }

  function BlocksOfParts(parts: seq<Part>): (blocks: seq<seq<BlockWrite>>)
    ensures |blocks| == |parts| && forall k :: 0 <= k < |parts| ==> blocks[k] == parts[k].blocks
  {
    seq(|parts|, k requires 0 <= k < |parts| => parts[k].blocks)
  }

  /**
   * The parts carry the modified blocks once each and in index order, and joined they leave behind just those. They
   * have consecutive numbers and the same fields, and say that more follow except in the last one.
   */
  lemma {:induction false} PartsPartition(dbId: seq<Byte>, commitId: seq<Byte>, epoch: nat, base: nat, count: nat,
                                          dirty: map<nat, Block>, pageSize: nat, maxFrame: nat)
    ensures var parts := Parts(dbId, commitId, epoch, base, count, dirty, pageSize, maxFrame);
            && parts != []
            && Ascending(Flatten(BlocksOfParts(parts))) && Overlay(Flatten(BlocksOfParts(parts))) == dirty
            && forall k :: 0 <= k < |parts| ==>
                 && parts[k].part == k && (parts[k].more <==> k < |parts| - 1)
                 && parts[k].commitId == commitId && parts[k].epoch == epoch && parts[k].base == base
                 && parts[k].count == count && parts[k].dbId == dbId
                 && |parts[k].blocks| <= PerPart(maxFrame, pageSize) && (dirty != map[] ==> parts[k].blocks != [])
                 && (parts[k].more ==> |parts[k].blocks| == PerPart(maxFrame, pageSize))
  {
    var parts := Parts(dbId, commitId, epoch, base, count, dirty, pageSize, maxFrame);
    InOrderIsAll(dirty);
    PartsJoined(dbId, commitId, epoch, base, count, dirty, pageSize, maxFrame);
    if dirty != map[] { ChunksPartition(InOrder(dirty), PerPart(maxFrame, pageSize)); }
  }

  lemma {:induction false} PartsJoined(dbId: seq<Byte>, commitId: seq<Byte>, epoch: nat, base: nat, count: nat,
                                       dirty: map<nat, Block>, pageSize: nat, maxFrame: nat)
    ensures var parts := Parts(dbId, commitId, epoch, base, count, dirty, pageSize, maxFrame);
            parts != [] && Flatten(BlocksOfParts(parts)) == InOrder(dirty)
  {
    var parts := Parts(dbId, commitId, epoch, base, count, dirty, pageSize, maxFrame);
    if dirty == map[] {
      assert BlocksOfParts(parts) == [[]];
      assert Flatten(BlocksOfParts(parts)[..0]) == [];
    } else {
      ChunksPartition(InOrder(dirty), PerPart(maxFrame, pageSize));
      assert BlocksOfParts(parts) == Chunks(InOrder(dirty), PerPart(maxFrame, pageSize));
    }
  }

  /** A client that has something to commit can begin it with these parts. */
  lemma {:induction false} PartsBeginACommit(s: Protocol.State, c: Protocol.SessionId, id: Session.CommitId,
                                             connected: bool, dbId: seq<Byte>, commitId: seq<Byte>, pageSize: nat,
                                             maxFrame: nat)
    requires Protocol.Usable(s, c) && !Session.IsClean(s.clients[c].mem) && id !in s.w.calls
    ensures var cl := s.clients[c];
            var dirty := Session.DirtyBlocks(cl.mem);
            var parts := Parts(dbId, commitId, cl.epoch, cl.version, cl.mem.count, dirty, pageSize, maxFrame);
            Protocol.Enabled(s, Protocol.BeginCommit(c, id, BlocksOfParts(parts), connected))
  {
    var cl := s.clients[c];
    PartsPartition(dbId, commitId, cl.epoch, cl.version, cl.mem.count, Session.DirtyBlocks(cl.mem), pageSize, maxFrame);
  }

  // ---------------------------------------------------------------------------------------------------------------
  // Encoding
  // ---------------------------------------------------------------------------------------------------------------

  function EncodeBlock(b: BlockWrite): seq<Byte> { NumberField(1, b.index) + BytesField(2, b.data) }

  function EncodeBlocks(blocks: seq<BlockWrite>): seq<Byte> {
    if blocks == [] then []
    else EncodeBlocks(blocks[..|blocks| - 1]) + MessageField(6, EncodeBlock(blocks[|blocks| - 1]))
  }

  function EncodePart(p: Part): seq<Byte> {
    BytesField(1, p.dbId) + BytesField(2, p.commitId) + NumberField(3, p.epoch) + NumberField(4, p.base) +
    NumberField(5, p.count) + EncodeBlocks(p.blocks) + NumberField(7, if p.more then 1 else 0) + NumberField(8, p.part)
  }

  function EncodeFrame(requestId: nat, p: Part): seq<Byte> {
    NumberField(1, requestId) + MessageField(13, EncodePart(p))
  }

  // ---------------------------------------------------------------------------------------------------------------
  // Decoding
  // ---------------------------------------------------------------------------------------------------------------

  /** A later value of a field replaces an earlier one; fields that a message does not know are skipped. */
  function MergeBlock(b: BlockWrite, f: Field): BlockWrite {
    match f
    case Number(field, n) => if field == 1 then b.(index := n) else b
    case Bytes(field, bytes) => if field == 2 then b.(data := bytes) else b
  }

  function MergeBlockAll(b: BlockWrite, fields: seq<Field>): BlockWrite
    decreases |fields|
  {
    if fields == [] then b else MergeBlockAll(MergeBlock(b, fields[0]), fields[1..])
  }

  function DecodeBlock(bytes: seq<Byte>): Option<BlockWrite> {
    var fields := ReadFields(bytes);
    if fields.None? then None else Some(MergeBlockAll(BlockWrite(0, []), fields.value))
  }

  const EMPTY_PART: Part := Part([], [], 0, 0, 0, [], false, 0)

  function MergePart(p: Part, f: Field): Option<Part> {
    match f
    case Number(field, n) =>
      Some(if field == 3 then p.(epoch := n) else if field == 4 then p.(base := n)
           else if field == 5 then p.(count := n) else if field == 7 then p.(more := n != 0)
           else if field == 8 then p.(part := n) else p)
    case Bytes(field, bytes) =>
      if field == 6 then
        var block := DecodeBlock(bytes);
        if block.None? then None else Some(p.(blocks := p.blocks + [block.value]))
      else Some(if field == 1 then p.(dbId := bytes) else if field == 2 then p.(commitId := bytes) else p)
  }

  function MergePartAll(p: Option<Part>, fields: seq<Field>): Option<Part>
    decreases |fields|
  {
    if p.None? || fields == [] then p else MergePartAll(MergePart(p.value, fields[0]), fields[1..])
  }

  function DecodePart(bytes: seq<Byte>): Option<Part> {
    var fields := ReadFields(bytes);
    if fields.None? then None else MergePartAll(Some(EMPTY_PART), fields.value)
  }

  /** The id of the request and the commit in it, if the frame is one of a commit. */
  function DecodeFrame(bytes: seq<Byte>): Option<(nat, Part)> {
    var fields := ReadFields(bytes);
    if fields.None? || |fields.value| != 2 then None
    else if !fields.value[0].Number? || fields.value[0].field != 1 then None
    else if !fields.value[1].Bytes? || fields.value[1].field != 13 then None
    else
      var part := DecodePart(fields.value[1].bytes);
      if part.None? then None else Some((fields.value[0].n, part.value))
  }

  lemma {:induction false} BlockRoundTrip(b: BlockWrite)
    ensures DecodeBlock(EncodeBlock(b)) == Some(b)
  {
    var x, y := NumberFields(1, b.index), BytesFields(2, b.data);
    NumberIsRead(1, b.index);
    BytesAreRead(2, b.data);
    ReadsBoth(NumberField(1, b.index), x, BytesField(2, b.data), y);
    ReadsWhole(EncodeBlock(b), x + y);
    var none := BlockWrite(0, []);
    MergeBlockSplits(none, x, y);
    OneMergesBlock(none, if x == [] then Number(0, 0) else x[0]);
    OneMergesBlock(none.(index := b.index), if y == [] then Number(0, 0) else y[0]);
  }

  lemma {:induction false} MergeBlockSplits(b: BlockWrite, x: seq<Field>, y: seq<Field>)
    ensures MergeBlockAll(b, x + y) == MergeBlockAll(MergeBlockAll(b, x), y)
    decreases |x|
  {
    if x == [] {
      assert x + y == y;
    } else {
      assert (x + y)[1..] == x[1..] + y;
      MergeBlockSplits(MergeBlock(b, x[0]), x[1..], y);
    }
  }

  lemma {:induction false} OneMergesBlock(b: BlockWrite, f: Field)
    ensures MergeBlockAll(b, [f]) == MergeBlock(b, f)
  {
    assert [f][1..] == [];
  }

  lemma {:induction false} MergePartSplits(p: Option<Part>, x: seq<Field>, y: seq<Field>)
    ensures MergePartAll(p, x + y) == MergePartAll(MergePartAll(p, x), y)
    decreases |x|
  {
    if x == [] || p.None? {
      assert x == [] ==> x + y == y;
    } else {
      assert (x + y)[1..] == x[1..] + y;
      MergePartSplits(MergePart(p.value, x[0]), x[1..], y);
    }
  }

  lemma {:induction false} OneMergesPart(p: Part, f: Field)
    ensures MergePartAll(Some(p), [f]) == MergePart(p, f)
  {
    assert [f][1..] == [];
  }

  /** Reading `bytes` after what made `p` makes `q` of it. */
  ghost predicate Adds(bytes: seq<Byte>, fields: seq<Field>, p: Part, q: Part) {
    Reads(bytes, fields) && MergePartAll(Some(p), fields) == Some(q)
  }

  lemma {:induction false} AddsBoth(x: seq<Byte>, fx: seq<Field>, y: seq<Byte>, fy: seq<Field>, p: Part, q: Part,
                                    r: Part)
    requires Adds(x, fx, p, q) && Adds(y, fy, q, r)
    ensures Adds(x + y, fx + fy, p, r)
  {
    ReadsBoth(x, fx, y, fy);
    MergePartSplits(Some(p), fx, fy);
  }

  lemma {:induction false} AddsNumber(field: nat, n: nat, p: Part, q: Part)
    requires 0 < field < 16 && (if n == 0 then q == p else MergePart(p, Number(field, n)) == Some(q))
    ensures Adds(NumberField(field, n), NumberFields(field, n), p, q)
  {
    NumberIsRead(field, n);
    OneMergesPart(p, Number(field, n));
  }

  lemma {:induction false} AddsBytes(field: nat, bytes: seq<Byte>, p: Part, q: Part)
    requires 0 < field < 16 && (if bytes == [] then q == p else MergePart(p, Bytes(field, bytes)) == Some(q))
    ensures Adds(BytesField(field, bytes), BytesFields(field, bytes), p, q)
  {
    BytesAreRead(field, bytes);
    OneMergesPart(p, Bytes(field, bytes));
  }

  function BlockFields(blocks: seq<BlockWrite>): seq<Field> {
    if blocks == [] then []
    else BlockFields(blocks[..|blocks| - 1]) + [Bytes(6, EncodeBlock(blocks[|blocks| - 1]))]
  }

  lemma {:induction false} AddsBlock(b: BlockWrite, p: Part)
    ensures Adds(MessageField(6, EncodeBlock(b)), [Bytes(6, EncodeBlock(b))], p, p.(blocks := p.blocks + [b]))
  {
    MessageIsRead(6, EncodeBlock(b));
    BlockRoundTrip(b);
    OneMergesPart(p, Bytes(6, EncodeBlock(b)));
  }

  lemma {:induction false} AddsBlocks(blocks: seq<BlockWrite>, p: Part)
    requires p.blocks == []
    ensures Adds(EncodeBlocks(blocks), BlockFields(blocks), p, p.(blocks := blocks))
    decreases |blocks|
  {
    if blocks == [] {
      NothingIsRead();
    } else {
      var n := |blocks| - 1;
      var b, q := blocks[n], p.(blocks := blocks[..n]);
      AddsBlocks(blocks[..n], p);
      AddsBlock(b, q);
      assert q.(blocks := q.blocks + [b]) == p.(blocks := blocks) by { assert blocks == blocks[..n] + [b]; }
      AddsBoth(EncodeBlocks(blocks[..n]), BlockFields(blocks[..n]), MessageField(6, EncodeBlock(b)),
               [Bytes(6, EncodeBlock(b))], p, q, p.(blocks := blocks));
    }
  }

  /** The fields in front of the blocks. */
  lemma {:induction false} FrontIsRead(p: Part) returns (fields: seq<Field>)
    ensures Adds(BytesField(1, p.dbId) + BytesField(2, p.commitId) + NumberField(3, p.epoch) + NumberField(4, p.base) +
                 NumberField(5, p.count), fields, EMPTY_PART, p.(blocks := [], more := false, part := 0))
  {
    var a := EMPTY_PART.(dbId := p.dbId);
    var b := a.(commitId := p.commitId);
    var c := b.(epoch := p.epoch);
    var d := c.(base := p.base);
    AddsBytes(1, p.dbId, EMPTY_PART, a);
    AddsBytes(2, p.commitId, a, b);
    AddsNumber(3, p.epoch, b, c);
    AddsNumber(4, p.base, c, d);
    AddsNumber(5, p.count, d, d.(count := p.count));
    var bytes := BytesField(1, p.dbId);
    fields := BytesFields(1, p.dbId);
    AddsBoth(bytes, fields, BytesField(2, p.commitId), BytesFields(2, p.commitId), EMPTY_PART, a, b);
    bytes, fields := bytes + BytesField(2, p.commitId), fields + BytesFields(2, p.commitId);
    AddsBoth(bytes, fields, NumberField(3, p.epoch), NumberFields(3, p.epoch), EMPTY_PART, b, c);
    bytes, fields := bytes + NumberField(3, p.epoch), fields + NumberFields(3, p.epoch);
    AddsBoth(bytes, fields, NumberField(4, p.base), NumberFields(4, p.base), EMPTY_PART, c, d);
    bytes, fields := bytes + NumberField(4, p.base), fields + NumberFields(4, p.base);
    AddsBoth(bytes, fields, NumberField(5, p.count), NumberFields(5, p.count), EMPTY_PART, d, d.(count := p.count));
    fields := fields + NumberFields(5, p.count);
  }

  lemma {:induction false} PartRoundTrip(p: Part)
    ensures DecodePart(EncodePart(p)) == Some(p)
  {
    var front := BytesField(1, p.dbId) + BytesField(2, p.commitId) + NumberField(3, p.epoch) +
                 NumberField(4, p.base) + NumberField(5, p.count);
    var a, more := p.(blocks := [], more := false, part := 0), if p.more then 1 else 0;
    var b := a.(blocks := p.blocks);
    var c := b.(more := p.more);
    var fields := FrontIsRead(p);
    AddsBlocks(p.blocks, a);
    AddsNumber(7, more, b, c);
    AddsNumber(8, p.part, c, p);
    AddsBoth(front, fields, EncodeBlocks(p.blocks), BlockFields(p.blocks), EMPTY_PART, a, b);
    front, fields := front + EncodeBlocks(p.blocks), fields + BlockFields(p.blocks);
    AddsBoth(front, fields, NumberField(7, more), NumberFields(7, more), EMPTY_PART, b, c);
    front, fields := front + NumberField(7, more), fields + NumberFields(7, more);
    AddsBoth(front, fields, NumberField(8, p.part), NumberFields(8, p.part), EMPTY_PART, c, p);
    ReadsWhole(EncodePart(p), fields + NumberFields(8, p.part));
  }

  /** Nothing of a frame is lost: its request id, every field of the part and every block come back. Ids start at 1. */
  lemma {:induction false} FrameRoundTrip(requestId: nat, p: Part)
    requires requestId > 0
    ensures DecodeFrame(EncodeFrame(requestId, p)) == Some((requestId, p))
  {
    NumberIsRead(1, requestId);
    MessageIsRead(13, EncodePart(p));
    ReadsBoth(NumberField(1, requestId), [Number(1, requestId)], MessageField(13, EncodePart(p)),
              [Bytes(13, EncodePart(p))]);
    ReadsWhole(EncodeFrame(requestId, p), [Number(1, requestId)] + [Bytes(13, EncodePart(p))]);
    PartRoundTrip(p);
  }

  // ---------------------------------------------------------------------------------------------------------------
  // Sizes
  // ---------------------------------------------------------------------------------------------------------------

  lemma {:induction false} BlocksSize(blocks: seq<BlockWrite>, pageSize: nat)
    requires 0 < pageSize <= 65536
    requires forall b <- blocks :: b.index < 0x1_0000_0000 && |b.data| == pageSize
    ensures |EncodeBlocks(blocks)| <= Base(|blocks|, pageSize + 14)
    decreases |blocks|
  {
    if blocks != [] {
      var n := |blocks| - 1;
      BlocksSize(blocks[..n], pageSize);
      var b := blocks[n];
      Widths();
      if b.index > 0 { VarintLength(b.index, 5); }
      VarintLength(|b.data|, 3);
      VarintLength(|EncodeBlock(b)|, 3);
    }
  }

  /** The fields of a commit that are not blocks, within their types. */
  predicate FieldsFit(requestId: nat, p: Part) {
    && |p.dbId| <= 128 && |p.commitId| == 16 && requestId < 0x1_0000_0000_0000_0000
    && p.epoch < 0x1_0000_0000_0000_0000 && p.base < 0x1_0000_0000_0000_0000 && p.count < 0x1_0000_0000_0000_0000
    && p.part < 0x1_0000_0000
  }

  lemma {:induction false} PartSize(requestId: nat, p: Part)
    requires FieldsFit(requestId, p)
    ensures |EncodePart(p)| <= FIELDS - 17 + |EncodeBlocks(p.blocks)|
  {
    Widths();
    BytesSize(1, p.dbId, 2);
    BytesSize(2, p.commitId, 1);
    NumberSize(3, p.epoch, 10);
    NumberSize(4, p.base, 10);
    NumberSize(5, p.count, 10);
    NumberSize(7, if p.more then 1 else 0, 1);
    NumberSize(8, p.part, 5);
  }

  lemma {:induction false} FrameSize(requestId: nat, p: Part)
    requires FieldsFit(requestId, p) && |EncodeBlocks(p.blocks)| < 0x1_0000_0000
    ensures |EncodeFrame(requestId, p)| <= FIELDS + |EncodeBlocks(p.blocks)|
  {
    Widths();
    PartSize(requestId, p);
    NumberSize(1, requestId, 10);
    BytesSize(13, EncodePart(p), 5);
  }

  /** As many blocks as fit by the estimate, but at least one. */
  lemma {:induction false} PerPartIsMost(maxFrame: nat, pageSize: nat, n: nat)
    requires n > 0
    ensures n <= PerPart(maxFrame, pageSize) <==>
            n == 1 || COMMIT_FRAME_OVERHEAD + n * (pageSize + COMMIT_BLOCK_OVERHEAD) <= maxFrame
  {
    var d, x := Max(maxFrame - COMMIT_FRAME_OVERHEAD, 0), pageSize + COMMIT_BLOCK_OVERHEAD;
    QuotientBound(d, x, n);
  }

  lemma {:induction false} QuotientBound(d: nat, x: nat, n: nat)
    requires x > 0
    ensures n <= d / x <==> n * x <= d
  {
    var q := d / x;
    assert d == x * q + d % x;
    Header.NextMultiple(x, q, n);
    Header.NextMultiple(x, n, q);
  }

  lemma {:induction false} PerPartFits(maxFrame: nat, pageSize: nat, n: nat)
    requires n <= PerPart(maxFrame, pageSize) && maxFrame >= pageSize + FIELDS + 14
    ensures FIELDS + Base(n, pageSize + 14) <= maxFrame
  {
    BaseIsProduct(n, pageSize + 14);
    if n > 1 {
      var d, x := maxFrame - COMMIT_FRAME_OVERHEAD, pageSize + COMMIT_BLOCK_OVERHEAD;
      var q := d / x;
      assert n <= q;
      assert n * (pageSize + 14) <= q * x <= d;
    }
  }

  /**
   * Every frame of a commit is within the server's limit. A limit that has room for one block is enough: 221 bytes more
   * than a page, where the code reserves 272.
   */
  lemma {:induction false} PartsFit(dbId: seq<Byte>, commitId: seq<Byte>, epoch: nat, base: nat, count: nat,
                                    dirty: map<nat, Block>, pageSize: nat, maxFrame: nat, requestId: nat, k: nat)
    requires 0 < pageSize <= 65536 && pageSize + FIELDS + 14 <= maxFrame < 0x1_0000_0000
    requires forall i <- dirty :: i < 0x1_0000_0000 && |dirty[i]| == pageSize
    requires k < |Parts(dbId, commitId, epoch, base, count, dirty, pageSize, maxFrame)|
    requires FieldsFit(requestId, Parts(dbId, commitId, epoch, base, count, dirty, pageSize, maxFrame)[k])
    ensures var parts := Parts(dbId, commitId, epoch, base, count, dirty, pageSize, maxFrame);
            |EncodeFrame(requestId, parts[k])| <= maxFrame
  {
    var parts := Parts(dbId, commitId, epoch, base, count, dirty, pageSize, maxFrame);
    var p := parts[k];
    PartsPartition(dbId, commitId, epoch, base, count, dirty, pageSize, maxFrame);
    PartsJoined(dbId, commitId, epoch, base, count, dirty, pageSize, maxFrame);
    InOrderIsAll(dirty);
    forall b <- p.blocks ensures b in InOrder(dirty) {
      assert b in BlocksOfParts(parts)[k];
      InFlatten(BlocksOfParts(parts), k, b);
    }
    BlocksSize(p.blocks, pageSize);
    PerPartFits(maxFrame, pageSize, |p.blocks|);
    FrameSize(requestId, p);
  }

  lemma {:induction false} InFlatten<T>(parts: seq<seq<T>>, k: nat, x: T)
    requires k < |parts| && x in parts[k]
    ensures x in Flatten(parts)
    decreases |parts|
  {
    if k < |parts| - 1 { InFlatten(parts[..|parts| - 1], k, x); }
  }
}
