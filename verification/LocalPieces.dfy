/**
 * A commit on its way to the connection worker: it is cut into pieces that fit the buffer shared with the worker, and
 * the worker puts them together again.
 */
module LocalPieces {
  import opened Common
  import opened Snapshots
  import opened Header

  const CAPACITY: nat := 0x20_0000
  const PIECE_FIRST: nat := 1
  const PIECE_LAST: nat := 2
  const PIECE_HEADER: nat := 24
  const ITEM_HEADER: nat := 12
  /** Numbers up to here are exact in JavaScript. */
  const MAX_NUMBER: nat := 0x20_0000_0000_0000

  datatype Commit = Commit(epoch: nat, pageCount: nat, blocks: seq<BlockWrite>)

  // ---------------------------------------------------------------------------------------------------------------
  // Pieces
  // ---------------------------------------------------------------------------------------------------------------

  function Item(b: BlockWrite): (bytes: seq<Byte>)
    ensures |bytes| == ITEM_HEADER + |b.data|
  {
    LittleEndian(b.index, 8) + LittleEndian(|b.data|, 4) + b.data
  }

  function Items(bs: seq<BlockWrite>): seq<Byte> { if bs == [] then [] else Item(bs[0]) + Items(bs[1..]) }

  function Prefix(flags: nat, epoch: nat, pageCount: nat, count: nat): (bytes: seq<Byte>)
    ensures |bytes| == PIECE_HEADER
  {
    LittleEndian(flags, 4) + LittleEndian(epoch, 8) + LittleEndian(pageCount, 8) + LittleEndian(count, 4)
  }

  function Piece(flags: nat, epoch: nat, pageCount: nat, bs: seq<BlockWrite>): seq<Byte> {
    Prefix(flags, epoch, pageCount, |bs|) + Items(bs)
  }

  function Flags(first: bool, last: bool): nat { (if first then PIECE_FIRST else 0) + (if last then PIECE_LAST else 0) }

  predicate Fits(b: BlockWrite) { PIECE_HEADER + ITEM_HEADER + |b.data| <= CAPACITY }

  predicate Exact(b: BlockWrite) { b.index < MAX_NUMBER && |b.data| < Pow256(4) }

  lemma {:induction false} ItemsSnoc(bs: seq<BlockWrite>, b: BlockWrite)
    ensures Items(bs + [b]) == Items(bs) + Item(b)
    decreases |bs|
  {
    if bs == [] {
      assert [] + [b] == [b] && [b][1..] == [];
    } else {
      assert (bs + [b])[1..] == bs[1..] + [b];
      ItemsSnoc(bs[1..], b);
    }
  }

  lemma {:induction false} ItemsLength(bs: seq<BlockWrite>)
    ensures |Items(bs)| >= ITEM_HEADER * |bs|
    decreases |bs|
  {
    if bs != [] { ItemsLength(bs[1..]); }
  }

  // ---------------------------------------------------------------------------------------------------------------
  // The worker
  // ---------------------------------------------------------------------------------------------------------------

  /** `count` blocks from the start of `body`. Reading past the end fails; a block that is cut off is shorter. */
  function Parse(body: seq<Byte>, count: nat): Option<seq<BlockWrite>>
    decreases count
  {
    if count == 0 then Some([])
    else if |body| < ITEM_HEADER then None
    else
      var size := FromLittleEndian(body[8..12]);
      var end := Min(ITEM_HEADER + size, |body|);
      var rest := Parse(body[end..], count - 1);
      if rest.None? then None
      else Some([BlockWrite(FromLittleEndian(body[..8]), body[ITEM_HEADER..end])] + rest.value)
  }

  lemma {:induction false} ItemFields(b: BlockWrite, rest: seq<Byte>)
    requires Exact(b)
    ensures var body, end := Item(b) + rest, ITEM_HEADER + |b.data|;
            && |body| >= end && FromLittleEndian(body[..8]) == b.index && FromLittleEndian(body[8..12]) == |b.data|
            && body[ITEM_HEADER..end] == b.data && body[end..] == rest
  {
    var body := Item(b) + rest;
    Widths();
    NumberRoundTrip(b.index, 8);
    NumberRoundTrip(|b.data|, 4);
    assert body[..8] == LittleEndian(b.index, 8) && body[8..12] == LittleEndian(|b.data|, 4);
  }

  lemma {:induction false} ParsesItems(bs: seq<BlockWrite>)
    requires forall b <- bs :: Exact(b)
    ensures Parse(Items(bs), |bs|) == Some(bs)
    decreases |bs|
  {
    if bs != [] {
      assert bs[0] in bs;
      ItemFields(bs[0], Items(bs[1..]));
      ParsesItems(bs[1..]);
      assert [bs[0]] + bs[1..] == bs;
    }
  }

  function FlagsOf(piece: seq<Byte>): nat
    requires |piece| >= PIECE_HEADER
  {
    FromLittleEndian(piece[..4])
  }

  function BlocksIn(piece: seq<Byte>): Option<seq<BlockWrite>>
    requires |piece| >= PIECE_HEADER
  {
    Parse(piece[PIECE_HEADER..], FromLittleEndian(piece[20..24]))
  }

  lemma {:induction false} PieceSlices(flags: nat, epoch: nat, pageCount: nat, bs: seq<BlockWrite>)
    ensures var piece := Piece(flags, epoch, pageCount, bs);
            && piece[..4] == LittleEndian(flags, 4) && piece[4..12] == LittleEndian(epoch, 8)
            && piece[12..20] == LittleEndian(pageCount, 8) && piece[20..24] == LittleEndian(|bs|, 4)
            && piece[PIECE_HEADER..] == Items(bs)
  {
    var prefix := Prefix(flags, epoch, pageCount, |bs|);
    var piece := Piece(flags, epoch, pageCount, bs);
    assert piece[..4] == prefix[..4] == LittleEndian(flags, 4);
    assert piece[4..12] == prefix[4..12] == LittleEndian(epoch, 8);
    assert piece[12..20] == prefix[12..20] == LittleEndian(pageCount, 8);
    assert piece[20..24] == prefix[20..24] == LittleEndian(|bs|, 4);
  }

  /** A piece says what it was made of. */
  lemma {:induction false} PieceFields(flags: nat, epoch: nat, pageCount: nat, bs: seq<BlockWrite>)
    requires flags < 4 && epoch < MAX_NUMBER && pageCount < MAX_NUMBER && |bs| < Pow256(4)
    requires forall b <- bs :: Exact(b)
    ensures var piece := Piece(flags, epoch, pageCount, bs);
            && FlagsOf(piece) == flags && BlocksIn(piece) == Some(bs)
            && FromLittleEndian(piece[4..12]) == epoch && FromLittleEndian(piece[12..20]) == pageCount
  {
    PieceSlices(flags, epoch, pageCount, bs);
    assert flags < Pow256(4) && epoch < Pow256(8) && pageCount < Pow256(8) by { Widths(); }
    NumberRoundTrip(flags, 4);
    NumberRoundTrip(epoch, 8);
    NumberRoundTrip(pageCount, 8);
    NumberRoundTrip(|bs|, 4);
    ParsesItems(bs);
  }

  /** `blocks` and what is still to be parsed at `at` are all there is. */
  ghost predicate SoFar(piece: seq<Byte>, at: nat, left: nat, blocks: seq<BlockWrite>, all: seq<BlockWrite>) {
    at <= |piece| && Parse(piece[at..], left).Some? && blocks + Parse(piece[at..], left).value == all
  }

  function BlockEnd(piece: seq<Byte>, at: nat): nat
    requires at + ITEM_HEADER <= |piece|
  {
    Min(at + ITEM_HEADER + FromLittleEndian(piece[at + 8..at + 12]), |piece|)
  }

  lemma {:induction false} ParseOne(piece: seq<Byte>, at: nat, left: nat, blocks: seq<BlockWrite>, all: seq<BlockWrite>)
    requires SoFar(piece, at, left, blocks, all) && left > 0
    ensures at + ITEM_HEADER <= |piece|
    ensures var end := BlockEnd(piece, at);
            SoFar(piece, end, left - 1,
                  blocks + [BlockWrite(FromLittleEndian(piece[at..at + 8]), piece[at + ITEM_HEADER..end])], all)
  {
    var body := piece[at..];
    assert body[..8] == piece[at..at + 8] && body[8..12] == piece[at + 8..at + 12];
    var end := BlockEnd(piece, at);
    assert body[ITEM_HEADER..end - at] == piece[at + ITEM_HEADER..end] && body[end - at..] == piece[end..];
    var b := BlockWrite(FromLittleEndian(body[..8]), body[ITEM_HEADER..end - at]);
    var rest := Parse(piece[end..], left - 1).value;
    assert blocks + ([b] + rest) == (blocks + [b]) + rest;
  }

  method Collect(piece: seq<Byte>) returns (blocks: seq<BlockWrite>)
    requires |piece| >= PIECE_HEADER && BlocksIn(piece).Some?
    ensures Some(blocks) == BlocksIn(piece)
  {
    var count := FromLittleEndian(piece[20..24]);
    var at, i := PIECE_HEADER, 0;
    blocks := [];
    ghost var all := BlocksIn(piece).value;
    while i < count
      invariant 0 <= i <= count && 0 <= at && SoFar(piece, at, count - i, blocks, all)
    {
      ParseOne(piece, at, count - i, blocks, all);
      var end := BlockEnd(piece, at);
      blocks := blocks + [BlockWrite(FromLittleEndian(piece[at..at + 8]), piece[at + ITEM_HEADER..end])];
      at, i := end, i + 1;
    }
    assert blocks + [] == blocks;
  }

  predicate IsLast(piece: seq<Byte>)
    requires |piece| >= PIECE_HEADER
  {
    FlagsOf(piece) >= PIECE_LAST
  }

  /** The blocks so far: a first piece discards what was there. */
  function Collected(pending: seq<BlockWrite>, piece: seq<Byte>): seq<BlockWrite>
    requires |piece| >= PIECE_HEADER && BlocksIn(piece).Some?
  {
    (if FlagsOf(piece) % 2 == 1 then [] else pending) + BlocksIn(piece).value
  }

  function CommitOf(piece: seq<Byte>, blocks: seq<BlockWrite>): Commit
    requires |piece| >= PIECE_HEADER
  {
    Commit(FromLittleEndian(piece[4..12]), FromLittleEndian(piece[12..20]), blocks)
  }

  class Worker {
    var pending: seq<BlockWrite>
    /** The commits handed to IndexedDB, each in one transaction. */
    var commits: seq<Commit>

    constructor ()
      ensures pending == [] && commits == []
    {
      pending, commits := [], [];
    }

    /** Takes a piece. The last one of a commit hands over all blocks since the first. */
    method Receive(piece: seq<Byte>)
      requires |piece| >= PIECE_HEADER && BlocksIn(piece).Some? && FlagsOf(piece) < 4
      modifies this
      ensures pending == if IsLast(piece) then [] else Collected(old(pending), piece)
      ensures commits == if IsLast(piece) then old(commits) + [CommitOf(piece, Collected(old(pending), piece))]
                         else old(commits)
    {
      var flags := FlagsOf(piece);
      if flags % 2 == 1 { pending := []; }
      var blocks := Collect(piece);
      pending := pending + blocks;
      if flags >= PIECE_LAST {
        commits := commits + [CommitOf(piece, pending)];
        pending := [];
      }
    }
  }

  // ---------------------------------------------------------------------------------------------------------------
  // The bridge
  // ---------------------------------------------------------------------------------------------------------------

  lemma {:induction false} ItemsHold(bs: seq<BlockWrite>, k: nat)
    requires k < |bs|
    ensures |Items(bs)| >= ITEM_HEADER + |bs[k].data|
    decreases |bs|
  {
    if k > 0 { ItemsHold(bs[1..], k - 1); }
  }

  /** Flags and number of blocks are filled in when they are known. */
  lemma {:induction false} PatchedPrefix(p: seq<Byte>, flags: nat, epoch: nat, pageCount: nat, count: nat,
                                         items: seq<Byte>)
    requires p == Prefix(0, epoch, pageCount, 0) + items
    ensures LittleEndian(flags, 4) + p[4..20] + LittleEndian(count, 4) + p[24..] ==
            Prefix(flags, epoch, pageCount, count) + items
  {
    var e, c := LittleEndian(epoch, 8), LittleEndian(pageCount, 8);
    assert p == LittleEndian(0, 4) + (e + c) + LittleEndian(0, 4) + items;
    assert p[4..20] == e + c;
    assert p[24..] == items;
  }

  /** Appends blocks to a piece, as many as fit, but at least one. */
  method Fill(prefix: seq<Byte>, blocks: seq<BlockWrite>, start: nat) returns (piece: seq<Byte>, at: nat)
    requires start <= |blocks| && |prefix| <= CAPACITY
    ensures start <= at <= |blocks| && (start < |blocks| ==> start < at)
    ensures piece == prefix + Items(blocks[start..at])
    ensures |piece| > CAPACITY ==> at == start + 1
    ensures at < |blocks| ==> |piece| + ITEM_HEADER + |blocks[at].data| > CAPACITY
  {
    piece, at := prefix, start;
    while at < |blocks|
      invariant start <= at <= |blocks| && piece == prefix + Items(blocks[start..at])
      invariant |piece| > CAPACITY ==> at == start + 1
    {
      var b := blocks[at];
      if |piece| + ITEM_HEADER + |b.data| > CAPACITY && at > start { break; }
      assert blocks[start..at + 1] == blocks[start..at] + [b];
      ItemsSnoc(blocks[start..at], b);
      assert prefix + Items(blocks[start..at + 1]) == piece + Item(b);
      piece, at := piece + Item(b), at + 1;
    }
  }

  method NextPiece(epoch: nat, pageCount: nat, blocks: seq<BlockWrite>, start: nat, first: bool)
      returns (piece: seq<Byte>, at: nat)
    requires start <= |blocks|
    ensures start <= at <= |blocks| && (start < |blocks| ==> start < at)
    ensures piece == Piece(Flags(first, at == |blocks|), epoch, pageCount, blocks[start..at])
    ensures |piece| > CAPACITY ==> at == start + 1
    ensures at < |blocks| ==> |piece| + ITEM_HEADER + |blocks[at].data| > CAPACITY
  {
    piece, at := Fill(Prefix(0, epoch, pageCount, 0), blocks, start);
    var flags := Flags(first, at >= |blocks|);
    PatchedPrefix(piece, flags, epoch, pageCount, at - start, Items(blocks[start..at]));
    piece := LittleEndian(flags, 4) + piece[4..20] + LittleEndian(at - start, 4) + piece[24..];
  }

  /** A piece within the buffer has only blocks that fit, and one that is not has a single block that does not. */
  lemma {:induction false} PieceWithin(flags: nat, epoch: nat, pageCount: nat, bs: seq<BlockWrite>)
    ensures |Piece(flags, epoch, pageCount, bs)| <= CAPACITY ==> |bs| < Pow256(4) && forall b <- bs :: Fits(b)
    ensures (|bs| == 1 && Fits(bs[0])) || bs == [] ==> |Piece(flags, epoch, pageCount, bs)| <= CAPACITY
  {
    ItemsLength(bs);
    Widths();
    if |Piece(flags, epoch, pageCount, bs)| <= CAPACITY {
      forall k | 0 <= k < |bs| ensures Fits(bs[k]) { ItemsHold(bs, k); }
    }
    if |bs| == 1 { assert bs[1..] == []; }
  }

  /** Each piece carries on where the one before ended. */
  lemma {:induction false} PieceCollects(first: bool, epoch: nat, pageCount: nat, blocks: seq<BlockWrite>, start: nat,
                                         at: nat, pending: seq<BlockWrite>)
    requires start <= at <= |blocks| && epoch < MAX_NUMBER && pageCount < MAX_NUMBER && at - start < Pow256(4)
    requires (forall b <- blocks :: Exact(b)) && if first then start == 0 else pending == blocks[..start]
    ensures var piece := Piece(Flags(first, at == |blocks|), epoch, pageCount, blocks[start..at]);
            && BlocksIn(piece).Some? && FlagsOf(piece) < 4 && (IsLast(piece) <==> at == |blocks|)
            && Collected(pending, piece) == blocks[..at]
            && (at == |blocks| ==> CommitOf(piece, blocks[..at]) == Commit(epoch, pageCount, blocks))
  {
    PieceFields(Flags(first, at == |blocks|), epoch, pageCount, blocks[start..at]);
    assert blocks[..at] == blocks[..start] + blocks[start..at];
    if at == |blocks| { assert blocks[..at] == blocks; }
  }

  datatype Result = Done | Refused | NoAnswer | TooLarge

  /** What becomes of a piece: the worker takes it or turns it down, or there is no answer whether it got it or not. */
  datatype Outcome = Taken | TurnedDown | Unheard | Undelivered

  /**
   * Sends a commit to the worker; `outcomes` says what becomes of the first pieces, and those after them are taken.
   * Whatever the worker still had from a commit that was broken off, it hands over exactly this commit or nothing, and
   * it can hand it over exactly if every single block fits the buffer. It is done if all blocks fit and all pieces are
   * taken.
   */
  method SendCommit(worker: Worker, epoch: nat, pageCount: nat, blocks: seq<BlockWrite>, outcomes: seq<Outcome>)
      returns (r: Result)
    requires epoch < MAX_NUMBER && pageCount < MAX_NUMBER && forall b <- blocks :: Exact(b)
    modifies worker
    ensures worker.commits == old(worker.commits) ||
            worker.commits == old(worker.commits) + [Commit(epoch, pageCount, blocks)]
    ensures r.Done? ==> worker.commits == old(worker.commits) + [Commit(epoch, pageCount, blocks)]
    ensures r.TooLarge? ==> exists b <- blocks :: !Fits(b)
    ensures r.NoAnswer? ==> Unheard in outcomes || Undelivered in outcomes
    ensures r.Refused? ==> TurnedDown in outcomes
    ensures (exists b <- blocks :: !Fits(b)) ==> worker.commits == old(worker.commits)
  {
    var at, first, sent := 0, true, 0;
    while true
      invariant 0 <= at <= |blocks| && worker.commits == old(worker.commits)
      invariant first ==> at == 0
      invariant !first ==> worker.pending == blocks[..at] && at < |blocks|
      invariant forall b <- blocks[..at] :: Fits(b)
      decreases |blocks| - at, first
    {
      ghost var start := at;
      var piece;
      piece, at := NextPiece(epoch, pageCount, blocks, at, first);
      var last := at >= |blocks|;
      PieceWithin(Flags(first, last), epoch, pageCount, blocks[start..at]);
      if |piece| > CAPACITY {
        assert blocks[start] in blocks && !Fits(blocks[start]);
        return TooLarge;
      }
      PieceCollects(first, epoch, pageCount, blocks, start, at, worker.pending);
      var outcome := if sent < |outcomes| then outcomes[sent] else Taken;
      if !outcome.Undelivered? { worker.Receive(piece); }
      if outcome.Unheard? || outcome.Undelivered? { return NoAnswer; }
      if outcome.TurnedDown? { return Refused; }
      if last { return Done; }
      first, sent := false, sent + 1;
    }
  }
}
