/**
 * Versions of a database file on the page server.
 *
 * A snapshot is the file as a sequence of blocks. A commit sets the page count and overwrites blocks; blocks at or
 * beyond the page count disappear, and a block that was never written reads as zeros.
 */
module Snapshots {
  import opened Common

  type Snapshot = seq<Block>

  /** One block of a commit, as it travels in a frame. */
  datatype BlockWrite = BlockWrite(index: nat, data: Block)

  function At(s: Snapshot, index: nat, pageSize: nat): Block {
    if index < |s| then s[index] else Zeros(pageSize)
  }

  /** The next version: `count` blocks, those in `writes` replaced, the others carried over. */
  function Apply(s: Snapshot, count: nat, writes: map<nat, Block>, pageSize: nat): (next: Snapshot)
    ensures |next| == count
    ensures forall i :: 0 <= i < count ==> next[i] == if i in writes then writes[i] else At(s, i, pageSize)
  {
    seq(count, i requires 0 <= i < count => if i in writes then writes[i] else At(s, i, pageSize))
  }

  /** The blocks a list of writes leaves behind; a later write to the same index wins. */
  function Overlay(ws: seq<BlockWrite>): map<nat, Block> {
    if ws == [] then map[] else Overlay(ws[..|ws| - 1])[ws[|ws| - 1].index := ws[|ws| - 1].data]
  }

  function Flatten<T>(parts: seq<seq<T>>): seq<T> {
    if parts == [] then [] else Flatten(parts[..|parts| - 1]) + parts[|parts| - 1]
  }

  /** `count` blocks from `first` on. */
  function Slice(s: Snapshot, first: nat, count: nat, pageSize: nat): (blocks: seq<Block>)
    ensures |blocks| == count
    ensures forall k :: 0 <= k < count ==> blocks[k] == At(s, first + k, pageSize)
  {
    seq(count, k requires 0 <= k < count => At(s, first + k, pageSize))
  }
}
