/** Bitmap of the blocks present in a local copy, one bit per block, eight to a byte. */
module Bitmap {
  import opened Common

  // ---------------------------------------------------------------------------------------------------------------
  // Bits of a byte
  // ---------------------------------------------------------------------------------------------------------------

  /** Bit `k` of `b`: `b & (1 << k) != 0`. */
  predicate BitOf(b: nat, k: nat)
    decreases k
  {
    if k == 0 then b % 2 == 1 else BitOf(b / 2, k - 1)
  }

  /** `b` with bit `k` set or cleared: `b | (1 << k)`, `b & !(1 << k)`. */
  function SetTo(b: nat, k: nat, value: bool): nat
    decreases k
  {
    if k == 0 then b - b % 2 + (if value then 1 else 0) else 2 * SetTo(b / 2, k - 1, value) + b % 2
  }

  lemma {:induction false} SetToBits(b: nat, k: nat, value: bool, j: nat)
    ensures BitOf(SetTo(b, k, value), j) == if j == k then value else BitOf(b, j)
    decreases k
  {
    if k > 0 && j > 0 {
      SetToBits(b / 2, k - 1, value, j - 1);
      assert SetTo(b, k, value) / 2 == SetTo(b / 2, k - 1, value);
    }
  }

  /** Values of `n` bits. */
  function Range(n: nat): nat { if n == 0 then 1 else 2 * Range(n - 1) }

  lemma {:induction false} SetToInRange(b: nat, k: nat, value: bool, n: nat)
    requires b < Range(n) && k < n
    ensures SetTo(b, k, value) < Range(n)
    decreases k
  {
    if k > 0 { SetToInRange(b / 2, k - 1, value, n - 1); }
  }

  lemma EightBits()
    ensures Range(8) == 256
  {
    assert Range(1) == 2;
    assert Range(3) == 2 * Range(2);
    assert Range(5) == 2 * Range(4);
    assert Range(6) == 2 * Range(5);
    assert Range(7) == 2 * Range(6);
  }

  function SetByte(b: Byte, k: nat, value: bool): (r: Byte)
    requires k < 8
    ensures forall j :: BitOf(r, j) == if j == k then value else BitOf(b, j)
  {
    EightBits();
    SetToInRange(b, k, value, 8);
    assert forall j :: BitOf(SetTo(b, k, value), j) == if j == k then value else BitOf(b, j) by {
      forall j ensures BitOf(SetTo(b, k, value), j) == if j == k then value else BitOf(b, j) {
        SetToBits(b, k, value, j);
      }
    }
    SetTo(b, k, value)
  }

  lemma {:induction false} ZeroHasNoBits(k: nat)
    ensures !BitOf(0, k)
    decreases k
  {
    if k > 0 { ZeroHasNoBits(k - 1); }
  }

  // ---------------------------------------------------------------------------------------------------------------
  // The bitmap
  // ---------------------------------------------------------------------------------------------------------------

  /** Bytes needed for `count` bits. */
  function BytesFor(count: nat): nat { (count + 7) / 8 }

  predicate HasBit(bytes: seq<Byte>, index: nat) {
    index / 8 < |bytes| && BitOf(bytes[index / 8], index % 8)
  }

  /** No bit is set at or beyond `count`. */
  ghost predicate TailClear(bytes: seq<Byte>, count: nat) {
    forall i: nat :: count <= i ==> !HasBit(bytes, i)
  }

  class Present {
    var bytes: seq<Byte>

    constructor Empty(count: nat)
      ensures bytes == Zeros(BytesFor(count)) && forall i: nat :: !HasBit(bytes, i)
    {
      bytes := Zeros(BytesFor(count));
      new;
      forall i: nat ensures !HasBit(bytes, i) { ZeroHasNoBits(i % 8); }
    }

    constructor From(bytes: seq<Byte>)
      ensures this.bytes == bytes
    {
      this.bytes := bytes;
    }

    /** Sets or clears the bit of block `index`; a block without a bit is ignored. */
    method Mark(index: nat, value: bool)
      modifies this
      ensures |bytes| == |old(bytes)|
      ensures forall i: nat :: HasBit(bytes, i) ==
                if i == index && index / 8 < |bytes| then value else HasBit(old(bytes), i)
    {
      if index / 8 < |bytes| {
        ghost var before := bytes;
        bytes := bytes[index / 8 := SetByte(bytes[index / 8], index % 8, value)];
        forall i: nat ensures HasBit(bytes, i) == if i == index then value else HasBit(before, i) {
          if i / 8 == index / 8 && i % 8 == index % 8 { assert i == index; }
        }
      }
    }

    /** The bitmap for a different page count: bits beyond the new end are cleared. */
    method Resized(count: nat) returns (next: Present)
      ensures fresh(next) && |next.bytes| == BytesFor(count)
      ensures forall i: nat :: HasBit(next.bytes, i) == (i < count && HasBit(bytes, i))
    {
      next := new Present.Empty(count);
      var keep := Min(|next.bytes|, |bytes|);
      next.bytes := bytes[..keep] + next.bytes[keep..];
      ghost var copied := next.bytes;
      assert forall i :: keep <= i < |copied| ==> copied[i] == 0;
      var index := count;
      while index < 8 * BytesFor(count)
        invariant count <= index <= 8 * BytesFor(count) && |next.bytes| == BytesFor(count) && fresh(next)
        invariant forall i: nat :: HasBit(next.bytes, i) == (HasBit(copied, i) && !(count <= i < index))
      {
        assert index / 8 < |next.bytes|;
        next.Mark(index, false);
        index := index + 1;
      }
      forall i: nat ensures HasBit(next.bytes, i) == (i < count && HasBit(bytes, i)) {
        if i / 8 >= keep { ZeroHasNoBits(i % 8); }
      }
    }
  }
}
