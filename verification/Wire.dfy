/** The parts of the Protocol Buffers wire format that commits use: varints, and numbers and bytes as fields. */
module Wire {
  import opened Common

  /** A field of a message as it is on the wire: wire type 0 or wire type 2. */
  datatype Field = Number(field: nat, n: nat) | Bytes(field: nat, bytes: seq<Byte>)

  // ---------------------------------------------------------------------------------------------------------------
  // Encoding
  // ---------------------------------------------------------------------------------------------------------------

  /** Base 128 varint: seven bits a byte, least significant first, the high bit set on all but the last. */
  function Varint(n: nat): seq<Byte> {
    if n < 128 then [n] else [128 + n % 128] + Varint(n / 128)
  }

  function Pow128(k: nat): nat { if k == 0 then 1 else 128 * Pow128(k - 1) }

  lemma {:induction false} VarintLength(n: nat, k: nat)
    requires 0 < k && n < Pow128(k)
    ensures |Varint(n)| <= k
    decreases k
  {
    if n >= 128 { VarintLength(n / 128, k - 1); }
  }

  lemma Widths()
    ensures Pow128(1) == 128 && Pow128(2) == 0x4000 && Pow128(3) == 0x20_0000 && Pow128(5) == 0x8_0000_0000
    ensures Pow128(10) >= 0x1_0000_0000_0000_0000
  {
    assert Pow128(4) == 128 * Pow128(3);
    assert Pow128(6) == 128 * Pow128(5);
    assert Pow128(7) == 128 * Pow128(6);
    assert Pow128(8) == 128 * Pow128(7);
    assert Pow128(9) == 128 * Pow128(8);
  }

  /** A field with value zero, or without bytes, is left out. */
  function NumberField(field: nat, n: nat): seq<Byte>
    requires field < 16
  {
    if n == 0 then [] else [8 * field] + Varint(n)
  }

  function MessageField(field: nat, bytes: seq<Byte>): seq<Byte>
    requires field < 16
  {
    [8 * field + 2] + Varint(|bytes|) + bytes
  }

  function BytesField(field: nat, bytes: seq<Byte>): seq<Byte>
    requires field < 16
  {
    if bytes == [] then [] else MessageField(field, bytes)
  }

  // ---------------------------------------------------------------------------------------------------------------
  // Decoding
  // ---------------------------------------------------------------------------------------------------------------

  /** The number at the start, and what follows it: seven bits a byte, up to the first byte without the high bit. */
  function ReadVarint(s: seq<Byte>): (r: Option<(nat, seq<Byte>)>)
    ensures r.Some? ==> |r.value.1| < |s|
  {
    if s == [] then None
    else if s[0] < 128 then Some((s[0], s[1..]))
    else
      var rest := ReadVarint(s[1..]);
      if rest.None? then None else Some((s[0] - 128 + 128 * rest.value.0, rest.value.1))
  }

  function ReadField(s: seq<Byte>): (r: Option<(Field, seq<Byte>)>)
    ensures r.Some? ==> |r.value.1| < |s|
  {
    var tag := ReadVarint(s);
    if tag.None? then None
    else
      var field, number := tag.value.0 / 8, ReadVarint(tag.value.1);
      if number.None? then None
      else if tag.value.0 % 8 == 0 then Some((Number(field, number.value.0), number.value.1))
      else if tag.value.0 % 8 != 2 || |number.value.1| < number.value.0 then None
      else Some((Bytes(field, number.value.1[..number.value.0]), number.value.1[number.value.0..]))
  }

  function ReadFields(s: seq<Byte>): Option<seq<Field>>
    decreases |s|
  {
    if s == [] then Some([])
    else
      var first := ReadField(s);
      if first.None? then None else Prepended([first.value.0], ReadFields(first.value.1))
  }

  function Prepended(fields: seq<Field>, rest: Option<seq<Field>>): Option<seq<Field>> {
    if rest.None? then None else Some(fields + rest.value)
  }

  lemma {:induction false} PrependedTwice(a: seq<Field>, b: seq<Field>, rest: Option<seq<Field>>)
    ensures Prepended(a, Prepended(b, rest)) == Prepended(a + b, rest) && Prepended([], rest) == rest
  {
    if rest.Some? { assert a + (b + rest.value) == (a + b) + rest.value && [] + rest.value == rest.value; }
  }

  /** In front of `rest`, `bytes` is read as these fields. */
  ghost predicate ReadsBefore(bytes: seq<Byte>, fields: seq<Field>, rest: seq<Byte>) {
    ReadFields(bytes + rest) == Prepended(fields, ReadFields(rest))
  }

  /** Whatever follows, `bytes` is read as these fields. */
  ghost predicate Reads(bytes: seq<Byte>, fields: seq<Field>) { forall rest :: ReadsBefore(bytes, fields, rest) }

  lemma {:induction false} ReadsBoth(x: seq<Byte>, fx: seq<Field>, y: seq<Byte>, fy: seq<Field>)
    requires Reads(x, fx) && Reads(y, fy)
    ensures Reads(x + y, fx + fy)
  {
    forall rest ensures ReadsBefore(x + y, fx + fy, rest) {
      assert ReadsBefore(x, fx, y + rest) && ReadsBefore(y, fy, rest);
      BothBefore(x, fx, y, fy, rest);
    }
  }

  lemma {:induction false} BothBefore(x: seq<Byte>, fx: seq<Field>, y: seq<Byte>, fy: seq<Field>, rest: seq<Byte>)
    requires ReadsBefore(x, fx, y + rest) && ReadsBefore(y, fy, rest)
    ensures ReadsBefore(x + y, fx + fy, rest)
  {
    assert (x + y) + rest == x + (y + rest);
    PrependedTwice(fx, fy, ReadFields(rest));
  }

  lemma {:induction false} ReadsWhole(bytes: seq<Byte>, fields: seq<Field>)
    requires Reads(bytes, fields)
    ensures ReadFields(bytes) == Some(fields)
  {
    assert ReadsBefore(bytes, fields, []);
    assert bytes + [] == bytes && fields + [] == fields;
  }

  lemma {:induction false} NothingIsRead()
    ensures Reads([], [])
  {
    forall rest ensures ReadsBefore([], [], rest) {
      assert [] + rest == rest;
      PrependedTwice([], [], ReadFields(rest));
    }
  }

  /** A number comes back from its varint, whatever follows. */
  lemma {:induction false} VarintRoundTrip(n: nat, rest: seq<Byte>)
    ensures ReadVarint(Varint(n) + rest) == Some((n, rest))
    decreases n
  {
    if n < 128 {
      assert ([n] + rest)[1..] == rest;
    } else {
      var s := Varint(n) + rest;
      assert s[1..] == Varint(n / 128) + rest;
      VarintRoundTrip(n / 128, rest);
    }
  }

  /** The fields that `NumberField` and `BytesField` write. */
  function NumberFields(field: nat, n: nat): seq<Field> { if n == 0 then [] else [Number(field, n)] }

  function BytesFields(field: nat, bytes: seq<Byte>): seq<Field> { if bytes == [] then [] else [Bytes(field, bytes)] }

  lemma {:induction false} NumberIsRead(field: nat, n: nat)
    requires field < 16
    ensures Reads(NumberField(field, n), NumberFields(field, n))
  {
    if n == 0 {
      NothingIsRead();
    } else {
      forall rest ensures ReadsBefore(NumberField(field, n), [Number(field, n)], rest) { NumberBefore(field, n, rest); }
    }
  }

  lemma {:induction false} NumberBefore(field: nat, n: nat, rest: seq<Byte>)
    requires field < 16 && n > 0
    ensures ReadsBefore(NumberField(field, n), [Number(field, n)], rest)
  {
    var s, tail := NumberField(field, n) + rest, Varint(n) + rest;
    assert s == [8 * field] + tail && s[1..] == tail;
    VarintRoundTrip(n, rest);
    assert ReadField(s) == Some((Number(field, n), rest));
  }

  lemma {:induction false} MessageIsRead(field: nat, bytes: seq<Byte>)
    requires field < 16
    ensures Reads(MessageField(field, bytes), [Bytes(field, bytes)])
  {
    forall rest ensures ReadsBefore(MessageField(field, bytes), [Bytes(field, bytes)], rest) {
      MessageBefore(field, bytes, rest);
    }
  }

  lemma {:induction false} MessageBefore(field: nat, bytes: seq<Byte>, rest: seq<Byte>)
    requires field < 16
    ensures ReadsBefore(MessageField(field, bytes), [Bytes(field, bytes)], rest)
  {
    var s, tail := MessageField(field, bytes) + rest, Varint(|bytes|) + (bytes + rest);
    assert s == [8 * field + 2] + tail && s[1..] == tail;
    VarintRoundTrip(|bytes|, bytes + rest);
    assert (bytes + rest)[..|bytes|] == bytes && (bytes + rest)[|bytes|..] == rest;
    assert ReadField(s) == Some((Bytes(field, bytes), rest));
  }

  lemma {:induction false} BytesAreRead(field: nat, bytes: seq<Byte>)
    requires field < 16
    ensures Reads(BytesField(field, bytes), BytesFields(field, bytes))
  {
    if bytes == [] { NothingIsRead(); } else { MessageIsRead(field, bytes); }
  }

  // ---------------------------------------------------------------------------------------------------------------
  // Sizes
  // ---------------------------------------------------------------------------------------------------------------

  lemma {:induction false} NumberSize(field: nat, n: nat, k: nat)
    requires field < 16 && 0 < k && n < Pow128(k)
    ensures |NumberField(field, n)| <= 1 + k
  {
    VarintLength(n, k);
  }

  lemma {:induction false} BytesSize(field: nat, bytes: seq<Byte>, k: nat)
    requires field < 16 && 0 < k && |bytes| < Pow128(k)
    ensures |MessageField(field, bytes)| <= 1 + k + |bytes|
  {
    VarintLength(|bytes|, k);
  }
}
