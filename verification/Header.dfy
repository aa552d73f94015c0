/** Header of a local copy: 4096 bytes that describe the blocks behind it, and whether they can be trusted. */
module Header {
  import opened Common

  const HEADER_BYTES: nat := 4096
  const CLEAN: Byte := 0
  const WRITING: Byte := 1
  const MAX_PAGE_SIZE: nat := 65536
  const MAX_PAGE_COUNT: nat := 4294967294
  const MAGIC: seq<Byte> := [0x72, 0x76, 0x66, 0x73, 0x6c, 0x63, 0x6c, 0x32]

  /** Owner, database, page size, page count and version of the blocks. Names are kept as their UTF-8 bytes. */
  datatype Head = Head(subject: seq<Byte>, dbId: seq<Byte>, pageSize: nat, pageCount: nat, version: nat)

  // ---------------------------------------------------------------------------------------------------------------
  // Numbers
  // ---------------------------------------------------------------------------------------------------------------

  function Pow256(n: nat): (p: nat)
    ensures p > 0
  {
    if n == 0 then 1 else 256 * Pow256(n - 1)
  }

  /** `x` in `n` bytes, least significant first; higher digits are cut off. */
  function LittleEndian(x: nat, n: nat): (bytes: seq<Byte>)
    ensures |bytes| == n
  {
    if n == 0 then [] else [x % 256] + LittleEndian(x / 256, n - 1)
  }

  function FromLittleEndian(bytes: seq<Byte>): nat {
    if bytes == [] then 0 else bytes[0] + 256 * FromLittleEndian(bytes[1..])
  }

  lemma {:induction false} NumberRoundTrip(x: nat, n: nat)
    requires x < Pow256(n)
    ensures FromLittleEndian(LittleEndian(x, n)) == x
  {
    if n > 0 { NumberRoundTrip(x / 256, n - 1); }
  }

  /** Byte `k` is the digit of 256 to the `k`. */
  lemma {:induction false} LittleEndianByte(x: nat, n: nat, k: nat)
    requires k < n
    ensures LittleEndian(x, n)[k] == x / Pow256(k) % 256
    decreases k
  {
    if k > 0 {
      LittleEndianByte(x / 256, n - 1, k - 1);
      DivideTwice(x, Pow256(k - 1));
    }
  }

  lemma {:induction false} DivideTwice(x: nat, d: nat)
    requires d > 0
    ensures x / 256 / d == x / (256 * d)
  {
    var q := x / 256 / d;
    var a, b := x % 256, x / 256 % d;
    assert x == 256 * (x / 256) + a;
    assert x / 256 == d * q + b by { assert (x / 256) == d * (x / 256 / d) + (x / 256) % d; }
    assert x == (256 * d) * q + (256 * b + a) by { assert 256 * (d * q + b) == (256 * d) * q + 256 * b; }
    assert 0 <= 256 * b + a < 256 * d;
    QuotientIs(x, 256 * d, q, 256 * b + a);
  }

  lemma {:induction false} QuotientIs(x: nat, d: nat, q: nat, r: nat)
    requires 0 < d && r < d && x == d * q + r
    ensures x / d == q
  {
    var p := x / d;
    assert x == d * p + x % d;
    NextMultiple(d, p, q);
    NextMultiple(d, q, p);
  }

  lemma {:induction false} NextMultiple(d: nat, a: nat, b: nat)
    ensures a < b ==> d * a + d <= d * b
    decreases b
  {
    if a < b {
      assert d * b == d * (b - 1) + d;
      NextMultiple(d, a, b - 1);
    }
  }

  /** Every sequence of bytes is the number it stands for. */
  lemma {:induction false} BytesRoundTrip(bytes: seq<Byte>)
    ensures LittleEndian(FromLittleEndian(bytes), |bytes|) == bytes && FromLittleEndian(bytes) < Pow256(|bytes|)
    decreases |bytes|
  {
    if bytes != [] {
      var rest := FromLittleEndian(bytes[1..]);
      BytesRoundTrip(bytes[1..]);
      assert (bytes[0] + 256 * rest) % 256 == bytes[0] && (bytes[0] + 256 * rest) / 256 == rest;
    }
  }

  lemma Widths()
    ensures Pow256(2) == 0x1_0000 && Pow256(4) == 0x1_0000_0000 && Pow256(8) == 0x1_0000_0000_0000_0000
  {
    assert Pow256(1) == 256;
    assert Pow256(3) == 256 * Pow256(2);
    assert Pow256(5) == 256 * Pow256(4);
    assert Pow256(6) == 256 * Pow256(5);
    assert Pow256(7) == 256 * Pow256(6);
  }

  // ---------------------------------------------------------------------------------------------------------------
  // Text
  // ---------------------------------------------------------------------------------------------------------------

  predicate Continuation(s: seq<Byte>, k: nat) { k < |s| && 0x80 <= s[k] <= 0xBF }

  /** Length of the UTF-8 sequence at the start of `s`, or 0 if there is none: no overlong forms, no surrogates. */
  function CharLength(s: seq<Byte>): (n: nat)
    requires s != []
    ensures n <= |s|
  {
    if s[0] < 0x80 then 1
    else if 0xC2 <= s[0] <= 0xDF then if Continuation(s, 1) then 2 else 0
    else if 0xE0 <= s[0] <= 0xEF then
      if Continuation(s, 1) && Continuation(s, 2)
         && (s[0] == 0xE0 ==> s[1] >= 0xA0) && (s[0] == 0xED ==> s[1] <= 0x9F) then 3 else 0
    else if 0xF0 <= s[0] <= 0xF4 then
      if Continuation(s, 1) && Continuation(s, 2) && Continuation(s, 3)
         && (s[0] == 0xF0 ==> s[1] >= 0x90) && (s[0] == 0xF4 ==> s[1] <= 0x8F) then 4 else 0
    else 0
  }

  predicate ValidUtf8(s: seq<Byte>) {
    s == [] || (CharLength(s) > 0 && ValidUtf8(s[CharLength(s)..]))
  }

  /** A character: a Unicode scalar value. */
  predicate IsScalar(c: nat) { c < 0xD800 || 0xE000 <= c < 0x11_0000 }

  /** Its UTF-8 form: the bits of the value, six to each byte that continues, as few bytes as hold them. */
  function Utf8(c: nat): seq<Byte>
    requires IsScalar(c)
  {
    if c < 0x80 then [c]
    else if c < 0x800 then [0xC0 + c / 0x40, 0x80 + c % 0x40]
    else if c < 0x1_0000 then [0xE0 + c / 0x1000, 0x80 + c / 0x40 % 0x40, 0x80 + c % 0x40]
    else [0xF0 + c / 0x4_0000, 0x80 + c / 0x1000 % 0x40, 0x80 + c / 0x40 % 0x40, 0x80 + c % 0x40]
  }

  ghost predicate AreScalars(text: seq<nat>) { forall i :: 0 <= i < |text| ==> IsScalar(text[i]) }

  function Utf8Text(text: seq<nat>): seq<Byte>
    requires AreScalars(text)
  {
    if text == [] then [] else Utf8(text[0]) + Utf8Text(text[1..])
  }

  lemma {:induction false} CharIsRead(c: nat, rest: seq<Byte>)
    requires IsScalar(c)
    ensures Utf8(c) != [] && CharLength(Utf8(c) + rest) == |Utf8(c)|
  {
    var s := Utf8(c) + rest;
    assert forall k :: 0 <= k < |Utf8(c)| ==> s[k] == Utf8(c)[k];
  }

  /** Digits of base 64. */
  lemma {:induction false} Digits(a: nat, b: nat, c: nat, d: nat)
    requires b < 0x40 && c < 0x40 && d < 0x40
    ensures var x := a * 0x4_0000 + b * 0x1000 + c * 0x40 + d;
            && x / 0x4_0000 == a && x / 0x1000 % 0x40 == b && x / 0x1000 == a * 0x40 + b
            && x / 0x40 % 0x40 == c && x / 0x40 == a * 0x1000 + b * 0x40 + c && x % 0x40 == d
  {
    var x := a * 0x4_0000 + b * 0x1000 + c * 0x40 + d;
    QuotientIs(x, 0x4_0000, a, b * 0x1000 + c * 0x40 + d);
    QuotientIs(x, 0x1000, a * 0x40 + b, c * 0x40 + d);
    QuotientIs(x, 0x40, a * 0x1000 + b * 0x40 + c, d);
    QuotientIs(a * 0x40 + b, 0x40, a, b);
    QuotientIs(a * 0x1000 + b * 0x40 + c, 0x40, a * 0x40 + b, c);
  }

  lemma {:induction false} CharExists(s: seq<Byte>) returns (c: nat)
    requires s != [] && CharLength(s) > 0
    ensures IsScalar(c) && Utf8(c) == s[..CharLength(s)]
  {
    var n := CharLength(s);
    if n == 1 { c := s[0]; }
    else if n == 2 { c := TwoBytes(s[0], s[1]); }
    else if n == 3 { c := ThreeBytes(s[0], s[1], s[2]); }
    else { c := FourBytes(s[0], s[1], s[2], s[3]); }
  }

  lemma {:induction false} TwoBytes(a: int, b: int) returns (c: nat)
    requires 0xC2 <= a <= 0xDF && 0x80 <= b <= 0xBF
    ensures IsScalar(c) && Utf8(c) == [a, b]
  {
    Digits(0, 0, a - 0xC0, b - 0x80);
    c := (a - 0xC0) * 0x40 + (b - 0x80);
  }

  lemma {:induction false} ThreeBytes(a: int, b: int, d: int) returns (c: nat)
    requires 0xE0 <= a <= 0xEF && 0x80 <= b <= 0xBF && 0x80 <= d <= 0xBF
    requires (a == 0xE0 ==> b >= 0xA0) && (a == 0xED ==> b <= 0x9F)
    ensures IsScalar(c) && Utf8(c) == [a, b, d]
  {
    Digits(0, a - 0xE0, b - 0x80, d - 0x80);
    c := (a - 0xE0) * 0x1000 + (b - 0x80) * 0x40 + (d - 0x80);
  }

  lemma {:induction false} FourBytes(a: int, b: int, d: int, e: int) returns (c: nat)
    requires 0xF0 <= a <= 0xF4 && 0x80 <= b <= 0xBF && 0x80 <= d <= 0xBF && 0x80 <= e <= 0xBF
    requires (a == 0xF0 ==> b >= 0x90) && (a == 0xF4 ==> b <= 0x8F)
    ensures IsScalar(c) && Utf8(c) == [a, b, d, e]
  {
    Digits(a - 0xF0, b - 0x80, d - 0x80, e - 0x80);
    c := (a - 0xF0) * 0x4_0000 + (b - 0x80) * 0x1000 + (d - 0x80) * 0x40 + (e - 0x80);
  }

  /** The accepted bytes are exactly the UTF-8 forms of texts. */
  lemma {:induction false} ValidUtf8IsText(s: seq<Byte>)
    ensures ValidUtf8(s) <==> exists text :: AreScalars(text) && Utf8Text(text) == s
  {
    if ValidUtf8(s) { TextOf(s); }
    forall text | AreScalars(text) && Utf8Text(text) == s ensures ValidUtf8(s) { TextIsValid(text); }
  }

  lemma {:induction false} TextIsValid(text: seq<nat>)
    requires AreScalars(text)
    ensures ValidUtf8(Utf8Text(text))
    decreases |text|
  {
    if text == [] {
    } else {
      var c, rest := text[0], Utf8Text(text[1..]);
      CharIsRead(c, rest);
      assert (Utf8(c) + rest)[|Utf8(c)|..] == rest;
      TextIsValid(text[1..]);
    }
  }

  lemma {:induction false} TextOf(s: seq<Byte>)
    requires ValidUtf8(s)
    ensures exists text :: AreScalars(text) && Utf8Text(text) == s
    decreases |s|
  {
    if s == [] {
      assert AreScalars([]) && Utf8Text([]) == s;
    } else {
      var n := CharLength(s);
      var c := CharExists(s);
      TextOf(s[n..]);
      var rest :| AreScalars(rest) && Utf8Text(rest) == s[n..];
      var text := [c] + rest;
      assert AreScalars(text) && text[1..] == rest && text[0] == c;
      assert s[..n] + s[n..] == s;
    }
  }

  // ---------------------------------------------------------------------------------------------------------------
  // Header
  // ---------------------------------------------------------------------------------------------------------------

  /** Heads that fit the header: the numbers their fields, the names what is left of it. */
  predicate Fits(h: Head) {
    && h.pageSize < Pow256(4) && h.pageCount < Pow256(8) && h.version < Pow256(8)
    && 36 + |h.subject| + |h.dbId| <= HEADER_BYTES
    && ValidUtf8(h.subject) && ValidUtf8(h.dbId)
  }

  function Encode(h: Head, state: Byte): (bytes: seq<Byte>)
    requires 36 + |h.subject| + |h.dbId| <= HEADER_BYTES
    ensures |bytes| == HEADER_BYTES
  {
    MAGIC + [state, 0, 0, 0] + LittleEndian(h.pageSize, 4) + LittleEndian(h.pageCount, 8) +
    LittleEndian(h.version, 8) + LittleEndian(|h.subject|, 2) + LittleEndian(|h.dbId|, 2) + h.subject + h.dbId +
    Zeros(HEADER_BYTES - 36 - |h.subject| - |h.dbId|)
  }

  /**
   * The head and the state. A header with another magic, a page size or count that SQLite never produces, or names
   * that are cut off or not UTF-8, is none.
   */
  function Decode(bytes: seq<Byte>): Option<(Head, Byte)>
    requires |bytes| == HEADER_BYTES
  {
    if bytes[0..8] != MAGIC then None
    else
      var pageSize, pageCount := FromLittleEndian(bytes[12..16]), FromLittleEndian(bytes[16..24]);
      if pageSize == 0 || pageSize > MAX_PAGE_SIZE || pageCount > MAX_PAGE_COUNT then None
      else
        var a, b := FromLittleEndian(bytes[32..34]), FromLittleEndian(bytes[34..36]);
        if 36 + a + b > |bytes| || !ValidUtf8(bytes[36..36 + a]) || !ValidUtf8(bytes[36 + a..36 + a + b]) then None
        else
          Some((Head(bytes[36..36 + a], bytes[36 + a..36 + a + b], pageSize, pageCount,
                     FromLittleEndian(bytes[24..32])), bytes[8]))
  }

  /** Where the fields of an encoded header are. */
  lemma {:induction false} EncodedFields(h: Head, state: Byte)
    requires 36 + |h.subject| + |h.dbId| <= HEADER_BYTES
    ensures var bytes, a, b := Encode(h, state), |h.subject|, |h.dbId|;
            && bytes[0..8] == MAGIC && bytes[8] == state
            && bytes[12..16] == LittleEndian(h.pageSize, 4) && bytes[16..24] == LittleEndian(h.pageCount, 8)
            && bytes[24..32] == LittleEndian(h.version, 8)
            && bytes[32..34] == LittleEndian(a, 2) && bytes[34..36] == LittleEndian(b, 2)
            && bytes[36..36 + a] == h.subject && bytes[36 + a..36 + a + b] == h.dbId
            && (forall k :: 9 <= k < 12 || 36 + a + b <= k < HEADER_BYTES ==> bytes[k] == 0)
  {
  }

  /** Fields where a header has them, with names as UTF-8 and sizes that SQLite allows. */
  ghost predicate Describes(bytes: seq<Byte>, h: Head, state: Byte) {
    && |bytes| == HEADER_BYTES && bytes[0..8] == MAGIC && bytes[8] == state && Fits(h)
    && 0 < h.pageSize <= MAX_PAGE_SIZE && h.pageCount <= MAX_PAGE_COUNT
    && bytes[12..16] == LittleEndian(h.pageSize, 4) && bytes[16..24] == LittleEndian(h.pageCount, 8)
    && bytes[24..32] == LittleEndian(h.version, 8)
    && bytes[32..34] == LittleEndian(|h.subject|, 2) && bytes[34..36] == LittleEndian(|h.dbId|, 2)
    && bytes[36..36 + |h.subject|] == h.subject
    && bytes[36 + |h.subject|..36 + |h.subject| + |h.dbId|] == h.dbId
  }

  /** Whatever bytes there are, also damaged ones: they decode to a head exactly if they describe it. */
  lemma {:induction false} DecodesWhatItDescribes(bytes: seq<Byte>, h: Head, state: Byte)
    requires |bytes| == HEADER_BYTES
    ensures Decode(bytes) == Some((h, state)) <==> Describes(bytes, h, state)
  {
    BytesRoundTrip(bytes[12..16]);
    BytesRoundTrip(bytes[16..24]);
    BytesRoundTrip(bytes[24..32]);
    BytesRoundTrip(bytes[32..34]);
    BytesRoundTrip(bytes[34..36]);
    if Describes(bytes, h, state) { DescribedDecodes(bytes, h, state); }
  }

  lemma {:induction false} DescribedDecodes(bytes: seq<Byte>, h: Head, state: Byte)
    requires Describes(bytes, h, state)
    ensures Decode(bytes) == Some((h, state))
  {
    Widths();
    NumberRoundTrip(h.pageSize, 4);
    NumberRoundTrip(h.pageCount, 8);
    NumberRoundTrip(h.version, 8);
    NumberRoundTrip(|h.subject|, 2);
    NumberRoundTrip(|h.dbId|, 2);
  }

  /** A head that fits comes back as it was exactly if its page size and page count are ones SQLite allows. */
  lemma {:induction false} HeaderRoundTrip(h: Head, state: Byte)
    requires Fits(h)
    ensures Decode(Encode(h, state)) ==
            if 0 < h.pageSize <= MAX_PAGE_SIZE && h.pageCount <= MAX_PAGE_COUNT then Some((h, state)) else None
  {
    EncodedFields(h, state);
    if 0 < h.pageSize <= MAX_PAGE_SIZE && h.pageCount <= MAX_PAGE_COUNT {
      DescribedDecodes(Encode(h, state), h, state);
    } else {
      NumberRoundTrip(h.pageSize, 4);
      NumberRoundTrip(h.pageCount, 8);
    }
  }

  /** Whatever else an encoded header decodes to, its state is the one that was written. */
  lemma {:induction false} EncodedState(h: Head, state: Byte)
    requires 36 + |h.subject| + |h.dbId| <= HEADER_BYTES
    ensures Decode(Encode(h, state)).Some? ==> Decode(Encode(h, state)).value.1 == state
  {
    EncodedFields(h, state);
  }
}
