/**
 The sealed package's layout: two fields, each behind a 4-byte little-endian length, with
 nothing after the second. The same layout is used twice, nested: signature and data inside
 the ciphertext, kernel and config inside the data.
 */
module Layout {
  import opened Common

  const TWO31: int := 0x8000_0000
  const TWO32: int := 0x1_0000_0000

  /** Width of Go's `int`: the device is built for 32-bit ARM, other hosts are 64-bit. */
  datatype IntWidth = Int32 | Int64

  /** The least length that no field can have and still be read back. */
  function LengthLimit(width: IntWidth): int {
    if width == Int32 then TWO31 else TWO32
  }

  /** What a slice can hold at all: its length is an `int`. */
  ghost predicate Representable(width: IntWidth, data: Bytes) {
    width == Int32 ==> |data| < TWO31
  }

  /** The conversion `int(n)` of an unsigned 32-bit number. */
  function IntOf(width: IntWidth, n: int): int {
    if width == Int32 && n >= TWO31 then n - TWO32 else n
  }

  function EncodeLength(n: int): (b: Bytes)
    requires 0 <= n < TWO32
    ensures |b| == 4
  {
    [n % 256, n / 256 % 256, n / 65536 % 256, n / 16777216]
  }

  function DecodeLength(b: Bytes): (n: int)
    requires |b| == 4
    ensures 0 <= n < TWO32
  {
    b[0] as int + 256 * (b[1] as int) + 65536 * (b[2] as int) + 16777216 * (b[3] as int)
  }

  lemma LengthRoundTrip(n: int)
    requires 0 <= n < TWO32
    ensures DecodeLength(EncodeLength(n)) == n
  {
    assert n % 65536 == n % 256 + 256 * (n / 256 % 256);
  }

  lemma LengthCanonical(b: Bytes)
    requires |b| == 4
    ensures EncodeLength(DecodeLength(b)) == b
  {
    var n := DecodeLength(b);
    assert n / 256 == b[1] as int + 256 * (b[2] as int) + 65536 * (b[3] as int);
    assert n / 65536 == b[2] as int + 256 * (b[3] as int);
    assert n / 16777216 == b[3];
    assert b == [b[0], b[1], b[2], b[3]];
  }

  /** One field as the sealer prints it; the length is converted to 32 bits, so it wraps. */
  function Field(x: Bytes): Bytes {
    EncodeLength(|x| % TWO32) + x
  }

  function TwoFields(a: Bytes, b: Bytes): Bytes {
    Field(a) + Field(b)
  }

  // ----- reading it back -----

  datatype Split = Fields(first: Bytes, second: Bytes) | Malformed | SlicePanic

  /** Some pair of fields within the length limit prints to these bytes. */
  ghost predicate IsLayoutOf(width: IntWidth, data: Bytes, a: Bytes, b: Bytes) {
    data == TwoFields(a, b) && |a| < LengthLimit(width) && |b| < LengthLimit(width)
  }

  /** On a 32-bit device a first length of 2^31 or more passes the length check as negative. */
  predicate FirstLengthOverflows(width: IntWidth, data: Bytes) {
    width == Int32 && |data| >= 4 && DecodeLength(data[..4]) >= TWO31
  }

  /** The bytes hold a field of `n` bytes, a second length and exactly that many more bytes. */
  predicate Cut(data: Bytes, n: int, m: int) {
    && 0 <= n && 0 <= m
    && |data| == 8 + n + m
    && DecodeLength(data[..4]) == n
    && DecodeLength(data[4 + n..8 + n]) == m
  }

  lemma CutAt(p: Bytes, a: Bytes, q: Bytes, b: Bytes)
    requires |p| == 4 && DecodeLength(p) == |a|
    requires |q| == 4 && DecodeLength(q) == |b|
    ensures
      var data := (p + a) + (q + b);
      Cut(data, |a|, |b|) && data[4..4 + |a|] == a && data[8 + |a|..] == b
  {
    var data := (p + a) + (q + b);
    assert data[..4] == p && data[4 + |a|..8 + |a|] == q;
  }

  lemma FieldPrefix(x: Bytes) returns (length: Bytes)
    requires |x| < TWO32
    ensures |length| == 4 && DecodeLength(length) == |x| && Field(x) == length + x
  {
    assert |x| % TWO32 == |x|;
    length := EncodeLength(|x|);
    LengthRoundTrip(|x|);
  }

  /** Where the parts of a layout lie. */
  lemma FieldsAt(a: Bytes, b: Bytes)
    requires |a| < TWO32 && |b| < TWO32
    ensures
      var data := TwoFields(a, b);
      Cut(data, |a|, |b|) && data[4..4 + |a|] == a && data[8 + |a|..] == b
  {
    var p := FieldPrefix(a);
    var q := FieldPrefix(b);
    CutAt(p, a, q, b);
  }

  lemma FieldOf(length: Bytes, x: Bytes)
    requires |length| == 4 && DecodeLength(length) == |x|
    ensures Field(x) == length + x
  {
    LengthCanonical(length);
  }

  /** Bytes that can be cut are the layout of what is cut out. */
  lemma CutIsLayout(data: Bytes, n: int, m: int)
    requires Cut(data, n, m)
    ensures data == TwoFields(data[4..4 + n], data[8 + n..])
  {
    FieldOf(data[..4], data[4..4 + n]);
    FieldOf(data[4 + n..8 + n], data[8 + n..]);
    assert data == (data[..4] + data[4..4 + n]) + (data[4 + n..8 + n] + data[8 + n..]);
  }

  /** A layout determines its two fields. */
  lemma LayoutUnique(width: IntWidth, data: Bytes, a: Bytes, b: Bytes, a': Bytes, b': Bytes)
    requires IsLayoutOf(width, data, a, b) && IsLayoutOf(width, data, a', b')
    ensures a == a' && b == b'
  {
    FieldsAt(a, b);
    FieldsAt(a', b');
  }

  lemma OnlyLayout(width: IntWidth, data: Bytes, a: Bytes, b: Bytes)
    requires IsLayoutOf(width, data, a, b)
    ensures forall a', b' :: IsLayoutOf(width, data, a', b') ==> a == a' && b == b'
  {
    forall a', b' | IsLayoutOf(width, data, a', b')
      ensures a == a' && b == b'
    {
      LayoutUnique(width, data, a, b, a', b');
    }
  }

  /**
   The reader's cursor steps: take a length, take that many bytes, take the second length,
   and require that exactly that many bytes are left. It answers with the fields exactly
   when the bytes are a layout of them within the limit, and its one out-of-range slice
   happens exactly when the first length overflows a 32-bit int.
   */
  method SplitFields(width: IntWidth, input: Bytes) returns (r: Split)
    requires Representable(width, input)
    ensures r.Fields? ==> IsLayoutOf(width, input, r.first, r.second)
    ensures forall a, b :: IsLayoutOf(width, input, a, b) ==> r == Fields(a, b)
    ensures r == SlicePanic <==> FirstLengthOverflows(width, input)
    ensures width == Int64 ==> r != SlicePanic
  {
    ghost var n, m := -1, -1;
    if a, b :| IsLayoutOf(width, input, a, b) {
      FieldsAt(a, b);
      n, m := |a|, |b|;
    }
    var data := input;
    if |data| < 4 {
      return Malformed;
    }
    var firstLen := DecodeLength(data[..4]);
    data := data[4..];

    if |data| < IntOf(width, firstLen) {
      return Malformed;
    }
    if firstLen > |data| {
      return SlicePanic;
    }
    var first := data[..firstLen];
    data := data[firstLen..];

    if |data| < 4 {
      return Malformed;
    }
    assert data[..4] == input[4 + firstLen..8 + firstLen];
    var secondLen := DecodeLength(data[..4]);
    data := data[4..];

    if |data| != IntOf(width, secondLen) {
      return Malformed;
    }
    assert first == input[4..4 + firstLen] && data == input[8 + firstLen..];
    CutIsLayout(input, firstLen, secondLen);
    OnlyLayout(width, input, first, data);
    return Fields(first, data);
  }

  /** The number that bytes stand for when the low byte comes first. */
  function LittleEndian(b: Bytes): nat {
    if b == [] then 0 else b[0] as int + 256 * LittleEndian(b[1..])
  }

  lemma LengthIsLittleEndian(b: Bytes)
    requires |b| == 4
    ensures DecodeLength(b) == LittleEndian(b)
  {
    assert LittleEndian(b[3..]) == b[3];
    assert b[2..][1..] == b[3..] && b[1..][1..] == b[2..];
    assert LittleEndian(b[2..]) == b[2] as int + 256 * LittleEndian(b[3..]);
  }

  /**
   The layout byte by byte: each field behind its length in four bytes, the low byte first, and
   nothing after the second. Bytes are a layout within the limit exactly when they are this.
   */
  lemma LayoutIff(width: IntWidth, data: Bytes, a: Bytes, b: Bytes)
    ensures IsLayoutOf(width, data, a, b)
       <==> && |data| == 8 + |a| + |b|
            && |a| < LengthLimit(width) && |b| < LengthLimit(width)
            && LittleEndian(data[..4]) == |a| && data[4..4 + |a|] == a
            && LittleEndian(data[4 + |a|..8 + |a|]) == |b| && data[8 + |a|..] == b
    ensures LengthLimit(width) == if width == Int32 then 0x8000_0000 else 0x1_0000_0000
  {
    if IsLayoutOf(width, data, a, b) {
      FieldsAt(a, b);
    }
    if |data| == 8 + |a| + |b| {
      LengthIsLittleEndian(data[..4]);
      LengthIsLittleEndian(data[4 + |a|..8 + |a|]);
      if Cut(data, |a|, |b|) {
        CutIsLayout(data, |a|, |b|);
      }
    }
  }
}
