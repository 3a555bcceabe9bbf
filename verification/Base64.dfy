/**
 Base64 with the standard alphabet and padding (section 4 of RFC 4648): the encoder that
 the frame script pipes through, and the decoder with which the loader reads it back.
 The decoder accepts exactly what Go's StdEncoding accepts: carriage returns and newlines
 are skipped, padding may only close the last quantum, and the unused low bits of a padded
 quantum are not required to be zero.
 */
module Base64 {
  import opened Common

  const PAD: char := '='

  function Symbol(v: int): (c: char)
    requires 0 <= v < 64
    ensures Value(c) == Some(v)
  {
    if v < 26 then (v + 65) as char
    else if v < 52 then (v + 71) as char
    else if v < 62 then (v - 4) as char
    else if v == 62 then '+'
    else '/'
  }

  function Value(c: char): (v: Option<int>)
    ensures v.Some? ==> 0 <= v.value < 64
  {
    if 'A' <= c <= 'Z' then Some(c as int - 65)
    else if 'a' <= c <= 'z' then Some(c as int - 71)
    else if '0' <= c <= '9' then Some(c as int + 4)
    else if c == '+' then Some(62)
    else if c == '/' then Some(63)
    else None
  }

  /** One to three bytes as one padded quantum of four characters. */
  function EncodeQuantum(b: Bytes): (q: string)
    requires 1 <= |b| <= 3
    ensures |q| == 4
  {
    var c0 := Symbol(b[0] / 4);
    if |b| == 1 then [c0, Symbol(b[0] % 4 * 16), PAD, PAD]
    else
      var c1 := Symbol(b[0] % 4 * 16 + b[1] / 16);
      if |b| == 2 then [c0, c1, Symbol(b[1] % 16 * 4), PAD]
      else [c0, c1, Symbol(b[1] % 16 * 4 + b[2] / 64), Symbol(b[2] % 64)]
  }

  function Encode(b: Bytes): string {
    if b == [] then "" else if |b| <= 3 then EncodeQuantum(b) else EncodeQuantum(b[..3]) + Encode(b[3..])
  }

  /** The bytes of one quantum, or None; `last` says whether it ends the input. */
  function DecodeQuantum(q: string, last: bool): (b: Option<Bytes>)
    requires |q| == 4
  {
    var (v0, v1, v2, v3) := (Value(q[0]), Value(q[1]), Value(q[2]), Value(q[3]));
    if v0.None? || v1.None? then None
    else
      var b0 := v0.value * 4 + v1.value / 16;
      if v2.Some? then
        var b1 := v1.value % 16 * 16 + v2.value / 4;
        if v3.Some? then Some([b0, b1, v2.value % 4 * 64 + v3.value])
        else if q[3] == PAD && last then Some([b0, b1])
        else None
      else if q[2] == PAD && q[3] == PAD && last then Some([b0])
      else None
  }

  function DecodeQuanta(s: string): (b: Option<Bytes>) {
    if s == "" then Some([])
    else if |s| < 4 then None
    else
      match DecodeQuantum(s[..4], |s| == 4)
      case None => None
      case Some(head) =>
        match DecodeQuanta(s[4..])
        case None => None
        case Some(tail) => Some(head + tail)
  }

  function SkipNewlines(s: string): string {
    if s == "" then ""
    else if s[0] == '\r' || s[0] == '\n' then SkipNewlines(s[1..])
    else [s[0]] + SkipNewlines(s[1..])
  }

  function DecodeString(s: string): Option<Bytes> {
    DecodeQuanta(SkipNewlines(s))
  }

  predicate IsBase64Char(c: char) {
    Value(c).Some? || c == PAD
  }

  predicate AllBase64(s: string) {
    forall i :: 0 <= i < |s| ==> IsBase64Char(s[i])
  }

  // ----- the encoder's output -----

  lemma {:induction false} EncodeUsesAlphabet(b: Bytes)
    ensures AllBase64(Encode(b))
  {
    if |b| > 3 {
      EncodeUsesAlphabet(b[3..]);
    }
  }

  lemma {:induction false} SkipNewlinesKeeps(s: string)
    requires AllBase64(s)
    ensures SkipNewlines(s) == s
  {
    if s != "" {
      SkipNewlinesKeeps(s[1..]);
      assert s == [s[0]] + s[1..];
    }
  }

  lemma QuantumRoundTrip(b: Bytes, last: bool)
    requires 1 <= |b| <= 3
    requires |b| == 3 || last
    ensures DecodeQuantum(EncodeQuantum(b), last) == Some(b)
  {
    assert b == if |b| == 1 then [b[0]] else if |b| == 2 then [b[0], b[1]] else [b[0], b[1], b[2]];
  }

  lemma {:induction false} QuantaRoundTrip(b: Bytes)
    ensures DecodeQuanta(Encode(b)) == Some(b)
    ensures b != [] ==> |Encode(b)| >= 4
  {
    if b == [] {
    } else if |b| <= 3 {
      QuantumRoundTrip(b, true);
      var q := EncodeQuantum(b);
      assert q[..4] == q && DecodeQuanta(q[4..]) == Some([]);
      assert b + [] == b;
    } else {
      QuantaRoundTrip(b[3..]);
      QuantumRoundTrip(b[..3], false);
      var q, s := EncodeQuantum(b[..3]), Encode(b);
      assert s[..4] == q && s[4..] == Encode(b[3..]) && |s| > 4;
      assert b[..3] + b[3..] == b;
    }
  }

  /** Decoding what was encoded gives the same bytes back. */
  lemma RoundTrip(b: Bytes)
    ensures DecodeString(Encode(b)) == Some(b)
  {
    EncodeUsesAlphabet(b);
    SkipNewlinesKeeps(Encode(b));
    QuantaRoundTrip(b);
  }

  // ----- what the decoder accepts -----

  lemma {:induction false} QuantaUseAlphabet(s: string, c: char)
    requires DecodeQuanta(s).Some? && c in s
    ensures IsBase64Char(c)
  {
    assert s == s[..4] + s[4..];
    if c in s[..4] {
    } else {
      QuantaUseAlphabet(s[4..], c);
    }
  }

  lemma {:induction false} SkipNewlinesMembers(s: string, c: char)
    requires c in s && c != '\r' && c != '\n'
    ensures c in SkipNewlines(s)
  {
    if s[0] != c {
      assert c in s[1..];
      SkipNewlinesMembers(s[1..], c);
    }
  }

  /** A string with any character outside the alphabet, padding and line ends does not decode. */
  lemma ForeignCharRejected(s: string, c: char)
    requires c in s && !IsBase64Char(c) && c != '\r' && c != '\n'
    ensures DecodeString(s) == None
  {
    SkipNewlinesMembers(s, c);
    if DecodeString(s).Some? {
      QuantaUseAlphabet(SkipNewlines(s), c);
    }
  }

  // ----- the code itself -----

  /** The symbols are those of table 1 of RFC 4648, in its order. */
  lemma SymbolsAreStandard()
    ensures [ Symbol(0), Symbol(1), Symbol(2), Symbol(3), Symbol(4), Symbol(5), Symbol(6), Symbol(7),
              Symbol(8), Symbol(9), Symbol(10), Symbol(11), Symbol(12), Symbol(13), Symbol(14), Symbol(15),
              Symbol(16), Symbol(17), Symbol(18), Symbol(19), Symbol(20), Symbol(21), Symbol(22), Symbol(23),
              Symbol(24), Symbol(25), Symbol(26), Symbol(27), Symbol(28), Symbol(29), Symbol(30), Symbol(31),
              Symbol(32), Symbol(33), Symbol(34), Symbol(35), Symbol(36), Symbol(37), Symbol(38), Symbol(39),
              Symbol(40), Symbol(41), Symbol(42), Symbol(43), Symbol(44), Symbol(45), Symbol(46), Symbol(47),
              Symbol(48), Symbol(49), Symbol(50), Symbol(51), Symbol(52), Symbol(53), Symbol(54), Symbol(55),
              Symbol(56), Symbol(57), Symbol(58), Symbol(59), Symbol(60), Symbol(61), Symbol(62), Symbol(63) ]
         == "ABCDEFGHIJKLMNOPQRSTUVWXYZabcdefghijklmnopqrstuvwxyz0123456789+/"
  {
  }

  /** A character has a value exactly when it is the symbol of that value. */
  lemma ValueOfSymbol(c: char, v: int)
    ensures Value(c) == Some(v) <==> 0 <= v < 64 && Symbol(v) == c
  {
  }

  /** Three bytes at a time, high bits first; one or two left over are padded. */
  lemma EncodesAsStandard(a: byte, b: byte, c: byte, rest: Bytes)
    ensures Encode([a]) == [Symbol(a / 4), Symbol(a % 4 * 16), '=', '=']
    ensures Encode([a, b]) == [Symbol(a / 4), Symbol(a % 4 * 16 + b / 16), Symbol(b % 16 * 4), '=']
    ensures Encode([a, b, c] + rest)
         == [Symbol(a / 4), Symbol(a % 4 * 16 + b / 16), Symbol(b % 16 * 4 + c / 64), Symbol(c % 64)] + Encode(rest)
  {
    if rest != [] {
      assert ([a, b, c] + rest)[..3] == [a, b, c] && ([a, b, c] + rest)[3..] == rest;
    } else {
      assert [a, b, c] + rest == [a, b, c];
    }
  }

  lemma {:induction false} SkipNewlinesSplit(s: string, t: string)
    ensures SkipNewlines(s + t) == SkipNewlines(s) + SkipNewlines(t)
  {
    if s == "" {
      assert s + t == t;
    } else {
      assert (s + t)[0] == s[0] && (s + t)[1..] == s[1..] + t;
      SkipNewlinesSplit(s[1..], t);
    }
  }

  /** Line ends do not matter, wherever they stand. */
  lemma LineEndsIgnored(s: string, c: char, t: string)
    requires c == '\r' || c == '\n'
    ensures DecodeString(s + [c] + t) == DecodeString(s + t)
  {
    SkipNewlinesSplit(s + [c], t);
    SkipNewlinesSplit(s, [c]);
    SkipNewlinesSplit(s, t);
    assert [c][1..] == "";
    assert SkipNewlines(s) + "" == SkipNewlines(s);
  }

  // ----- exactly what the decoder accepts -----

  /** A character stands for these six bits. */
  predicate Is(c: char, v: int) {
    Value(c) == Some(v)
  }

  /** The four characters carry these one to three bytes; what a padded quantum does not need is free. */
  predicate Carries(q: string, b: Bytes)
    requires |q| == 4 && 1 <= |b| <= 3
  {
    && Is(q[0], b[0] / 4)
    && (if |b| == 1 then Value(q[1]).Some? && Value(q[1]).value / 16 == b[0] % 4 && q[2] == q[3] == '='
        else
          && Is(q[1], b[0] % 4 * 16 + b[1] / 16)
          && (if |b| == 2 then Value(q[2]).Some? && Value(q[2]).value / 4 == b[1] % 16 && q[3] == '='
              else Is(q[2], b[1] % 16 * 4 + b[2] / 64) && Is(q[3], b[2] % 64)))
  }

  /** The text is the bytes, three at a time, in quanta of four characters; only the last may be padded. */
  predicate Spells(t: string, b: Bytes) {
    if |b| <= 3 then (if b == [] then t == "" else |t| == 4 && Carries(t, b))
    else |t| >= 4 && Carries(t[..4], b[..3]) && Spells(t[4..], b[3..])
  }

  /** Two groups of six bits that share a byte, taken apart again. */
  lemma Regroup(v0: int, v1: int, k: int, m: int, b: int)
    requires 0 <= v0 < 64 && 0 <= v1 < 64
    requires (k == 4 && m == 16) || (k == 16 && m == 4) || (k == 64 && m == 1)
    requires b == v0 % (256 / k) * k + v1 / m
    ensures b / k == v0 % (256 / k) && b % k == v1 / m
  {
  }

  lemma QuantumDecodes(q: string, b: Bytes, last: bool)
    requires |q| == 4
    ensures DecodeQuantum(q, last) == Some(b) ==> 1 <= |b| <= 3 && (|b| == 3 || last) && Carries(q, b)
  {
    var (v0, v1, v2, v3) := (Value(q[0]), Value(q[1]), Value(q[2]), Value(q[3]));
    if v0.Some? && v1.Some? {
      Regroup(v0.value, v1.value, 4, 16, v0.value * 4 + v1.value / 16);
      if v2.Some? {
        Regroup(v1.value, v2.value, 16, 4, v1.value % 16 * 16 + v2.value / 4);
        if v3.Some? {
          Regroup(v2.value, v3.value, 64, 1, v2.value % 4 * 64 + v3.value);
        }
      }
    }
  }

  lemma CarriedDecodes(q: string, b: Bytes, last: bool)
    requires |q| == 4 && 1 <= |b| <= 3 && (|b| == 3 || last) && Carries(q, b)
    ensures DecodeQuantum(q, last) == Some(b)
  {
    assert b == if |b| == 1 then [b[0]] else if |b| == 2 then [b[0], b[1]] else [b[0], b[1], b[2]];
  }

  lemma {:induction false} DecodedIsSpelt(t: string, b: Bytes)
    requires DecodeQuanta(t) == Some(b)
    ensures Spells(t, b)
    decreases |t|
  {
    if t != "" {
      var head := DecodeQuantum(t[..4], |t| == 4).value;
      var tail := DecodeQuanta(t[4..]).value;
      QuantumDecodes(t[..4], head, |t| == 4);
      DecodedIsSpelt(t[4..], tail);
      if |t| == 4 {
        assert t[..4] == t && t[4..] == "" && head + [] == head;
      } else {
        assert tail != [];
        assert b[..3] == head && b[3..] == tail;
      }
    }
  }

  lemma {:induction false} SpeltIsDecoded(t: string, b: Bytes)
    requires Spells(t, b)
    ensures DecodeQuanta(t) == Some(b)
  {
    if b == [] {
    } else if |b| <= 3 {
      assert t[..4] == t && t[4..] == "" && b + [] == b;
      CarriedDecodes(t, b, true);
    } else {
      SpeltIsDecoded(t[4..], b[3..]);
      CarriedDecodes(t[..4], b[..3], |t| == 4);
      assert b[..3] + b[3..] == b;
    }
  }

  /** A text decodes to these bytes if and only if, line ends apart, it spells them. */
  lemma DecodesIff(s: string, b: Bytes)
    ensures DecodeString(s) == Some(b) <==> Spells(SkipNewlines(s), b)
  {
    if DecodeString(s) == Some(b) {
      DecodedIsSpelt(SkipNewlines(s), b);
    }
    if Spells(SkipNewlines(s), b) {
      SpeltIsDecoded(SkipNewlines(s), b);
    }
  }
}
