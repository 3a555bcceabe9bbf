/**
 The line that is signed: the digest of the package data in lower-case hexadecimal, two
 spaces and the package's file name, and the pattern that reads it back.
 */
module SignedLine {
  import opened Common

  const FILENAME := "homegw-kexec.v1.bin"

  function HexDigit(v: int): (c: char)
    requires 0 <= v < 16
    ensures HexValue(c) == Some(v)
  {
    if v < 10 then (v + 48) as char else (v + 87) as char
  }

  /** The characters of the class [0-9a-f]. */
  function HexValue(c: char): (v: Option<int>)
    ensures v.Some? ==> 0 <= v.value < 16
  {
    if '0' <= c <= '9' then Some(c as int - 48)
    else if 'a' <= c <= 'f' then Some(c as int - 87)
    else None
  }

  function HexEncode(b: Bytes): (s: string)
    ensures |s| == 2 * |b|
  {
    if b == [] then "" else [HexDigit(b[0] / 16), HexDigit(b[0] % 16)] + HexEncode(b[1..])
  }

  function HexDecode(s: string): (b: Option<Bytes>)
    ensures b.Some? ==> |s| == 2 * |b.value|
  {
    if s == "" then Some([])
    else if |s| < 2 || HexValue(s[0]).None? || HexValue(s[1]).None? then None
    else
      match HexDecode(s[2..])
      case None => None
      case Some(rest) => Some([HexValue(s[0]).value * 16 + HexValue(s[1]).value] + rest)
  }

  /** Two lower-case digits for each byte, the high half first. */
  lemma {:induction false} HexDigitsAt(b: Bytes, i: nat)
    requires i < |b|
    ensures HexEncode(b)[2 * i] == "0123456789abcdef"[b[i] / 16]
    ensures HexEncode(b)[2 * i + 1] == "0123456789abcdef"[b[i] % 16]
  {
    if i > 0 {
      HexDigitsAt(b[1..], i - 1);
    }
  }

  lemma {:induction false} HexRoundTrip(b: Bytes)
    ensures HexDecode(HexEncode(b)) == Some(b)
  {
    if b != [] {
      HexRoundTrip(b[1..]);
      assert HexEncode(b)[2..] == HexEncode(b[1..]);
      assert b == [b[0]] + b[1..];
    }
  }

  lemma HexDigitOfValue(c: char)
    requires HexValue(c).Some?
    ensures HexDigit(HexValue(c).value) == c
  {
  }

  lemma {:induction false} HexCanonical(s: string)
    requires HexDecode(s).Some?
    ensures HexEncode(HexDecode(s).value) == s
  {
    if s != "" {
      HexCanonical(s[2..]);
      HexDigitOfValue(s[0]);
      HexDigitOfValue(s[1]);
      var (b, hi, lo) := (HexDecode(s).value, HexValue(s[0]).value, HexValue(s[1]).value);
      assert b[0] == hi * 16 + lo && b[0] / 16 == hi && b[0] % 16 == lo;
      assert b[1..] == HexDecode(s[2..]).value;
      assert s == [s[0], s[1]] + s[2..];
    }
  }

  /** The line that the sealer asks to have signed. */
  function SigningPayload(digest: Digest): string {
    HexEncode(digest) + "  " + FILENAME
  }

  lemma PayloadIs(digest: Digest)
    ensures SigningPayload(digest) == HexEncode(digest) + "  homegw-kexec.v1.bin"
  {
    assert "  " + FILENAME == "  homegw-kexec.v1.bin";
    assert SigningPayload(digest) == HexEncode(digest) + ("  " + FILENAME);
  }

  /** `strings.Split(text, "\n")[0]`. */
  function FirstLine(text: string): (line: string)
    ensures '\n' !in line && (line == text || line + "\n" <= text)
  {
    if text == "" || text[0] == '\n' then "" else [text[0]] + FirstLine(text[1..])
  }

  datatype ParsedLine = ParsedLine(digest: Bytes, filename: string)

  /** The match of `^([0-9a-f]{64})  (.+)$` on one line, with the first group decoded. */
  function ParseLine(line: string): Option<ParsedLine> {
    if |line| < 67 || line[64..66] != "  " then None
    else
      match HexDecode(line[..64])
      case None => None
      case Some(digest) => Some(ParsedLine(digest, line[66..]))
  }

  /** A line parses exactly when it is 64 hex digits, two spaces and a non-empty name. */
  lemma ParseLineExact(line: string, digest: Bytes, filename: string)
    ensures ParseLine(line) == Some(ParsedLine(digest, filename))
       <==> |digest| == 32 && filename != "" && line == HexEncode(digest) + "  " + filename
  {
    if |digest| == 32 && filename != "" && line == HexEncode(digest) + "  " + filename {
      assert line[..64] == HexEncode(digest) && line[64..66] == "  " && line[66..] == filename;
      HexRoundTrip(digest);
    }
    if ParseLine(line) == Some(ParsedLine(digest, filename)) {
      HexCanonical(line[..64]);
      assert line == line[..64] + line[64..66] + line[66..];
    }
  }

  /** The sealer's line is read back to the same digest and the expected name. */
  lemma PayloadParses(digest: Digest)
    ensures ParseLine(SigningPayload(digest)) == Some(ParsedLine(digest, FILENAME))
    ensures '\n' !in SigningPayload(digest)
  {
    ParseLineExact(SigningPayload(digest), digest, FILENAME);
    HexHasNoNewline(digest);
  }

  lemma {:induction false} HexHasNoNewline(b: Bytes)
    ensures '\n' !in HexEncode(b)
  {
    if b != [] {
      HexHasNoNewline(b[1..]);
    }
  }
}
