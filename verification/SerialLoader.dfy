/**
 The serial bootstrap of the configuration: the frame that the host script prints, and the
 loader that waits for it on the USB serial gadget. The loader must find a good frame after
 arbitrary noise, whatever it had read before.

 Lines are the tokens of the scanner, already split; a line longer than the scanner's
 buffer ends the stream.
 */
module SerialLoader {
  import opened Common
  import Base64

  const BEGIN := "<BEGIN>"
  const END := "<END>"
  const COLUMNS := 80

  // ----- the frame printed by the script -----

  /** `base64 -w 80`: rows of at most 80 characters. */
  function Wrap(s: string): (rows: seq<string>) {
    if s == "" then []
    else if |s| <= COLUMNS then [s]
    else [s[..COLUMNS]] + Wrap(s[COLUMNS..])
  }

  /** The lines of one frame; the script ends the data with one empty line. */
  function Frame(sha: Bytes -> Digest, data: Bytes): seq<string> {
    [BEGIN, Base64.Encode(sha(data))] + Wrap(Base64.Encode(data)) + ["", END]
  }

  function Join(rows: seq<string>): string {
    if rows == [] then "" else rows[0] + Join(rows[1..])
  }

  // ----- the loader as an automaton over lines -----

  datatype Mode =
    | Waiting
    | NeedHash
    | Collecting(hash: string, data: string)
    | Accepted(config: Bytes)

  /** The checks made once the data is complete; any failure sends the loader back to waiting. */
  function Judge(sha: Bytes -> Digest, hash: string, data: string): (m: Mode)
    ensures m.Waiting? || m.Accepted?
  {
    match Base64.DecodeString(hash)
    case None => Waiting
    case Some(expected) =>
      if |expected| != 32 then Waiting
      else
        match Base64.DecodeString(data)
        case None => Waiting
        case Some(config) => if sha(config) == expected then Accepted(config) else Waiting
  }

  function Feed(sha: Bytes -> Digest, m: Mode, line: string): Mode {
    match m
    case Waiting => if line == BEGIN then NeedHash else Waiting
    case NeedHash => Collecting(line, "")
    case Collecting(hash, data) => if line == END then Judge(sha, hash, data) else Collecting(hash, data + line)
    case Accepted(_) => m
  }

  function FeedAll(sha: Bytes -> Digest, m: Mode, lines: seq<string>): Mode
    decreases |lines|
  {
    if lines == [] then m else FeedAll(sha, Feed(sha, m, lines[0]), lines[1..])
  }

  /** The end of the stream: pending data is judged as if it had been closed. */
  function AtEnd(sha: Bytes -> Digest, m: Mode): Option<Bytes> {
    var m' := if m.Collecting? then Judge(sha, m.hash, m.data) else m;
    if m'.Accepted? then Some(m'.config) else None
  }

  /** What the loader makes of a whole stream; None is its fatal exit. */
  function Load(sha: Bytes -> Digest, lines: seq<string>): Option<Bytes> {
    AtEnd(sha, FeedAll(sha, Waiting, lines))
  }

  lemma {:induction false} FeedAllSplit(sha: Bytes -> Digest, m: Mode, a: seq<string>, b: seq<string>)
    ensures FeedAll(sha, m, a + b) == FeedAll(sha, FeedAll(sha, m, a), b)
    decreases |a|
  {
    if a == [] {
      assert a + b == b;
    } else {
      assert (a + b)[0] == a[0] && (a + b)[1..] == a[1..] + b;
      FeedAllSplit(sha, Feed(sha, m, a[0]), a[1..], b);
    }
  }

  lemma FeedLast(sha: Bytes -> Digest, m: Mode, lines: seq<string>, line: string)
    ensures FeedAll(sha, m, lines + [line]) == Feed(sha, FeedAll(sha, m, lines), line)
  {
    FeedAllSplit(sha, m, lines, [line]);
    assert [line][1..] == [];
  }

  lemma {:induction false} AcceptedStays(sha: Bytes -> Digest, config: Bytes, lines: seq<string>)
    ensures FeedAll(sha, Accepted(config), lines) == Accepted(config)
  {
    if lines != [] {
      AcceptedStays(sha, config, lines[1..]);
    }
  }

  /**
   The loader itself, in its nested loops: skip to the marker, read the hash line, append
   data lines to the closing marker, judge, retry. None is the fatal exit at end of stream.
   */
  method LoadConfigFromGs0(sha: Bytes -> Digest, lines: seq<string>) returns (r: Option<Bytes>)
    ensures r == Load(sha, lines)
  {
    var i := 0;
    while true
      invariant 0 <= i <= |lines|
      invariant Load(sha, lines) == Load(sha, lines[i..])
      decreases |lines| - i
    {
      ghost var all, top := FeedAll(sha, Waiting, lines[i..]), i;
      var found := false;
      while i < |lines| && !found
        invariant top <= i <= |lines|
        invariant all == FeedAll(sha, if found then NeedHash else Waiting, lines[i..])
        decreases |lines| - i
      {
        found := lines[i] == BEGIN;
        assert lines[i..][0] == lines[i] && lines[i..][1..] == lines[i + 1..];
        i := i + 1;
      }

      if i == |lines| {
        return None;
      }
      var hashB64 := lines[i];
      assert lines[i..][0] == lines[i] && lines[i..][1..] == lines[i + 1..];
      i := i + 1;

      var dataB64 := "";
      var closed := false;
      while i < |lines| && !closed
        invariant top < i <= |lines|
        invariant
          var m := if closed then Judge(sha, hashB64, dataB64) else Collecting(hashB64, dataB64);
          all == FeedAll(sha, m, lines[i..])
        decreases |lines| - i
      {
        assert lines[i..][0] == lines[i] && lines[i..][1..] == lines[i + 1..];
        if lines[i] == END {
          closed := true;
        } else {
          dataB64 := dataB64 + lines[i];
        }
        i := i + 1;
      }

      var expected := Base64.DecodeString(hashB64);
      if expected.None? || |expected.value| != 32 {
        continue;
      }
      var config := Base64.DecodeString(dataB64);
      if config.None? || sha(config.value) != expected.value {
        continue;
      }
      AcceptedStays(sha, config.value, lines[i..]);
      return Some(config.value);
    }
  }

  // ----- round trip of one frame -----

  lemma {:induction false} JoinAppend(a: seq<string>, b: seq<string>)
    ensures Join(a + b) == Join(a) + Join(b)
  {
    if a == [] {
      assert a + b == b;
    } else {
      assert (a + b)[0] == a[0] && (a + b)[1..] == a[1..] + b;
      JoinAppend(a[1..], b);
    }
  }

  /** Wrapping only cuts: the rows are 80 wide, the last perhaps narrower but not empty, and join to the same text. */
  lemma {:induction false} WrapJoins(s: string)
    ensures Join(Wrap(s)) == s
    ensures forall row :: row in Wrap(s) ==> 0 < |row| <= 80
    ensures forall i :: 0 <= i < |Wrap(s)| - 1 ==> |Wrap(s)[i]| == 80
  {
    if s == "" {
    } else if |s| <= COLUMNS {
      assert Wrap(s)[1..] == [];
    } else {
      WrapJoins(s[COLUMNS..]);
      assert Wrap(s)[1..] == Wrap(s[COLUMNS..]);
      assert s == s[..COLUMNS] + s[COLUMNS..];
    }
  }

  lemma {:induction false} RowOfText(s: string, row: string)
    requires row in Wrap(s)
    ensures row != "" && row[0] in s
  {
    if |s| > COLUMNS && row != s[..COLUMNS] {
      RowOfText(s[COLUMNS..], row);
    }
  }

  /** No line of base64 text, whole or wrapped, can be taken for a marker. */
  lemma DataIsNoMarker(b: Bytes, line: string)
    requires line in Wrap(Base64.Encode(b)) || line == Base64.Encode(b)
    ensures line != BEGIN && line != END
  {
    if line == BEGIN || line == END {
      assert line[0] == '<' && !Base64.IsBase64Char('<');
      if line in Wrap(Base64.Encode(b)) {
        RowOfText(Base64.Encode(b), line);
      }
      Base64.EncodeUsesAlphabet(b);
      assert false;
    }
  }

  lemma {:induction false} CollectRows(sha: Bytes -> Digest, hash: string, data: string, rows: seq<string>)
    requires END !in rows
    ensures FeedAll(sha, Collecting(hash, data), rows) == Collecting(hash, data + Join(rows))
    decreases |rows|
  {
    if rows == [] {
      assert data + "" == data;
    } else {
      CollectRows(sha, hash, data + rows[0], rows[1..]);
      assert data + rows[0] + Join(rows[1..]) == data + (rows[0] + Join(rows[1..]));
    }
  }

  /** The lines between the opening marker and the closing one. */
  function Payload(sha: Bytes -> Digest, data: Bytes): seq<string> {
    [Base64.Encode(sha(data))] + Wrap(Base64.Encode(data)) + [""]
  }

  lemma FrameParts(sha: Bytes -> Digest, data: Bytes)
    ensures Frame(sha, data) == [BEGIN] + Payload(sha, data) + [END]
    ensures END !in Payload(sha, data)
  {
    forall line | line in Payload(sha, data)
      ensures line != END
    {
      if line != "" {
        DataIsNoMarker(if line == Base64.Encode(sha(data)) then sha(data) else data, line);
      }
    }
  }

  lemma HeaderRead(sha: Bytes -> Digest, hash: string)
    ensures FeedAll(sha, Waiting, [BEGIN, hash]) == Collecting(hash, "")
  {
    assert [BEGIN, hash] == [BEGIN] + [hash];
    FeedAllSplit(sha, Waiting, [BEGIN], [hash]);
    assert [BEGIN][1..] == [] && [hash][1..] == [];
  }

  lemma RowsJoin(data: Bytes)
    ensures "" + Join(Wrap(Base64.Encode(data)) + [""]) == Base64.Encode(data)
  {
    WrapJoins(Base64.Encode(data));
    JoinAppend(Wrap(Base64.Encode(data)), [""]);
    assert Join([""]) == "";
  }

  /** The texts that the script prints pass every check of the loader. */
  lemma JudgeGood(sha: Bytes -> Digest, data: Bytes)
    ensures Judge(sha, Base64.Encode(sha(data)), Base64.Encode(data)) == Accepted(data)
  {
    Base64.RoundTrip(sha(data));
    Base64.RoundTrip(data);
  }

  /** A waiting loader that has read a frame up to its closing marker holds exactly the two texts. */
  lemma OpenFrameRead(sha: Bytes -> Digest, data: Bytes)
    ensures FeedAll(sha, Waiting, [BEGIN] + Payload(sha, data))
         == Collecting(Base64.Encode(sha(data)), Base64.Encode(data))
  {
    var (hash, rows) := (Base64.Encode(sha(data)), Wrap(Base64.Encode(data)) + [""]);
    FrameParts(sha, data);
    assert [BEGIN] + Payload(sha, data) == [BEGIN, hash] + rows;
    FeedAllSplit(sha, Waiting, [BEGIN, hash], rows);
    HeaderRead(sha, hash);
    CollectRows(sha, hash, "", rows);
    RowsJoin(data);
  }

  /** Every byte string survives printing as a frame and reading by a waiting loader. */
  lemma FrameRoundTrip(sha: Bytes -> Digest, data: Bytes)
    ensures FeedAll(sha, Waiting, Frame(sha, data)) == Accepted(data)
  {
    FrameParts(sha, data);
    OpenFrameRead(sha, data);
    FeedLast(sha, Waiting, [BEGIN] + Payload(sha, data), END);
    JudgeGood(sha, data);
  }

  /** The closing marker is not needed: when the stream ends inside the frame, its data is accepted all the same. */
  lemma UnclosedFrameAccepted(sha: Bytes -> Digest, noise: seq<string>, data: Bytes)
    requires FeedAll(sha, Waiting, noise).Waiting?
    ensures Load(sha, noise + ([BEGIN] + Payload(sha, data))) == Some(data)
  {
    FeedAllSplit(sha, Waiting, noise, [BEGIN] + Payload(sha, data));
    OpenFrameRead(sha, data);
    JudgeGood(sha, data);
  }

  // ----- recovery from noise -----

  /** A frame that arrives while the loader is inside an earlier one is swallowed whole. */
  lemma FrameSwallowed(sha: Bytes -> Digest, m: Mode, data: Bytes)
    requires m.NeedHash? || m.Collecting?
    ensures FeedAll(sha, m, Frame(sha, data)) == Waiting
  {
    FrameParts(sha, data);
    var payload := Payload(sha, data);
    FeedAllSplit(sha, m, [BEGIN] + payload, [END]);
    FeedAllSplit(sha, m, [BEGIN], payload);
    assert [BEGIN][1..] == [] && [END][1..] == [];
    assert BEGIN[0] == '<' && !Base64.IsBase64Char('<');
    var after := Feed(sha, m, BEGIN);
    CollectRows(sha, after.hash, after.data, payload);
    if m.NeedHash? {
      Base64.ForeignCharRejected(BEGIN, '<');
    } else {
      var text := m.data + BEGIN + Join(payload);
      assert text[|m.data|] == '<';
      Base64.ForeignCharRejected(text, '<');
    }
  }

  /**
   Self-stabilisation, exactly. Whatever lines came first, unless they already made the
   loader accept, one good frame is accepted if and only if the loader was waiting; if it
   was not, that frame brings it back to waiting and the next good frame is accepted.
   */
  lemma Stabilises(sha: Bytes -> Digest, noise: seq<string>, first: Bytes, second: Bytes, rest: seq<string>)
    requires !FeedAll(sha, Waiting, noise).Accepted?
    ensures
      var waiting := FeedAll(sha, Waiting, noise).Waiting?;
      && (Load(sha, noise + Frame(sha, first)) == Some(first) <==> waiting)
      && (Load(sha, noise + Frame(sha, first)) == None <==> !waiting)
      && Load(sha, noise + Frame(sha, first) + Frame(sha, second) + rest) == Some(if waiting then first else second)
  {
    var m := FeedAll(sha, Waiting, noise);
    var (f1, f2) := (Frame(sha, first), Frame(sha, second));
    FeedAllSplit(sha, Waiting, noise, f1);
    FeedAllSplit(sha, Waiting, noise + f1, f2);
    FeedAllSplit(sha, Waiting, noise + f1 + f2, rest);
    if m.Waiting? {
      FrameRoundTrip(sha, first);
      AcceptedStays(sha, first, f2);
      AcceptedStays(sha, first, rest);
    } else {
      FrameSwallowed(sha, m, first);
      FrameRoundTrip(sha, second);
      AcceptedStays(sha, second, rest);
    }
  }

  /** What the noise alone made the loader accept stays the result, whatever follows. */
  lemma EarlyAcceptStands(sha: Bytes -> Digest, noise: seq<string>, rest: seq<string>)
    requires FeedAll(sha, Waiting, noise).Accepted?
    ensures Load(sha, noise + rest) == Load(sha, noise)
  {
    FeedAllSplit(sha, Waiting, noise, rest);
    AcceptedStays(sha, FeedAll(sha, Waiting, noise).config, rest);
  }

  // ----- nothing else is accepted -----

  /** These lines open a frame for this config: the marker, its digest, and rows that decode to it. */
  ghost predicate IsOpenFrameFor(sha: Bytes -> Digest, lines: seq<string>, config: Bytes) {
    && |lines| >= 2
    && lines[0] == BEGIN
    && END !in lines[2..]
    && Base64.DecodeString(lines[1]) == Some(sha(config))
    && Base64.DecodeString(Join(lines[2..])) == Some(config)
  }

  ghost predicate IsFrameFor(sha: Bytes -> Digest, lines: seq<string>, config: Bytes) {
    && |lines| > 0
    && lines[|lines| - 1] == END
    && IsOpenFrameFor(sha, lines[..|lines| - 1], config)
  }

  /** The loader is between frames when it comes to line `i`. */
  ghost predicate WaitingAt(sha: Bytes -> Digest, lines: seq<string>, i: int) {
    0 <= i <= |lines| && FeedAll(sha, Waiting, lines[..i]) == Waiting
  }

  lemma StillWaitingAt(sha: Bytes -> Digest, lines: seq<string>, line: string, i: int)
    requires WaitingAt(sha, lines, i)
    ensures WaitingAt(sha, lines + [line], i)
  {
    assert (lines + [line])[..i] == lines[..i];
  }

  /** What the loader's mode says about the lines it has read, `i` being where the current frame began. */
  ghost predicate Explains(sha: Bytes -> Digest, lines: seq<string>, m: Mode, i: int) {
    match m
    case Waiting => true
    case NeedHash => i == |lines| - 1 && WaitingAt(sha, lines, i) && lines[i] == BEGIN
    case Collecting(hash, data) =>
      && WaitingAt(sha, lines, i)
      && i <= |lines| - 2 && lines[i] == BEGIN && lines[i + 1] == hash
      && END !in lines[i + 2..] && Join(lines[i + 2..]) == data
    case Accepted(config) =>
      WaitingAt(sha, lines, i) && exists j :: i <= j <= |lines| && IsFrameFor(sha, lines[i..j], config)
  }

  /** What the loader judges good is an open frame. */
  lemma OpenFrame(sha: Bytes -> Digest, lines: seq<string>, m: Mode, i: int)
    requires m.Collecting? && Explains(sha, lines, m, i) && Judge(sha, m.hash, m.data).Accepted?
    ensures 0 <= i <= |lines| && IsOpenFrameFor(sha, lines[i..], Judge(sha, m.hash, m.data).config)
  {
    assert lines[i..][2..] == lines[i + 2..];
  }

  lemma ClosedFrame(sha: Bytes -> Digest, lines: seq<string>, m: Mode, i: int)
    requires m.Collecting? && Explains(sha, lines, m, i)
    ensures Explains(sha, lines + [END], Judge(sha, m.hash, m.data), i)
  {
    var judged := Judge(sha, m.hash, m.data);
    if judged.Accepted? {
      OpenFrame(sha, lines, m, i);
      var all := lines + [END];
      var frame := all[i..|all|];
      assert frame[..|frame| - 1] == lines[i..];
      StillWaitingAt(sha, lines, END, i);
      assert IsFrameFor(sha, frame, judged.config);
    }
  }

  lemma AnotherRow(sha: Bytes -> Digest, lines: seq<string>, line: string, m: Mode, i: int)
    requires m.Collecting? && Explains(sha, lines, m, i) && line != END
    ensures Explains(sha, lines + [line], Collecting(m.hash, m.data + line), i)
  {
    var all := lines + [line];
    StillWaitingAt(sha, lines, line, i);
    assert all[i + 2..] == lines[i + 2..] + [line];
    JoinAppend(lines[i + 2..], [line]);
    assert Join([line]) == line;
  }

  lemma StillAccepted(sha: Bytes -> Digest, lines: seq<string>, line: string, m: Mode, i: int)
    requires m.Accepted? && Explains(sha, lines, m, i)
    ensures Explains(sha, lines + [line], m, i)
  {
    StillWaitingAt(sha, lines, line, i);
    var j :| i <= j <= |lines| && IsFrameFor(sha, lines[i..j], m.config);
    var all := lines + [line];
    assert all[i..j] == lines[i..j];
  }

  lemma ExplainsStep(sha: Bytes -> Digest, lines: seq<string>, line: string, m: Mode, i: int) returns (i': int)
    requires m == FeedAll(sha, Waiting, lines) && Explains(sha, lines, m, i)
    ensures Explains(sha, lines + [line], Feed(sha, m, line), i')
  {
    i' := i;
    match m {
      case Waiting =>
        i' := |lines|;
        assert (lines + [line])[..i'] == lines;
      case NeedHash =>
        StillWaitingAt(sha, lines, line, i);
        assert (lines + [line])[i + 2..] == [];
      case Collecting(_, _) =>
        if line == END {
          ClosedFrame(sha, lines, m, i);
        } else {
          AnotherRow(sha, lines, line, m, i);
        }
      case Accepted(_) =>
        StillAccepted(sha, lines, line, m, i);
    }
  }

  lemma {:induction false} ModeExplained(sha: Bytes -> Digest, lines: seq<string>) returns (i: int)
    ensures Explains(sha, lines, FeedAll(sha, Waiting, lines), i)
  {
    if lines == [] {
      i := 0;
    } else {
      var before, last := lines[..|lines| - 1], lines[|lines| - 1];
      assert lines == before + [last];
      i := ModeExplained(sha, before);
      FeedLast(sha, Waiting, before, last);
      i := ExplainsStep(sha, before, last, FeedAll(sha, Waiting, before), i);
    }
  }

  // ----- exactly what is accepted -----

  /** A waiting loader that reads an open frame holds exactly its two texts, and judges them good. */
  lemma OpenFrameHeld(sha: Bytes -> Digest, lines: seq<string>, config: Bytes)
    requires IsOpenFrameFor(sha, lines, config)
    ensures
      var m := FeedAll(sha, Waiting, lines);
      m.Collecting? && Judge(sha, m.hash, m.data) == Accepted(config)
  {
    var hash, rows := lines[1], lines[2..];
    assert lines == [BEGIN, hash] + rows;
    FeedAllSplit(sha, Waiting, [BEGIN, hash], rows);
    HeaderRead(sha, hash);
    CollectRows(sha, hash, "", rows);
    assert "" + Join(rows) == Join(rows);
  }

  lemma FrameAccepted(sha: Bytes -> Digest, lines: seq<string>, config: Bytes)
    requires IsFrameFor(sha, lines, config)
    ensures FeedAll(sha, Waiting, lines) == Accepted(config)
  {
    var open := lines[..|lines| - 1];
    assert lines == open + [END];
    OpenFrameHeld(sha, open, config);
    FeedLast(sha, Waiting, open, END);
  }

  /** From a line at which the loader is waiting it reads the rest as from the start. */
  lemma FromWaiting(sha: Bytes -> Digest, lines: seq<string>, i: int)
    requires WaitingAt(sha, lines, i)
    ensures FeedAll(sha, Waiting, lines) == FeedAll(sha, Waiting, lines[i..])
  {
    assert lines == lines[..i] + lines[i..];
    FeedAllSplit(sha, Waiting, lines[..i], lines[i..]);
  }

  ghost predicate ClosedFrameAt(sha: Bytes -> Digest, lines: seq<string>, i: int, j: int, config: Bytes) {
    WaitingAt(sha, lines, i) && i <= j <= |lines| && IsFrameFor(sha, lines[i..j], config)
  }

  ghost predicate OpenFrameAt(sha: Bytes -> Digest, lines: seq<string>, i: int, config: Bytes) {
    WaitingAt(sha, lines, i) && IsOpenFrameFor(sha, lines[i..], config)
  }

  /** The loader accepts before the stream ends exactly on a frame that begins where it was waiting. */
  lemma ClosedFrameIff(sha: Bytes -> Digest, lines: seq<string>, config: Bytes)
    ensures FeedAll(sha, Waiting, lines) == Accepted(config)
       <==> exists i, j :: ClosedFrameAt(sha, lines, i, j, config)
  {
    if FeedAll(sha, Waiting, lines) == Accepted(config) {
      var i := ModeExplained(sha, lines);
      var j :| i <= j <= |lines| && IsFrameFor(sha, lines[i..j], config);
      assert ClosedFrameAt(sha, lines, i, j, config);
    }
    if i, j :| ClosedFrameAt(sha, lines, i, j, config) {
      FromWaiting(sha, lines, i);
      assert lines[i..] == lines[i..j] + lines[j..];
      FeedAllSplit(sha, Waiting, lines[i..j], lines[j..]);
      FrameAccepted(sha, lines[i..j], config);
      AcceptedStays(sha, config, lines[j..]);
    }
  }

  /** It accepts an unclosed frame exactly when one runs from a line where it was waiting to the end of the stream. */
  lemma UnclosedFrameIff(sha: Bytes -> Digest, lines: seq<string>, config: Bytes)
    ensures Load(sha, lines) == Some(config) && !FeedAll(sha, Waiting, lines).Accepted?
       <==> exists i :: OpenFrameAt(sha, lines, i, config)
  {
    var m := FeedAll(sha, Waiting, lines);
    if Load(sha, lines) == Some(config) && !m.Accepted? {
      var i := ModeExplained(sha, lines);
      OpenFrame(sha, lines, m, i);
      assert OpenFrameAt(sha, lines, i, config);
    }
    if i :| OpenFrameAt(sha, lines, i, config) {
      FromWaiting(sha, lines, i);
      OpenFrameHeld(sha, lines[i..], config);
    }
  }

  /**
   Exactly what the loader accepts, whatever noise surrounds it: a config is loaded if and only
   if, from some line at which the loader was waiting, the lines are a frame for that config
   (the opening marker, its own digest and rows that decode to it), followed by the closing
   marker or by the end of the stream.
   */
  lemma LoadIff(sha: Bytes -> Digest, lines: seq<string>, config: Bytes)
    ensures Load(sha, lines) == Some(config)
       <==> || (exists i, j :: ClosedFrameAt(sha, lines, i, j, config))
            || (exists i :: OpenFrameAt(sha, lines, i, config))
  {
    ClosedFrameIff(sha, lines, config);
    UnclosedFrameIff(sha, lines, config);
  }

  // ----- what a waiting loader does with any lines -----

  /** Without an opening marker it goes on waiting. */
  lemma {:induction false} NoiseIsSkipped(sha: Bytes -> Digest, lines: seq<string>)
    requires "<BEGIN>" !in lines
    ensures FeedAll(sha, Waiting, lines) == Waiting
  {
    if lines != [] {
      NoiseIsSkipped(sha, lines[1..]);
    }
  }

  /**
   With one, it reads a digest line and rows up to the first closing marker, whatever they are,
   and then has accepted the bytes that the rows decode to, if the digest line decodes to their
   digest, and is waiting again otherwise.
   */
  lemma AnyFrame(sha: Bytes -> Digest, hash: string, rows: seq<string>)
    requires "<END>" !in rows
    ensures
      var m := FeedAll(sha, Waiting, ["<BEGIN>", hash] + rows + ["<END>"]);
      && (m == Waiting || m.Accepted?)
      && forall config :: m == Accepted(config)
           <==> Base64.DecodeString(Join(rows)) == Some(config) && Base64.DecodeString(hash) == Some(sha(config))
  {
    FeedLast(sha, Waiting, [BEGIN, hash] + rows, END);
    FeedAllSplit(sha, Waiting, [BEGIN, hash], rows);
    HeaderRead(sha, hash);
    CollectRows(sha, hash, "", rows);
    assert "" + Join(rows) == Join(rows);
  }
}
