/**
 The hand-off of the configuration to the next kernel through on-chip memory: a digest, the
 config, and a terminating zero byte, in a region that a booting kernel reads and wipes.
 */
module Ocram {
  import opened Common

  const OCRAM_START := 0x90_1000
  const OCRAM_END := 0x92_0000
  const SIZE: int := OCRAM_END - OCRAM_START

  type Region = r: Bytes | |r| == SIZE witness seq(SIZE, _ => 0)

  function Zeros(n: nat): (z: Bytes)
    ensures |z| == n && forall i :: 0 <= i < n ==> z[i] == 0
  {
    if n == 0 then [] else Zeros(n - 1) + [0]
  }

  /** The region after the loader's erase. */
  function Wiped(): Region {
    Zeros(SIZE)
  }

  predicate Fits(config: Bytes) {
    32 + |config| + 1 <= SIZE
  }

  /** The region after a write: digest, config, zero, and whatever was behind them. */
  function Written(sha: Bytes -> Digest, region: Region, config: Bytes): Region
    requires Fits(config)
  {
    sha(config) + config + [0] + region[32 + |config| + 1..]
  }

  /** The bytes before the first zero; nothing when there is no zero at all. */
  function UpToZero(b: Bytes): (r: Bytes)
    ensures 0 !in r && r <= b
    ensures 0 in b ==> |r| < |b| && b[|r|] == 0
    ensures 0 !in b ==> r == []
  {
    if 0 !in b then [] else if b[0] == 0 then [] else [b[0]] + UpToZero(b[1..])
  }

  /** What a booting kernel makes of the region. */
  function Loaded(sha: Bytes -> Digest, region: Region): Option<Bytes> {
    var config := UpToZero(region[32..]);
    if region[..32] == sha(config) then Some(config) else None
  }

  // ----- the three routines -----

  /** Opening the device and mapping it may fail; then nothing is written. */
  method WriteConfigToOcram(sha: Bytes -> Digest, ocram: array<byte>, config: Bytes, devMemOk: bool, mmapOk: bool)
      returns (ok: bool)
    requires ocram.Length == SIZE
    modifies ocram
    ensures ok <==> Fits(config) && devMemOk && mmapOk
    ensures ok ==> ocram[..] == Written(sha, old(ocram[..]), config)
    ensures !ok ==> ocram[..] == old(ocram[..])
  {
    if 32 + |config| + 1 > OCRAM_END - OCRAM_START {
      return false;
    }
    if !devMemOk || !mmapOk {
      return false;
    }
    var digest := sha(config);
    forall i | 0 <= i < 32 {
      ocram[i] := digest[i];
    }
    forall i | 0 <= i < |config| {
      ocram[32 + i] := config[i];
    }
    ocram[32 + |config|] := 0;
    return true;
  }

  method DumpAndEraseOcram(ocram: array<byte>) returns (dump: Bytes)
    requires ocram.Length == SIZE
    modifies ocram
    ensures dump == old(ocram[..])
    ensures ocram[..] == Wiped()
  {
    dump := ocram[..];
    for i := 0 to ocram.Length
      invariant forall j :: 0 <= j < i ==> ocram[j] == 0
    {
      ocram[i] := 0;
    }
  }

  method LoadConfigFromOcram(sha: Bytes -> Digest, ocram: array<byte>) returns (config: Option<Bytes>)
    requires ocram.Length == SIZE
    modifies ocram
    ensures config == Loaded(sha, old(ocram[..]))
    ensures ocram[..] == Wiped()
  {
    var dump := DumpAndEraseOcram(ocram);
    var text := dump[32..];
    var dataLen := 0;
    var i := 0;
    while i < |text|
      invariant 0 <= i <= |text|
      invariant dataLen == 0 && 0 !in text[..i]
    {
      if text[i] == 0 {
        dataLen := i;
        break;
      }
      i := i + 1;
    }
    assert i == |text| ==> text[..i] == text;
    FirstZeroIs(text, dataLen);
    text := text[..dataLen];
    if dump[..32] != sha(text) {
      return None;
    }
    return Some(text);
  }

  /** The zero found by a scan is where the text ends. */
  lemma FirstZeroIs(b: Bytes, n: nat)
    requires n <= |b| && 0 !in b[..n]
    requires if 0 in b then n < |b| && b[n] == 0 else n == 0
    ensures UpToZero(b) == b[..n]
  {
    var r := UpToZero(b);
    assert 0 in b ==> |r| >= n && |r| <= n;
    assert r == b[..|r|];
  }

  // ----- what the hand-off promises -----

  /** Where things lie: the digest first, the config behind it, a zero, and the old content beyond. */
  lemma WrittenShape(sha: Bytes -> Digest, region: Region, config: Bytes)
    requires Fits(config)
    ensures Written(sha, region, config)[..32] == sha(config)
    ensures Written(sha, region, config)[32..] == config + [0] + region[32 + |config| + 1..]
  {
  }

  /** The region is 124 KiB, and 33 bytes of it are not the config's. */
  lemma FitsExactly(config: Bytes)
    ensures Fits(config) <==> |config| <= 124 * 1024 - 33
  {
  }

  /** A region yields exactly the text before its first zero, empty where there is none, under its own digest. */
  lemma LoadedIff(sha: Bytes -> Digest, region: Region, config: Bytes)
    ensures Loaded(sha, region) == Some(config)
       <==> && region[..32] == sha(config)
            && (if 0 in region[32..]
                then
                  && 0 !in config && 32 + |config| < |region|
                  && region[32..32 + |config|] == config && region[32 + |config|] == 0
                else config == [])
  {
    var text := region[32..];
    if 0 in text && 0 !in config && |config| < |text| && text[..|config|] == config && text[|config|] == 0 {
      FirstZeroIs(text, |config|);
    }
    var found := UpToZero(text);
    assert found == text[..|found|];
    assert forall n: nat :: n <= |text| ==> region[32..32 + n] == text[..n];
  }

  /** A zero-free config that fits is handed over unchanged, over any earlier memory content. */
  lemma HandOffExact(sha: Bytes -> Digest, region: Region, config: Bytes)
    requires Fits(config) && 0 !in config
    ensures Loaded(sha, Written(sha, region, config)) == Some(config)
  {
    WrittenShape(sha, region, config);
    var text := config + [0] + region[32 + |config| + 1..];
    assert text[..|config|] == config && text[|config|] == 0;
    FirstZeroIs(text, |config|);
  }

  /** Whatever config was written, a load that succeeds returns it or exhibits a collision. */
  lemma HandOffSound(sha: Bytes -> Digest, region: Region, config: Bytes)
    requires Fits(config)
    ensures
      var r := Loaded(sha, Written(sha, region, config));
      r.Some? ==> r.value == config || Collision(sha, r.value, config)
  {
    WrittenShape(sha, region, config);
  }

  /** The exact condition for an unchanged hand-off, barring a collision: no zero byte. */
  lemma HandOffIff(sha: Bytes -> Digest, region: Region, config: Bytes)
    requires Fits(config)
    ensures Loaded(sha, Written(sha, region, config)) == Some(config) <==> 0 !in config
  {
    if 0 !in config {
      HandOffExact(sha, region, config);
    }
  }

  /** A wiped region holds no config, unless the digest of the empty text is all zero. */
  lemma WipedLoadsNothing(sha: Bytes -> Digest)
    requires sha([]) != Wiped()[..32]
    ensures Loaded(sha, Wiped()) == None
  {
    var text := Wiped()[32..];
    FirstZeroIs(text, 0);
  }
}
