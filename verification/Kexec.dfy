/**
 Sealing and unsealing of kexec packages. Ciphers, hashes and signatures are foreign code:
 they are the functions of a `World`, and what is needed of them is stated as a hypothesis
 where it is used.
 */
module Kexec {
  import opened Common
  import opened Layout
  import opened SignedLine

  /** "HGW-KEXEC" and a zero byte. */
  const MAGIC: Bytes := [72, 71, 87, 45, 75, 69, 88, 69, 67, 0]
  const NONCE_SIZE := 24

  datatype World = World(
    sha: Bytes -> Digest,
    seal: (Bytes, Bytes, Bytes) -> Bytes,          // key, nonce, plaintext
    open: (Bytes, Bytes, Bytes) -> Option<Bytes>,  // key, nonce, ciphertext
    clearsigned: Bytes -> Option<string>,          // text of a signature block that verifies
    bundleOk: (string, Bytes) -> bool,             // external signature over the blob
    version: Bytes -> Option<int>,                 // "version" of accepted JSON
    initOk: Bytes -> bool,                         // decodes as the full configuration
    keyText: Bytes -> string,                      // the package key that the configuration gives, in base64
    hostKey: Bytes -> Option<string>)              // the SSH host key, if it configures a server

  datatype Package = Package(kernel: Bytes, config: Bytes)

  datatype Unsealed = Opened(pkg: Package) | Refused | Panicked

  ghost predicate OpensWhatItSeals(w: World) {
    forall key, nonce, text :: w.open(key, nonce, w.seal(key, nonce, text)) == Some(text)
  }

  /** Accepted JSON holds no zero byte: not in a token and not as white space (sections 2 and 7 of RFC 8259). */
  ghost predicate JsonHasNoZero(w: World) {
    forall text :: w.version(text).Some? ==> 0 !in text
  }

  /** The clear-signed text names this package by its digest. */
  predicate SignatureNames(w: World, sig: Bytes, data: Bytes) {
    var text := w.clearsigned(sig);
    text.Some? && ParseLine(FirstLine(text.value)) == Some(ParsedLine(w.sha(data), FILENAME))
  }

  /** The plaintext of a blob that has the magic header, a nonce and an intact ciphertext. */
  function Plaintext(w: World, key: Bytes, blob: Bytes): Option<Bytes> {
    var body := |MAGIC| + NONCE_SIZE;
    if |blob| < body || blob[..|MAGIC|] != MAGIC then None else w.open(key, blob[|MAGIC|..body], blob[body..])
  }

  /** An external signature is checked first, when there is one. */
  predicate BundleOk(w: World, blob: Bytes, extSig: string) {
    extSig != "" ==> w.bundleOk(extSig, blob)
  }

  /** The outer envelope holds this signature and data, and they are authentic. */
  ghost predicate Verified(w: World, width: IntWidth, key: Bytes, blob: Bytes, extSig: string,
                           sig: Bytes, data: Bytes)
  {
    && BundleOk(w, blob, extSig)
    && Plaintext(w, key, blob).Some?
    && IsLayoutOf(width, Plaintext(w, key, blob).value, sig, data)
    && (extSig == "" ==> SignatureNames(w, sig, data))
  }

  /** The config is accepted JSON of at least the running version. */
  predicate NotRolledBack(w: World, current: int, pkg: Package) {
    w.version(pkg.config).Some? && w.version(pkg.config).value >= current
  }

  /** Everything that has to be true of a blob for it to open to this package. */
  ghost predicate Accepts(w: World, width: IntWidth, current: int, key: Bytes, blob: Bytes, extSig: string,
                          sig: Bytes, data: Bytes, pkg: Package)
  {
    && Verified(w, width, key, blob, extSig, sig, data)
    && IsLayoutOf(width, data, pkg.kernel, pkg.config)
    && NotRolledBack(w, current, pkg)
  }

  ghost predicate Opens(w: World, width: IntWidth, current: int, key: Bytes, blob: Bytes, extSig: string,
                        pkg: Package)
  {
    exists sig, data :: Accepts(w, width, current, key, blob, extSig, sig, data, pkg)
  }

  /** Plaintexts are slices, so a 32-bit device cannot hold one of 2^31 bytes. */
  ghost predicate FitsInMemory(w: World, width: IntWidth, key: Bytes, blob: Bytes) {
    Plaintext(w, key, blob).Some? ==> Representable(width, Plaintext(w, key, blob).value)
  }

  lemma VerifiedUnique(w: World, width: IntWidth, key: Bytes, blob: Bytes, extSig: string,
                       sig: Bytes, data: Bytes, sig': Bytes, data': Bytes)
    requires Verified(w, width, key, blob, extSig, sig, data)
    requires Verified(w, width, key, blob, extSig, sig', data')
    ensures sig == sig' && data == data'
  {
    LayoutUnique(width, Plaintext(w, key, blob).value, sig, data, sig', data');
  }

  /** A blob opens to at most one package, at whatever running version. */
  lemma OpensUnique(w: World, width: IntWidth, current: int, current': int, key: Bytes, blob: Bytes, extSig: string,
                    pkg: Package, pkg': Package)
    requires Opens(w, width, current, key, blob, extSig, pkg)
    requires Opens(w, width, current', key, blob, extSig, pkg')
    ensures pkg == pkg'
  {
    var sig, data :| Accepts(w, width, current, key, blob, extSig, sig, data, pkg);
    var sig', data' :| Accepts(w, width, current', key, blob, extSig, sig', data', pkg');
    VerifiedUnique(w, width, key, blob, extSig, sig, data, sig', data');
    LayoutUnique(width, data, pkg.kernel, pkg.config, pkg'.kernel, pkg'.config);
  }

  // ----- the two programs -----

  /** What the sealer builds before it asks for the signature: the data and the line to sign. */
  method PrepareData(w: World, kernel: Bytes, config: Bytes) returns (data: Bytes, line: string)
    ensures data == TwoFields(kernel, config)
    ensures ParseLine(line) == Some(ParsedLine(w.sha(data), FILENAME)) && '\n' !in line
  {
    data := EncodeLength(|kernel| % TWO32);
    data := data + kernel;
    data := data + EncodeLength(|config| % TWO32);
    data := data + config;
    assert data == TwoFields(kernel, config);
    line := HexEncode(w.sha(data)) + "  " + FILENAME;
    PayloadParses(w.sha(data));
  }

  function SealedBlob(w: World, key: Bytes, nonce: Bytes, signature: Bytes, data: Bytes): Bytes {
    MAGIC + nonce + w.seal(key, nonce, TwoFields(signature, data))
  }

  /** The sealed blob, given the signature that came back for the line. */
  method SealPackage(w: World, key: Bytes, nonce: Bytes, signature: Bytes, data: Bytes) returns (blob: Bytes)
    requires |nonce| == NONCE_SIZE
    ensures blob == SealedBlob(w, key, nonce, signature, data)
  {
    var out := EncodeLength(|signature| % TWO32);
    out := out + signature;
    out := out + EncodeLength(|data| % TWO32);
    out := out + data;
    assert out == TwoFields(signature, data);
    out := w.seal(key, nonce, out);
    blob := MAGIC + nonce + out;
  }

  /**
   The outer half of unsealing. It delivers data exactly when the envelope is authentic, and
   panics exactly when a 32-bit device reads an overflowing signature length.
   */
  method DecryptAndVerify(w: World, width: IntWidth, key: Bytes, input: Bytes, extSig: string)
      returns (data: Option<Bytes>, panicked: bool)
    requires FitsInMemory(w, width, key, input)
    ensures data.Some? ==> exists sig :: Verified(w, width, key, input, extSig, sig, data.value)
    ensures data.None? ==> !exists sig, d :: Verified(w, width, key, input, extSig, sig, d)
    ensures panicked ==> data.None?
    ensures panicked <==> EnvelopeOverflows(w, width, key, input, extSig)
  {
    panicked := false;
    if extSig != "" && !w.bundleOk(extSig, input) {
      return None, false;
    }
    var blob := input;
    if |blob| < |MAGIC| {
      return None, false;
    }
    if blob[..|MAGIC|] != MAGIC {
      return None, false;
    }
    blob := blob[|MAGIC|..];
    if |blob| < NONCE_SIZE {
      return None, false;
    }
    var nonce := blob[..NONCE_SIZE];
    blob := blob[NONCE_SIZE..];
    assert nonce == input[|MAGIC|..|MAGIC| + NONCE_SIZE] && blob == input[|MAGIC| + NONCE_SIZE..];
    var plain := w.open(key, nonce, blob);
    if plain.None? {
      return None, false;
    }
    var parts := SplitFields(width, plain.value);
    if !parts.Fields? {
      return None, parts == SlicePanic;
    }
    if sig, d :| Verified(w, width, key, input, extSig, sig, d) {
      LayoutUnique(width, plain.value, sig, d, parts.first, parts.second);
    }
    if extSig == "" {
      var text := w.clearsigned(parts.first);
      if text.None? {
        return None, false;
      }
      var parsed := ParseLine(FirstLine(text.value));
      if parsed.None? {
        return None, false;
      }
      if parsed.value.filename != FILENAME {
        return None, false;
      }
      if parsed.value.digest != w.sha(parts.second) {
        return None, false;
      }
    }
    assert Verified(w, width, key, input, extSig, parts.first, parts.second);
    data := Some(parts.second);
  }

  predicate EnvelopeOverflows(w: World, width: IntWidth, key: Bytes, blob: Bytes, extSig: string) {
    && BundleOk(w, blob, extSig)
    && Plaintext(w, key, blob).Some?
    && FirstLengthOverflows(width, Plaintext(w, key, blob).value)
  }

  ghost predicate DataOverflows(w: World, width: IntWidth, key: Bytes, blob: Bytes, extSig: string) {
    exists sig, data :: Verified(w, width, key, blob, extSig, sig, data) && FirstLengthOverflows(width, data)
  }

  lemma DataFits(w: World, width: IntWidth, key: Bytes, blob: Bytes, extSig: string, sig: Bytes, data: Bytes)
    requires FitsInMemory(w, width, key, blob)
    requires Verified(w, width, key, blob, extSig, sig, data)
    ensures Representable(width, data)
  {
    FieldsAt(sig, data);
  }

  lemma NothingVerified(w: World, width: IntWidth, current: int, key: Bytes, blob: Bytes, extSig: string)
    requires !exists sig, data :: Verified(w, width, key, blob, extSig, sig, data)
    ensures !DataOverflows(w, width, key, blob, extSig)
    ensures !exists pkg :: Opens(w, width, current, key, blob, extSig, pkg)
  {
  }

  /** Authentic data holds this package, and the package may be installed. */
  ghost predicate Holds(w: World, width: IntWidth, current: int, data: Bytes, pkg: Package) {
    IsLayoutOf(width, data, pkg.kernel, pkg.config) && NotRolledBack(w, current, pkg)
  }

  /** Once the data is known, what the blob opens to depends on the data alone. */
  lemma OpensByData(w: World, width: IntWidth, current: int, key: Bytes, blob: Bytes, extSig: string,
                    sig: Bytes, data: Bytes)
    requires Verified(w, width, key, blob, extSig, sig, data)
    ensures DataOverflows(w, width, key, blob, extSig) <==> FirstLengthOverflows(width, data)
    ensures forall pkg :: Opens(w, width, current, key, blob, extSig, pkg) <==> Holds(w, width, current, data, pkg)
  {
    if sig', data' :| Verified(w, width, key, blob, extSig, sig', data') && FirstLengthOverflows(width, data') {
      VerifiedUnique(w, width, key, blob, extSig, sig, data, sig', data');
    }
    forall pkg
      ensures Opens(w, width, current, key, blob, extSig, pkg) <==> Holds(w, width, current, data, pkg)
    {
      if sig', data' :| Accepts(w, width, current, key, blob, extSig, sig', data', pkg) {
        VerifiedUnique(w, width, key, blob, extSig, sig, data, sig', data');
      }
      if Holds(w, width, current, data, pkg) {
        assert Accepts(w, width, current, key, blob, extSig, sig, data, pkg);
      }
    }
  }

  /** The inner half of unsealing: split kernel and config, decode the version, compare it. */
  method OpenData(w: World, width: IntWidth, current: int, data: Bytes) returns (r: Unsealed)
    requires Representable(width, data)
    ensures r.Opened? ==> Holds(w, width, current, data, r.pkg)
    ensures !r.Opened? ==> !exists pkg :: Holds(w, width, current, data, pkg)
    ensures r.Panicked? <==> FirstLengthOverflows(width, data)
  {
    var parts := SplitFields(width, data);
    if !parts.Fields? {
      return if parts == SlicePanic then Panicked else Refused;
    }
    if pkg :| Holds(w, width, current, data, pkg) {
      LayoutUnique(width, data, pkg.kernel, pkg.config, parts.first, parts.second);
    }
    var version := w.version(parts.second);
    if version.None? {
      return Refused;
    }
    if version.value < current {
      return Refused;
    }
    return Opened(Package(parts.first, parts.second));
  }

  /**
   Unsealing opens a blob exactly when some package satisfies every check, and to that
   package. It panics exactly when one of the two nested first lengths overflows a 32-bit
   int; every other bad blob is refused.
   */
  method Unseal(w: World, width: IntWidth, current: int, key: Bytes, blob: Bytes, extSig: string) returns (r: Unsealed)
    requires FitsInMemory(w, width, key, blob)
    ensures r.Opened? ==> Opens(w, width, current, key, blob, extSig, r.pkg)
    ensures !r.Opened? ==> !exists pkg :: Opens(w, width, current, key, blob, extSig, pkg)
    ensures r.Panicked?
       <==> EnvelopeOverflows(w, width, key, blob, extSig) || DataOverflows(w, width, key, blob, extSig)
  {
    var data, panicked := DecryptAndVerify(w, width, key, blob, extSig);
    if data.None? {
      NothingVerified(w, width, current, key, blob, extSig);
      return if panicked then Panicked else Refused;
    }
    ghost var sig :| Verified(w, width, key, blob, extSig, sig, data.value);
    DataFits(w, width, key, blob, extSig, sig, data.value);
    OpensByData(w, width, current, key, blob, extSig, sig, data.value);
    r := OpenData(w, width, current, data.value);
  }

  // ----- what the format promises -----

  /**
   Every kernel and config within the length bounds come back unchanged through both nested
   layouts, given a signature over the sealer's line and a version that is not a rollback.
   */
  lemma SealedPackageOpens(w: World, width: IntWidth, current: int, key: Bytes, nonce: Bytes,
                           signature: Bytes, kernel: Bytes, config: Bytes)
    requires OpensWhatItSeals(w)
    requires |nonce| == NONCE_SIZE
    requires |signature| < LengthLimit(width) && 8 + |kernel| + |config| < LengthLimit(width)
    requires w.clearsigned(signature).Some?
    requires FirstLine(w.clearsigned(signature).value) == SigningPayload(w.sha(TwoFields(kernel, config)))
    requires w.version(config).Some? && w.version(config).value >= current
    ensures
      var blob := SealedBlob(w, key, nonce, signature, TwoFields(kernel, config));
      Opens(w, width, current, key, blob, "", Package(kernel, config))
  {
    var data := TwoFields(kernel, config);
    var blob := SealedBlob(w, key, nonce, signature, data);
    SealedPlaintext(w, key, nonce, TwoFields(signature, data));
    FieldsAt(kernel, config);
    PayloadParses(w.sha(data));
    assert Accepts(w, width, current, key, blob, "", signature, data, Package(kernel, config));
  }

  /** The same on the external path: a bundle over the blob takes the place of the signed line. */
  lemma BundledPackageOpens(w: World, width: IntWidth, current: int, key: Bytes, nonce: Bytes,
                            signature: Bytes, kernel: Bytes, config: Bytes, extSig: string)
    requires OpensWhatItSeals(w)
    requires |nonce| == NONCE_SIZE
    requires |signature| < LengthLimit(width) && 8 + |kernel| + |config| < LengthLimit(width)
    requires extSig != "" && w.bundleOk(extSig, SealedBlob(w, key, nonce, signature, TwoFields(kernel, config)))
    requires w.version(config).Some? && w.version(config).value >= current
    ensures
      var blob := SealedBlob(w, key, nonce, signature, TwoFields(kernel, config));
      Opens(w, width, current, key, blob, extSig, Package(kernel, config))
  {
    var data := TwoFields(kernel, config);
    var blob := SealedBlob(w, key, nonce, signature, data);
    SealedPlaintext(w, key, nonce, TwoFields(signature, data));
    FieldsAt(kernel, config);
    assert Accepts(w, width, current, key, blob, extSig, signature, data, Package(kernel, config));
  }

  lemma SealedPlaintext(w: World, key: Bytes, nonce: Bytes, text: Bytes)
    requires OpensWhatItSeals(w) && |nonce| == NONCE_SIZE
    ensures Plaintext(w, key, MAGIC + nonce + w.seal(key, nonce, text)) == Some(text)
  {
    var sealed := w.seal(key, nonce, text);
    var blob := MAGIC + nonce + sealed;
    assert blob[..|MAGIC|] == MAGIC;
    assert blob[|MAGIC|..|MAGIC| + NONCE_SIZE] == nonce && blob[|MAGIC| + NONCE_SIZE..] == sealed;
  }

  /**
   Blobs that panic a 32-bit device: under every key and nonce, a sealed plaintext of four
   bytes or more whose first length is 2^31 or more. No signature is needed, since the
   lengths are read first.
   */
  lemma OverlongLengthPanics(w: World, key: Bytes, nonce: Bytes, n: int, rest: Bytes)
    requires OpensWhatItSeals(w) && |nonce| == NONCE_SIZE
    requires TWO31 <= n < TWO32 && 4 + |rest| < TWO31
    ensures
      var blob := MAGIC + nonce + w.seal(key, nonce, EncodeLength(n) + rest);
      FitsInMemory(w, Int32, key, blob) && EnvelopeOverflows(w, Int32, key, blob, "")
  {
    SealedPlaintext(w, key, nonce, EncodeLength(n) + rest);
    assert (EncodeLength(n) + rest)[..4] == EncodeLength(n);
    LengthRoundTrip(n);
  }

  /**
   The signed line binds the package: two blobs accepted on the clear-sign path under the
   same first signed line hold the same kernel and config, or exhibit a hash collision.
   */
  lemma SignedLineBinds(w: World, width: IntWidth, v: int, v': int, key: Bytes, key': Bytes, blob: Bytes, blob': Bytes,
                        sig: Bytes, sig': Bytes, data: Bytes, data': Bytes, pkg: Package, pkg': Package)
    requires Accepts(w, width, v, key, blob, "", sig, data, pkg)
    requires Accepts(w, width, v', key', blob', "", sig', data', pkg')
    requires FirstLine(w.clearsigned(sig).value) == FirstLine(w.clearsigned(sig').value)
    ensures pkg == pkg' || Collision(w.sha, data, data')
  {
    if data == data' {
      LayoutUnique(width, data, pkg.kernel, pkg.config, pkg'.kernel, pkg'.config);
    }
  }

  /** A package is named by exactly one first line: the sealer's line for its data. */
  lemma SignatureLineExact(w: World, sig: Bytes, data: Bytes)
    ensures SignatureNames(w, sig, data)
       <==> w.clearsigned(sig).Some? && FirstLine(w.clearsigned(sig).value) == SigningPayload(w.sha(data))
  {
    if w.clearsigned(sig).Some? {
      ParseLineExact(FirstLine(w.clearsigned(sig).value), w.sha(data), FILENAME);
    }
  }

  /** The signature verifies, and the first line it signs is the line for this data. */
  ghost predicate SignedFor(w: World, sig: Bytes, data: Bytes) {
    && w.clearsigned(sig).Some?
    && FirstLine(w.clearsigned(sig).value) == HexEncode(w.sha(data)) + "  homegw-kexec.v1.bin"
  }

  lemma NamesIff(w: World, sig: Bytes, data: Bytes)
    ensures SignatureNames(w, sig, data) <==> SignedFor(w, sig, data)
  {
    SignatureLineExact(w, sig, data);
    PayloadIs(w.sha(data));
  }

  lemma VerifiedIff(w: World, width: IntWidth, key: Bytes, blob: Bytes, extSig: string, sig: Bytes, data: Bytes)
    ensures Verified(w, width, key, blob, extSig, sig, data)
       <==> && |blob| >= 34
            && blob[..10] == [72, 71, 87, 45, 75, 69, 88, 69, 67, 0]
            && w.open(key, blob[10..34], blob[34..]).Some?
            && IsLayoutOf(width, w.open(key, blob[10..34], blob[34..]).value, sig, data)
            && (if extSig == "" then SignedFor(w, sig, data) else w.bundleOk(extSig, blob))
  {
    NamesIff(w, sig, data);
  }

  /**
   Everything that opening a blob means, in terms of the blob and the foreign functions alone:
   the magic bytes, a ciphertext intact under the key, signature and data laid out in the
   plaintext, kernel and config laid out in the data, either a verified bundle over the blob or
   a verified signature whose first line is the line for this data, and a version that is not
   below the running one, which includes the running one itself.
   */
  lemma OpensIff(w: World, width: IntWidth, current: int, key: Bytes, blob: Bytes, extSig: string, pkg: Package)
    ensures Opens(w, width, current, key, blob, extSig, pkg)
       <==> && |blob| >= 34
            && blob[..10] == [72, 71, 87, 45, 75, 69, 88, 69, 67, 0]
            && w.open(key, blob[10..34], blob[34..]).Some?
            && w.version(pkg.config).Some? && w.version(pkg.config).value >= current
            && exists sig, data ::
                 && IsLayoutOf(width, w.open(key, blob[10..34], blob[34..]).value, sig, data)
                 && IsLayoutOf(width, data, pkg.kernel, pkg.config)
                 && (if extSig == "" then SignedFor(w, sig, data) else w.bundleOk(extSig, blob))
  {
    forall sig, data
      ensures Accepts(w, width, current, key, blob, extSig, sig, data, pkg)
         <==> && |blob| >= 34
              && blob[..10] == [72, 71, 87, 45, 75, 69, 88, 69, 67, 0]
              && w.open(key, blob[10..34], blob[34..]).Some?
              && IsLayoutOf(width, w.open(key, blob[10..34], blob[34..]).value, sig, data)
              && (if extSig == "" then SignedFor(w, sig, data) else w.bundleOk(extSig, blob))
              && IsLayoutOf(width, data, pkg.kernel, pkg.config)
              && w.version(pkg.config).Some? && w.version(pkg.config).value >= current
    {
      VerifiedIff(w, width, key, blob, extSig, sig, data);
    }
  }

  /** The same for the first of the two panics: which blobs make the outer reader slice out of range. */
  lemma EnvelopeOverflowsIff(w: World, width: IntWidth, key: Bytes, blob: Bytes, extSig: string)
    ensures EnvelopeOverflows(w, width, key, blob, extSig)
       <==> && width == Int32
            && (extSig != "" ==> w.bundleOk(extSig, blob))
            && |blob| >= 34
            && blob[..10] == [72, 71, 87, 45, 75, 69, 88, 69, 67, 0]
            && w.open(key, blob[10..34], blob[34..]).Some?
            && (var plain := w.open(key, blob[10..34], blob[34..]).value;
                |plain| >= 4 && LittleEndian(plain[..4]) >= 0x8000_0000)
  {
    var plain := Plaintext(w, key, blob);
    if plain.Some? && |plain.value| >= 4 {
      LengthIsLittleEndian(plain.value[..4]);
    }
  }

  /** And for the second: authentic data whose own first length is too large. */
  lemma DataOverflowsIff(w: World, width: IntWidth, key: Bytes, blob: Bytes, extSig: string)
    ensures DataOverflows(w, width, key, blob, extSig)
       <==> && width == Int32
            && exists sig, data ::
                 && Verified(w, width, key, blob, extSig, sig, data)
                 && |data| >= 4 && LittleEndian(data[..4]) >= 0x8000_0000
  {
    forall sig, data | Verified(w, width, key, blob, extSig, sig, data)
      ensures FirstLengthOverflows(width, data)
         <==> width == Int32 && |data| >= 4 && LittleEndian(data[..4]) >= 0x8000_0000
    {
      if |data| >= 4 {
        LengthIsLittleEndian(data[..4]);
      }
    }
  }
}
