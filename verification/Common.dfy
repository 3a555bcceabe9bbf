/** Types shared by every component: bytes, digests and optional values. */
module Common {
  type byte = b: int | 0 <= b < 256

  type Bytes = seq<byte>

  /** A SHA-256 digest: always 32 bytes. */
  type Digest = d: Bytes | |d| == 32 witness seq(32, _ => 0)

  datatype Option<+T> = None | Some(value: T)

  /** Two different inputs with the same digest. */
  ghost predicate Collision(sha: Bytes -> Digest, a: Bytes, b: Bytes) {
    a != b && sha(a) == sha(b)
  }
}
