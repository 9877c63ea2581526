/** Byte strings and the one hash function every layer shares. */
module Bytes {
  newtype byte = x: int | 0 <= x < 256

  type Bytes = seq<byte>

  /** An account's identifier, as printed. */
  type Account = Bytes

  /** A SHA-256 digest: exactly 32 bytes. */
  type Digest = s: Bytes | |s| == 32 witness seq(32, _ => 0)

  /** SHA-256 is an arbitrary fixed function from byte strings to digests: nothing is
      assumed about it, so every result below holds for any such function. */
  const Sha256: Bytes -> Digest

  /** Stands for a missing child in a node's Merkle hash. */
  const EMPTY_CHILD: Digest :=
    [0, 0, 0, 0, 0, 0, 0, 0, 0, 0, 0, 0, 0, 0, 0, 0,
     0, 0, 0, 0, 0, 0, 0, 0, 0, 0, 0, 0, 0, 0, 0, 0]

  /** Prefix of every key-value hash. */
  const LEAF_PREFIX: Bytes := EMPTY_CHILD + EMPTY_CHILD
}
