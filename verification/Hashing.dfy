/** The hash functions the repository takes from Go's crypto packages, as
    function values. Nothing is said about them except the length of what they
    return: in particular they are not assumed to be injective. */
module Hashing {
  import opened Text

  /** `mac(key, message)` is HMAC-SHA-256, `sha(message)` plain SHA-256; both give raw bytes. */
  datatype Hash = Hash(mac: (string, string) -> string, sha: string -> string)

  ghost predicate Lawful(h: Hash) {
    && (forall k, m :: |h.mac(k, m)| == 32 && Bytes(h.mac(k, m)))
    && (forall m :: |h.sha(m)| == 32 && Bytes(h.sha(m)))
  }

  /** The keyed hash in hexadecimal, as ChunkID and RootDigest return it. */
  function MacHex(h: Hash, key: string, message: string): (t: string)
    requires Lawful(h)
    ensures |t| == 64 && IsHex(t)
  {
    Hex(h.mac(key, message))
  }

  /** The hash the Merkle tree uses: keyed when there is a key. */
  function TreeHex(h: Hash, key: string, message: string): (t: string)
    requires Lawful(h)
    ensures |t| == 64 && IsHex(t)
  {
    if |key| > 0 then Hex(h.mac(key, message)) else Hex(h.sha(message))
  }

  /** Two different messages with one keyed hash. */
  ghost predicate MacCollision(h: Hash, key: string, a: string, b: string) {
    a != b && h.mac(key, a) == h.mac(key, b)
  }

  ghost predicate TreeCollision(h: Hash, key: string, a: string, b: string) {
    a != b && if |key| > 0 then h.mac(key, a) == h.mac(key, b) else h.sha(a) == h.sha(b)
  }

  /** Two different messages with one plain hash. */
  ghost predicate ShaCollision(h: Hash, a: string, b: string) {
    a != b && h.sha(a) == h.sha(b)
  }

  lemma MacHexEqual(h: Hash, key: string, a: string, b: string)
    requires Lawful(h)
    requires MacHex(h, key, a) == MacHex(h, key, b)
    ensures a == b || MacCollision(h, key, a, b)
  {
    HexInjective(h.mac(key, a), h.mac(key, b));
  }

  lemma TreeHexEqual(h: Hash, key: string, a: string, b: string)
    requires Lawful(h)
    requires TreeHex(h, key, a) == TreeHex(h, key, b)
    ensures a == b || TreeCollision(h, key, a, b)
  {
    if |key| > 0 {
      HexInjective(h.mac(key, a), h.mac(key, b));
    } else {
      HexInjective(h.sha(a), h.sha(b));
    }
  }
}
