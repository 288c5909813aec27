/**
  What the protocols rest on, as parameters: the cryptography, and Python's conversions. Keys are named
  by their PEM text; the hypotheses below are those of an ideal signature and of a collision-free hash.
*/
module Crypto {
  import opened Utf8
  import opened Base64
  import opened Conversions

  /** The hash that the first record of a chain refers to. */
  const GENESIS: string := "0000000000000000000000000000000000000000000000000000000000000000"

  datatype Crypto = Crypto(
    digest: Bytes -> string,              // SHA-256, in hexadecimal
    publicPem: string -> string,          // from a secret key
    readable: string -> bool,             // is this text a public key
    sign: (string, Bytes) -> Bytes,       // secret key, message
    verify: (string, Bytes, Bytes) -> bool, // public key, signature, message
    fingerprint: string -> string,
    python: Python)
  {
    /** Public keys can be read, and a signature made with a secret key verifies under its public key. */
    ghost predicate Correct() {
      && (forall secret :: readable(publicPem(secret)) && publicPem(secret) != "")
      && (forall secret, message :: verify(publicPem(secret), sign(secret, message), message))
    }

    ghost predicate CollisionFree() {
      && (forall a, b :: digest(a) == digest(b) ==> a == b)
      && (forall a :: digest(a) != GENESIS)
    }

    ghost predicate AsciiDigest() {
      forall a :: Ascii(digest(a))
    }
  }
}
