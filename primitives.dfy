/** The foreign library calls of wallet.js, as uninterpreted functions.

    sjcl works on bit arrays (sequences of 32-bit words). Each primitive is a
    field of a record, so every operation of the model is stated for ALL
    behaviours of the libraries; the only facts assumed about them are the
    inverse laws below, and only where a round trip needs them. */
module Primitives {
  import opened Js

  type Word = bv32

  /** An sjcl bit array. */
  type Bits = seq<Word>

  /** What `sjcl.random.randomWords(4)` returns: 4 words, 128 bits. */
  type Nonce = s: Bits | |s| == 4 witness [0, 0, 0, 0]

  /** The iteration count and key size handed to `sjcl.misc.pbkdf2`, each
      possibly `undefined`. */
  datatype Pbkdf2Params = Pbkdf2Params(iterations: Option<nat>, size: Option<nat>)

  /** Encodings: `sjcl.codec.hex`, `sjcl.codec.utf8String`,
      `sjcl.codec.base64`, `JSON.stringify` / `JSON.parse` and `btoa` / `atob`.
      A decoder that can throw returns an Option (None = it threw). */
  datatype Codecs = Codecs(
    hexToBits: string -> Bits,
    hexFromBits: Bits -> string,
    utf8ToBits: string -> Bits,
    utf8FromBits: Bits -> Option<string>,
    base64ToBits: string -> Option<Bits>,
    base64FromBits: Bits -> string,
    stringify: Json -> string,
    parse: string -> Option<Json>,
    btoa: string -> string,
    atob: string -> Option<string>)

  /** The authentication side: `sjcl.misc.pbkdf2(key, salt, iterations, size)`
      and `CryptoJS.HmacSHA256(message, key).words`. */
  datatype Mac = Mac(
    pbkdf2: (Bits, Bits, Pbkdf2Params) -> Bits,
    hmacSha256: (string, string) -> Bits)

  /** `sjcl.mode.cbc.encrypt` / `decrypt` under an AES cipher keyed with the
      first argument; decryption can throw (bad IV size, bad padding). */
  datatype Cbc = Cbc(
    encrypt: (Bits, Bits, Bits) -> Bits,
    decrypt: (Bits, Bits, Bits) -> Option<Bits>)

  /** `sjcl.misc.scrypt(password, salt, N, r, p, length)` and
      `sjcl.hash.sha1.hash(string)`. */
  datatype Hashes = Hashes(
    scrypt: (string, string, nat, nat, nat, nat) -> Bits,
    sha1: string -> Bits)

  datatype Crypto = Crypto(codec: Codecs, mac: Mac, cbc: Cbc, hash: Hashes)

  /** Each decoder undoes its encoder. */
  ghost predicate CodecLaws(c: Codecs) {
    (forall s :: c.utf8FromBits(c.utf8ToBits(s)) == Some(s)) &&
    (forall b :: c.base64ToBits(c.base64FromBits(b)) == Some(b)) &&
    (forall v :: c.parse(c.stringify(v)) == Some(v)) &&
    (forall s :: c.atob(c.btoa(s)) == Some(s))
  }

  /** CBC decryption with the key and 128-bit IV used to encrypt gives back
      the plaintext. */
  ghost predicate CbcLaws(a: Cbc) {
    forall key, data, iv: Nonce :: a.decrypt(key, a.encrypt(key, data, iv), iv) == Some(data)
  }
}
