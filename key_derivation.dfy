/** Wallet.deriveId and Wallet.deriveKey: the wallet id and key are scrypt
    digests of the credentials, the credentials serving as their own salt, and
    the key chains on the id. */
module KeyDerivation {
  import opened Primitives

  /** Wallet.SETTINGS.SCRYPT: N = Math.pow(2, 11), r = 8, p = 1, 256 bits. */
  const SCRYPT_N: nat := 2048
  const SCRYPT_R: nat := 8
  const SCRYPT_P: nat := 1
  const SCRYPT_SIZE: nat := 256

  /** The length argument `SCRYPT.SIZE / 8`: 32 bytes. */
  const SCRYPT_BYTES: nat := SCRYPT_SIZE / 8

  /** `hex.fromBits(scrypt(input, salt, N, r, p, SIZE / 8))`. */
  function ScryptHex(p: Crypto, input: string, salt: string): string {
    p.codec.hexFromBits(p.hash.scrypt(input, salt, SCRYPT_N, SCRYPT_R, SCRYPT_P, SCRYPT_BYTES))
  }

  /** deriveId: scrypt with N = 2^11, r = 8, p = 1 and a 32-byte output, on
      the concatenated credentials as both password and salt. */
  function DeriveId(p: Crypto, username: string, password: string): (id: string)
    ensures id == p.codec.hexFromBits(p.hash.scrypt(username + password, username + password, 2048, 8, 1, 32))
  {
    var credentials := username + password;
    var salt := credentials;
    ScryptHex(p, credentials, salt)
  }

  /** deriveKey is deriveId with the id prefixed onto the username: the id is
      prefixed onto both the scrypt password and the salt. */
  function DeriveKey(p: Crypto, id: string, username: string, password: string): (key: string)
    ensures key == DeriveId(p, id + username, password)
  {
    var credentials := username + password;
    var salt := credentials;
    assert id + credentials == (id + username) + password;
    ScryptHex(p, id + credentials, id + salt)
  }

  /** Idealisation of the digests: with the settings above, scrypt gives
      different outputs for different passwords, and hex encoding is
      injective. */
  ghost predicate CollisionFree(p: Crypto) {
    (forall a1, s1, a2, s2 ::
       (p.hash.scrypt(a1, s1, SCRYPT_N, SCRYPT_R, SCRYPT_P, SCRYPT_BYTES) ==
        p.hash.scrypt(a2, s2, SCRYPT_N, SCRYPT_R, SCRYPT_P, SCRYPT_BYTES)) ==> a1 == a2) &&
    (forall b1, b2 :: p.codec.hexFromBits(b1) == p.codec.hexFromBits(b2) ==> b1 == b2)
  }

  /** Only the concatenation `username + password` enters the derivation, so
      credentials that concatenate alike derive the same id and key. */
  lemma DerivationSeesConcatenation(p: Crypto, id: string, u1: string, p1: string, u2: string, p2: string)
    requires u1 + p1 == u2 + p2
    ensures DeriveId(p, u1, p1) == DeriveId(p, u2, p2)
    ensures DeriveKey(p, id, u1, p1) == DeriveKey(p, id, u2, p2)
  {
  }

  /** With collision-free digests, equal ids mean equal concatenated
      credentials. */
  lemma DeriveIdSensitive(p: Crypto, u1: string, p1: string, u2: string, p2: string)
    requires CollisionFree(p)
    requires DeriveId(p, u1, p1) == DeriveId(p, u2, p2)
    ensures u1 + p1 == u2 + p2
  {
  }

  /** With collision-free digests, the key depends on the id: for fixed
      credentials, different ids give different keys. */
  lemma DeriveKeyDependsOnId(p: Crypto, id1: string, id2: string, username: string, password: string)
    requires CollisionFree(p)
    requires DeriveKey(p, id1, username, password) == DeriveKey(p, id2, username, password)
    ensures id1 == id2
  {
    var c := username + password;
    assert id1 + c == id2 + c;
    SuffixCancels(id1, id2, c);
  }

  lemma SuffixCancels(a: string, b: string, c: string)
    requires a + c == b + c
    ensures a == b
  {
    assert |a| == |b|;
    assert a == (a + c)[..|a|];
    assert b == (b + c)[..|b|];
  }
}
