/** Wallet.encryptData and Wallet.decryptData: AES-CBC with a random 128-bit
    IV prefixed to the cipher text, authenticated by an HMAC-SHA-256 tag over
    the base64 cipher text under a PBKDF2 key with a random salt; the four
    values travel as a base64-encoded JSON envelope.

    The two random draws are the `Nonce` parameters of EncryptData, which
    makes it a function. */
module AuthenticatedCipher {
  import opened Js
  import opened Primitives

  /** Wallet.SETTINGS.CIPHER_NAME. */
  const CIPHER_NAME: string := "aes"

  /** The envelope's JSON field names. */
  const HASH_FIELD: string := "hash"
  const HASH_SALT_FIELD: string := "hashSalt"
  const CIPHER_TEXT_FIELD: string := "cipherText"
  const CIPHER_NAME_FIELD: string := "cipherName"

  /** Wallet.SETTINGS.PBKDF2: its keys are `ITERATIONS` (1000) and `SIZE`
      (256). */
  function Pbkdf2Setting(name: string): Option<nat> {
    if name == "ITERATIONS" then Some(1000)
    else if name == "SIZE" then Some(256)
    else None
  }

  /** The PBKDF2 arguments both encryptData and decryptData pass: they look
      up `iterations` and `size`, in lower case. */
  const HASH_KEY_PARAMS: Pbkdf2Params :=
    Pbkdf2Params(Pbkdf2Setting("iterations"), Pbkdf2Setting("size"))

  /** Both lookups miss, so PBKDF2 receives `undefined` twice, on both sides
      alike. */
  lemma HashKeyParamsUndefined()
    ensures HASH_KEY_PARAMS == Pbkdf2Params(None, None)
    ensures Pbkdf2Setting("ITERATIONS") == Some(1000) && Pbkdf2Setting("SIZE") == Some(256)
  {
  }

  /** How a decryption can fail. */
  datatype Error =
    | Corrupt            // thrown as 'Data corrupt!'
    | IntegrityFailure   // thrown as 'Message integrity check failed!'
    | UnsupportedCipher  // `sjcl.cipher[cipherName]` is not a constructor
    | DecryptionFailure  // CBC, the UTF-8 decoder or JSON.parse threw on the plaintext
    | MissingKey         // `hex.toBits(undefined)` threw (Wallet.encrypt)

  datatype Result<+T> = Ok(value: T) | Err(error: Error)

  /** The authentication tag of a base64 cipher text:
      `base64(HMAC-SHA256(cipherText, base64(PBKDF2(key, salt, ...))))`. */
  function Tag(p: Crypto, key: Bits, rawHashSalt: Bits, cipherText: string): string {
    var rawHashKey := p.mac.pbkdf2(key, rawHashSalt, HASH_KEY_PARAMS);
    var hashKey := p.codec.base64FromBits(rawHashKey);
    p.codec.base64FromBits(p.mac.hmacSha256(cipherText, hashKey))
  }

  /** The object encryptData packs. */
  function EnvelopeJson(c: Codecs, rawHash: Bits, rawHashSalt: Bits, rawCipherText: Bits): Json {
    JObj(map[
      HASH_FIELD := JStr(c.base64FromBits(rawHash)),
      HASH_SALT_FIELD := JStr(c.base64FromBits(rawHashSalt)),
      CIPHER_TEXT_FIELD := JStr(c.base64FromBits(rawCipherText)),
      CIPHER_NAME_FIELD := JStr(CIPHER_NAME)])
  }

  /** The raw AES-CBC output for `data`, before the IV is prefixed. */
  function CbcOutput(p: Crypto, data: Json, key: Bits, iv: Nonce): Bits {
    p.cbc.encrypt(key, p.codec.utf8ToBits(p.codec.stringify(data)), iv)
  }

  /** encryptData: the envelope carries the salt, the IV followed by the CBC
      output, and a hash whose base64 form is the tag decryptData recomputes
      over the base64 cipher text. */
  function EncryptData(p: Crypto, data: Json, key: Bits, iv: Nonce, rawHashSalt: Nonce): (r: string)
    ensures var rawCipherText := iv + CbcOutput(p, data, key, iv);
      exists rawHash :: r == p.codec.btoa(p.codec.stringify(EnvelopeJson(p.codec, rawHash, rawHashSalt, rawCipherText))) &&
                        p.codec.base64FromBits(rawHash) == Tag(p, key, rawHashSalt, p.codec.base64FromBits(rawCipherText))
  {
    var rawCipherText := iv + CbcOutput(p, data, key, iv);
    var cipherText := p.codec.base64FromBits(rawCipherText);
    var rawHash := p.mac.hmacSha256(cipherText,
      p.codec.base64FromBits(p.mac.pbkdf2(key, rawHashSalt, HASH_KEY_PARAMS)));
    p.codec.btoa(p.codec.stringify(EnvelopeJson(p.codec, rawHash, rawHashSalt, rawCipherText)))
  }

  /** What decryptData extracts inside its try block. `cipherName` is read
      without validation and may be `undefined`. */
  datatype Envelope = Envelope(rawHash: Bits, rawHashSalt: Bits, rawCipherText: Bits, cipherName: Option<Json>)

  /** `base64.toBits(obj.name)`: it throws unless the property is a string of
      base64 (on `undefined`, on any non-string, and on `null.name`). */
  function Base64Field(c: Codecs, obj: Json, name: string): (r: Option<Bits>)
    ensures r.Some? <==>
      obj.JObj? && name in obj.fields && obj.fields[name].JStr? && c.base64ToBits(obj.fields[name].str).Some?
    ensures r.Some? ==> r == c.base64ToBits(obj.fields[name].str)
  {
    match Property(obj, name)
    case Some(JStr(s)) => c.base64ToBits(s)
    case _ => None
  }

  /** The try block of decryptData; None when anything in it throws. It
      succeeds exactly when the text is base64 of JSON whose `hash`,
      `hashSalt` and `cipherText` are base64 strings; `cipherName` is taken
      as it is, possibly absent. */
  function ParseEnvelope(c: Codecs, encryptedData: string): (r: Option<Envelope>)
    ensures r.Some? <==>
      c.atob(encryptedData).Some? && c.parse(c.atob(encryptedData).value).Some? &&
      var obj := c.parse(c.atob(encryptedData).value).value;
      Base64Field(c, obj, HASH_FIELD).Some? && Base64Field(c, obj, HASH_SALT_FIELD).Some? &&
      Base64Field(c, obj, CIPHER_TEXT_FIELD).Some?
    ensures r.Some? ==>
      var obj := c.parse(c.atob(encryptedData).value).value;
      obj.JObj? &&
      Some(r.value.rawHash) == Base64Field(c, obj, HASH_FIELD) &&
      Some(r.value.rawHashSalt) == Base64Field(c, obj, HASH_SALT_FIELD) &&
      Some(r.value.rawCipherText) == Base64Field(c, obj, CIPHER_TEXT_FIELD) &&
      r.value.cipherName == (if CIPHER_NAME_FIELD in obj.fields then Some(obj.fields[CIPHER_NAME_FIELD]) else None)
  {
    match c.atob(encryptedData)
    case None => None
    case Some(text) =>
      match c.parse(text)
      case None => None
      case Some(obj) =>
        match (Base64Field(c, obj, HASH_FIELD), Base64Field(c, obj, HASH_SALT_FIELD),
               Base64Field(c, obj, CIPHER_TEXT_FIELD))
        case (Some(h), Some(s), Some(t)) => Some(Envelope(h, s, t, Property(obj, CIPHER_NAME_FIELD)))
        case _ => None
  }

  /** The recomputed tag agrees with the stored one. The cipher text is
      re-encoded from its decoded bits before it is authenticated. */
  predicate TagMatches(p: Crypto, e: Envelope, key: Bits) {
    p.codec.base64FromBits(e.rawHash) ==
      Tag(p, key, e.rawHashSalt, p.codec.base64FromBits(e.rawCipherText))
  }

  /** The tag check reads only the key, the stored hash, the salt and the
      cipher text: CBC plays no part, and the cipher name is not
      authenticated. */
  lemma TagIgnoresCipherName(p: Crypto, e: Envelope, key: Bits, cbc: Cbc, cipherName: Option<Json>)
    ensures TagMatches(p.(cbc := cbc), e.(cipherName := cipherName), key) == TagMatches(p, e, key)
  {
  }

  /** `rawCipherText.slice(0, 4)` and `rawCipherText.slice(4)`: the IV and
      the encrypted text. Nothing is lost; a text shorter than 4 words gives a
      short IV and no encrypted text. */
  function SplitIv(rawCipherText: Bits): (r: (Bits, Bits))
    ensures r.0 + r.1 == rawCipherText
    ensures |r.0| == if |rawCipherText| < 4 then |rawCipherText| else 4
  {
    (Slice(rawCipherText, 0, 4), Slice(rawCipherText, 4, |rawCipherText|))
  }

  /** Splitting at word 4 recovers the IV prepended by encryptData and its
      CBC output. */
  lemma SplitIvRecovers(iv: Nonce, encrypted: Bits)
    ensures SplitIv(iv + encrypted) == (iv, encrypted)
  {
    var r := SplitIv(iv + encrypted);
    assert r.0 == (iv + encrypted)[..4];
    assert (iv + encrypted)[..4] == iv;
    assert r.1 == (iv + encrypted)[4..];
    assert (iv + encrypted)[4..] == encrypted;
  }

  /** The part of decryptData after the envelope is parsed. */
  function DecryptEnvelope(p: Crypto, e: Envelope, key: Bits): (r: Result<Json>)
    ensures r == Err(IntegrityFailure) <==> !TagMatches(p, e, key)
    ensures r == Err(UnsupportedCipher) <==> TagMatches(p, e, key) && e.cipherName != Some(JStr(CIPHER_NAME))
    ensures r.Err? ==> r.error in {IntegrityFailure, UnsupportedCipher, DecryptionFailure}
    ensures r.Ok? ==>
      var (rawIv, rawEncryptedText) := SplitIv(e.rawCipherText);
      TagMatches(p, e, key) && e.cipherName == Some(JStr(CIPHER_NAME)) &&
      var rawData := p.cbc.decrypt(key, rawEncryptedText, rawIv);
      rawData.Some? && p.codec.utf8FromBits(rawData.value).Some? &&
      p.codec.parse(p.codec.utf8FromBits(rawData.value).value) == Some(r.value)
  {
    if !TagMatches(p, e, key) then Err(IntegrityFailure)
    else
      var (rawIv, rawEncryptedText) := SplitIv(e.rawCipherText);
      if e.cipherName != Some(JStr(CIPHER_NAME)) then Err(UnsupportedCipher)
      else
        match p.cbc.decrypt(key, rawEncryptedText, rawIv)
        case None => Err(DecryptionFailure)
        case Some(rawData) =>
          match p.codec.utf8FromBits(rawData)
          case None => Err(DecryptionFailure)
          case Some(text) =>
            match p.codec.parse(text)
            case None => Err(DecryptionFailure)
            case Some(data) => Ok(data)
  }

  /** decryptData. Its failures come in a fixed order: an envelope that does
      not parse is Corrupt; a parsed one whose tag does not match is an
      IntegrityFailure; only an authenticated one can name an unsupported
      cipher or fail to decrypt. */
  function DecryptData(p: Crypto, encryptedData: string, key: Bits): (r: Result<Json>)
    ensures r == Err(Corrupt) <==> ParseEnvelope(p.codec, encryptedData).None?
    ensures r == Err(IntegrityFailure) <==>
      ParseEnvelope(p.codec, encryptedData).Some? &&
      !TagMatches(p, ParseEnvelope(p.codec, encryptedData).value, key)
    ensures r == Err(UnsupportedCipher) <==>
      ParseEnvelope(p.codec, encryptedData).Some? &&
      TagMatches(p, ParseEnvelope(p.codec, encryptedData).value, key) &&
      ParseEnvelope(p.codec, encryptedData).value.cipherName != Some(JStr(CIPHER_NAME))
    ensures r != Err(MissingKey)
  {
    match ParseEnvelope(p.codec, encryptedData)
    case None => Err(Corrupt)
    case Some(e) => DecryptEnvelope(p, e, key)
  }

  /** An envelope that does not parse fails as Corrupt before any tag is
      computed: the result is the same for every key and every PBKDF2, HMAC
      and CBC behaviour. */
  lemma CorruptBeforeTag(p: Crypto, encryptedData: string, key: Bits, mac: Mac, cbc: Cbc, otherKey: Bits)
    requires ParseEnvelope(p.codec, encryptedData).None?
    ensures DecryptData(p, encryptedData, key) == Err(Corrupt)
    ensures DecryptData(p.(mac := mac, cbc := cbc), encryptedData, otherKey) == Err(Corrupt)
  {
  }

  /** A tag mismatch fails before the cipher is looked up or anything is
      decrypted: the result is the same whatever the CBC behaviour and
      whatever cipher the envelope names. */
  lemma IntegrityBeforeCipher(p: Crypto, e: Envelope, key: Bits, cbc: Cbc, cipherName: Option<Json>)
    requires !TagMatches(p, e, key)
    ensures DecryptEnvelope(p, e, key) == Err(IntegrityFailure)
    ensures DecryptEnvelope(p.(cbc := cbc), e.(cipherName := cipherName), key) == Err(IntegrityFailure)
  {
  }

  /** The envelope encryptData produces has exactly the fields `hash`,
      `hashSalt`, `cipherText` and `cipherName = 'aes'`; it parses back to the
      salt, the IV followed by the CBC output, and a tag that matches. */
  lemma EncryptedEnvelope(p: Crypto, data: Json, key: Bits, iv: Nonce, rawHashSalt: Nonce)
    requires CodecLaws(p.codec)
    ensures var c := p.codec;
      var text := c.atob(EncryptData(p, data, key, iv, rawHashSalt));
      text.Some? && c.parse(text.value).Some? && c.parse(text.value).value.JObj? &&
      c.parse(text.value).value.fields.Keys == {HASH_FIELD, HASH_SALT_FIELD, CIPHER_TEXT_FIELD, CIPHER_NAME_FIELD} &&
      c.parse(text.value).value.fields[CIPHER_NAME_FIELD] == JStr("aes")
    ensures var e := ParseEnvelope(p.codec, EncryptData(p, data, key, iv, rawHashSalt));
      e.Some? && e.value.rawHashSalt == rawHashSalt &&
      e.value.rawCipherText == iv + CbcOutput(p, data, key, iv) &&
      e.value.cipherName == Some(JStr(CIPHER_NAME)) &&
      TagMatches(p, e.value, key)
  {
    var c := p.codec;
    var rawCipherText := iv + CbcOutput(p, data, key, iv);
    var cipherText := c.base64FromBits(rawCipherText);
    var rawHash := p.mac.hmacSha256(cipherText,
      c.base64FromBits(p.mac.pbkdf2(key, rawHashSalt, HASH_KEY_PARAMS)));
    var obj := EnvelopeJson(c, rawHash, rawHashSalt, rawCipherText);
    assert EncryptData(p, data, key, iv, rawHashSalt) == c.btoa(c.stringify(obj));
    assert c.atob(c.btoa(c.stringify(obj))) == Some(c.stringify(obj));
    assert c.parse(c.stringify(obj)) == Some(obj);
    assert obj.fields.Keys == {HASH_FIELD, HASH_SALT_FIELD, CIPHER_TEXT_FIELD, CIPHER_NAME_FIELD};
    assert Base64Field(c, obj, HASH_FIELD) == Some(rawHash);
    assert Base64Field(c, obj, HASH_SALT_FIELD) == Some(rawHashSalt);
    assert Base64Field(c, obj, CIPHER_TEXT_FIELD) == Some(rawCipherText);
    assert ParseEnvelope(c, EncryptData(p, data, key, iv, rawHashSalt))
        == Some(Envelope(rawHash, rawHashSalt, rawCipherText, Some(JStr(CIPHER_NAME))));
  }

  /** Round trip: under the inverse laws of the codecs and of CBC,
      decryptData undoes encryptData with the same key, whatever IV and salt
      were drawn. */
  lemma DecryptEncrypt(p: Crypto, data: Json, key: Bits, iv: Nonce, rawHashSalt: Nonce)
    requires CodecLaws(p.codec) && CbcLaws(p.cbc)
    ensures DecryptData(p, EncryptData(p, data, key, iv, rawHashSalt), key) == Ok(data)
  {
    var c := p.codec;
    EncryptedEnvelope(p, data, key, iv, rawHashSalt);
    var e := ParseEnvelope(c, EncryptData(p, data, key, iv, rawHashSalt)).value;
    SplitIvRecovers(iv, CbcOutput(p, data, key, iv));
    var rawData := c.utf8ToBits(c.stringify(data));
    assert p.cbc.decrypt(key, p.cbc.encrypt(key, rawData, iv), iv) == Some(rawData);
    assert c.utf8FromBits(rawData) == Some(c.stringify(data));
    assert c.parse(c.stringify(data)) == Some(data);
  }

  /** A fresh IV or a fresh salt gives a different envelope: two encryptions
      of the same data under the same key coincide only when both draws do. */
  lemma EnvelopesDifferWithSalts(p: Crypto, data: Json, key: Bits, iv1: Nonce, salt1: Nonce, iv2: Nonce, salt2: Nonce)
    requires CodecLaws(p.codec)
    requires EncryptData(p, data, key, iv1, salt1) == EncryptData(p, data, key, iv2, salt2)
    ensures iv1 == iv2 && salt1 == salt2
  {
    EncryptedEnvelope(p, data, key, iv1, salt1);
    EncryptedEnvelope(p, data, key, iv2, salt2);
    var e := ParseEnvelope(p.codec, EncryptData(p, data, key, iv1, salt1)).value;
    var ct1, ct2 := CbcOutput(p, data, key, iv1), CbcOutput(p, data, key, iv2);
    assert iv1 + ct1 == iv2 + ct2;
    assert iv1 == (iv1 + ct1)[..4];
    assert iv2 == (iv2 + ct2)[..4];
  }
}
