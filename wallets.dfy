/** The Wallet entity of wallet.js: its constructor, Wallet.decrypt and
    wallet.encrypt, composing the authenticated cipher over the three data
    sections under one key. */
module Wallets {
  import opened Js
  import opened Primitives
  import opened AuthenticatedCipher

  /** The `options` object of the constructor; an absent property is None. */
  datatype WalletOptions = WalletOptions(
    id: Option<string>,
    key: Option<string>,
    recoveryId: Option<string>,
    mainData: Option<Json>,
    keychainData: Option<Json>,
    recoveryData: Option<Json>)

  /** The fields of a constructed Wallet. */
  datatype WalletState = WalletState(
    id: Option<string>,
    key: Option<string>,
    recoveryId: Option<string>,
    mainData: Json,
    keychainData: Json,
    recoveryData: Json)

  /** What the constructor stores: `id`, `key` and `recoveryId` as given, and
      `options.x || {}` for each data section. */
  function Construct(o: WalletOptions): (w: WalletState)
    ensures w.id == o.id && w.key == o.key && w.recoveryId == o.recoveryId
    ensures o.mainData.None? ==> w.mainData == EMPTY_OBJECT
    ensures o.keychainData.None? ==> w.keychainData == EMPTY_OBJECT
    ensures o.recoveryData.None? ==> w.recoveryData == EMPTY_OBJECT
    ensures o.mainData.Some? && !Falsy(o.mainData.value) ==> w.mainData == o.mainData.value
    ensures o.keychainData.Some? && !Falsy(o.keychainData.value) ==> w.keychainData == o.keychainData.value
    ensures o.recoveryData.Some? && !Falsy(o.recoveryData.value) ==> w.recoveryData == o.recoveryData.value
    ensures o.mainData.Some? && Falsy(o.mainData.value) ==> w.mainData == EMPTY_OBJECT
    ensures o.keychainData.Some? && Falsy(o.keychainData.value) ==> w.keychainData == EMPTY_OBJECT
    ensures o.recoveryData.Some? && Falsy(o.recoveryData.value) ==> w.recoveryData == EMPTY_OBJECT
    ensures SectionsTruthy(w)
  {
    WalletState(o.id, o.key, o.recoveryId,
      OrElse(o.mainData, EMPTY_OBJECT),
      OrElse(o.keychainData, EMPTY_OBJECT),
      OrElse(o.recoveryData, EMPTY_OBJECT))
  }

  /** No data section of a constructed wallet is falsy. */
  predicate SectionsTruthy(w: WalletState) {
    !Falsy(w.mainData) && !Falsy(w.keychainData) && !Falsy(w.recoveryData)
  }

  /** The storage form wallet.encrypt returns. */
  datatype EncryptedWallet = EncryptedWallet(
    id: Option<string>,
    authToken: Option<Json>,
    recoveryId: Option<string>,
    mainData: string,
    mainDataHash: string,
    keychainData: string,
    keychainDataHash: string,
    recoveryData: string,
    recoveryDataHash: string)

  /** The two random draws of one encryptData call: its IV, then its salt. */
  datatype SectionNonces = SectionNonces(iv: Nonce, hashSalt: Nonce)

  /** The draws of wallet.encrypt, in call order: main, recovery, keychain. */
  datatype WalletNonces = WalletNonces(main: SectionNonces, recovery: SectionNonces, keychain: SectionNonces)

  /** `hex.fromBits(sha1.hash(s))`. */
  function Sha1Hex(p: Crypto, s: string): string {
    p.codec.hexFromBits(p.hash.sha1(s))
  }

  function EncryptSection(p: Crypto, data: Json, rawKey: Bits, n: SectionNonces): string {
    EncryptData(p, data, rawKey, n.iv, n.hashSalt)
  }

  /** wallet.encrypt on a wallet's fields. Every section is encrypted under
      the same key; `id` and `recoveryId` are passed through, `authToken` is
      copied out of the keychain data, and each `*DataHash` is the hex SHA-1
      of the matching encrypted string. Without a key, `hex.toBits` throws. */
  function EncryptWallet(p: Crypto, w: WalletState, n: WalletNonces): (r: Result<EncryptedWallet>)
    ensures r.Ok? <==> w.key.Some?
    ensures r.Err? ==> r.error == MissingKey
    ensures r.Ok? ==>
      var rawKey := p.codec.hexToBits(w.key.value);
      var ew := r.value;
      ew.id == w.id && ew.recoveryId == w.recoveryId &&
      ew.authToken == Property(w.keychainData, "authToken") &&
      ew.mainData == EncryptSection(p, w.mainData, rawKey, n.main) &&
      ew.recoveryData == EncryptSection(p, w.recoveryData, rawKey, n.recovery) &&
      ew.keychainData == EncryptSection(p, w.keychainData, rawKey, n.keychain) &&
      ew.mainDataHash == Sha1Hex(p, ew.mainData) &&
      ew.recoveryDataHash == Sha1Hex(p, ew.recoveryData) &&
      ew.keychainDataHash == Sha1Hex(p, ew.keychainData)
  {
    if w.key.None? then Err(MissingKey)
    else
      var rawKey := p.codec.hexToBits(w.key.value);
      var encryptedMainData := EncryptSection(p, w.mainData, rawKey, n.main);
      var encryptedRecoveryData := EncryptSection(p, w.recoveryData, rawKey, n.recovery);
      var encryptedKeychainData := EncryptSection(p, w.keychainData, rawKey, n.keychain);
      Ok(EncryptedWallet(
        w.id,
        Property(w.keychainData, "authToken"),
        w.recoveryId,
        encryptedMainData,
        Sha1Hex(p, encryptedMainData),
        encryptedKeychainData,
        Sha1Hex(p, encryptedKeychainData),
        encryptedRecoveryData,
        Sha1Hex(p, encryptedRecoveryData)))
  }

  /** The options Wallet.decrypt hands to the constructor. The three sections
      are decrypted in the order main, recovery, keychain under the one raw
      key, and the first failure is the result, so no partial wallet is
      built. `id` and `key` come from the arguments (never from the stored
      `id`), `recoveryId` from the stored wallet. */
  function DecryptWallet(p: Crypto, ew: EncryptedWallet, id: string, key: string): (r: Result<WalletOptions>)
    ensures var rawKey := p.codec.hexToBits(key);
      var m := DecryptData(p, ew.mainData, rawKey);
      var rc := DecryptData(p, ew.recoveryData, rawKey);
      var k := DecryptData(p, ew.keychainData, rawKey);
      (r.Ok? <==> m.Ok? && rc.Ok? && k.Ok?) &&
      (m.Err? ==> r == Err(m.error)) &&
      (m.Ok? && rc.Err? ==> r == Err(rc.error)) &&
      (m.Ok? && rc.Ok? && k.Err? ==> r == Err(k.error)) &&
      (r.Ok? ==> r.value == WalletOptions(Some(id), Some(key), ew.recoveryId,
                                          Some(m.value), Some(k.value), Some(rc.value)))
  {
    var rawKey := p.codec.hexToBits(key);
    match DecryptData(p, ew.mainData, rawKey)
    case Err(e) => Err(e)
    case Ok(mainData) =>
      match DecryptData(p, ew.recoveryData, rawKey)
      case Err(e) => Err(e)
      case Ok(recoveryData) =>
        match DecryptData(p, ew.keychainData, rawKey)
        case Err(e) => Err(e)
        case Ok(keychainData) =>
          Ok(WalletOptions(Some(id), Some(key), ew.recoveryId,
                           Some(mainData), Some(keychainData), Some(recoveryData)))
  }

  /** Wallet round trip: encrypting a constructed wallet and decrypting the
      result with its own id and key gives back the same wallet, and the
      top-level `authToken` agrees with the one inside the decrypted keychain
      data. */
  lemma WalletRoundTrip(p: Crypto, w: WalletState, n: WalletNonces, id: string, key: string)
    requires CodecLaws(p.codec) && CbcLaws(p.cbc)
    requires SectionsTruthy(w) && w.id == Some(id) && w.key == Some(key)
    ensures EncryptWallet(p, w, n).Ok?
    ensures var ew := EncryptWallet(p, w, n).value;
      var o := DecryptWallet(p, ew, id, key);
      o.Ok? && Construct(o.value) == w &&
      Property(o.value.keychainData.value, "authToken") == ew.authToken
  {
    var rawKey := p.codec.hexToBits(key);
    var ew := EncryptWallet(p, w, n).value;
    SectionRoundTrip(p, w.mainData, rawKey, n.main);
    SectionRoundTrip(p, w.recoveryData, rawKey, n.recovery);
    SectionRoundTrip(p, w.keychainData, rawKey, n.keychain);
    DecryptSections(p, ew, id, key, w.mainData, w.recoveryData, w.keychainData);
    assert Construct(WalletOptions(Some(id), Some(key), w.recoveryId,
                                   Some(w.mainData), Some(w.keychainData), Some(w.recoveryData))) == w;
  }

  /** One section comes back from its own encryption. */
  lemma SectionRoundTrip(p: Crypto, data: Json, rawKey: Bits, n: SectionNonces)
    requires CodecLaws(p.codec) && CbcLaws(p.cbc)
    ensures DecryptData(p, EncryptSection(p, data, rawKey, n), rawKey) == Ok(data)
  {
    DecryptEncrypt(p, data, rawKey, n.iv, n.hashSalt);
  }

  /** Wallet.decrypt succeeds once each section decrypts. */
  lemma DecryptSections(p: Crypto, ew: EncryptedWallet, id: string, key: string, m: Json, rc: Json, k: Json)
    requires DecryptData(p, ew.mainData, p.codec.hexToBits(key)) == Ok(m)
    requires DecryptData(p, ew.recoveryData, p.codec.hexToBits(key)) == Ok(rc)
    requires DecryptData(p, ew.keychainData, p.codec.hexToBits(key)) == Ok(k)
    ensures DecryptWallet(p, ew, id, key) == Ok(WalletOptions(Some(id), Some(key), ew.recoveryId, Some(m), Some(k), Some(rc)))
  {
  }

  class Wallet {
    var id: Option<string>
    var key: Option<string>
    var recoveryId: Option<string>
    var keychainData: Json
    var mainData: Json
    var recoveryData: Json

    function State(): WalletState
      reads this
    {
      WalletState(id, key, recoveryId, mainData, keychainData, recoveryData)
    }

    /** `new Wallet(options)`. */
    constructor (options: WalletOptions)
      ensures id == options.id && key == options.key && recoveryId == options.recoveryId
      ensures keychainData == OrElse(options.keychainData, EMPTY_OBJECT)
      ensures mainData == OrElse(options.mainData, EMPTY_OBJECT)
      ensures recoveryData == OrElse(options.recoveryData, EMPTY_OBJECT)
      ensures State() == Construct(options)
    {
      id := options.id;
      key := options.key;
      recoveryId := options.recoveryId;
      keychainData := OrElse(options.keychainData, EMPTY_OBJECT);
      mainData := OrElse(options.mainData, EMPTY_OBJECT);
      recoveryData := OrElse(options.recoveryData, EMPTY_OBJECT);
    }

    /** `wallet.encrypt()`: reads the wallet, changes nothing. */
    method Encrypt(p: Crypto, n: WalletNonces) returns (r: Result<EncryptedWallet>)
      ensures r == EncryptWallet(p, State(), n)
    {
      r := EncryptWallet(p, State(), n);
    }

    /** `Wallet.decrypt(encryptedWallet, id, key)`: a new wallet built from
      the decrypted sections, or the first section's failure and no wallet. */
    static method Decrypt(p: Crypto, ew: EncryptedWallet, id: string, key: string) returns (r: Result<Wallet>)
      ensures r.Err? <==> DecryptWallet(p, ew, id, key).Err?
      ensures r.Err? ==> r.error == DecryptWallet(p, ew, id, key).error
      ensures r.Ok? ==> fresh(r.value) && r.value.State() == Construct(DecryptWallet(p, ew, id, key).value)
    {
      var options := DecryptWallet(p, ew, id, key);
      if options.Err? {
        return Err(options.error);
      }
      var w := new Wallet(options.value);
      return Ok(w);
    }
  }

  /** A wallet object encrypted by its own method and decrypted again has the
      state it started with. */
  method WalletObjectRoundTrip(p: Crypto, options: WalletOptions, n: WalletNonces, id: string, key: string)
    returns (restored: Result<Wallet>)
    requires CodecLaws(p.codec) && CbcLaws(p.cbc)
    requires options.id == Some(id) && options.key == Some(key)
    ensures restored.Ok? && fresh(restored.value)
    ensures restored.value.State() == Construct(options)
  {
    var w := new Wallet(options);
    var ew := w.Encrypt(p, n);
    WalletRoundTrip(p, w.State(), n, id, key);
    restored := Wallet.Decrypt(p, ew.value, id, key);
  }
}
