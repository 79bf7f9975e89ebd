# Stellar client wallet cryptography and address helpers, in Dafny

This project models two utility files of the stellar-client web wallet.

**wallet.js** builds a wallet out of three separately encrypted data
sections: main, recovery and keychain.
- `deriveId` and `deriveKey` turn a username and password into a wallet id
  and a key, using scrypt. The key derivation chains on the id.
- `encryptData` encrypts one JSON value with AES-CBC under a random IV. It
  authenticates the base64 cipher text with HMAC-SHA-256, under a key that
  PBKDF2 derives with a random salt. The result is a base64 JSON envelope
  `{hash, hashSalt, cipherText, cipherName}`.
- `decryptData` reverses this. Its failures come in a fixed order: a corrupt
  envelope, then a tag mismatch, then the cipher and the plaintext.
- The `Wallet` constructor, `Wallet.decrypt` and `wallet.encrypt` apply the
  per-section operations to all three sections.

**web.js** parses destination tags out of ripple addresses. It also picks the
issuer with the highest trust limit and looks up contacts.

Modules:
- `Js` (js.dfy): JSON values with JavaScript truthiness and property lookup,
  `slice`, and `indexOf` with a proved contract.
- `Primitives` (primitives.dfy): the foreign libraries as a record of
  uninterpreted functions, called `Crypto`. These are sjcl's codecs, CBC,
  PBKDF2, scrypt and SHA-1, plus CryptoJS's HMAC, JSON and `btoa`/`atob`.
  Nothing about them is assumed globally. The inverse laws `CodecLaws` and
  `CbcLaws` appear only as preconditions of the round-trip lemmas.
- `KeyDerivation`, `AuthenticatedCipher`, `Wallets`: the parts of wallet.js.
- `WebUtil` (web_util.dfy): web.js.

The random draws of `sjcl.random.randomWords(4)` are explicit `Nonce`
parameters, so `encryptData` is a function. The failure ordering is stated
as independence. A Corrupt result is the same for every key and every
PBKDF2, HMAC and CBC behaviour. An IntegrityFailure is the same for every
CBC behaviour and every cipher name.

Where the repository's tests and the code disagree, the model follows the code:
- The constructor defaults a missing `recoveryData` to `{}`, like the other
  sections (wallet.js:8). test_wallet.js:40 expects `''`.
- `Wallet.decrypt` decrypts all three sections (wallet.js:28-30). The test
  at test_wallet.js:76 expects two calls.
- The envelope is the CBC/HMAC format above. The tests at
  test_wallet.js:158-191 expect an older ccm format.

## Model

| member | source | states |
|---|---|---|
| `Js.IndexOf` | app/scripts/utilities/web.js:6 | `indexOf`: the result is -1 exactly when the pattern does not occur, and otherwise the first index where it occurs |
| `KeyDerivation.DeriveId` | app/scripts/utilities/wallet.js:105-119 | the id is the hex of scrypt over `username + password` as both password and salt, with N = 2048, r = 8, p = 1 and 32 bytes of output |
| `KeyDerivation.DeriveKey` | app/scripts/utilities/wallet.js:121-135 | deriveKey(id, u, p) equals deriveId(id + u, p), so the id is prefixed onto both the scrypt password and the salt |
| `KeyDerivation.DerivationSeesConcatenation` | app/scripts/utilities/wallet.js:106-107 | credentials with the same `username + password` derive the same id and the same key |
| `KeyDerivation.DeriveIdSensitive` | app/scripts/utilities/wallet.js:105-119 | if scrypt and hex are collision-free, equal ids imply equal concatenated credentials |
| `KeyDerivation.DeriveKeyDependsOnId` | app/scripts/utilities/wallet.js:121-135 | if the digests are collision-free, then for fixed credentials different ids give different keys |
| `AuthenticatedCipher.HashKeyParamsUndefined` | app/scripts/utilities/wallet.js:166-171 | the lower-case `iterations`/`size` lookups miss the upper-case settings (1000, 256), so PBKDF2 gets two undefined arguments |
| `AuthenticatedCipher.EncryptData` | app/scripts/utilities/wallet.js:145-187 | the result is btoa of the JSON envelope holding the salt, the IV followed by the CBC output, and a hash whose base64 form is the same tag decryptData recomputes over the base64 cipher text |
| `AuthenticatedCipher.Base64Field` | app/scripts/utilities/wallet.js:201-205 | `base64.toBits(obj.name)` succeeds exactly when obj is an object whose property is a base64 string, and then gives its decoding |
| `AuthenticatedCipher.ParseEnvelope` | app/scripts/utilities/wallet.js:196-213 | the try block succeeds exactly when the text is base64 of JSON with base64 strings under hash, hashSalt and cipherText; the envelope holds their decodings and the raw, possibly absent, cipherName |
| `AuthenticatedCipher.TagIgnoresCipherName` | app/scripts/utilities/wallet.js:215-230 | the tag check depends only on the key, the stored hash, the salt and the cipher text: neither CBC nor the cipher name takes part, so the cipher name is not authenticated |
| `AuthenticatedCipher.DecryptEnvelope` | app/scripts/utilities/wallet.js:215-248 | IntegrityFailure exactly when the tag differs; UnsupportedCipher exactly when the tag matches and the name is not 'aes'; success only after both checks, with CBC, UTF-8 and JSON.parse all succeeding on the split cipher text; Corrupt and MissingKey never arise here |
| `AuthenticatedCipher.SplitIv` | app/scripts/utilities/wallet.js:233-234 | `slice(0, 4)` and `slice(4)` lose nothing; the IV part has 4 words, or fewer on a short text |
| `AuthenticatedCipher.SplitIvRecovers` | app/scripts/utilities/wallet.js:157-161 | splitting the IV-prefixed cipher text at word 4 gives back exactly the IV and the CBC output |
| `AuthenticatedCipher.DecryptData` | app/scripts/utilities/wallet.js:195-249 | Corrupt exactly when the envelope or its base64 fields do not decode; IntegrityFailure exactly when the envelope parses and the tag differs; UnsupportedCipher only after a matching tag |
| `AuthenticatedCipher.CorruptBeforeTag` | app/scripts/utilities/wallet.js:196-213 | an unparseable envelope is Corrupt for any key and any PBKDF2, HMAC and CBC behaviour, so no tag is computed first |
| `AuthenticatedCipher.IntegrityBeforeCipher` | app/scripts/utilities/wallet.js:225-244 | on a tag mismatch the result is IntegrityFailure however CBC behaves and whatever cipher name the envelope has |
| `AuthenticatedCipher.EncryptedEnvelope` | app/scripts/utilities/wallet.js:145-187 | the envelope has exactly the fields hash, hashSalt, cipherText and cipherName = 'aes'; it parses back to the salt and the IV followed by the CBC output, and its tag matches |
| `AuthenticatedCipher.DecryptEncrypt` | app/scripts/utilities/wallet.js:195-249 | if the codecs and CBC invert each other, decryptData(encryptData(d, k, iv, salt), k) == Ok(d) |
| `AuthenticatedCipher.EnvelopesDifferWithSalts` | app/scripts/utilities/wallet.js:157-165 | two encryptions of the same data under the same key yield the same envelope only if they drew the same IV and the same salt |
| `Wallets.Construct` | app/scripts/utilities/wallet.js:1-9 | id, key and recoveryId are copied verbatim; a missing or falsy section becomes `{}`, a truthy one is kept, and no section ends up falsy |
| `Wallets.Wallet.constructor` | app/scripts/utilities/wallet.js:1-9 | the new object's fields are the options, and each data section that is missing or falsy becomes `{}` |
| `Wallets.EncryptWallet` | app/scripts/utilities/wallet.js:49-66 | every section is encrypted under the one raw key; id and recoveryId are unchanged; authToken is keychainData.authToken; each hash is the hex SHA-1 of its encrypted string; a missing key fails |
| `Wallets.Wallet.Encrypt` | app/scripts/utilities/wallet.js:49-67 | the method returns EncryptWallet of the object's current fields and changes nothing |
| `Wallets.DecryptWallet` | app/scripts/utilities/wallet.js:25-42 | all three sections are decrypted under one key and succeed together; the first failure (main, recovery, keychain) is the result; id and key come from the arguments, recoveryId from the stored wallet |
| `Wallets.Wallet.Decrypt` | app/scripts/utilities/wallet.js:25-42 | a fresh Wallet built by the constructor from DecryptWallet's options, or its error and no wallet |
| `Wallets.WalletRoundTrip` | app/scripts/utilities/wallet.js:25-66 | if the codecs and CBC invert each other, decrypting an encrypted wallet with its own id and key gives back the same wallet, and authToken agrees with the decrypted keychain data |
| `Wallets.WalletObjectRoundTrip` | app/scripts/utilities/wallet.js:1-67 | a Wallet object encrypted by its own method and passed to Wallet.decrypt comes back with its original state |
| `WebUtil.StripRippleAddress` | app/scripts/utilities/web.js:4-12 | a string gives the longest prefix with no `?` (the whole string if it has none); any non-string is returned unchanged |
| `WebUtil.StripIdempotent` | app/scripts/utilities/web.js:4-12 | stripping twice equals stripping once |
| `WebUtil.Query` | app/scripts/utilities/web.js:16-18 | the text from the first `?` on, or undefined when the address has no `?` |
| `WebUtil.After` | app/scripts/utilities/web.js:22 | the text after the first occurrence of the pattern |
| `WebUtil.TagValue` | app/scripts/utilities/web.js:22-29 | the text up to the first `&`; the whole text when there is no `&` or when `&` comes first (the `index > 0` test) |
| `WebUtil.GetDestTagFromAddress` | app/scripts/utilities/web.js:15-45 | undefined exactly when there is no `?` or the query has neither `dt=` nor `d=`; otherwise the tag after the first `dt=` if there is one, else after the first `d=` |
| `WebUtil.QueryIgnoresPrefix` | app/scripts/utilities/web.js:16-18 | a leading part without `?` does not change the query |
| `WebUtil.DestTagIgnoresAccount` | app/scripts/utilities/web.js:15-45 | only the text from the first `?` is searched: the account part before it does not affect the tag |
| `WebUtil.FindIssuer` | app/scripts/utilities/web.js:48-65 | null exactly when no line in the currency has a positive limit; otherwise the account of the first line whose limit is highest among lines in that currency |
| `WebUtil.FirstMaxUnique` | app/scripts/utilities/web.js:55-60 | at most one line is the first with the highest positive limit, so FindIssuer's contract fixes its answer |
| `WebUtil.GetContact` | app/scripts/utilities/web.js:67-76 | the first contact whose name or address equals the value; false (None) exactly when none matches |

## Left out

- Crypto internals: AES, CBC, PBKDF2, scrypt, SHA-1, HMAC-SHA-256, base64, hex, UTF-8, JSON and `btoa`/`atob` are foreign libraries. They are uninterpreted fields of `Crypto`. Only the inverse laws the round trips need are assumed, as preconditions.
- Randomness: `sjcl.random.randomWords` cannot be modelled. The IV and salt are `Nonce` parameters of 4 words each.
- `sjcl.beware[...]()`: these library calls do nothing to the data.
- PBKDF2 with `undefined` arguments: the library's behaviour is not modelled. Both sides pass the same `HASH_KEY_PARAMS` value.
- scrypt cost and timing: performance is not a property that can be verified.
- AES key-size validation in `new sjcl.cipher.aes(key)`: this library check is not modelled. The cipher is treated as accepting any key.
- `btoa` failing on characters above U+00FF: the envelope JSON is ASCII, so this failure is not modelled.
- Key order in `JSON.stringify`: a JSON object is a map, so the insertion order of keys is not represented.
- JavaScript numbers: they are integers here. NaN, -0 and fractions are not modelled. A falsy value is null, false, 0 or "".
- Values outside JSON: `undefined` inside a section, functions and cyclic objects are not modelled. Nor are prototype properties reached by name.
- `Wallet.decrypt` arguments: `id`, `key` and the stored wallet's sections are strings. Other JavaScript values are not modelled.
- `sjcl.cipher[cipherName]`: only the string "aes" selects the cipher. Non-string names that JavaScript would coerce to "aes" are not modelled.
- `findIssuer`: limits are given integers. The `+limit.to_text()` conversion of the foreign Amount object is not modelled. `lines` is a sequence iterated in index order.
- `getDestTagFromAddress` on a non-string: there `indexOf` throws. The model takes a string argument.
- DeriveIdSensitive and DeriveKeyDependsOnId: these hold only if scrypt and hex encoding are collision-free. That hypothesis is stated as the `CollisionFree` precondition. Real digests give it only with overwhelming probability.
- Tamper detection by the HMAC: whether a forged tag can match is a cryptographic property of HMAC and outside this model. The model proves only that tag checking happens before any decryption.
- FindIssuer and GetContact: `currency` and `value` are strings. An undefined argument, which in JavaScript matches lines without a currency (web.js:55) or contacts without a name or address (web.js:70), is not modelled.
- app/scripts/controllers/task-message-controller.js: Angular UI wiring, not part of this model.
