# soento-framework security layer, in Dafny

This project models the core of the soento-framework `soento-core` module. That core is the security layer over the Java cryptography platform, together with the small value helpers around it:

- **Symmetric and asymmetric cipher wrappers.** These are `SymmetricCrypto`, `DES`, `AsymmetricCrypto` and `RSA`. They cover key selection by key type, PBE parameter defaulting, parameter-or-not cipher initialisation, a lock taken and always released, hexadecimal composition, and RSA's block loops.
- **The streaming digest driver** (`Digester`).
- **Key-material dispatch** (`CryptoUtil`).
- **Fixed-size block splitting and boxing** (`ArrayUtil`).
- **Path normalisation** (`FileUtil`).
- **Charset parsing** (`Charset`, `CharsetUtil`).
- **Paging arithmetic** (`Query`).
- **Time units** (`DateUnit`).
- **File-extension enums** (`Image`, `Img`, `Audio`, `Video`).
- **Message-argument lists** (`MessageInfo`, `Msg`).
- **The REST response envelope** (`RestResponse`).

The real ciphers, hashes, key factories, signature engines and codecs are foreign platform code. Module `Platform` stands in for them:

- A `Provider` record holds their behaviour as function-valued fields: `supports`, `accepts`, `transform`, `sign`, `verify`, `decodePrivate`, `decodePublic`, `generatePair`, and so on.
- A `Codecs` record does the same for charset encoding/decoding, Base64, BCD, URL encoding and the whitespace splitter.
- Small classes (`Cipher`, `Signature`, `MessageDigest`, `InputStream`, `Lock`) keep the state of the platform objects the core drives.

Every property about a cipher or a signature is therefore stated for every provider, or for every provider satisfying a stated inverse law. Examples are `Symmetric.Invertible`, `Asymmetric.PairInvertible` and `Asymmetric.SignaturesSound`. The hash functions are MD5 (RFC 1321) and SHA-1/SHA-256 (FIPS 180-4); they stay abstract as `MessageDigest.hash`.

Java conventions are modelled as follows:

- **Exceptions** become `Result<T>` values with an `Error` kind. `null` becomes `Option`.
- **A Java `byte`** is a newtype over -128..127.
- **`int` arithmetic in `Query`** wraps explicitly modulo 2^32.
- **The cipher lock** is a `Lock` with a ghost `held` flag and an `acquisitions` counter. Every locked operation requires `!lock.held` and ensures it again, and it counts one acquisition. The block loops run on a cipher that requires `guard.held`.
- **Subclasses** become modules of methods over the base-class object:
  - `DES` over `SymmetricCrypto`;
  - `RSA` over `AsymmetricCrypto`;
  - a DSA object is an `AsymmetricCrypto` over "DSA".
- **A constructor that can throw** becomes a module-level `New` that returns a `Result`.

Where the code and its own comments disagree, the model follows the code. The comments of RSA `encrypt` (crypto/asymmetric/RSA.java:68 and :70) say the plaintext is cut into pieces of at most the modulus length minus 11 bytes. The code at RSA.java:69 instead calls `StringUtil.split(data, null, keyLength - 11)`, which is commons-lang `StringUtils.split(String, String, int)` inherited by `StringUtil` (util/StringUtil.java:12). With a null separator that method splits at whitespace, and its third argument caps the number of tokens rather than their length. The model keeps that splitter abstract (`Codecs.splitMax`). It therefore makes no claim that RSA decryption undoes RSA encryption; see "Left out".

Two places where the code evidently does not do what was intended are listed under "## Findings". Each is modelled both as written and as corrected.

## Model

| member | source | states |
|---|---|---|
| Charsets.Charset.Value | soento-core/src/main/java/com/soento/framework/core/enums/Charset.java:26-28 | each constant's JVM name is a non-empty name not starting with whitespace |
| Charsets.Charset.DefaultCharset | soento-core/src/main/java/com/soento/framework/core/enums/Charset.java:34-36 | the default charset is the one named "UTF-8", whatever the receiver |
| Charsets.Parse | soento-core/src/main/java/com/soento/framework/core/enums/Charset.java:38-51 | null and every name outside the alias table fail with `UnknownCharset`, and nothing else fails |
| Charsets.ParseMatchesAliases | soento-core/src/main/java/com/soento/framework/core/enums/Charset.java:39-50 | `parse` succeeds exactly when the name matches an alias, ignoring case, and then yields that alias's constant |
| Charsets.AliasesDisjoint | soento-core/src/main/java/com/soento/framework/core/enums/Charset.java:39-49 | a name matching any alias yields that alias's constant, so the order of the tests does not matter |
| Charsets.ParseValue | soento-core/src/main/java/com/soento/framework/core/enums/Charset.java:10-49 | `parse(c.value()) == c` for every constant |
| Charsets.ParseIgnoresCase | soento-core/src/main/java/com/soento/framework/core/enums/Charset.java:39-49 | upper-casing the ASCII letters of a name never changes the result of `parse` |
| CharsetUtil.CharsetOf | soento-core/src/main/java/com/soento/framework/core/util/CharsetUtil.java:19-21 | a blank name gives UTF-8, and any other name gives `Charset.parse` |
| CharsetUtil.CharsetOfValue | soento-core/src/main/java/com/soento/framework/core/util/CharsetUtil.java:19-21 | every constant's own name selects that constant |
| CharsetUtil.Convert | soento-core/src/main/java/com/soento/framework/core/util/CharsetUtil.java:43-60 | null charsets mean UTF-8; a blank source or equal charsets return the source unchanged; otherwise the source is encoded in the first charset and decoded in the second |
| CharsetUtil.ConvertNamed | soento-core/src/main/java/com/soento/framework/core/util/CharsetUtil.java:31-33 | fails exactly when either name fails to parse; otherwise it is `convert` of the parsed charsets |
| CharsetUtil.ConvertNamedAliases | soento-core/src/main/java/com/soento/framework/core/util/CharsetUtil.java:31-60 | two names of the same charset (such as "utf8" and "UTF-8") leave any text unchanged |
| CharsetUtil.StringBytes | soento-core/src/main/java/com/soento/framework/core/util/StringUtil.java:117-140 | fails exactly when the charset name does not resolve; null text stays null; otherwise gives the text encoded in the resolved charset |
| CharsetUtil.StringBytesUtf8 | soento-core/src/main/java/com/soento/framework/core/util/StringUtil.java:106-108 | the UTF-8 name always resolves and yields the UTF-8 encoding |
| Hex.Unsigned | soento-core/src/main/java/com/soento/framework/core/crypto/digest/Digester.java:133-135 | `b & 0xff`: below 256, equal to `b` for non-negative bytes and to `b + 256` for negative ones |
| Hex.Signed | soento-core/src/main/java/com/soento/framework/core/crypto/symmetric/SymmetricCrypto.java:268-270 | the byte whose unsigned value is `u` |
| Hex.Encode | soento-core/src/main/java/com/soento/framework/core/crypto/digest/Digester.java:133-135 | the text has two lower-case hexadecimal digits per byte |
| Hex.EncodeResult | soento-core/src/main/java/com/soento/framework/core/crypto/symmetric/SymmetricCrypto.java:148-150 | a failure stays the same failure; a success becomes hexadecimal text that decodes back to the same bytes |
| Hex.Decode | soento-core/src/main/java/com/soento/framework/core/crypto/symmetric/SymmetricCrypto.java:268-270 | success yields half as many bytes as characters; any failure is `IllegalArgument` |
| Hex.DecodeEncode | soento-core/src/main/java/com/soento/framework/core/crypto/symmetric/SymmetricCrypto.java:148-150 | decoding the text form gives back the bytes: `decodeHex(encode(b)) == b` |
| ArrayUtil.Chunks | soento-core/src/main/java/com/soento/framework/core/util/ArrayUtil.java:16-35 | every block is exactly `len` bytes long |
| ArrayUtil.ChunksCount | soento-core/src/main/java/com/soento/framework/core/util/ArrayUtil.java:17-23 | the block count is `n / len`, plus one exactly when `n % len != 0`; an empty input gives no blocks, and only an empty input does |
| ArrayUtil.ChunkAt | soento-core/src/main/java/com/soento/framework/core/util/ArrayUtil.java:26-32 | every block starts inside the input; a block that fits is the input slice `[i*len, i*len+len)`; the block that does not fit is the input's tail followed by zero bytes up to `len` |
| ArrayUtil.BlockBounds | soento-core/src/main/java/com/soento/framework/core/util/ArrayUtil.java:27-31 | a block runs past the end of the input exactly when it is the last block and `n % len != 0` |
| ArrayUtil.ChunksFlatten | soento-core/src/main/java/com/soento/framework/core/util/ArrayUtil.java:16-35 | the blocks laid end to end, cut at `n`, give back the input |
| ArrayUtil.ArrayCopy | soento-core/src/main/java/com/soento/framework/core/util/ArrayUtil.java:28-30 | `System.arraycopy` writes the source slice into the destination range and leaves the rest of the destination unchanged |
| ArrayUtil.NewBlock | soento-core/src/main/java/com/soento/framework/core/util/ArrayUtil.java:26-32 | one loop turn builds a fresh array equal to block `i` |
| ArrayUtil.Split | soento-core/src/main/java/com/soento/framework/core/util/ArrayUtil.java:16-35 | a fresh array of `ChunkCount(n, len)` distinct, fresh blocks; block `i` equals `Chunks(bytes, len)[i]` |
| ArrayUtil.Boxed | soento-core/src/main/java/com/soento/framework/core/util/ArrayUtil.java:124-131 | boxing keeps the length |
| ArrayUtil.Unboxed | soento-core/src/main/java/com/soento/framework/core/util/ArrayUtil.java:139-146 | unboxing succeeds exactly when no element is null, and keeps every element in its position |
| ArrayUtil.UnboxedBoxed | soento-core/src/main/java/com/soento/framework/core/util/ArrayUtil.java:124-146 | `unWrap(wrap(v)) == v` |
| ArrayUtil.BoxedAt | soento-core/src/main/java/com/soento/framework/core/util/ArrayUtil.java:124-131 | an array boxing each element in place is the boxed form |
| ArrayUtil.Wrap | soento-core/src/main/java/com/soento/framework/core/util/ArrayUtil.java:124-131 | `wrap` returns a fresh array that is the boxed form of the input |
| ArrayUtil.UnWrap | soento-core/src/main/java/com/soento/framework/core/util/ArrayUtil.java:139-146 | fails with `NullPointer` exactly when an element is null; otherwise returns a fresh array of the unboxed elements |
| ArrayUtil.Length | soento-core/src/main/java/com/soento/framework/core/util/ArrayUtil.java:110-115 | 0 for null, otherwise the array length |
| FileUtil.GetName | soento-core/src/main/java/com/soento/framework/core/util/FileUtil.java:30-35 | blank names and names without a dot come back unchanged; otherwise the text before the last dot |
| FileUtil.CollapseSeparators | soento-core/src/main/java/com/soento/framework/core/util/FileUtil.java:164 | no backslash and no two adjacent slashes remain; the non-separator text is kept; a leading separator stays a leading `/` |
| FileUtil.DropSeparators | soento-core/src/main/java/com/soento/framework/core/util/FileUtil.java:164 | dropping leading separators keeps all non-separator text |
| FileUtil.HeadOf | soento-core/src/main/java/com/soento/framework/core/util/FileUtil.java:166-175 | the prefix is empty or runs through the first `:` with no `/` before it, and it is a prefix of the path |
| FileUtil.SplitPrefixParts | soento-core/src/main/java/com/soento/framework/core/util/FileUtil.java:166-175 | prefix and body put together are the path; the prefix is the text through the first `:` when that text holds no `/`, and otherwise empty |
| FileUtil.StripPrefix | soento-core/src/main/java/com/soento/framework/core/util/FileUtil.java:166-179 | the prefix statements compute `SplitPrefix` |
| FileUtil.RightEqualsLeft | soento-core/src/main/java/com/soento/framework/core/util/FileUtil.java:185-200 | the right-to-left loop with its `tops` counter resolves exactly as the left-to-right reading in which `..` cancels the nearest normal segment on its left |
| FileUtil.StepsCommute | soento-core/src/main/java/com/soento/framework/core/util/FileUtil.java:185-200 | one right-to-left step and one left-to-right step commute |
| FileUtil.ResolveRightSnoc | soento-core/src/main/java/com/soento/framework/core/util/FileUtil.java:185-200 | a segment appended on the right is one left-to-right step after the loop's result |
| FileUtil.ResolvedNormals | soento-core/src/main/java/com/soento/framework/core/util/FileUtil.java:185-200 | no `.` or `..` survives among the normal segments, and each survivor is one of the input segments |
| FileUtil.ParentCancels | soento-core/src/main/java/com/soento/framework/core/util/FileUtil.java:185-200 | a normal segment followed by `..` vanishes, and a `.` changes nothing |
| FileUtil.Ups | soento-core/src/main/java/com/soento/framework/core/util/FileUtil.java:202-205 | the retained parent references are `n` copies of `..` |
| FileUtil.ResolveSegments | soento-core/src/main/java/com/soento/framework/core/util/FileUtil.java:181-205 | the segment loops produce the unmatched `..` first, then the surviving normal segments in order |
| FileUtil.NormalizedPath | soento-core/src/main/java/com/soento/framework/core/util/FileUtil.java:160-208 | null exactly for null |
| FileUtil.NormalizedBody | soento-core/src/main/java/com/soento/framework/core/util/FileUtil.java:181-207 | the joined body splits back into the same segments: no empty segment, no `.`, and no `..` after a normal segment |
| FileUtil.Normalize | soento-core/src/main/java/com/soento/framework/core/util/FileUtil.java:160-208 | `normalize` computes `NormalizedPath`: collapse and trim, then split off the prefix, keep a leading `/`, resolve the segments, and join with `/` |
| CryptoUtil.GenerateRandomKey | soento-core/src/main/java/com/soento/framework/core/util/CryptoUtil.java:65-73 | succeeds exactly for a supported algorithm, and gives a generated key of that algorithm; otherwise fails with `NoSuchAlgorithm` |
| CryptoUtil.GenerateDESKey | soento-core/src/main/java/com/soento/framework/core/util/CryptoUtil.java:110-128 | refuses null and non-"DES" names. A null key is exactly `generateKey(algorithm)`, and a key shorter than 8 bytes is invalid. Otherwise it succeeds exactly when the factory exists and accepts the `DESKeySpec` of the first 8 bytes, which become the key; any other failure is `GeneralSecurity` |
| CryptoUtil.GeneratePBEKey | soento-core/src/main/java/com/soento/framework/core/util/CryptoUtil.java:137-147 | refuses null and non-"PBE" names; a null password becomes a 32-character random one. It succeeds exactly when the factory exists and accepts the `PBEKeySpec` of that password, which the key keeps; any other failure is `GeneralSecurity` |
| CryptoUtil.SecretFromSpec | soento-core/src/main/java/com/soento/framework/core/util/CryptoUtil.java:156-163 | `generateKey(algorithm, keySpec)` succeeds exactly when the factory exists and accepts the spec; otherwise the wrapped failure is `GeneralSecurity` |
| CryptoUtil.GenerateKey | soento-core/src/main/java/com/soento/framework/core/util/CryptoUtil.java:82-101 | a blank algorithm is `IllegalArgument`. "PBE…" names give exactly `generatePBEKey` with the bytes read as a UTF-8 password. Other "DES…" names give exactly `generateDESKey`. Other names give exactly `generateKey(algorithm)` for a null key. For given bytes they succeed exactly when the bytes are non-empty, and otherwise fail with `IllegalArgument`. On success, supplied bytes give `KeyFromBytes` and a null key gives `RandomKey` |
| CryptoUtil.PrefixedNotBlank | soento-core/src/main/java/com/soento/framework/core/util/CryptoUtil.java:84-92 | a name starting with "PBE" or "DES" is never blank |
| CryptoUtil.EffectiveKeySize | soento-core/src/main/java/com/soento/framework/core/util/CryptoUtil.java:250-252 | the size is positive, and a positive size is kept |
| CryptoUtil.GenerateKeyPair | soento-core/src/main/java/com/soento/framework/core/util/CryptoUtil.java:242-260 | an unsupported algorithm fails with `NoSuchAlgorithm`; otherwise the pair comes from the provider for the effective size and seed |
| CryptoUtil.KeySizeDefault | soento-core/src/main/java/com/soento/framework/core/util/CryptoUtil.java:219-260 | every non-positive size asks for the same pair as the 1024-bit default |
| CryptoUtil.SignatureName | soento-core/src/main/java/com/soento/framework/core/util/CryptoUtil.java:269-271 | the name is the digest name (or "NONE"), then "with", then the asymmetric name |
| CryptoUtil.SignatureNameInjective | soento-core/src/main/java/com/soento/framework/core/util/CryptoUtil.java:269-271 | with the digest fixed the name determines the asymmetric algorithm, and the reverse also holds |
| CryptoUtil.GenerateSignature | soento-core/src/main/java/com/soento/framework/core/util/CryptoUtil.java:269-277 | an unsupported name fails with `NoSuchAlgorithm`; otherwise a fresh, uninitialised signature object for that name |
| CryptoUtil.UrlEncode | soento-core/src/main/java/com/soento/framework/core/util/CryptoUtil.java:672-681 | null text stays null whatever the charset. A null charset with non-null text fails with `NullPointer`; otherwise the result is the codec's encoding in the charset |
| CryptoUtil.UrlDecode | soento-core/src/main/java/com/soento/framework/core/util/CryptoUtil.java:658-667 | null text stays null whatever the charset. A null charset with non-null text fails with `NullPointer`; otherwise it succeeds exactly when the codec decodes, with the codec's text |
| CryptoUtil.UrlCodecsUtf8 | soento-core/src/main/java/com/soento/framework/core/util/CryptoUtil.java:686-709 | the one-argument overloads' "UTF-8" parses to UTF-8, so they never take the null-charset failure (a single-constant fact the overloads rely on) |
| CryptoUtil.UrlRoundTrip | soento-core/src/main/java/com/soento/framework/core/util/CryptoUtil.java:658-681 | for inverse codecs, `urlDecode(urlEncode(t)) == t` whenever encoding succeeds, null included; encoding fails exactly for non-null text with a null charset |
| CryptoFactories.Rsa | soento-core/src/main/java/com/soento/framework/core/util/CryptoUtil.java:589-591 | `rsa()` succeeds exactly when "RSA" and "MD5withRSA" are supported and pair generation succeeds. The result is an RSA object holding both keys of the generated pair |
| CryptoFactories.RsaFromBase64 | soento-core/src/main/java/com/soento/framework/core/util/CryptoUtil.java:602-604 | `rsa(String, String)` succeeds exactly when construction succeeds on the Base64-decoded keys. Each decoded key is kept in its own position |
| CryptoFactories.RsaFromBytesAsWritten | soento-core/src/main/java/com/soento/framework/core/util/CryptoUtil.java:615-617 | as written, this succeeds exactly when construction from `(privateKey, privateKey)` succeeds. The keys are those of that key step |
| CryptoFactories.RsaFromBytes | soento-core/src/main/java/com/soento/framework/core/util/CryptoUtil.java:615-617 | as intended, this succeeds exactly when construction from `(privateKey, publicKey)` succeeds. The keys are those of that key step |
| CryptoFactories.Dsa | soento-core/src/main/java/com/soento/framework/core/util/CryptoUtil.java:625-627 | `dsa()` succeeds exactly when "DSA" and "MD5withDSA" are supported and pair generation succeeds. The result is a DSA object with the generated keys |
| CryptoFactories.DsaFromBase64 | soento-core/src/main/java/com/soento/framework/core/util/CryptoUtil.java:638-640 | `dsa(String, String)` succeeds exactly when construction succeeds on the Base64-decoded keys. Each decoded key is kept in its own position |
| CryptoFactories.DsaFromBytesAsWritten | soento-core/src/main/java/com/soento/framework/core/util/CryptoUtil.java:651-653 | as written, this succeeds exactly when construction from `(privateKey, privateKey)` succeeds. The keys are those of that key step |
| CryptoFactories.DsaFromBytes | soento-core/src/main/java/com/soento/framework/core/util/CryptoUtil.java:651-653 | as intended, this succeeds exactly when construction from `(privateKey, publicKey)` succeeds. The keys are those of that key step |
| CryptoFactories.AsWrittenDropsLonePublicKey | soento-core/src/main/java/com/soento/framework/core/util/CryptoUtil.java:615-617 | for `(null, publicKey)` the written factory generates a fresh pair and loses the supplied public key, which the intended one keeps |
| CryptoFactories.AsWrittenRejectsKeyPair | soento-core/src/main/java/com/soento/framework/core/util/CryptoUtil.java:615-617 | for a valid key pair whose private bytes are not a public-key encoding, the written factory fails and the intended one succeeds |
| CryptoFactories.RsaFromBytesRejectsKeyPair | soento-core/src/main/java/com/soento/framework/core/util/CryptoUtil.java:615-617 | on a real RSA key pair whose private bytes are not a public-key encoding, the written factory fails. The intended factory succeeds and stores both decoded keys |
| Symmetric.ParamsAfterInit | soento-core/src/main/java/com/soento/framework/core/crypto/symmetric/SymmetricCrypto.java:93-104 | a "PBE…" algorithm gets fresh parameters: an 8-byte salt and 100 iterations (PBES1, section 6.1 of RFC 8018); any other algorithm keeps the earlier parameters |
| Symmetric.HexRoundTrip | soento-core/src/main/java/com/soento/framework/core/crypto/symmetric/SymmetricCrypto.java:148-150 | with an invertible cipher, decrypting the decoded hex text of a ciphertext gives the plaintext back |
| Symmetric.SymmetricCrypto.constructor | soento-core/src/main/java/com/soento/framework/core/crypto/symmetric/SymmetricCrypto.java:41-72 | the object before `init`: no key, no cipher, no parameters, and the lock free |
| Symmetric.SymmetricCrypto.Init | soento-core/src/main/java/com/soento/framework/core/crypto/symmetric/SymmetricCrypto.java:82-84 | a key-generation failure is returned unchanged; otherwise it is `init(algorithm, SecretKey)` with the generated key |
| Symmetric.SymmetricCrypto.InitWithKey | soento-core/src/main/java/com/soento/framework/core/crypto/symmetric/SymmetricCrypto.java:93-105 | stores the key and `ParamsAfterInit`; succeeds exactly for a supported algorithm, with a fresh cipher; otherwise `NoSuchAlgorithm` and the old cipher |
| Symmetric.SymmetricCrypto.SetParams | soento-core/src/main/java/com/soento/framework/core/crypto/symmetric/SymmetricCrypto.java:113-116 | replaces only the parameters and returns the same object |
| Symmetric.SymmetricCrypto.Round | soento-core/src/main/java/com/soento/framework/core/crypto/symmetric/SymmetricCrypto.java:126-140 | under one lock acquisition, released on every path, the result is one cipher round with the parameters exactly when they are non-null |
| Symmetric.SymmetricCrypto.EncryptBytes | soento-core/src/main/java/com/soento/framework/core/crypto/symmetric/SymmetricCrypto.java:126-140 | one locked encryption round with the key and the parameters |
| Symmetric.SymmetricCrypto.Encrypt | soento-core/src/main/java/com/soento/framework/core/crypto/symmetric/SymmetricCrypto.java:148-150 | the hexadecimal form of `encryptBytes` |
| Symmetric.SymmetricCrypto.EncryptTextBytes | soento-core/src/main/java/com/soento/framework/core/crypto/symmetric/SymmetricCrypto.java:159-161 | an unknown charset fails before the lock; otherwise the encryption of the text's bytes in that charset (UTF-8 for a blank name) |
| Symmetric.SymmetricCrypto.EncryptText | soento-core/src/main/java/com/soento/framework/core/crypto/symmetric/SymmetricCrypto.java:170-172 | the hexadecimal form of `encryptBytes(data, charset)` |
| Symmetric.SymmetricCrypto.EncryptUtf8Bytes | soento-core/src/main/java/com/soento/framework/core/crypto/symmetric/SymmetricCrypto.java:180-182 | the encryption of the text's UTF-8 bytes |
| Symmetric.SymmetricCrypto.EncryptUtf8 | soento-core/src/main/java/com/soento/framework/core/crypto/symmetric/SymmetricCrypto.java:190-192 | the hexadecimal form of `encryptBytes(data)` |
| Symmetric.SymmetricCrypto.DecryptBytes | soento-core/src/main/java/com/soento/framework/core/crypto/symmetric/SymmetricCrypto.java:225-239 | one locked decryption round with the key and the parameters |
| Symmetric.SymmetricCrypto.DecryptText | soento-core/src/main/java/com/soento/framework/core/crypto/symmetric/SymmetricCrypto.java:248-250 | a decryption failure is returned; after a successful decryption a null charset fails with `NullPointer`, otherwise the bytes are read as text in the charset |
| Symmetric.SymmetricCrypto.DecryptUtf8 | soento-core/src/main/java/com/soento/framework/core/crypto/symmetric/SymmetricCrypto.java:258-260 | the decrypted bytes read as UTF-8 |
| Symmetric.SymmetricCrypto.DecryptHexBytes | soento-core/src/main/java/com/soento/framework/core/crypto/symmetric/SymmetricCrypto.java:268-270 | malformed hex fails with `IllegalArgument` without the lock; otherwise it decrypts the decoded bytes |
| Symmetric.SymmetricCrypto.DecryptHexText | soento-core/src/main/java/com/soento/framework/core/crypto/symmetric/SymmetricCrypto.java:279-281 | malformed hex is `IllegalArgument`; otherwise as `DecryptText` on the decoded bytes: a decryption failure, then `NullPointer` for a null charset, then the text in the charset |
| Symmetric.SymmetricCrypto.DecryptHexUtf8 | soento-core/src/main/java/com/soento/framework/core/crypto/symmetric/SymmetricCrypto.java:289-291 | `decryptBytes(String)` read as UTF-8 |
| Symmetric.SymmetricCrypto.EncryptDecrypt | soento-core/src/main/java/com/soento/framework/core/crypto/symmetric/SymmetricCrypto.java:148-150 | on one object with an invertible cipher, `decryptBytes(encrypt(data))` gives `data` whenever encryption succeeds |
| Symmetric.New | soento-core/src/main/java/com/soento/framework/core/crypto/symmetric/SymmetricCrypto.java:70-72 | the constructor with `init`: a key failure is returned; otherwise success exactly for a supported algorithm, with a valid, fresh object |
| DES.Mode.Name | soento-core/src/main/java/com/soento/framework/core/crypto/symmetric/DES.java:36-50 | each mode's name is non-empty and holds no `/` |
| DES.Padding.Name | soento-core/src/main/java/com/soento/framework/core/crypto/symmetric/DES.java:36-50 | each padding's name is non-empty and holds no `/` |
| DES.NamesInjective | soento-core/src/main/java/com/soento/framework/core/crypto/symmetric/DES.java:36-50 | distinct constants have distinct names |
| DES.Transformation | soento-core/src/main/java/com/soento/framework/core/crypto/symmetric/DES.java:68-70 | `"DES/" + mode + "/" + padding` |
| DES.TransformationFields | soento-core/src/main/java/com/soento/framework/core/crypto/symmetric/DES.java:68-70 | the transformation splits at `/` back into "DES", the mode and the padding |
| DES.TransformationDetermines | soento-core/src/main/java/com/soento/framework/core/crypto/symmetric/DES.java:36-70 | a mode/padding pair is recovered from its transformation |
| DES.New | soento-core/src/main/java/com/soento/framework/core/crypto/symmetric/DES.java:17-28 | a key failure is returned unchanged. Otherwise it succeeds exactly when "DES" is supported, giving a `SymmetricCrypto` over plain "DES". A null key means a generated key |
| DES.NewNamed | soento-core/src/main/java/com/soento/framework/core/crypto/symmetric/DES.java:57-70 | a key failure is returned unchanged. Otherwise it succeeds exactly when the transformation `DES/mode/padding` is supported, giving a `SymmetricCrypto` over it. A null key means a generated key |
| DES.NewWithMode | soento-core/src/main/java/com/soento/framework/core/crypto/symmetric/DES.java:36-50 | the same, using the constants' names: a key failure is returned unchanged, and otherwise it succeeds exactly when the transformation is supported. The object has the provider, no parameters and the generated key, and its transformation splits back into "DES", the mode and the padding |
| DES.SetIv | soento-core/src/main/java/com/soento/framework/core/crypto/symmetric/DES.java:78-81 | the IV becomes the parameters through `setParams`; nothing else changes, and the same object is returned |
| Digester.Digester.constructor | soento-core/src/main/java/com/soento/framework/core/crypto/digest/Digester.java:22-24 | for a supported algorithm, a fresh, empty digest of the provider's hash function for it |
| Digester.New | soento-core/src/main/java/com/soento/framework/core/crypto/digest/Digester.java:22-39 | `new Digester(algorithm)` succeeds exactly when the provider supports the algorithm, otherwise `NoSuchAlgorithm`; the object holds a fresh, empty digest of that algorithm's hash |
| Digester.Digester.Init | soento-core/src/main/java/com/soento/framework/core/crypto/digest/Digester.java:32-39 | a supported algorithm gets a fresh, empty digest; otherwise `NoSuchAlgorithm` and the old digest is kept |
| Digester.Digester.DigestBytes | soento-core/src/main/java/com/soento/framework/core/crypto/digest/Digester.java:117-125 | the hash of the pending input plus the data; the digest is reset afterwards, even for null data |
| Digester.Digester.DigestBytesTwice | soento-core/src/main/java/com/soento/framework/core/crypto/digest/Digester.java:117-125 | because of the reset, a second call on the same bytes gives `H(data)`, and both calls agree when they start clean |
| Digester.Digester.DigestBytesHex | soento-core/src/main/java/com/soento/framework/core/crypto/digest/Digester.java:133-135 | the hexadecimal form of `digestBytes(byte[])` |
| Digester.Digester.DigestText | soento-core/src/main/java/com/soento/framework/core/crypto/digest/Digester.java:50-52 | an unknown charset fails and touches nothing; otherwise the hash of the text's bytes in that charset (UTF-8 for a blank name), then a reset |
| Digester.Digester.DigestTextUtf8 | soento-core/src/main/java/com/soento/framework/core/crypto/digest/Digester.java:60-62 | the hash of the UTF-8 bytes, then a reset |
| Digester.Digester.DigestTextHex | soento-core/src/main/java/com/soento/framework/core/crypto/digest/Digester.java:71-73 | the hexadecimal form of `digestBytes(data, charset)` |
| Digester.Digester.DigestTextHexUtf8 | soento-core/src/main/java/com/soento/framework/core/crypto/digest/Digester.java:81-83 | the hexadecimal form of `digestBytes(data)` |
| Digester.Digester.DigestStream | soento-core/src/main/java/com/soento/framework/core/crypto/digest/Digester.java:166-187 | a buffer length below 1 means 4096; every read asks for that many bytes; the result is `H` of everything the stream held; a read failure is `IO`; the digest is reset on every path |
| Digester.Digester.FeedStream | soento-core/src/main/java/com/soento/framework/core/crypto/digest/Digester.java:170-179 | every chunk read is fed to the digest in order until `read` returns -1, so the digest has been fed the whole stream; a read failure is `IO`; every read asks for `length` bytes |
| Digester.Digester.DigestStreamDefault | soento-core/src/main/java/com/soento/framework/core/crypto/digest/Digester.java:143-145 | the same with 4096-byte reads |
| Digester.Digester.DigestStreamHex | soento-core/src/main/java/com/soento/framework/core/crypto/digest/Digester.java:197-199 | the hexadecimal form of `digestBytes(data, bufferLength)` |
| Digester.Digester.DigestStreamHexDefault | soento-core/src/main/java/com/soento/framework/core/crypto/digest/Digester.java:154-156 | the hexadecimal form of `digestBytes(data)` |
| Digester.Digester.StreamMatchesBytes | soento-core/src/main/java/com/soento/framework/core/crypto/digest/Digester.java:117-187 | for a stream that does not fail, streaming through any buffer length equals one-shot hashing of the same bytes |
| Asymmetric.DefaultSignatureName | soento-core/src/main/java/com/soento/framework/core/crypto/asymmetric/AsymmetricCrypto.java:135 | the default signature algorithm is the `generateSignature` name for digest MD5 |
| Asymmetric.KeyStep | soento-core/src/main/java/com/soento/framework/core/crypto/asymmetric/AsymmetricCrypto.java:140-149 | both arrays null: a generated 1024-bit pair (or the pair's failure with the keys kept). Otherwise exactly the supplied arrays are decoded, the other key is kept, and nothing is generated; a decoding failure stops the step |
| Asymmetric.KeyedRoundTrip | soento-core/src/main/java/com/soento/framework/core/crypto/asymmetric/AsymmetricCrypto.java:209-279 | with an invertible pair, decrypting with the private key undoes encrypting with the public one |
| Asymmetric.SignThenVerify | soento-core/src/main/java/com/soento/framework/core/crypto/asymmetric/AsymmetricCrypto.java:173-198 | with a sound provider, what `sign` produces with the private key `verify` accepts with the public one |
| Asymmetric.AsymmetricCrypto.constructor | soento-core/src/main/java/com/soento/framework/core/crypto/asymmetric/AsymmetricCrypto.java:53-64 | the object before `init`: no keys, cipher or signature, and the lock free |
| Asymmetric.AsymmetricCrypto.Init | soento-core/src/main/java/com/soento/framework/core/crypto/asymmetric/AsymmetricCrypto.java:131-151 | sets the algorithm. An unsupported cipher or signature name fails with `NoSuchAlgorithm` before any key changes. Otherwise there is a fresh cipher and a fresh signature, the keys are those of `KeyStep`, and the result reports the step's failure |
| Asymmetric.AsymmetricCrypto.InitKeys | soento-core/src/main/java/com/soento/framework/core/crypto/asymmetric/AsymmetricCrypto.java:158-163 | a generated 1024-bit pair replaces both keys; on failure both keys are kept |
| Asymmetric.AsymmetricCrypto.GetKey | soento-core/src/main/java/com/soento/framework/core/crypto/asymmetric/AsymmetricCrypto.java:391-405 | the key the type selects; it fails with `NullPointer` exactly when that key is absent |
| Asymmetric.AsymmetricCrypto.Sign | soento-core/src/main/java/com/soento/framework/core/crypto/asymmetric/AsymmetricCrypto.java:173-181 | no lock; a missing key is an error; otherwise the provider's signature over the data |
| Asymmetric.AsymmetricCrypto.Verify | soento-core/src/main/java/com/soento/framework/core/crypto/asymmetric/AsymmetricCrypto.java:190-198 | no lock; a missing key is an error; otherwise the provider's answer |
| Asymmetric.AsymmetricCrypto.Round | soento-core/src/main/java/com/soento/framework/core/crypto/asymmetric/AsymmetricCrypto.java:209-220 | one lock acquisition, released on every path; the key chosen by the type, then one cipher round; a missing key fails |
| Asymmetric.AsymmetricCrypto.EncryptBytes | soento-core/src/main/java/com/soento/framework/core/crypto/asymmetric/AsymmetricCrypto.java:209-220 | encryption with the selected key; a missing key gives `NullPointer` |
| Asymmetric.AsymmetricCrypto.EncryptTextBytes | soento-core/src/main/java/com/soento/framework/core/crypto/asymmetric/AsymmetricCrypto.java:230-232 | an unknown charset fails without taking the lock; otherwise the encryption of the text's bytes |
| Asymmetric.AsymmetricCrypto.EncryptUtf8Bytes | soento-core/src/main/java/com/soento/framework/core/crypto/asymmetric/AsymmetricCrypto.java:241-243 | the encryption of the text's UTF-8 bytes |
| Asymmetric.AsymmetricCrypto.DecryptBytes | soento-core/src/main/java/com/soento/framework/core/crypto/asymmetric/AsymmetricCrypto.java:269-279 | decryption with the selected key; a missing key gives `NullPointer` |
| Asymmetric.AsymmetricCrypto.EncryptDecrypt | soento-core/src/main/java/com/soento/framework/core/crypto/asymmetric/AsymmetricCrypto.java:209-279 | on one object whose key fields hold an invertible pair, `decryptBytes(encryptBytes(data, PUBLIC), PRIVATE)` gives `data` whenever encryption succeeds |
| Asymmetric.AsymmetricCrypto.SetPublicKey | soento-core/src/main/java/com/soento/framework/core/crypto/asymmetric/AsymmetricCrypto.java:322-325 | only the public key changes, and the same object is returned |
| Asymmetric.AsymmetricCrypto.SetPrivateKey | soento-core/src/main/java/com/soento/framework/core/crypto/asymmetric/AsymmetricCrypto.java:351-354 | only the private key changes, and the same object is returned |
| Asymmetric.AsymmetricCrypto.SetSignature | soento-core/src/main/java/com/soento/framework/core/crypto/asymmetric/AsymmetricCrypto.java:371-374 | only the signature object changes, and the same object is returned |
| Asymmetric.New | soento-core/src/main/java/com/soento/framework/core/crypto/asymmetric/AsymmetricCrypto.java:115-117 | succeeds exactly when the cipher and signature names are supported and the key step succeeds (`Constructs`). The result is fresh and valid, with the step's keys |
| Asymmetric.NewFromBase64 | soento-core/src/main/java/com/soento/framework/core/crypto/asymmetric/AsymmetricCrypto.java:101-103 | succeeds exactly when `Constructs` holds for the Base64-decoded keys. The result is valid, with the keys of the key step on those decoded values |
| RSA.KeyLength | soento-core/src/main/java/com/soento/framework/core/crypto/asymmetric/RSA.java:61-63 | the block length is the modulus bit length divided by 8, rounded down |
| RSA.EncryptPiecesAppend | soento-core/src/main/java/com/soento/framework/core/crypto/asymmetric/RSA.java:71-73 | encrypting two runs of pieces gives the first run's failure, else the second's, else the two texts in order |
| RSA.Encrypt | soento-core/src/main/java/com/soento/framework/core/crypto/asymmetric/RSA.java:60-80 | the key is chosen and cast to `RSAKey` before the lock, so a missing key (`NullPointer`) or a non-RSA key (`ClassCast`) fails with no acquisition. Otherwise there is one acquisition, released, and the in-order concatenation of every piece's text, the pieces coming from the splitter with limit `keyLength - 11` |
| RSA.EncryptEach | soento-core/src/main/java/com/soento/framework/core/crypto/asymmetric/RSA.java:71-73 | the loop appends each piece's encrypted BCD text in order and stops at the first failure |
| RSA.DecryptBlocksAppend | soento-core/src/main/java/com/soento/framework/core/crypto/asymmetric/RSA.java:101-103 | decrypting two runs of blocks gives the first run's failure, else the second's, else the two texts in order |
| RSA.DecryptedBlocks | soento-core/src/main/java/com/soento/framework/core/crypto/asymmetric/RSA.java:98-103 | a successful decryption has a positive block length and decrypts `ceil(n/keyLength)` blocks of exactly that length, which laid end to end start with the ciphertext bytes |
| RSA.Decrypt | soento-core/src/main/java/com/soento/framework/core/crypto/asymmetric/RSA.java:89-110 | the key is chosen and cast to `RSAKey` before the lock, so a missing or non-RSA key fails with no acquisition. A zero block length fails. Otherwise the blocks of `ArrayUtil.split`, each decrypted and read as UTF-8, are concatenated in order |
| RSA.DecryptEach | soento-core/src/main/java/com/soento/framework/core/crypto/asymmetric/RSA.java:101-103 | the loop over the split arrays computes `DecryptBlocks` of their contents |
| RSA.New | soento-core/src/main/java/com/soento/framework/core/crypto/asymmetric/RSA.java:24-50 | succeeds exactly when `Constructs` holds for "RSA". The result is an `AsymmetricCrypto` over "RSA" with signature "MD5withRSA". With no key arrays, both keys are present |
| Paging.StartOf | soento-core/src/main/java/com/soento/framework/core/lang/Query.java:49-51 | `index * limit` in 32-bit arithmetic: always an `int`, and exact without overflow |
| Paging.EndOf | soento-core/src/main/java/com/soento/framework/core/lang/Query.java:53-55 | `start + limit - 1` in 32-bit arithmetic: always an `int`, and exact without overflow |
| Paging.PagesAdjacent | soento-core/src/main/java/com/soento/framework/core/lang/Query.java:49-55 | without overflow a page covers exactly `limit` positions, and the next page starts right after it |
| Paging.Query.Default | soento-core/src/main/java/com/soento/framework/core/lang/Query.java:27-30 | index 0, limit 10, start 0, end 9 |
| Paging.Query.constructor | soento-core/src/main/java/com/soento/framework/core/lang/Query.java:32-35 | the given index and limit, with start and end derived from them |
| Paging.Query.SetIndex | soento-core/src/main/java/com/soento/framework/core/lang/Query.java:37-41 | the new index, the limit kept, start and end recomputed |
| Paging.Query.SetLimit | soento-core/src/main/java/com/soento/framework/core/lang/Query.java:43-47 | the new limit, the index kept, start and end recomputed |
| Paging.Query.SetStart | soento-core/src/main/java/com/soento/framework/core/lang/Query.java:49-51 | `start = index * limit` with wrap-around, and nothing else changes |
| Paging.Query.SetEnd | soento-core/src/main/java/com/soento/framework/core/lang/Query.java:53-55 | `end = start + limit - 1` with wrap-around, and nothing else changes |
| DateUnits.DateUnit.Value | soento-core/src/main/java/com/soento/framework/core/enums/DateUnit.java:41-43 | each value is a positive `long` |
| DateUnits.Values | soento-core/src/main/java/com/soento/framework/core/enums/DateUnit.java:10-30 | MS 1, SECOND 1000, MINUTE 60000, HOUR 3600000, DAY 86400000, WEEK 604800000 |
| DateUnits.Increasing | soento-core/src/main/java/com/soento/framework/core/enums/DateUnit.java:10-30 | values grow strictly in declaration order |
| Media.Image.Value | soento-core/src/main/java/com/soento/framework/core/enums/Image.java:29-31 | a dotted four-character extension |
| Media.Image.Has | soento-core/src/main/java/com/soento/framework/core/enums/Image.java:33-44 | true exactly when some constant's value equals the argument, ignoring case; null is never matched |
| Media.Img.Value | soento-core/src/main/java/com/soento/framework/core/enums/Img.java:29-31 | a dotted four-character extension |
| Media.Img.Has | soento-core/src/main/java/com/soento/framework/core/enums/Img.java:33-44 | true exactly when some constant's value equals the argument, ignoring case |
| Media.Audio.Value | soento-core/src/main/java/com/soento/framework/core/enums/Audio.java:15-17 | a dotted four-character extension |
| Media.Audio.Has | soento-core/src/main/java/com/soento/framework/core/enums/Audio.java:19-24 | true exactly when the argument is ".mp3", ignoring case |
| Media.Video.Value | soento-core/src/main/java/com/soento/framework/core/enums/Video.java:14-16 | a dotted four-character extension |
| Media.Video.Has | soento-core/src/main/java/com/soento/framework/core/enums/Video.java:18-23 | true exactly when the argument is ".mp4", ignoring case |
| Media.ImageImgAgree | soento-core/src/main/java/com/soento/framework/core/enums/Img.java:33-44 | `Image.has` and `Img.has` accept the same strings |
| Media.HasOwnValues | soento-core/src/main/java/com/soento/framework/core/enums/Image.java:33-44 | every constant's value is recognised both as written and upper-cased |
| Media.HasMixedCase | soento-core/src/main/java/com/soento/framework/core/enums/Image.java:33-44 | examples: mixed-case spellings such as ".JPG" and ".mP4" are recognised (the law is `HasIgnoresCase`) |
| Media.HasRejects | soento-core/src/main/java/com/soento/framework/core/enums/Image.java:33-44 | examples: null and undotted spellings such as "jpg" are not recognised |
| Media.HasIgnoresCase | soento-core/src/main/java/com/soento/framework/core/enums/Image.java:33-44 | upper-casing the argument never changes any `has` answer |
| MessageInfo.Arguments | soento-core/src/main/java/com/soento/framework/core/lang/MessageInfo.java:21-31 | null for a null or empty list; otherwise one looked-up text per code, in order |
| MessageInfo.Append | soento-core/src/main/java/com/soento/framework/core/lang/MessageInfo.java:14-19 | appending succeeds exactly on a growable list, at the end; a fixed-size list fails with `UnsupportedOperation` |
| MessageInfo.AppendInOrder | soento-core/src/main/java/com/soento/framework/core/lang/MessageInfo.java:14-19 | codes appended one at a time to a growable list keep their call order |
| MessageInfo.MessageInfo.constructor | soento-core/src/main/java/com/soento/framework/core/lang/MessageInfo.java:10-12 | the implicit constructor: code and arguments start null |
| MessageInfo.MessageInfo.SetCode | soento-core/src/main/java/com/soento/framework/core/lang/MessageInfo.java:51-53 | only the code changes |
| MessageInfo.MessageInfo.SetArgs | soento-core/src/main/java/com/soento/framework/core/lang/MessageInfo.java:59-61 | only the arguments change |
| MessageInfo.MessageInfo.AddArgCode | soento-core/src/main/java/com/soento/framework/core/lang/MessageInfo.java:14-19 | a null list becomes a growable list holding the code; otherwise the code is appended, and a fixed-size list refuses it and is left unchanged |
| MessageInfo.MessageInfo.GetArguments | soento-core/src/main/java/com/soento/framework/core/lang/MessageInfo.java:21-31 | a fresh array equal to `Arguments`, or null |
| MessageInfo.MessageInfo.GetMessage | soento-core/src/main/java/com/soento/framework/core/lang/MessageInfo.java:33-36 | the code's message formatted with `Arguments` |
| MessageInfo.Build | soento-core/src/main/java/com/soento/framework/core/lang/MessageInfo.java:38-45 | as written: the code, and for a non-empty argument array a fixed-size list |
| MessageInfo.BuildGrowable | soento-core/src/main/java/com/soento/framework/core/lang/MessageInfo.java:38-45 | as intended: the same, with a growable list |
| MessageInfo.AddAfterBuild | soento-core/src/main/java/com/soento/framework/core/lang/MessageInfo.java:38-45 | as written, `addArgCode` after `build` with codes always fails with `UnsupportedOperation` |
| MessageInfo.AddAfterBuildGrowable | soento-core/src/main/java/com/soento/framework/core/lang/MessageInfo.java:38-45 | as intended, the same call appends in order |
| Msg.LocaleArguments | soento-core/src/main/java/com/soento/framework/core/lang/Msg.java:26-36 | null for a null or empty list; otherwise each code resolved in the locale, in order |
| Msg.Msg.constructor | soento-core/src/main/java/com/soento/framework/core/lang/Msg.java:11-13 | the implicit constructor: code and arguments start null |
| Msg.Msg.SetCode | soento-core/src/main/java/com/soento/framework/core/lang/Msg.java:60-62 | only the code changes |
| Msg.Msg.SetArgs | soento-core/src/main/java/com/soento/framework/core/lang/Msg.java:68-70 | only the arguments change |
| Msg.Msg.AddArgCode | soento-core/src/main/java/com/soento/framework/core/lang/Msg.java:15-20 | as in `MessageInfo.addArgCode` |
| Msg.Msg.GetArgumentsIn | soento-core/src/main/java/com/soento/framework/core/lang/Msg.java:26-36 | a fresh array equal to `LocaleArguments` in the locale, or null |
| Msg.Msg.GetArguments | soento-core/src/main/java/com/soento/framework/core/lang/Msg.java:22-24 | `getArguments(null)` |
| Msg.Msg.GetMessageIn | soento-core/src/main/java/com/soento/framework/core/lang/Msg.java:42-45 | the code resolved in the locale, with the arguments resolved with no locale |
| Msg.Msg.GetMessage | soento-core/src/main/java/com/soento/framework/core/lang/Msg.java:38-40 | `getMessage(null)` |
| Msg.Build | soento-core/src/main/java/com/soento/framework/core/lang/Msg.java:47-54 | as written: the code, and for a non-empty argument array a fixed-size list |
| Msg.BuildGrowable | soento-core/src/main/java/com/soento/framework/core/lang/Msg.java:47-54 | as intended: the same, with a growable list |
| Msg.AddAfterBuild | soento-core/src/main/java/com/soento/framework/core/lang/Msg.java:47-54 | as written, `addArgCode` after `build` with codes always fails with `UnsupportedOperation` |
| Msg.AddAfterBuildGrowable | soento-core/src/main/java/com/soento/framework/core/lang/Msg.java:47-54 | as intended, the same call appends in order |
| Msg.MessageArgumentsNotLocalised | soento-core/src/main/java/com/soento/framework/core/lang/Msg.java:42-45 | whenever the locale matters for an argument code, `getMessage(locale)` passes arguments that differ from `getArguments(locale)` |
| Responses.Succeeded | soento-core/src/main/java/com/soento/framework/core/lang/RestResponse.java:15-17 | the success code, with message and data kept |
| Responses.SucceededIdempotent | soento-core/src/main/java/com/soento/framework/core/lang/RestResponse.java:15-17 | `success()` twice is `success()` once, and it always overrides the busy code |
| Responses.RestResponse.constructor | soento-core/src/main/java/com/soento/framework/core/lang/RestResponse.java:11-13 | the busy code E9998, no message, no data |
| Responses.RestResponse.Success | soento-core/src/main/java/com/soento/framework/core/lang/RestResponse.java:15-17 | the state becomes `Succeeded` of the old state |
| Responses.RestResponse.SetCode | soento-core/src/main/java/com/soento/framework/core/lang/RestResponse.java:23-25 | only the code changes |
| Responses.RestResponse.SetMessage | soento-core/src/main/java/com/soento/framework/core/lang/RestResponse.java:31-33 | only the message changes |
| Responses.RestResponse.SetData | soento-core/src/main/java/com/soento/framework/core/lang/RestResponse.java:39-41 | only the payload changes |

The members of module `Platform` model the Java platform (`Cipher`, `Signature`, `MessageDigest`, `InputStream`, key factories and the lock), not code of this repository, so they have no row. Modules `Text` and `Primitives` hold Java string and integer semantics that the rows above rely on.

## Left out

- Foreign code: the ciphers, hashes, key factories, key-pair generators, signature engines, `SecureRandom`, Base64, BCD, URL and charset codecs. These are fields of `Provider` and `Codecs` with no behaviour assumed beyond the stated laws. `CryptoUtil.generatePrivateKey(String, byte[])` and `generatePublicKey` are the provider's `decodePrivate` and `decodePublic`.
- Randomness: random keys, salts, passwords and seeds are drawn from parameters (`Draws`, `draw`), not from a generator.
- Threads: the `ReentrantLock` is a ghost flag with an acquisition counter. Concurrent callers are not modelled.
- The `InputStream` and `File` overloads of `SymmetricCrypto`, `AsymmetricCrypto` and `Digester`: they read the whole input with `IoUtil` first, which is I/O. The streaming `Digester.digestBytes(InputStream, int)` is modelled.
- `CryptoUtil` keystore and certificate reading, `generatePrivateKey(KeyStore, …)`, and the `aes`, `des`, `md5`, `sha1` and `hmac` shortcuts, `base64Encode`/`base64Decode`, `toString(SecretKey)` and `simpleUUID`: they are I/O or one-line delegations to foreign code.
- `CharsetUtil.systemCharset`: it reads the JVM's default charset, which is environment state.
- The getters of every class: they return a field.
- `ArrayUtil` members other than `split`, `wrap`/`unWrap` and `length` (`isArray`, `newArray`, `cast`, `wrap(Object)`): they work by reflection.
- `FileUtil` members other than `normalize` and `getName(String)`: they touch the file system.
- Several helpers are not part of this model: crypto/asymmetric/KeyType.java (two constants), crypto/asymmetric/DSA.java (taken as an `AsymmetricCrypto` over "DSA"), HexUtil (modelled by `Hex` from its uses), BCD and Base64Util.
- RSA round trip: `RSA.encrypt` splits with commons-lang `StringUtils.split(String, String, int)` and a null separator, kept abstract as `Codecs.splitMax`. No claim is made that `decrypt(encrypt(x)) == x`: the split drops the whitespace between tokens, and the encrypted pieces are joined without separators.
- ArrayUtil.Split: requires `len > 0`. In Java, `len == 0` throws `ArithmeticException` and a negative `len` throws `NegativeArraySizeException`. `RSA.Decrypt` turns a zero block length into `Arithmetic` before calling it. It also takes a non-null array, while `split(null, len)` throws `NullPointerException` at ArrayUtil.java:17; the only caller in the core, `RSA.decrypt`, always passes a non-null array.
- Symmetric.SymmetricCrypto.DecryptHexBytes: the ciphertext text is a non-null `string`, because HexUtil is not part of this model and its null handling is unknown.
- Symmetric.SymmetricCrypto.DecryptHexText: the same non-null hex text as `DecryptHexBytes`, for the same reason.
- Symmetric.SymmetricCrypto.DecryptHexUtf8: the same non-null hex text as `DecryptHexBytes`, for the same reason.
- RSA.Decrypt: the ciphertext text is a non-null `string`, because BCD is not part of this model.
- Asymmetric.AsymmetricCrypto.Verify: the signature bytes are non-null.
- Paging.Query.SetIndex: requires both index and limit to be `int` values, which the Java types guarantee; the same holds for `SetLimit` and the two-argument constructor.
- FileUtil.Normalize: no idempotence is claimed, because `normalize` is not idempotent (`"x/ /"` gives `"x/ "`, which normalises to `"x"`).
- A single `Provider.supports` answers for every engine class (`Cipher`, `Signature`, `KeyGenerator`, …) of a name. So the model does not show that `DES(mode, padding[, key])` asks `KeyGenerator.getInstance` and `SecretKeyFactory.getInstance` for the whole "DES/<mode>/<padding>" transformation (util/CryptoUtil.java:68 and :158, reached through :117-125). A standard JCA provider registers its key engines under "DES" only, so those lookups probably fail there.
- `Base64Util.decodeBase64` is the parameter `Codecs.base64Decode`, with no law about a null text. So the model does not show that null Base64 texts reach the generate-a-pair path of `init`. It shows only that the decoded values are what the key step receives.
- Text.EqualsIgnoreCase: folds ASCII letters and the four non-ASCII characters whose Java case mapping lands in ASCII. It is exact when one side is ASCII, which holds for every comparison in the core.

## Findings

| source | as written | input that shows it | evidently intended | confidence | as-written member | corrected member |
|---|---|---|---|---|---|---|
| soento-core/src/main/java/com/soento/framework/core/util/CryptoUtil.java:615-617 | `rsa(privateKey, publicKey)` builds `new RSA(privateKey, privateKey)` (likewise `dsa` at lines 651-653), so `publicKey` is never read | `rsa(null, pub)`: a fresh pair is generated and `pub` is lost; `rsa(priv, pub)`: the private bytes are decoded as a public key and fail | `new RSA(privateKey, publicKey)` | high (not executed) | CryptoFactories.RsaFromBytesAsWritten | CryptoFactories.RsaFromBytes |
| soento-core/src/main/java/com/soento/framework/core/lang/MessageInfo.java:38-45 | `build(code, args...)` stores `Arrays.asList(args)`, a fixed-size list (likewise `Msg.build` at lang/Msg.java:47-54) | `build("c", "a").addArgCode("b")` throws `UnsupportedOperationException` | a growable copy, so that later `addArgCode` calls append | high (not executed) | MessageInfo.AddAfterBuild | MessageInfo.AddAfterBuildGrowable |
