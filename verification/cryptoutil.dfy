/** Key-material dispatch of util/CryptoUtil.java: which factory a symmetric algorithm name
    selects, how key pairs are generated, how signature algorithm names are composed, and the
    null handling of the URL codecs. The factories and generators themselves are the
    provider's. */
module CryptoUtil {
  import opened Wrappers
  import opened Primitives
  import opened Text
  import opened Charsets
  import opened Platform

  /** `DEFAULT_KEY_SIZE`: RSA/DSA modulus length in bits. */
  const DEFAULT_KEY_SIZE: int := 1024

  /** `generateKey(String)`: a random key from `KeyGenerator.getInstance(algorithm)`. */
  function GenerateRandomKey(p: Provider, algorithm: string, draws: Draws): (r: Result<SecretKey>)
    ensures r.Ok? <==> p.supports(algorithm)
    ensures r.Ok? ==> r.value.GeneratedKey? && r.value.algorithm == algorithm
    ensures r.Fail? ==> r.error == NoSuchAlgorithm
  {
    if p.supports(algorithm) then Ok(GeneratedKey(algorithm, draws.key)) else Fail(NoSuchAlgorithm)
  }

  /** `generateDESKey(algorithm, key)`: only for names starting with "DES"; a null key gives
      a random key, otherwise `DESKeySpec` takes the first 8 bytes (fewer than 8 is an
      `InvalidKeyException`) and the algorithm's `SecretKeyFactory` turns them into a key. */
  function GenerateDESKey(p: Provider, algorithm: Option<string>, key: Option<seq<byte>>, draws: Draws)
    : (r: Result<SecretKey>)
    ensures algorithm.None? || !("DES" <= algorithm.value) ==> r == Fail(NotDesAlgorithm)
    ensures r.Ok? ==> algorithm.Some? && "DES" <= algorithm.value && r.value.algorithm == algorithm.value
    ensures r.Ok? && key.None? ==> r.value.GeneratedKey?
    ensures r.Ok? && key.Some? ==> |key.value| >= 8 && r.value == DesKey(algorithm.value, key.value[..8])
    ensures algorithm.Some? && "DES" <= algorithm.value && key.None? ==> r == GenerateRandomKey(p, algorithm.value, draws)
    ensures algorithm.Some? && "DES" <= algorithm.value && key.Some? && |key.value| < 8 ==> r == Fail(InvalidKey)
    ensures algorithm.Some? && "DES" <= algorithm.value && key.Some? && |key.value| >= 8 ==>
      (r.Ok? <==> p.supports(algorithm.value) && p.generateSecret(algorithm.value, DesSpec(key.value[..8])))
      && (r.Fail? ==> r.error == GeneralSecurity)
  {
    PrefixedNotBlank(algorithm, "DES");
    if IsBlank(algorithm) || !("DES" <= algorithm.value) then Fail(NotDesAlgorithm)
    else if key.None? then GenerateRandomKey(p, algorithm.value, draws)
    else if |key.value| < 8 then Fail(InvalidKey)
    else SecretFromSpec(p, algorithm.value, DesSpec(key.value[..8]), DesKey(algorithm.value, key.value[..8]))
  }

  /** `generatePBEKey(algorithm, key)`: only for names starting with "PBE"; a null password
      is replaced by a random 32-character one before the `SecretKeyFactory` runs. */
  function GeneratePBEKey(p: Provider, algorithm: Option<string>, password: Option<string>, draws: Draws)
    : (r: Result<SecretKey>)
    ensures algorithm.None? || !("PBE" <= algorithm.value) ==> r == Fail(NotPbeAlgorithm)
    ensures r.Ok? ==> algorithm.Some? && "PBE" <= algorithm.value && r.value.algorithm == algorithm.value
    ensures r.Ok? ==> r.value.PbeKey? && |r.value.password| == (if password.None? then 32 else |password.value|)
    ensures r.Ok? && password.Some? ==> r.value.password == password.value
    ensures algorithm.Some? && "PBE" <= algorithm.value ==>
      (r.Ok? <==> p.supports(algorithm.value) && p.generateSecret(algorithm.value, PbeSpec(password.GetOr(draws.password))))
      && (r.Fail? ==> r.error == GeneralSecurity)
  {
    PrefixedNotBlank(algorithm, "PBE");
    if IsBlank(algorithm) || !("PBE" <= algorithm.value) then Fail(NotPbeAlgorithm)
    else
      var spec := PbeSpec(password.GetOr(draws.password));
      SecretFromSpec(p, algorithm.value, spec, PbeKey(algorithm.value, spec.password))
  }

  /** `generateKey(algorithm, keySpec)`: the factory must exist and accept the spec; any
      failure is wrapped, here as `GeneralSecurity`. */
  function SecretFromSpec(p: Provider, algorithm: string, spec: KeySpec, key: SecretKey): (r: Result<SecretKey>)
    ensures r.Ok? <==> p.supports(algorithm) && p.generateSecret(algorithm, spec)
    ensures r.Ok? ==> r.value == key
    ensures r.Fail? ==> r.error == GeneralSecurity
  {
    if p.supports(algorithm) && p.generateSecret(algorithm, spec) then Ok(key) else Fail(GeneralSecurity)
  }

  /** `generateKey(algorithm, key)`: a blank name is refused; "PBE…" names go to the PBE
      factory with the key bytes read as a UTF-8 password, other "DES…" names to the DES
      factory, and anything else gets a random key for a null `key` or the bytes themselves
      (an empty array is refused by `SecretKeySpec`). */
  function GenerateKey(p: Provider, codecs: Codecs, algorithm: Option<string>, key: Option<seq<byte>>,
                       draws: Draws): (r: Result<SecretKey>)
    ensures IsBlank(algorithm) ==> r == Fail(IllegalArgument)
    // which factory each non-blank name is routed to, failures included
    ensures !IsBlank(algorithm) && "PBE" <= algorithm.value ==>
      r == GeneratePBEKey(p, algorithm, if key.None? then None else Some(codecs.decode(UTF8, key.value)), draws)
    ensures !IsBlank(algorithm) && !("PBE" <= algorithm.value) && "DES" <= algorithm.value ==>
      r == GenerateDESKey(p, algorithm, key, draws)
    ensures !IsBlank(algorithm) && !("PBE" <= algorithm.value) && !("DES" <= algorithm.value) && key.None? ==>
      r == GenerateRandomKey(p, algorithm.value, draws)
    ensures !IsBlank(algorithm) && !("PBE" <= algorithm.value) && !("DES" <= algorithm.value) && key.Some? ==>
      (r.Ok? <==> key.value != []) && (r.Fail? ==> r.error == IllegalArgument)
    ensures r.Ok? ==> !IsBlank(algorithm) && r.value.algorithm == algorithm.value
    // the route is chosen by prefix alone, PBE first
    ensures r.Ok? && "PBE" <= algorithm.value ==> r.value.PbeKey?
    ensures r.Ok? && !("PBE" <= algorithm.value) && "DES" <= algorithm.value ==> r.value.DesKey? || r.value.GeneratedKey?
    ensures r.Ok? && !("PBE" <= algorithm.value) && !("DES" <= algorithm.value) ==> r.value.SpecKey? || r.value.GeneratedKey?
    // what the supplied key becomes on each route
    ensures r.Ok? && key.Some? ==> r.value == KeyFromBytes(codecs, algorithm.value, key.value)
    ensures r.Ok? && key.None? ==> r.value == RandomKey(algorithm.value, draws)
  {
    if IsBlank(algorithm) then Fail(IllegalArgument)
    else if "PBE" <= algorithm.value then
      GeneratePBEKey(p, algorithm, if key.None? then None else Some(codecs.decode(UTF8, key.value)), draws)
    else if "DES" <= algorithm.value then
      GenerateDESKey(p, algorithm, key, draws)
    else if key.None? then GenerateRandomKey(p, algorithm.value, draws)
    else if key.value == [] then Fail(IllegalArgument)
    else Ok(SpecKey(algorithm.value, key.value))
  }

  /** The key a successful `generateKey(algorithm, bytes)` makes of supplied bytes: the UTF-8
      password of a PBE key, the 8 leading bytes of a DES key, the raw bytes otherwise. */
  function KeyFromBytes(codecs: Codecs, algorithm: string, bytes: seq<byte>): SecretKey {
    if "PBE" <= algorithm then PbeKey(algorithm, codecs.decode(UTF8, bytes))
    else if "DES" <= algorithm then DesKey(algorithm, if |bytes| < 8 then bytes else bytes[..8])
    else SpecKey(algorithm, bytes)
  }

  /** The key a successful `generateKey(algorithm, null)` makes: a PBE key over a random
      32-character password, or a generated key. */
  function RandomKey(algorithm: string, draws: Draws): SecretKey {
    if "PBE" <= algorithm then PbeKey(algorithm, draws.password) else GeneratedKey(algorithm, draws.key)
  }

  /** A name starting with "PBE" or "DES" is never blank, so the blank test of each factory
      adds nothing to its prefix test. */
  lemma PrefixedNotBlank(algorithm: Option<string>, prefix: string)
    requires prefix != [] && !IsWhitespace(prefix[0])
    ensures algorithm.Some? && prefix <= algorithm.value ==> !IsBlank(algorithm)
  {
    if algorithm.Some? && prefix <= algorithm.value {
      assert algorithm.value[0] == prefix[0];
    }
  }

  // ------------------------------------------------------------------ key pairs

  /** The key size `generateKeyPair` hands to the generator. */
  function EffectiveKeySize(keySize: int): (r: int)
    ensures r > 0
    ensures keySize > 0 ==> r == keySize
  {
    if keySize <= 0 then DEFAULT_KEY_SIZE else keySize
  }

  /** `generateKeyPair(algorithm, keySize, seed)`: a non-positive size means 1024 bits and a
      non-null seed selects a seeded `SecureRandom`. */
  function GenerateKeyPair(p: Provider, algorithm: string, keySize: int, seed: Option<seq<byte>>, draw: nat)
    : (r: Result<KeyPair>)
    ensures !p.supports(algorithm) ==> r == Fail(NoSuchAlgorithm)
    ensures p.supports(algorithm) ==>
      r == p.generatePair(algorithm, EffectiveKeySize(keySize),
                          if seed.None? then DefaultRandom else SeededRandom(seed.value), draw)
  {
    if !p.supports(algorithm) then Fail(NoSuchAlgorithm)
    else
      var size := if keySize <= 0 then DEFAULT_KEY_SIZE else keySize;
      var random := if seed.Some? then SeededRandom(seed.value) else DefaultRandom;
      p.generatePair(algorithm, size, random, draw)
  }

  /** Every non-positive size asks for the same pair as the explicit default size. */
  lemma KeySizeDefault(p: Provider, algorithm: string, keySize: int, seed: Option<seq<byte>>, draw: nat)
    requires keySize <= 0
    ensures GenerateKeyPair(p, algorithm, keySize, seed, draw)
         == GenerateKeyPair(p, algorithm, DEFAULT_KEY_SIZE, seed, draw)
  {
  }

  // ------------------------------------------------------------------ signatures

  /** The algorithm name `generateSignature` asks for: `"<digest>with<asymmetric>"`, the digest
      part being "NONE" when no digest is given. */
  function SignatureName(asymmetric: string, digest: Option<string>): (r: string)
    ensures |r| == |digest.GetOr("NONE")| + 4 + |asymmetric|
    ensures r[..|digest.GetOr("NONE")|] == digest.GetOr("NONE")
    ensures r[|r| - |asymmetric|..] == asymmetric
  {
    digest.GetOr("NONE") + "with" + asymmetric
  }

  /** With the digest fixed, the name determines the asymmetric algorithm, and with the
      asymmetric algorithm fixed it determines the digest part. */
  lemma SignatureNameInjective(a1: string, a2: string, d1: Option<string>, d2: Option<string>)
    requires SignatureName(a1, d1) == SignatureName(a2, d2)
    ensures d1.GetOr("NONE") == d2.GetOr("NONE") ==> a1 == a2
    ensures a1 == a2 ==> d1.GetOr("NONE") == d2.GetOr("NONE")
  {
    var n := SignatureName(a1, d1);
    if d1.GetOr("NONE") == d2.GetOr("NONE") {
      assert |a1| == |a2|;
      assert a1 == n[|n| - |a1|..] == a2;
    }
    if a1 == a2 {
      assert |d1.GetOr("NONE")| == |d2.GetOr("NONE")|;
      assert d1.GetOr("NONE") == n[..|d1.GetOr("NONE")|] == d2.GetOr("NONE");
    }
  }

  /** `generateSignature(asymmetric, digest)`: a fresh, uninitialised `Signature` for the
      composed name. */
  method GenerateSignature(p: Provider, asymmetric: string, digest: Option<string>)
    returns (r: Result<Signature>)
    ensures !p.supports(SignatureName(asymmetric, digest)) ==> r == Fail(NoSuchAlgorithm)
    ensures p.supports(SignatureName(asymmetric, digest)) ==>
      r.Ok? && fresh(r.value) && r.value.provider == p
      && r.value.algorithm == SignatureName(asymmetric, digest) && r.value.state == Uninitialised
  {
    var name := SignatureName(asymmetric, digest);
    if !p.supports(name) {
      return Fail(NoSuchAlgorithm);
    }
    var s := new Signature(p, name);
    return Ok(s);
  }

  // ------------------------------------------------------------------ URL codecs

  /** `urlEncode(text, charset)`: null text stays null whatever the charset; otherwise a null
      charset fails at `charset.value()`. */
  function UrlEncode(codecs: Codecs, text: Option<string>, charset: Option<Charset>): (r: Result<Option<string>>)
    ensures text.None? ==> r == Ok(None)
    ensures text.Some? && charset.None? ==> r == Fail(NullPointer)
    ensures text.Some? && charset.Some? ==> r == Ok(Some(codecs.urlEncode(text.value, charset.value)))
  {
    if text.None? then Ok(None)
    else if charset.None? then Fail(NullPointer)
    else Ok(Some(codecs.urlEncode(text.value, charset.value)))
  }

  /** `urlDecode(text, charset)`: null text stays null whatever the charset; otherwise a null
      charset fails at `charset.value()` and a malformed escape fails in the decoder. */
  function UrlDecode(codecs: Codecs, text: Option<string>, charset: Option<Charset>): (r: Result<Option<string>>)
    ensures text.None? ==> r == Ok(None)
    ensures text.Some? && charset.None? ==> r == Fail(NullPointer)
    ensures text.Some? && charset.Some? ==> (r.Ok? <==> codecs.urlDecode(text.value, charset.value).Ok?)
    ensures text.Some? && charset.Some? && r.Ok? ==> r.value == Some(codecs.urlDecode(text.value, charset.value).value)
  {
    if text.None? then Ok(None)
    else if charset.None? then Fail(NullPointer)
    else
      var decoded :- codecs.urlDecode(text.value, charset.value);
      Ok(Some(decoded))
  }

  /** The one-argument overloads pass the name "UTF-8", which is `Charset.UTF8`, so they never
      take the null-charset path. */
  lemma UrlCodecsUtf8(codecs: Codecs, text: Option<string>)
    ensures Parse(Some("UTF-8")) == Ok(UTF8)
    ensures UrlEncode(codecs, text, Some(UTF8)).Ok? && (UrlEncode(codecs, text, Some(UTF8)).value.None? <==> text.None?)
  {
    ParseValue(UTF8);
  }

  /** When the codecs invert each other for a charset, decoding an encoded text gives the
      text back, null included; with a null charset both fail alike unless the text is null. */
  lemma UrlRoundTrip(codecs: Codecs, text: Option<string>, charset: Option<Charset>)
    requires charset.Some? ==> forall s :: codecs.urlDecode(codecs.urlEncode(s, charset.value), charset.value) == Ok(s)
    ensures var encoded := UrlEncode(codecs, text, charset);
      encoded.Ok? ==> UrlDecode(codecs, encoded.value, charset) == Ok(text)
    ensures UrlEncode(codecs, text, charset).Fail? <==> text.Some? && charset.None?
  {
  }
}
