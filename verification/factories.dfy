/** The asymmetric factories of util/CryptoUtil.java (`rsa(...)`, `dsa(...)`). They live apart
    from the `CryptoUtil` module because they build `AsymmetricCrypto` objects, whose module
    imports `CryptoUtil`. crypto/asymmetric/DSA.java is not part of this model: a DSA object is
    taken to be an `AsymmetricCrypto` over "DSA", as its constructors pass that name on. */
module CryptoFactories {
  import opened Wrappers
  import opened Primitives
  import opened Platform
  import opened CryptoUtil
  import opened Asymmetric
  import RSA

  /** `AsymmetricAlgorithm.DSA.getValue()`. */
  const ALGORITHM_DSA: string := "DSA"

  /** `rsa()`: a new RSA object with a generated pair. */
  method Rsa(p: Provider, draw: nat) returns (r: Result<AsymmetricCrypto>)
    ensures r.Ok? <==> Constructs(p, RSA.ALGORITHM_RSA, None, None, draw)
    ensures r.Ok? ==>
      fresh(r.value) && r.value.Valid() && r.value.algorithm == RSA.ALGORITHM_RSA
      && r.value.publicKey.Some? && r.value.privateKey.Some?
  {
    r := RSA.New(p, None, None, draw);
  }

  /** `rsa(String, String)`: the Base64-decoded keys, in their own positions. */
  method RsaFromBase64(p: Provider, codecs: Codecs, privateKeyBase64: Option<string>, publicKeyBase64: Option<string>, draw: nat)
    returns (r: Result<AsymmetricCrypto>)
    ensures r.Ok? <==> Constructs(p, RSA.ALGORITHM_RSA, codecs.base64Decode(privateKeyBase64),
                                   codecs.base64Decode(publicKeyBase64), draw)
    ensures r.Ok? ==>
      fresh(r.value) && r.value.Valid() && r.value.algorithm == RSA.ALGORITHM_RSA
      && r.value.Keys() == KeyStep(p, RSA.ALGORITHM_RSA, codecs.base64Decode(privateKeyBase64),
                                   codecs.base64Decode(publicKeyBase64), KeyState(None, None), draw).keys
  {
    r := RSA.New(p, codecs.base64Decode(privateKeyBase64), codecs.base64Decode(publicKeyBase64), draw);
  }

  /** `rsa(byte[] privateKey, byte[] publicKey)` as written: `new RSA(privateKey, privateKey)`,
      so the private-key bytes also stand in for the public key and `publicKey` is never read. */
  method RsaFromBytesAsWritten(p: Provider, privateKey: Option<seq<byte>>, publicKey: Option<seq<byte>>, draw: nat)
    returns (r: Result<AsymmetricCrypto>)
    ensures r.Ok? <==> Constructs(p, RSA.ALGORITHM_RSA, privateKey, privateKey, draw)
    ensures r.Ok? ==>
      fresh(r.value) && r.value.Valid() && r.value.algorithm == RSA.ALGORITHM_RSA
      && r.value.Keys() == KeyStep(p, RSA.ALGORITHM_RSA, privateKey, privateKey, KeyState(None, None), draw).keys
  {
    r := RSA.New(p, privateKey, privateKey, draw);
  }

  /** `rsa(byte[] privateKey, byte[] publicKey)` as intended: each array in its own position. */
  method RsaFromBytes(p: Provider, privateKey: Option<seq<byte>>, publicKey: Option<seq<byte>>, draw: nat)
    returns (r: Result<AsymmetricCrypto>)
    ensures r.Ok? <==> Constructs(p, RSA.ALGORITHM_RSA, privateKey, publicKey, draw)
    ensures r.Ok? ==>
      fresh(r.value) && r.value.Valid() && r.value.algorithm == RSA.ALGORITHM_RSA
      && r.value.Keys() == KeyStep(p, RSA.ALGORITHM_RSA, privateKey, publicKey, KeyState(None, None), draw).keys
  {
    r := RSA.New(p, privateKey, publicKey, draw);
  }

  /** `dsa()`: a new DSA object with a generated pair. */
  method Dsa(p: Provider, draw: nat) returns (r: Result<AsymmetricCrypto>)
    ensures r.Ok? <==> Constructs(p, ALGORITHM_DSA, None, None, draw)
    ensures r.Ok? ==>
      fresh(r.value) && r.value.Valid() && r.value.algorithm == ALGORITHM_DSA
      && r.value.Keys() == KeyStep(p, ALGORITHM_DSA, None, None, KeyState(None, None), draw).keys
  {
    r := Asymmetric.New(p, ALGORITHM_DSA, None, None, draw);
  }

  /** `dsa(String, String)`: the Base64-decoded keys, in their own positions. */
  method DsaFromBase64(p: Provider, codecs: Codecs, privateKeyBase64: Option<string>, publicKeyBase64: Option<string>, draw: nat)
    returns (r: Result<AsymmetricCrypto>)
    ensures r.Ok? <==> Constructs(p, ALGORITHM_DSA, codecs.base64Decode(privateKeyBase64),
                                   codecs.base64Decode(publicKeyBase64), draw)
    ensures r.Ok? ==>
      fresh(r.value) && r.value.Valid() && r.value.algorithm == ALGORITHM_DSA
      && r.value.Keys() == KeyStep(p, ALGORITHM_DSA, codecs.base64Decode(privateKeyBase64),
                                   codecs.base64Decode(publicKeyBase64), KeyState(None, None), draw).keys
  {
    r := NewFromBase64(p, codecs, ALGORITHM_DSA, privateKeyBase64, publicKeyBase64, draw);
  }

  /** `dsa(byte[] privateKey, byte[] publicKey)` as written: `new DSA(privateKey, privateKey)`. */
  method DsaFromBytesAsWritten(p: Provider, privateKey: Option<seq<byte>>, publicKey: Option<seq<byte>>, draw: nat)
    returns (r: Result<AsymmetricCrypto>)
    ensures r.Ok? <==> Constructs(p, ALGORITHM_DSA, privateKey, privateKey, draw)
    ensures r.Ok? ==>
      fresh(r.value) && r.value.Valid() && r.value.algorithm == ALGORITHM_DSA
      && r.value.Keys() == KeyStep(p, ALGORITHM_DSA, privateKey, privateKey, KeyState(None, None), draw).keys
  {
    r := Asymmetric.New(p, ALGORITHM_DSA, privateKey, privateKey, draw);
  }

  /** `dsa(byte[] privateKey, byte[] publicKey)` as intended: each array in its own position. */
  method DsaFromBytes(p: Provider, privateKey: Option<seq<byte>>, publicKey: Option<seq<byte>>, draw: nat)
    returns (r: Result<AsymmetricCrypto>)
    ensures r.Ok? <==> Constructs(p, ALGORITHM_DSA, privateKey, publicKey, draw)
    ensures r.Ok? ==>
      fresh(r.value) && r.value.Valid() && r.value.algorithm == ALGORITHM_DSA
      && r.value.Keys() == KeyStep(p, ALGORITHM_DSA, privateKey, publicKey, KeyState(None, None), draw).keys
  {
    r := Asymmetric.New(p, ALGORITHM_DSA, privateKey, publicKey, draw);
  }

  /** Passing the private key twice discards a lone public key: for `(null, publicKey)` the
      written factories generate a fresh pair, while the intended ones keep the decoded public
      key and generate nothing. */
  lemma AsWrittenDropsLonePublicKey(p: Provider, algorithm: string, publicKey: seq<byte>, draw: nat)
    requires p.decodePublic(algorithm, publicKey).Ok?
    requires GenerateKeyPair(p, algorithm, DEFAULT_KEY_SIZE, None, draw).Ok?
    requires GenerateKeyPair(p, algorithm, DEFAULT_KEY_SIZE, None, draw).value.publicKey
             != p.decodePublic(algorithm, publicKey).value
    ensures var written := KeyStep(p, algorithm, None, None, KeyState(None, None), draw);
      var intended := KeyStep(p, algorithm, None, Some(publicKey), KeyState(None, None), draw);
      written.error.None? && intended.error.None?
      && written.keys.privateKey.Some? && intended.keys.privateKey.None?
      && written.keys.publicKey != intended.keys.publicKey
      && intended.keys.publicKey == Some(p.decodePublic(algorithm, publicKey).value)
  {
  }

  /** With both keys supplied, the written factories decode the public key from the
      private-key bytes: whenever those bytes are not also a valid public-key encoding (as a
      PKCS#8 private key is not an X.509 public key), construction fails, although the
      intended call with a valid public key succeeds. */
  lemma AsWrittenRejectsKeyPair(p: Provider, algorithm: string, privateKey: seq<byte>, publicKey: seq<byte>, draw: nat)
    requires p.decodePrivate(algorithm, privateKey).Ok?
    requires p.decodePublic(algorithm, privateKey).Fail?
    requires p.decodePublic(algorithm, publicKey).Ok?
    ensures KeyStep(p, algorithm, Some(privateKey), Some(privateKey), KeyState(None, None), draw).error.Some?
    ensures var intended := KeyStep(p, algorithm, Some(privateKey), Some(publicKey), KeyState(None, None), draw);
      intended.error.None?
      && intended.keys == KeyState(Some(p.decodePublic(algorithm, publicKey).value),
                                   Some(p.decodePrivate(algorithm, privateKey).value))
  {
  }

  /** The two RSA factories on a real key pair: the written one, decoding the private-key
      bytes as a public key, fails, while the intended one stores both decoded keys. */
  method RsaFromBytesRejectsKeyPair(p: Provider, privateKey: seq<byte>, publicKey: seq<byte>, draw: nat)
    returns (written: Result<AsymmetricCrypto>, intended: Result<AsymmetricCrypto>)
    requires p.supports(RSA.ALGORITHM_RSA) && p.supports(DefaultSignatureName(RSA.ALGORITHM_RSA))
    requires p.decodePrivate(RSA.ALGORITHM_RSA, privateKey).Ok?
    requires p.decodePublic(RSA.ALGORITHM_RSA, privateKey).Fail?
    requires p.decodePublic(RSA.ALGORITHM_RSA, publicKey).Ok?
    ensures written.Fail? && intended.Ok?
    ensures intended.Ok? ==>
      intended.value.Keys() == KeyState(Some(p.decodePublic(RSA.ALGORITHM_RSA, publicKey).value),
                                        Some(p.decodePrivate(RSA.ALGORITHM_RSA, privateKey).value))
  {
    AsWrittenRejectsKeyPair(p, RSA.ALGORITHM_RSA, privateKey, publicKey, draw);
    written := RsaFromBytesAsWritten(p, Some(privateKey), Some(publicKey), draw);
    intended := RsaFromBytes(p, Some(privateKey), Some(publicKey), draw);
  }
}
