/** Asymmetric encryption and signatures (crypto/asymmetric/AsymmetricCrypto.java): an
    algorithm name, an optional public and private key, a shared `Cipher` used under the
    object's lock, and a `Signature` used without it. */
module Asymmetric {
  import opened Wrappers
  import opened Primitives
  import opened Charsets
  import opened Platform
  import opened CharsetUtil
  import opened CryptoUtil

  /** crypto/asymmetric/KeyType.java is not part of this model; `getKey` distinguishes these
      two constants. */
  datatype KeyType = PrivateKeyType | PublicKeyType

  /** The default signature algorithm `init` asks for: `"MD5with" + algorithm`, which is the
      name `CryptoUtil.generateSignature` composes for the MD5 digest. */
  function DefaultSignatureName(algorithm: string): (r: string)
    ensures r == SignatureName(algorithm, Some("MD5"))
  {
    "MD5with" + algorithm
  }

  /** The two key fields. */
  datatype KeyState = KeyState(publicKey: Option<PublicKey>, privateKey: Option<PrivateKey>)

  /** The keys after `init`'s key step, and the failure that stopped it, if any. */
  datatype KeyOutcome = KeyOutcome(keys: KeyState, error: Option<Error>)

  /** `init`'s key step: with both arrays null, `initKeys` generates a 1024-bit pair; otherwise
      the private key, then the public key, is decoded from each array that is given, and a
      key whose array is null keeps its old value. A failing decode stops the step, keeping
      what was stored before it. */
  function KeyStep(p: Provider, algorithm: string, privateKey: Option<seq<byte>>, publicKey: Option<seq<byte>>,
                   before: KeyState, draw: nat): (r: KeyOutcome)
    // both null: a generated pair and nothing decoded
    ensures privateKey.None? && publicKey.None? ==>
      var pair := GenerateKeyPair(p, algorithm, DEFAULT_KEY_SIZE, None, draw);
      (r.error.None? <==> pair.Ok?)
      && (pair.Ok? ==> r.keys == KeyState(Some(pair.value.publicKey), Some(pair.value.privateKey)))
      && (pair.Fail? ==> r == KeyOutcome(before, Some(pair.error)))
    // otherwise nothing is generated: exactly the supplied keys are decoded
    ensures privateKey.Some? || publicKey.Some? ==>
      (r.error.None? <==>
        (privateKey.None? || p.decodePrivate(algorithm, privateKey.value).Ok?)
        && (publicKey.None? || p.decodePublic(algorithm, publicKey.value).Ok?))
    ensures (privateKey.Some? || publicKey.Some?) && r.error.None? ==>
      r.keys.privateKey == (if privateKey.None? then before.privateKey
                            else Some(p.decodePrivate(algorithm, privateKey.value).value))
      && r.keys.publicKey == (if publicKey.None? then before.publicKey
                              else Some(p.decodePublic(algorithm, publicKey.value).value))
    // a failure leaves the public key untouched, and the private key too when it is the
    // private key that failed
    ensures r.error.Some? ==> r.keys.publicKey == before.publicKey
    ensures privateKey.Some? && p.decodePrivate(algorithm, privateKey.value).Fail? ==>
      r == KeyOutcome(before, Some(p.decodePrivate(algorithm, privateKey.value).error))
  {
    if privateKey.None? && publicKey.None? then
      match GenerateKeyPair(p, algorithm, DEFAULT_KEY_SIZE, None, draw)
      case Ok(pair) => KeyOutcome(KeyState(Some(pair.publicKey), Some(pair.privateKey)), None)
      case Fail(e) => KeyOutcome(before, Some(e))
    else
      var decodedPrivate :=
        if privateKey.None? then Ok(before.privateKey)
        else match p.decodePrivate(algorithm, privateKey.value)
          case Ok(k) => Ok(Some(k))
          case Fail(e) => Fail(e);
      if decodedPrivate.Fail? then KeyOutcome(before, Some(decodedPrivate.error))
      else
        var middle := KeyState(before.publicKey, decodedPrivate.value);
        if publicKey.None? then KeyOutcome(middle, None)
        else match p.decodePublic(algorithm, publicKey.value)
          case Ok(k) => KeyOutcome(KeyState(Some(k), middle.privateKey), None)
          case Fail(e) => KeyOutcome(middle, Some(e))
  }

  /** `getKey` done with `keyType`, then one `init(mode, key)` + `doFinal(data)` round. */
  function KeyedRound(p: Provider, transformation: string, mode: CipherMode, key: Result<Key>,
                      data: Option<seq<byte>>): Result<seq<byte>>
  {
    if key.Fail? then Fail(key.error) else CipherRound(p, transformation, mode, key.value, None, data)
  }

  /** A key pair whose private key decrypts what its public key encrypts. */
  ghost predicate PairInvertible(p: Provider, transformation: string, pair: KeyPair) {
    p.accepts(transformation, DecryptMode, Private(pair.privateKey), None)
    && forall data, c :: p.transform(transformation, EncryptMode, Public(pair.publicKey), None, data) == Ok(c) ==>
      p.transform(transformation, DecryptMode, Private(pair.privateKey), None, c) == Ok(data)
  }

  /** With such a pair, decrypting with the private key undoes encrypting with the public one. */
  lemma KeyedRoundTrip(p: Provider, transformation: string, pair: KeyPair, data: seq<byte>)
    requires PairInvertible(p, transformation, pair)
    requires KeyedRound(p, transformation, EncryptMode, Ok(Public(pair.publicKey)), Some(data)).Ok?
    ensures KeyedRound(p, transformation, DecryptMode, Ok(Private(pair.privateKey)),
                       Some(KeyedRound(p, transformation, EncryptMode, Ok(Public(pair.publicKey)), Some(data)).value))
         == Ok(data)
  {
    var c := KeyedRound(p, transformation, EncryptMode, Ok(Public(pair.publicKey)), Some(data)).value;
    assert p.transform(transformation, EncryptMode, Public(pair.publicKey), None, data) == Ok(c);
  }

  /** `sign(data)`: `initSign(privateKey)`, `update(data)`, `sign()`; a missing key is an
      `InvalidKeyException` and null data a `NullPointerException`. */
  function Signed(p: Provider, algorithm: string, key: Option<PrivateKey>, data: Option<seq<byte>>): Result<seq<byte>> {
    if key.None? then Fail(InvalidKey)
    else if data.None? then Fail(NullPointer)
    else p.sign(algorithm, key.value, data.value)
  }

  /** `verify(data, sign)`: `initVerify(publicKey)`, `update(data)`, `verify(sign)`. */
  function Verified(p: Provider, algorithm: string, key: Option<PublicKey>, data: Option<seq<byte>>,
                    signature: seq<byte>): Result<bool> {
    if key.None? then Fail(InvalidKey)
    else if data.None? then Fail(NullPointer)
    else p.verify(algorithm, key.value, data.value, signature)
  }

  /** A provider whose verification accepts the signatures of the matching private key. */
  ghost predicate SignaturesSound(p: Provider, algorithm: string, pair: KeyPair) {
    forall data, s :: p.sign(algorithm, pair.privateKey, data) == Ok(s) ==>
      p.verify(algorithm, pair.publicKey, data, s) == Ok(true)
  }

  /** With such a provider, what `sign` produces `verify` accepts. */
  lemma SignThenVerify(p: Provider, algorithm: string, pair: KeyPair, data: seq<byte>)
    requires SignaturesSound(p, algorithm, pair)
    requires Signed(p, algorithm, Some(pair.privateKey), Some(data)).Ok?
    ensures Verified(p, algorithm, Some(pair.publicKey), Some(data),
                     Signed(p, algorithm, Some(pair.privateKey), Some(data)).value) == Ok(true)
  {
    var s := Signed(p, algorithm, Some(pair.privateKey), Some(data)).value;
    assert p.sign(algorithm, pair.privateKey, data) == Ok(s);
  }

  class AsymmetricCrypto {
    const provider: Provider
    const lock: Lock
    var algorithm: string
    var publicKey: Option<PublicKey>
    var privateKey: Option<PrivateKey>
    var cipher: Cipher?
    var signature: Signature?

    /** A cipher guarded by this object's lock. */
    ghost predicate Valid()
      reads this
    {
      cipher != null && cipher.guard == lock && cipher.provider == provider
    }

    /** Both key fields. */
    function Keys(): KeyState
      reads this
    {
      KeyState(publicKey, privateKey)
    }

    /** The object before `init` has run. */
    constructor(provider: Provider)
      ensures this.provider == provider && fresh(lock) && !lock.held
      ensures algorithm == [] && Keys() == KeyState(None, None) && cipher == null && signature == null
    {
      this.provider := provider;
      lock := new Lock();
      algorithm := [];
      publicKey := None;
      privateKey := None;
      cipher := null;
      signature := null;
    }

    /** `init(algorithm, privateKey, publicKey)`: the algorithm, then a new cipher, then a new
        `"MD5with…"` signature, then the key step; each failure keeps what was stored before
        it. */
    method Init(algorithm: string, privateKey: Option<seq<byte>>, publicKey: Option<seq<byte>>, draw: nat)
      returns (r: Result<()>)
      modifies this
      ensures this.algorithm == algorithm
      ensures !provider.supports(algorithm) ==>
        r == Fail(NoSuchAlgorithm) && cipher == old(cipher) && signature == old(signature) && Keys() == old(Keys())
      ensures provider.supports(algorithm) ==>
        fresh(cipher) && Valid() && cipher.transformation == algorithm && cipher.state.None?
      ensures provider.supports(algorithm) && !provider.supports(DefaultSignatureName(algorithm)) ==>
        r == Fail(NoSuchAlgorithm) && signature == old(signature) && Keys() == old(Keys())
      ensures provider.supports(algorithm) && provider.supports(DefaultSignatureName(algorithm)) ==>
        var step := KeyStep(provider, algorithm, privateKey, publicKey, old(Keys()), draw);
        fresh(signature) && signature.provider == provider
        && signature.algorithm == DefaultSignatureName(algorithm) && signature.state == Uninitialised
        && Keys() == step.keys
        && (r.Ok? <==> step.error.None?) && (r.Fail? ==> r.error == step.error.value)
    {
      this.algorithm := algorithm;
      if !provider.supports(algorithm) {
        return Fail(NoSuchAlgorithm);
      }
      cipher := new Cipher(provider, algorithm, lock);
      var name := DefaultSignatureName(algorithm);
      if !provider.supports(name) {
        return Fail(NoSuchAlgorithm);
      }
      signature := new Signature(provider, name);
      if privateKey.None? && publicKey.None? {
        r := InitKeys(draw);
        return;
      }
      if privateKey.Some? {
        var k := provider.decodePrivate(algorithm, privateKey.value);
        if k.Fail? {
          return Fail(k.error);
        }
        this.privateKey := Some(k.value);
      }
      if publicKey.Some? {
        var k := provider.decodePublic(algorithm, publicKey.value);
        if k.Fail? {
          return Fail(k.error);
        }
        this.publicKey := Some(k.value);
      }
      return Ok(());
    }

    /** `initKeys()`: a generated 1024-bit pair replaces both keys; a failure keeps them. */
    method InitKeys(draw: nat) returns (r: Result<()>)
      modifies this
      ensures algorithm == old(algorithm) && cipher == old(cipher) && signature == old(signature)
      ensures var pair := GenerateKeyPair(provider, algorithm, DEFAULT_KEY_SIZE, None, draw);
        (pair.Fail? ==> r == Fail(pair.error) && Keys() == old(Keys()))
        && (pair.Ok? ==> r == Ok(()) && Keys() == KeyState(Some(pair.value.publicKey), Some(pair.value.privateKey)))
    {
      var pair := GenerateKeyPair(provider, algorithm, DEFAULT_KEY_SIZE, None, draw);
      if pair.Fail? {
        return Fail(pair.error);
      }
      publicKey := Some(pair.value.publicKey);
      privateKey := Some(pair.value.privateKey);
      return Ok(());
    }

    /** `getKey(type)`: the selected key, or a `NullPointerException` when it is absent. */
    function GetKey(keyType: KeyType): (r: Result<Key>)
      reads this
      ensures keyType == PrivateKeyType ==>
        (r.Ok? <==> privateKey.Some?) && (r.Ok? ==> r.value == Private(privateKey.value))
      ensures keyType == PublicKeyType ==>
        (r.Ok? <==> publicKey.Some?) && (r.Ok? ==> r.value == Public(publicKey.value))
      ensures r.Fail? ==> r.error == NullPointer
    {
      match keyType
      case PrivateKeyType => if privateKey.None? then Fail(NullPointer) else Ok(Private(privateKey.value))
      case PublicKeyType => if publicKey.None? then Fail(NullPointer) else Ok(Public(publicKey.value))
    }

    // ---------------------------------------------------------------- sign and verify

    /** `sign(data)`: no lock; every failure, a missing key or signature object included,
        comes back as a failure. */
    method Sign(data: Option<seq<byte>>) returns (r: Result<seq<byte>>)
      modifies signature
      ensures signature == null ==> r == Fail(NullPointer)
      ensures signature != null ==> r == Signed(signature.provider, signature.algorithm, privateKey, data)
      ensures signature != null && privateKey.Some? ==> signature.state == Signing(privateKey.value, [])
      ensures signature != null && privateKey.None? ==> signature.state == old(signature.state)
    {
      if signature == null {
        return Fail(NullPointer);
      }
      var ready := signature.InitSign(privateKey);
      if ready.Fail? {
        return Fail(ready.error);
      }
      if data.None? {
        return Fail(NullPointer);
      }
      var fed := signature.Update(data.value);
      assert [] + data.value == data.value;
      r := signature.Sign();
    }

    /** `verify(data, sign)`: no lock; the provider's answer, or a failure. */
    method Verify(data: Option<seq<byte>>, sign: seq<byte>) returns (r: Result<bool>)
      modifies signature
      ensures signature == null ==> r == Fail(NullPointer)
      ensures signature != null ==> r == Verified(signature.provider, signature.algorithm, publicKey, data, sign)
      ensures signature != null && publicKey.Some? ==> signature.state == Verifying(publicKey.value, [])
      ensures signature != null && publicKey.None? ==> signature.state == old(signature.state)
    {
      if signature == null {
        return Fail(NullPointer);
      }
      var ready := signature.InitVerify(publicKey);
      if ready.Fail? {
        return Fail(ready.error);
      }
      if data.None? {
        return Fail(NullPointer);
      }
      var fed := signature.Update(data.value);
      assert [] + data.value == data.value;
      r := signature.Verify(sign);
    }

    // ---------------------------------------------------------------- encrypt and decrypt

    /** The shared body of `encryptBytes(byte[], KeyType)` and `decryptBytes(byte[], KeyType)`:
        the lock is taken first, the key chosen inside it, and the lock released on every
        path. */
    method Round(mode: CipherMode, data: Option<seq<byte>>, keyType: KeyType) returns (r: Result<seq<byte>>)
      requires Valid() && !lock.held
      modifies lock, cipher
      ensures Valid() && !lock.held && lock.acquisitions == old(lock.acquisitions) + 1
      ensures r == KeyedRound(provider, cipher.transformation, mode, GetKey(keyType), data)
    {
      lock.Acquire();
      var key := GetKey(keyType);
      if key.Fail? {
        lock.Release();
        return Fail(key.error);
      }
      var ready := cipher.Init(mode, key.value, None);
      if ready.Fail? {
        lock.Release();
        return Fail(ready.error);
      }
      r := cipher.DoFinal(data);
      lock.Release();
    }

    /** `encryptBytes(byte[], KeyType)`. */
    method EncryptBytes(data: Option<seq<byte>>, keyType: KeyType) returns (r: Result<seq<byte>>)
      requires Valid() && !lock.held
      modifies lock, cipher
      ensures Valid() && !lock.held && lock.acquisitions == old(lock.acquisitions) + 1
      ensures r == KeyedRound(provider, cipher.transformation, EncryptMode, GetKey(keyType), data)
      ensures GetKey(keyType).Fail? ==> r == Fail(NullPointer)
    {
      r := Round(EncryptMode, data, keyType);
    }

    /** `encryptBytes(String data, String charset, KeyType)`: an unknown charset fails before
        the lock is taken. */
    method EncryptTextBytes(codecs: Codecs, data: Option<string>, charset: Option<string>, keyType: KeyType)
      returns (r: Result<seq<byte>>)
      requires Valid() && !lock.held
      modifies lock, cipher
      ensures Valid() && !lock.held
      ensures CharsetOf(charset).Fail? ==> r == Fail(UnknownCharset) && lock.acquisitions == old(lock.acquisitions)
      ensures CharsetOf(charset).Ok? ==>
        r == KeyedRound(provider, cipher.transformation, EncryptMode, GetKey(keyType),
                        StringBytes(codecs, data, charset).value)
    {
      var bytes := StringBytes(codecs, data, charset);
      if bytes.Fail? {
        return Fail(bytes.error);
      }
      r := EncryptBytes(bytes.value, keyType);
    }

    /** `encryptBytes(String data, KeyType)`: the UTF-8 bytes of the text. */
    method EncryptUtf8Bytes(codecs: Codecs, data: Option<string>, keyType: KeyType) returns (r: Result<seq<byte>>)
      requires Valid() && !lock.held
      modifies lock, cipher
      ensures Valid() && !lock.held
      ensures r == KeyedRound(provider, cipher.transformation, EncryptMode, GetKey(keyType),
                              if data.None? then None else Some(codecs.encode(UTF8, data.value)))
    {
      StringBytesUtf8(codecs, data);
      r := EncryptTextBytes(codecs, data, Some("UTF-8"), keyType);
    }

    /** `decryptBytes(byte[], KeyType)`. */
    method DecryptBytes(data: Option<seq<byte>>, keyType: KeyType) returns (r: Result<seq<byte>>)
      requires Valid() && !lock.held
      modifies lock, cipher
      ensures Valid() && !lock.held && lock.acquisitions == old(lock.acquisitions) + 1
      ensures r == KeyedRound(provider, cipher.transformation, DecryptMode, GetKey(keyType), data)
      ensures GetKey(keyType).Fail? ==> r == Fail(NullPointer)
    {
      r := Round(DecryptMode, data, keyType);
    }

    /** With an invertible pair in both key fields, `decryptBytes(encryptBytes(data, PUBLIC),
        PRIVATE)` on one object gives the data back. */
    method EncryptDecrypt(data: seq<byte>) returns (encrypted: Result<seq<byte>>, back: Result<seq<byte>>)
      requires Valid() && !lock.held
      requires publicKey.Some? && privateKey.Some?
      requires PairInvertible(provider, cipher.transformation, KeyPair(publicKey.value, privateKey.value))
      modifies lock, cipher
      ensures Valid() && !lock.held
      ensures encrypted.Ok? ==> back == Ok(data)
    {
      encrypted := EncryptBytes(Some(data), PublicKeyType);
      if encrypted.Fail? {
        return encrypted, Fail(encrypted.error);
      }
      KeyedRoundTrip(provider, cipher.transformation, KeyPair(publicKey.value, privateKey.value), data);
      back := DecryptBytes(Some(encrypted.value), PrivateKeyType);
    }

    // ---------------------------------------------------------------- setters

    /** `setPublicKey(key)`: only the public key changes; the same object is returned. */
    method SetPublicKey(key: Option<PublicKey>) returns (self: AsymmetricCrypto)
      modifies this
      ensures self == this && publicKey == key
      ensures privateKey == old(privateKey) && algorithm == old(algorithm)
      ensures cipher == old(cipher) && signature == old(signature)
    {
      publicKey := key;
      return this;
    }

    /** `setPrivateKey(key)`: only the private key changes; the same object is returned. */
    method SetPrivateKey(key: Option<PrivateKey>) returns (self: AsymmetricCrypto)
      modifies this
      ensures self == this && privateKey == key
      ensures publicKey == old(publicKey) && algorithm == old(algorithm)
      ensures cipher == old(cipher) && signature == old(signature)
    {
      privateKey := key;
      return this;
    }

    /** `setSignature(signature)`: only the signature object changes; the same object is
        returned. */
    method SetSignature(s: Signature?) returns (self: AsymmetricCrypto)
      modifies this
      ensures self == this && signature == s
      ensures Keys() == old(Keys()) && algorithm == old(algorithm) && cipher == old(cipher)
    {
      signature := s;
      return this;
    }
  }

  /** When the constructor's `init` runs to the end: the cipher and the default signature are
      available and the key step succeeds on a fresh object. */
  predicate Constructs(p: Provider, algorithm: string, privateKey: Option<seq<byte>>, publicKey: Option<seq<byte>>,
                       draw: nat)
  {
    p.supports(algorithm) && p.supports(DefaultSignatureName(algorithm))
    && KeyStep(p, algorithm, privateKey, publicKey, KeyState(None, None), draw).error.None?
  }

  /** `new AsymmetricCrypto(algorithm, privateKey, publicKey)`: an object whose constructor's
      `init` failed is never handed out. */
  method New(p: Provider, algorithm: string, privateKey: Option<seq<byte>>, publicKey: Option<seq<byte>>, draw: nat)
    returns (r: Result<AsymmetricCrypto>)
    ensures r.Ok? <==> Constructs(p, algorithm, privateKey, publicKey, draw)
    ensures r.Ok? ==>
      fresh(r.value) && fresh(r.value.lock) && fresh(r.value.cipher)
      && r.value.signature != null && fresh(r.value.signature)
      && r.value.Valid() && !r.value.lock.held && r.value.provider == p
      && r.value.algorithm == algorithm && r.value.cipher.transformation == algorithm
      && r.value.signature.algorithm == DefaultSignatureName(algorithm)
      && r.value.Keys() == KeyStep(p, algorithm, privateKey, publicKey, KeyState(None, None), draw).keys
  {
    var c := new AsymmetricCrypto(p);
    var init := c.Init(algorithm, privateKey, publicKey, draw);
    if init.Fail? {
      return Fail(init.error);
    }
    return Ok(c);
  }

  /** The Base64 constructors: each key text is Base64-decoded first, then as `New`. */
  method NewFromBase64(p: Provider, codecs: Codecs, algorithm: string, privateKeyBase64: Option<string>,
                       publicKeyBase64: Option<string>, draw: nat) returns (r: Result<AsymmetricCrypto>)
    ensures r.Ok? <==>
      Constructs(p, algorithm, codecs.base64Decode(privateKeyBase64), codecs.base64Decode(publicKeyBase64), draw)
    ensures r.Ok? ==>
      fresh(r.value) && r.value.Valid() && !r.value.lock.held && r.value.algorithm == algorithm
      && r.value.Keys() == KeyStep(p, algorithm, codecs.base64Decode(privateKeyBase64),
                                   codecs.base64Decode(publicKeyBase64), KeyState(None, None), draw).keys
  {
    r := New(p, algorithm, codecs.base64Decode(privateKeyBase64), codecs.base64Decode(publicKeyBase64), draw);
  }
}
