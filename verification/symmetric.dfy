/** Symmetric encryption (crypto/symmetric/SymmetricCrypto.java): a secret key, a shared
    `Cipher` and optional algorithm parameters, with every encryption or decryption done as one
    `init` + `doFinal` round under the object's lock. */
module Symmetric {
  import opened Wrappers
  import opened Primitives
  import opened Charsets
  import opened Platform
  import opened CharsetUtil
  import opened CryptoUtil
  import Hex

  /** PBE parameters use an 8-byte random salt and 100 iterations (the salt length of PBES1,
      section 6.1 of RFC 8018). */
  const PBE_SALT_LENGTH: nat := 8
  const PBE_ITERATION_COUNT: nat := 100

  /** The parameters after `init(algorithm, key)`: fresh PBE parameters for a "PBE…"
      algorithm, otherwise whatever was set before. */
  function ParamsAfterInit(algorithm: string, before: Option<Params>, draws: Draws): (r: Option<Params>)
    ensures "PBE" <= algorithm ==>
      r.Some? && r.value.PbeParams? && |r.value.salt| == PBE_SALT_LENGTH
      && r.value.salt == draws.salt && r.value.iterations == PBE_ITERATION_COUNT
    ensures !("PBE" <= algorithm) ==> r == before
  {
    if "PBE" <= algorithm then Some(PbeParams(draws.salt, PBE_ITERATION_COUNT)) else before
  }

  /** A cipher that decryption undoes under one key and one set of parameters. */
  ghost predicate Invertible(p: Provider, transformation: string, key: Key, params: Option<Params>) {
    p.accepts(transformation, EncryptMode, key, params)
    && p.accepts(transformation, DecryptMode, key, params)
    && forall data, c :: p.transform(transformation, EncryptMode, key, params, data) == Ok(c) ==>
      p.transform(transformation, DecryptMode, key, params, c) == Ok(data)
  }

  /** Decrypting the hexadecimal text of a ciphertext gives the plaintext back: `HexUtil.encode`
      in `encrypt(byte[])` is undone by `HexUtil.decodeHex` in `decryptBytes(String)`. */
  lemma HexRoundTrip(p: Provider, transformation: string, key: Key, params: Option<Params>, data: seq<byte>)
    requires Invertible(p, transformation, key, params)
    requires CipherRound(p, transformation, EncryptMode, key, params, Some(data)).Ok?
    ensures var text := Hex.EncodeResult(CipherRound(p, transformation, EncryptMode, key, params, Some(data)));
      text.Ok? && Hex.Decode(text.value).Ok?
      && CipherRound(p, transformation, DecryptMode, key, params, Some(Hex.Decode(text.value).value)) == Ok(data)
  {
    var c := CipherRound(p, transformation, EncryptMode, key, params, Some(data)).value;
    assert p.transform(transformation, EncryptMode, key, params, data) == Ok(c);
  }

  class SymmetricCrypto {
    const provider: Provider
    const lock: Lock
    var secretKey: Option<SecretKey>
    var cipher: Cipher?
    var params: Option<Params>

    /** A fully initialised object: a key, and a cipher guarded by this object's lock. */
    ghost predicate Valid()
      reads this
    {
      secretKey.Some? && cipher != null && cipher.guard == lock && cipher.provider == provider
    }

    /** The object before `init` has run: no key, no cipher, no parameters. */
    constructor(provider: Provider)
      ensures this.provider == provider && fresh(lock) && !lock.held
      ensures secretKey.None? && cipher == null && params.None?
    {
      this.provider := provider;
      lock := new Lock();
      secretKey := None;
      cipher := null;
      params := None;
    }

    /** `init(algorithm, key)`: the key comes from `CryptoUtil.generateKey`; when that fails
        nothing changes. */
    method Init(codecs: Codecs, algorithm: Option<string>, key: Option<seq<byte>>, draws: Draws)
      returns (r: Result<()>)
      modifies this
      ensures GenerateKey(provider, codecs, algorithm, key, draws).Fail? ==>
        r == Fail(GenerateKey(provider, codecs, algorithm, key, draws).error)
        && secretKey == old(secretKey) && cipher == old(cipher) && params == old(params)
      ensures GenerateKey(provider, codecs, algorithm, key, draws).Ok? ==>
        secretKey == Some(GenerateKey(provider, codecs, algorithm, key, draws).value)
        && params == ParamsAfterInit(algorithm.value, old(params), draws)
        && (r.Ok? <==> provider.supports(algorithm.value))
      ensures r.Ok? ==>
        fresh(cipher) && Valid() && cipher.transformation == algorithm.value && cipher.state.None?
      ensures r.Fail? ==> cipher == old(cipher)
    {
      var secret :- GenerateKey(provider, codecs, algorithm, key, draws);
      r := InitWithKey(algorithm.value, secret, draws);
    }

    /** `init(algorithm, SecretKey)`: the key, and for a PBE algorithm the parameters, are
        stored before `Cipher.getInstance` runs, so an unknown transformation leaves them
        updated and the old cipher in place. */
    method InitWithKey(algorithm: string, key: SecretKey, draws: Draws) returns (r: Result<()>)
      modifies this
      ensures secretKey == Some(key)
      ensures params == ParamsAfterInit(algorithm, old(params), draws)
      ensures r.Ok? <==> provider.supports(algorithm)
      ensures r.Ok? ==>
        fresh(cipher) && Valid() && cipher.transformation == algorithm && cipher.state.None?
      ensures r.Fail? ==> r == Fail(NoSuchAlgorithm) && cipher == old(cipher)
    {
      secretKey := Some(key);
      if "PBE" <= algorithm {
        params := Some(PbeParams(draws.salt, PBE_ITERATION_COUNT));
      }
      if !provider.supports(algorithm) {
        return Fail(NoSuchAlgorithm);
      }
      cipher := new Cipher(provider, algorithm, lock);
      return Ok(());
    }

    /** `setParams(params)`: replaces the parameters only and returns the same object. */
    method SetParams(params: Option<Params>) returns (self: SymmetricCrypto)
      modifies this
      ensures self == this && this.params == params
      ensures secretKey == old(secretKey) && cipher == old(cipher)
    {
      this.params := params;
      return this;
    }

    // ---------------------------------------------------------------- one round

    /** The shared body of `encryptBytes(byte[])` and `decryptBytes(byte[])`: under the lock,
        `init(mode, key)` when there are no parameters and `init(mode, key, params)` when
        there are, then `doFinal`. The lock is released on every path; a failure returns no
        output. */
    method Round(mode: CipherMode, data: Option<seq<byte>>) returns (r: Result<seq<byte>>)
      requires Valid() && !lock.held
      modifies lock, cipher
      ensures Valid() && !lock.held && lock.acquisitions == old(lock.acquisitions) + 1
      ensures r == CipherRound(provider, cipher.transformation, mode, Secret(secretKey.value), params, data)
      ensures provider.accepts(cipher.transformation, mode, Secret(secretKey.value), params) ==>
        cipher.state == Some((mode, Secret(secretKey.value), params))
    {
      lock.Acquire();
      var ready := cipher.Init(mode, Secret(secretKey.value), params);
      if ready.Fail? {
        lock.Release();
        return Fail(ready.error);
      }
      r := cipher.DoFinal(data);
      lock.Release();
    }

    // ---------------------------------------------------------------- encrypt

    /** `encryptBytes(byte[])`. */
    method EncryptBytes(data: Option<seq<byte>>) returns (r: Result<seq<byte>>)
      requires Valid() && !lock.held
      modifies lock, cipher
      ensures Valid() && !lock.held && lock.acquisitions == old(lock.acquisitions) + 1
      ensures r == CipherRound(provider, cipher.transformation, EncryptMode, Secret(secretKey.value), params, data)
    {
      r := Round(EncryptMode, data);
    }

    /** `encrypt(byte[])`: the hexadecimal form of `encryptBytes(byte[])`. */
    method Encrypt(data: Option<seq<byte>>) returns (r: Result<string>)
      requires Valid() && !lock.held
      modifies lock, cipher
      ensures Valid() && !lock.held
      ensures r == Hex.EncodeResult(
        CipherRound(provider, cipher.transformation, EncryptMode, Secret(secretKey.value), params, data))
    {
      var bytes := EncryptBytes(data);
      r := Hex.EncodeResult(bytes);
    }

    /** `encryptBytes(String data, String charset)`: the text is encoded first (UTF-8 for a
        blank charset name); an unknown name fails before the lock is taken. */
    method EncryptTextBytes(codecs: Codecs, data: Option<string>, charset: Option<string>)
      returns (r: Result<seq<byte>>)
      requires Valid() && !lock.held
      modifies lock, cipher
      ensures Valid() && !lock.held
      ensures CharsetOf(charset).Fail? ==>
        r == Fail(UnknownCharset) && lock.acquisitions == old(lock.acquisitions)
      ensures CharsetOf(charset).Ok? ==>
        r == CipherRound(provider, cipher.transformation, EncryptMode, Secret(secretKey.value), params,
                         StringBytes(codecs, data, charset).value)
    {
      var bytes := StringBytes(codecs, data, charset);
      if bytes.Fail? {
        return Fail(bytes.error);
      }
      r := EncryptBytes(bytes.value);
    }

    /** `encrypt(String data, String charset)`. */
    method EncryptText(codecs: Codecs, data: Option<string>, charset: Option<string>)
      returns (r: Result<string>)
      requires Valid() && !lock.held
      modifies lock, cipher
      ensures Valid() && !lock.held
      ensures CharsetOf(charset).Fail? ==> r == Fail(UnknownCharset)
      ensures CharsetOf(charset).Ok? ==>
        r == Hex.EncodeResult(CipherRound(provider, cipher.transformation, EncryptMode,
                                          Secret(secretKey.value), params, StringBytes(codecs, data, charset).value))
    {
      var bytes := EncryptTextBytes(codecs, data, charset);
      r := Hex.EncodeResult(bytes);
    }

    /** `encryptBytes(String)`: the UTF-8 bytes of the text. */
    method EncryptUtf8Bytes(codecs: Codecs, data: Option<string>) returns (r: Result<seq<byte>>)
      requires Valid() && !lock.held
      modifies lock, cipher
      ensures Valid() && !lock.held
      ensures r == CipherRound(provider, cipher.transformation, EncryptMode, Secret(secretKey.value), params,
                               if data.None? then None else Some(codecs.encode(UTF8, data.value)))
    {
      StringBytesUtf8(codecs, data);
      r := EncryptTextBytes(codecs, data, Some("UTF-8"));
    }

    /** `encrypt(String)`. */
    method EncryptUtf8(codecs: Codecs, data: Option<string>) returns (r: Result<string>)
      requires Valid() && !lock.held
      modifies lock, cipher
      ensures Valid() && !lock.held
      ensures r == Hex.EncodeResult(CipherRound(provider, cipher.transformation, EncryptMode,
                                                Secret(secretKey.value), params,
                                                if data.None? then None else Some(codecs.encode(UTF8, data.value))))
    {
      var bytes := EncryptUtf8Bytes(codecs, data);
      r := Hex.EncodeResult(bytes);
    }

    // ---------------------------------------------------------------- decrypt

    /** `decryptBytes(byte[])`. */
    method DecryptBytes(data: Option<seq<byte>>) returns (r: Result<seq<byte>>)
      requires Valid() && !lock.held
      modifies lock, cipher
      ensures Valid() && !lock.held && lock.acquisitions == old(lock.acquisitions) + 1
      ensures r == CipherRound(provider, cipher.transformation, DecryptMode, Secret(secretKey.value), params, data)
    {
      r := Round(DecryptMode, data);
    }

    /** `decrypt(byte[], Charset)`: the decrypted bytes read as text in the charset; a null
        charset fails at `charset.instance()`, after the decryption. */
    method DecryptText(codecs: Codecs, data: Option<seq<byte>>, charset: Option<Charset>) returns (r: Result<string>)
      requires Valid() && !lock.held
      modifies lock, cipher
      ensures Valid() && !lock.held
      ensures var plain := CipherRound(provider, cipher.transformation, DecryptMode, Secret(secretKey.value), params, data);
        (plain.Fail? ==> r == Fail(plain.error))
        && (plain.Ok? && charset.None? ==> r == Fail(NullPointer))
        && (plain.Ok? && charset.Some? ==> r == Ok(codecs.decode(charset.value, plain.value)))
    {
      var plain := DecryptBytes(data);
      if plain.Fail? {
        return Fail(plain.error);
      }
      if charset.None? {
        return Fail(NullPointer);
      }
      return Ok(codecs.decode(charset.value, plain.value));
    }

    /** `decrypt(byte[])`: `decrypt(bytes, Charset.UTF8)`. */
    method DecryptUtf8(codecs: Codecs, data: Option<seq<byte>>) returns (r: Result<string>)
      requires Valid() && !lock.held
      modifies lock, cipher
      ensures Valid() && !lock.held
      ensures var plain := CipherRound(provider, cipher.transformation, DecryptMode, Secret(secretKey.value), params, data);
        (r.Ok? <==> plain.Ok?) && (r.Ok? ==> r.value == codecs.decode(UTF8, plain.value))
    {
      r := DecryptText(codecs, data, Some(UTF8));
    }

    /** `decryptBytes(String)`: the text is hexadecimal; text that is not fails before the
        lock is taken. */
    method DecryptHexBytes(data: string) returns (r: Result<seq<byte>>)
      requires Valid() && !lock.held
      modifies lock, cipher
      ensures Valid() && !lock.held
      ensures Hex.Decode(data).Fail? ==>
        r == Fail(IllegalArgument) && lock.acquisitions == old(lock.acquisitions)
      ensures Hex.Decode(data).Ok? ==>
        r == CipherRound(provider, cipher.transformation, DecryptMode, Secret(secretKey.value), params,
                         Some(Hex.Decode(data).value))
    {
      var bytes := Hex.Decode(data);
      if bytes.Fail? {
        return Fail(bytes.error);
      }
      r := DecryptBytes(Some(bytes.value));
    }

    /** `decrypt(String, Charset)`: as `decrypt(byte[], Charset)` on the decoded hex. */
    method DecryptHexText(codecs: Codecs, data: string, charset: Option<Charset>) returns (r: Result<string>)
      requires Valid() && !lock.held
      modifies lock, cipher
      ensures Valid() && !lock.held
      ensures Hex.Decode(data).Fail? ==> r == Fail(IllegalArgument)
      ensures Hex.Decode(data).Ok? ==>
        var plain := CipherRound(provider, cipher.transformation, DecryptMode, Secret(secretKey.value), params,
                                 Some(Hex.Decode(data).value));
        (plain.Fail? ==> r == Fail(plain.error))
        && (plain.Ok? && charset.None? ==> r == Fail(NullPointer))
        && (plain.Ok? && charset.Some? ==> r == Ok(codecs.decode(charset.value, plain.value)))
    {
      var plain := DecryptHexBytes(data);
      if plain.Fail? {
        return Fail(plain.error);
      }
      if charset.None? {
        return Fail(NullPointer);
      }
      return Ok(codecs.decode(charset.value, plain.value));
    }

    /** `decrypt(String)`: `decrypt(data, Charset.UTF8)`. */
    method DecryptHexUtf8(codecs: Codecs, data: string) returns (r: Result<string>)
      requires Valid() && !lock.held
      modifies lock, cipher
      ensures Valid() && !lock.held
      ensures Hex.Decode(data).Fail? ==> r == Fail(IllegalArgument)
      ensures Hex.Decode(data).Ok? ==>
        var plain := CipherRound(provider, cipher.transformation, DecryptMode, Secret(secretKey.value), params,
                                 Some(Hex.Decode(data).value));
        (r.Ok? <==> plain.Ok?) && (r.Ok? ==> r.value == codecs.decode(UTF8, plain.value))
    {
      r := DecryptHexText(codecs, data, Some(UTF8));
    }

    /** With an invertible cipher, `decryptBytes(encrypt(data))` on one object gives the data
        back. */
    method EncryptDecrypt(data: seq<byte>) returns (text: Result<string>, back: Result<seq<byte>>)
      requires Valid() && !lock.held
      requires Invertible(provider, cipher.transformation, Secret(secretKey.value), params)
      modifies lock, cipher
      ensures Valid() && !lock.held
      ensures text.Ok? ==> back == Ok(data)
    {
      text := Encrypt(Some(data));
      if text.Fail? {
        return text, Fail(text.error);
      }
      HexRoundTrip(provider, cipher.transformation, Secret(secretKey.value), params, data);
      back := DecryptHexBytes(text.value);
    }
  }

  /** `new SymmetricCrypto(algorithm, key)`: an object whose constructor's `init` failed is
      never handed out. */
  method New(p: Provider, codecs: Codecs, algorithm: Option<string>, key: Option<seq<byte>>, draws: Draws)
    returns (r: Result<SymmetricCrypto>)
    ensures GenerateKey(p, codecs, algorithm, key, draws).Fail? ==>
      r == Fail(GenerateKey(p, codecs, algorithm, key, draws).error)
    ensures GenerateKey(p, codecs, algorithm, key, draws).Ok? ==> (r.Ok? <==> p.supports(algorithm.value))
    ensures r.Ok? ==>
      fresh(r.value) && fresh(r.value.lock) && fresh(r.value.cipher) && r.value.Valid() && !r.value.lock.held
      && r.value.provider == p && r.value.cipher.transformation == algorithm.value
      && r.value.secretKey == Some(GenerateKey(p, codecs, algorithm, key, draws).value)
      && r.value.params == ParamsAfterInit(algorithm.value, None, draws)
  {
    var c := new SymmetricCrypto(p);
    var init := c.Init(codecs, algorithm, key, draws);
    if init.Fail? {
      return Fail(init.error);
    }
    return Ok(c);
  }
}
