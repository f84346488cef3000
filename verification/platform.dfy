/** The parts of the Java platform and of libraries outside the core that the core calls:
    the JCA (keys, `Cipher`, `Signature`, `MessageDigest`, the key factories and
    generators, `SecureRandom`), `InputStream`, a `ReentrantLock`, and the text codecs
    (charset encoding, BCD, Base64, URL encoding, commons-lang's capped split). The
    algorithms behind them stay uninterpreted: each is a function-valued field, so every
    property proved holds for whatever the provider computes. */
module Platform {
  import opened Wrappers
  import opened Primitives
  import opened Charsets

  // ------------------------------------------------------------------ keys

  /** A `javax.crypto.SecretKey`, recording how it was made. */
  datatype SecretKey =
    | GeneratedKey(algorithm: string, draw: nat)     // KeyGenerator.getInstance(algorithm).generateKey()
    | SpecKey(algorithm: string, bytes: seq<byte>)   // new SecretKeySpec(bytes, algorithm)
    | DesKey(algorithm: string, bytes: seq<byte>)    // SecretKeyFactory over DESKeySpec: its first 8 bytes
    | PbeKey(algorithm: string, password: string)    // SecretKeyFactory over PBEKeySpec(password)

  /** An RSA or DSA key; `modulusBits` is `getModulus().bitLength()` of an RSA key. */
  datatype PublicKey = PublicKey(algorithm: string, encoded: seq<byte>, modulusBits: nat)
  datatype PrivateKey = PrivateKey(algorithm: string, encoded: seq<byte>, modulusBits: nat)
  datatype KeyPair = KeyPair(publicKey: PublicKey, privateKey: PrivateKey)

  /** A `java.security.Key` handed to `Cipher.init`. */
  datatype Key = Secret(secret: SecretKey) | Public(pub: PublicKey) | Private(priv: PrivateKey)
  {
    /** The modulus length in bits that `RSA` reads through the `RSAKey` cast. */
    function ModulusBits(): nat {
      match this
      case Secret(_) => 0
      case Public(k) => k.modulusBits
      case Private(k) => k.modulusBits
    }

    /** Whether the `(RSAKey)` cast succeeds: the key is an RSA public or private key. */
    predicate IsRsaKey() {
      (Public? && pub.algorithm == "RSA") || (Private? && priv.algorithm == "RSA")
    }
  }

  /** The `KeySpec` handed to `SecretKeyFactory.generateSecret`: a `DESKeySpec` over its 8 key
      bytes, or a `PBEKeySpec` over a password. */
  datatype KeySpec = DesSpec(bytes: seq<byte>) | PbeSpec(password: string)

  /** An `AlgorithmParameterSpec`: PBE salt and iteration count, or a DES initial vector. */
  datatype Params = PbeParams(salt: seq<byte>, iterations: nat) | IvParams(iv: seq<byte>)

  datatype CipherMode = EncryptMode | DecryptMode

  /** The random source `KeyPairGenerator.initialize` receives. */
  datatype Randomness = SeededRandom(seed: seq<byte>) | DefaultRandom

  /** Values drawn from `RandomUtil` and `SecureRandom`: a key draw, a 32-character password
      (`randomString(32)`) and an 8-byte salt (`randomBytes(8)`). */
  datatype RandomDraws = RandomDraws(key: nat, password: string, salt: seq<byte>)
  type Draws = d: RandomDraws | |d.password| == 32 && |d.salt| == 8
    witness RandomDraws(0, seq(32, _ => 'a'), seq(8, _ => 0))

  /** The cryptographic provider. */
  datatype Provider = Provider(
    /** `getInstance(name)` of a cipher, signature, digest, key generator or factory succeeds. */
    supports: string -> bool,
    /** The hash function of a `MessageDigest` algorithm. */
    hash: string -> (seq<byte> -> seq<byte>),
    /** `KeyFactory.generatePrivate(PKCS8EncodedKeySpec)` and `generatePublic(X509EncodedKeySpec)`. */
    decodePrivate: (string, seq<byte>) -> Result<PrivateKey>,
    decodePublic: (string, seq<byte>) -> Result<PublicKey>,
    /** Whether `SecretKeyFactory.getInstance(name).generateSecret(spec)` accepts the spec (a
        DESede factory refuses a `DESKeySpec`, a PBE factory a non-ASCII password). */
    generateSecret: (string, KeySpec) -> bool,
    /** `KeyPairGenerator.initialize(keySize[, random])` followed by `generateKeyPair()`. */
    generatePair: (string, int, Randomness, nat) -> Result<KeyPair>,
    /** Whether `Cipher.init(mode, key[, params])` accepts the key and parameters. */
    accepts: (string, CipherMode, Key, Option<Params>) -> bool,
    /** `Cipher.doFinal(data)` after a successful `init`. */
    transform: (string, CipherMode, Key, Option<Params>, seq<byte>) -> Result<seq<byte>>,
    /** `Signature.sign()` and `Signature.verify(sig)` over the bytes fed. */
    sign: (string, PrivateKey, seq<byte>) -> Result<seq<byte>>,
    verify: (string, PublicKey, seq<byte>, seq<byte>) -> Result<bool>
  )

  /** The text codecs outside the core. */
  datatype Codecs = Codecs(
    /** `String.getBytes(charset)` and `new String(bytes, charset)`. */
    encode: (Charset, string) -> seq<byte>,
    decode: (Charset, seq<byte>) -> string,
    /** commons-lang `StringUtils.split(text, null, max)`: whitespace split, at most `max` tokens. */
    splitMax: (string, int) -> seq<string>,
    /** `BCD.bcdToStr` and `BCD.ascToBcd`. */
    bcdToStr: seq<byte> -> string,
    ascToBcd: seq<byte> -> seq<byte>,
    /** `Base64Util.decodeBase64`, including whatever it makes of a null text. */
    base64Decode: Option<string> -> Option<seq<byte>>,
    /** `URLEncoder.encode(text, charset)` and `URLDecoder.decode(text, charset)`. */
    urlEncode: (string, Charset) -> string,
    urlDecode: (string, Charset) -> Result<string>
  )

  // ------------------------------------------------------------------ lock

  /** A `ReentrantLock` as seen by one thread: `held` says whether this thread holds it,
      `acquisitions` counts the calls to `lock()`. Both exist for the proof only. */
  class Lock {
    ghost var held: bool
    ghost var acquisitions: nat

    constructor()
      ensures !held && acquisitions == 0
    {
      held := false;
      acquisitions := 0;
    }

    method Acquire()
      requires !held
      modifies this
      ensures held && acquisitions == old(acquisitions) + 1
    {
      held := true;
      acquisitions := acquisitions + 1;
    }

    method Release()
      requires held
      modifies this
      ensures !held && acquisitions == old(acquisitions)
    {
      held := false;
    }
  }

  // ------------------------------------------------------------------ Cipher

  /** A `javax.crypto.Cipher` shared under `guard`: every use requires the lock held. */
  class Cipher {
    const provider: Provider
    const transformation: string
    const guard: Lock
    /** The mode, key and parameters of the last successful `init`. */
    var state: Option<(CipherMode, Key, Option<Params>)>

    constructor(provider: Provider, transformation: string, guard: Lock)
      ensures this.provider == provider && this.transformation == transformation
      ensures this.guard == guard && state.None?
    {
      this.provider := provider;
      this.transformation := transformation;
      this.guard := guard;
      state := None;
    }

    /** `Cipher.init(mode, key)` when `params` is `None`, `init(mode, key, params)`
        otherwise; a rejected key or parameter fails with `InvalidKey`. */
    method Init(mode: CipherMode, key: Key, params: Option<Params>) returns (r: Result<()>)
      requires guard.held
      modifies this
      ensures r.Ok? <==> provider.accepts(transformation, mode, key, params)
      ensures r.Fail? ==> r.error == InvalidKey && state == old(state)
      ensures r.Ok? ==> state == Some((mode, key, params))
    {
      if provider.accepts(transformation, mode, key, params) {
        state := Some((mode, key, params));
        r := Ok(());
      } else {
        r := Fail(InvalidKey);
      }
    }

    /** `Cipher.doFinal(data)`: null input fails with `IllegalArgument`. */
    method DoFinal(data: Option<seq<byte>>) returns (r: Result<seq<byte>>)
      requires guard.held && state.Some?
      ensures data.None? ==> r == Fail(IllegalArgument)
      ensures data.Some? ==>
        r == provider.transform(transformation, state.value.0, state.value.1, state.value.2, data.value)
    {
      if data.None? {
        return Fail(IllegalArgument);
      }
      r := provider.transform(transformation, state.value.0, state.value.1, state.value.2, data.value);
    }
  }

  /** What one `Cipher.init(mode, key[, params])` followed by `doFinal(data)` yields. */
  function CipherRound(p: Provider, transformation: string, mode: CipherMode, key: Key,
                       params: Option<Params>, data: Option<seq<byte>>): Result<seq<byte>>
  {
    if !p.accepts(transformation, mode, key, params) then Fail(InvalidKey)
    else if data.None? then Fail(IllegalArgument)
    else p.transform(transformation, mode, key, params, data.value)
  }

  // ------------------------------------------------------------------ Signature

  datatype SignatureState =
    | Uninitialised
    | Signing(privateKey: PrivateKey, fed: seq<byte>)
    | Verifying(publicKey: PublicKey, fed: seq<byte>)

  /** A `java.security.Signature` for one algorithm. */
  class Signature {
    const provider: Provider
    const algorithm: string
    var state: SignatureState

    constructor(provider: Provider, algorithm: string)
      ensures this.provider == provider && this.algorithm == algorithm && state == Uninitialised
    {
      this.provider := provider;
      this.algorithm := algorithm;
      state := Uninitialised;
    }

    /** `initSign(key)`: a null key fails with `InvalidKey`. */
    method InitSign(key: Option<PrivateKey>) returns (r: Result<()>)
      modifies this
      ensures key.None? ==> r == Fail(InvalidKey) && state == old(state)
      ensures key.Some? ==> r == Ok(()) && state == Signing(key.value, [])
    {
      if key.None? {
        return Fail(InvalidKey);
      }
      state := Signing(key.value, []);
      return Ok(());
    }

    /** `initVerify(key)`: a null key fails with `InvalidKey`. */
    method InitVerify(key: Option<PublicKey>) returns (r: Result<()>)
      modifies this
      ensures key.None? ==> r == Fail(InvalidKey) && state == old(state)
      ensures key.Some? ==> r == Ok(()) && state == Verifying(key.value, [])
    {
      if key.None? {
        return Fail(InvalidKey);
      }
      state := Verifying(key.value, []);
      return Ok(());
    }

    /** `update(data)`: appends to the bytes fed; an uninitialised signature fails. */
    method Update(data: seq<byte>) returns (r: Result<()>)
      modifies this
      ensures old(state).Uninitialised? ==> r == Fail(GeneralSecurity) && state == old(state)
      ensures old(state).Signing? ==>
        r == Ok(()) && state == Signing(old(state).privateKey, old(state).fed + data)
      ensures old(state).Verifying? ==>
        r == Ok(()) && state == Verifying(old(state).publicKey, old(state).fed + data)
    {
      match state
      case Uninitialised =>
        return Fail(GeneralSecurity);
      case Signing(key, fed) =>
        state := Signing(key, fed + data);
        return Ok(());
      case Verifying(key, fed) =>
        state := Verifying(key, fed + data);
        return Ok(());
    }

    /** `sign()`: signs the bytes fed and starts over with the same key. */
    method Sign() returns (r: Result<seq<byte>>)
      modifies this
      ensures !old(state).Signing? ==> r == Fail(GeneralSecurity) && state == old(state)
      ensures old(state).Signing? ==>
        r == provider.sign(algorithm, old(state).privateKey, old(state).fed)
        && state == Signing(old(state).privateKey, [])
    {
      if !state.Signing? {
        return Fail(GeneralSecurity);
      }
      r := provider.sign(algorithm, state.privateKey, state.fed);
      state := Signing(state.privateKey, []);
    }

    /** `verify(signature)`: checks the bytes fed and starts over with the same key. */
    method Verify(signature: seq<byte>) returns (r: Result<bool>)
      modifies this
      ensures !old(state).Verifying? ==> r == Fail(GeneralSecurity) && state == old(state)
      ensures old(state).Verifying? ==>
        r == provider.verify(algorithm, old(state).publicKey, old(state).fed, signature)
        && state == Verifying(old(state).publicKey, [])
    {
      if !state.Verifying? {
        return Fail(GeneralSecurity);
      }
      r := provider.verify(algorithm, state.publicKey, state.fed, signature);
      state := Verifying(state.publicKey, []);
    }
  }

  // ------------------------------------------------------------------ MessageDigest

  /** A `java.security.MessageDigest`: an accumulator of the bytes fed since the last reset,
      whose `digest()` is the algorithm's `hash` of them. */
  class MessageDigest {
    const hash: seq<byte> -> seq<byte>
    var fed: seq<byte>

    constructor(hash: seq<byte> -> seq<byte>)
      ensures this.hash == hash && fed == []
    {
      this.hash := hash;
      fed := [];
    }

    /** `update(buffer, offset, length)`. */
    method Update(buffer: array<byte>, offset: nat, length: nat)
      requires offset + length <= buffer.Length
      modifies this
      ensures fed == old(fed) + buffer[offset..offset + length]
    {
      fed := fed + buffer[offset..offset + length];
    }

    /** `digest()`: the hash of everything fed, then a reset. */
    method Digest() returns (r: seq<byte>)
      modifies this
      ensures r == hash(old(fed)) && fed == []
    {
      r := hash(fed);
      fed := [];
    }

    /** `digest(input)`: `update(input)` then `digest()`; a null input fails with a
        `NullPointerException` before anything is fed. */
    method DigestInput(input: Option<seq<byte>>) returns (r: Result<seq<byte>>)
      modifies this
      ensures input.None? ==> r == Fail(NullPointer) && fed == old(fed)
      ensures input.Some? ==> r == Ok(hash(old(fed) + input.value)) && fed == []
    {
      if input.None? {
        return Fail(NullPointer);
      }
      r := Ok(hash(fed + input.value));
      fed := [];
    }

    /** `reset()`. */
    method Reset()
      modifies this
      ensures fed == []
    {
      fed := [];
    }
  }

  // ------------------------------------------------------------------ InputStream

  /** A `java.io.InputStream` over `remaining` bytes. A read call returns at most
      `burst(k)` bytes (at least one) on its `k`-th call, and the call numbered `failAt`, if
      any, throws an `IOException`. `requests` records the length asked for by each call. */
  class InputStream {
    var remaining: seq<byte>
    var calls: nat
    const burst: nat -> nat
    const failAt: Option<nat>
    ghost var requests: seq<int>

    constructor(data: seq<byte>, burst: nat -> nat, failAt: Option<nat>)
      ensures remaining == data && calls == 0 && requests == []
      ensures this.burst == burst && this.failAt == failAt
    {
      remaining := data;
      calls := 0;
      this.burst := burst;
      this.failAt := failAt;
      requests := [];
    }

    /** `read(buffer, offset, length)`: -1 at the end of the stream, 0 when `length` is 0,
        otherwise between 1 and `length` bytes copied into `buffer[offset..]`. */
    method Read(buffer: array<byte>, offset: nat, length: nat) returns (r: Result<int>)
      requires offset + length <= buffer.Length
      modifies this, buffer
      ensures calls == old(calls) + 1 && requests == old(requests) + [length]
      ensures failAt == Some(old(calls)) ==>
        r == Fail(IO) && remaining == old(remaining) && buffer[..] == old(buffer[..])
      ensures failAt != Some(old(calls)) ==> r.Ok? && -1 <= r.value <= length
      ensures r.Ok? && r.value == -1 ==>
        old(remaining) == [] && length > 0 && remaining == [] && buffer[..] == old(buffer[..])
      ensures r.Ok? && r.value == 0 ==>
        length == 0 && remaining == old(remaining) && buffer[..] == old(buffer[..])
      ensures r.Ok? && r.value > 0 ==>
        r.value <= |old(remaining)|
        && buffer[offset..offset + r.value] == old(remaining)[..r.value]
        && remaining == old(remaining)[r.value..]
        && buffer[..offset] == old(buffer[..offset])
        && buffer[offset + r.value..] == old(buffer[offset + r.value..])
      ensures r.Ok? && old(remaining) != [] && length > 0 ==> r.value > 0
    {
      calls := calls + 1;
      requests := requests + [length];
      if failAt == Some(calls - 1) {
        return Fail(IO);
      }
      if length == 0 {
        return Ok(0);
      }
      if remaining == [] {
        return Ok(-1);
      }
      var n := burst(calls - 1);
      if n < 1 {
        n := 1;
      }
      if n > length {
        n := length;
      }
      if n > |remaining| {
        n := |remaining|;
      }
      var data := remaining;
      var k := 0;
      while k < n
        modifies buffer
        invariant 0 <= k <= n
        invariant buffer[offset..offset + k] == data[..k]
        invariant buffer[..offset] == old(buffer[..offset])
        invariant forall j :: offset + k <= j < buffer.Length ==> buffer[j] == old(buffer[j])
      {
        buffer[offset + k] := data[k];
        k := k + 1;
      }
      remaining := data[n..];
      return Ok(n);
    }
  }
}
