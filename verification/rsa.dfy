/** RSA (crypto/asymmetric/RSA.java): an `AsymmetricCrypto` over "RSA" whose `encrypt` and
    `decrypt` work piece by piece. Encryption splits the text with the splitter, encrypts
    each piece's UTF-8 bytes and appends the BCD text of each ciphertext. Decryption turns the
    text back into bytes, cuts them into key-length blocks with `ArrayUtil.split` and appends
    the UTF-8 text of each decrypted block. */
module RSA {
  import opened Wrappers
  import opened Primitives
  import opened Charsets
  import opened Platform
  import opened ArrayUtil
  import opened Asymmetric

  /** `AsymmetricAlgorithm.RSA.getValue()`. */
  const ALGORITHM_RSA: string := "RSA"

  /** RSAES-PKCS1-v1_5 encrypts at most k - 11 bytes (section 7.2.1 of RFC 8017). */
  const PKCS1_OVERHEAD: int := 11

  /** The block length in bytes: the modulus bit length divided by 8, rounded down. */
  function KeyLength(key: Key): (r: nat)
    ensures r * 8 <= key.ModulusBits() < r * 8 + 8
  {
    key.ModulusBits() / 8
  }

  // ------------------------------------------------------------------ encryption

  /** One piece: its UTF-8 bytes encrypted, the ciphertext as BCD text. */
  function EncryptPiece(p: Provider, transformation: string, key: Key, codecs: Codecs, piece: string): Result<string> {
    match p.transform(transformation, EncryptMode, key, None, codecs.encode(UTF8, piece))
    case Ok(c) => Ok(codecs.bcdToStr(c))
    case Fail(e) => Fail(e)
  }

  /** The pieces in order, their texts appended; the first failing piece fails the whole. */
  function EncryptPieces(p: Provider, transformation: string, key: Key, codecs: Codecs, pieces: seq<string>): Result<string>
    decreases |pieces|
  {
    if pieces == [] then Ok("")
    else
      var before :- EncryptPieces(p, transformation, key, codecs, pieces[..|pieces| - 1]);
      var last :- EncryptPiece(p, transformation, key, codecs, pieces[|pieces| - 1]);
      Ok(before + last)
  }

  /** Encrypting two runs of pieces gives the two texts one after the other, or the first
      failure. */
  lemma {:induction false} EncryptPiecesAppend(p: Provider, transformation: string, key: Key, codecs: Codecs,
                                               a: seq<string>, b: seq<string>)
    ensures var whole := EncryptPieces(p, transformation, key, codecs, a + b);
      var left := EncryptPieces(p, transformation, key, codecs, a);
      var right := EncryptPieces(p, transformation, key, codecs, b);
      whole == (if left.Fail? then left else if right.Fail? then right else Ok(left.value + right.value))
    decreases |b|
  {
    var left := EncryptPieces(p, transformation, key, codecs, a);
    if b == [] {
      assert a + b == a;
      if left.Ok? {
        assert left.value + "" == left.value;
      }
    } else {
      var front, last := b[..|b| - 1], b[|b| - 1];
      assert (a + b)[..|a + b| - 1] == a + front;
      assert (a + b)[|a + b| - 1] == last;
      EncryptPiecesAppend(p, transformation, key, codecs, a, front);
      var middle := EncryptPieces(p, transformation, key, codecs, front);
      var tail := EncryptPiece(p, transformation, key, codecs, last);
      if left.Ok? && middle.Ok? && tail.Ok? {
        assert left.value + (middle.value + tail.value) == left.value + middle.value + tail.value;
      }
    }
  }

  /** What `encrypt(data, keyType)` returns once the key is chosen: the key must be an RSA key,
      the cipher must accept it, null data fails, and the text is split with limit
      `keyLength - 11`. */
  function Encrypted(p: Provider, transformation: string, codecs: Codecs, key: Result<Key>, data: Option<string>): Result<string> {
    if key.Fail? then Fail(key.error)
    else if !key.value.IsRsaKey() then Fail(ClassCast)
    else if !p.accepts(transformation, EncryptMode, key.value, None) then Fail(InvalidKey)
    else if data.None? then Fail(NullPointer)
    else EncryptPieces(p, transformation, key.value, codecs,
                       codecs.splitMax(data.value, KeyLength(key.value) - PKCS1_OVERHEAD))
  }

  /** `encrypt(data, keyType)`: the key is chosen and cast to `RSAKey` before the lock, so a
      missing or non-RSA key fails without taking it; every other path releases it, and a
      failing piece leaves no partial text. */
  method Encrypt(c: AsymmetricCrypto, codecs: Codecs, data: Option<string>, keyType: KeyType) returns (r: Result<string>)
    requires c.Valid() && !c.lock.held
    modifies c.lock, c.cipher
    ensures c.Valid() && !c.lock.held
    ensures c.GetKey(keyType).Fail? ==> r == Fail(NullPointer) && c.lock.acquisitions == old(c.lock.acquisitions)
    ensures c.GetKey(keyType).Ok? && !c.GetKey(keyType).value.IsRsaKey() ==>
      r == Fail(ClassCast) && c.lock.acquisitions == old(c.lock.acquisitions)
    ensures c.GetKey(keyType).Ok? && c.GetKey(keyType).value.IsRsaKey() ==>
      c.lock.acquisitions == old(c.lock.acquisitions) + 1
    ensures r == Encrypted(c.provider, c.cipher.transformation, codecs, c.GetKey(keyType), data)
  {
    var key := c.GetKey(keyType);
    if key.Fail? {
      return Fail(key.error);
    }
    if !key.value.IsRsaKey() {
      return Fail(ClassCast);
    }
    var keyLength := KeyLength(key.value);
    c.lock.Acquire();
    var ready := c.cipher.Init(EncryptMode, key.value, None);
    if ready.Fail? {
      c.lock.Release();
      return Fail(ready.error);
    }
    if data.None? {
      c.lock.Release();
      return Fail(NullPointer);
    }
    var pieces := codecs.splitMax(data.value, keyLength - PKCS1_OVERHEAD);
    r := EncryptEach(c.cipher, codecs, key.value, pieces);
    c.lock.Release();
  }

  /** The `for (String s : datas)` loop of `encrypt`, on a cipher initialised for encryption
      with `key`: one `doFinal` per piece, stopping at the first failure. */
  method EncryptEach(cipher: Cipher, codecs: Codecs, key: Key, pieces: seq<string>) returns (r: Result<string>)
    requires cipher.guard.held && cipher.state == Some((EncryptMode, key, None))
    ensures r == EncryptPieces(cipher.provider, cipher.transformation, key, codecs, pieces)
  {
    var sb := "";
    var i := 0;
    while i < |pieces|
      invariant 0 <= i <= |pieces|
      invariant EncryptPieces(cipher.provider, cipher.transformation, key, codecs, pieces[..i]) == Ok(sb)
    {
      var block := cipher.DoFinal(Some(codecs.encode(UTF8, pieces[i])));
      assert pieces[..i + 1][..i] == pieces[..i];
      if block.Fail? {
        assert pieces == pieces[..i + 1] + pieces[i + 1..];
        EncryptPiecesAppend(cipher.provider, cipher.transformation, key, codecs, pieces[..i + 1], pieces[i + 1..]);
        return Fail(block.error);
      }
      sb := sb + codecs.bcdToStr(block.value);
      i := i + 1;
    }
    assert pieces[..i] == pieces;
    return Ok(sb);
  }

  // ------------------------------------------------------------------ decryption

  /** One block: decrypted, the plaintext read as UTF-8. */
  function DecryptBlock(p: Provider, transformation: string, key: Key, codecs: Codecs, block: seq<byte>): Result<string> {
    match p.transform(transformation, DecryptMode, key, None, block)
    case Ok(m) => Ok(codecs.decode(UTF8, m))
    case Fail(e) => Fail(e)
  }

  /** The blocks in order, their texts appended; the first failing block fails the whole. */
  function DecryptBlocks(p: Provider, transformation: string, key: Key, codecs: Codecs, blocks: seq<seq<byte>>): Result<string>
    decreases |blocks|
  {
    if blocks == [] then Ok("")
    else
      var before :- DecryptBlocks(p, transformation, key, codecs, blocks[..|blocks| - 1]);
      var last :- DecryptBlock(p, transformation, key, codecs, blocks[|blocks| - 1]);
      Ok(before + last)
  }

  /** Decrypting two runs of blocks gives the two texts one after the other, or the first
      failure. */
  lemma {:induction false} DecryptBlocksAppend(p: Provider, transformation: string, key: Key, codecs: Codecs,
                                               a: seq<seq<byte>>, b: seq<seq<byte>>)
    ensures var whole := DecryptBlocks(p, transformation, key, codecs, a + b);
      var left := DecryptBlocks(p, transformation, key, codecs, a);
      var right := DecryptBlocks(p, transformation, key, codecs, b);
      whole == (if left.Fail? then left else if right.Fail? then right else Ok(left.value + right.value))
    decreases |b|
  {
    var left := DecryptBlocks(p, transformation, key, codecs, a);
    if b == [] {
      assert a + b == a;
      if left.Ok? {
        assert left.value + "" == left.value;
      }
    } else {
      var front, last := b[..|b| - 1], b[|b| - 1];
      assert (a + b)[..|a + b| - 1] == a + front;
      assert (a + b)[|a + b| - 1] == last;
      DecryptBlocksAppend(p, transformation, key, codecs, a, front);
      var middle := DecryptBlocks(p, transformation, key, codecs, front);
      var tail := DecryptBlock(p, transformation, key, codecs, last);
      if left.Ok? && middle.Ok? && tail.Ok? {
        assert left.value + (middle.value + tail.value) == left.value + middle.value + tail.value;
      }
    }
  }

  /** The bytes `decrypt` works on: the BCD value of the text's UTF-8 bytes. */
  function CipherBytes(codecs: Codecs, data: string): seq<byte> {
    codecs.ascToBcd(codecs.encode(UTF8, data))
  }

  /** What `decrypt(data, keyType)` returns once the key is chosen: the key must be an RSA
      key and the cipher must accept it, a key shorter than 8 bits makes `split` divide by
      zero, and the bytes are cut into key-length blocks, the last one padded with zeros. */
  function Decrypted(p: Provider, transformation: string, codecs: Codecs, key: Result<Key>, data: string): Result<string> {
    if key.Fail? then Fail(key.error)
    else if !key.value.IsRsaKey() then Fail(ClassCast)
    else if !p.accepts(transformation, DecryptMode, key.value, None) then Fail(InvalidKey)
    else if KeyLength(key.value) == 0 then Fail(Arithmetic)
    else DecryptBlocks(p, transformation, key.value, codecs, Chunks(CipherBytes(codecs, data), KeyLength(key.value)))
  }

  /** A successful decryption decrypts `ceil(n / keyLength)` blocks of exactly `keyLength`
      bytes, which laid end to end start with the `n` bytes (the rest is zero padding). */
  lemma DecryptedBlocks(p: Provider, transformation: string, codecs: Codecs, key: Key, data: string)
    requires Decrypted(p, transformation, codecs, Ok(key), data).Ok?
    ensures KeyLength(key) > 0
    ensures var blocks := Chunks(CipherBytes(codecs, data), KeyLength(key));
      var n := |CipherBytes(codecs, data)|;
      |blocks| == ChunkCount(n, KeyLength(key))
      && (forall k :: 0 <= k < |blocks| ==> |blocks[k]| == KeyLength(key))
      && |Flatten(blocks)| >= n && Flatten(blocks)[..n] == CipherBytes(codecs, data)
      && Decrypted(p, transformation, codecs, Ok(key), data)
         == DecryptBlocks(p, transformation, key, codecs, blocks)
  {
    var blocks := Chunks(CipherBytes(codecs, data), KeyLength(key));
    ChunksCount(CipherBytes(codecs, data), KeyLength(key));
    ChunksFlatten(CipherBytes(codecs, data), KeyLength(key));
  }

  /** `decrypt(data, keyType)`: the key is chosen and cast to `RSAKey` before the lock; the blocks come from
      `ArrayUtil.split`; a failing block leaves no partial text; the lock is released on
      every path that took it. */
  method Decrypt(c: AsymmetricCrypto, codecs: Codecs, data: string, keyType: KeyType) returns (r: Result<string>)
    requires c.Valid() && !c.lock.held
    modifies c.lock, c.cipher
    ensures c.Valid() && !c.lock.held
    ensures c.GetKey(keyType).Fail? ==> r == Fail(NullPointer) && c.lock.acquisitions == old(c.lock.acquisitions)
    ensures c.GetKey(keyType).Ok? && !c.GetKey(keyType).value.IsRsaKey() ==>
      r == Fail(ClassCast) && c.lock.acquisitions == old(c.lock.acquisitions)
    ensures c.GetKey(keyType).Ok? && c.GetKey(keyType).value.IsRsaKey() ==>
      c.lock.acquisitions == old(c.lock.acquisitions) + 1
    ensures r == Decrypted(c.provider, c.cipher.transformation, codecs, c.GetKey(keyType), data)
  {
    var key := c.GetKey(keyType);
    if key.Fail? {
      return Fail(key.error);
    }
    if !key.value.IsRsaKey() {
      return Fail(ClassCast);
    }
    var keyLength := KeyLength(key.value);
    c.lock.Acquire();
    var ready := c.cipher.Init(DecryptMode, key.value, None);
    if ready.Fail? {
      c.lock.Release();
      return Fail(ready.error);
    }
    var bcd := CipherBytes(codecs, data);
    if keyLength == 0 {
      c.lock.Release();
      return Fail(Arithmetic);
    }
    var bytes := new byte[|bcd|](k requires 0 <= k < |bcd| => bcd[k]);
    assert bytes[..] == bcd;
    var arrays := Split(bytes, keyLength);
    r := DecryptEach(c.cipher, codecs, key.value, arrays, Chunks(bcd, keyLength));
    c.lock.Release();
  }

  /** The `for (byte[] arr : arrays)` loop of `decrypt`, on a cipher initialised for
      decryption with `key`: one `doFinal` per block, stopping at the first failure. */
  method DecryptEach(cipher: Cipher, codecs: Codecs, key: Key, arrays: array<array?<byte>>, ghost blocks: seq<seq<byte>>)
    returns (r: Result<string>)
    requires cipher.guard.held && cipher.state == Some((DecryptMode, key, None))
    requires arrays.Length == |blocks|
    requires forall k :: 0 <= k < arrays.Length ==> arrays[k] != null && arrays[k][..] == blocks[k]
    ensures r == DecryptBlocks(cipher.provider, cipher.transformation, key, codecs, blocks)
  {
    var sb := "";
    var i := 0;
    while i < arrays.Length
      invariant 0 <= i <= arrays.Length
      invariant DecryptBlocks(cipher.provider, cipher.transformation, key, codecs, blocks[..i]) == Ok(sb)
    {
      var plain := cipher.DoFinal(Some(arrays[i][..]));
      assert blocks[..i + 1][..i] == blocks[..i];
      if plain.Fail? {
        assert blocks == blocks[..i + 1] + blocks[i + 1..];
        DecryptBlocksAppend(cipher.provider, cipher.transformation, key, codecs, blocks[..i + 1], blocks[i + 1..]);
        return Fail(plain.error);
      }
      sb := sb + codecs.decode(UTF8, plain.value);
      i := i + 1;
    }
    assert blocks[..i] == blocks;
    return Ok(sb);
  }

  // ------------------------------------------------------------------ constructors

  /** `RSA()`, `RSA(String, String)` after Base64 decoding, and `RSA(byte[], byte[])`: an
      `AsymmetricCrypto` over "RSA"; with both keys null a fresh pair is generated. */
  method New(p: Provider, privateKey: Option<seq<byte>>, publicKey: Option<seq<byte>>, draw: nat)
    returns (r: Result<AsymmetricCrypto>)
    ensures r.Ok? <==> Constructs(p, ALGORITHM_RSA, privateKey, publicKey, draw)
    ensures r.Ok? ==>
      fresh(r.value) && r.value.Valid() && !r.value.lock.held
      && r.value.algorithm == ALGORITHM_RSA && r.value.cipher.transformation == ALGORITHM_RSA
      && r.value.signature != null && r.value.signature.algorithm == "MD5withRSA"
      && r.value.Keys() == KeyStep(p, ALGORITHM_RSA, privateKey, publicKey, KeyState(None, None), draw).keys
    ensures r.Ok? && privateKey.None? && publicKey.None? ==>
      r.value.publicKey.Some? && r.value.privateKey.Some?
  {
    r := Asymmetric.New(p, ALGORITHM_RSA, privateKey, publicKey, draw);
  }
}
