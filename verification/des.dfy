/** DES (crypto/symmetric/DES.java): a `SymmetricCrypto` whose transformation is "DES" or
    "DES/<mode>/<padding>", plus `setIv`. Java's subclassing becomes functions that build the
    constructor arguments and methods that call `Symmetric.New` with them. */
module DES {
  import opened Wrappers
  import opened Primitives
  import opened Text
  import opened Platform
  import opened CryptoUtil
  import opened Symmetric

  /** `SymmetricAlgorithm.DES.getValue()`. */
  const DES_ALGORITHM: string := "DES"

  /** The block-cipher modes of crypto/Mode.java. */
  datatype Mode = NONE | CBC | CFB | CTR | CTS | ECB | OFB | PCBC
  {
    /** `name()`: the constant's own name. */
    function Name(): (r: string)
      ensures r != [] && '/' !in r
    {
      match this
      case NONE => "NONE"
      case CBC => "CBC"
      case CFB => "CFB"
      case CTR => "CTR"
      case CTS => "CTS"
      case ECB => "ECB"
      case OFB => "OFB"
      case PCBC => "PCBC"
    }
  }

  /** The paddings of crypto/Padding.java. */
  datatype Padding = NoPadding | ISO10126Padding | OAEPPadding | PKCS1Padding | PKCS5Padding | SSL3Padding
  {
    /** `name()`: the constant's own name. */
    function Name(): (r: string)
      ensures r != [] && '/' !in r
    {
      match this
      case NoPadding => "NoPadding"
      case ISO10126Padding => "ISO10126Padding"
      case OAEPPadding => "OAEPPadding"
      case PKCS1Padding => "PKCS1Padding"
      case PKCS5Padding => "PKCS5Padding"
      case SSL3Padding => "SSL3Padding"
    }
  }

  /** Distinct constants have distinct names. */
  lemma NamesInjective(m1: Mode, m2: Mode, p1: Padding, p2: Padding)
    ensures m1.Name() == m2.Name() ==> m1 == m2
    ensures p1.Name() == p2.Name() ==> p1 == p2
  {
  }

  /** `StringUtil.format("DES/{}/{}", mode, padding)`. */
  function Transformation(mode: string, padding: string): (r: string)
    ensures r == Join([DES_ALGORITHM, mode, padding], "/")
    ensures r[..|DES_ALGORITHM| + 1] == "DES/"
  {
    var items := [DES_ALGORITHM, mode, padding];
    assert items[1..][1..] == [padding];
    assert Join(items[1..], "/") == mode + "/" + padding;
    DES_ALGORITHM + "/" + mode + "/" + padding
  }

  /** The transformation splits back at '/' into "DES", the mode and the padding, whenever
      the two names are non-empty and free of '/' — as every `Mode` and `Padding` name is. */
  lemma TransformationFields(mode: string, padding: string)
    requires mode != [] && '/' !in mode && padding != [] && '/' !in padding
    ensures Split(Transformation(mode, padding), '/') == [DES_ALGORITHM, mode, padding]
  {
    var items := [DES_ALGORITHM, mode, padding];
    assert forall k :: 0 <= k < |items| ==> items[k] != [] && '/' !in items[k];
    SplitJoin(items, '/');
  }

  /** So a `Mode`/`Padding` pair is recovered from its transformation. */
  lemma TransformationDetermines(m1: Mode, p1: Padding, m2: Mode, p2: Padding)
    requires Transformation(m1.Name(), p1.Name()) == Transformation(m2.Name(), p2.Name())
    ensures m1 == m2 && p1 == p2
  {
    TransformationFields(m1.Name(), p1.Name());
    TransformationFields(m2.Name(), p2.Name());
    NamesInjective(m1, m2, p1, p2);
  }

  /** `DES()` and `DES(key)`: plain "DES"; no key means a random one. */
  method New(p: Provider, codecs: Codecs, key: Option<seq<byte>>, draws: Draws) returns (r: Result<SymmetricCrypto>)
    ensures GenerateKey(p, codecs, Some(DES_ALGORITHM), key, draws).Fail? ==>
      r == Fail(GenerateKey(p, codecs, Some(DES_ALGORITHM), key, draws).error)
    ensures GenerateKey(p, codecs, Some(DES_ALGORITHM), key, draws).Ok? ==> (r.Ok? <==> p.supports(DES_ALGORITHM))
    ensures r.Ok? ==>
      fresh(r.value) && r.value.Valid() && !r.value.lock.held && r.value.provider == p
      && r.value.cipher.transformation == DES_ALGORITHM && r.value.params.None?
      && r.value.secretKey == Some(GenerateKey(p, codecs, Some(DES_ALGORITHM), key, draws).value)
    ensures r.Ok? && key.None? ==> r.value.secretKey == Some(GeneratedKey(DES_ALGORITHM, draws.key))
  {
    r := Symmetric.New(p, codecs, Some(DES_ALGORITHM), key, draws);
  }

  /** `DES(String mode, String padding, byte[] key)` and `DES(mode, padding)` (a null key). */
  method NewNamed(p: Provider, codecs: Codecs, mode: string, padding: string, key: Option<seq<byte>>, draws: Draws)
    returns (r: Result<SymmetricCrypto>)
    ensures GenerateKey(p, codecs, Some(Transformation(mode, padding)), key, draws).Fail? ==>
      r == Fail(GenerateKey(p, codecs, Some(Transformation(mode, padding)), key, draws).error)
    ensures GenerateKey(p, codecs, Some(Transformation(mode, padding)), key, draws).Ok? ==>
      (r.Ok? <==> p.supports(Transformation(mode, padding)))
    ensures r.Ok? ==>
      GenerateKey(p, codecs, Some(Transformation(mode, padding)), key, draws).Ok?
      && fresh(r.value) && r.value.Valid() && !r.value.lock.held && r.value.provider == p
      && r.value.cipher.transformation == Transformation(mode, padding) && r.value.params.None?
      && r.value.secretKey == Some(GenerateKey(p, codecs, Some(Transformation(mode, padding)), key, draws).value)
    ensures r.Ok? && key.None? ==> r.value.secretKey == Some(GeneratedKey(Transformation(mode, padding), draws.key))
  {
    var t := Transformation(mode, padding);
    assert t[0] == t[..4][0] == 'D';
    r := Symmetric.New(p, codecs, Some(Transformation(mode, padding)), key, draws);
  }

  /** `DES(Mode, Padding, byte[] key)` and `DES(Mode, Padding)`: the constants' names. */
  method NewWithMode(p: Provider, codecs: Codecs, mode: Mode, padding: Padding, key: Option<seq<byte>>, draws: Draws)
    returns (r: Result<SymmetricCrypto>)
    ensures GenerateKey(p, codecs, Some(Transformation(mode.Name(), padding.Name())), key, draws).Fail? ==>
      r == Fail(GenerateKey(p, codecs, Some(Transformation(mode.Name(), padding.Name())), key, draws).error)
    ensures GenerateKey(p, codecs, Some(Transformation(mode.Name(), padding.Name())), key, draws).Ok? ==>
      (r.Ok? <==> p.supports(Transformation(mode.Name(), padding.Name())))
    ensures r.Ok? ==>
      GenerateKey(p, codecs, Some(Transformation(mode.Name(), padding.Name())), key, draws).Ok?
      && fresh(r.value) && r.value.Valid() && !r.value.lock.held && r.value.provider == p
      && r.value.cipher.transformation == Transformation(mode.Name(), padding.Name()) && r.value.params.None?
      && Split(r.value.cipher.transformation, '/') == [DES_ALGORITHM, mode.Name(), padding.Name()]
      && r.value.secretKey == Some(GenerateKey(p, codecs, Some(Transformation(mode.Name(), padding.Name())), key, draws).value)
  {
    TransformationFields(mode.Name(), padding.Name());
    r := NewNamed(p, codecs, mode.Name(), padding.Name(), key, draws);
  }

  /** `setIv(iv)`: the IV becomes the parameters, through `setParams`; a null IV clears them. */
  method SetIv(c: SymmetricCrypto, iv: Option<seq<byte>>) returns (self: SymmetricCrypto)
    modifies c
    ensures self == c
    ensures c.params == (if iv.None? then None else Some(IvParams(iv.value)))
    ensures c.secretKey == old(c.secretKey) && c.cipher == old(c.cipher)
  {
    self := c.SetParams(if iv.None? then None else Some(IvParams(iv.value)));
  }
}
