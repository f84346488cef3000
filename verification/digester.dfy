/** The digest driver (crypto/digest/Digester.java): one-shot and streaming hashing over a
    `MessageDigest` that is reset after every call, on success and on failure alike. The hash
    functions themselves (MD5 of RFC 1321, SHA-1 and SHA-256 of FIPS 180-4) stay abstract. */
module Digester {
  import opened Wrappers
  import opened Primitives
  import opened Charsets
  import opened Platform
  import opened CharsetUtil
  import Hex

  /** `IoUtil.DEFAULT_BUFFER_SIZE`. */
  const DEFAULT_BUFFER_SIZE: int := 1024 * 4

  class Digester {
    var digest: MessageDigest

    /** The object once the constructor's `init(algorithm)` has found the algorithm: a fresh,
        empty digest of its hash function. */
    constructor(provider: Provider, algorithm: string)
      requires provider.supports(algorithm)
      ensures fresh(digest) && digest.hash == provider.hash(algorithm) && digest.fed == []
    {
      digest := new MessageDigest(provider.hash(algorithm));
    }

    /** `init(algorithm)`: a fresh `MessageDigest`, or `NoSuchAlgorithm` leaving the old one. */
    method Init(provider: Provider, algorithm: string) returns (r: Result<()>)
      modifies this
      ensures provider.supports(algorithm) ==>
        r == Ok(()) && fresh(digest) && digest.hash == provider.hash(algorithm) && digest.fed == []
      ensures !provider.supports(algorithm) ==> r == Fail(NoSuchAlgorithm) && digest == old(digest)
    {
      if !provider.supports(algorithm) {
        return Fail(NoSuchAlgorithm);
      }
      digest := new MessageDigest(provider.hash(algorithm));
      return Ok(());
    }

    // ---------------------------------------------------------------- bytes

    /** `digestBytes(byte[])`: the hash of the bytes, the digest reset in `finally`; null
        data fails with a `NullPointerException`, and is reset all the same. */
    method DigestBytes(data: Option<seq<byte>>) returns (r: Result<seq<byte>>)
      modifies digest
      ensures digest.fed == []
      ensures data.None? ==> r == Fail(NullPointer)
      ensures data.Some? ==> r == Ok(digest.hash(old(digest.fed) + data.value))
      ensures data.Some? && old(digest.fed) == [] ==> r == Ok(digest.hash(data.value))
    {
      r := digest.DigestInput(data);
      digest.Reset();
      if data.Some? {
        assert [] + data.value == data.value;
      }
    }

    /** Because of the reset, hashing the same bytes twice on one instance gives the same
        digest, and the first call does not disturb the second. */
    method DigestBytesTwice(data: seq<byte>) returns (first: Result<seq<byte>>, second: Result<seq<byte>>)
      modifies digest
      ensures first == Ok(digest.hash(old(digest.fed) + data))
      ensures second == Ok(digest.hash(data)) && digest.fed == []
      ensures old(digest.fed) == [] ==> first == second
    {
      first := DigestBytes(Some(data));
      second := DigestBytes(Some(data));
    }

    /** `digest(byte[])`: the hexadecimal form of `digestBytes(byte[])`. */
    method DigestBytesHex(data: Option<seq<byte>>) returns (r: Result<string>)
      modifies digest
      ensures digest.fed == []
      ensures data.None? ==> r == Fail(NullPointer)
      ensures data.Some? ==> r == Ok(Hex.Encode(digest.hash(old(digest.fed) + data.value)))
    {
      var bytes := DigestBytes(data);
      r := Hex.EncodeResult(bytes);
    }

    // ---------------------------------------------------------------- text

    /** `digestBytes(String data, String charset)`: the text encoded with the named charset
        (UTF-8 when blank) and hashed. An unknown charset fails before the digest is touched;
        null text fails inside `digestBytes(byte[])`, after which the digest is reset. */
    method DigestText(codecs: Codecs, data: Option<string>, charset: Option<string>)
      returns (r: Result<seq<byte>>)
      modifies digest
      ensures CharsetOf(charset).Fail? ==> r == Fail(UnknownCharset) && digest.fed == old(digest.fed)
      ensures CharsetOf(charset).Ok? ==> digest.fed == []
      ensures CharsetOf(charset).Ok? && data.None? ==> r == Fail(NullPointer)
      ensures CharsetOf(charset).Ok? && data.Some? ==>
        r == Ok(digest.hash(old(digest.fed) + codecs.encode(CharsetOf(charset).value, data.value)))
    {
      var bytes := StringBytes(codecs, data, charset);
      if bytes.Fail? {
        return Fail(bytes.error);
      }
      r := DigestBytes(bytes.value);
    }

    /** `digestBytes(String)`: `digestBytes(data, "UTF-8")`. */
    method DigestTextUtf8(codecs: Codecs, data: Option<string>) returns (r: Result<seq<byte>>)
      modifies digest
      ensures digest.fed == []
      ensures data.None? ==> r == Fail(NullPointer)
      ensures data.Some? ==> r == Ok(digest.hash(old(digest.fed) + codecs.encode(UTF8, data.value)))
    {
      CharsetOfValue(UTF8);
      r := DigestText(codecs, data, Some(UTF8.Value()));
    }

    /** `digest(String data, String charset)`: the hexadecimal form of `digestBytes(data, charset)`. */
    method DigestTextHex(codecs: Codecs, data: Option<string>, charset: Option<string>)
      returns (r: Result<string>)
      modifies digest
      ensures CharsetOf(charset).Fail? ==> r == Fail(UnknownCharset) && digest.fed == old(digest.fed)
      ensures CharsetOf(charset).Ok? ==> digest.fed == []
      ensures CharsetOf(charset).Ok? && data.None? ==> r == Fail(NullPointer)
      ensures CharsetOf(charset).Ok? && data.Some? ==>
        r == Ok(Hex.Encode(digest.hash(old(digest.fed) + codecs.encode(CharsetOf(charset).value, data.value))))
    {
      var bytes := DigestText(codecs, data, charset);
      r := Hex.EncodeResult(bytes);
    }

    /** `digest(String)`: `digest(data, "UTF-8")`. */
    method DigestTextHexUtf8(codecs: Codecs, data: Option<string>) returns (r: Result<string>)
      modifies digest
      ensures digest.fed == []
      ensures data.None? ==> r == Fail(NullPointer)
      ensures data.Some? ==> r == Ok(Hex.Encode(digest.hash(old(digest.fed) + codecs.encode(UTF8, data.value))))
    {
      CharsetOfValue(UTF8);
      r := DigestTextHex(codecs, data, Some(UTF8.Value()));
    }

    // ---------------------------------------------------------------- streams

    /** `digestBytes(InputStream, int)`: a `bufferLength` below 1 means 4096; every read asks
        for that many bytes; each chunk read is fed in order until `read` returns -1, so the
        result is the hash of the whole stream, whatever the buffer length and however the
        stream splits its reads. An `IOException` surfaces as a failure; the digest is reset
        on both paths. */
    method DigestStream(data: InputStream, bufferLength: int) returns (r: Result<seq<byte>>)
      modifies digest, data
      ensures digest.fed == []
      ensures r.Ok? ==> r.value == digest.hash(old(digest.fed) + old(data.remaining)) && data.remaining == []
      ensures r.Fail? ==> r.error == IO
      ensures data.failAt.None? || data.failAt.value < old(data.calls) ==> r.Ok?
      ensures |data.requests| > |old(data.requests)|
      ensures forall k :: |old(data.requests)| <= k < |data.requests| ==>
        data.requests[k] == (if bufferLength < 1 then DEFAULT_BUFFER_SIZE else bufferLength)
    {
      var length := bufferLength;
      if length < 1 {
        length := DEFAULT_BUFFER_SIZE;
      }
      var fedAll := FeedStream(data, length);
      if fedAll.Fail? {
        digest.Reset();
        return Fail(IO);
      }
      var result := digest.Digest();
      digest.Reset();
      return Ok(result);
    }

    /** The read loop of `digestBytes(InputStream, int)`: reads of `length` bytes into one
        buffer, each chunk fed to the digest, until `read` returns -1 or throws. */
    method FeedStream(data: InputStream, length: nat) returns (r: Result<()>)
      requires length > 0
      modifies digest, data
      ensures r.Ok? ==> data.remaining == [] && digest.fed == old(digest.fed) + old(data.remaining)
      ensures r.Fail? ==> r.error == IO
      ensures data.failAt.None? || data.failAt.value < old(data.calls) ==> r.Ok?
      ensures |data.requests| > |old(data.requests)|
      ensures forall k :: |old(data.requests)| <= k < |data.requests| ==> data.requests[k] == length
    {
      ghost var total := digest.fed + data.remaining;
      var buffer := new byte[length];
      var read := data.Read(buffer, 0, length);
      while read.Ok? && read.value > -1
        invariant buffer.Length == length
        invariant read.Ok? ==> -1 <= read.value <= length && read.value != 0
        invariant read.Ok? && read.value > 0 ==> digest.fed + buffer[..read.value] + data.remaining == total
        invariant read.Ok? && read.value == -1 ==> data.remaining == [] && digest.fed == total
        invariant data.calls > old(data.calls)
        invariant data.failAt.None? || data.failAt.value < old(data.calls) ==> read.Ok?
        invariant |data.requests| > |old(data.requests)|
        invariant forall k :: |old(data.requests)| <= k < |data.requests| ==> data.requests[k] == length
        decreases |data.remaining| + (if read.Ok? && read.value > -1 then 1 else 0)
      {
        digest.Update(buffer, 0, read.value);
        assert digest.fed + data.remaining == total;
        ghost var rest := data.remaining;
        read := data.Read(buffer, 0, length);
        if read.Ok? && read.value > 0 {
          assert rest == buffer[..read.value] + data.remaining;
        }
      }
      if read.Fail? {
        return Fail(IO);
      }
      return Ok(());
    }

    /** `digestBytes(InputStream)`: `digestBytes(data, IoUtil.DEFAULT_BUFFER_SIZE)`. */
    method DigestStreamDefault(data: InputStream) returns (r: Result<seq<byte>>)
      modifies digest, data
      ensures digest.fed == []
      ensures r.Ok? ==> r.value == digest.hash(old(digest.fed) + old(data.remaining))
      ensures r.Fail? ==> r.error == IO
      ensures data.failAt.None? || data.failAt.value < old(data.calls) ==> r.Ok?
      ensures forall k :: |old(data.requests)| <= k < |data.requests| ==> data.requests[k] == DEFAULT_BUFFER_SIZE
    {
      r := DigestStream(data, DEFAULT_BUFFER_SIZE);
    }

    /** `digest(InputStream, int)`: the hexadecimal form of `digestBytes(data, bufferLength)`. */
    method DigestStreamHex(data: InputStream, bufferLength: int) returns (r: Result<string>)
      modifies digest, data
      ensures digest.fed == []
      ensures r.Ok? ==> r.value == Hex.Encode(digest.hash(old(digest.fed) + old(data.remaining)))
      ensures r.Fail? ==> r.error == IO
      ensures data.failAt.None? || data.failAt.value < old(data.calls) ==> r.Ok?
    {
      var bytes := DigestStream(data, bufferLength);
      r := Hex.EncodeResult(bytes);
    }

    /** `digest(InputStream)`: `digest(data, IoUtil.DEFAULT_BUFFER_SIZE)` in effect. */
    method DigestStreamHexDefault(data: InputStream) returns (r: Result<string>)
      modifies digest, data
      ensures digest.fed == []
      ensures r.Ok? ==> r.value == Hex.Encode(digest.hash(old(digest.fed) + old(data.remaining)))
      ensures r.Fail? ==> r.error == IO
      ensures data.failAt.None? || data.failAt.value < old(data.calls) ==> r.Ok?
    {
      var bytes := DigestStreamDefault(data);
      r := Hex.EncodeResult(bytes);
    }

    /** Streaming equals one-shot hashing: for a stream that does not fail, any buffer length
        gives the digest `digestBytes(byte[])` gives for the stream's bytes. */
    method StreamMatchesBytes(data: InputStream, bufferLength: int)
      returns (streamed: Result<seq<byte>>, whole: Result<seq<byte>>)
      requires data.failAt.None?
      modifies digest, data
      ensures streamed.Ok? && whole.Ok?
      ensures old(digest.fed) == [] ==> streamed == whole
    {
      var all := data.remaining;
      streamed := DigestStream(data, bufferLength);
      whole := DigestBytes(Some(all));
    }
  }

  /** `new Digester(algorithm)`: the constructor's `init` throws for an unknown algorithm, so
      no object is handed out then. */
  method New(provider: Provider, algorithm: string) returns (r: Result<Digester>)
    ensures r.Ok? <==> provider.supports(algorithm)
    ensures r.Fail? ==> r.error == NoSuchAlgorithm
    ensures r.Ok? ==>
      fresh(r.value) && fresh(r.value.digest)
      && r.value.digest.hash == provider.hash(algorithm) && r.value.digest.fed == []
  {
    if !provider.supports(algorithm) {
      return Fail(NoSuchAlgorithm);
    }
    var d := new Digester(provider, algorithm);
    return Ok(d);
  }
}
