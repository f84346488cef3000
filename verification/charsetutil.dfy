/** Character-set helpers (util/CharsetUtil.java) and the charset-defaulting string encoder
    of util/StringUtil.java that the crypto classes call. */
module CharsetUtil {
  import opened Wrappers
  import opened Primitives
  import opened Text
  import opened Charsets
  import opened Platform

  /** `CharsetUtil.charset(name)`: UTF-8 for a blank name, otherwise `Charset.parse`. */
  function CharsetOf(charsetName: Option<string>): (r: Result<Charset>)
    ensures IsBlank(charsetName) ==> r == Ok(UTF8)
    ensures !IsBlank(charsetName) ==> r == Parse(charsetName)
  {
    if IsBlank(charsetName) then Ok(UTF8) else Parse(charsetName)
  }

  /** Every constant's own name selects it. */
  lemma CharsetOfValue(c: Charset)
    ensures CharsetOf(Some(c.Value())) == Ok(c)
  {
    ParseValue(c);
  }

  /** `CharsetUtil.convert(source, Charset, Charset)`: a null charset means UTF-8; a blank
      source, or equal charsets, come back unchanged; otherwise the text is encoded with the
      source charset and decoded with the target one. */
  function Convert(codecs: Codecs, source: Option<string>, srcCharset: Option<Charset>,
                   destCharset: Option<Charset>): (r: Option<string>)
    ensures IsBlank(source) ==> r == source
    ensures srcCharset.GetOr(UTF8) == destCharset.GetOr(UTF8) ==> r == source
    ensures !IsBlank(source) && srcCharset.GetOr(UTF8) != destCharset.GetOr(UTF8) ==>
      r == Some(codecs.decode(destCharset.GetOr(UTF8), codecs.encode(srcCharset.GetOr(UTF8), source.value)))
  {
    var src := if srcCharset.None? then UTF8 else srcCharset.value;
    var dest := if destCharset.None? then UTF8 else destCharset.value;
    if IsBlank(source) || src == dest then source
    else Some(codecs.decode(dest, codecs.encode(src, source.value)))
  }

  /** `CharsetUtil.convert(source, String, String)`: both names are parsed first, so an
      unknown or null name fails even for a blank source. */
  function ConvertNamed(codecs: Codecs, source: Option<string>, srcCharset: Option<string>,
                        destCharset: Option<string>): (r: Result<Option<string>>)
    ensures Parse(srcCharset).Fail? || Parse(destCharset).Fail? <==> r == Fail(UnknownCharset)
    ensures r.Ok? ==>
      r.value == Convert(codecs, source, Some(Parse(srcCharset).value), Some(Parse(destCharset).value))
  {
    var src :- Parse(srcCharset);
    var dest :- Parse(destCharset);
    Ok(Convert(codecs, source, Some(src), Some(dest)))
  }

  /** Two names for the same character set, such as `"utf8"` and `"UTF-8"`, leave any text
      unchanged. */
  lemma ConvertNamedAliases(codecs: Codecs, source: Option<string>, a: string, b: string)
    requires Parse(Some(a)).Ok? && Parse(Some(a)) == Parse(Some(b))
    ensures ConvertNamed(codecs, source, Some(a), Some(b)) == Ok(source)
  {
  }

  /** `StringUtil.bytes(str, charsetName)`: the charset is chosen first (UTF-8 when the name
      is blank, so an unknown name fails even for null text); null text gives null. */
  function StringBytes(codecs: Codecs, str: Option<string>, charsetName: Option<string>)
    : (r: Result<Option<seq<byte>>>)
    ensures r.Fail? <==> CharsetOf(charsetName).Fail?
    ensures r.Ok? ==> (r.value.None? <==> str.None?)
    ensures r.Ok? && str.Some? ==> r.value.value == codecs.encode(CharsetOf(charsetName).value, str.value)
  {
    var charset :- CharsetOf(charsetName);
    if str.None? then Ok(None) else Ok(Some(codecs.encode(charset, str.value)))
  }

  /** The UTF-8 name the string overloads pass selects UTF-8. */
  lemma StringBytesUtf8(codecs: Codecs, str: Option<string>)
    ensures StringBytes(codecs, str, Some("UTF-8")).Ok?
    ensures str.Some? ==> StringBytes(codecs, str, Some("UTF-8")).value == Some(codecs.encode(UTF8, str.value))
  {
    CharsetOfValue(UTF8);
  }
}
