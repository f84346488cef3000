/** The three character sets the framework names (enums/Charset.java) and their parser. */
module Charsets {
  import opened Wrappers
  import opened Text

  datatype Charset = ISO88591 | UTF8 | GBK {
    /** `value()`: the JVM name of the character set. */
    function Value(): (r: string)
      ensures r != [] && !IsWhitespace(r[0])
    {
      match this
      case ISO88591 => "ISO-8859-1"
      case UTF8 => "UTF-8"
      case GBK => "GBK"
    }

    /** `defaultCharset()`: UTF-8 whatever the receiver. */
    function DefaultCharset(): (r: Charset)
      ensures r.Value() == "UTF-8"
    {
      UTF8
    }
  }

  /** Every name `parse` accepts (in any letter case), with the constant it maps to. */
  const ALIASES: seq<(string, Charset)> := [
    ("ISO-8859-1", ISO88591), ("ISO8859-1", ISO88591), ("ISO88591", ISO88591),
    ("UTF-8", UTF8), ("UTF8", UTF8),
    ("GBK", GBK)
  ]

  /** `Charset.parse`: a chain of case-insensitive comparisons; anything else, null
      included, fails with "cannot find charset". */
  function Parse(charset: Option<string>): (r: Result<Charset>)
    ensures charset.None? ==> r == Fail(UnknownCharset)
    ensures r.Fail? ==> r.error == UnknownCharset
  {
    if EqualsIgnoreCase(ISO88591.Value(), charset) || EqualsIgnoreCase("ISO8859-1", charset)
       || EqualsIgnoreCase("ISO88591", charset) then Ok(ISO88591)
    else if EqualsIgnoreCase(UTF8.Value(), charset) || EqualsIgnoreCase("UTF8", charset) then Ok(UTF8)
    else if EqualsIgnoreCase(GBK.Value(), charset) then Ok(GBK)
    else Fail(UnknownCharset)
  }

  /** `parse` agrees with the alias table: it succeeds exactly on a name that matches an
      alias ignoring case, and then yields that alias's constant. */
  lemma ParseMatchesAliases(charset: Option<string>)
    ensures Parse(charset).Ok? <==>
      exists i :: 0 <= i < |ALIASES| && EqualsIgnoreCase(ALIASES[i].0, charset)
    ensures forall i :: 0 <= i < |ALIASES| && EqualsIgnoreCase(ALIASES[i].0, charset) ==>
      Parse(charset) == Ok(ALIASES[i].1)
  {
    forall i | 0 <= i < |ALIASES| && EqualsIgnoreCase(ALIASES[i].0, charset)
      ensures Parse(charset) == Ok(ALIASES[i].1)
    {
      AliasesDisjoint(i, charset);
    }
    if Parse(charset).Ok? {
      var c := Parse(charset).value;
      if EqualsIgnoreCase("ISO-8859-1", charset) {
        assert ALIASES[0].0 == "ISO-8859-1";
      } else if EqualsIgnoreCase("ISO8859-1", charset) {
        assert ALIASES[1].0 == "ISO8859-1";
      } else if EqualsIgnoreCase("ISO88591", charset) {
        assert ALIASES[2].0 == "ISO88591";
      } else if EqualsIgnoreCase("UTF-8", charset) {
        assert ALIASES[3].0 == "UTF-8";
      } else if EqualsIgnoreCase("UTF8", charset) {
        assert ALIASES[4].0 == "UTF8";
      } else {
        assert ALIASES[5].0 == "GBK";
      }
    }
  }

  /** No name matches aliases of two different constants, so the order of the tests in
      `parse` does not matter. */
  lemma AliasesDisjoint(i: int, charset: Option<string>)
    requires 0 <= i < |ALIASES| && EqualsIgnoreCase(ALIASES[i].0, charset)
    ensures Parse(charset) == Ok(ALIASES[i].1)
  {
    var s := charset.value;
    if ALIASES[i].1 != ISO88591 {
      // the ISO aliases all have a fold of 'i' or 's' in front; the others do not
      assert Fold(s[0]) != 'i';
    }
    if ALIASES[i].1 == GBK {
      assert Fold(s[0]) == 'g';
    }
  }

  /** `parse(c.value()) == c` for every constant. */
  lemma ParseValue(c: Charset)
    ensures Parse(Some(c.Value())) == Ok(c)
  {
    var i := match c case ISO88591 => 0 case UTF8 => 3 case GBK => 5;
    assert ALIASES[i].0 == c.Value();
    AliasesDisjoint(i, Some(c.Value()));
  }

  /** The letter case of ASCII letters never changes the outcome of `parse`. */
  lemma ParseIgnoresCase(s: string)
    ensures Parse(Some(s)) == Parse(Some(AsciiUpper(s)))
  {
    EqualsIgnoreCaseUpper("ISO-8859-1", s);
    EqualsIgnoreCaseUpper("ISO8859-1", s);
    EqualsIgnoreCaseUpper("ISO88591", s);
    EqualsIgnoreCaseUpper("UTF-8", s);
    EqualsIgnoreCaseUpper("UTF8", s);
    EqualsIgnoreCaseUpper("GBK", s);
  }
}
