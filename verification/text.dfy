/** The Java string operations the core relies on: `Character.isWhitespace`, `String.trim`,
    `indexOf`/`lastIndexOf`, `equalsIgnoreCase`, and commons-lang's `isBlank`, `split` and
    `join`. A Java `String` is a sequence of characters here. */
module Text {
  import opened Wrappers

  /** `Character.isWhitespace`: Unicode space separators except the no-break spaces
      (U+00A0, U+2007, U+202F), the line and paragraph separators, and the controls
      U+0009..U+000D and U+001C..U+001F. */
  predicate IsWhitespace(c: char) {
    c == ' ' || ('\t' <= c <= '\r') || ('\U{1C}' <= c <= '\U{1F}')
    || c == '\U{1680}' || ('\U{2000}' <= c <= '\U{2006}') || ('\U{2008}' <= c <= '\U{200A}')
    || c == '\U{2028}' || c == '\U{2029}' || c == '\U{205F}' || c == '\U{3000}'
  }

  /** commons-lang `StringUtils.isBlank`: null, empty, or whitespace only.
      Spring's `StringUtils.hasText` is exactly its negation. */
  predicate IsBlank(s: Option<string>) {
    s.None? || forall i :: 0 <= i < |s.value| ==> IsWhitespace(s.value[i])
  }

  // ------------------------------------------------------------------ String.trim

  /** Drops the leading characters `<= ' '`, as the first half of `String.trim`. */
  function TrimStart(s: string): (r: string)
    ensures |r| <= |s| && r == s[|s| - |r|..]
    ensures forall i :: 0 <= i < |s| - |r| ==> s[i] <= ' '
    ensures r == [] || r[0] > ' '
  {
    if s != [] && s[0] <= ' ' then TrimStart(s[1..]) else s
  }

  /** Drops the trailing characters `<= ' '`, as the second half of `String.trim`. */
  function TrimEnd(s: string): (r: string)
    ensures |r| <= |s| && r == s[..|r|]
    ensures forall i :: |r| <= i < |s| ==> s[i] <= ' '
    ensures r == [] || r[|r| - 1] > ' '
  {
    if s != [] && s[|s| - 1] <= ' ' then TrimEnd(s[..|s| - 1]) else s
  }

  /** `String.trim`: the longest slice of `s` that neither starts nor ends with a character
      `<= ' '`; everything cut off is `<= ' '`. */
  function Trim(s: string): (r: string)
    ensures exists a :: TrimmedAt(s, r, a)
    ensures r == [] || (r[0] > ' ' && r[|r| - 1] > ' ')
  {
    var t := TrimStart(s);
    var r := TrimEnd(t);
    TrimmedParts(s, t, r);
    r
  }

  /** Trimming the front and then the back leaves a slice with only `<= ' '` around it. */
  lemma TrimmedParts(s: string, t: string, r: string)
    requires |t| <= |s| && t == s[|s| - |t|..] && forall i :: 0 <= i < |s| - |t| ==> s[i] <= ' '
    requires |r| <= |t| && r == t[..|r|] && forall i :: |r| <= i < |t| ==> t[i] <= ' '
    ensures TrimmedAt(s, r, |s| - |t|)
  {
    var a := |s| - |t|;
    assert r == s[a..a + |r|];
    forall i | a + |r| <= i < |s|
      ensures s[i] <= ' '
    {
      assert s[i] == t[i - a];
    }
  }

  /** `r` is the slice of `s` starting at `a`, and all that lies outside it is `<= ' '`. */
  predicate TrimmedAt(s: string, r: string, a: int) {
    0 <= a <= a + |r| <= |s| && r == s[a..a + |r|]
    && (forall i :: 0 <= i < a ==> s[i] <= ' ')
    && (forall i :: a + |r| <= i < |s| ==> s[i] <= ' ')
  }

  // ------------------------------------------------------------------ searching

  /** `String.indexOf(char)`: the first position of `c`, or -1. */
  function IndexOf(s: string, c: char): (r: int)
    ensures r == -1 <==> c !in s
    ensures r != -1 ==> 0 <= r < |s| && s[r] == c && c !in s[..r]
  {
    if s == [] then -1
    else if s[0] == c then 0
    else
      var k := IndexOf(s[1..], c);
      assert s[1..][..if k < 0 then 0 else k] == s[1..if k < 0 then 1 else k + 1];
      if k == -1 then -1 else k + 1
  }

  /** `String.lastIndexOf(char)`: the last position of `c`, or -1. */
  function LastIndexOf(s: string, c: char): (r: int)
    ensures r == -1 <==> c !in s
    ensures r != -1 ==> 0 <= r < |s| && s[r] == c && c !in s[r + 1..]
  {
    if s == [] then -1
    else if s[|s| - 1] == c then |s| - 1
    else
      var k := LastIndexOf(s[..|s| - 1], c);
      assert k != -1 ==> s[k + 1..] == s[..|s| - 1][k + 1..] + [s[|s| - 1]];
      assert k == -1 ==> s == s[..|s| - 1] + [s[|s| - 1]];
      k
  }

  // ------------------------------------------------------------------ equalsIgnoreCase

  /** The case folding `String.equalsIgnoreCase` applies, restricted to what can match an
      ASCII string: ASCII letters, and the four characters whose Java case mapping lands in
      ASCII (U+0130 and U+0131 fold with `i`, U+017F with `s`, U+212A with `k`). */
  function Fold(c: char): char {
    if 'A' <= c <= 'Z' then (c as int + 32) as char
    else if c == '\U{130}' || c == '\U{131}' then 'i'
    else if c == '\U{17F}' then 's'
    else if c == '\U{212A}' then 'k'
    else c
  }

  /** `constant.equalsIgnoreCase(s)` for an ASCII `constant`: false for null, otherwise
      equal length and pairwise equal after folding. Every caller in the core compares
      against an ASCII literal, where this is exact. */
  predicate EqualsIgnoreCase(constant: string, s: Option<string>) {
    s.Some? && |constant| == |s.value|
    && forall i :: 0 <= i < |constant| ==> Fold(constant[i]) == Fold(s.value[i])
  }

  /** Upper-cases the ASCII letters only. */
  function AsciiUpper(s: string): (r: string)
    ensures |r| == |s|
    ensures forall i :: 0 <= i < |s| ==> Fold(r[i]) == Fold(s[i])
  {
    seq(|s|, i requires 0 <= i < |s| => if 'a' <= s[i] <= 'z' then (s[i] as int - 32) as char else s[i])
  }

  /** Changing the case of ASCII letters never changes an `equalsIgnoreCase` answer. */
  lemma EqualsIgnoreCaseUpper(constant: string, s: string)
    ensures EqualsIgnoreCase(constant, Some(s)) <==> EqualsIgnoreCase(constant, Some(AsciiUpper(s)))
  {
  }

  // ------------------------------------------------------------------ split and join

  /** commons-lang `StringUtils.split(s, sep)` for a one-character separator: the maximal
      runs of non-separator characters, left to right; empty tokens never appear. */
  function Split(s: string, sep: char): (r: seq<string>)
    ensures forall k :: 0 <= k < |r| ==> r[k] != [] && sep !in r[k]
    decreases |s|
  {
    if s == [] then []
    else if s[0] == sep then Split(s[1..], sep)
    else
      var n := TokenLength(s, sep);
      [s[..n]] + Split(s[n..], sep)
  }

  /** The length of the token at the front of `s`. */
  function TokenLength(s: string, sep: char): (n: nat)
    requires s != [] && s[0] != sep
    ensures 0 < n <= |s| && sep !in s[..n]
    ensures n < |s| ==> s[n] == sep
  {
    if |s| == 1 || s[1] == sep then 1
    else
      var m := TokenLength(s[1..], sep);
      assert s[..m + 1] == [s[0]] + s[1..][..m];
      m + 1
  }

  /** commons-lang `StringUtils.join(items, sep)`: the items with `sep` between each two. */
  function Join(items: seq<string>, sep: string): (r: string)
  {
    if items == [] then ""
    else if |items| == 1 then items[0]
    else items[0] + sep + Join(items[1..], sep)
  }

  /** The items of a join come back from a split, provided none of them is empty or holds
      the separator: the joined text has no empty segment. */
  lemma {:induction false} SplitJoin(items: seq<string>, sep: char)
    requires forall k :: 0 <= k < |items| ==> items[k] != [] && sep !in items[k]
    ensures Split(Join(items, [sep]), sep) == items
  {
    if |items| == 1 {
      SplitToken(items[0], [], sep);
      assert items[0] + [] == items[0];
    } else if |items| > 1 {
      SplitJoin(items[1..], sep);
      SplitToken(items[0], [sep] + Join(items[1..], [sep]), sep);
      assert items[0] + [sep] + Join(items[1..], [sep]) == items[0] + ([sep] + Join(items[1..], [sep]));
      assert Split([sep] + Join(items[1..], [sep]), sep) == Split(Join(items[1..], [sep]), sep);
    }
  }

  /** Splitting a token followed by text that is empty or starts with the separator. */
  lemma SplitToken(token: string, rest: string, sep: char)
    requires token != [] && sep !in token
    requires rest == [] || rest[0] == sep
    ensures Split(token + rest, sep) == [token] + Split(rest, sep)
  {
    var s := token + rest;
    TokenLengthOf(token, rest, sep);
    assert s[..|token|] == token;
    assert s[|token|..] == rest;
  }

  lemma {:induction false} TokenLengthOf(token: string, rest: string, sep: char)
    requires token != [] && sep !in token
    requires rest == [] || rest[0] == sep
    ensures (token + rest)[0] != sep && TokenLength(token + rest, sep) == |token|
  {
    assert (token + rest)[0] == token[0];
    if |token| > 1 {
      assert (token + rest)[1..] == token[1..] + rest;
      TokenLengthOf(token[1..], rest, sep);
    }
  }
}
