/**
 * `String.prototype.trim` and the blank-query test `!q.trim()`. Trimming
 * removes ECMAScript WhiteSpace and LineTerminator code points from both ends.
 */
module QueryText {

  /** ECMAScript WhiteSpace or LineTerminator. No visible ASCII character is one. */
  function IsJsWhitespace(c: char): (r: bool)
    ensures '!' <= c <= '~' ==> !r
    ensures c == ' ' || c == '\t' || c == '\n' || c == '\r' ==> r
  {
    c in {
      // WhiteSpace: tab, vertical tab, form feed, space, no-break space, byte order mark
      '\t', '\U{000B}', '\U{000C}', ' ', '\U{00A0}', '\U{FEFF}',
      // the other space separators (Unicode category Zs)
      '\U{1680}', '\U{2000}', '\U{2001}', '\U{2002}', '\U{2003}', '\U{2004}',
      '\U{2005}', '\U{2006}', '\U{2007}', '\U{2008}', '\U{2009}', '\U{200A}',
      '\U{202F}', '\U{205F}', '\U{3000}',
      // LineTerminator: line feed, carriage return, line and paragraph separators
      '\n', '\r', '\U{2028}', '\U{2029}'}
  }

  /** Drop leading whitespace: the result is the longest suffix that starts with a non-whitespace character. */
  function TrimStart(s: string): (r: string)
    ensures |r| <= |s| && r == s[|s| - |r|..]
    ensures forall i :: 0 <= i < |s| - |r| ==> IsJsWhitespace(s[i])
    ensures r != [] ==> !IsJsWhitespace(r[0])
  {
    if s != [] && IsJsWhitespace(s[0]) then TrimStart(s[1..]) else s
  }

  /** Drop trailing whitespace: the result is the longest prefix that ends with a non-whitespace character. */
  function TrimEnd(s: string): (r: string)
    ensures |r| <= |s| && r == s[..|r|]
    ensures forall i :: |r| <= i < |s| ==> IsJsWhitespace(s[i])
    ensures r != [] ==> !IsJsWhitespace(r[|r| - 1])
  {
    if s != [] && IsJsWhitespace(s[|s| - 1]) then TrimEnd(s[..|s| - 1]) else s
  }

  /** `s.trim()`: never longer than `s`, and a non-empty result has no whitespace at either end. */
  function Trim(s: string): (r: string)
    ensures |r| <= |s|
    ensures r != [] ==> !IsJsWhitespace(r[0]) && !IsJsWhitespace(r[|r| - 1])
  {
    TrimEnd(TrimStart(s))
  }

  /** `!s.trim()`: the trimmed text is empty, which happens exactly when every character is whitespace. */
  function IsBlank(s: string): (r: bool)
    ensures r <==> forall i :: 0 <= i < |s| ==> IsJsWhitespace(s[i])
  {
    Trim(s) == ""
  }

  /** Trimming yields a contiguous slice of the input. */
  lemma TrimIsSlice(s: string)
    ensures exists lo, hi :: 0 <= lo <= hi <= |s| && Trim(s) == s[lo..hi]
  {
    var t := TrimStart(s);
    var r := TrimEnd(t);
    var lo := |s| - |t|;
    var hi := lo + |r|;
    assert t == s[lo..];
    assert r == t[..|r|];
    assert s[lo..][..|r|] == s[lo..hi];
    assert Trim(s) == s[lo..hi];
  }

  /** Trimming an already trimmed text changes nothing. */
  lemma TrimIdempotent(s: string)
    ensures Trim(Trim(s)) == Trim(s)
  {
    var r := Trim(s);
    assert TrimStart(r) == r;
    assert TrimEnd(r) == r;
  }
}
