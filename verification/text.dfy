/**
 * String.prototype.trim as the message handlers use it: a message whose
 * content trims to the empty string is not sent.
 */
module Text {

  /** The characters ECMAScript counts as WhiteSpace or LineTerminator. */
  predicate IsJsWhitespace(c: char)
  {
    || c == '\t' || c == '\n' || c == '\r' || c == ' '
    || c == '\U{000B}' || c == '\U{000C}' || c == '\U{00A0}' || c == '\U{1680}'
    || ('\U{2000}' <= c <= '\U{200A}')
    || c == '\U{2028}' || c == '\U{2029}' || c == '\U{202F}' || c == '\U{205F}'
    || c == '\U{3000}' || c == '\U{FEFF}'
  }

  /** Drops the leading whitespace of `s`. */
  function TrimStart(s: string): (r: string)
    ensures |r| <= |s| && r == s[|s| - |r|..]
    ensures forall i :: 0 <= i < |s| - |r| ==> IsJsWhitespace(s[i])
    ensures r != [] ==> !IsJsWhitespace(r[0])
    decreases |s|
  {
    if s != [] && IsJsWhitespace(s[0]) then TrimStart(s[1..]) else s
  }

  /** Drops the trailing whitespace of `s`. */
  function TrimEnd(s: string): (r: string)
    ensures |r| <= |s| && r == s[..|r|]
    ensures forall i :: |r| <= i < |s| ==> IsJsWhitespace(s[i])
    ensures r != [] ==> !IsJsWhitespace(r[|r| - 1])
    decreases |s|
  {
    if s != [] && IsJsWhitespace(s[|s| - 1]) then TrimEnd(s[..|s| - 1]) else s
  }

  /**
   * String.prototype.trim: `s` without its leading and trailing whitespace.
   * The result is empty exactly when `s` is all whitespace.
   */
  function Trim(s: string): (r: string)
    ensures |r| <= |s|
    ensures r == [] <==> IsBlank(s)
    ensures r != [] ==> !IsJsWhitespace(r[0]) && !IsJsWhitespace(r[|r| - 1])
  {
    var e := TrimEnd(s);
    var r := TrimStart(e);
    assert r != [] ==> r[|r| - 1] == e[|e| - 1];
    r
  }

  /**
   * Trim removes only whitespace, and only at the two ends: its result is a
   * slice of `s` preceded and followed by whitespace alone.
   */
  lemma TrimIsSlice(s: string)
    ensures var b := |TrimEnd(s)|; var a := b - |Trim(s)|;
      0 <= a <= b <= |s| && Trim(s) == s[a..b]
      && (forall k :: 0 <= k < a ==> IsJsWhitespace(s[k]))
      && (forall k :: b <= k < |s| ==> IsJsWhitespace(s[k]))
  {
    var e := TrimEnd(s);
    var r := TrimStart(e);
    var a, b := |e| - |r|, |e|;
    assert Trim(s) == r;
    assert e == s[..b] && r == e[a..];
    assert r == s[a..b];
    forall k | 0 <= k < a
      ensures IsJsWhitespace(s[k])
    {
      assert s[k] == e[k];
    }
  }

  /** The content is whitespace only, so `!content.trim()` holds (see Trim). */
  predicate IsBlank(content: string)
  {
    forall i :: 0 <= i < |content| ==> IsJsWhitespace(content[i])
  }
}
