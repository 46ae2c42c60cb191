/** The string trimming the comment handler applies (ECMAScript `String.prototype.trim`). */
module Text {

  /**
   * The characters `trim` strips: ECMAScript WhiteSpace (tab, vertical tab,
   * form feed, space, no-break space, byte order mark and the Zs space
   * separators) and LineTerminator (LF, CR, U+2028, U+2029).
   */
  predicate IsSpace(c: char)
  {
    || c == '\t' || c == '\n' || c == '\U{000B}' || c == '\U{000C}' || c == '\r'
    || c == ' ' || c == '\U{00A0}' || c == '\U{1680}'
    || ('\U{2000}' <= c <= '\U{200A}')
    || c == '\U{2028}' || c == '\U{2029}' || c == '\U{202F}' || c == '\U{205F}'
    || c == '\U{3000}' || c == '\U{FEFF}'
  }

  /** Leading white space removed: `s` is the stripped spaces followed by `r`. */
  function TrimStart(s: string): (r: string)
    ensures |r| <= |s| && r == s[|s| - |r|..]
    ensures forall k :: 0 <= k < |s| - |r| ==> IsSpace(s[k])
    ensures r == [] || !IsSpace(r[0])
  {
    if s != [] && IsSpace(s[0]) then TrimStart(s[1..]) else s
  }

  /** Trailing white space removed: `s` is `r` followed by the stripped spaces. */
  function TrimEnd(s: string): (r: string)
    ensures |r| <= |s| && r == s[..|r|]
    ensures forall k :: |r| <= k < |s| ==> IsSpace(s[k])
    ensures r == [] || !IsSpace(r[|r| - 1])
  {
    if s != [] && IsSpace(s[|s| - 1]) then TrimEnd(s[..|s| - 1]) else s
  }

  /**
   * `s.trim()`: the piece of `s` left after removing white space, and only
   * white space, from both ends; it neither starts nor ends with white
   * space, and is empty exactly when `s` is nothing but white space.
   */
  function Trim(s: string): (r: string)
    ensures r <= TrimStart(s) && TrimStart(s) == s[|s| - |TrimStart(s)|..]
    ensures r == [] || (!IsSpace(r[0]) && !IsSpace(r[|r| - 1]))
    ensures forall k :: 0 <= k < |s| - |TrimStart(s)| ==> IsSpace(s[k])
    ensures forall k :: |r| <= k < |TrimStart(s)| ==> IsSpace(TrimStart(s)[k])
    ensures r == [] <==> forall k :: 0 <= k < |s| ==> IsSpace(s[k])
  {
    var t := TrimStart(s);
    var r := TrimEnd(t);
    assert r <= t;
    assert t != [] ==> r != [] by {
      if t != [] && r == [] {
        assert false;
      }
    }
    assert t != [] ==> s[|s| - |t|] == t[0];
    r
  }

  /** True when `text.trim() === ''`. */
  predicate Blank(s: string)
  {
    Trim(s) == []
  }
}
