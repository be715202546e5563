/** Characters and `String.prototype.trim` as ECMAScript defines them.

    The whitespace set is the ECMAScript WhiteSpace and LineTerminator productions
    (section 12.2 and 12.3 of ECMA-262): TAB, LF, VT, FF, CR, SPACE, NO-BREAK SPACE,
    the other Unicode "Zs" characters, LINE SEPARATOR, PARAGRAPH SEPARATOR and
    ZERO WIDTH NO-BREAK SPACE. The same set is what `\s` matches in a regular expression. */
module Text {

  predicate IsSpace(c: char) {
    var n := c as int;
    || (0x09 <= n <= 0x0D)
    || n == 0x20 || n == 0xA0 || n == 0x1680
    || (0x2000 <= n <= 0x200A)
    || n == 0x2028 || n == 0x2029 || n == 0x202F || n == 0x205F
    || n == 0x3000 || n == 0xFEFF
  }

  predicate IsDigit(c: char) {
    '0' <= c <= '9'
  }

  /** The class `[a-zA-Z0-9_]`. */
  predicate IsWordChar(c: char) {
    ('a' <= c <= 'z') || ('A' <= c <= 'Z') || IsDigit(c) || c == '_'
  }

  predicate AllSpace(s: string) {
    forall i :: 0 <= i < |s| ==> IsSpace(s[i])
  }

  predicate AllDigits(s: string) {
    forall i :: 0 <= i < |s| ==> IsDigit(s[i])
  }

  /** Removes the leading run of whitespace, and nothing else. */
  function TrimStart(s: string): (r: string)
    ensures |r| <= |s| && r == s[|s| - |r|..]
    ensures forall i :: 0 <= i < |s| - |r| ==> IsSpace(s[i])
    ensures r == [] || !IsSpace(r[0])
  {
    if s == [] || !IsSpace(s[0]) then s else TrimStart(s[1..])
  }

  /** Removes the trailing run of whitespace, and nothing else. */
  function TrimEnd(s: string): (r: string)
    ensures |r| <= |s| && r == s[..|r|]
    ensures forall i :: |r| <= i < |s| ==> IsSpace(s[i])
    ensures r == [] || !IsSpace(r[|r| - 1])
  {
    if s == [] || !IsSpace(s[|s| - 1]) then s else TrimEnd(s[..|s| - 1])
  }

  /** `s.trim()`: the text between the leading and the trailing whitespace. */
  function Trim(s: string): (r: string)
    ensures exists i, j :: 0 <= i <= j <= |s| && r == s[i..j] && AllSpace(s[..i]) && AllSpace(s[j..])
    ensures r == [] <==> AllSpace(s)
    ensures r != [] ==> !IsSpace(r[0]) && !IsSpace(r[|r| - 1])
    ensures |r| <= |s|
  {
    var front := TrimStart(s);
    var r := TrimEnd(front);
    TrimIsSlice(s, front, r);
    r
  }

  /** What `TrimStart` and then `TrimEnd` keep is a slice of `s` with only whitespace
      on either side of it. */
  lemma TrimIsSlice(s: string, front: string, r: string)
    requires |front| <= |s| && front == s[|s| - |front|..]
    requires forall m :: 0 <= m < |s| - |front| ==> IsSpace(s[m])
    requires |r| <= |front| && r == front[..|r|]
    requires forall m :: |r| <= m < |front| ==> IsSpace(front[m])
    ensures var i := |s| - |front|; r == s[i..i + |r|] && AllSpace(s[..i]) && AllSpace(s[i + |r|..])
  {
    var i := |s| - |front|;
    var j := i + |r|;
    assert r == s[i..j];
    forall m | 0 <= m < i
      ensures IsSpace(s[..i][m])
    {
      assert s[..i][m] == s[m];
    }
    forall m | 0 <= m < |s| - j
      ensures IsSpace(s[j..][m])
    {
      assert s[j..][m] == front[|r| + m];
    }
  }

  /** JavaScript's `!s.trim()` is exactly the all-whitespace test the validators use:
      the trimmed text is the falsy empty string iff every character is whitespace. */
  lemma BlankIffTrimmedEmpty(s: string)
    ensures AllSpace(s) <==> Trim(s) == []
  {
  }

  /** A string whose character at `i` is not whitespace is not blank. */
  lemma NotBlankAt(s: string, i: int)
    requires 0 <= i < |s| && !IsSpace(s[i])
    ensures !AllSpace(s)
  {
  }
}
