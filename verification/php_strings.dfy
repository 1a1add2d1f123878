/** The string helpers the password rule relies on: PHP's `trim`. */
module PhpStrings {

  /** The characters PHP's `trim` strips by default: space, tab, LF, CR, NUL, vertical tab. */
  predicate IsTrimChar(c: char)
  {
    c == ' ' || c == '\t' || c == '\n' || c == '\r' || c as int == 0 || c as int == 11
  }

  /** A string made only of characters `trim` strips. */
  predicate IsBlank(s: string)
  {
    forall i | 0 <= i < |s| :: IsTrimChar(s[i])
  }

  /** `ltrim`: the longest suffix that does not start with a strippable character. */
  function TrimLeft(s: string): (r: string)
    ensures |r| <= |s| && r == s[|s| - |r|..]
    ensures r == [] || !IsTrimChar(r[0])
    ensures IsBlank(s[..|s| - |r|])
    decreases |s|
  {
    if |s| > 0 && IsTrimChar(s[0]) then
      var r := TrimLeft(s[1..]);
      assert s[..|s| - |r|] == [s[0]] + s[1..][..|s| - 1 - |r|];
      r
    else s
  }

  /** `rtrim`: the longest prefix that does not end with a strippable character. */
  function TrimRight(s: string): (r: string)
    ensures |r| <= |s| && r == s[..|r|]
    ensures r == [] || !IsTrimChar(r[|r| - 1])
    ensures IsBlank(s[|r|..])
    decreases |s|
  {
    if |s| > 0 && IsTrimChar(s[|s| - 1]) then
      var init := s[..|s| - 1];
      var r := TrimRight(init);
      assert s[|r|..] == init[|r|..] + [s[|s| - 1]];
      assert r == s[..|r|];
      r
    else s
  }

  /** `trim`: strip both ends. */
  function Trim(s: string): (r: string)
    ensures |r| <= |s|
    ensures r == [] || (!IsTrimChar(r[0]) && !IsTrimChar(r[|r| - 1]))
    ensures exists i, j | 0 <= i <= j <= |s| :: r == s[i..j] && IsBlank(s[..i]) && IsBlank(s[j..])
  {
    TrimIsInfix(s);
    TrimRight(TrimLeft(s))
  }

  /** Trimming removes a blank prefix and a blank suffix and nothing else. */
  lemma TrimIsInfix(s: string)
    ensures var r := TrimRight(TrimLeft(s));
            exists i, j | 0 <= i <= j <= |s| :: r == s[i..j] && IsBlank(s[..i]) && IsBlank(s[j..])
  {
    var i := |s| - |TrimLeft(s)|;
    var j := i + |TrimRight(TrimLeft(s))|;
    TrimBounds(s, i, j);
  }

  /** The trimmed string lies between the blank prefix `ltrim` strips and the blank suffix `rtrim` strips. */
  lemma TrimBounds(s: string, i: int, j: int)
    requires i == |s| - |TrimLeft(s)| && j == i + |TrimRight(TrimLeft(s))|
    ensures 0 <= i <= j <= |s|
    ensures TrimRight(TrimLeft(s)) == s[i..j] && IsBlank(s[..i]) && IsBlank(s[j..])
  {
    TrimmedSlice(s, TrimLeft(s), i, j);
    BlankTail(s, TrimLeft(s), i, j);
  }

  /** `rtrim` of a suffix of `s` is a slice of `s`. */
  lemma TrimmedSlice(s: string, l: string, i: int, j: int)
    requires 0 <= i <= |s| && l == s[i..] && j == i + |TrimRight(l)|
    ensures j <= |s| && TrimRight(l) == s[i..j]
  {
    var r := TrimRight(l);
    assert r == l[..|r|];
  }

  /** What `rtrim` strips from a suffix of `s` is a blank suffix of `s`. */
  lemma BlankTail(s: string, l: string, i: int, j: int)
    requires 0 <= i <= |s| && l == s[i..] && j == i + |TrimRight(l)|
    ensures j <= |s| && IsBlank(s[j..])
  {
    var r := TrimRight(l);
    assert s[j..] == l[|r|..];
  }

  /** `strlen(trim($s)) > 0` holds exactly when `s` has a character `trim` keeps. */
  lemma TrimEmptyIffBlank(s: string)
    ensures |Trim(s)| == 0 <==> IsBlank(s)
  {
  }
}
