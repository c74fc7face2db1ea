/** JavaScript's `String.prototype.trim`, which the create form uses for its blank
    test. `trim` removes leading and trailing code points of the ECMAScript
    WhiteSpace and LineTerminator productions (section 22.1.3.32 of ECMA-262, with
    the sets of sections 12.2 and 12.3). Every such code point lies in the Basic
    Multilingual Plane, so working on code points rather than UTF-16 units changes
    nothing here. */
module JsString {

  /** WhiteSpace: TAB, VT, FF, ZWNBSP and the Unicode "Space_Separator" (Zs)
      category; LineTerminator: LF, CR, LINE SEPARATOR, PARAGRAPH SEPARATOR. */
  predicate IsWhiteSpace(c: char) {
    || c == '\U{0009}' || c == '\U{000B}' || c == '\U{000C}' || c == '\U{FEFF}'
    || c == '\U{0020}' || c == '\U{00A0}' || c == '\U{1680}'
    || ('\U{2000}' <= c <= '\U{200A}')
    || c == '\U{202F}' || c == '\U{205F}' || c == '\U{3000}'
    || c == '\U{000A}' || c == '\U{000D}' || c == '\U{2028}' || c == '\U{2029}'
  }

  /** Every character of `s` is white space (the empty string included). */
  predicate IsBlank(s: string) {
    forall i :: 0 <= i < |s| ==> IsWhiteSpace(s[i])
  }

  /** `s` with its leading white space removed. */
  function TrimStart(s: string): (r: string)
    ensures |r| <= |s| && r == s[|s| - |r|..]
    ensures IsBlank(s[..|s| - |r|])
    ensures r == [] || !IsWhiteSpace(r[0])
    decreases |s|
  {
    if s != [] && IsWhiteSpace(s[0]) then
      var r := TrimStart(s[1..]);
      assert s[..|s| - |r|] == [s[0]] + s[1..][..|s| - 1 - |r|];
      r
    else s
  }

  /** `s` with its trailing white space removed. */
  function TrimEnd(s: string): (r: string)
    ensures |r| <= |s| && r == s[..|r|]
    ensures IsBlank(s[|r|..])
    ensures r == [] || !IsWhiteSpace(r[|r| - 1])
    decreases |s|
  {
    if s != [] && IsWhiteSpace(s[|s| - 1]) then
      var r := TrimEnd(s[..|s| - 1]);
      assert s[|r|..] == s[..|s| - 1][|r|..] + [s[|s| - 1]];
      r
    else s
  }

  /** `s.trim()` */
  function Trim(s: string): (r: string)
    ensures |r| <= |s|
    ensures r == [] || (!IsWhiteSpace(r[0]) && !IsWhiteSpace(r[|r| - 1]))
  {
    TrimEnd(TrimStart(s))
  }

  /** The number of leading white-space characters `trim` removes from `s`. */
  function LeadingBlank(s: string): (k: nat)
    ensures k <= |s|
  {
    |s| - |TrimStart(s)|
  }

  /** `s.trim()` is what remains of `s` once a blank prefix and a blank suffix are
      removed: the infix that starts after the leading white space, with only white
      space before and after it. */
  lemma TrimIsInfix(s: string)
    ensures LeadingBlank(s) + |Trim(s)| <= |s|
    ensures Trim(s) == s[LeadingBlank(s)..LeadingBlank(s) + |Trim(s)|]
    ensures IsBlank(s[..LeadingBlank(s)])
    ensures IsBlank(s[LeadingBlank(s) + |Trim(s)|..])
  {
    TrimEndOfSuffix(s, TrimStart(s), LeadingBlank(s));
  }

  /** Trimming the end of the suffix `s[k..]` leaves an infix of `s` followed by
      white space only. */
  lemma TrimEndOfSuffix(s: string, rest: string, k: nat)
    requires k <= |s| && rest == s[k..]
    ensures var r := TrimEnd(rest);
      && k + |r| <= |s|
      && r == s[k..k + |r|]
      && IsBlank(s[k + |r|..])
  {
    var r := TrimEnd(rest);
    assert s[k..k + |r|] == rest[..|r|];
    assert s[k + |r|..] == rest[|r|..];
  }

  /** `s.trim() === ''` holds exactly when `s` consists of white space only. */
  lemma TrimEmptyIffBlank(s: string)
    ensures Trim(s) == [] <==> IsBlank(s)
  {
    var rest := TrimStart(s);
    if Trim(s) == [] {
      // TrimEnd leaves nothing only of a blank string, and TrimStart does not
      // return one that starts with white space.
      assert rest == [] by {
        assert rest[0..] == rest;
      }
      assert s == s[..|s|];
    }
  }
}
