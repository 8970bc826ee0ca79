/**
 * The Python `str` operations the rate checker applies to text:
 * `strip()`, `upper()` and the slice `s[:n]`.
 * `upper()` is modelled on ASCII letters only; `strip()` removes exactly the
 * characters Python's `str.isspace` accepts.
 */
module PyText {

  /** Python's whitespace characters: those `str.strip()` removes when given no argument. */
  predicate IsSpace(c: char)
  {
    || ('\t' <= c <= '\r')                 // tab, line feed, \x0b, \x0c, carriage return
    || ('\U{1C}' <= c <= '\U{1F}')         // file, group, record and unit separators
    || c == ' ' || c == '\U{85}' || c == '\U{A0}' || c == '\U{1680}'
    || ('\U{2000}' <= c <= '\U{200A}')     // en quad .. hair space
    || c == '\U{2028}' || c == '\U{2029}' || c == '\U{202F}' || c == '\U{205F}' || c == '\U{3000}'
  }

  predicate AllSpace(s: string)
  {
    forall i :: 0 <= i < |s| ==> IsSpace(s[i])
  }

  /** `s` with its leading whitespace removed (Python's `s.lstrip()`): it does not start with whitespace. */
  function StripLeft(s: string): (r: string)
    ensures |r| <= |s|
    ensures r != [] ==> !IsSpace(r[0])
  {
    if s != [] && IsSpace(s[0]) then StripLeft(s[1..]) else s
  }

  /** What `StripLeft` keeps is a suffix of `s`, and what it cuts off is all whitespace. */
  lemma {:induction false} StripLeftCuts(s: string)
    ensures var r := StripLeft(s); r == s[|s| - |r|..] && AllSpace(s[..|s| - |r|])
  {
    if s != [] && IsSpace(s[0]) {
      StripLeftCuts(s[1..]);
      var r := StripLeft(s);
      assert s[1..][|s| - 1 - |r|..] == s[|s| - |r|..];
      assert s[..|s| - |r|] == [s[0]] + s[1..][..|s| - 1 - |r|];
    }
  }

  /** `s` with its trailing whitespace removed (Python's `s.rstrip()`): it does not end with whitespace. */
  function StripRight(s: string): (r: string)
    ensures |r| <= |s|
    ensures r != [] ==> !IsSpace(r[|r| - 1])
  {
    if s != [] && IsSpace(s[|s| - 1]) then StripRight(s[..|s| - 1]) else s
  }

  /** What `StripRight` keeps is a prefix of `s`, and what it cuts off is all whitespace. */
  lemma {:induction false} StripRightCuts(s: string)
    ensures var r := StripRight(s); r == s[..|r|] && AllSpace(s[|r|..])
  {
    if s != [] && IsSpace(s[|s| - 1]) {
      StripRightCuts(s[..|s| - 1]);
      var r := StripRight(s);
      assert s[..|s| - 1][..|r|] == s[..|r|];
      assert s[|r|..] == s[..|s| - 1][|r|..] + [s[|s| - 1]];
    }
  }

  /** Python's `s.strip()`: both ends stripped; the result neither starts nor ends with whitespace. */
  function Strip(s: string): (r: string)
    ensures |r| <= |s|
    ensures r != [] ==> !IsSpace(r[0]) && !IsSpace(r[|r| - 1])
  {
    var left := StripLeft(s);
    var r := StripRight(left);
    assert r != [] ==> r[0] == left[0] by {
      StripRightCuts(left);
    }
    r
  }

  /** What `Strip` keeps is a piece of `s`, and everything cut off on either side is whitespace. */
  lemma StripSpec(s: string)
    ensures var r := Strip(s);
      exists i :: 0 <= i <= |s| - |r| && r == s[i..i + |r|] && AllSpace(s[..i]) && AllSpace(s[i + |r|..])
  {
    var left := StripLeft(s);
    var r := StripRight(left);
    var i := |s| - |left|;
    StripLeftCuts(s);
    StripRightCuts(left);
    assert Strip(s) == r;
    assert s[i..] == left;
    assert r == left[..|r|];
    assert r == s[i..i + |r|];
    assert s[i + |r|..] == left[|r|..];
    assert AllSpace(s[..i]);
    assert AllSpace(s[i + |r|..]);
  }

  /** Stripping leaves nothing exactly when the text is all whitespace. */
  lemma StripBlank(s: string)
    ensures Strip(s) == [] <==> AllSpace(s)
  {
    var left := StripLeft(s);
    var r := StripRight(left);
    var i := |s| - |left|;
    StripLeftCuts(s);
    StripRightCuts(left);
    assert Strip(s) == r;
    if r == [] {
      assert left[|r|..] == left;
      assert left == [];
      assert s[..i] == s;
    } else {
      assert r[0] == left[0] == s[i];
    }
  }

  /** Stripping twice removes nothing more than stripping once. */
  lemma StripIdempotent(s: string)
    ensures Strip(Strip(s)) == Strip(s)
  {
    var r := Strip(s);
    if r != [] {
      StripKeepsTrimmed(r);
    }
  }

  /** A string that neither starts nor ends with whitespace is its own strip. */
  lemma StripKeepsTrimmed(s: string)
    requires s != [] && !IsSpace(s[0]) && !IsSpace(s[|s| - 1])
    ensures Strip(s) == s
  {
    assert StripLeft(s) == s;
    assert StripRight(s) == s;
  }

  /** Python's `c.upper()` on one character: a lower-case ASCII letter becomes its capital; anything else, including letters outside ASCII, is kept. */
  function UpperChar(c: char): (r: char)
    ensures !IsLowerAscii(r)
    ensures !IsLowerAscii(c) ==> r == c
    ensures IsLowerAscii(c) ==> 'A' <= r <= 'Z' && r as int == c as int - 32
  {
    if 'a' <= c <= 'z' then (c as int - 'a' as int + 'A' as int) as char else c
  }

  predicate IsLowerAscii(c: char)
  {
    'a' <= c <= 'z'
  }

  /**
   * Python's `s.upper()` for ASCII text: same length, every lower-case letter is
   * replaced by its capital and every other character kept in its place.
   */
  function Upper(s: string): (r: string)
    ensures |r| == |s|
    ensures forall i :: 0 <= i < |s| ==> !IsLowerAscii(r[i])
    ensures forall i :: 0 <= i < |s| && !IsLowerAscii(s[i]) ==> r[i] == s[i]
    ensures forall i :: 0 <= i < |s| && IsLowerAscii(s[i]) ==> r[i] as int == s[i] as int - 32
  {
    seq(|s|, i requires 0 <= i < |s| => UpperChar(s[i]))
  }

  /** Upper-casing twice changes nothing more than upper-casing once. */
  lemma UpperIdempotent(s: string)
    ensures Upper(Upper(s)) == Upper(s)
  {
    var u := Upper(s);
    assert forall i :: 0 <= i < |u| ==> Upper(u)[i] == u[i];
  }

  /** Upper-casing keeps whether the first and the last character are whitespace. */
  lemma UpperKeepsEnds(s: string)
    requires s != []
    ensures IsSpace(Upper(s)[0]) <==> IsSpace(s[0])
    ensures IsSpace(Upper(s)[|s| - 1]) <==> IsSpace(s[|s| - 1])
  {
    assert Upper(s)[0] == UpperChar(s[0]);
    assert Upper(s)[|s| - 1] == UpperChar(s[|s| - 1]);
  }

  /** A string with no lower-case ASCII letter is its own upper-case form. */
  lemma UpperFixesUpper(s: string)
    requires forall i :: 0 <= i < |s| ==> !IsLowerAscii(s[i])
    ensures Upper(s) == s
  {
  }

  /** Python's slice `s[:n]`: the first `n` characters, or all of `s` when it is shorter. */
  function Take(s: string, n: nat): (r: string)
    ensures |r| == if |s| < n then |s| else n
    ensures r == s[..|r|]
  {
    if |s| <= n then s else s[..n]
  }
}
