/** The part of JavaScript's string semantics that the reminder validation
    relies on: `String.prototype.trim` and the set of characters it strips.
    Strings are sequences of Unicode scalar values. */
module JsText {

  /** WhiteSpace and LineTerminator code points of ECMA-262 (sections 11.2
      and 11.3 of the 2019 edition): TAB, VT, FF, ZWNBSP, every character of
      the Unicode category Zs, and LF, CR, LS, PS. */
  predicate IsWhitespace(c: char) {
    var n := c as int;
    || n == 0x0009 || n == 0x000A || n == 0x000B || n == 0x000C || n == 0x000D
    || n == 0x0020 || n == 0x00A0 || n == 0x1680
    || (0x2000 <= n <= 0x200A)
    || n == 0x2028 || n == 0x2029 || n == 0x202F || n == 0x205F
    || n == 0x3000 || n == 0xFEFF
  }

  /** The string holds nothing but whitespace (the empty string included). */
  predicate AllWhitespace(s: string) {
    forall i :: 0 <= i < |s| ==> IsWhitespace(s[i])
  }

  /** Drops the leading whitespace. */
  function TrimStart(s: string): (r: string)
    ensures |r| <= |s| && r == s[|s| - |r|..]
    ensures forall i :: 0 <= i < |s| - |r| ==> IsWhitespace(s[i])
    ensures r == [] || !IsWhitespace(r[0])
  {
    if |s| > 0 && IsWhitespace(s[0]) then TrimStart(s[1..]) else s
  }

  /** Drops the trailing whitespace. */
  function TrimEnd(s: string): (r: string)
    ensures |r| <= |s| && r == s[..|r|]
    ensures forall i :: |r| <= i < |s| ==> IsWhitespace(s[i])
    ensures r == [] || !IsWhitespace(r[|r| - 1])
  {
    if |s| > 0 && IsWhitespace(s[|s| - 1]) then TrimEnd(s[..|s| - 1]) else s
  }

  /** `s.trim()`: the string without its leading and trailing whitespace.
      The result is empty exactly when `s` is blank. */
  function Trim(s: string): (r: string)
    ensures r == [] <==> AllWhitespace(s)
    ensures |r| <= |s|
    ensures r == [] || (!IsWhitespace(r[0]) && !IsWhitespace(r[|r| - 1]))
  {
    var front := TrimStart(s);
    var r := TrimEnd(front);
    TrimPasses(s, front, r);
    r
  }

  /** Trimming drops whitespace only: every character of `s` that is not
      whitespace, at whatever position, survives in the result. */
  lemma TrimRemovesOnlyWhitespace(s: string)
    ensures var k := |s| - |TrimStart(s)|;
      forall i :: 0 <= i < |s| && !IsWhitespace(s[i]) ==> k <= i < k + |Trim(s)|
    ensures forall c :: c in s && c !in Trim(s) ==> IsWhitespace(c)
  {
    TrimIsSlice(s);
    WhitespaceAround(s, |s| - |TrimStart(s)|, Trim(s));
  }

  lemma WhitespaceAround(s: string, k: nat, r: string)
    requires k + |r| <= |s| && r == s[k..k + |r|]
    requires forall i :: 0 <= i < k ==> IsWhitespace(s[i])
    requires forall i :: k + |r| <= i < |s| ==> IsWhitespace(s[i])
    ensures forall i :: 0 <= i < |s| && !IsWhitespace(s[i]) ==> k <= i < k + |r|
    ensures forall c :: c in s && c !in r ==> IsWhitespace(c)
  {
    forall c | c in s && !IsWhitespace(c)
      ensures c in r
    {
      var i :| 0 <= i < |s| && s[i] == c;
      assert r[i - k] == c;
    }
  }

  /** Both passes together remove everything only from a blank string, and
      what they leave neither starts nor ends with whitespace. */
  lemma TrimPasses(s: string, front: string, r: string)
    requires front == TrimStart(s) && r == TrimEnd(front)
    ensures r == [] <==> AllWhitespace(s)
    ensures |r| <= |s|
    ensures r == [] || (!IsWhitespace(r[0]) && !IsWhitespace(r[|r| - 1]))
  {
    assert r == [] || r[0] == front[0];
    assert front == [] || IsWhitespace(front[0]) || r != [];
    if r != [] {
      assert s[|s| - |front|] == front[0] == r[0];
    }
  }

  /** What both passes leave is the part of `s` between the stripped
      leading and trailing whitespace: everything before and after the
      slice is whitespace. */
  lemma TrimIsSlice(s: string)
    ensures var k := |s| - |TrimStart(s)|;
      && k + |Trim(s)| <= |s| && Trim(s) == s[k..k + |Trim(s)|]
      && (forall i :: 0 <= i < k ==> IsWhitespace(s[i]))
      && (forall i :: k + |Trim(s)| <= i < |s| ==> IsWhitespace(s[i]))
  {
    var front := TrimStart(s);
    var r := TrimEnd(front);
    assert Trim(s) == r;
    SliceOfSlice(s, front, r);
  }

  lemma SliceOfSlice(s: string, front: string, r: string)
    requires |front| <= |s| && front == s[|s| - |front|..]
    requires |r| <= |front| && r == front[..|r|]
    requires forall i :: 0 <= i < |s| - |front| ==> IsWhitespace(s[i])
    requires forall i :: |r| <= i < |front| ==> IsWhitespace(front[i])
    ensures var k := |s| - |front|;
      && k + |r| <= |s| && r == s[k..k + |r|]
      && (forall i :: 0 <= i < k ==> IsWhitespace(s[i]))
      && (forall i :: k + |r| <= i < |s| ==> IsWhitespace(s[i]))
  {
    var k := |s| - |front|;
    forall i | k + |r| <= i < |s|
      ensures IsWhitespace(s[i])
    {
      assert s[i] == front[i - k];
    }
  }

  /** The validation test of the reminder form, `!title.trim()`: the empty
      string is the only falsy string. */
  function IsBlank(title: string): (b: bool)
    ensures b <==> AllWhitespace(title)
  {
    Trim(title) == []
  }
}
