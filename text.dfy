/**
 * ECMAScript's `String.prototype.trim`: removes the leading and trailing
 * code points that belong to the WhiteSpace or LineTerminator productions
 * of the ECMAScript language specification.
 */
module Text {

  /** TAB, LF, VT, FF, CR, SPACE, NBSP, ZWNBSP, LS, PS and the Zs space separators. */
  predicate IsWhitespace(c: char) {
    var n := c as int;
    (0x09 <= n <= 0x0D) || n == 0x20 || n == 0xA0 || n == 0x1680
    || (0x2000 <= n <= 0x200A) || n == 0x2028 || n == 0x2029 || n == 0x202F
    || n == 0x205F || n == 0x3000 || n == 0xFEFF
  }

  /** Every character of `s` is whitespace (the empty string included). */
  predicate IsBlank(s: string) {
    forall i :: 0 <= i < |s| ==> IsWhitespace(s[i])
  }

  /** `s` neither starts nor ends with whitespace. */
  predicate IsTrimmed(s: string) {
    s == [] || (!IsWhitespace(s[0]) && !IsWhitespace(s[|s| - 1]))
  }

  /** The length of the longest blank prefix of `s`. */
  function LeadingBlanks(s: string): (n: nat)
    ensures n <= |s|
    ensures forall i :: 0 <= i < n ==> IsWhitespace(s[i])
    ensures n == |s| || !IsWhitespace(s[n])
  {
    if s == [] || !IsWhitespace(s[0]) then 0
    else 1 + LeadingBlanks(s[1..])
  }

  /** The length of the longest blank suffix of `s`. */
  function TrailingBlanks(s: string): (n: nat)
    ensures n <= |s|
    ensures forall i :: |s| - n <= i < |s| ==> IsWhitespace(s[i])
    ensures n == |s| || !IsWhitespace(s[|s| - 1 - n])
  {
    if s == [] || !IsWhitespace(s[|s| - 1]) then 0
    else 1 + TrailingBlanks(s[..|s| - 1])
  }

  /**
   * `Trim(s)` is the slice of `s` left between a blank prefix and a blank
   * suffix; it is trimmed, and it is empty exactly when `s` is blank.
   */
  function Trim(s: string): (r: string)
    ensures |r| <= |s| && IsTrimmed(r)
    ensures r == [] <==> IsBlank(s)
  {
    var lead := LeadingBlanks(s);
    if lead == |s| then
      assert s[..lead] == s;
      []
    else
      var trail := TrailingBlanks(s);
      assert lead < |s| - trail;
      var r := s[lead..|s| - trail];
      assert r == s[lead..lead + |r|];
      r
  }

  /** What Trim keeps is a slice of its input between a blank prefix and a blank suffix. */
  lemma TrimIsSliceBetweenBlanks(s: string)
    ensures var r := Trim(s);
      exists k :: 0 <= k <= |s| - |r| && r == s[k..k + |r|] && IsBlank(s[..k]) && IsBlank(s[k + |r|..])
  {
    var lead := LeadingBlanks(s);
    if lead == |s| {
      assert IsBlank(s[..|s|]) && IsBlank(s[|s|..]);
    } else {
      var trail := TrailingBlanks(s);
      TrimBetween(s, lead, trail);
      assert IsBlank(s[..lead]) && IsBlank(s[|s| - trail..]);
    }
  }

  /** Trim removes exactly the blank margins around a trimmed middle. */
  lemma {:induction false} TrimOfPadded(a: string, m: string, b: string)
    requires IsBlank(a) && IsBlank(b) && IsTrimmed(m)
    ensures Trim(a + m + b) == m
  {
    var s := a + m + b;
    if m == [] {
      BlankConcat(a, b);
      assert s == a + b;
    } else {
      assert s == a + (m + b);
      LeadingBlanksOfPadded(a, m + b);
      assert s == (a + m) + b;
      TrailingBlanksOfPadded(a + m, b);
      TrimBetween(s, |a|, |b|);
      assert s[|a|..|s| - |b|] == m;
    }
  }

  lemma BlankConcat(a: string, b: string)
    requires IsBlank(a) && IsBlank(b)
    ensures IsBlank(a + b)
  {
  }

  lemma TrimBetween(s: string, lead: nat, trail: nat)
    requires lead < |s| && LeadingBlanks(s) == lead && TrailingBlanks(s) == trail
    ensures Trim(s) == s[lead..|s| - trail]
  {
  }

  lemma {:induction false} LeadingBlanksOfPadded(a: string, t: string)
    requires IsBlank(a) && t != [] && !IsWhitespace(t[0])
    ensures LeadingBlanks(a + t) == |a|
  {
    if a == [] {
      assert a + t == t;
    } else {
      assert (a + t)[1..] == a[1..] + t;
      LeadingBlanksOfPadded(a[1..], t);
    }
  }

  lemma {:induction false} TrailingBlanksOfPadded(t: string, b: string)
    requires IsBlank(b) && t != [] && !IsWhitespace(t[|t| - 1])
    ensures TrailingBlanks(t + b) == |b|
  {
    if b == [] {
      assert t + b == t;
    } else {
      assert (t + b)[..|t + b| - 1] == t + b[..|b| - 1];
      TrailingBlanksOfPadded(t, b[..|b| - 1]);
    }
  }

  /** Trimming twice is trimming once. */
  lemma TrimIdempotent(s: string)
    ensures Trim(Trim(s)) == Trim(s)
  {
  }
}
