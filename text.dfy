/** The few Python string operations the pages rely on: `str.strip()`,
    substring search with `in`, `x or None` on text inputs, and decimal
    formatting of integers in f-strings. */
module Text {
  import opened Basics

  /** Python's `str.isspace()` for a single character. */
  predicate IsSpace(c: char)
  {
    || c == ' '
    || '\t' <= c <= '\r'                  // tab, line feed, vertical tab, form feed, carriage return
    || '\U{001C}' <= c <= '\U{001F}'      // the four information separators
    || c == '\U{0085}' || c == '\U{00A0}' || c == '\U{1680}'
    || '\U{2000}' <= c <= '\U{200A}'      // the typographic spaces
    || c == '\U{2028}' || c == '\U{2029}' || c == '\U{202F}' || c == '\U{205F}' || c == '\U{3000}'
  }

  predicate AllSpace(s: string)
  {
    forall i :: 0 <= i < |s| ==> IsSpace(s[i])
  }

  /** How many whitespace characters s starts with. */
  function Leading(s: string): (n: nat)
    ensures n <= |s| && forall k :: 0 <= k < n ==> IsSpace(s[k])
    ensures n < |s| ==> !IsSpace(s[n])
  {
    if s != [] && IsSpace(s[0]) then Leading(s[1..]) + 1 else 0
  }

  /** How many whitespace characters s ends with. */
  function Trailing(s: string): (n: nat)
    ensures n <= |s| && forall k :: |s| - n <= k < |s| ==> IsSpace(s[k])
    ensures n < |s| ==> !IsSpace(s[|s| - n - 1])
  {
    if s != [] && IsSpace(s[|s| - 1]) then Trailing(s[..|s| - 1]) + 1 else 0
  }

  /** `s.strip()`: s without its leading and trailing whitespace. When s is
      not all whitespace, its first non-space character comes before its
      trailing whitespace. */
  function Strip(s: string): string
  {
    var i := Leading(s);
    if i == |s| then []
    else
      var j := |s| - Trailing(s);
      assert i < j by {
        assert !IsSpace(s[i]);
      }
      s[i..j]
  }

  /** What `strip` returns is the slice of the input that starts after its
      leading whitespace and stops before its trailing whitespace. */
  lemma StripSlice(s: string)
    ensures var i, j := Leading(s), Leading(s) + |Strip(s)|;
      && j <= |s| && Strip(s) == s[i..j]
      && (forall k :: 0 <= k < i ==> IsSpace(s[k]))
      && (forall k :: j <= k < |s| ==> IsSpace(s[k]))
  {
  }

  /** ... and it neither starts nor ends with whitespace. */
  lemma StripEnds(s: string)
    ensures Strip(s) == [] || (!IsSpace(Strip(s)[0]) && !IsSpace(Strip(s)[|Strip(s)| - 1]))
  {
  }

  /** A blank input is exactly one that strips to nothing (`not s.strip()`). */
  lemma StripEmptyIffBlank(s: string)
    ensures Strip(s) == [] <==> AllSpace(s)
  {
  }

  /** Stripping twice is stripping once. */
  lemma StripIdempotent(s: string)
    ensures Strip(Strip(s)) == Strip(s)
  {
    var r := Strip(s);
    StripEnds(s);
    if r != [] {
      assert Leading(r) == 0 && Trailing(r) == 0;
      assert r[0..|r|] == r;
    }
  }

  /** `s or None` for a text input: the empty string is stored as NULL. */
  function NoneIfEmpty(s: string): (r: Option<string>)
  {
    if s == "" then None else Some(s)
  }

  predicate OccursAt(s: string, pat: string, i: int)
  {
    0 <= i && i + |pat| <= |s| && s[i..i + |pat|] == pat
  }

  /** `pat in s`. */
  function Contains(s: string, pat: string): (b: bool)
    ensures b <==> exists i :: OccursAt(s, pat, i)
    decreases |s|
  {
    if |s| < |pat| then false
    else if s[..|pat|] == pat then
      assert OccursAt(s, pat, 0);
      true
    else
      var b := Contains(s[1..], pat);
      assert forall i :: OccursAt(s[1..], pat, i) ==> OccursAt(s, pat, i + 1) by {
        forall i | OccursAt(s[1..], pat, i) ensures OccursAt(s, pat, i + 1) {
          assert s[i + 1..i + 1 + |pat|] == s[1..][i..i + |pat|];
        }
      }
      assert forall i :: OccursAt(s, pat, i) ==> i >= 1 && OccursAt(s[1..], pat, i - 1) by {
        forall i | OccursAt(s, pat, i) ensures i >= 1 && OccursAt(s[1..], pat, i - 1) {
          assert i != 0;
          assert s[1..][i - 1..i - 1 + |pat|] == s[i..i + |pat|];
        }
      }
      b
  }

  predicate IsDigit(c: char)
  {
    '0' <= c <= '9'
  }

  function DigitChar(d: nat): (c: char)
    requires d < 10
    ensures IsDigit(c) && c as int - '0' as int == d
  {
    ('0' as int + d) as char
  }

  /** `f"{n}"` for n >= 0. */
  function NatToString(n: nat): (s: string)
    ensures |s| >= 1 && forall i :: 0 <= i < |s| ==> IsDigit(s[i])
  {
    if n < 10 then [DigitChar(n)] else NatToString(n / 10) + [DigitChar(n % 10)]
  }

  /** `f"{v}"` for any integer. */
  function IntToString(v: int): (s: string)
    ensures |s| >= 1
  {
    if v < 0 then "-" + NatToString(-v) else NatToString(v)
  }

  /** `f"{m:02d}"` for 0 <= m. */
  function Pad2(m: nat): (s: string)
    ensures |s| >= 2
  {
    if m < 10 then "0" + NatToString(m) else NatToString(m)
  }

  /** The value of a string of decimal digits: the inverse of NatToString. */
  function ParseNat(s: string): nat
    requires forall i :: 0 <= i < |s| ==> IsDigit(s[i])
    decreases |s|
  {
    if |s| == 0 then 0 else ParseNat(s[..|s| - 1]) * 10 + DigitValue(s[|s| - 1])
  }

  function DigitValue(c: char): nat
    requires IsDigit(c)
  {
    c as int - '0' as int
  }

  lemma {:induction false} ParseNatToString(n: nat)
    ensures ParseNat(NatToString(n)) == n
  {
    if n >= 10 {
      var s := NatToString(n);
      assert s[..|s| - 1] == NatToString(n / 10);
      ParseNatToString(n / 10);
    }
  }

  /** Distinct integers print differently. */
  lemma IntToStringInjective(a: int, b: int)
    requires IntToString(a) == IntToString(b)
    ensures a == b
  {
    var s := IntToString(a);
    // the sign shows in the first character: '-' is not a digit
    assert s[0] == '-' <==> a < 0;
    assert IntToString(b)[0] == '-' <==> b < 0;
    if a < 0 && b < 0 {
      assert NatToString(-a) == s[1..] == NatToString(-b);
      ParseNatToString(-a);
      ParseNatToString(-b);
    } else if a >= 0 && b >= 0 {
      ParseNatToString(a);
      ParseNatToString(b);
    }
  }

  /** `sep.join(parts)`. */
  function Join(parts: seq<string>, sep: string): string
    decreases |parts|
  {
    if |parts| == 0 then ""
    else if |parts| == 1 then parts[0]
    else Join(parts[..|parts| - 1], sep) + sep + parts[|parts| - 1]
  }
}
