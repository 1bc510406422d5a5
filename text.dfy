/** String helpers shared by the components: JavaScript's notion of white
    space (the characters `String.prototype.trim` removes and the regular
    expression class `\s` matches), trimming, upper-casing and the two-letter
    avatar fallback every screen derives from a name. */
module Text {

  /** The characters JavaScript counts as WhiteSpace or LineTerminator. */
  predicate IsSpace(c: char) {
    || c == ' ' || c == '\t' || c == '\n' || c == '\r'
    || c == '\U{B}' || c == '\U{C}' || c == '\U{A0}' || c == '\U{1680}'
    || ('\U{2000}' <= c <= '\U{200A}')
    || c == '\U{2028}' || c == '\U{2029}' || c == '\U{202F}' || c == '\U{205F}'
    || c == '\U{3000}' || c == '\U{FEFF}'
  }

  /** Every character of `s` is white space (the empty string included). */
  predicate IsBlank(s: string) {
    forall i :: 0 <= i < |s| ==> IsSpace(s[i])
  }

  /** Length of the longest all-white-space prefix of `s`. */
  function LeadingSpaces(s: string): (k: nat)
    ensures k <= |s|
    ensures forall i :: 0 <= i < k ==> IsSpace(s[i])
    ensures k == |s| || !IsSpace(s[k])
  {
    if s == [] || !IsSpace(s[0]) then 0 else 1 + LeadingSpaces(s[1..])
  }

  /** Length of the longest all-white-space suffix of `s`. */
  function TrailingSpaces(s: string): (k: nat)
    ensures k <= |s|
    ensures forall i :: |s| - k <= i < |s| ==> IsSpace(s[i])
    ensures k == |s| || !IsSpace(s[|s| - 1 - k])
  {
    if s == [] || !IsSpace(s[|s| - 1]) then 0 else 1 + TrailingSpaces(s[..|s| - 1])
  }

  /** `s.trim()`: `s` without its leading and trailing white space. */
  function Trim(s: string): (r: string)
    ensures |r| <= |s|
    ensures r == [] || (!IsSpace(r[0]) && !IsSpace(r[|r| - 1]))
  {
    var t := s[LeadingSpaces(s)..];
    t[..|t| - TrailingSpaces(t)]
  }

  /** The leading white space `LeadingSpaces` counts is blank. */
  lemma LeadingBlank(s: string)
    ensures IsBlank(s[..LeadingSpaces(s)])
  {
    var k := LeadingSpaces(s);
    forall i | 0 <= i < k ensures IsSpace(s[..k][i]) {
      assert s[..k][i] == s[i];
    }
  }

  /** The trailing white space `TrailingSpaces` counts is blank. */
  lemma TrailingBlank(t: string)
    ensures IsBlank(t[|t| - TrailingSpaces(t)..])
  {
    var k := TrailingSpaces(t);
    var u := t[|t| - k..];
    forall i | 0 <= i < |u| ensures IsSpace(u[i]) {
      assert u[i] == t[|t| - k + i];
    }
  }

  /** Two blank strings make a blank string. */
  lemma BlankConcat(x: string, y: string)
    requires IsBlank(x) && IsBlank(y)
    ensures IsBlank(x + y)
  {
    forall i | 0 <= i < |x + y| ensures IsSpace((x + y)[i]) {
      if i < |x| {
        assert (x + y)[i] == x[i];
      } else {
        assert (x + y)[i] == y[i - |x|];
      }
    }
  }

  /** `s.trim()` is the empty string, which JavaScript treats as false,
      exactly when `s` consists of white space only. */
  lemma TrimEmptyIffBlank(s: string)
    ensures Trim(s) == [] <==> IsBlank(s)
  {
    var a := LeadingSpaces(s);
    var t := s[a..];
    var b := TrailingSpaces(t);
    if IsBlank(s) {
      assert a == |s|;
    }
    if Trim(s) == [] {
      assert b == |t|;
      assert t[|t| - b..] == t;
      TrailingBlank(t);
      LeadingBlank(s);
      assert s == s[..a] + t;
      BlankConcat(s[..a], t);
    }
  }

  /** `r` occurs in `s` at offset `a`, with only white space before and after. */
  predicate InnerSlice(s: string, r: string, a: nat) {
    && a + |r| <= |s|
    && s[a..a + |r|] == r
    && IsBlank(s[..a])
    && IsBlank(s[a + |r|..])
  }

  /** A piece of `s` framed by blank text on both sides. */
  lemma InnerSliceOfBlankFrame(s: string, a: nat, m: nat)
    requires a <= |s| && m <= |s| - a
    requires IsBlank(s[..a]) && IsBlank(s[a..][m..])
    ensures InnerSlice(s, s[a..][..m], a)
  {
    assert s[a..][..m] == s[a..a + m];
    assert s[a..][m..] == s[a + m..];
  }

  /** Trimming keeps a contiguous piece of `s`, starting after its leading
      white space, and removes only white space around it. */
  lemma TrimIsInnerSlice(s: string)
    ensures InnerSlice(s, Trim(s), LeadingSpaces(s))
  {
    var a := LeadingSpaces(s);
    var t := s[a..];
    LeadingBlank(s);
    TrailingBlank(t);
    InnerSliceOfBlankFrame(s, a, |t| - TrailingSpaces(t));
  }

  /** ASCII upper-casing of one character; other characters are unchanged. */
  function UpperChar(c: char): (u: char)
    ensures !('a' <= u <= 'z')
    ensures 'a' <= c <= 'z' ==> u as int == c as int - 32
    ensures !('a' <= c <= 'z') ==> u == c
  {
    if 'a' <= c <= 'z' then (c as int - 32) as char else c
  }

  /** `s.toUpperCase()`, character by character. */
  function Upper(s: string): (r: string)
    ensures |r| == |s|
    ensures forall i :: 0 <= i < |s| ==> r[i] == UpperChar(s[i])
  {
    seq(|s|, i requires 0 <= i < |s| => UpperChar(s[i]))
  }

  /** `name.slice(0, 2).toUpperCase()`: the avatar fallback of a chat, a
      story or a profile. */
  function Initials(name: string): (r: string)
    ensures |r| == if |name| < 2 then |name| else 2
    ensures forall i :: 0 <= i < |r| ==> r[i] == UpperChar(name[i])
    ensures forall i :: 0 <= i < |r| ==> !('a' <= r[i] <= 'z')
  {
    Upper(name[..if |name| < 2 then |name| else 2])
  }

  /** Upper-casing is idempotent, so the initials of the initials are the
      initials. */
  lemma InitialsIdempotent(name: string)
    ensures Initials(Initials(name)) == Initials(name)
  {
  }
}

/** Decimal rendering of integers (`String(n)`, template literals) and its
    inverse, used for message ids and anime routes. */
module Decimal {
  import opened Wrappers

  predicate IsDigit(c: char) {
    '0' <= c <= '9'
  }

  predicate AllDigits(s: string) {
    forall i :: 0 <= i < |s| ==> IsDigit(s[i])
  }

  function DigitChar(d: nat): (c: char)
    requires d < 10
    ensures IsDigit(c)
    ensures c as int - '0' as int == d
  {
    ('0' as int + d) as char
  }

  /** Decimal digits of `n`, most significant first, without leading zeros. */
  function NatToString(n: nat): (s: string)
    ensures s != [] && AllDigits(s)
    ensures s[0] == '0' ==> n == 0
  {
    if n < 10 then [DigitChar(n)] else NatToString(n / 10) + [DigitChar(n % 10)]
  }

  /** Decimal printing of an integer, with a minus sign for negatives; this
      is how JavaScript prints integral numbers of magnitude below 2^53. */
  function IntToString(i: int): (s: string)
    ensures s != []
    ensures forall k :: 0 <= k < |s| ==> s[k] == '-' || IsDigit(s[k])
  {
    if i < 0 then "-" + NatToString(-i) else NatToString(i)
  }

  function ParseNat(s: string): nat
    requires AllDigits(s)
  {
    if s == [] then 0 else 10 * ParseNat(s[..|s| - 1]) + (s[|s| - 1] as int - '0' as int)
  }

  /** Reads an optionally negative decimal integer; anything else is None. */
  function ParseInt(s: string): Option<int> {
    if |s| >= 2 && s[0] == '-' && AllDigits(s[1..]) then Some(-(ParseNat(s[1..]) as int))
    else if s != [] && AllDigits(s) then Some(ParseNat(s))
    else None
  }

  lemma {:induction false} ParseNatToString(n: nat)
    ensures ParseNat(NatToString(n)) == n
  {
    if n >= 10 {
      var s := NatToString(n);
      assert s[..|s| - 1] == NatToString(n / 10);
      ParseNatToString(n / 10);
    }
  }

  /** Printing an integer and reading it back gives the integer. */
  lemma IntToStringRoundTrip(i: int)
    ensures ParseInt(IntToString(i)) == Some(i)
  {
    if i < 0 {
      assert IntToString(i)[1..] == NatToString(-i);
      ParseNatToString(-i);
    } else {
      ParseNatToString(i);
    }
  }

  /** Distinct integers print differently. */
  lemma IntToStringInjective(i: int, j: int)
    ensures IntToString(i) == IntToString(j) ==> i == j
  {
    IntToStringRoundTrip(i);
    IntToStringRoundTrip(j);
  }
}
