/** String helpers with Python's semantics: `"".join`, `str.isspace`,
    `str.strip` and `str(n)` for a non-negative integer. */
module Text {

  /** `"".join(ss)`. */
  function Concat(ss: seq<string>): string {
    if ss == [] then "" else ss[0] + Concat(ss[1..])
  }

  lemma {:induction false} ConcatAppend(a: seq<string>, b: seq<string>)
    ensures Concat(a + b) == Concat(a) + Concat(b)
  {
    if a == [] {
      assert a + b == b;
    } else {
      assert (a + b)[1..] == a[1..] + b;
      ConcatAppend(a[1..], b);
    }
  }

  lemma ConcatSnoc(ss: seq<string>, s: string)
    ensures Concat(ss + [s]) == Concat(ss) + s
  {
    ConcatAppend(ss, [s]);
    assert Concat([s]) == s + Concat([]);
  }

  /** The characters for which Python's `str.isspace()` holds; these are the
      characters `str.strip()` removes when called without arguments. */
  predicate IsSpace(c: char) {
    || ('\t' <= c <= '\r')
    || ('\U{1C}' <= c <= '\U{1F}')
    || c == ' '
    || c == '\U{85}'
    || c == '\U{A0}'
    || c == '\U{1680}'
    || ('\U{2000}' <= c <= '\U{200A}')
    || c == '\U{2028}'
    || c == '\U{2029}'
    || c == '\U{202F}'
    || c == '\U{205F}'
    || c == '\U{3000}'
  }

  predicate AllSpace(s: string) {
    forall k :: 0 <= k < |s| ==> IsSpace(s[k])
  }

  /** The first position at or after `i` that does not hold whitespace, or
      `|s|` when there is none. */
  function SkipSpaceForward(s: string, i: nat): (n: nat)
    requires i <= |s|
    ensures i <= n <= |s|
    ensures forall k :: i <= k < n ==> IsSpace(s[k])
    ensures n < |s| ==> !IsSpace(s[n])
    decreases |s| - i
  {
    if i == |s| || !IsSpace(s[i]) then i else SkipSpaceForward(s, i + 1)
  }

  /** The end of `s[..j]` once its trailing whitespace is dropped. */
  function SkipSpaceBackward(s: string, j: nat): (n: nat)
    requires j <= |s|
    ensures n <= j
    ensures forall k :: n <= k < j ==> IsSpace(s[k])
    ensures n > 0 ==> !IsSpace(s[n - 1])
  {
    if j == 0 || !IsSpace(s[j - 1]) then j else SkipSpaceBackward(s, j - 1)
  }

  /** Number of whitespace characters at the front of `s`. */
  function LeadingSpace(s: string): (n: nat)
    ensures n <= |s|
    ensures forall k :: 0 <= k < n ==> IsSpace(s[k])
    ensures n < |s| ==> !IsSpace(s[n])
  {
    SkipSpaceForward(s, 0)
  }

  /** Number of whitespace characters at the back of `s`. */
  function TrailingSpace(s: string): (n: nat)
    ensures n <= |s|
    ensures forall k :: |s| - n <= k < |s| ==> IsSpace(s[k])
    ensures n < |s| ==> !IsSpace(s[|s| - n - 1])
  {
    |s| - SkipSpaceBackward(s, |s|)
  }

  /** `s.strip()`: `s` without its leading and trailing whitespace. */
  function Strip(s: string): (r: string)
    ensures |r| <= |s|
    ensures r == [] <==> AllSpace(s)
    ensures r != [] ==> !IsSpace(r[0]) && !IsSpace(r[|r| - 1])
  {
    var i := LeadingSpace(s);
    if i == |s| then "" else s[i..|s| - TrailingSpace(s)]
  }

  /** Stripping removes whitespace only, and only at the two ends: `s` is the
      result framed by two all-whitespace pieces. */
  lemma StripFrame(s: string) returns (front: string, back: string)
    ensures s == front + Strip(s) + back
    ensures AllSpace(front) && AllSpace(back)
  {
    var i := LeadingSpace(s);
    front := s[..i];
    SpaceSlice(s, 0, i);
    assert s[0..i] == front;
    if i < |s| {
      var j := |s| - TrailingSpace(s);
      StripMiddle(s);
      back := s[j..];
      SpaceSlice(s, j, |s|);
      assert s[j..|s|] == back;
      SplitThree(s, i, j);
    } else {
      back := "";
      assert s == front;
    }
  }

  lemma SplitThree<T>(s: seq<T>, i: nat, j: nat)
    requires i <= j <= |s|
    ensures s == s[..i] + s[i..j] + s[j..]
  {
  }

  lemma StripMiddle(s: string)
    requires LeadingSpace(s) < |s|
    ensures LeadingSpace(s) < |s| - TrailingSpace(s)
    ensures Strip(s) == s[LeadingSpace(s)..|s| - TrailingSpace(s)]
  {
    SpaceBetween(s);
  }

  /** The first non-whitespace character lies before the trailing run. */
  lemma SpaceBetween(s: string)
    requires LeadingSpace(s) < |s|
    ensures LeadingSpace(s) < |s| - TrailingSpace(s)
  {
    var i, t := LeadingSpace(s), TrailingSpace(s);
    assert !IsSpace(s[i]);
    assert IsSpace(s[i]) || i < |s| - t;
  }

  lemma SpaceSlice(s: string, from: nat, to: nat)
    requires from <= to <= |s|
    requires forall k :: from <= k < to ==> IsSpace(s[k])
    ensures AllSpace(s[from..to])
  {
    forall k | 0 <= k < to - from
      ensures IsSpace(s[from..to][k])
    {
      assert s[from..to][k] == s[from + k];
    }
  }

  /** A string ending in a non-whitespace character: stripping trims only
      the front, so the result is non-empty and ends with that character. */
  lemma StripKeepsLast(t: string)
    requires t != [] && !IsSpace(t[|t| - 1])
    ensures Strip(t) == t[LeadingSpace(t)..]
    ensures Strip(t) != [] && Strip(t)[|Strip(t)| - 1] == t[|t| - 1]
  {
    assert TrailingSpace(t) == 0;
    assert LeadingSpace(t) < |t|;
  }

  /** A string that neither starts nor ends with whitespace is its own
      strip. */
  lemma StripUntouched(t: string)
    requires t != [] && !IsSpace(t[0]) && !IsSpace(t[|t| - 1])
    ensures Strip(t) == t
  {
    assert LeadingSpace(t) == 0 && TrailingSpace(t) == 0;
    assert t[0..|t|] == t;
  }

  predicate IsDigit(c: char) {
    '0' <= c <= '9'
  }

  predicate AllDigits(s: string) {
    forall k :: 0 <= k < |s| ==> IsDigit(s[k])
  }

  function DigitChar(d: nat): (c: char)
    requires d < 10
    ensures IsDigit(c)
  {
    ('0' as int + d) as char
  }

  /** `str(n)` for a non-negative integer: its decimal digits, most
      significant first, with no leading zero. */
  function Decimal(n: nat): (r: string)
    ensures r != [] && AllDigits(r)
    ensures |r| > 1 ==> r[0] != '0'
  {
    if n < 10 then [DigitChar(n)] else Decimal(n / 10) + [DigitChar(n % 10)]
  }

  /** `int(s)` for a string of decimal digits: the inverse of `Decimal`. */
  function ParseDecimal(s: string): nat
    requires AllDigits(s)
  {
    if s == [] then 0
    else ParseDecimal(s[..|s| - 1]) * 10 + (s[|s| - 1] as int - '0' as int)
  }

  lemma {:induction false} DecimalRoundTrip(n: nat)
    ensures ParseDecimal(Decimal(n)) == n
  {
    var r := Decimal(n);
    if n >= 10 {
      assert r[..|r| - 1] == Decimal(n / 10);
      DecimalRoundTrip(n / 10);
    }
  }

  /** Distinct numbers have distinct decimal spellings. */
  lemma DecimalInjective(m: nat, n: nat)
    ensures Decimal(m) == Decimal(n) <==> m == n
  {
    if Decimal(m) == Decimal(n) {
      DecimalRoundTrip(m);
      DecimalRoundTrip(n);
    }
  }
}
