/** Character-level helpers shared by the scraper and the URL builder:
    Python's `str.strip()` with no argument, and decimal digit strings
    (`\d+` read by `int(...)`, and `str(n)` for a natural number). */
module Text {

  /** The characters Python's `str.isspace()` accepts, which is the set that
      `str.strip()` removes from both ends. */
  predicate IsSpace(c: char) {
    || ('\t' <= c <= '\r')            // tab, line feed, vertical tab, form feed, carriage return
    || ('\U{1C}' <= c <= '\U{1F}')    // file, group, record and unit separators
    || c == ' '
    || c == '\U{85}' || c == '\U{A0}' || c == '\U{1680}'
    || ('\U{2000}' <= c <= '\U{200A}')
    || c == '\U{2028}' || c == '\U{2029}' || c == '\U{202F}' || c == '\U{205F}' || c == '\U{3000}'
  }

  /** Every character of `s[lo..hi]` is whitespace. */
  predicate SpaceBetween(s: string, lo: nat, hi: nat)
    requires lo <= hi <= |s|
  {
    forall k :: lo <= k < hi ==> IsSpace(s[k])
  }

  /** No whitespace at either end. */
  predicate Trimmed(s: string) {
    s == [] || (!IsSpace(s[0]) && !IsSpace(s[|s| - 1]))
  }

  /** The scan `strip()` makes from the left: the first index at or after
      `k` that does not hold whitespace, or `|s|`. */
  function StartFrom(s: string, k: nat): (i: nat)
    requires k <= |s|
    ensures k <= i <= |s| && SpaceBetween(s, k, i)
    ensures i < |s| ==> !IsSpace(s[i])
    decreases |s| - k
  {
    if k < |s| && IsSpace(s[k]) then StartFrom(s, k + 1) else k
  }

  /** The scan `strip()` makes from the right, not going below `lo`: the
      smallest `j` such that `s[j..k]` is all whitespace. */
  function EndFrom(s: string, lo: nat, k: nat): (j: nat)
    requires lo <= k <= |s|
    ensures lo <= j <= k && SpaceBetween(s, j, k)
    ensures lo < j ==> !IsSpace(s[j - 1])
  {
    if lo < k && IsSpace(s[k - 1]) then EndFrom(s, lo, k - 1) else k
  }

  /** `s.strip()`. */
  function Strip(s: string): string {
    var i := StartFrom(s, 0);
    s[i..EndFrom(s, i, |s|)]
  }

  /** What `strip()` promises: the result is the infix `s[i..j]` for some
      `i <= j`, everything around it is whitespace, and it has no whitespace
      at either end. */
  lemma StripSpec(s: string)
    ensures var i := StartFrom(s, 0); var j := EndFrom(s, i, |s|);
      && Strip(s) == s[i..j]
      && SpaceBetween(s, 0, i) && SpaceBetween(s, j, |s|)
      && Trimmed(Strip(s))
  {
    var i := StartFrom(s, 0);
    var j := EndFrom(s, i, |s|);
    TrimmedInfix(s, i, j);
  }

  /** An infix that starts and ends with non-whitespace is trimmed. */
  lemma TrimmedInfix(s: string, i: nat, j: nat)
    requires i <= j <= |s|
    requires i < j ==> !IsSpace(s[i]) && !IsSpace(s[j - 1])
    ensures Trimmed(s[i..j])
  {
    if i < j {
      assert s[i..j][0] == s[i] && s[i..j][j - i - 1] == s[j - 1];
    }
  }

  /** Conversely, whatever split of `s` into surrounding whitespace and a
      trimmed middle one picks, the middle is `Strip(s)`: the result of
      `strip()` is uniquely determined by that description. */
  lemma StripUnique(s: string, i: nat, j: nat)
    requires i <= j <= |s|
    requires SpaceBetween(s, 0, i) && SpaceBetween(s, j, |s|) && Trimmed(s[i..j])
    ensures Strip(s) == s[i..j]
  {
    var i' := StartFrom(s, 0);
    if i < j {
      assert !IsSpace(s[i]) && !IsSpace(s[j - 1]) by {
        assert s[i..j][0] == s[i] && s[i..j][j - i - 1] == s[j - 1];
      }
      assert i' == i;
      var j' := EndFrom(s, i, |s|);
      assert j' == j;
    } else {
      assert SpaceBetween(s, 0, |s|);
      assert i' == |s|;
    }
  }

  /** Stripping twice is stripping once. */
  lemma StripIdempotent(s: string)
    ensures Strip(Strip(s)) == Strip(s)
  {
    var r := Strip(s);
    StripSpec(s);
    assert r[0..|r|] == r;
    StripUnique(r, 0, |r|);
  }

  // ---------------------------------------------------------------------
  // Decimal digits

  /** An ASCII decimal digit. */
  predicate IsDigit(c: char) {
    '0' <= c <= '9'
  }

  predicate AllDigits(s: string) {
    forall k :: 0 <= k < |s| ==> IsDigit(s[k])
  }

  /** Length of the longest all-digit prefix of `s`. */
  function DigitRun(s: string): (n: nat)
    ensures n <= |s| && AllDigits(s[..n])
    ensures n < |s| ==> !IsDigit(s[n])
  {
    if s != [] && IsDigit(s[0]) then
      var n := 1 + DigitRun(s[1..]);
      assert s[..n] == [s[0]] + s[1..][..n - 1];
      n
    else 0
  }

  /** The digit run of `s` is the only prefix made of digits and followed by
      a non-digit (or the end). */
  lemma {:induction false} DigitRunUnique(s: string, n: nat)
    requires n <= |s| && AllDigits(s[..n])
    requires n < |s| ==> !IsDigit(s[n])
    ensures DigitRun(s) == n
  {
    if n > 0 {
      assert IsDigit(s[..n][0]);
      assert s[1..][..n - 1] == s[1..n];
      DigitRunUnique(s[1..], n - 1);
    }
  }

  function DigitValue(c: char): nat
    requires IsDigit(c)
  {
    c as int - '0' as int
  }

  function DigitChar(d: nat): (c: char)
    requires d < 10
    ensures IsDigit(c) && DigitValue(c) == d
  {
    ('0' as int + d) as char
  }

  /** `int(s)` for a string of ASCII digits (leading zeros allowed). */
  function DecimalValue(s: string): nat
    requires AllDigits(s)
  {
    if s == [] then 0 else DecimalValue(s[..|s| - 1]) * 10 + DigitValue(s[|s| - 1])
  }

  /** `str(n)` for a natural number: non-empty, digits only, no leading zero. */
  function DecimalString(n: nat): (s: string)
    ensures |s| > 0 && AllDigits(s)
    ensures s[0] == '0' ==> n == 0 && s == "0"
  {
    if n < 10 then [DigitChar(n)] else DecimalString(n / 10) + [DigitChar(n % 10)]
  }

  /** `int(str(n)) == n`. */
  lemma {:induction false} DecimalRoundTrip(n: nat)
    ensures DecimalValue(DecimalString(n)) == n
  {
    var s := DecimalString(n);
    if n >= 10 {
      DecimalRoundTrip(n / 10);
      assert s[..|s| - 1] == DecimalString(n / 10);
    }
  }

  /** Distinct numbers print differently. */
  lemma DecimalStringInjective(m: nat, n: nat)
    requires DecimalString(m) == DecimalString(n)
    ensures m == n
  {
    DecimalRoundTrip(m);
    DecimalRoundTrip(n);
  }
}
