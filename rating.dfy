/** The star-rating parse: `re.search(r'Rated (\d+) out of 5 stars', alt)`
    on the `alt` text of the rating image, and `int(...)` of the captured
    digits. `\d` is taken as an ASCII digit. */
module Rating {
  import opened Wrappers
  import opened Text

  const Prefix: string := "Rated "
  const Suffix: string := " out of 5 stars"

  /** The pattern matches `s` starting at `j`, with the group `(\d+)`
      capturing the `k` characters after "Rated ". */
  predicate GroupMatchesAt(s: string, j: nat, k: nat) {
    && 0 < k
    && j + |Prefix| + k + |Suffix| <= |s|
    && s[j..j + |Prefix|] == Prefix
    && AllDigits(s[j + |Prefix|..j + |Prefix| + k])
    && s[j + |Prefix| + k..j + |Prefix| + k + |Suffix|] == Suffix
  }

  /** The pattern matches at `j`, with the greedy `\d+` taking the whole
      run of digits after "Rated ". */
  predicate MatchesAt(s: string, j: nat) {
    j + |Prefix| <= |s| && GroupMatchesAt(s, j, DigitRun(s[j + |Prefix|..]))
  }

  /** Backtracking cannot find a shorter group: the pattern matches at `j`
      with some group exactly when it matches with the whole digit run, and
      then that run is the only possible group. */
  lemma GroupIsDigitRun(s: string, j: nat, k: nat)
    requires GroupMatchesAt(s, j, k)
    ensures MatchesAt(s, j) && k == DigitRun(s[j + |Prefix|..])
  {
    var t := s[j + |Prefix|..];
    assert t[..k] == s[j + |Prefix|..j + |Prefix| + k];
    assert t[k] == Suffix[0];
    DigitRunUnique(t, k);
  }

  /** The text "Rated" (the `'Rated' in alt` pre-check) occurs at `i`. */
  predicate RatedAt(s: string, i: nat) {
    i + 5 <= |s| && s[i..i + 5] == "Rated"
  }

  /** Python's `'Rated' in s`. */
  predicate ContainsRated(s: string) {
    exists i: nat :: i <= |s| && RatedAt(s, i)
  }

  /** Leftmost match position at or after `from`, as `re.search` scans. */
  function FindMatch(s: string, from: nat): (r: Option<nat>)
    ensures r.Some? ==> from <= r.value && MatchesAt(s, r.value)
    ensures r.Some? ==> forall j: nat :: from <= j < r.value ==> !MatchesAt(s, j)
    ensures r.None? ==> forall j: nat :: from <= j ==> !MatchesAt(s, j)
    decreases |s| - from
  {
    if from + |Prefix| > |s| then None
    else if MatchesAt(s, from) then Some(from)
    else FindMatch(s, from + 1)
  }

  /** `group(1)` of the match at `j`: the digit run after "Rated ". */
  function GroupDigits(s: string, j: nat): (g: string)
    requires MatchesAt(s, j)
    ensures 0 < |g| && AllDigits(g)
  {
    var start := j + |Prefix|;
    s[start..start + DigitRun(s[start..])]
  }

  /** The integer read from the group of the match at `j`. */
  function GroupValue(s: string, j: nat): nat
    requires MatchesAt(s, j)
  {
    DecimalValue(GroupDigits(s, j))
  }

  /** `search(...)` followed by the decimal value of `rating.group(1)`, or
      None when the pattern does not occur. This is the value `int` computes
      when the group is within its length limit (see `ParseRating`). */
  function SearchRating(alt: string): Option<nat> {
    match FindMatch(alt, 0)
    case None => None
    case Some(j) => Some(GroupValue(alt, j))
  }

  /** CPython's default limit on the number of digits `int` converts from a
      decimal string (`sys.int_info.default_max_str_digits`); a longer string
      raises `ValueError`. */
  const MaxStrDigits: nat := 4300

  /** `int(rating.group(1))` raising `ValueError` for an over-long group. */
  datatype ParseError = DigitLimitExceeded(digits: nat)

  /** The leftmost match captures more digits than `int` accepts. */
  ghost predicate ExceedsDigitLimit(alt: string) {
    exists j: nat :: MatchesAt(alt, j) && (forall i: nat :: i < j ==> !MatchesAt(alt, i))
      && |GroupDigits(alt, j)| > MaxStrDigits
  }

  /** The digit limit is decided by the group of the match `FindMatch`
      returns, since no other match is leftmost. */
  lemma ExceedsDigitLimitAtFound(alt: string)
    ensures FindMatch(alt, 0).None? ==> !ExceedsDigitLimit(alt)
    ensures FindMatch(alt, 0).Some? ==>
      (ExceedsDigitLimit(alt) <==> |GroupDigits(alt, FindMatch(alt, 0).value)| > MaxStrDigits)
  {
    var r := FindMatch(alt, 0);
    if r.Some? {
      var j := r.value;
      if |GroupDigits(alt, j)| > MaxStrDigits {
        assert forall i: nat :: i < j ==> !MatchesAt(alt, i);
      }
      if ExceedsDigitLimit(alt) {
        var j': nat :| MatchesAt(alt, j') && (forall i: nat :: i < j' ==> !MatchesAt(alt, i))
          && |GroupDigits(alt, j')| > MaxStrDigits;
        assert !(j' < j) && !(j < j');
      }
    }
  }

  /** `search(...)` followed by `int(rating.group(1))`: None when the pattern
      does not occur, an error when the leftmost group is longer than the
      digit limit, and the group's value otherwise. */
  function ParseRating(alt: string): (r: Result<Option<nat>, ParseError>)
    ensures r.Failure? <==> ExceedsDigitLimit(alt)
    ensures r.Success? ==> r.value == SearchRating(alt)
    ensures r.Failure? ==> r.error.digits > MaxStrDigits
    ensures r.Failure? ==> FindMatch(alt, 0).Some? && r.error.digits == |GroupDigits(alt, FindMatch(alt, 0).value)|
  {
    ExceedsDigitLimitAtFound(alt);
    match FindMatch(alt, 0)
    case None => Success(None)
    case Some(j) =>
      var g := GroupDigits(alt, j);
      if |g| > MaxStrDigits then Failure(DigitLimitExceeded(|g|))
      else Success(Some(DecimalValue(g)))
  }

  /** The parse succeeds exactly when the pattern occurs somewhere, and then
      yields the number of the leftmost occurrence; it is not range-checked
      against 1..5. */
  lemma SearchRatingSpec(alt: string)
    ensures SearchRating(alt).Some? <==> exists j: nat :: MatchesAt(alt, j)
    ensures SearchRating(alt).Some? ==>
      exists j: nat :: MatchesAt(alt, j) && (forall i: nat :: i < j ==> !MatchesAt(alt, i))
        && SearchRating(alt).value == GroupValue(alt, j)
  {
    var r := FindMatch(alt, 0);
    if r.Some? {
      assert MatchesAt(alt, r.value);
    }
  }

  /** Every match contains "Rated", so the `'Rated' in alt` pre-check never
      rejects an alt text that the pattern would have accepted. */
  lemma PrecheckIsRedundant(alt: string)
    requires !ContainsRated(alt)
    ensures SearchRating(alt) == None
  {
    forall j: nat | MatchesAt(alt, j) ensures false {
      assert alt[j..j + 5] == alt[j..j + |Prefix|][..5];
      assert RatedAt(alt, j);
    }
  }

  /** Round trip: the alt text written for rating `n` reads back as `n`. */
  lemma SearchRatingRoundTrip(n: nat)
    ensures SearchRating(Prefix + DecimalString(n) + Suffix) == Some(n)
  {
    var d := DecimalString(n);
    var s := Prefix + d + Suffix;
    assert s[..|Prefix|] == Prefix;
    assert s[|Prefix|..|Prefix| + |d|] == d;
    assert s[|Prefix| + |d|..|Prefix| + |d| + |Suffix|] == Suffix;
    assert GroupMatchesAt(s, 0, |d|);
    GroupIsDigitRun(s, 0, |d|);
    DecimalRoundTrip(n);
  }

  /** The alt text written for `n` matches at its start, with `str(n)` as
      the group. */
  lemma RatingTextMatch(n: nat)
    ensures var s := Prefix + DecimalString(n) + Suffix;
      FindMatch(s, 0) == Some(0) && GroupDigits(s, 0) == DecimalString(n)
  {
    var d := DecimalString(n);
    var s := Prefix + d + Suffix;
    assert s[..|Prefix|] == Prefix;
    assert s[|Prefix|..|Prefix| + |d|] == d;
    assert s[|Prefix| + |d|..|Prefix| + |d| + |Suffix|] == Suffix;
    GroupIsDigitRun(s, 0, |d|);
  }

  /** Under the digit limit the round trip holds for `int` as well; above
      it the same alt text makes `int` raise. */
  lemma ParseRatingRoundTrip(n: nat)
    ensures |DecimalString(n)| <= MaxStrDigits ==>
      ParseRating(Prefix + DecimalString(n) + Suffix) == Success(Some(n))
    ensures |DecimalString(n)| > MaxStrDigits ==>
      ParseRating(Prefix + DecimalString(n) + Suffix) == Failure(DigitLimitExceeded(|DecimalString(n)|))
  {
    RatingTextMatch(n);
    DecimalRoundTrip(n);
  }

  /** "Rated " followed by 4301 ones: the pattern matches, but `int` refuses
      the group. */
  lemma ParseRatingRejectsLongGroup()
    ensures var ones := seq(MaxStrDigits + 1, _ => '1');
      SearchRating(Prefix + ones + Suffix).Some?
      && ParseRating(Prefix + ones + Suffix) == Failure(DigitLimitExceeded(MaxStrDigits + 1))
  {
    var d := seq(MaxStrDigits + 1, _ => '1');
    var s := Prefix + d + Suffix;
    assert s[..|Prefix|] == Prefix;
    assert s[|Prefix|..|Prefix| + |d|] == d;
    assert s[|Prefix| + |d|..|Prefix| + |d| + |Suffix|] == Suffix;
    GroupIsDigitRun(s, 0, |d|);
    assert FindMatch(s, 0) == Some(0);
  }

  /** The site's usual alt text. */
  lemma SearchRatingAcceptsFour()
    ensures SearchRating("Rated 4 out of 5 stars") == Some(4)
  {
    var d := DecimalString(4);
    assert d == "4";
    var s := Prefix + d + Suffix;
    assert s == "Rated 4 out of 5 stars";
    SearchRatingRoundTrip(4);
  }

  /** A number outside 1..5 is still accepted. */
  lemma SearchRatingAcceptsTen()
    ensures SearchRating("Rated 10 out of 5 stars") == Some(10)
  {
    var d := DecimalString(10);
    assert d == DecimalString(1) + [DigitChar(0)] == "10";
    var s := Prefix + d + Suffix;
    assert s == "Rated 10 out of 5 stars";
    SearchRatingRoundTrip(10);
  }

  /** A missing number is not a match. */
  lemma SearchRatingRejectsNoDigits()
    ensures SearchRating("Rated  out of 5 stars") == None
  {
    var s := "Rated  out of 5 stars";
    forall j: nat | MatchesAt(s, j) ensures false {
    }
  }
}
