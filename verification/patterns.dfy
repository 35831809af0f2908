/**
 * The two regular expressions of the header scan, written as predicates over
 * the characters of a cell's text:
 *   store: (\d{5})\s*[-–]\s*([^,]+),?\s*([A-Z]{2})
 *   month: (January|...|December)\s+(\d{4})
 * `String.prototype.match` reports the leftmost position at which a match
 * exists; the functions here return the captured text of that match.
 */
module Patterns {
  import opened Wrappers
  import opened Text

  /** Two upper-case letters at `m` and `m + 1`: `[A-Z]{2}`. */
  predicate UpperPairAt(s: string, m: int) {
    0 <= m && m + 1 < |s| && IsUpper(s[m]) && IsUpper(s[m + 1])
  }

  /** An upper-case pair starting in `[lo, hi - 1)`, so lying wholly inside `[lo, hi)`. */
  predicate UpperPairWithin(s: string, lo: int, hi: int)
    decreases hi - lo
  {
    lo < hi - 1 && (UpperPairAt(s, lo) || UpperPairWithin(s, lo + 1, hi))
  }

  /**
   * `\s*([^,]+),?\s*([A-Z]{2})` matches starting at `p`. Since white space is
   * not a comma, `\s*[^,]+` matches exactly what `[^,]+` matches, so with `c`
   * the first comma at or after `p` there are two ways to match: the letter
   * pair lies before `c` after at least one character, or `[^,]+` runs up to
   * `c`, the comma is taken, and the pair follows the white space after it.
   */
  predicate CityStateAt(s: string, p: nat)
    requires p <= |s|
  {
    var c := FirstComma(s, p);
    UpperPairWithin(s, p + 1, c) || (p < c < |s| && UpperPairAt(s, SkipSpaces(s, c + 1)))
  }

  /** The store pattern matches starting at `i`. */
  predicate StoreMatchAt(s: string, i: nat) {
    i + 5 <= |s| && AllDigits(s[i..i + 5]) &&
    var k := SkipSpaces(s, i + 5);
    k < |s| && IsDash(s[k]) && CityStateAt(s, k + 1)
  }

  /** The leftmost position at or after `i` where the store pattern matches, or |s| when there is none. */
  function StoreMatchIndex(s: string, i: nat): (j: nat)
    requires i <= |s|
    ensures i <= j <= |s|
    ensures j < |s| ==> StoreMatchAt(s, j)
    decreases |s| - i
  {
    if i == |s| || StoreMatchAt(s, i) then i else StoreMatchIndex(s, i + 1)
  }

  lemma {:induction false} StoreMatchIndexIsFirst(s: string, i: nat)
    requires i <= |s|
    ensures forall k :: i <= k < StoreMatchIndex(s, i) ==> !StoreMatchAt(s, k)
    ensures StoreMatchIndex(s, i) < |s| ==> StoreMatchAt(s, StoreMatchIndex(s, i))
    decreases |s| - i
  {
    if i < |s| && !StoreMatchAt(s, i) {
      StoreMatchIndexIsFirst(s, i + 1);
    }
  }

  /** Group 1 of the leftmost store-pattern match: the five-digit store number. */
  function StoreNumberOf(s: string): (r: Option<string>)
    ensures r.Some? ==> |r.value| == 5 && AllDigits(r.value)
  {
    var j := StoreMatchIndex(s, 0);
    if j < |s| then Some(s[j..j + 5]) else None
  }

  /** The store number is present exactly when the pattern matches somewhere, and is the leftmost match's digits. */
  lemma StoreNumberIsLeftmostMatch(s: string)
    ensures StoreNumberOf(s).Some? <==> exists j | 0 <= j < |s| :: StoreMatchAt(s, j)
    ensures StoreNumberOf(s).Some? ==>
              exists j | 0 <= j < |s| :: StoreMatchAt(s, j) && StoreNumberOf(s).value == s[j..j + 5] &&
                forall k :: 0 <= k < j ==> !StoreMatchAt(s, k)
  {
    StoreMatchIndexIsFirst(s, 0);
    var j := StoreMatchIndex(s, 0);
    if j < |s| {
      assert StoreMatchAt(s, j);
    }
  }

  /** The month names of the month pattern's alternation, January first. */
  function MonthName(k: nat): (name: string)
    requires k < 12
    ensures 3 <= |name| <= 9
  {
    if k == 0 then "January" else if k == 1 then "February" else if k == 2 then "March"
    else if k == 3 then "April" else if k == 4 then "May" else if k == 5 then "June"
    else if k == 6 then "July" else if k == 7 then "August" else if k == 8 then "September"
    else if k == 9 then "October" else if k == 10 then "November" else "December"
  }

  /** The first month name, in declared order from `k`, that occurs at `i`; 12 when none does. */
  function MonthNameIndex(s: string, i: nat, k: nat): (n: nat)
    requires k <= 12
    ensures k <= n <= 12
    ensures n < 12 ==> OccursAt(s, MonthName(n), i)
    decreases 12 - k
  {
    if k == 12 || OccursAt(s, MonthName(k), i) then k
    else MonthNameIndex(s, i, k + 1)
  }

  /** No month name tried before the one returned occurs at `i`: the alternation takes the first that does. */
  lemma {:induction false} MonthNameIndexIsFirst(s: string, i: nat, k: nat)
    requires k <= 12
    ensures forall m :: k <= m < MonthNameIndex(s, i, k) ==> !OccursAt(s, MonthName(m), i)
    decreases 12 - k
  {
    if k < 12 && !OccursAt(s, MonthName(k), i) {
      var n := MonthNameIndex(s, i, k + 1);
      assert MonthNameIndex(s, i, k) == n;
      MonthNameIndexIsFirst(s, i, k + 1);
      forall m | k <= m < n
        ensures !OccursAt(s, MonthName(m), i)
      {
        if m > k {
          assert k + 1 <= m < n;
        }
      }
    }
  }

  /** `\s+(\d{4})` at `e`: at least one space, then the four year digits. */
  function YearAt(s: string, e: nat): (year: Option<string>)
    requires e <= |s|
    ensures year.Some? ==> |year.value| == 4 && AllDigits(year.value)
  {
    var d := SkipSpaces(s, e);
    if e < d && d + 4 <= |s| && AllDigits(s[d..d + 4]) then Some(s[d..d + 4]) else None
  }

  /** `January|...|December` then `\s+(\d{4})` at `i`: the text `${name} ${year}`, when it matches. */
  function MonthYearAt(s: string, i: nat): (r: Option<string>)
    ensures r.Some? ==> |r.value| >= 8
  {
    var n := MonthNameIndex(s, i, 0);
    if n == 12 then None
    else
      var year := YearAt(s, i + |MonthName(n)|);
      if year.Some? then Some(MonthName(n) + " " + year.value) else None
  }

  /** `name + " " + year` splits back into the name, the space and the year. */
  lemma JoinShape(name: string, year: string)
    ensures |name + " " + year| == |name| + 1 + |year|
    ensures (name + " " + year)[..|name|] == name
    ensures (name + " " + year)[|name|] == ' '
    ensures (name + " " + year)[|name| + 1..] == year
  {
    var r := name + " " + year;
    assert r[..|name|] == name;
    assert r[|name| + 1..] == year;
  }

  /** The leftmost position at or after `i` where the month pattern matches, or |s|. */
  function MonthMatchIndex(s: string, i: nat): (j: nat)
    requires i <= |s|
    ensures i <= j <= |s|
    ensures j < |s| ==> MonthYearAt(s, j).Some?
    decreases |s| - i
  {
    if i == |s| || MonthYearAt(s, i).Some? then i else MonthMatchIndex(s, i + 1)
  }

  lemma {:induction false} MonthMatchIndexIsFirst(s: string, i: nat)
    requires i <= |s|
    ensures forall k :: i <= k < MonthMatchIndex(s, i) ==> MonthYearAt(s, k).None?
    ensures MonthMatchIndex(s, i) < |s| ==> MonthYearAt(s, MonthMatchIndex(s, i)).Some?
    decreases |s| - i
  {
    if i < |s| && MonthYearAt(s, i).None? {
      MonthMatchIndexIsFirst(s, i + 1);
      forall k | i <= k < MonthMatchIndex(s, i)
        ensures MonthYearAt(s, k).None?
      {
        if k > i {
          assert i + 1 <= k < MonthMatchIndex(s, i + 1);
        }
      }
    }
  }

  /** `${m[1]} ${m[2]}` of the leftmost month-pattern match. */
  function MonthOf(s: string): (r: Option<string>)
    ensures r.Some? ==> r.value != ""
  {
    var j := MonthMatchIndex(s, 0);
    if j < |s| then MonthYearAt(s, j) else None
  }

  /** A month match yields a month name, one space and the four digits of the year. */
  lemma MonthYearShape(s: string, i: nat)
    requires MonthYearAt(s, i).Some?
    ensures exists n | 0 <= n < 12 ::
              OccursAt(s, MonthName(n), i) &&
              |MonthYearAt(s, i).value| == |MonthName(n)| + 5 &&
              MonthYearAt(s, i).value[..|MonthName(n)|] == MonthName(n) &&
              MonthYearAt(s, i).value[|MonthName(n)|] == ' ' &&
              AllDigits(MonthYearAt(s, i).value[|MonthName(n)| + 1..])
  {
    var n := MonthNameIndex(s, i, 0);
    var name := MonthName(n);
    var year := YearAt(s, i + |name|).value;
    var r := MonthYearAt(s, i).value;
    assert r == name + " " + year;
    JoinShape(name, year);
    assert OccursAt(s, name, i) && |r| == |name| + 5 && r[..|name|] == name && r[|name|] == ' ' &&
           AllDigits(r[|name| + 1..]);
  }

  /** The month is present exactly when the pattern matches somewhere, and is the leftmost match's text. */
  lemma MonthIsLeftmostMatch(s: string)
    ensures MonthOf(s).Some? <==> exists j | 0 <= j < |s| :: MonthYearAt(s, j).Some?
    ensures MonthOf(s).Some? ==>
              exists j | 0 <= j < |s| :: MonthOf(s) == MonthYearAt(s, j) &&
                forall k :: 0 <= k < j ==> MonthYearAt(s, k).None?
  {
    MonthMatchIndexIsFirst(s, 0);
    var j := MonthMatchIndex(s, 0);
    if j < |s| {
      assert MonthYearAt(s, j).Some?;
    }
  }
}
