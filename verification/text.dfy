/**
 * Character classes and string helpers standing in for the JavaScript string
 * operations the extractor uses: `toLowerCase` (ASCII only), `includes`, and
 * the character classes `\d`, `\s`, `[A-Z]` of its two regular expressions.
 */
module Text {

  predicate IsDigit(c: char) { '0' <= c <= '9' }

  predicate IsUpper(c: char) { 'A' <= c <= 'Z' }

  /** `\s`, restricted to the ASCII white-space characters. */
  predicate IsSpace(c: char) {
    c == ' ' || c == '\t' || c == '\n' || c == '\r' || c == '\U{000B}' || c == '\U{000C}'
  }

  /** `[-–]`: an ASCII hyphen or an en dash (U+2013). */
  predicate IsDash(c: char) { c == '-' || c == '\U{2013}' }

  /** `\d*` matches the whole of `s`. */
  predicate AllDigits(s: string) {
    s == [] || (IsDigit(s[0]) && AllDigits(s[1..]))
  }

  lemma {:induction false} AllDigitsAt(s: string, i: nat)
    requires AllDigits(s) && i < |s|
    ensures IsDigit(s[i])
  {
    if i > 0 {
      AllDigitsAt(s[1..], i - 1);
    }
  }

  /** A string whose every character is a digit satisfies `\d*`. */
  lemma {:induction false} DigitsAreAllDigits(s: string)
    requires forall i :: 0 <= i < |s| ==> IsDigit(s[i])
    ensures AllDigits(s)
  {
    if s != [] {
      assert forall i :: 0 <= i < |s| - 1 ==> s[1..][i] == s[i + 1];
      DigitsAreAllDigits(s[1..]);
    }
  }

  function LowerChar(c: char): (d: char)
    ensures IsUpper(c) ==> d as int == c as int + 32
    ensures !IsUpper(c) ==> d == c
  {
    if IsUpper(c) then (c as int + 32) as char else c
  }

  /** ASCII `toLowerCase`. */
  function Lower(s: string): (r: string)
    ensures |r| == |s|
    ensures forall i :: 0 <= i < |s| ==> r[i] == LowerChar(s[i])
  {
    seq(|s|, i requires 0 <= i < |s| => LowerChar(s[i]))
  }

  /**
   * Lower-casing keeps the length, leaves no upper-case letter, and changes
   * nothing but upper-case letters, so it is idempotent.
   */
  lemma LowerFacts(s: string)
    ensures |Lower(s)| == |s|
    ensures forall i :: 0 <= i < |s| ==> !IsUpper(Lower(s)[i])
    ensures forall i :: 0 <= i < |s| && !IsUpper(s[i]) ==> Lower(s)[i] == s[i]
    ensures Lower(Lower(s)) == Lower(s)
  {
  }

  /** `sub` occurs in `s` starting at index `i`. */
  predicate OccursAt(s: string, sub: string, i: int) {
    0 <= i && i + |sub| <= |s| && s[i..i + |sub|] == sub
  }

  /** `sub` occurs in `s` at some position at or after `i`. */
  predicate ContainsFrom(s: string, sub: string, i: nat)
    decreases |s| - i
  {
    i + |sub| <= |s| && (OccursAt(s, sub, i) || ContainsFrom(s, sub, i + 1))
  }

  /** `s.includes(sub)`. */
  predicate Contains(s: string, sub: string) {
    ContainsFrom(s, sub, 0)
  }

  lemma {:induction false} ContainsFromIff(s: string, sub: string, i: nat)
    ensures ContainsFrom(s, sub, i) <==> exists k :: i <= k && OccursAt(s, sub, k)
    decreases |s| - i
  {
    if i + |sub| <= |s| {
      ContainsFromIff(s, sub, i + 1);
      forall k | i <= k && OccursAt(s, sub, k)
        ensures k == i || i + 1 <= k
      {
      }
    }
  }

  /** `s.includes(sub)` holds exactly when `sub` occurs in `s` at some position. */
  lemma ContainsIff(s: string, sub: string)
    ensures Contains(s, sub) <==> exists k :: OccursAt(s, sub, k)
  {
    ContainsFromIff(s, sub, 0);
  }

  /** The first index at or after `k` whose character is not white space (or |s|). */
  function SkipSpaces(s: string, k: nat): (r: nat)
    requires k <= |s|
    ensures k <= r <= |s|
    ensures r < |s| ==> !IsSpace(s[r])
    decreases |s| - k
  {
    if k < |s| && IsSpace(s[k]) then SkipSpaces(s, k + 1) else k
  }

  /** The first index at or after `k` holding a comma (or |s|). */
  function FirstComma(s: string, k: nat): (r: nat)
    requires k <= |s|
    ensures k <= r <= |s|
    ensures r < |s| ==> s[r] == ','
    decreases |s| - k
  {
    if k < |s| && s[k] != ',' then FirstComma(s, k + 1) else k
  }

  /** Every character SkipSpaces passes over is white space. */
  lemma {:induction false} SkipSpacesSkipsSpaces(s: string, k: nat)
    requires k <= |s|
    ensures forall i :: k <= i < SkipSpaces(s, k) ==> IsSpace(s[i])
    decreases |s| - k
  {
    if k < |s| && IsSpace(s[k]) {
      SkipSpacesSkipsSpaces(s, k + 1);
    }
  }

  /** No character before the one FirstComma finds is a comma. */
  lemma {:induction false} FirstCommaIsFirst(s: string, k: nat)
    requires k <= |s|
    ensures forall i :: k <= i < FirstComma(s, k) ==> s[i] != ','
    decreases |s| - k
  {
    if k < |s| && s[k] != ',' {
      FirstCommaIsFirst(s, k + 1);
    }
  }

  /** A comma at `c` with none in `[k, c)` is the one FirstComma finds. */
  lemma FirstCommaAt(s: string, k: nat, c: nat)
    requires k <= c < |s| && s[c] == ','
    requires forall i :: k <= i < c ==> s[i] != ','
    ensures FirstComma(s, k) == c
  {
    FirstCommaIsFirst(s, k);
  }

  /** If `big` occurs in `s` then so does every slice of `big`. */
  lemma ContainsSlice(s: string, big: string, lo: nat, hi: nat)
    requires lo <= hi <= |big|
    requires Contains(s, big)
    ensures Contains(s, big[lo..hi])
  {
    ContainsIff(s, big);
    var i :| OccursAt(s, big, i);
    forall k | 0 <= k < hi - lo ensures s[i + lo..i + hi][k] == big[lo..hi][k] {
      assert s[i + lo + k] == s[i..i + |big|][lo + k];
    }
    assert OccursAt(s, big[lo..hi], i + lo);
    ContainsIff(s, big[lo..hi]);
  }
}
