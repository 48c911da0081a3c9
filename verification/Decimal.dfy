/** Decimal numerals: printing, parsing, and the maximal digit runs of a text. */
module Decimal {
  import opened Common

  predicate IsDigit(c: char) {
    '0' <= c <= '9'
  }

  predicate IsNumeral(s: string) {
    forall i | 0 <= i < |s| :: IsDigit(s[i])
  }

  function DigitValue(c: char): (d: nat)
    requires IsDigit(c)
    ensures d < 10
  {
    c as int - '0' as int
  }

  function DigitChar(d: nat): (c: char)
    requires d < 10
    ensures IsDigit(c) && DigitValue(c) == d
  {
    (d + '0' as int) as char
  }

  /** The number a digit string denotes; leading zeros are allowed. */
  function Denotes(s: string): nat
    requires IsNumeral(s)
  {
    if s == "" then 0 else Denotes(s[..|s| - 1]) * 10 + DigitValue(s[|s| - 1])
  }

  /** `strconv.ParseInt(s, 10, 64)` on a digit string: out of range is an error. */
  function ParseInt64(s: string): Option<nat>
    requires IsNumeral(s)
  {
    if Denotes(s) < INT64_LIMIT then Some(Denotes(s)) else None
  }

  /** `strconv.FormatInt(n, 10)` for a non-negative number. */
  function Format(n: nat): (s: string)
    ensures s != "" && IsNumeral(s)
  {
    if n < 10 then [DigitChar(n)] else Format(n / 10) + [DigitChar(n % 10)]
  }

  /** Printing then parsing gives the number back. */
  lemma {:induction false} FormatRoundTrip(n: nat)
    ensures Denotes(Format(n)) == n
  {
    if n >= 10 {
      FormatRoundTrip(n / 10);
      var s := Format(n);
      assert s[..|s| - 1] == Format(n / 10);
    }
  }

  /** A printed number begins with a zero only if it is zero. */
  lemma {:induction false} FormatHasNoLeadingZero(n: nat)
    ensures Format(n)[0] == '0' <==> n == 0
  {
    if n >= 10 {
      FormatHasNoLeadingZero(n / 10);
      assert Format(n)[0] == Format(n / 10)[0];
    } else {
      assert DigitValue('0') == 0;
    }
  }

  lemma FormatIsInjective(m: nat, n: nat)
    requires Format(m) == Format(n)
    ensures m == n
  {
    FormatRoundTrip(m);
    FormatRoundTrip(n);
  }

  /** A digit run that cannot be extended on either side. */
  predicate MaximalRun(text: string, i: int, j: int) {
    && 0 <= i < j <= |text|
    && (forall k | i <= k < j :: IsDigit(text[k]))
    && (i == 0 || !IsDigit(text[i - 1]))
    && (j == |text| || !IsDigit(text[j]))
  }

  /** Some maximal digit run of the text denotes v. */
  ghost predicate Names(text: string, v: nat) {
    exists i, j :: MaximalRun(text, i, j) && Denotes(text[i..j]) == v
  }

  function RunEnd(text: string, i: nat): (j: nat)
    requires i <= |text|
    ensures i <= j <= |text|
    ensures forall k | i <= k < j :: IsDigit(text[k])
    ensures j == |text| || !IsDigit(text[j])
    decreases |text| - i
  {
    if i < |text| && IsDigit(text[i]) then RunEnd(text, i + 1) else i
  }

  /** `regexp.FindAllString` with the pattern for one or more digits: leftmost, greedy, from position k. */
  function Runs(text: string, k: nat): (runs: seq<(nat, nat)>)
    requires k <= |text|
    ensures forall r | r in runs :: r.0 < r.1 <= |text| && IsNumeral(text[r.0..r.1])
    decreases |text| - k
  {
    if k == |text| then []
    else if !IsDigit(text[k]) then Runs(text, k + 1)
    else [(k, RunEnd(text, k + 1))] + Runs(text, RunEnd(text, k + 1))
  }

  /** The texts of all runs, in order. */
  function FindAll(text: string): (matches: seq<string>)
    ensures forall m | m in matches :: IsNumeral(m)
  {
    var runs := Runs(text, 0);
    seq(|runs|, n requires 0 <= n < |runs| => assert runs[n] in runs; text[runs[n].0..runs[n].1])
  }

  /** No run crosses position k. */
  predicate Boundary(text: string, k: nat)
    requires k <= |text|
  {
    k == 0 || k == |text| || !IsDigit(text[k - 1]) || !IsDigit(text[k])
  }

  /** The scan finds exactly the maximal runs. */
  lemma {:induction false} RunsAreTheMaximalRuns(text: string, k: nat, i: nat, j: nat)
    requires k <= |text| && Boundary(text, k)
    ensures (i, j) in Runs(text, k) <==> k <= i && MaximalRun(text, i, j)
    decreases |text| - k
  {
    if k == |text| {
    } else if !IsDigit(text[k]) {
      RunsAreTheMaximalRuns(text, k + 1, i, j);
    } else {
      var e := RunEnd(text, k + 1);
      RunsAreTheMaximalRuns(text, e, i, j);
      assert MaximalRun(text, k, e);
      if MaximalRun(text, i, j) && k <= i < e {
        assert i == k;
        assert j == e;
      }
    }
  }

  lemma MatchesAreTheMaximalRuns(text: string, m: string)
    ensures m in FindAll(text) <==> exists i, j :: MaximalRun(text, i, j) && m == text[i..j]
  {
    var runs := Runs(text, 0);
    if m in FindAll(text) {
      var n :| 0 <= n < |runs| && m == FindAll(text)[n];
      assert runs[n] in runs;
      RunsAreTheMaximalRuns(text, 0, runs[n].0, runs[n].1);
    }
    if i, j :| MaximalRun(text, i, j) && m == text[i..j] {
      RunsAreTheMaximalRuns(text, 0, i, j);
      var n :| 0 <= n < |runs| && runs[n] == (i, j);
      assert FindAll(text)[n] == m;
    }
  }

  /** A numeral set between digit-free texts is the only maximal run. */
  lemma EmbeddedNumeralIsTheOnlyRun(before: string, numeral: string, after: string, i: int, j: int)
    requires numeral != "" && IsNumeral(numeral)
    requires forall k | 0 <= k < |before| :: !IsDigit(before[k])
    requires forall k | 0 <= k < |after| :: !IsDigit(after[k])
    ensures MaximalRun(before + numeral + after, i, j) <==> i == |before| && j == |before| + |numeral|
  {
    var text := before + numeral + after;
    var a, b := |before|, |before| + |numeral|;
    assert forall k | a <= k < b :: text[k] == numeral[k - a];
    assert a > 0 ==> !IsDigit(text[a - 1]);
    assert b < |text| ==> text[b] == after[0];
    assert MaximalRun(text, a, b);
    if MaximalRun(text, i, j) {
      assert IsDigit(text[i]) && IsDigit(text[j - 1]);
      assert i >= a && j <= b;
    }
  }
}
