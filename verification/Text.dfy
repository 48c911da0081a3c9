/**
 Text as a sequence of code points, with the three library operations the gate is built on:
 substring search, removal of every occurrence of a marker, and trimming of white space.
 */
module Text {

  predicate OccursAt(text: string, marker: string, i: int) {
    0 <= i <= |text| - |marker| && text[i..i + |marker|] == marker
  }

  /** `strings.Contains`; the empty marker occurs in every text. */
  predicate Contains(text: string, marker: string) {
    exists i | 0 <= i <= |text| - |marker| :: OccursAt(text, marker, i)
  }

  /** A marker is in a text exactly when the text can be cut around it. */
  lemma ContainsIffCut(text: string, marker: string)
    ensures Contains(text, marker) <==> exists before, after :: text == before + marker + after
  {
    if i :| 0 <= i <= |text| - |marker| && OccursAt(text, marker, i) {
      assert text == text[..i] + marker + text[i + |marker|..];
    }
    if before, after :| text == before + marker + after {
      assert text[|before|..|before| + |marker|] == marker;
      assert OccursAt(text, marker, |before|);
    }
  }

  predicate ContainsAny(text: string, markers: seq<string>) {
    exists m | m in markers :: Contains(text, m)
  }

  /** Two texts that occur in each other are equal. */
  lemma ContainsIsAntisymmetric(a: string, b: string)
    requires Contains(a, b) && Contains(b, a)
    ensures a == b
  {
    var i :| 0 <= i <= |a| - |b| && OccursAt(a, b, i);
    var j :| 0 <= j <= |b| - |a| && OccursAt(b, a, j);
    assert a[i..i + |b|] == a;
  }

  /** `strings.ReplaceAll(text, marker, "")`: leftmost, non-overlapping removal. */
  function RemoveAll(text: string, marker: string): string
    requires marker != ""
  {
    if |text| < |marker| then text
    else if text[..|marker|] == marker then RemoveAll(text[|marker|..], marker)
    else [text[0]] + RemoveAll(text[1..], marker)
  }

  lemma {:induction false} RemoveAllOfAbsentMarker(text: string, marker: string)
    requires marker != "" && !Contains(text, marker)
    ensures RemoveAll(text, marker) == text
    decreases |text|
  {
    if |text| >= |marker| {
      assert !OccursAt(text, marker, 0);
      forall i | 0 <= i <= |text| - 1 - |marker|
        ensures !OccursAt(text[1..], marker, i)
      {
        assert !OccursAt(text, marker, i + 1);
        assert text[1..][i..i + |marker|] == text[i + 1..i + 1 + |marker|];
      }
      RemoveAllOfAbsentMarker(text[1..], marker);
    }
  }

  lemma PrependTo(text: string, i: nat, rest: string)
    requires 0 < i <= |text|
    ensures [text[0]] + (text[1..][..i - 1] + rest) == text[..i] + rest
  {
    assert [text[0]] + text[1..][..i - 1] == text[..i];
  }

  predicate FirstAt(text: string, marker: string, i: nat) {
    OccursAt(text, marker, i) && forall j | 0 <= j < i :: !OccursAt(text, marker, j)
  }

  lemma FirstInTail(text: string, marker: string, i: nat)
    requires i > 0 && FirstAt(text, marker, i)
    ensures FirstAt(text[1..], marker, i - 1)
    ensures text[1..][i - 1 + |marker|..] == text[i + |marker|..]
    ensures text[..|marker|] != marker
  {
    assert !OccursAt(text, marker, 0) && text[..|marker|] == text[0..|marker|];
    OccursInTail(text, marker, 1, i - 1);
    forall j | 0 <= j < i - 1
      ensures !OccursAt(text[1..], marker, j)
    {
      OccursInTail(text, marker, 1, j);
      assert !OccursAt(text, marker, j + 1);
    }
  }

  lemma RemoveAllMovesOn(text: string, marker: string)
    requires marker != "" && |text| >= |marker| && text[..|marker|] != marker
    ensures RemoveAll(text, marker) == [text[0]] + RemoveAll(text[1..], marker)
  {
  }

  /** Removal goes from left to right: the first occurrence goes, and what follows it is searched afresh. */
  lemma {:induction false} RemoveAllAtFirst(text: string, marker: string, i: nat)
    requires marker != "" && FirstAt(text, marker, i)
    ensures RemoveAll(text, marker) == text[..i] + RemoveAll(text[i + |marker|..], marker)
    decreases i
  {
    var rest := RemoveAll(text[i + |marker|..], marker);
    if i == 0 {
      assert text[..|marker|] == text[0..|marker|] == marker;
      assert text[..0] + rest == rest;
    } else {
      FirstInTail(text, marker, i);
      RemoveAllAtFirst(text[1..], marker, i - 1);
      assert RemoveAll(text[1..], marker) == text[1..][..i - 1] + rest;
      RemoveAllMovesOn(text, marker);
      PrependTo(text, i, rest);
    }
  }

  /** An occurrence shared with a longer text. */
  lemma OccursInTail(text: string, marker: string, n: nat, i: int)
    requires n <= |text|
    ensures OccursAt(text[n..], marker, i) ==> OccursAt(text, marker, i + n)
    ensures i >= 0 && OccursAt(text, marker, i + n) ==> OccursAt(text[n..], marker, i)
  {
    if 0 <= i <= |text| - n - |marker| {
      assert text[n..][i..i + |marker|] == text[i + n..i + n + |marker|];
    }
  }

  lemma ContainsInConcat(before: string, text: string, marker: string)
    requires Contains(text, marker)
    ensures Contains(before + text, marker)
  {
    var i :| 0 <= i <= |text| - |marker| && OccursAt(text, marker, i);
    assert (before + text)[|before|..] == text;
    OccursInTail(before + text, marker, |before|, i);
  }

  /** The two occurrences share no position. */
  predicate Apart(a: string, i: int, b: string, j: int) {
    i + |a| <= j || j + |b| <= i
  }

  /** Characters before the first removed occurrence stay where they are. */
  lemma {:induction false} RemoveAllKeepsHead(text: string, removed: string, n: nat)
    requires removed != "" && n <= |text|
    requires forall j | 0 <= j < n :: !OccursAt(text, removed, j)
    ensures n <= |RemoveAll(text, removed)| && RemoveAll(text, removed)[..n] == text[..n]
    decreases n
  {
    if n > 0 && |text| >= |removed| {
      assert !OccursAt(text, removed, 0);
      forall j | 0 <= j < n - 1
        ensures !OccursAt(text[1..], removed, j)
      {
        OccursInTail(text, removed, 1, j);
        assert !OccursAt(text, removed, j + 1);
      }
      RemoveAllKeepsHead(text[1..], removed, n - 1);
      assert text[..n] == [text[0]] + text[1..][..n - 1];
    }
  }

  /** An occurrence that lies apart from every occurrence of the removed marker survives the removal. */
  lemma {:induction false} RemoveAllKeepsApart(text: string, removed: string, kept: string, i: nat)
    requires removed != "" && kept != "" && OccursAt(text, kept, i)
    requires forall j | 0 <= j <= |text| - |removed| && OccursAt(text, removed, j) :: Apart(kept, i, removed, j)
    ensures Contains(RemoveAll(text, removed), kept)
    decreases |text|
  {
    var n := |removed|;
    if |text| < n {
    } else if text[..n] == removed {
      assert OccursAt(text, removed, 0);
      forall j | 0 <= j <= |text| - n - n && OccursAt(text[n..], removed, j)
        ensures Apart(kept, i - n, removed, j)
      {
        OccursInTail(text, removed, n, j);
      }
      OccursInTail(text, kept, n, i - n);
      RemoveAllKeepsApart(text[n..], removed, kept, i - n);
    } else if i > 0 {
      forall j | 0 <= j <= |text| - 1 - n && OccursAt(text[1..], removed, j)
        ensures Apart(kept, i - 1, removed, j)
      {
        OccursInTail(text, removed, 1, j);
      }
      OccursInTail(text, kept, 1, i - 1);
      RemoveAllKeepsApart(text[1..], removed, kept, i - 1);
      ContainsInConcat([text[0]], RemoveAll(text[1..], removed), kept);
    } else {
      RemoveAllKeepsHead(text, removed, |kept|);
      assert OccursAt(RemoveAll(text, removed), kept, 0);
    }
  }

  /** A marker that shares no character with the removed one survives. */
  lemma RemoveAllKeepsUnrelated(text: string, removed: string, kept: string)
    requires removed != "" && kept != "" && Contains(text, kept)
    requires forall c | c in kept :: c !in removed
    ensures Contains(RemoveAll(text, removed), kept)
  {
    var i :| 0 <= i <= |text| - |kept| && OccursAt(text, kept, i);
    forall j | 0 <= j <= |text| - |removed| && OccursAt(text, removed, j)
      ensures Apart(kept, i, removed, j)
    {
      var p := if i <= j then j else i;
      assert i <= p < i + |kept| ==> text[p] == kept[p - i] && kept[p - i] in kept;
      assert j <= p < j + |removed| ==> text[p] == removed[p - j] && removed[p - j] in removed;
    }
    RemoveAllKeepsApart(text, removed, kept, i);
  }

  predicate IsSubsequence(a: string, b: string)
    decreases |b|
  {
    if a == "" then true
    else if b == "" then false
    else if a[0] == b[0] then IsSubsequence(a[1..], b[1..])
    else IsSubsequence(a, b[1..])
  }

  lemma {:induction false} SubsequenceIsReflexive(a: string)
    ensures IsSubsequence(a, a)
  {
    if a != "" {
      SubsequenceIsReflexive(a[1..]);
    }
  }

  /** Dropping the first element keeps a subsequence. */
  lemma {:induction false} SubsequenceOfTail(a: string, b: string)
    requires a != "" && IsSubsequence(a, b)
    ensures b != "" && IsSubsequence(a[1..], b[1..])
    decreases |b|
  {
    if a[0] != b[0] {
      SubsequenceOfTail(a, b[1..]);
      SubsequenceWeaken(a[1..], b[1..]);
    }
  }

  lemma {:induction false} SubsequenceWeaken(a: string, b: string)
    requires b != "" && IsSubsequence(a, b[1..])
    ensures IsSubsequence(a, b)
    decreases |b|
  {
    if a != "" && a[0] == b[0] {
      SubsequenceOfTail(a, b[1..]);
      SubsequenceWeaken(a[1..], b[1..]);
    }
  }

  lemma {:induction false} SubsequenceIsTransitive(a: string, b: string, c: string)
    requires IsSubsequence(a, b) && IsSubsequence(b, c)
    ensures IsSubsequence(a, c)
    decreases |c|
  {
    if a == "" {
    } else if b[0] == c[0] {
      if a[0] == b[0] {
        SubsequenceIsTransitive(a[1..], b[1..], c[1..]);
      } else {
        SubsequenceIsTransitive(a, b[1..], c[1..]);
        SubsequenceWeaken(a, c);
      }
    } else {
      SubsequenceIsTransitive(a, b, c[1..]);
      SubsequenceWeaken(a, c);
    }
  }

  lemma {:induction false} SubsequenceSkip(a: string, b: string, n: nat)
    requires n <= |b| && IsSubsequence(a, b[n..])
    ensures IsSubsequence(a, b)
    decreases n
  {
    if n == 0 {
      assert b[0..] == b;
    } else {
      assert b[1..][n - 1..] == b[n..];
      SubsequenceSkip(a, b[1..], n - 1);
      SubsequenceWeaken(a, b);
    }
  }

  /** Removal only drops characters. */
  lemma {:induction false} RemoveAllIsSubsequence(text: string, marker: string)
    requires marker != ""
    ensures IsSubsequence(RemoveAll(text, marker), text)
    decreases |text|
  {
    if |text| < |marker| {
      SubsequenceIsReflexive(text);
    } else if text[..|marker|] == marker {
      RemoveAllIsSubsequence(text[|marker|..], marker);
      SubsequenceSkip(RemoveAll(text, marker), text, |marker|);
    } else {
      RemoveAllIsSubsequence(text[1..], marker);
      assert RemoveAll(text, marker)[1..] == RemoveAll(text[1..], marker);
    }
  }

  /** Unicode white space, as `strings.TrimSpace` sees it. */
  predicate IsSpace(c: char) {
    || '\t' <= c <= '\r'
    || c == ' ' || c == '\U{0085}' || c == '\U{00A0}' || c == '\U{1680}'
    || '\U{2000}' <= c <= '\U{200A}'
    || c == '\U{2028}' || c == '\U{2029}' || c == '\U{202F}' || c == '\U{205F}' || c == '\U{3000}'
  }

  /** The 25 code points with the White_Space property. */
  lemma SpacesAreTheWhiteSpaces(c: char)
    ensures IsSpace(c) <==> c in "\U{0009}\U{000A}\U{000B}\U{000C}\U{000D}\U{0020}\U{0085}\U{00A0}\U{1680}" +
                                 "\U{2000}\U{2001}\U{2002}\U{2003}\U{2004}\U{2005}\U{2006}\U{2007}\U{2008}" +
                                 "\U{2009}\U{200A}\U{2028}\U{2029}\U{202F}\U{205F}\U{3000}"
  {
  }

  function TrimLeft(s: string): string {
    if s != "" && IsSpace(s[0]) then TrimLeft(s[1..]) else s
  }

  function TrimRight(s: string): string {
    if s != "" && IsSpace(s[|s| - 1]) then TrimRight(s[..|s| - 1]) else s
  }

  function TrimSpace(s: string): string {
    TrimRight(TrimLeft(s))
  }

  predicate Trimmed(s: string) {
    s == "" || (!IsSpace(s[0]) && !IsSpace(s[|s| - 1]))
  }

  lemma {:induction false} TrimRightKeepsHead(s: string)
    ensures var r := TrimRight(s); r <= s && (r == "" || !IsSpace(r[|r| - 1]))
  {
    if s != "" && IsSpace(s[|s| - 1]) {
      TrimRightKeepsHead(s[..|s| - 1]);
    }
  }

  lemma {:induction false} TrimLeftStopsAtText(s: string)
    ensures var r := TrimLeft(s); r == "" || !IsSpace(r[0])
  {
    if s != "" && IsSpace(s[0]) {
      TrimLeftStopsAtText(s[1..]);
    }
  }

  /** Trimming leaves no outer white space, so trimming again changes nothing. */
  lemma TrimIsIdempotent(s: string)
    ensures Trimmed(TrimSpace(s))
    ensures TrimSpace(TrimSpace(s)) == TrimSpace(s)
  {
    TrimLeftStopsAtText(s);
    TrimRightKeepsHead(TrimLeft(s));
  }

  predicate AllSpace(s: string) {
    forall i | 0 <= i < |s| :: IsSpace(s[i])
  }

  lemma {:induction false} TrimLeftCuts(s: string) returns (before: string)
    ensures s == before + TrimLeft(s) && AllSpace(before)
  {
    if s != "" && IsSpace(s[0]) {
      var rest := TrimLeftCuts(s[1..]);
      before := [s[0]] + rest;
    } else {
      before := "";
    }
  }

  lemma {:induction false} TrimRightCuts(s: string) returns (after: string)
    ensures s == TrimRight(s) + after && AllSpace(after)
  {
    if s != "" && IsSpace(s[|s| - 1]) {
      var rest := TrimRightCuts(s[..|s| - 1]);
      after := rest + [s[|s| - 1]];
    } else {
      after := "";
    }
  }

  /** Trimming cuts white space off both ends and nothing else. */
  lemma TrimCutsOnlySpace(s: string) returns (before: string, after: string)
    ensures s == before + TrimSpace(s) + after && AllSpace(before) && AllSpace(after) && Trimmed(TrimSpace(s))
  {
    before := TrimLeftCuts(s);
    after := TrimRightCuts(TrimLeft(s));
    TrimIsIdempotent(s);
  }

  lemma TrimmedIsUnchanged(s: string)
    requires Trimmed(s)
    ensures TrimSpace(s) == s
  {
    assert TrimLeft(s) == s;
  }
}
