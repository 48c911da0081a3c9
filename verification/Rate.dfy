/** How many moments, a fixed gap apart, fit into an interval. */
module Rate {
  import opened Common

  /** How many positions are marked with a time. */
  function Count(marks: seq<Option<int>>): nat {
    if marks == [] then 0
    else Count(marks[..|marks| - 1]) + (if marks[|marks| - 1].Some? then 1 else 0)
  }

  /** That is the number of the marked positions. */
  lemma {:induction false} CountIsCardinality(marks: seq<Option<int>>)
    ensures Count(marks) == |set n | 0 <= n < |marks| && marks[n].Some?|
  {
    var all := set n | 0 <= n < |marks| && marks[n].Some?;
    if marks == [] {
      assert all == {};
    } else {
      var last := |marks| - 1;
      var rest := marks[..last];
      CountIsCardinality(rest);
      var earlier := set n | 0 <= n < |rest| && rest[n].Some?;
      assert all == if marks[last].Some? then earlier + {last} else earlier;
    }
  }

  /** Marked times lie in the interval, and each is at least a gap after every marked time before it. */
  predicate SpreadOut(marks: seq<Option<int>>, gap: int, from: int, to: int) {
    && (forall i | 0 <= i < |marks| && marks[i].Some? :: from <= marks[i].value <= to)
    && forall i, j | 0 <= i < j < |marks| && marks[i].Some? && marks[j].Some? :: marks[i].value + gap <= marks[j].value
  }

  lemma {:induction false} LastMarkIsLate(marks: seq<Option<int>>, gap: int, from: int, to: int) returns (last: int)
    requires gap > 0 && SpreadOut(marks, gap, from, to)
    ensures Count(marks) > 0 ==>
              0 <= last < |marks| && marks[last].Some? && marks[last].value >= from + (Count(marks) - 1) * gap
  {
    last := -1;
    if marks != [] {
      var n := |marks| - 1;
      last := LastMarkIsLate(marks[..n], gap, from, to);
      if marks[n].Some? {
        var c := Count(marks[..n]);
        if c > 0 {
          OneMoreGap(c, gap, from, marks[last].value, marks[n].value);
        }
        last := n;
      }
    }
  }

  lemma OneMoreGap(c: nat, gap: int, from: int, earlier: int, later: int)
    requires earlier >= from + (c - 1) * gap && later >= earlier + gap
    ensures later >= from + c * gap
  {
    assert (c - 1) * gap + gap == c * gap;
  }

  /** At most 1 + t / gap of them. */
  lemma CountIsBounded(marks: seq<Option<int>>, gap: int, from: int, t: nat)
    requires gap > 0 && SpreadOut(marks, gap, from, from + t)
    ensures |set n | 0 <= n < |marks| && marks[n].Some?| <= 1 + t / gap
  {
    CountIsCardinality(marks);
    var last := LastMarkIsLate(marks, gap, from, from + t);
    var c: int := Count(marks);
    if c > 0 {
      DivisionBound(c - 1, gap, t);
    }
  }

  lemma DivisionBound(c: nat, gap: int, t: nat)
    requires gap > 0 && c * gap <= t
    ensures c <= t / gap
  {
    QuotientBound(c, gap, t, t / gap, t % gap);
  }

  lemma QuotientBound(c: nat, gap: int, t: nat, q: int, r: int)
    requires gap > 0 && c * gap <= t
    requires t == q * gap + r && 0 <= r < gap
    ensures c <= q
  {
    assert (c - q - 1) * gap == c * gap - q * gap - gap < 0;
  }
}
