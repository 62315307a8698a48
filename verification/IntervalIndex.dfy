/**
 Coalesced half-open intervals of natural numbers, kept as rows ordered by start.

 The reassembly range table and the retired-request table are both such indexes: a new
 interval absorbs every row it overlaps or touches. An index means the set of numbers it
 covers, and that set determines its rows (`CanonicalForm`).
 */
module IntervalIndex {

  datatype Row = Row(start: nat, end: nat)

  type Ranges = seq<Row>

  /** Rows are non-empty, ordered, disjoint and never adjacent. */
  ghost predicate WellFormed(rs: Ranges) {
    && (forall i :: 0 <= i < |rs| ==> rs[i].start < rs[i].end)
    && (forall i, j :: 0 <= i < j < |rs| ==> rs[i].end < rs[j].start)
  }

  /** Some row contains x. */
  predicate Covers(rs: Ranges, x: nat) {
    exists i :: 0 <= i < |rs| && rs[i].start <= x < rs[i].end
  }

  /** Sum of the row lengths. */
  function Size(rs: Ranges): nat
    requires forall i :: 0 <= i < |rs| ==> rs[i].start <= rs[i].end
  {
    if rs == [] then 0 else Size(rs[..|rs| - 1]) + (rs[|rs| - 1].end - rs[|rs| - 1].start)
  }

  lemma {:induction false} SizeConcat(a: Ranges, b: Ranges)
    requires forall i :: 0 <= i < |a| ==> a[i].start <= a[i].end
    requires forall i :: 0 <= i < |b| ==> b[i].start <= b[i].end
    ensures Size(a + b) == Size(a) + Size(b)
  {
    if b == [] {
      assert a + b == a;
    } else {
      assert (a + b)[..|a + b| - 1] == a + b[..|b| - 1];
      SizeConcat(a, b[..|b| - 1]);
    }
  }

  /** The covered numbers below a bound, as a set. */
  ghost function CoveredBelow(rs: Ranges, bound: nat): set<nat> {
    set x: nat | 0 <= x < bound && Covers(rs, x)
  }

  /** The row lengths add up to the number of covered numbers. */
  lemma {:induction false} SizeIsCardinality(rs: Ranges, bound: nat)
    requires WellFormed(rs)
    requires forall i :: 0 <= i < |rs| ==> rs[i].end <= bound
    ensures |CoveredBelow(rs, bound)| == Size(rs)
  {
    if rs == [] {
      assert CoveredBelow(rs, bound) == {};
    } else {
      var init, last := rs[..|rs| - 1], rs[|rs| - 1];
      assert init + [last] == rs;
      RowsBefore(init, last);
      SizeIsCardinality(init, bound);
      LastRowCounts(init, bound, last.start, last.end);
    }
  }

  /** A further row `[start, cut)` adds its length to what the rows before it cover. */
  lemma {:induction false} LastRowCounts(init: Ranges, bound: nat, start: nat, cut: nat)
    requires start <= cut <= bound
    requires forall x: nat :: Covers(init, x) ==> x < start
    ensures |CoveredBelow(init + [Row(start, cut)], bound)| == |CoveredBelow(init, bound)| + (cut - start)
    decreases cut
  {
    var now := init + [Row(start, cut)];
    forall x: nat ensures Covers(now, x) <==> Covers(init, x) || start <= x < cut {
      CoversSnoc(init, Row(start, cut), x);
    }
    if cut == start {
      assert CoveredBelow(now, bound) == CoveredBelow(init, bound);
    } else {
      var before := init + [Row(start, cut - 1)];
      forall x: nat ensures Covers(before, x) <==> Covers(init, x) || start <= x < cut - 1 {
        CoversSnoc(init, Row(start, cut - 1), x);
      }
      LastRowCounts(init, bound, start, cut - 1);
      OneMore(CoveredBelow(before, bound), cut - 1, CoveredBelow(now, bound));
    }
  }

  lemma OneMore(s: set<nat>, x: nat, t: set<nat>)
    requires x !in s && forall y :: y in t <==> y in s || y == x
    ensures |t| == |s| + 1
  {
    assert t == s + {x};
  }

  lemma CoversSnoc(init: Ranges, last: Row, x: nat)
    ensures Covers(init + [last], x) <==> Covers(init, x) || last.start <= x < last.end
  {
    var rs := init + [last];
    if Covers(init, x) {
      var i :| 0 <= i < |init| && init[i].start <= x < init[i].end;
      assert rs[i] == init[i];
    }
    if last.start <= x < last.end {
      assert rs[|init|] == last;
    }
  }

  lemma RowsBefore(init: Ranges, last: Row)
    requires WellFormed(init + [last])
    ensures WellFormed(init)
    ensures last.start < last.end
    ensures forall x: nat :: Covers(init, x) ==> x < last.start
  {
    var rs := init + [last];
    assert forall i :: 0 <= i < |init| ==> rs[i] == init[i];
    assert rs[|init|] == last;
    assert forall i :: 0 <= i < |init| ==> init[i].end < last.start;
  }

  lemma CoversConcat(a: Ranges, b: Ranges, x: nat)
    ensures Covers(a + b, x) <==> Covers(a, x) || Covers(b, x)
  {
    if Covers(a, x) {
      var i :| 0 <= i < |a| && a[i].start <= x < a[i].end;
      assert (a + b)[i] == a[i];
    }
    if Covers(b, x) {
      var i :| 0 <= i < |b| && b[i].start <= x < b[i].end;
      assert (a + b)[|a| + i] == b[i];
    }
  }

  /** Two indexes that cover the same numbers have the same rows. */
  lemma {:induction false} CanonicalForm(r1: Ranges, r2: Ranges)
    requires WellFormed(r1) && WellFormed(r2)
    requires forall x: nat :: Covers(r1, x) <==> Covers(r2, x)
    ensures r1 == r2
    decreases |r1|
  {
    if r1 == [] {
      if r2 != [] { assert Covers(r2, r2[0].start); }
    } else if r2 == [] {
      assert Covers(r1, r1[0].start);
    } else {
      FirstRowsAgree(r1, r2);
      forall x: nat ensures Covers(r1[1..], x) <==> Covers(r2[1..], x) {
        RestCovers(r1, x);
        RestCovers(r2, x);
      }
      CanonicalForm(r1[1..], r2[1..]);
      assert r1 == [r1[0]] + r1[1..] && r2 == [r2[0]] + r2[1..];
    }
  }

  lemma RestCovers(rs: Ranges, x: nat)
    requires WellFormed(rs) && rs != []
    ensures Covers(rs[1..], x) <==> Covers(rs, x) && !(rs[0].start <= x < rs[0].end)
  {
    if Covers(rs, x) && !(rs[0].start <= x < rs[0].end) {
      var i :| 0 <= i < |rs| && rs[i].start <= x < rs[i].end;
      assert rs[1..][i - 1] == rs[i];
    }
    if Covers(rs[1..], x) {
      var i :| 0 <= i < |rs[1..]| && rs[1..][i].start <= x < rs[1..][i].end;
      assert rs[i + 1] == rs[1..][i];
    }
  }

  lemma FirstRowsAgree(r1: Ranges, r2: Ranges)
    requires WellFormed(r1) && WellFormed(r2) && r1 != [] && r2 != []
    requires forall x: nat :: Covers(r1, x) <==> Covers(r2, x)
    ensures r1[0] == r2[0]
  {
    StartIsCovered(r1);
    StartIsCovered(r2);
    NothingBeforeFirst(r1, r2[0].start);
    NothingBeforeFirst(r2, r1[0].start);
    if r1[0].end < r2[0].end {
      FirstCovers(r2, r1[0].end);
      FirstGap(r1);
    } else if r2[0].end < r1[0].end {
      FirstCovers(r1, r2[0].end);
      FirstGap(r2);
    }
  }

  lemma StartIsCovered(rs: Ranges)
    requires WellFormed(rs) && rs != []
    ensures Covers(rs, rs[0].start)
  {
    FirstCovers(rs, rs[0].start);
  }

  lemma FirstCovers(rs: Ranges, x: nat)
    requires rs != [] && rs[0].start <= x < rs[0].end
    ensures Covers(rs, x)
  {
  }

  lemma NothingBeforeFirst(rs: Ranges, x: nat)
    requires WellFormed(rs) && rs != [] && Covers(rs, x)
    ensures rs[0].start <= x
  {
    var i :| 0 <= i < |rs| && rs[i].start <= x < rs[i].end;
  }

  lemma FirstGap(rs: Ranges)
    requires WellFormed(rs) && rs != []
    ensures !Covers(rs, rs[0].end)
  {
  }

  /** "The count equals n" and "the only row is [0, n)" are the same statement. */
  lemma CompleteIffSingleRow(rs: Ranges, n: nat)
    requires WellFormed(rs) && 0 < n
    requires forall i :: 0 <= i < |rs| ==> rs[i].end <= n
    ensures Size(rs) == n <==> rs == [Row(0, n)]
  {
    SizeIsCardinality(rs, n);
    if rs == [Row(0, n)] {
      assert rs[..0] == [];
    }
    if Size(rs) == n {
      FullSet(CoveredBelow(rs, n), n);
      forall x: nat ensures Covers(rs, x) <==> Covers([Row(0, n)], x) {
        assert [Row(0, n)][0] == Row(0, n);
        if x < n { assert x in CoveredBelow(rs, n); }
      }
      CanonicalForm(rs, [Row(0, n)]);
    }
  }

  /** n distinct naturals below n are all of them. */
  lemma {:induction false} FullSet(s: set<nat>, n: nat)
    requires forall x :: x in s ==> x < n
    ensures |s| <= n
    ensures |s| == n ==> forall x: nat :: x < n ==> x in s
    decreases n
  {
    if n > 0 {
      var t := s - {n - 1};
      FullSet(t, n - 1);
      if n - 1 in s {
        assert |s| == |t| + 1;
        if |s| == n {
          forall x: nat | x < n ensures x in s {
            assert x < n - 1 ==> x in t;
          }
        }
      } else {
        assert s == t;
      }
    } else {
      assert s == {};
    }
  }

  /** Starts of later rows are at least two apart per row. */
  lemma {:induction false} RowsSpread(rs: Ranges, p: nat, q: nat)
    requires WellFormed(rs) && p < q < |rs|
    ensures rs[q].start >= rs[p].end + 2 * (q - p) - 1
    decreases q
  {
    if p + 1 < q {
      RowsSpread(rs, p, q - 1);
    }
  }

  /** `rs[lo..hi]` are exactly the rows that overlap or touch `[a, b)`. */
  ghost predicate IsTouching(rs: Ranges, a: nat, b: nat, lo: nat, hi: nat) {
    && lo <= hi <= |rs|
    && (forall k :: 0 <= k < lo ==> rs[k].end < a)
    && (forall k :: lo <= k < hi ==> rs[k].start <= b && a <= rs[k].end)
    && (forall k :: hi <= k < |rs| ==> b < rs[k].start)
  }

  /** An interval of length n touches at most n / 2 + 2 rows. */
  lemma TouchingIsBounded(rs: Ranges, a: nat, b: nat, lo: nat, hi: nat)
    requires WellFormed(rs) && a <= b && IsTouching(rs, a, b, lo, hi)
    ensures hi - lo <= (b - a) / 2 + 2
  {
    if hi - lo >= 2 {
      RowsSpread(rs, lo, hi - 1);
    }
  }

  /** The overlap query: the rows come back in start order. */
  method FindTouching(rs: Ranges, a: nat, b: nat) returns (lo: nat, hi: nat)
    requires WellFormed(rs) && a <= b
    ensures IsTouching(rs, a, b, lo, hi)
  {
    lo := 0;
    while lo < |rs| && rs[lo].end < a
      invariant lo <= |rs|
      invariant forall k :: 0 <= k < lo ==> rs[k].end < a
    {
      lo := lo + 1;
    }
    hi := lo;
    while hi < |rs| && rs[hi].start <= b
      invariant lo <= hi <= |rs|
      invariant forall k :: lo <= k < hi ==> rs[k].start <= b && a <= rs[k].end
    {
      hi := hi + 1;
    }
  }

  /** The index after `[a, b)` has absorbed the rows `rs[lo..hi]`. */
  function Replaced(rs: Ranges, lo: nat, hi: nat, hull: Row): Ranges
    requires lo <= hi <= |rs|
  {
    rs[..lo] + [hull] + rs[hi..]
  }

  /** Hull of the new interval and the rows it touches. */
  function Hull(rs: Ranges, a: nat, b: nat, lo: nat, hi: nat): Row
    requires lo <= hi <= |rs|
  {
    if lo == hi then Row(a, b)
    else Row(if rs[lo].start < a then rs[lo].start else a, if rs[hi - 1].end > b then rs[hi - 1].end else b)
  }

  lemma FitsBetween(rs: Ranges, lo: nat, hi: nat, hull: Row)
    requires WellFormed(rs) && lo <= hi <= |rs| && hull.start < hull.end
    requires forall k :: 0 <= k < lo ==> rs[k].end < hull.start
    requires forall k :: hi <= k < |rs| ==> hull.end < rs[k].start
    ensures WellFormed(Replaced(rs, lo, hi, hull))
  {
    var out := Replaced(rs, lo, hi, hull);
    assert forall k :: 0 <= k < lo ==> out[k] == rs[k];
    assert out[lo] == hull;
    assert forall k :: lo < k < |out| ==> out[k] == rs[k - lo - 1 + hi];
  }

  lemma ReplacedIsWellFormed(rs: Ranges, a: nat, b: nat, lo: nat, hi: nat)
    requires WellFormed(rs) && a < b && IsTouching(rs, a, b, lo, hi)
    ensures WellFormed(Replaced(rs, lo, hi, Hull(rs, a, b, lo, hi)))
  {
    FitsBetween(rs, lo, hi, Hull(rs, a, b, lo, hi));
  }

  lemma ReplacedCovers(rs: Ranges, a: nat, b: nat, lo: nat, hi: nat, x: nat)
    requires WellFormed(rs) && a < b && IsTouching(rs, a, b, lo, hi)
    ensures Covers(Replaced(rs, lo, hi, Hull(rs, a, b, lo, hi)), x) <==> Covers(rs, x) || a <= x < b
  {
    var hull := Hull(rs, a, b, lo, hi);
    var before, mid, after := rs[..lo], rs[lo..hi], rs[hi..];
    assert rs == before + mid + after;
    CoversConcat(before + mid, after, x);
    CoversConcat(before, mid, x);
    CoversConcat(before + [hull], after, x);
    CoversSnoc(before, hull, x);
    HullCovers(rs, a, b, lo, hi, x);
  }

  lemma HullCovers(rs: Ranges, a: nat, b: nat, lo: nat, hi: nat, x: nat)
    requires WellFormed(rs) && a < b && IsTouching(rs, a, b, lo, hi)
    ensures var hull := Hull(rs, a, b, lo, hi);
      hull.start <= x < hull.end <==> Covers(rs[lo..hi], x) || a <= x < b
  {
    var hull := Hull(rs, a, b, lo, hi);
    var mid := rs[lo..hi];
    if hull.start <= x < a {
      assert mid[0] == rs[lo] && mid[0].start <= x < mid[0].end;
    }
    if b <= x < hull.end {
      assert mid[|mid| - 1] == rs[hi - 1] && mid[|mid| - 1].start <= x < mid[|mid| - 1].end;
    }
    if Covers(mid, x) {
      var i :| 0 <= i < |mid| && mid[i].start <= x < mid[i].end;
      assert mid[i] == rs[lo + i];
      assert rs[lo].start <= rs[lo + i].start && rs[lo + i].end <= rs[hi - 1].end;
    }
  }

  lemma ReplacedSize(rs: Ranges, lo: nat, hi: nat, hull: Row)
    requires lo <= hi <= |rs| && hull.start <= hull.end
    requires forall i :: 0 <= i < |rs| ==> rs[i].start <= rs[i].end
    ensures forall i :: 0 <= i < |Replaced(rs, lo, hi, hull)| ==> Replaced(rs, lo, hi, hull)[i].start <= Replaced(rs, lo, hi, hull)[i].end
    ensures Size(Replaced(rs, lo, hi, hull)) == Size(rs) + (hull.end - hull.start) - Size(rs[lo..hi])
  {
    var before, mid, after := rs[..lo], rs[lo..hi], rs[hi..];
    assert rs == before + mid + after;
    SizeConcat(before + mid, after);
    SizeConcat(before, mid);
    SizeConcat(before + [hull], after);
    SizeConcat(before, [hull]);
    assert [hull][..0] == [];
  }

  function Widened(hull: Row, row: Row): Row {
    Row(if row.start < hull.start then row.start else hull.start, if row.end > hull.end then row.end else hull.end)
  }

  lemma OneMoreRow(rs: Ranges, a: nat, b: nat, lo: nat, k: nat)
    requires WellFormed(rs) && lo <= k < |rs|
    ensures Hull(rs, a, b, lo, k + 1) == Widened(Hull(rs, a, b, lo, k), rs[k])
    ensures Size(rs[lo..k + 1]) == Size(rs[lo..k]) + (rs[k].end - rs[k].start)
  {
    assert rs[lo..k + 1][..k - lo] == rs[lo..k];
  }

  /** Running minimum, maximum and length sum over the touching rows. */
  method HullOfRows(rs: Ranges, a: nat, b: nat, lo: nat, hi: nat) returns (hull: Row, previous: nat)
    requires WellFormed(rs) && a < b && IsTouching(rs, a, b, lo, hi)
    ensures hull == Hull(rs, a, b, lo, hi) && previous == Size(rs[lo..hi])
  {
    hull, previous := Row(a, b), 0;
    for k := lo to hi
      invariant hull == Hull(rs, a, b, lo, k)
      invariant previous == Size(rs[lo..k])
    {
      OneMoreRow(rs, a, b, lo, k);
      hull := Widened(hull, rs[k]);
      previous := previous + (rs[k].end - rs[k].start);
    }
  }

  /** Absorbs `[a, b)`: the touching rows give way to their hull; reports the newly covered count. */
  method Absorb(rs: Ranges, a: nat, b: nat, lo: nat, hi: nat) returns (merged: Ranges, added: int)
    requires WellFormed(rs) && a < b && IsTouching(rs, a, b, lo, hi)
    ensures WellFormed(merged)
    ensures forall x: nat :: Covers(merged, x) <==> Covers(rs, x) || a <= x < b
    ensures Size(merged) == Size(rs) + added
  {
    var hull, previous := HullOfRows(rs, a, b, lo, hi);
    merged := Replaced(rs, lo, hi, hull);
    added := hull.end - hull.start - previous;
    AbsorbIsUnion(rs, a, b, lo, hi);
    ReplacedSize(rs, lo, hi, hull);
  }

  lemma AbsorbIsUnion(rs: Ranges, a: nat, b: nat, lo: nat, hi: nat)
    requires WellFormed(rs) && a < b && IsTouching(rs, a, b, lo, hi)
    ensures var merged := Replaced(rs, lo, hi, Hull(rs, a, b, lo, hi));
      && WellFormed(merged)
      && (forall x: nat :: Covers(merged, x) <==> Covers(rs, x) || a <= x < b)
  {
    ReplacedIsWellFormed(rs, a, b, lo, hi);
    forall x: nat ensures Covers(Replaced(rs, lo, hi, Hull(rs, a, b, lo, hi)), x) <==> Covers(rs, x) || a <= x < b {
      ReplacedCovers(rs, a, b, lo, hi, x);
    }
  }
}
