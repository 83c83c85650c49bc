/** Normalisation of the ranges of a Range header: sort, then merge in place. */
module Ranges {
  import opened Basics

  const TWO_64: nat := 0x1_0000_0000_0000_0000

  datatype Range = Range(first: nat, second: nat)

  /** What is served of a range is [first, second); `closed` reads it as [first, second] instead. */
  predicate Holds(r: Range, x: nat, closed: bool) { r.first <= x && (x < r.second || (closed && x == r.second)) }

  predicate Covers(v: seq<Range>, x: nat, closed: bool) { exists i :: 0 <= i < |v| && Holds(v[i], x, closed) }

  ghost predicate SameCover(v: seq<Range>, w: seq<Range>) {
    forall x: nat, closed: bool :: Covers(v, x, closed) <==> Covers(w, x, closed)
  }

  /** The comparison passed to sort. */
  predicate Before(a: Range, b: Range) { if a.first == b.first then a.second < b.second else a.first < b.first }

  predicate Sorted(v: seq<Range>) { forall i, j :: 0 <= i < j < |v| ==> !Before(v[j], v[i]) }

  function Insert(v: seq<Range>, r: Range): seq<Range> {
    if v == [] || !Before(r, v[|v| - 1]) then v + [r]
    else Insert(v[..|v| - 1], r) + [v[|v| - 1]]
  }

  function Sort(v: seq<Range>): seq<Range> { if v == [] then [] else Insert(Sort(v[..|v| - 1]), v[|v| - 1]) }

  /** Ranges that the code answers with 416. */
  predicate Bad(r: Range, size: nat) { r.first >= r.second || r.first >= size }

  /** In ascending order with a gap between any two. */
  predicate Disjoint(v: seq<Range>) { forall i, j :: 0 <= i < j < |v| ==> v[i].second < v[j].first }

  lemma {:induction false} InsertKeeps(v: seq<Range>, r: Range)
    requires Sorted(v)
    ensures Sorted(Insert(v, r)) && multiset(Insert(v, r)) == multiset(v) + multiset{r}
    decreases |v|
  {
    if v != [] {
      var (front, last) := (v[..|v| - 1], v[|v| - 1]);
      assert v == front + [last];
      if Before(r, last) {
        InsertKeeps(front, r);
        var w := Insert(front, r);
        assert Sorted(front) && forall x :: x in multiset(front) ==> x in front;
        forall k | 0 <= k < |w| ensures !Before(last, w[k]) {
          assert w[k] in multiset(w) && w[k] in multiset(front) + multiset{r};
        }
        assert Insert(v, r) == w + [last];
        hide Insert;
      }
    }
  }

  lemma {:induction false} SortKeeps(v: seq<Range>)
    ensures Sorted(Sort(v)) && multiset(Sort(v)) == multiset(v)
    decreases |v|
  {
    if v != [] {
      SortKeeps(v[..|v| - 1]);
      InsertKeeps(Sort(v[..|v| - 1]), v[|v| - 1]);
      assert v == v[..|v| - 1] + [v[|v| - 1]];
    }
  }

  // ----- one merge -----

  function Max(x: nat, y: nat): nat { if x >= y then x else y }
  /** The condition under which a range and the next one are joined. */
  predicate Meets(a: Range, b: Range) {
    (a.first >= b.first && a.first <= b.second) || (b.first > a.first && b.first <= a.second)
  }

  function Union(a: Range, b: Range): Range { Range(Least(a.first, b.first), Max(a.second, b.second)) }

  /** Ranges n and n + 1 replaced by their union. */
  function Joined(v: seq<Range>, n: nat): (w: seq<Range>)
    requires n + 1 < |v|
    ensures |w| == |v| - 1
  {
    v[..n] + [Union(v[n], v[n + 1])] + v[n + 2..]
  }

  lemma UnionHolds(a: Range, b: Range, x: nat, closed: bool)
    requires a.first <= b.first && Meets(a, b) && a.first < a.second && b.first < b.second
    ensures Holds(Union(a, b), x, closed) <==> Holds(a, x, closed) || Holds(b, x, closed)
  {
  }

  lemma JoinedCovers(v: seq<Range>, n: nat, x: nat, closed: bool)
    requires n + 1 < |v| && v[n].first <= v[n + 1].first && Meets(v[n], v[n + 1])
    requires v[n].first < v[n].second && v[n + 1].first < v[n + 1].second
    ensures Covers(Joined(v, n), x, closed) <==> Covers(v, x, closed)
  {
    var w := Joined(v, n);
    UnionHolds(v[n], v[n + 1], x, closed);
    hide Holds, Union, Meets;
    assert w[n] == Union(v[n], v[n + 1]);
    if i :| 0 <= i < |v| && Holds(v[i], x, closed) {
      var k := if i <= n then i else i - 1;
      assert Holds(w[k], x, closed);
    }
    if k :| 0 <= k < |w| && Holds(w[k], x, closed) {
      if k != n {
        var i := if k < n then k else k + 1;
        assert v[i] == w[k];
      }
    }
  }

  predicate Ascending(v: seq<Range>) { forall i, j :: 0 <= i < j < |v| ==> v[i].first <= v[j].first }

  lemma JoinedAscends(v: seq<Range>, n: nat)
    requires n + 1 < |v| && Ascending(v) && Disjoint(v[..n + 1])
    ensures var w := Joined(v, n); Ascending(w) && Disjoint(w[..n + 1]) && w[n + 1..] == v[n + 2..]
  {
    var w := Joined(v, n);
    forall i, j | 0 <= i < j < |w| ensures w[i].first <= w[j].first {
      assert w[i] == if i < n then v[i] else if i == n then Union(v[n], v[n + 1]) else v[i + 1];
      assert w[j] == if j < n then v[j] else if j == n then Union(v[n], v[n + 1]) else v[j + 1];
    }
    var (done, was) := (w[..n + 1], v[..n + 1]);
    forall i, j | 0 <= i < j < |done| ensures done[i].second < done[j].first {
      assert was[i].second < was[j].first;
    }
  }

  /** Two ranges that do not meet leave a gap. */
  lemma GapAhead(v: seq<Range>, n: nat)
    requires n + 1 < |v| && Ascending(v) && Disjoint(v[..n + 1])
    requires !Meets(v[n], v[n + 1]) && v[n].first < v[n].second && v[n + 1].first < v[n + 1].second
    requires forall i :: 0 <= i <= n ==> v[i].first < v[i].second
    ensures Disjoint(v[..n + 2])
  {
    var w := v[..n + 2];
    assert w[n].second < w[n + 1].first;
    forall i, j | 0 <= i < j < |w| ensures w[i].second < w[j].first {
      if j <= n { assert v[..n + 1][i].second < v[..n + 1][j].first; }
      if i < n { assert v[..n + 1][i].second < v[..n + 1][n].first; }
    }
  }

  // ----- the loop -----

  /** size_t: --n wraps at 0, and ++n brings it back. */
  function Decremented(n: nat): (m: nat)
    ensures n < TWO_64 ==> Incremented(m) == n
  {
    (n + TWO_64 - 1) % TWO_64
  }

  function Incremented(n: nat): (m: nat)
    ensures n < TWO_64 - 1 ==> m == n + 1
  {
    (n + 1) % TWO_64
  }

  /** Where the loop stands: `v` is the list with its first n + 1 ranges merged, `rest` of the sorted input
      not yet looked at. */
  ghost predicate Merging(sorted: seq<Range>, v: seq<Range>, n: nat, size: nat) {
    && n < |v| <= |sorted| && Ascending(v) && Disjoint(v[..n + 1]) && SameCover(v, sorted)
    && v[n + 1..] == sorted[|sorted| - (|v| - n - 1)..]
    && ((n == 0 && v == sorted) ||
        ((forall i :: 0 <= i <= n ==> !Bad(v[i], size)) && forall i :: 0 <= i < |sorted| - (|v| - n - 1) ==>
          !Bad(sorted[i], size)))
  }

  lemma JoinKeeps(sorted: seq<Range>, v: seq<Range>, n: nat, size: nat)
    requires Merging(sorted, v, n, size) && n + 1 < |v| && Meets(v[n], v[n + 1]) && !Bad(v[n], size)
             && !Bad(v[n + 1], size)
    ensures Merging(sorted, Joined(v, n), n, size) && n + 1 < |v| <= |sorted|
  {
    var (w, k) := (Joined(v, n), |sorted| - (|v| - n - 1));
    JoinedAscends(v, n);
    forall x: nat, closed: bool ensures Covers(w, x, closed) <==> Covers(sorted, x, closed) {
      JoinedCovers(v, n, x, closed);
    }
    assert sorted[k] == v[n + 1..][0];
    assert sorted[k..][1..] == sorted[k + 1..] && v[n + 1..][1..] == v[n + 2..];
  }

  lemma StepKeeps(sorted: seq<Range>, v: seq<Range>, n: nat, size: nat)
    requires Merging(sorted, v, n, size) && n + 1 < |v| && !Meets(v[n], v[n + 1]) && !Bad(v[n], size)
             && !Bad(v[n + 1], size)
    ensures Merging(sorted, v, n + 1, size) && n + 1 < |v| <= |sorted|
  {
    var k := |sorted| - (|v| - n - 1);
    GapAhead(v, n);
    assert sorted[k] == v[n + 1..][0];
    assert sorted[k..][1..] == sorted[k + 1..] && v[n + 1..][1..] == v[n + 2..];
  }

  ghost predicate SomeBad(v: seq<Range>, size: nat) { exists r :: r in v && Bad(r, size) }

  lemma BadIsSeen(sorted: seq<Range>, v: seq<Range>, n: nat, size: nat)
    requires Merging(sorted, v, n, size) && n + 1 < |v| && (Bad(v[n], size) || Bad(v[n + 1], size))
    ensures SomeBad(sorted, size)
  {
    assert v[n + 1] == v[n + 1..][0] && v[n + 1..][0] in sorted;
    assert Bad(v[n], size) ==> v == sorted;
  }

  /** From two ranges on: 416 exactly when some range is empty, backwards or starts behind the file.
      Otherwise the list is in order, with a gap between any two ranges, and covers what the input does,
      whether ranges are read as half-open or closed. */
  method Normalise(input: seq<Range>, size: nat) returns (rejected: bool, vecRanges: seq<Range>)
    requires |input| < TWO_64
    ensures |input| < 2 ==> !rejected && vecRanges == input
    ensures |input| >= 2 ==> (rejected <==> SomeBad(input, size))
    ensures |input| >= 2 && !rejected ==> Disjoint(vecRanges) && SameCover(vecRanges, input)
    ensures |input| >= 2 && !rejected ==> forall i :: 0 <= i < |vecRanges| ==> !Bad(vecRanges[i], size)
  {
    if |input| < 2 {
      SortSmall(input);
      return false, Sort(input);
    }
    ghost var sorted := Sort(input);
    vecRanges, rejected := Sort(input), false;
    MergingStarts(input, size);
    hide Decremented, Incremented, Merging, SameCover, SomeBad, Disjoint, Sort, Meets, Bad, Joined, Sorted;
    var n: nat := 0;
    while |vecRanges| > 1 && n < |vecRanges| - 1
      invariant Merging(sorted, vecRanges, n, size) && n < |vecRanges| <= |input|
      decreases |vecRanges| - n
    {
      if Bad(vecRanges[n], size) || Bad(vecRanges[n + 1], size) {
        BadIsSeen(sorted, vecRanges, n, size);
        return true, vecRanges;
      }
      if Meets(vecRanges[n], vecRanges[n + 1]) {
        JoinKeeps(sorted, vecRanges, n, size);
        vecRanges := Joined(vecRanges, n);
        n := Decremented(n);
      } else {
        StepKeeps(sorted, vecRanges, n, size);
      }
      n := Incremented(n);
    }
    MergingEnds(sorted, vecRanges, n, size, input);
  }

  lemma SortSmall(v: seq<Range>)
    requires |v| < 2
    ensures Sort(v) == v
  {
    if |v| == 1 { assert v[..0] == [] && Insert([], v[0]) == [v[0]] == v; }
  }

  lemma MergingStarts(input: seq<Range>, size: nat)
    requires |input| >= 2
    ensures var sorted := Sort(input);
            && Merging(sorted, sorted, 0, size) && |sorted| == |input|
            && SameCover(sorted, input) && (SomeBad(sorted, size) <==> SomeBad(input, size))
  {
    SortKeeps(input);
    SameMultiset(Sort(input), input, size);
  }

  lemma MergingEnds(sorted: seq<Range>, v: seq<Range>, n: nat, size: nat, input: seq<Range>)
    requires Merging(sorted, v, n, size) && n == |v| - 1 && |sorted| >= 2
    requires SameCover(sorted, input) && (SomeBad(sorted, size) <==> SomeBad(input, size))
    ensures !SomeBad(input, size) && Disjoint(v) && SameCover(v, input) && forall i :: 0 <= i < |v| ==> !Bad(v[i], size)
  {
    assert v[..n + 1] == v;
  }

  lemma SameMultiset(v: seq<Range>, w: seq<Range>, size: nat)
    requires multiset(v) == multiset(w)
    ensures SameCover(v, w) && (SomeBad(v, size) <==> SomeBad(w, size)) && |v| == |w|
  {
    assert |multiset(v)| == |v| && |multiset(w)| == |w|;
    forall x: nat, closed: bool ensures Covers(v, x, closed) <==> Covers(w, x, closed) {
      if Covers(v, x, closed) { CoverOf(v, w, x, closed); }
      if Covers(w, x, closed) { CoverOf(w, v, x, closed); }
    }
    assert forall r :: r in v <==> r in multiset(v);
    assert forall r :: r in w <==> r in multiset(w);
  }

  lemma CoverOf(v: seq<Range>, w: seq<Range>, x: nat, closed: bool)
    requires multiset(v) == multiset(w) && Covers(v, x, closed)
    ensures Covers(w, x, closed)
  {
    var i :| 0 <= i < |v| && Holds(v[i], x, closed);
    assert v[i] in multiset(w);
    var k :| 0 <= k < |w| && w[k] == v[i];
  }

  // ----- the result is the normal form -----

  predicate Normal(v: seq<Range>) { Disjoint(v) && forall i :: 0 <= i < |v| ==> v[i].first < v[i].second }

  ghost predicate SameServed(v: seq<Range>, w: seq<Range>) {
    forall x: nat :: Covers(v, x, false) <==> Covers(w, x, false)
  }

  lemma FirstRange(v: seq<Range>, w: seq<Range>)
    requires Normal(v) && Normal(w) && SameServed(v, w) && v != []
    ensures w != [] && w[0].first <= v[0].first && w[0].second <= v[0].second
  {
    assert Holds(v[0], v[0].first, false);
    assert Covers(v, v[0].first, false);
    assert Covers(w, v[0].first, false);
    var k :| 0 <= k < |w| && Holds(w[k], v[0].first, false);
    NotBehindFirst(v);
    InFirst(w, v[0].second);
  }

  lemma InFirst(w: seq<Range>, x: nat)
    ensures w != [] && w[0].first <= x < w[0].second ==> Covers(w, x, false)
  {
    assert w != [] ==> (Holds(w[0], x, false) <==> w[0].first <= x < w[0].second);
  }

  lemma NotBehindFirst(v: seq<Range>)
    requires Normal(v) && v != []
    ensures !Covers(v, v[0].second, false)
  {
  }

  lemma CoverRest(v: seq<Range>, x: nat)
    requires Normal(v) && v != []
    ensures Covers(v[1..], x, false) <==> Covers(v, x, false) && x > v[0].second
  {
    if Covers(v[1..], x, false) {
      var i :| 0 <= i < |v[1..]| && Holds(v[1..][i], x, false);
      assert Holds(v[i + 1], x, false) && v[0].second < v[i + 1].first;
    }
    if Covers(v, x, false) && x > v[0].second {
      var i :| 0 <= i < |v| && Holds(v[i], x, false);
      assert Holds(v[1..][i - 1], x, false);
    }
  }

  /** Two lists of non-empty ranges with gaps that serve the same positions are the same list: the
      outcome depends on the positions asked for alone, not on the order or overlap of the ranges. */
  lemma {:induction false} NormalFormIsUnique(v: seq<Range>, w: seq<Range>)
    requires Normal(v) && Normal(w) && SameServed(v, w)
    ensures v == w
    decreases |v|
  {
    if v == [] {
      if w != [] { FirstRange(w, v); }
    } else {
      FirstRange(v, w);
      FirstRange(w, v);
      var (v', w') := (v[1..], w[1..]);
      forall x: nat ensures Covers(v', x, false) <==> Covers(w', x, false) {
        CoverRest(v, x);
        CoverRest(w, x);
      }
      NormalFormIsUnique(v', w');
    }
  }
}
