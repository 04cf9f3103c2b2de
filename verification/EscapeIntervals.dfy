/** Escape intervals: merging overlapping ones and measuring the focus time they take.

    The specification counts milliseconds: the escape time of a list of intervals is
    the number of instants that lie in some interval and in some focus window.  The
    methods compute the same number by sorting, merging and summing overlaps. */
module EscapeIntervals {
  import opened Sorting
  import opened Timeline

  /** A half-open interval of milliseconds; empty when end <= start. */
  datatype Interval = Interval(start: int, end: int)

  predicate Within(a: int, t: int, b: int) { a <= t < b }

  ghost function Range(a: int, b: int): set<int> {
    set t: int | a <= t < b && Within(a, t, b)
  }

  /** The instants lying in at least one of the intervals. */
  ghost function Covered(s: seq<Interval>): set<int> {
    if s == [] then {} else Covered(s[..|s| - 1]) + Range(s[|s| - 1].start, s[|s| - 1].end)
  }

  ghost function FocusTimesUpTo(g: Grid, n: nat): set<int> {
    if n == 0 then {} else FocusTimesUpTo(g, n - 1) + Range(FocusStart(g, n - 1), FocusEnd(g, n - 1))
  }

  /** The instants lying in a focus window of the session. */
  ghost function FocusTimes(g: Grid): set<int> { FocusTimesUpTo(g, g.rounds) }

  /** Focus time escaped during the given instants. */
  ghost function FocusMsIn(times: set<int>, g: Grid): nat { |times * FocusTimes(g)| }

  // ----- counting instants -----

  lemma {:induction false} RangeSize(a: int, b: int)
    ensures |Range(a, b)| == Max(0, b - a)
    decreases b - a
  {
    if a < b {
      RangeSize(a, b - 1);
      assert Range(a, b) == Range(a, b - 1) + {b - 1};
    } else {
      assert Range(a, b) == {};
    }
  }

  lemma IntersectRanges(a: int, b: int, c: int, d: int)
    ensures |Range(a, b) * Range(c, d)| == Max(0, Min(b, d) - Max(a, c))
  {
    assert Range(a, b) * Range(c, d) == Range(Max(a, c), Min(b, d));
    RangeSize(Max(a, c), Min(b, d));
  }

  lemma {:induction false} FocusTimesUpToIff(g: Grid, n: nat, t: int)
    ensures t in FocusTimesUpTo(g, n) <==> exists i: nat :: i < n && InWindow(g, i, t)
  {
    if n > 0 {
      FocusTimesUpToIff(g, n - 1, t);
      assert t in Range(FocusStart(g, n - 1), FocusEnd(g, n - 1)) <==> InWindow(g, n - 1, t);
    }
  }

  /** The focus set is exactly the server's notion of a focus instant. */
  lemma FocusTimesIff(g: Grid, t: int)
    ensures t in FocusTimes(g) <==> InFocus(g, t)
  {
    FocusTimesUpToIff(g, g.rounds, t);
  }

  lemma WindowDisjointFromEarlier(g: Grid, n: nat)
    ensures FocusTimesUpTo(g, n) !! Range(FocusStart(g, n), FocusEnd(g, n))
  {
    forall t | t in FocusTimesUpTo(g, n) ensures t < FocusStart(g, n) {
      FocusTimesUpToIff(g, n, t);
      var i: nat :| i < n && InWindow(g, i, t);
      WindowsOrdered(g, i, n);
    }
  }

  lemma WindowAddsFocus(g: Grid, n: nat)
    requires n > 0
    ensures |FocusTimesUpTo(g, n)| == |FocusTimesUpTo(g, n - 1)| + g.focusMs
  {
    WindowDisjointFromEarlier(g, n - 1);
    RangeSize(FocusStart(g, n - 1), FocusEnd(g, n - 1));
  }

  lemma {:induction false} FocusTimesUpToSize(g: Grid, n: nat)
    ensures |FocusTimesUpTo(g, n)| == n * g.focusMs
  {
    if n > 0 {
      FocusTimesUpToSize(g, n - 1);
      WindowAddsFocus(g, n);
      MulStep(n, g.focusMs);
    }
  }

  lemma SubsetSize<T>(a: set<T>, b: set<T>)
    requires a <= b
    ensures |a| <= |b|
  {
    assert b == a + (b - a);
  }

  /** Total focus time of a session, the service's upper limit for escape totals. */
  function TotalFocusMs(p: Plan): nat { p.focusMin * p.rounds * 60 * 1000 }

  lemma TotalFocusMsIsGridTotal(p: Plan, start: int)
    ensures TotalFocusMs(p) == p.rounds * GridOf(p, start).focusMs
  {
    assert p.rounds * (p.focusMin * 60000) == (p.rounds * p.focusMin) * 60000;
  }

  /** No escape time exceeds the session's total focus time, so the service's cap
      never lowers a total. */
  lemma CapIsVacuous(times: set<int>, p: Plan, start: int)
    ensures FocusMsIn(times, GridOf(p, start)) <= TotalFocusMs(p)
  {
    var g := GridOf(p, start);
    FocusTimesUpToSize(g, g.rounds);
    SubsetSize(times * FocusTimes(g), FocusTimes(g));
    TotalFocusMsIsGridTotal(p, start);
  }

  lemma FocusMsMonotone(a: set<int>, b: set<int>, g: Grid)
    requires a <= b
    ensures FocusMsIn(a, g) <= FocusMsIn(b, g)
  {
    SubsetSize(a * FocusTimes(g), b * FocusTimes(g));
  }

  lemma FocusMsDisjointSum(a: set<int>, b: set<int>, g: Grid)
    requires a !! b
    ensures FocusMsIn(a + b, g) == FocusMsIn(a, g) + FocusMsIn(b, g)
  {
    assert (a + b) * FocusTimes(g) == a * FocusTimes(g) + b * FocusTimes(g);
  }

  // ----- coverage -----

  lemma {:induction false} CoveredIff(s: seq<Interval>, t: int)
    ensures t in Covered(s) <==> exists iv :: iv in s && iv.start <= t < iv.end
  {
    if s != [] {
      var init, last := s[..|s| - 1], s[|s| - 1];
      CoveredIff(init, t);
      assert s == init + [last];
    }
  }

  /** Coverage depends only on which intervals are listed, not on their order. */
  lemma CoveredPermutation(s: seq<Interval>, s': seq<Interval>)
    requires multiset(s) == multiset(s')
    ensures Covered(s) == Covered(s')
  {
    forall iv ensures iv in s <==> iv in s' {
      assert iv in s <==> iv in multiset(s);
      assert iv in s' <==> iv in multiset(s');
    }
    forall t ensures t in Covered(s) <==> t in Covered(s') {
      CoveredIff(s, t);
      CoveredIff(s', t);
    }
  }

  lemma CoveredSnoc(s: seq<Interval>, iv: Interval)
    ensures Covered(s + [iv]) == Covered(s) + Range(iv.start, iv.end)
  {
    assert (s + [iv])[..|s|] == s;
  }

  /** Merged lists: later intervals start strictly after every earlier one has ended. */
  ghost predicate Separated(s: seq<Interval>) {
    forall i, j :: 0 <= i < j < |s| ==> s[i].end < s[j].start
  }

  /** Adding up the overlaps of a separated list counts every covered focus instant once. */
  lemma SeparatedStep(s: seq<Interval>, k: nat, g: Grid)
    requires Separated(s) && k < |s|
    ensures FocusMsIn(Covered(s[..k + 1]), g)
         == FocusMsIn(Covered(s[..k]), g) + FocusMsIn(Range(s[k].start, s[k].end), g)
  {
    assert s[..k + 1] == s[..k] + [s[k]];
    CoveredSnoc(s[..k], s[k]);
    forall t | t in Covered(s[..k]) ensures t < s[k].start {
      CoveredIff(s[..k], t);
    }
    FocusMsDisjointSum(Covered(s[..k]), Range(s[k].start, s[k].end), g);
  }

  // ----- sorting by start -----

  predicate StartsNoLater(a: Interval, b: Interval) { a.start <= b.start }

  predicate SortedByStart(s: seq<Interval>) { Ordered(s, StartsNoLater) }

  function SortByStart(s: seq<Interval>): seq<Interval> { Sort(s, StartsNoLater) }

  lemma SortKeepsCoverage(s: seq<Interval>)
    ensures Covered(SortByStart(s)) == Covered(s)
    ensures SortedByStart(SortByStart(s)) && |SortByStart(s)| == |s|
  {
    SortPermutes(s, StartsNoLater);
    SortOrders(s, StartsNoLater, StartsNoLater);
    CoveredPermutation(SortByStart(s), s);
  }

  // ----- the algorithms -----

  lemma DisjointIntersections<T>(s: set<T>, a: set<T>, b: set<T>)
    requires a !! b
    ensures |s * (a + b)| == |s * a| + |s * b|
  {
    assert s * (a + b) == s * a + s * b;
  }

  /** One more focus window adds exactly its overlap with the escape. */
  lemma OverlapStep(a: int, b: int, g: Grid, n: nat)
    requires n > 0
    ensures |Range(a, b) * FocusTimesUpTo(g, n)|
         == |Range(a, b) * FocusTimesUpTo(g, n - 1)| + Max(0, Min(b, FocusEnd(g, n - 1)) - Max(a, FocusStart(g, n - 1)))
  {
    WindowDisjointFromEarlier(g, n - 1);
    DisjointIntersections(Range(a, b), FocusTimesUpTo(g, n - 1), Range(FocusStart(g, n - 1), FocusEnd(g, n - 1)));
    IntersectRanges(a, b, FocusStart(g, n - 1), FocusEnd(g, n - 1));
  }

  /** The overlaps with the first n windows, added up. */
  function OverlapUpTo(a: int, b: int, g: Grid, n: nat): nat {
    if n == 0 then 0
    else OverlapUpTo(a, b, g, n - 1) + Max(0, Min(b, FocusEnd(g, n - 1)) - Max(a, FocusStart(g, n - 1)))
  }

  /** Adding up overlaps counts the focus instants of the escape. */
  lemma {:induction false} OverlapsCountInstants(a: int, b: int, g: Grid, n: nat)
    ensures OverlapUpTo(a, b, g, n) == |Range(a, b) * FocusTimesUpTo(g, n)|
  {
    if n > 0 {
      OverlapsCountInstants(a, b, g, n - 1);
      OverlapStep(a, b, g, n);
    }
  }

  /** Focus time inside one escape, by intersecting it with each focus window. */
  method OverlapWithWindows(escapedAt: int, returnedAt: int, g: Grid) returns (overlapMs: nat)
    ensures overlapMs == FocusMsIn(Range(escapedAt, returnedAt), g)
  {
    overlapMs := 0;
    for i := 0 to g.rounds
      invariant overlapMs == OverlapUpTo(escapedAt, returnedAt, g, i)
    {
      var focusStart := g.start + i * g.cycleMs;
      var focusEnd := focusStart + g.focusMs;
      var overlapStart := Max(escapedAt, focusStart);
      var overlapEnd := Min(returnedAt, focusEnd);
      FocusStartProduct(g, i);
      if overlapStart < overlapEnd {
        overlapMs := overlapMs + (overlapEnd - overlapStart);
      }
    }
    OverlapsCountInstants(escapedAt, returnedAt, g, g.rounds);
  }

  method GetEffectiveFocusEscapeMs(escapedAt: int, returnedAt: int, sessionStart: int, p: Plan)
    returns (overlapMs: nat)
    ensures overlapMs == FocusMsIn(Range(escapedAt, returnedAt), GridOf(p, sessionStart))
  {
    var cycleMs := (p.focusMin + p.breakMin) * 60 * 1000;
    var focusMs := p.focusMin * 60 * 1000;
    overlapMs := OverlapWithWindows(escapedAt, returnedAt, FocusGrid(sessionStart, focusMs, cycleMs, p.rounds));
  }

  /** One step of the merge: extend the last interval or append the current one. */
  function MergeStep(merged: seq<Interval>, current: Interval): seq<Interval>
    requires merged != []
  {
    var last := merged[|merged| - 1];
    if current.start <= last.end
    then merged[..|merged| - 1] + [Interval(last.start, Max(last.end, current.end))]
    else merged + [current]
  }

  lemma MergeStepCovers(merged: seq<Interval>, current: Interval)
    requires merged != [] && merged[|merged| - 1].start <= current.start
    ensures Covered(MergeStep(merged, current)) == Covered(merged) + Range(current.start, current.end)
  {
    var init, last := merged[..|merged| - 1], merged[|merged| - 1];
    if current.start <= last.end {
      var wider := Interval(last.start, Max(last.end, current.end));
      CoveredSnoc(init, wider);
      assert Range(last.start, last.end) + Range(current.start, current.end) == Range(wider.start, wider.end);
    } else {
      CoveredSnoc(merged, current);
    }
  }

  lemma MergeStepSeparates(merged: seq<Interval>, current: Interval)
    requires merged != [] && merged[|merged| - 1].start <= current.start && Separated(merged)
    ensures Separated(MergeStep(merged, current))
  {
    assert forall i :: 0 <= i < |merged| - 1 ==> merged[i].end < merged[|merged| - 1].start;
  }

  /** Loop invariant of the merge after i of the sorted intervals. */
  ghost predicate MergedSoFar(sorted: seq<Interval>, i: nat, merged: seq<Interval>)
    requires 0 < i <= |sorted|
  {
    && merged != [] && merged[|merged| - 1].start <= sorted[i - 1].start
    && Separated(merged)
    && Covered(merged) == Covered(sorted[..i])
  }

  lemma MergeLoopStep(sorted: seq<Interval>, i: nat, merged: seq<Interval>)
    requires SortedByStart(sorted) && 0 < i < |sorted| && MergedSoFar(sorted, i, merged)
    ensures MergedSoFar(sorted, i + 1, MergeStep(merged, sorted[i]))
  {
    MergeStepCovers(merged, sorted[i]);
    MergeStepSeparates(merged, sorted[i]);
    assert sorted[..i + 1] == sorted[..i] + [sorted[i]];
    CoveredSnoc(sorted[..i], sorted[i]);
  }

  /** Merges overlapping or touching intervals: the result covers the same instants
      with pairwise separated intervals. */
  method MergeIntervals(intervals: seq<Interval>) returns (merged: seq<Interval>)
    ensures Covered(merged) == Covered(intervals)
    ensures Separated(merged)
  {
    if |intervals| <= 1 {
      return intervals;
    }
    var sorted := SortByStart(intervals);
    SortKeepsCoverage(intervals);
    merged := [sorted[0]];
    assert sorted[..1] == [sorted[0]];
    for i := 1 to |sorted|
      invariant MergedSoFar(sorted, i, merged)
    {
      var current := sorted[i];
      var last := merged[|merged| - 1];
      MergeLoopStep(sorted, i, merged);
      ghost var stepped := MergeStep(merged, current);
      if current.start <= last.end {
        merged := merged[..|merged| - 1] + [Interval(last.start, Max(last.end, current.end))];
      } else {
        merged := merged + [current];
      }
      assert merged == stepped;
    }
    assert sorted[..|sorted|] == sorted;
  }

  /** The escape total of a list of intervals: merge, then add up the overlaps with the
      focus windows.  It is the number of focus instants the intervals cover, for every
      list: unsorted, nested, touching or with reversed bounds. */
  method TotalFocusEscapeMs(intervals: seq<Interval>, sessionStart: int, p: Plan)
    returns (totalEscapeMs: nat)
    ensures totalEscapeMs == FocusMsIn(Covered(intervals), GridOf(p, sessionStart))
  {
    var merged := MergeIntervals(intervals);
    ghost var g := GridOf(p, sessionStart);
    totalEscapeMs := 0;
    for k := 0 to |merged|
      invariant totalEscapeMs == FocusMsIn(Covered(merged[..k]), g)
    {
      var overlapMs := GetEffectiveFocusEscapeMs(merged[k].start, merged[k].end, sessionStart, p);
      SeparatedStep(merged, k, g);
      totalEscapeMs := totalEscapeMs + overlapMs;
    }
    assert merged[..|merged|] == merged;
  }
}
