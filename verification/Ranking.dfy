/** The result page: members ordered by escape total and ranked with ties.

    The rank of a member is fixed by the totals alone, whatever order the rows are
    loaded in and however ties are broken while sorting. */
module Ranking {
  import opened Wrappers
  import opened Roulette
  import opened RevealProtocol
  import opened Sorting

  datatype StoredResult = StoredResult(totalEscapeMs: nat, penaltyTier: int, penalties: seq<PenaltyRow>)

  /** A member row with its result, if computed. */
  datatype MemberRow = MemberRow(memberId: string, result: Option<StoredResult>)

  datatype MemberView = MemberView(
    memberId: string, rank: nat, totalEscapeMs: nat, penaltyTier: int, isAllClear: bool,
    penaltyCount: nat, remainingSpins: nat, totalCount: nat, items: seq<(string, nat)>)

  /** Comparison of ids as strings; any total preorder will do. */
  type Collation = (string, string) -> int

  /** A member before ranking; one without a result counts as having no escapes. */
  function ViewOf(row: MemberRow): MemberView {
    match row.result
    case None => MemberView(row.memberId, 0, 0, 0, true, 0, 0, 0, [])
    case Some(r) =>
      MemberView(row.memberId, 0, r.totalEscapeMs, r.penaltyTier, r.totalEscapeMs == 0,
                 CountSum(r.penalties, true), CountSum(r.penalties, false), TotalSpins(r.penalties), Shown(r.penalties))
  }

  function Views(rows: seq<MemberRow>): (views: seq<MemberView>)
    ensures |views| == |rows| && forall i :: 0 <= i < |rows| ==> views[i] == ViewOf(rows[i])
  {
    seq(|rows|, i requires 0 <= i < |rows| => ViewOf(rows[i]))
  }

  /** Revealed and remaining penalties of a member add up to what was assigned. */
  lemma ViewCountsAddUp(row: MemberRow)
    ensures ViewOf(row).penaltyCount + ViewOf(row).remainingSpins == ViewOf(row).totalCount
  {
    if row.result.Some? {
      FlagsSplitTotal(row.result.value.penalties);
    }
  }

  // ----- sorting -----

  function Compare(a: MemberView, b: MemberView, collate: Collation): int {
    if b.totalEscapeMs != a.totalEscapeMs then b.totalEscapeMs - a.totalEscapeMs else collate(a.memberId, b.memberId)
  }

  function ViewAfter(collate: Collation): Comparator<MemberView> {
    (a: MemberView, b: MemberView) => Compare(a, b, collate) <= 0
  }

  function SortViews(s: seq<MemberView>, collate: Collation): seq<MemberView> { Sort(s, ViewAfter(collate)) }

  predicate NoLess(a: MemberView, b: MemberView) { a.totalEscapeMs >= b.totalEscapeMs }

  predicate Descending(s: seq<MemberView>) { Ordered(s, NoLess) }

  /** Sorting orders the members by falling total and loses nobody. */
  lemma SortViewsSorts(s: seq<MemberView>, collate: Collation)
    ensures Descending(SortViews(s, collate))
    ensures multiset(SortViews(s, collate)) == multiset(s)
  {
    SortPermutes(s, ViewAfter(collate));
    SortOrders(s, ViewAfter(collate), NoLess);
  }

  /** The comparison of ids is a total preorder. */
  ghost predicate IsCollation(collate: Collation) {
    && (forall x, y :: collate(x, y) > 0 ==> collate(y, x) <= 0)
    && (forall x, y, z :: collate(x, y) <= 0 && collate(y, z) <= 0 ==> collate(x, z) <= 0)
  }

  ghost predicate TiesById(s: seq<MemberView>, collate: Collation) {
    forall i, j :: 0 <= i < j < |s| && s[i].totalEscapeMs == s[j].totalEscapeMs ==>
      collate(s[i].memberId, s[j].memberId) <= 0
  }

  /** Members with the same total are ordered by id. */
  lemma SortBreaksTies(s: seq<MemberView>, collate: Collation)
    requires IsCollation(collate)
    ensures TiesById(SortViews(s, collate), collate)
  {
    var after := ViewAfter(collate);
    var sorted := SortViews(s, collate);
    SortOrders(s, after, after);
    forall i, j | 0 <= i < j < |sorted| && sorted[i].totalEscapeMs == sorted[j].totalEscapeMs
      ensures collate(sorted[i].memberId, sorted[j].memberId) <= 0
    {
      assert after(sorted[i], sorted[j]);
    }
  }

  // ----- ranking -----

  /** Rank at position i of a sorted list: shared with the predecessor on a tie. */
  function RankAt(s: seq<MemberView>, i: nat): nat
    requires i < |s|
  {
    if i > 0 && s[i].totalEscapeMs == s[i - 1].totalEscapeMs then RankAt(s, i - 1) else i + 1
  }

  function Ranked(s: seq<MemberView>): (r: seq<MemberView>)
    ensures |r| == |s| && forall i :: 0 <= i < |s| ==> r[i] == s[i].(rank := RankAt(s, i))
  {
    seq(|s|, i requires 0 <= i < |s| => s[i].(rank := RankAt(s, i)))
  }

  /** The rank loop, in place. */
  method AssignRanks(members: array<MemberView>)
    modifies members
    ensures members[..] == Ranked(old(members[..]))
  {
    ghost var s := members[..];
    for idx := 0 to members.Length
      invariant forall k :: 0 <= k < idx ==> members[k] == Ranked(s)[k]
      invariant forall k :: idx <= k < members.Length ==> members[k] == s[k]
    {
      var rank := if idx > 0 && members[idx].totalEscapeMs == members[idx - 1].totalEscapeMs
                  then members[idx - 1].rank else idx + 1;
      members[idx] := members[idx].(rank := rank);
    }
  }

  /** How many members escaped for longer than the given time. */
  function CountAbove(s: seq<MemberView>, total: nat): nat {
    if s == [] then 0 else (if s[0].totalEscapeMs > total then 1 else 0) + CountAbove(s[1..], total)
  }

  lemma {:induction false} CountAboveConcat(a: seq<MemberView>, b: seq<MemberView>, total: nat)
    ensures CountAbove(a + b, total) == CountAbove(a, total) + CountAbove(b, total)
  {
    if a == [] {
      assert a + b == b;
    } else {
      CountAboveConcat(a[1..], b, total);
      assert (a + b)[1..] == a[1..] + b;
    }
  }

  /** Taking one occurrence out of a list. */
  function Without(s: seq<MemberView>, k: nat): seq<MemberView>
    requires k < |s|
  {
    s[..k] + s[k + 1..]
  }

  lemma WithoutMultiset(s: seq<MemberView>, k: nat)
    requires k < |s|
    ensures multiset(Without(s, k)) == multiset(s) - multiset{s[k]}
  {
    assert s == s[..k] + [s[k]] + s[k + 1..];
  }

  lemma CountAboveWithout(s: seq<MemberView>, k: nat, total: nat)
    requires k < |s|
    ensures CountAbove(s, total) == (if s[k].totalEscapeMs > total then 1 else 0) + CountAbove(Without(s, k), total)
  {
    var front, back := s[..k], s[k + 1..];
    assert s == front + ([s[k]] + back);
    assert ([s[k]] + back)[1..] == back;
    CountAboveConcat(front, back, total);
    CountAboveConcat(front, [s[k]] + back, total);
  }

  lemma FindMember(s: seq<MemberView>, v: MemberView) returns (k: nat)
    requires v in multiset(s)
    ensures k < |s| && s[k] == v
  {
    k :| 0 <= k < |s| && s[k] == v;
  }

  lemma {:induction false} CountAbovePermutes(a: seq<MemberView>, b: seq<MemberView>, total: nat)
    requires multiset(a) == multiset(b)
    ensures CountAbove(a, total) == CountAbove(b, total)
    decreases |a|
  {
    SameMultisetSameLength(a, b);
    if a != [] {
      assert a[0] in multiset(a);
      var k := FindMember(b, a[0]);
      WithoutMultiset(a, 0);
      WithoutMultiset(b, k);
      CountAboveWithout(a, 0, total);
      CountAboveWithout(b, k, total);
      CountAbovePermutes(Without(a, 0), Without(b, k), total);
    }
  }

  lemma {:induction false} AllAbove(s: seq<MemberView>, total: nat)
    requires forall i :: 0 <= i < |s| ==> s[i].totalEscapeMs > total
    ensures CountAbove(s, total) == |s|
  {
    if s != [] {
      AllAbove(s[1..], total);
    }
  }

  lemma {:induction false} NoneAbove(s: seq<MemberView>, total: nat)
    requires forall i :: 0 <= i < |s| ==> s[i].totalEscapeMs <= total
    ensures CountAbove(s, total) == 0
  {
    if s != [] {
      NoneAbove(s[1..], total);
    }
  }

  lemma {:induction false} RankInSorted(s: seq<MemberView>, i: nat)
    requires Descending(s) && i < |s|
    ensures RankAt(s, i) == 1 + CountAbove(s, s[i].totalEscapeMs)
  {
    if i > 0 && s[i].totalEscapeMs == s[i - 1].totalEscapeMs {
      RankInSorted(s, i - 1);
    } else {
      var total := s[i].totalEscapeMs;
      assert s == s[..i] + s[i..];
      AllAbove(s[..i], total);
      NoneAbove(s[i..], total);
      CountAboveConcat(s[..i], s[i..], total);
    }
  }

  /** In any list of the members with falling totals, however ties fall, the rank loop
      gives each member one more than the number of members with a higher total. */
  lemma RankIsOnePlusHigher(views: seq<MemberView>, sorted: seq<MemberView>, i: nat)
    requires multiset(sorted) == multiset(views) && Descending(sorted) && i < |sorted|
    ensures Ranked(sorted)[i].rank == 1 + CountAbove(views, sorted[i].totalEscapeMs)
  {
    RankInSorted(sorted, i);
    CountAbovePermutes(sorted, views, sorted[i].totalEscapeMs);
  }

  lemma {:induction false} HigherTotalCountsFewer(s: seq<MemberView>, low: nat, high: nat)
    requires low <= high
    ensures CountAbove(s, high) <= CountAbove(s, low)
    ensures low < high && (exists v :: v in s && v.totalEscapeMs == high) ==> CountAbove(s, high) < CountAbove(s, low)
  {
    if s != [] {
      HigherTotalCountsFewer(s[1..], low, high);
      assert s == [s[0]] + s[1..];
    }
  }

  /** Ranks order members as their totals do: equal exactly on ties. */
  lemma RanksFollowTotals(views: seq<MemberView>, sorted: seq<MemberView>, i: nat, j: nat)
    requires multiset(sorted) == multiset(views) && Descending(sorted) && i < |sorted| && j < |sorted|
    ensures Ranked(sorted)[i].rank < Ranked(sorted)[j].rank <==> sorted[i].totalEscapeMs > sorted[j].totalEscapeMs
    ensures Ranked(sorted)[i].rank == Ranked(sorted)[j].rank <==> sorted[i].totalEscapeMs == sorted[j].totalEscapeMs
  {
    RankInSorted(sorted, i);
    RankInSorted(sorted, j);
    var a, b := sorted[i].totalEscapeMs, sorted[j].totalEscapeMs;
    assert sorted[i] in sorted && sorted[j] in sorted;
    if a > b {
      HigherTotalCountsFewer(sorted, b, a);
    } else if a < b {
      HigherTotalCountsFewer(sorted, a, b);
    }
  }

  // ----- the response -----

  /** Every entry of the page is some row's view with its rank filled in. */
  lemma PageEntry(rows: seq<MemberRow>, sorted: seq<MemberView>, i: nat)
    requires multiset(sorted) == multiset(Views(rows)) && Descending(sorted) && i < |sorted|
    ensures Ranked(sorted)[i].rank == 1 + CountAbove(Views(rows), sorted[i].totalEscapeMs)
    ensures exists k :: 0 <= k < |rows| && sorted[i] == ViewOf(rows[k])
    ensures sorted[i].penaltyCount + sorted[i].remainingSpins == sorted[i].totalCount
    ensures sorted[i].isAllClear <==> sorted[i].totalEscapeMs == 0
  {
    RankIsOnePlusHigher(Views(rows), sorted, i);
    assert sorted[i] in multiset(Views(rows));
    var k :| 0 <= k < |rows| && Views(rows)[k] == sorted[i];
    ViewCountsAddUp(rows[k]);
  }

  // ----- the page and the stored results -----

  function StoredTotal(row: MemberRow): nat { if row.result.Some? then row.result.value.totalEscapeMs else 0 }

  function StoredPenalties(row: MemberRow): seq<PenaltyRow> {
    if row.result.Some? then row.result.value.penalties else []
  }

  function Sum(s: seq<nat>): nat { if s == [] then 0 else Sum(s[..|s| - 1]) + s[|s| - 1] }

  /** The count of each row with the given reveal flag, zero for the others. */
  function FlagCounts(rows: seq<PenaltyRow>, revealed: bool): seq<nat> {
    seq(|rows|, i requires 0 <= i < |rows| => if rows[i].isRevealed == revealed then rows[i].count else 0)
  }

  lemma {:induction false} CountSumOf(rows: seq<PenaltyRow>, row: PenaltyRow, revealed: bool)
    ensures CountSum(rows + [row], revealed)
         == CountSum(rows, revealed) + if row.isRevealed == revealed then row.count else 0
  {
    if rows == [] {
      assert rows + [row] == [row];
    } else {
      assert (rows + [row])[1..] == rows[1..] + [row];
      CountSumOf(rows[1..], row, revealed);
    }
  }

  lemma {:induction false} CountSumIsSum(rows: seq<PenaltyRow>, revealed: bool)
    ensures CountSum(rows, revealed) == Sum(FlagCounts(rows, revealed))
  {
    if rows != [] {
      var n := |rows| - 1;
      assert rows == rows[..n] + [rows[n]];
      CountSumOf(rows[..n], rows[n], revealed);
      CountSumIsSum(rows[..n], revealed);
      assert FlagCounts(rows, revealed)[..n] == FlagCounts(rows[..n], revealed);
    }
  }

  /** The rows with a strictly greater stored total. */
  function HigherAt(rows: seq<MemberRow>, total: nat): set<nat> {
    set k: nat | k < |rows| && StoredTotal(rows[k]) > total
  }

  function HigherRows(rows: seq<MemberRow>, total: nat): nat { |HigherAt(rows, total)| }

  lemma HigherAtStep(rows: seq<MemberRow>, row: MemberRow, total: nat)
    ensures HigherRows(rows + [row], total) == HigherRows(rows, total) + if StoredTotal(row) > total then 1 else 0
  {
    var n := |rows|;
    assert HigherAt(rows + [row], total) == HigherAt(rows, total) + if StoredTotal(row) > total then {n} else {};
  }

  lemma CountAboveStep(rows: seq<MemberRow>, row: MemberRow, total: nat)
    ensures CountAbove(Views(rows + [row]), total)
         == CountAbove(Views(rows), total) + if StoredTotal(row) > total then 1 else 0
  {
    assert Views(rows + [row]) == Views(rows) + [ViewOf(row)];
    CountAboveConcat(Views(rows), [ViewOf(row)], total);
  }

  lemma {:induction false} HigherRowsCounted(rows: seq<MemberRow>, total: nat)
    ensures CountAbove(Views(rows), total) == HigherRows(rows, total)
  {
    if rows != [] {
      var n := |rows| - 1;
      assert rows == rows[..n] + [rows[n]];
      HigherRowsCounted(rows[..n], total);
      HigherAtStep(rows[..n], rows[n], total);
      CountAboveStep(rows[..n], rows[n], total);
    }
  }

  /** The entry shows what is stored for the row, ranked among all rows. */
  predicate EntryShows(v: MemberView, row: MemberRow, rows: seq<MemberRow>) {
    && v.memberId == row.memberId
    && v.totalEscapeMs == StoredTotal(row)
    && v.penaltyTier == (if row.result.Some? then row.result.value.penaltyTier else 0)
    && (v.isAllClear <==> StoredTotal(row) == 0)
    && v.rank == 1 + HigherRows(rows, StoredTotal(row))
    && v.penaltyCount == Sum(FlagCounts(StoredPenalties(row), true))
    && v.remainingSpins == Sum(FlagCounts(StoredPenalties(row), false))
    && v.totalCount == v.penaltyCount + v.remainingSpins
    && v.items == Shown(StoredPenalties(row))
  }

  lemma ViewShows(row: MemberRow, rows: seq<MemberRow>)
    ensures EntryShows(ViewOf(row).(rank := 1 + CountAbove(Views(rows), StoredTotal(row))), row, rows)
  {
    HigherRowsCounted(rows, StoredTotal(row));
    CountSumIsSum(StoredPenalties(row), true);
    CountSumIsSum(StoredPenalties(row), false);
    ViewCountsAddUp(row);
  }

  predicate DistinctIds(rows: seq<MemberRow>) {
    forall i, j :: 0 <= i < j < |rows| ==> rows[i].memberId != rows[j].memberId
  }

  function ViewIds(views: seq<MemberView>): (ids: seq<string>)
    ensures |ids| == |views|
  {
    seq(|views|, i requires 0 <= i < |views| => views[i].memberId)
  }

  function RowIds(rows: seq<MemberRow>): seq<string> {
    seq(|rows|, i requires 0 <= i < |rows| => rows[i].memberId)
  }

  lemma ViewIdsWithout(s: seq<MemberView>, k: nat)
    requires k < |s|
    ensures multiset(ViewIds(s)) == multiset{s[k].memberId} + multiset(ViewIds(Without(s, k)))
  {
    assert ViewIds(s) == ViewIds(s)[..k] + [s[k].memberId] + ViewIds(s)[k + 1..];
    assert ViewIds(Without(s, k)) == ViewIds(s)[..k] + ViewIds(s)[k + 1..];
  }

  lemma {:induction false} SameViewsSameIds(a: seq<MemberView>, b: seq<MemberView>)
    requires multiset(a) == multiset(b)
    ensures multiset(ViewIds(a)) == multiset(ViewIds(b))
    decreases |a|
  {
    SameMultisetSameLength(a, b);
    if a != [] {
      assert a[0] in multiset(a);
      var k := FindMember(b, a[0]);
      WithoutMultiset(a, 0);
      WithoutMultiset(b, k);
      ViewIdsWithout(a, 0);
      ViewIdsWithout(b, k);
      SameViewsSameIds(Without(a, 0), Without(b, k));
    } else {
      assert ViewIds(a) == ViewIds(b);
    }
  }

  lemma RankedShows(rows: seq<MemberRow>, sorted: seq<MemberView>, i: nat, k: nat)
    requires multiset(sorted) == multiset(Views(rows)) && Descending(sorted) && i < |sorted|
    requires DistinctIds(rows) && k < |rows| && Ranked(sorted)[i].memberId == rows[k].memberId
    ensures EntryShows(Ranked(sorted)[i], rows[k], rows)
  {
    PageEntry(rows, sorted, i);
    var o :| 0 <= o < |rows| && sorted[i] == ViewOf(rows[o]);
    assert o == k;
    ViewShows(rows[k], rows);
  }

  /** Members of the result page in page order: every row once, with falling totals, each
      entry with what is stored for its member and with the competition rank. */
  method RankMembers(rows: seq<MemberRow>, collate: Collation) returns (members: array<MemberView>)
    ensures fresh(members) && members[..] == Ranked(SortViews(Views(rows), collate))
    ensures multiset(ViewIds(members[..])) == multiset(RowIds(rows))
    ensures forall i, j :: 0 <= i < j < members.Length ==> members[i].totalEscapeMs >= members[j].totalEscapeMs
    ensures IsCollation(collate) ==> TiesById(members[..], collate)
    ensures DistinctIds(rows) ==> forall i, k :: 0 <= i < members.Length && 0 <= k < |rows| ==>
              members[i].memberId == rows[k].memberId ==> EntryShows(members[i], rows[k], rows)
  {
    var sorted := SortViews(Views(rows), collate);
    SortViewsSorts(Views(rows), collate);
    members := new MemberView[|sorted|](i requires 0 <= i < |sorted| => sorted[i]);
    assert members[..] == sorted;
    AssignRanks(members);
    SameViewsSameIds(sorted, Views(rows));
    assert ViewIds(members[..]) == ViewIds(sorted) && ViewIds(Views(rows)) == RowIds(rows);
    forall i | 0 <= i < members.Length
      ensures members[i].totalEscapeMs == sorted[i].totalEscapeMs && members[i] == Ranked(sorted)[i]
    {
      assert members[..][i] == Ranked(sorted)[i];
    }
    forall i, j | 0 <= i < j < members.Length ensures sorted[i].totalEscapeMs >= sorted[j].totalEscapeMs {
      assert NoLess(sorted[i], sorted[j]);
    }
    if IsCollation(collate) {
      SortBreaksTies(Views(rows), collate);
    }
    if DistinctIds(rows) {
      forall i, k | 0 <= i < members.Length && 0 <= k < |rows| && members[i].memberId == rows[k].memberId
        ensures EntryShows(members[i], rows[k], rows)
      {
        RankedShows(rows, sorted, i, k);
      }
    }
  }

  /** Once every penalty is revealed, nobody has spins left and all counts are shown. */
  lemma {:induction false} ExpiryLeavesNoSpins(rows: seq<PenaltyRow>)
    ensures CountSum(RevealAll(rows), false) == 0 && CountSum(RevealAll(rows), true) == TotalSpins(rows)
  {
    if rows != [] {
      ExpiryLeavesNoSpins(rows[1..]);
      assert RevealAll(rows)[1..] == RevealAll(rows[1..]);
    }
  }
}
