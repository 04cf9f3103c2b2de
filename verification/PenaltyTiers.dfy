/** Choosing a penalty tier from the share of focus time a member escaped.

    Percentages are exact reals; rounding of floating-point division is not modelled. */
module PenaltyTiers {
  import opened Sorting
  import opened Wrappers

  /** A tier covers escape percentages from minPct up to maxPct, or without limit. */
  datatype PenaltyTier = PenaltyTier(tier: int, minPct: real, maxPct: Option<real>, count: nat)

  datatype TierResult = TierResult(penaltyTier: int, penaltyCount: nat, isForceAll: bool)

  const NO_TIER := TierResult(0, 0, false)

  datatype TierError = NotContiguous | NoOpenTier

  predicate Matches(t: PenaltyTier, pct: real) {
    t.minPct <= pct && (t.maxPct.Some? ==> pct < t.maxPct.value)
  }

  // ----- sorting -----

  /** The sort's comparator: unlimited tiers go last, the others by lower bound. */
  function Compare(a: PenaltyTier, b: PenaltyTier): real {
    if a.maxPct.None? then 1.0
    else if b.maxPct.None? then -1.0
    else a.minPct - b.minPct
  }

  predicate TierAfter(a: PenaltyTier, b: PenaltyTier) { Compare(a, b) <= 0.0 }

  /** Tiers in the order the search goes through them. */
  function SortTiers(s: seq<PenaltyTier>): seq<PenaltyTier> { Sort(s, TierAfter) }

  predicate InOrder(a: PenaltyTier, b: PenaltyTier) {
    b.maxPct.Some? ==> a.maxPct.Some? && a.minPct <= b.minPct
  }

  predicate SortedTiers(s: seq<PenaltyTier>) { Ordered(s, InOrder) }

  /** Sorting puts limited tiers by lower bound before unlimited ones and loses none. */
  lemma SortTiersSorts(s: seq<PenaltyTier>)
    ensures SortedTiers(SortTiers(s))
    ensures multiset(SortTiers(s)) == multiset(s)
    ensures forall t :: t in SortTiers(s) <==> t in s
  {
    SortPermutes(s, TierAfter);
    SortOrders(s, TierAfter, InOrder);
    forall t ensures t in SortTiers(s) <==> t in s {
      assert t in SortTiers(s) <==> t in multiset(SortTiers(s));
      assert t in s <==> t in multiset(s);
    }
  }

  // ----- resolving -----

  /** The first tier of the list that matches. */
  function FirstMatch(s: seq<PenaltyTier>, pct: real): Option<PenaltyTier> {
    if s == [] then None
    else if Matches(s[0], pct) then Some(s[0])
    else FirstMatch(s[1..], pct)
  }

  function SelectTier(tiers: seq<PenaltyTier>, pct: real): Option<PenaltyTier> {
    FirstMatch(SortTiers(tiers), pct)
  }

  function EscapePercent(totalEscapeMs: nat, totalFocusMs: nat): real
    requires totalFocusMs > 0
  {
    (totalEscapeMs as real / totalFocusMs as real) * 100.0
  }

  function CalculatePenaltyTier(totalEscapeMs: nat, focusMin: nat, rounds: nat, tiers: seq<PenaltyTier>): TierResult {
    var totalFocusMs := focusMin * rounds * 60 * 1000;
    if totalFocusMs <= 0 then NO_TIER
    else match SelectTier(tiers, EscapePercent(totalEscapeMs, totalFocusMs))
      case None => NO_TIER
      case Some(t) => TierResult(t.tier, t.count, false)
  }

  /** The tier a member who gave up is charged with: the first unlimited one. */
  function ResolveForfeitTier(tiers: seq<PenaltyTier>): Result<TierResult, TierError> {
    if tiers == [] then Err(NoOpenTier)
    else if tiers[0].maxPct.None? then Ok(TierResult(tiers[0].tier, tiers[0].count, true))
    else ResolveForfeitTier(tiers[1..])
  }

  predicate HasOpenTier(tiers: seq<PenaltyTier>) {
    exists t :: t in tiers && t.maxPct.None?
  }

  /** Tier i ends exactly where the next one starts. */
  predicate JoinedAt(tiers: seq<PenaltyTier>, i: nat)
    requires i + 1 < |tiers|
  {
    tiers[i].maxPct == Some(tiers[i + 1].minPct)
  }

  /** The boundary check of the rule service, as a condition. */
  predicate Contiguous(tiers: seq<PenaltyTier>) {
    forall i :: 0 <= i < |tiers| - 1 ==> JoinedAt(tiers, i)
  }

  predicate StartsAtZero(tiers: seq<PenaltyTier>) { tiers != [] && tiers[0].minPct == 0.0 }

  predicate OpenEnded(tiers: seq<PenaltyTier>) { tiers != [] && tiers[|tiers| - 1].maxPct.None? }

  /** Every boundary is at or above the one before it. */
  predicate Nondecreasing(tiers: seq<PenaltyTier>) {
    forall i, j :: 0 <= i < j < |tiers| ==> tiers[i].minPct <= tiers[j].minPct
  }

  predicate Numbered(tiers: seq<PenaltyTier>) {
    forall i :: 0 <= i < |tiers| ==> tiers[i].tier == i + 1
  }

  /** Read-only validation loop run before a contract is stored. */
  method ValidateTiers(tiers: seq<PenaltyTier>) returns (r: Result<(), TierError>)
    ensures r == if Contiguous(tiers) then Ok(()) else Err(NotContiguous)
  {
    var i := 0;
    while i < |tiers| - 1
      invariant 0 <= i && (i <= |tiers| - 1 || i == 0)
      invariant forall k :: 0 <= k < i ==> JoinedAt(tiers, k)
    {
      if tiers[i].maxPct != Some(tiers[i + 1].minPct) {
        assert !JoinedAt(tiers, i);
        return Err(NotContiguous);
      }
      i := i + 1;
    }
    return Ok(());
  }

  // ----- what the resolver picks -----

  lemma {:induction false} FirstMatchIsFirst(s: seq<PenaltyTier>, pct: real)
    requires SortedTiers(s)
    ensures match FirstMatch(s, pct)
            case None => forall t :: t in s ==> !Matches(t, pct)
            case Some(t) =>
              t in s && Matches(t, pct) && forall u :: u in s && Matches(u, pct) ==> u == t || InOrder(t, u)
  {
    if s != [] {
      assert s == [s[0]] + s[1..];
      if !Matches(s[0], pct) {
        FirstMatchIsFirst(s[1..], pct);
      }
    }
  }

  /** The resolver finds a matching tier whenever there is one, and among several it
      prefers limited tiers over unlimited ones and lower bounds over higher ones. */
  lemma SelectTierPicks(tiers: seq<PenaltyTier>, pct: real)
    ensures match SelectTier(tiers, pct)
            case None => forall t :: t in tiers ==> !Matches(t, pct)
            case Some(t) =>
              t in tiers && Matches(t, pct) && forall u :: u in tiers && Matches(u, pct) ==> u == t || InOrder(t, u)
  {
    SortTiersSorts(tiers);
    FirstMatchIsFirst(SortTiers(tiers), pct);
  }

  /** Along a contiguous list, a percentage at or above every upper bound seen so far
      is at or above the next lower bound. */
  lemma {:induction false} ClimbsBoundaries(tiers: seq<PenaltyTier>, pct: real, k: nat)
    requires Contiguous(tiers) && StartsAtZero(tiers) && pct >= 0.0 && k < |tiers|
    requires forall i :: 0 <= i < k ==> !Matches(tiers[i], pct)
    ensures tiers[k].minPct <= pct
    ensures forall i :: 0 <= i < k ==> tiers[i].maxPct.Some? && tiers[i].maxPct.value <= pct
  {
    if k > 0 {
      ClimbsBoundaries(tiers, pct, k - 1);
      assert !Matches(tiers[k - 1], pct) && JoinedAt(tiers, k - 1);
    }
  }

  /** For contiguous tiers starting at zero, in whatever order their boundaries run,
      the resolver falls through exactly when every tier is limited and the
      percentage has reached every limit. */
  lemma FallsThroughIff(tiers: seq<PenaltyTier>, pct: real)
    requires Contiguous(tiers) && StartsAtZero(tiers) && pct >= 0.0
    ensures SelectTier(tiers, pct).None? <==> forall t :: t in tiers ==> t.maxPct.Some? && t.maxPct.value <= pct
  {
    SelectTierPicks(tiers, pct);
    if SelectTier(tiers, pct).None? {
      var last := |tiers| - 1;
      assert forall i :: 0 <= i < |tiers| ==> tiers[i] in tiers;
      ClimbsBoundaries(tiers, pct, last);
      assert !Matches(tiers[last], pct);
    }
  }

  /** A validated list that starts at zero and ends without limit always yields a tier. */
  lemma NeverFallsThrough(tiers: seq<PenaltyTier>, pct: real)
    requires Contiguous(tiers) && StartsAtZero(tiers) && OpenEnded(tiers) && pct >= 0.0
    ensures SelectTier(tiers, pct).Some?
  {
    FallsThroughIff(tiers, pct);
    assert tiers[|tiers| - 1] in tiers;
  }

  /** With nondecreasing boundaries an earlier tier ends before a later one starts. */
  lemma EndsBeforeLater(tiers: seq<PenaltyTier>, i: nat, j: nat)
    requires Contiguous(tiers) && Nondecreasing(tiers) && i < j < |tiers|
    ensures tiers[i].maxPct.Some? && tiers[i].maxPct.value <= tiers[j].minPct
  {
    assert JoinedAt(tiers, i) && tiers[i + 1].minPct <= tiers[j].minPct;
  }

  /** With nondecreasing boundaries no two positions match the same percentage. */
  lemma MatchUnique(tiers: seq<PenaltyTier>, pct: real, i: nat, j: nat)
    requires Contiguous(tiers) && Nondecreasing(tiers)
    requires i < |tiers| && j < |tiers| && Matches(tiers[i], pct) && Matches(tiers[j], pct)
    ensures i == j
  {
    if i < j {
      EndsBeforeLater(tiers, i, j);
    } else if j < i {
      EndsBeforeLater(tiers, j, i);
    }
  }

  /** The order in which the tiers are stored does not matter. */
  lemma SelectIgnoresOrder(tiers: seq<PenaltyTier>, stored: seq<PenaltyTier>, pct: real)
    requires Contiguous(tiers) && Nondecreasing(tiers)
    requires multiset(stored) == multiset(tiers)
    ensures SelectTier(stored, pct) == SelectTier(tiers, pct)
  {
    SelectTierPicks(tiers, pct);
    SelectTierPicks(stored, pct);
    forall t ensures t in stored <==> t in tiers {
      assert t in stored <==> t in multiset(stored);
      assert t in tiers <==> t in multiset(tiers);
    }
    if SelectTier(tiers, pct).Some? {
      var a, b := SelectTier(tiers, pct).value, SelectTier(stored, pct).value;
      var i :| 0 <= i < |tiers| && tiers[i] == a;
      var j :| 0 <= j < |tiers| && tiers[j] == b;
      MatchUnique(tiers, pct, i, j);
    }
  }

  lemma PercentMonotone(a: nat, b: nat, total: nat)
    requires a <= b && total > 0
    ensures 0.0 <= EscapePercent(a, total) <= EscapePercent(b, total)
  {
    var x, y, f := a as real, b as real, total as real;
    assert (x / f) * f == x && (y / f) * f == y;
    assert (y / f - x / f) * f >= 0.0;
  }

  /** Escaping longer never lowers the tier, for validated tiers with nondecreasing
      boundaries that start at zero and end without limit. */
  lemma TierMonotone(a: nat, b: nat, focusMin: nat, rounds: nat, tiers: seq<PenaltyTier>)
    requires Contiguous(tiers) && StartsAtZero(tiers) && OpenEnded(tiers) && Nondecreasing(tiers) && Numbered(tiers)
    requires a <= b
    ensures CalculatePenaltyTier(a, focusMin, rounds, tiers).penaltyTier
         <= CalculatePenaltyTier(b, focusMin, rounds, tiers).penaltyTier
  {
    var total := focusMin * rounds * 60 * 1000;
    if total > 0 {
      PercentMonotone(0, a, total);
      PercentMonotone(a, b, total);
      var p, q := EscapePercent(a, total), EscapePercent(b, total);
      NeverFallsThrough(tiers, p);
      NeverFallsThrough(tiers, q);
      SelectTierPicks(tiers, p);
      SelectTierPicks(tiers, q);
      var i :| 0 <= i < |tiers| && tiers[i] == SelectTier(tiers, p).value;
      var j :| 0 <= j < |tiers| && tiers[j] == SelectTier(tiers, q).value;
      if j < i {
        EndsBeforeLater(tiers, j, i);
      }
    }
  }

  // ----- what is charged, without dividing -----

  /** The escaped share of the focus time lies in the tier's range of percentages. */
  predicate Covers(t: PenaltyTier, total: nat, focus: nat) {
    && t.minPct * focus as real <= 100.0 * total as real
    && (t.maxPct.Some? ==> 100.0 * total as real < t.maxPct.value * focus as real)
  }

  lemma ShareAtLeastIff(x: real, f: real, pct: real)
    requires f > 0.0
    ensures pct <= (x / f) * 100.0 <==> pct * f <= 100.0 * x
  {
    var share := (x / f) * 100.0;
    assert (x / f) * f == x;
    assert share * f == 100.0 * x;
    assert (share - pct) * f == 100.0 * x - pct * f;
  }

  lemma MatchesIffCovers(t: PenaltyTier, total: nat, focus: nat)
    requires focus > 0
    ensures Matches(t, EscapePercent(total, focus)) <==> Covers(t, total, focus)
  {
    ShareAtLeastIff(total as real, focus as real, t.minPct);
    if t.maxPct.Some? {
      ShareAtLeastIff(total as real, focus as real, t.maxPct.value);
    }
  }

  /** What any list of tiers charges for an escape total: tier 0 with nothing if there is
      no focus time or no tier covers the escaped share; otherwise number and count of a
      tier that covers it, a limited one if there is one, and then one with the lowest
      start. */
  lemma ChargedTier(total: nat, focusMin: nat, rounds: nat, tiers: seq<PenaltyTier>)
    ensures var focus := focusMin * rounds * 60000;
            var r := CalculatePenaltyTier(total, focusMin, rounds, tiers);
            if focus == 0 || (forall t :: t in tiers ==> !Covers(t, total, focus)) then r == TierResult(0, 0, false)
            else exists t :: t in tiers && Covers(t, total, focus) && r == TierResult(t.tier, t.count, false)
                   && forall u :: u in tiers && Covers(u, total, focus) && u.maxPct.Some? ==>
                        t.maxPct.Some? && t.minPct <= u.minPct
  {
    var focus := focusMin * rounds * 60000;
    assert focus == focusMin * rounds * 60 * 1000;
    if focus > 0 {
      var pct := EscapePercent(total, focus);
      forall t | t in tiers ensures Matches(t, pct) <==> Covers(t, total, focus) {
        MatchesIffCovers(t, total, focus);
      }
      SelectTierPicks(tiers, pct);
    }
  }

  /** For validated tiers with nondecreasing boundaries, from zero without an end, exactly
      one tier covers the escaped share, and its number and count are charged. */
  lemma ChargedExactly(total: nat, focusMin: nat, rounds: nat, tiers: seq<PenaltyTier>) returns (i: nat)
    requires Contiguous(tiers) && Nondecreasing(tiers) && StartsAtZero(tiers) && OpenEnded(tiers)
    requires focusMin * rounds > 0
    ensures var focus := focusMin * rounds * 60000;
            && i < |tiers| && Covers(tiers[i], total, focus)
            && (forall j :: 0 <= j < |tiers| && Covers(tiers[j], total, focus) ==> j == i)
            && CalculatePenaltyTier(total, focusMin, rounds, tiers) == TierResult(tiers[i].tier, tiers[i].count, false)
  {
    var focus := focusMin * rounds * 60000;
    assert focus == focusMin * rounds * 60 * 1000;
    var pct := EscapePercent(total, focus);
    PercentMonotone(0, total, focus);
    NeverFallsThrough(tiers, pct);
    SelectTierPicks(tiers, pct);
    i :| 0 <= i < |tiers| && tiers[i] == SelectTier(tiers, pct).value;
    MatchesIffCovers(tiers[i], total, focus);
    forall j | 0 <= j < |tiers| && Covers(tiers[j], total, focus) ensures j == i {
      MatchesIffCovers(tiers[j], total, focus);
      MatchUnique(tiers, pct, i, j);
    }
  }

  /** The forfeit lookup takes the first unlimited tier of the list as it is stored. */
  lemma {:induction false} ForfeitIsFirstOpen(tiers: seq<PenaltyTier>, i: nat)
    requires i < |tiers| && tiers[i].maxPct.None? && forall j :: 0 <= j < i ==> tiers[j].maxPct.Some?
    ensures ResolveForfeitTier(tiers) == Ok(TierResult(tiers[i].tier, tiers[i].count, true))
  {
    if i > 0 {
      assert tiers[1..][i - 1] == tiers[i];
      ForfeitIsFirstOpen(tiers[1..], i - 1);
    }
  }

  /** The forfeit lookup fails exactly when no tier is unlimited, and otherwise takes
      the count of an unlimited tier. */
  lemma {:induction false} ForfeitNeedsOpenTier(tiers: seq<PenaltyTier>)
    ensures match ResolveForfeitTier(tiers)
            case Err(_) => !HasOpenTier(tiers)
            case Ok(r) =>
              && r.isForceAll
              && exists t :: t in tiers && t.maxPct.None? && r.penaltyTier == t.tier && r.penaltyCount == t.count
  {
    if tiers != [] {
      assert tiers == [tiers[0]] + tiers[1..];
      if tiers[0].maxPct.Some? {
        ForfeitNeedsOpenTier(tiers[1..]);
      } else {
        assert tiers[0] in tiers;
      }
    }
  }

  /** In a validated list only the last tier can be unlimited, so the forfeit lookup
      succeeds exactly when the list is open-ended, and then uses the last tier. */
  lemma ForfeitIsLastTier(tiers: seq<PenaltyTier>)
    requires Contiguous(tiers) && tiers != []
    ensures HasOpenTier(tiers) <==> OpenEnded(tiers)
    ensures OpenEnded(tiers) ==>
              ResolveForfeitTier(tiers) == Ok(TierResult(tiers[|tiers| - 1].tier, tiers[|tiers| - 1].count, true))
  {
    ForfeitNeedsOpenTier(tiers);
    forall i | 0 <= i < |tiers| - 1 ensures tiers[i].maxPct.Some? {
      assert JoinedAt(tiers, i);
    }
    forall t | t in tiers && t.maxPct.None? ensures t == tiers[|tiers| - 1] {
      var i :| 0 <= i < |tiers| && tiers[i] == t;
    }
    assert tiers[|tiers| - 1] in tiers;
  }
}
