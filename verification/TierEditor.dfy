/** Editing the penalty tiers of a contract.

    The editor rewrites a list of tiers in place; a boundary edit repairs every later
    tier.  The module proves that guarded edits keep the list acceptable to the rule
    service, and says exactly when the tier resolver is total on the result. */
module TierEditor {
  import opened Wrappers
  import Timeline
  import PenaltyTiers

  /** A tier as edited: whole percentages, no limit meaning 100%. */
  datatype Tier = Tier(tier: int, minPct: int, maxPct: Option<int>, count: int)

  const SEED := Tier(1, 0, None, 0)

  // ----- the edits, on lists -----

  function Materialized(ts: seq<Tier>): seq<Tier> { if ts == [] then [SEED] else ts }

  function Added(ts: seq<Tier>): seq<Tier> {
    var base := Materialized(ts);
    var init, last := base[..|base| - 1], base[|base| - 1];
    var newMinPct := if last.maxPct.Some? then last.maxPct.value else last.minPct + 1;
    init + [last.(maxPct := Some(newMinPct)), Tier(|base| + 1, newMinPct, None, 1)]
  }

  function CountSet(ts: seq<Tier>, index: nat, count: int): seq<Tier> {
    var base := if index == 0 then Materialized(ts) else ts;
    if index < |base| then base[index := base[index].(count := count)] else base
  }

  /** The repair of one tier: it starts where the previous one ends; an end that is
      missing or not above the start is pushed up; the last tier has no limit. */
  function Repaired(ts: seq<Tier>, j: nat): seq<Tier>
    requires 0 < j < |ts|
  {
    var minPct := if ts[j - 1].maxPct.Some? then ts[j - 1].maxPct.value else 0;
    var maxPct :=
      if j == |ts| - 1 then None
      else if ts[j].maxPct.None? || ts[j].maxPct.value <= minPct then Some(Timeline.Min(99, minPct + 1))
      else ts[j].maxPct;
    ts[j := ts[j].(minPct := minPct, maxPct := maxPct)]
  }

  /** Repairs tiers j, j+1, ... in turn. */
  function Cascade(ts: seq<Tier>, j: nat): seq<Tier>
    requires j > 0
    decreases |ts| - j
  {
    if j >= |ts| then ts else Cascade(Repaired(ts, j), j + 1)
  }

  function BoundarySet(ts: seq<Tier>, index: int, maxPct: int): seq<Tier> {
    if index < 0 || index >= |ts| - 1 then ts
    else Cascade(ts[index := ts[index].(maxPct := Some(maxPct))], index + 1)
  }

  /** Tier i of a list from which one was taken out: renumbered, starting where its
      new predecessor ends. */
  function RenumberedAt(remaining: seq<Tier>, i: nat): Tier
    requires i < |remaining|
  {
    var minPct := if i == 0 then 0 else if remaining[i - 1].maxPct.Some? then remaining[i - 1].maxPct.value else 0;
    remaining[i].(tier := i + 1, minPct := minPct)
  }

  function Renumbered(remaining: seq<Tier>): (r: seq<Tier>)
    ensures |r| == |remaining|
    ensures forall i :: 0 <= i < |r| ==> r[i] == RenumberedAt(remaining, i)
  {
    seq(|remaining|, i requires 0 <= i < |remaining| => RenumberedAt(remaining, i))
  }

  function Removed(ts: seq<Tier>, index: nat): seq<Tier> {
    if index == 0 || index >= |ts| then ts else Renumbered(ts[..index] + ts[index + 1..])
  }

  // ----- the shared document -----

  /** The tier array of the contract document, as one editor changes it. */
  class ContractTiers {
    var tiers: seq<Tier>

    constructor ()
      ensures tiers == []
    {
      tiers := [];
    }

    /** First synchronisation by the host seeds an empty document. */
    method Seed()
      modifies this
      ensures tiers == Materialized(old(tiers))
      ensures old(tiers) == [] ==> tiers == [Tier(1, 0, None, 0)]
      ensures old(tiers) != [] ==> tiers == old(tiers)
    {
      if |tiers| == 0 {
        tiers := tiers + [SEED];
      }
    }

    method AddTier()
      modifies this
      ensures tiers == Added(old(tiers))
      ensures IsEditable(old(tiers)) && Guarded(old(tiers), Add) ==> Wellformed(tiers)
    {
      if IsEditable(tiers) && Guarded(tiers, Add) {
        EditKeeps(tiers, Add);
      }
      if |tiers| == 0 {
        tiers := tiers + [SEED];
      }
      var last := tiers[|tiers| - 1];
      var newMinPct := if last.maxPct.Some? then last.maxPct.value else last.minPct + 1;
      tiers := tiers[..|tiers| - 1];
      tiers := tiers + [last.(maxPct := Some(newMinPct))];
      tiers := tiers + [Tier(|tiers| + 1, newMinPct, None, 1)];
    }

    method UpdateCount(index: nat, count: int)
      modifies this
      ensures tiers == CountSet(old(tiers), index, count)
      ensures IsEditable(old(tiers)) && Guarded(old(tiers), Count(index, count)) ==> Wellformed(tiers)
    {
      if IsEditable(tiers) && Guarded(tiers, Count(index, count)) {
        EditKeeps(tiers, Count(index, count));
      }
      if |tiers| == 0 && index == 0 {
        tiers := tiers + [SEED];
      }
      if index >= |tiers| {
        return;
      }
      var current := tiers[index];
      tiers := tiers[..index] + tiers[index + 1..];
      tiers := tiers[..index] + [current.(count := count)] + tiers[index..];
    }

    method SetTierBoundary(index: nat, maxPct: int)
      modifies this
      ensures tiers == BoundarySet(old(tiers), index, maxPct)
      ensures IsEditable(old(tiers)) && Guarded(old(tiers), Boundary(index, maxPct)) ==> Wellformed(tiers)
    {
      if IsEditable(tiers) && Guarded(tiers, Boundary(index, maxPct)) {
        EditKeeps(tiers, Boundary(index, maxPct));
      }
      var list := tiers;
      if index < 0 || index >= |list| - 1 {
        return;
      }
      var rebuilt := list[index := list[index].(maxPct := Some(maxPct))];
      var j := index + 1;
      while j < |rebuilt|
        invariant index + 1 <= j <= |rebuilt| == |list|
        invariant Cascade(rebuilt, j) == BoundarySet(list, index, maxPct)
      {
        ghost var before := rebuilt;
        var previous := rebuilt[j - 1].maxPct;
        rebuilt := rebuilt[j := rebuilt[j].(minPct := if previous.Some? then previous.value else 0)];
        if j == |rebuilt| - 1 {
          rebuilt := rebuilt[j := rebuilt[j].(maxPct := None)];
        } else if rebuilt[j].maxPct.None? || rebuilt[j].maxPct.value <= rebuilt[j].minPct {
          rebuilt := rebuilt[j := rebuilt[j].(maxPct := Some(Timeline.Min(99, rebuilt[j].minPct + 1)))];
        }
        assert rebuilt == Repaired(before, j);
        j := j + 1;
      }
      tiers := rebuilt;
    }

    method RemoveTier(index: nat)
      requires index < |tiers|
      modifies this
      ensures tiers == Removed(old(tiers), index)
      ensures IsEditable(old(tiers)) && Guarded(old(tiers), Remove(index)) ==> Wellformed(tiers)
    {
      if IsEditable(tiers) && Guarded(tiers, Remove(index)) {
        EditKeeps(tiers, Remove(index));
      }
      if index == 0 {
        return;
      }
      tiers := tiers[..index] + tiers[index + 1..];
      tiers := Renumbered(tiers);
    }
  }

  // ----- what edits keep -----

  /** Numbered from one, starting at 0%, contiguous, with boundaries that never go
      down and stay at or below 99%. */
  predicate Wellformed(ts: seq<Tier>) {
    && ts != [] && ts[0].minPct == 0
    && (forall i :: 0 <= i < |ts| ==> ts[i].tier == i + 1 && ts[i].count >= 0 && ts[i].minPct <= 99)
    && Linked(ts, |ts| - 1)
    && (ts[|ts| - 1].maxPct.Some? ==> ts[|ts| - 1].minPct <= ts[|ts| - 1].maxPct.value <= 99)
  }

  /** Tier i ends where the next one starts, which is not below its own start. */
  predicate LinkedAt(ts: seq<Tier>, i: nat)
    requires i + 1 < |ts|
  {
    ts[i].maxPct == Some(ts[i + 1].minPct) && ts[i].minPct <= ts[i + 1].minPct
  }

  /** The first k boundaries join up and do not go down. */
  predicate Linked(ts: seq<Tier>, k: int) {
    forall i :: 0 <= i < k && i + 1 < |ts| ==> LinkedAt(ts, i)
  }

  /** An empty document, of which the screen shows the seed, or a well-formed list. */
  predicate IsEditable(ts: seq<Tier>) { ts == [] || Wellformed(ts) }

  predicate LastOpen(ts: seq<Tier>) { ts == [] || ts[|ts| - 1].maxPct.None? }

  datatype Edit = Add | Boundary(index: nat, maxPct: int) | Remove(index: nat) | Count(index: nat, count: int)

  function Applied(ts: seq<Tier>, e: Edit): seq<Tier> {
    match e
    case Add => Added(ts)
    case Boundary(i, v) => BoundarySet(ts, i, v)
    case Remove(i) => Removed(ts, i)
    case Count(i, n) => CountSet(ts, i, n)
  }

  /** Values the percentage input commits: while typing, only those above the tier's
      start and at most 99; on leaving the field with anything else, the old value. */
  predicate PctCommitted(t: Tier, v: int) {
    t.minPct < v <= 99 || v == (if t.maxPct.Some? then t.maxPct.value else Timeline.Min(99, t.minPct + 1))
  }

  /** What the settings card lets the editor do. */
  predicate Guarded(ts: seq<Tier>, e: Edit) {
    match e
    case Add => ts == [] || ts[|ts| - 1].minPct < 99
    case Boundary(i, v) => i < |ts| - 1 && PctCommitted(ts[i], v)
    case Remove(i) => 0 < i < |ts|
    case Count(i, n) => i < |Materialized(ts)| && n >= 0
  }

  /** Adding a tier splits the last one, or the seed in an empty document: the last one
      ends where it did or, if it was unlimited, one percent above its start; the new one
      follows without limit and with one penalty. */
  lemma AddedAt(ts: seq<Tier>, i: nat)
    requires i < |ts| + (if ts == [] then 2 else 1)
    ensures var r := Added(ts);
            && |r| == |ts| + (if ts == [] then 2 else 1)
            && (ts == [] ==> r == [Tier(1, 0, Some(1), 0), Tier(2, 1, None, 1)])
            && (i < |ts| - 1 ==> r[i] == ts[i])
            && (i == |ts| - 1 ==> && r[i].tier == ts[i].tier && r[i].minPct == ts[i].minPct && r[i].count == ts[i].count
                                  && r[i].maxPct == if ts[i].maxPct.Some? then ts[i].maxPct
                                                    else Some(ts[i].minPct + 1))
            && (ts != [] && i == |ts| ==>
                  r[i].tier == i + 1 && r[i - 1].maxPct == Some(r[i].minPct) && r[i].maxPct.None? && r[i].count == 1)
  {
  }

  /** Setting a count changes that count and nothing else; in an empty document the first
      tier is the seed. */
  lemma CountSetAt(ts: seq<Tier>, index: nat, count: int)
    ensures var r := CountSet(ts, index, count);
            && (index < |ts| ==>
                  && |r| == |ts| && r[index].count == count
                  && r[index].tier == ts[index].tier && r[index].minPct == ts[index].minPct
                  && r[index].maxPct == ts[index].maxPct
                  && forall i :: 0 <= i < |ts| && i != index ==> r[i] == ts[i])
            && (index >= |ts| ==> r == if ts == [] && index == 0 then [Tier(1, 0, None, count)] else ts)
  {
  }

  lemma AddKeeps(ts: seq<Tier>)
    requires IsEditable(ts)
    requires Guarded(ts, Add)
    ensures Wellformed(Added(ts)) && LastOpen(Added(ts))
  {
    var base := Materialized(ts);
    var r := Added(ts);
    var n := |base|;
    assert |r| == n + 1 && r[n].minPct <= 99;
    assert forall i :: 0 <= i < n ==> r[i].minPct == base[i].minPct && r[i].tier == base[i].tier;
    forall i | 0 <= i < n ensures LinkedAt(r, i) {
      if i < n - 1 { assert LinkedAt(base, i); }
    }
  }

  lemma CountKeeps(ts: seq<Tier>, index: nat, count: int)
    requires IsEditable(ts)
    requires Guarded(ts, Count(index, count))
    ensures Wellformed(CountSet(ts, index, count))
    ensures LastOpen(CountSet(ts, index, count)) == LastOpen(ts)
  {
    var base := Materialized(ts);
    var r := CountSet(ts, index, count);
    assert |r| == |base|;
    assert forall i :: 0 <= i < |r| ==> r[i].minPct == base[i].minPct && r[i].maxPct == base[i].maxPct;
    forall i | 0 <= i < |r| - 1 ensures LinkedAt(r, i) {
      assert LinkedAt(base, i);
    }
  }

  /** Neither the first tier nor one that is not there is removed. */
  lemma NotRemoved(ts: seq<Tier>, index: nat)
    ensures index == 0 || index >= |ts| ==> Removed(ts, index) == ts
    ensures Removed(ts, index) == ts && ts != [] ==> index == 0 || index >= |ts|
  {
  }

  /** Removing a tier joins its neighbours: every later tier keeps its count and its
      percentages, except that the one after the gap starts where the removed one did. */
  lemma RemovedAt(ts: seq<Tier>, index: nat, i: nat)
    requires Wellformed(ts) && 0 < index < |ts| && i < |ts| - 1
    ensures var r := Removed(ts, index);
            && |r| == |ts| - 1
            && r[i].tier == i + 1
            && r[i].count == (if i < index then ts[i].count else ts[i + 1].count)
            && r[i].maxPct == (if i < index then ts[i].maxPct else ts[i + 1].maxPct)
            && r[i].minPct == (if i <= index then ts[i].minPct else ts[i + 1].minPct)
  {
    var remaining := ts[..index] + ts[index + 1..];
    assert remaining[i] == if i < index then ts[i] else ts[i + 1];
    if i > 0 {
      assert remaining[i - 1] == if i - 1 < index then ts[i - 1] else ts[i];
      assert LinkedAt(ts, i - 1) && LinkedAt(ts, i);
    }
  }

  lemma RemovedLinks(ts: seq<Tier>, index: nat, i: nat)
    requires Wellformed(ts) && 0 < index < |ts| && i + 1 < |ts| - 1
    ensures var r := Removed(ts, index);
            i + 1 < |r| && LinkedAt(r, i)
  {
    RemovedAt(ts, index, i);
    RemovedAt(ts, index, i + 1);
    assert LinkedAt(ts, i) && LinkedAt(ts, i + 1);
  }

  lemma RemoveKeeps(ts: seq<Tier>, index: nat)
    requires Wellformed(ts) && Guarded(ts, Remove(index))
    ensures Wellformed(Removed(ts, index))
    ensures LastOpen(Removed(ts, index)) == (index != |ts| - 1 && LastOpen(ts))
  {
    var r := Removed(ts, index);
    var last := |r| - 1;
    forall i | 0 <= i < |r| ensures r[i].tier == i + 1 && r[i].count >= 0 && r[i].minPct <= 99 {
      RemovedAt(ts, index, i);
    }
    forall i | 0 <= i < last ensures LinkedAt(r, i) {
      RemovedLinks(ts, index, i);
    }
    RemovedAt(ts, index, 0);
    RemovedAt(ts, index, last);
    assert LinkedAt(ts, last);
  }

  /** State of a boundary edit when the tiers before j have been repaired. */
  predicate CascadeInvariant(ts: seq<Tier>, j: nat) {
    && 0 < j <= |ts| && ts[0].minPct == 0
    && (forall i :: 0 <= i < |ts| ==> ts[i].tier == i + 1 && ts[i].count >= 0)
    && (forall i :: 0 <= i < j ==> ts[i].minPct <= 99)
    && (forall i :: j <= i < |ts| && ts[i].maxPct.Some? ==> ts[i].maxPct.value <= 99)
    && Linked(ts, j - 1)
    && if j == |ts| then ts[j - 1].maxPct.None?
       else ts[j - 1].maxPct.Some? && ts[j - 1].minPct <= ts[j - 1].maxPct.value <= 99
  }

  lemma RepairKeeps(ts: seq<Tier>, j: nat)
    requires j < |ts| && CascadeInvariant(ts, j)
    ensures CascadeInvariant(Repaired(ts, j), j + 1)
  {
    var r := Repaired(ts, j);
    assert forall i :: 0 <= i < |ts| && i != j ==> r[i] == ts[i];
    forall i | 0 <= i < j ensures LinkedAt(r, i) {
      if i < j - 1 { assert LinkedAt(ts, i); }
    }
  }

  lemma {:induction false} CascadeKeeps(ts: seq<Tier>, j: nat)
    requires CascadeInvariant(ts, j)
    ensures Wellformed(Cascade(ts, j)) && LastOpen(Cascade(ts, j))
    decreases |ts| - j
  {
    if j < |ts| {
      RepairKeeps(ts, j);
      CascadeKeeps(Repaired(ts, j), j + 1);
    }
  }

  lemma BoundaryKeeps(ts: seq<Tier>, index: nat, maxPct: int)
    requires Wellformed(ts) && Guarded(ts, Boundary(index, maxPct))
    ensures Wellformed(BoundarySet(ts, index, maxPct)) && LastOpen(BoundarySet(ts, index, maxPct))
  {
    var edited := ts[index := ts[index].(maxPct := Some(maxPct))];
    assert LinkedAt(ts, index);
    forall i | index + 1 <= i < |ts| && ts[i].maxPct.Some? ensures ts[i].maxPct.value <= 99 {
      if i < |ts| - 1 { assert LinkedAt(ts, i); }
    }
    forall i | 0 <= i < index ensures LinkedAt(edited, i) {
      assert LinkedAt(ts, i);
    }
    assert CascadeInvariant(edited, index + 1);
    CascadeKeeps(edited, index + 1);
  }

  predicate EndsAbove(t: Tier, pct: int) { t.maxPct.Some? && t.maxPct.value > pct }

  /** What the cascade leaves: tiers before j as they were; each later one starts where
      its predecessor ends and keeps its own end whenever that end is still above its
      start, otherwise it ends one percent higher but not above 99. */
  lemma {:induction false} CascadeEffect(ts: seq<Tier>, j: nat, k: nat)
    requires 0 < j <= |ts| && k < |ts|
    ensures var r := Cascade(ts, j);
            && |r| == |ts|
            && (k < j ==> r[k] == ts[k])
            && (k >= j ==> && r[k].tier == ts[k].tier && r[k].count == ts[k].count
                           && r[k].minPct == (if r[k - 1].maxPct.Some? then r[k - 1].maxPct.value else 0)
                           && r[k].maxPct == (if k == |ts| - 1 then None
                                              else if EndsAbove(ts[k], r[k].minPct) then ts[k].maxPct
                                              else Some(Timeline.Min(99, r[k].minPct + 1))))
    decreases |ts| - j
  {
    if j < |ts| {
      var next := Repaired(ts, j);
      CascadeEffect(next, j + 1, k);
      CascadeEffect(next, j + 1, j);
      CascadeEffect(next, j + 1, j - 1);
    }
  }

  /** The last tier has no boundary to set. */
  lemma LastBoundaryFixed(ts: seq<Tier>, index: int, maxPct: int)
    requires index < 0 || index >= |ts| - 1
    ensures BoundarySet(ts, index, maxPct) == ts
  {
  }

  /** A boundary edit sets the chosen end, leaves the tiers before it alone and repairs
      the ones after it as little as needed. */
  lemma BoundaryEffect(ts: seq<Tier>, index: nat, maxPct: int, k: nat)
    requires index < |ts| - 1 && k < |ts|
    ensures var r := BoundarySet(ts, index, maxPct);
            && |r| == |ts|
            && (k < index ==> r[k] == ts[k])
            && r[index] == ts[index].(maxPct := Some(maxPct))
            && (k > index ==> && r[k].tier == ts[k].tier && r[k].count == ts[k].count
                              && (r[k - 1].maxPct.Some? ==> r[k].minPct == r[k - 1].maxPct.value)
                              && r[k].maxPct == (if k == |ts| - 1 then None
                                                 else if EndsAbove(ts[k], r[k].minPct) then ts[k].maxPct
                                                 else Some(Timeline.Min(99, r[k].minPct + 1))))
  {
    var edited := ts[index := ts[index].(maxPct := Some(maxPct))];
    CascadeEffect(edited, index + 1, k);
    CascadeEffect(edited, index + 1, index);
  }

  // ----- whole editing sessions -----

  function Edited(ts: seq<Tier>, edits: seq<Edit>): seq<Tier>
    decreases |edits|
  {
    if edits == [] then ts else Edited(Applied(ts, edits[0]), edits[1..])
  }

  predicate GuardedRun(ts: seq<Tier>, edits: seq<Edit>)
    decreases |edits|
  {
    edits != [] ==> Guarded(ts, edits[0]) && GuardedRun(Applied(ts, edits[0]), edits[1..])
  }

  /** Whether the last tier is without limit after an edit: adding a tier or moving a
      boundary always restores it, removing the last tier always loses it, and the
      other edits do not touch it. */
  function OpenAfter(ts: seq<Tier>, e: Edit, open: bool): bool {
    match e
    case Add => true
    case Boundary(_, _) => true
    case Remove(i) => i != |ts| - 1 && open
    case Count(_, _) => open
  }

  function OpenAfterRun(ts: seq<Tier>, edits: seq<Edit>, open: bool): bool
    decreases |edits|
  {
    if edits == [] then open
    else OpenAfterRun(Applied(ts, edits[0]), edits[1..], OpenAfter(ts, edits[0], open))
  }

  /** One guarded edit keeps the list well-formed and changes its open end as tracked. */
  lemma EditKeeps(ts: seq<Tier>, e: Edit)
    requires IsEditable(ts) && Guarded(ts, e)
    ensures Wellformed(Applied(ts, e))
    ensures LastOpen(Applied(ts, e)) == OpenAfter(ts, e, LastOpen(ts))
  {
    match e {
      case Add => AddKeeps(ts);
      case Boundary(i, v) => BoundaryKeeps(ts, i, v);
      case Remove(i) => RemoveKeeps(ts, i);
      case Count(i, n) => CountKeeps(ts, i, n);
    }
  }

  /** Every guarded editing session, from the empty document or any well-formed list,
      ends in a well-formed list, whose end is open exactly as tracked. */
  lemma {:induction false} SessionKeeps(ts: seq<Tier>, edits: seq<Edit>)
    requires IsEditable(ts) && GuardedRun(ts, edits)
    ensures IsEditable(Edited(ts, edits))
    ensures LastOpen(Edited(ts, edits)) == OpenAfterRun(ts, edits, LastOpen(ts))
    decreases |edits|
  {
    if edits != [] {
      EditKeeps(ts, edits[0]);
      SessionKeeps(Applied(ts, edits[0]), edits[1..]);
    }
  }

  // ----- what the backend receives -----

  function ToPenaltyTier(t: Tier): PenaltyTiers.PenaltyTier {
    PenaltyTiers.PenaltyTier(t.tier, t.minPct as real,
      if t.maxPct.Some? then Some(t.maxPct.value as real) else None,
      if t.count < 0 then 0 else t.count)
  }

  function ToPayload(ts: seq<Tier>): (r: seq<PenaltyTiers.PenaltyTier>)
    ensures |r| == |ts| && forall i :: 0 <= i < |ts| ==> r[i] == ToPenaltyTier(ts[i])
  {
    seq(|ts|, i requires 0 <= i < |ts| => ToPenaltyTier(ts[i]))
  }

  lemma {:induction false} LinkedAscends(ts: seq<Tier>, i: nat, j: nat)
    requires Linked(ts, |ts| - 1) && i <= j < |ts|
    ensures ts[i].minPct <= ts[j].minPct
  {
    if i < j {
      LinkedAscends(ts, i, j - 1);
      assert LinkedAt(ts, j - 1);
    }
  }

  /** A well-formed list passes the rule service's validation and has the shape the
      resolver's theorems ask for. */
  lemma PayloadShape(ts: seq<Tier>)
    requires Wellformed(ts)
    ensures var p := ToPayload(ts);
            && PenaltyTiers.Contiguous(p) && PenaltyTiers.StartsAtZero(p)
            && PenaltyTiers.Nondecreasing(p) && PenaltyTiers.Numbered(p)
            && (PenaltyTiers.OpenEnded(p) <==> LastOpen(ts))
            && |p| == |ts|
            && forall i :: 0 <= i < |ts| ==> p[i].minPct == ts[i].minPct as real && p[i].count == ts[i].count
  {
    forall i, j | 0 <= i < j < |ts| ensures ts[i].minPct <= ts[j].minPct {
      LinkedAscends(ts, i, j);
    }
    forall i | 0 <= i < |ts| - 1 ensures PenaltyTiers.JoinedAt(ToPayload(ts), i) {
      assert LinkedAt(ts, i);
    }
  }

  /** After any guarded editing session from the seeded tier, the stored contract passes
      validation, and both tier lookups of the penalty service are total on it if and
      only if the tracked end is open: if no removal of the last tier came after the
      last added tier or moved boundary. */
  lemma EditedContractTotalIff(edits: seq<Edit>)
    requires GuardedRun([SEED], edits)
    ensures var tiers := ToPayload(Edited([SEED], edits));
            var open := OpenAfterRun([SEED], edits, true);
            && PenaltyTiers.Contiguous(tiers)
            && (PenaltyTiers.ResolveForfeitTier(tiers).Ok? <==> open)
            && ((forall pct: real :: pct >= 0.0 ==> PenaltyTiers.SelectTier(tiers, pct).Some?) <==> open)
  {
    SessionKeeps([SEED], edits);
    var ts := Edited([SEED], edits);
    NeverEmptied([SEED], edits);
    PayloadShape(ts);
    var tiers := ToPayload(ts);
    PenaltyTiers.ForfeitIsLastTier(tiers);
    PenaltyTiers.ForfeitNeedsOpenTier(tiers);
    if LastOpen(ts) {
      forall pct: real | pct >= 0.0 ensures PenaltyTiers.SelectTier(tiers, pct).Some? {
        PenaltyTiers.NeverFallsThrough(tiers, pct);
      }
    } else {
      forall t | t in tiers ensures t.maxPct.Some? && t.maxPct.value <= 99.0 {
        var i :| 0 <= i < |tiers| && tiers[i] == t;
        assert i < |ts| - 1 ==> LinkedAt(ts, i);
      }
      PenaltyTiers.FallsThroughIff(tiers, 99.0);
    }
  }

  /** The escaped share, 100 * total / focus, lies between the tier's start and the next
      tier's start as the editor shows them. */
  predicate ShownFor(ts: seq<Tier>, i: nat, total: nat, focus: nat)
    requires i < |ts|
  {
    ts[i].minPct * focus <= 100 * total && (i + 1 < |ts| ==> 100 * total < ts[i + 1].minPct * focus)
  }

  lemma CoversIffShown(ts: seq<Tier>, i: nat, total: nat, focus: nat)
    requires Wellformed(ts) && LastOpen(ts) && i < |ts|
    ensures PenaltyTiers.Covers(ToPayload(ts)[i], total, focus) <==> ShownFor(ts, i, total, focus)
  {
    var t := ToPayload(ts)[i];
    IntegerProduct(ts[i].minPct, focus);
    if i + 1 < |ts| {
      assert LinkedAt(ts, i);
      IntegerProduct(ts[i + 1].minPct, focus);
    }
  }

  lemma IntegerProduct(a: int, b: int)
    ensures a as real * b as real == (a * b) as real
  {
  }

  /** What the editor shows is what is charged: after any guarded editing session that
      leaves the end open, for every plan and escape total exactly one tier of the list
      is shown for that share, and the penalty service charges its number and count. */
  lemma ShownIsCharged(edits: seq<Edit>, total: nat, focusMin: nat, rounds: nat) returns (i: nat)
    requires GuardedRun([SEED], edits) && OpenAfterRun([SEED], edits, true) && focusMin * rounds > 0
    ensures var ts := Edited([SEED], edits);
            var focus := focusMin * rounds * 60000;
            && i < |ts| && ShownFor(ts, i, total, focus)
            && (forall j :: 0 <= j < |ts| && ShownFor(ts, j, total, focus) ==> j == i)
            && ts[i].count >= 0
            && PenaltyTiers.CalculatePenaltyTier(total, focusMin, rounds, ToPayload(ts))
               == PenaltyTiers.TierResult(i + 1, ts[i].count, false)
  {
    var ts := Edited([SEED], edits);
    var focus := focusMin * rounds * 60000;
    SessionKeeps([SEED], edits);
    NeverEmptied([SEED], edits);
    PayloadShape(ts);
    i := PenaltyTiers.ChargedExactly(total, focusMin, rounds, ToPayload(ts));
    forall j | 0 <= j < |ts|
      ensures PenaltyTiers.Covers(ToPayload(ts)[j], total, focus) <==> ShownFor(ts, j, total, focus)
    {
      CoversIffShown(ts, j, total, focus);
    }
  }

  lemma {:induction false} NeverEmptied(ts: seq<Tier>, edits: seq<Edit>)
    requires Wellformed(ts) && GuardedRun(ts, edits)
    ensures Edited(ts, edits) != []
    decreases |edits|
  {
    if edits != [] {
      EditKeeps(ts, edits[0]);
      NeverEmptied(Applied(ts, edits[0]), edits[1..]);
    }
  }

  /** Removing the last tier of a two-tier contract leaves members who gave up without
      a tier, and members above the remaining limit without a penalty. */
  lemma RemovingLastTierLosesOpenEnd()
    ensures var edits := [Add, Remove(1)];
            && GuardedRun([SEED], edits)
            && Edited([SEED], edits) == [Tier(1, 0, Some(1), 0)]
            && PenaltyTiers.ResolveForfeitTier(ToPayload(Edited([SEED], edits))).Err?
  {
    var two := Added([SEED]);
    assert two == [Tier(1, 0, Some(1), 0), Tier(2, 1, None, 1)];
    assert Removed(two, 1) == [Tier(1, 0, Some(1), 0)];
    var edits := [Add, Remove(1)];
    assert edits[1..] == [Remove(1)] && edits[1..][1..] == [];
    assert Applied([SEED], edits[0]) == two;
    assert Edited(two, edits[1..]) == Edited(Removed(two, 1), []);
    assert GuardedRun(two, edits[1..]);
    PenaltyTiers.ForfeitNeedsOpenTier(ToPayload([Tier(1, 0, Some(1), 0)]));
  }
}
