/** Drawing penalties, and revealing them one spin at a time in a shuffled order.

    Drawn penalties are stored as one counted row per content.  A spin number selects a
    position in the rows' expanded sequence, shuffled by a generator seeded with the
    member's id.  The module proves that spinning once for each number reveals exactly
    what was drawn. */
module Roulette {
  import opened Wrappers
  import Timeline

  /** One stored penalty of a member; contents are unique per member. */
  datatype PenaltyRow = PenaltyRow(content: string, count: nat, isRevealed: bool)

  // ----- drawing -----

  /** The contents drawn with replacement; draw(i) stands for the i-th random number. */
  function Drawn(pool: seq<string>, count: nat, draw: nat -> nat): seq<string> {
    if pool == [] then [] else seq(count, i requires 0 <= i => pool[draw(i) % |pool|])
  }

  /** How often each content occurs. */
  function Tally(s: seq<string>): map<string, nat> {
    if s == [] then map[]
    else
      var before, c := Tally(s[..|s| - 1]), s[|s| - 1];
      before[c := (if c in before then before[c] else 0) + 1]
  }

  /** Draws count penalties from the pool and groups them by content. */
  method AssignPenalties(pool: seq<string>, count: nat, draw: nat -> nat) returns (result: map<string, nat>)
    ensures result == Tally(Drawn(pool, count, draw))
  {
    result := map[];
    if |pool| == 0 {
      return;
    }
    ghost var drawn := Drawn(pool, count, draw);
    for i := 0 to count
      invariant result == Tally(drawn[..i])
    {
      var item := pool[draw(i) % |pool|];
      assert drawn[..i + 1][..i] == drawn[..i];
      result := result[item := (if item in result then result[item] else 0) + 1];
    }
    assert drawn[..count] == drawn;
  }

  lemma {:induction false} TallyCounts(s: seq<string>, c: string)
    ensures c in Tally(s) <==> c in s
    ensures c in s ==> Tally(s)[c] == multiset(s)[c]
  {
    if s != [] {
      TallyCounts(s[..|s| - 1], c);
      assert s == s[..|s| - 1] + [s[|s| - 1]];
    }
  }

  /** How many of the first n draws hit the content. */
  function Hits(pool: seq<string>, n: nat, draw: nat -> nat, c: string): nat
    requires pool != []
  {
    if n == 0 then 0 else Hits(pool, n - 1, draw, c) + if pool[draw(n - 1) % |pool|] == c then 1 else 0
  }

  /** The tally of a drawing counts, for each content, the draws that hit it; every draw
      hits the pool's entry at its random number modulo the pool's size. */
  lemma {:induction false} TallyCountsHits(pool: seq<string>, count: nat, draw: nat -> nat, c: string)
    requires pool != []
    ensures c in Tally(Drawn(pool, count, draw)) <==> Hits(pool, count, draw, c) > 0
    ensures c in Tally(Drawn(pool, count, draw)) ==>
              Tally(Drawn(pool, count, draw))[c] == Hits(pool, count, draw, c)
  {
    if count > 0 {
      TallyCountsHits(pool, count - 1, draw, c);
      assert Drawn(pool, count, draw)[..count - 1] == Drawn(pool, count - 1, draw);
    }
  }

  // ----- the seeded shuffle -----

  const FNV_OFFSET: bv32 := 2166136261
  const FNV_PRIME: bv32 := 16777619
  const TWO_TO_32: int := 4294967296

  /** One FNV-1a step: mix in a code unit, multiply modulo 2^32. */
  function FnvStep(h: bv32, unit: bv16): bv32 { (h ^ (unit as bv32)) * FNV_PRIME }

  function FnvFrom(h: bv32, seed: seq<bv16>): bv32
    decreases |seed|
  {
    if seed == [] then h else FnvFrom(FnvStep(h, seed[0]), seed[1..])
  }

  function Fnv(seed: seq<bv16>): bv32 { FnvFrom(FNV_OFFSET, seed) }

  function NextState(state: bv32): bv32 { state + 0x6d2b79f5 }

  /** The mulberry32 output for a state. */
  function Mix(state: bv32): bv32 {
    var t := (state ^ (state >> 15)) * (1 | state);
    var u := (t + (t ^ (t >> 7)) * (61 | t)) ^ t;
    u ^ (u >> 14)
  }

  lemma BitsInRange(b: bv32)
    ensures 0 <= b as int < TWO_TO_32
  {
  }

  lemma ScaledInRange(x: nat, n: nat)
    requires x < TWO_TO_32 && n > 0
    ensures 0 <= x * n / TWO_TO_32 < n
  {
    Timeline.MulMonotone(x, TWO_TO_32 - 1, n);
  }

  /** The position swapped with position i: the output as a fraction of 2^32, scaled to
      i + 1 and rounded down.  It never leaves the unshuffled part. */
  function SwapIndex(state: bv32, i: nat): (j: nat)
    ensures j <= i
  {
    BitsInRange(Mix(state));
    ScaledInRange(Mix(state) as int, i + 1);
    (Mix(state) as int) * (i + 1) / TWO_TO_32
  }

  /** The position is the greatest whose share of 2^32 is not above the output's share. */
  lemma SwapIndexIs(state: bv32, i: nat)
    ensures SwapIndex(state, i) * TWO_TO_32 <= (Mix(state) as int) * (i + 1) < (SwapIndex(state, i) + 1) * TWO_TO_32
  {
  }

  /** Published values of the hash and of the generator seeded with zero. */
  lemma KnownOutputs()
    ensures Fnv([]) == 0x811c9dc5
    ensures Fnv([0x61]) == 0xe40c292c
    ensures Fnv([0x66, 0x6f, 0x6f, 0x62, 0x61, 0x72]) == 0xbf9cf968
    ensures Mix(NextState(0)) == 0x4434b462
  {
    var foobar: seq<bv16> := [0x66, 0x6f, 0x6f, 0x62, 0x61, 0x72];
    assert foobar[1..] == [0x6f, 0x6f, 0x62, 0x61, 0x72];
    assert foobar[1..][1..] == [0x6f, 0x62, 0x61, 0x72];
    assert foobar[1..][1..][1..] == [0x62, 0x61, 0x72];
    assert foobar[1..][1..][1..][1..] == [0x61, 0x72];
    assert foobar[1..][1..][1..][1..][1..] == [0x72];
    assert [0x61 as bv16][1..] == [];
  }

  /** The generator's state after n outputs. */
  function StateAfter(state: bv32, n: nat): bv32 { if n == 0 then state else StateAfter(state, n - 1) + 0x6d2b79f5 }

  lemma {:induction false} StateAfterFirst(state: bv32, n: nat)
    ensures StateAfter(state + 0x6d2b79f5, n) == StateAfter(state, n + 1)
  {
    if n > 0 {
      StateAfterFirst(state, n - 1);
    }
  }

  /** The k-th swap, of position i - k, is decided by the generator's k-th output. */
  lemma {:induction false} SwapIndicesAt(i: nat, state: bv32, k: nat)
    requires k < i
    ensures SwapIndices(i, state)[k] == SwapIndex(StateAfter(state, k + 1), i - k)
    decreases i
  {
    if k > 0 {
      SwapIndicesAt(i - 1, state + 0x6d2b79f5, k - 1);
      StateAfterFirst(state, k);
    }
  }

  /** The swap positions for i, i - 1, ..., 1. */
  function SwapIndices(i: nat, state: bv32): (js: seq<nat>)
    ensures |js| == i && ValidSwaps(js)
  {
    if i == 0 then [] else [SwapIndex(NextState(state), i)] + SwapIndices(i - 1, NextState(state))
  }

  predicate ValidSwaps(js: seq<nat>) {
    forall k :: 0 <= k < |js| ==> js[k] <= |js| - k
  }

  function Swapped<T>(s: seq<T>, i: nat, j: nat): seq<T>
    requires i < |s| && j < |s|
  {
    s[i := s[j]][j := s[i]]
  }

  /** Fisher-Yates: swaps position |js| with js[0], the one below with js[1], and so on. */
  function ShuffledBy<T>(s: seq<T>, js: seq<nat>): (r: seq<T>)
    requires ValidSwaps(js) && (js == [] || |js| < |s|)
    ensures |r| == |s|
    decreases |js|
  {
    if js == [] then s else ShuffledBy(Swapped(s, |js|, js[0]), js[1..])
  }

  /** The swaps depend on the length and the seed only. */
  function SeededSwaps(length: nat, seed: seq<bv16>): (js: seq<nat>)
    ensures ValidSwaps(js) && (js == [] || |js| < length)
  {
    SwapIndices(if length == 0 then 0 else length - 1, Fnv(seed))
  }

  function Shuffled<T>(s: seq<T>, seed: seq<bv16>): (r: seq<T>)
    ensures |r| == |s|
  {
    ShuffledBy(s, SeededSwaps(|s|, seed))
  }

  /** The k-th of the swaps that shuffle a sequence concerns position length - 1 - k, and its
      partner is that position's share of the generator's k-th output, the generator being
      seeded with the hash of the seed. */
  lemma SeededSwapAt(length: nat, seed: seq<bv16>, k: nat)
    requires k + 1 < length
    ensures |SeededSwaps(length, seed)| == length - 1
    ensures var j := SeededSwaps(length, seed)[k];
            var output := Mix(StateAfter(Fnv(seed), k + 1)) as int;
            j * TWO_TO_32 <= output * (length - k) < (j + 1) * TWO_TO_32
  {
    SwapIndicesAt(length - 1, Fnv(seed), k);
    SwapIndexIs(StateAfter(Fnv(seed), k + 1), length - 1 - k);
  }

  /** FNV-1a hash of the seed, one code unit at a time. */
  method HashSeed(seed: seq<bv16>) returns (h: bv32)
    ensures h == Fnv(seed)
  {
    h := FNV_OFFSET;
    for k := 0 to |seed|
      invariant FnvFrom(h, seed[k..]) == Fnv(seed)
    {
      var rest := seed[k..];
      assert rest[0] == seed[k] && rest[1..] == seed[k + 1..];
      h := FnvStep(h, seed[k]);
    }
  }

  /** One round of the loop: the first swap is made, the others remain. */
  lemma OneSwap<T>(s: seq<T>, i: nat, state: bv32)
    requires 0 < i < |s|
    ensures var next := NextState(state);
            ShuffledBy(s, SwapIndices(i, state))
              == ShuffledBy(Swapped(s, i, SwapIndex(next, i)), SwapIndices(i - 1, next))
  {
    var next := NextState(state);
    var js := SwapIndices(i, state);
    assert js[0] == SwapIndex(next, i) && js[1..] == SwapIndices(i - 1, next);
  }

  /** The shuffle as the service runs it: hash the seed, copy the array, swap in place. */
  method SeededShuffle<T>(arr: seq<T>, seed: seq<bv16>) returns (out: array<T>)
    ensures fresh(out) && out[..] == Shuffled(arr, seed)
  {
    var state := HashSeed(seed);
    out := new T[|arr|](i requires 0 <= i < |arr| => arr[i]);
    assert out[..] == arr;
    var i := |arr| - 1;
    while i > 0
      invariant i < out.Length == |arr|
      invariant i < 0 ==> arr == []
      invariant i >= 0 ==> ShuffledBy(out[..], SwapIndices(i, state)) == Shuffled(arr, seed)
    {
      OneSwap(out[..], i, state);
      state := NextState(state);
      var j := SwapIndex(state, i);
      ghost var before := out[..];
      out[i], out[j] := out[j], out[i];
      assert out[..] == Swapped(before, i, j);
      i := i - 1;
    }
  }

  lemma SwapPermutes<T>(s: seq<T>, i: nat, j: nat)
    requires i < |s| && j < |s|
    ensures multiset(Swapped(s, i, j)) == multiset(s)
  {
  }

  lemma {:induction false} ShuffledByPermutes<T>(s: seq<T>, js: seq<nat>)
    requires ValidSwaps(js) && (js == [] || |js| < |s|)
    ensures multiset(ShuffledBy(s, js)) == multiset(s)
    decreases |js|
  {
    if js != [] {
      SwapPermutes(s, |js|, js[0]);
      ShuffledByPermutes(Swapped(s, |js|, js[0]), js[1..]);
    }
  }

  /** The shuffle is a permutation, for every sequence and seed. */
  lemma ShuffledPermutes<T>(s: seq<T>, seed: seq<bv16>)
    ensures multiset(Shuffled(s, seed)) == multiset(s)
  {
    ShuffledByPermutes(s, SeededSwaps(|s|, seed));
  }

  /** The first swap decides what ends up at its position; the rest only move what is
      below it. */
  lemma {:induction false} FirstSwapDecides<T>(s: seq<T>, js: seq<nat>, k: nat)
    requires ValidSwaps(js) && (js == [] || |js| < |s|) && |js| < k < |s|
    ensures ShuffledBy(s, js)[k] == s[k]
    decreases |js|
  {
    if js != [] {
      FirstSwapDecides(Swapped(s, |js|, js[0]), js[1..], k);
    }
  }

  lemma TopOfShuffle<T>(s: seq<T>, js: seq<nat>)
    requires ValidSwaps(js) && js != [] && |js| < |s|
    ensures ShuffledBy(s, js)[|js|] == s[js[0]]
  {
    FirstSwapDecides(Swapped(s, |js|, js[0]), js[1..], |js|);
  }

  predicate Distinct<T(==)>(s: seq<T>) { forall i, j :: 0 <= i < j < |s| ==> s[i] != s[j] }

  /** Different swaps give different orders, so every one of the n! orders of n different
      elements comes from exactly one choice of swaps. */
  lemma {:induction false} SwapsDetermined<T>(s: seq<T>, js: seq<nat>, js': seq<nat>)
    requires ValidSwaps(js) && ValidSwaps(js') && |js| == |js'| && (js == [] || |js| < |s|)
    requires Distinct(s) && ShuffledBy(s, js) == ShuffledBy(s, js')
    ensures js == js'
    decreases |js|
  {
    if js != [] {
      TopOfShuffle(s, js);
      TopOfShuffle(s, js');
      assert js[0] == js'[0];
      SwapsDetermined(Swapped(s, |js|, js[0]), js[1..], js'[1..]);
    }
  }

  /** The shuffle moves positions without looking at what is stored there: sequences
      related position by position stay related. */
  lemma {:induction false} ShuffledByNatural<T, U>(s: seq<T>, r: seq<U>, js: seq<nat>, f: T -> U)
    requires |s| == |r| && ValidSwaps(js) && (js == [] || |js| < |s|)
    requires forall k :: 0 <= k < |s| ==> r[k] == f(s[k])
    ensures forall k :: 0 <= k < |s| ==> ShuffledBy(r, js)[k] == f(ShuffledBy(s, js)[k])
    decreases |js|
  {
    if js != [] {
      ShuffledByNatural(Swapped(s, |js|, js[0]), Swapped(r, |js|, js[0]), js[1..], f);
    }
  }

  /** Which element lands where is decided by the length and the seed alone: the
      shuffled sequence is the original read through one fixed permutation. */
  lemma ShuffleIsFixedPermutation<T>(s: seq<T>, seed: seq<bv16>)
    ensures var positions := Shuffled(seq(|s|, i requires 0 <= i => i), seed);
            forall k :: 0 <= k < |s| ==> 0 <= positions[k] < |s| && Shuffled(s, seed)[k] == s[positions[k]]
  {
    if s != [] {
      var indices := seq(|s|, i requires 0 <= i => i);
      var positions := Shuffled(indices, seed);
      var f := (i: int) => if 0 <= i < |s| then s[i] else s[0];
      ShuffledByNatural(indices, s, SeededSwaps(|s|, seed), f);
      ShuffledPermutes(indices, seed);
      forall k | 0 <= k < |s| ensures 0 <= positions[k] < |s| {
        assert positions[k] in multiset(positions);
        assert positions[k] in indices;
      }
    }
  }

  // ----- spinning -----

  function Repeat(content: string, count: nat): seq<string> { seq(count, _ => content) }

  /** The rows expanded to one entry per penalty to carry out. */
  function Flat(rows: seq<PenaltyRow>): seq<string> {
    if rows == [] then [] else Repeat(rows[0].content, rows[0].count) + Flat(rows[1..])
  }

  function TotalSpins(rows: seq<PenaltyRow>): nat {
    if rows == [] then 0 else rows[0].count + TotalSpins(rows[1..])
  }

  predicate AllRevealed(rows: seq<PenaltyRow>) {
    forall i :: 0 <= i < |rows| ==> rows[i].isRevealed
  }

  function RevealAll(rows: seq<PenaltyRow>): seq<PenaltyRow> {
    seq(|rows|, i requires 0 <= i < |rows| => rows[i].(isRevealed := true))
  }

  lemma {:induction false} FlatLength(rows: seq<PenaltyRow>)
    ensures |Flat(rows)| == TotalSpins(rows)
  {
    if rows != [] {
      FlatLength(rows[1..]);
    }
  }

  datatype SpinError = Locked | NoResult | AlreadyFinished | NoSuchSpin

  datatype Spin = Spin(spinIndex: int, content: string, remainingSpins: int, isFinished: bool)

  /** The content shown for a spin number between one and the number of spins. */
  function SpinTarget(rows: seq<PenaltyRow>, seed: seq<bv16>, spinIndex: int): string
    requires 1 <= spinIndex <= TotalSpins(rows)
  {
    FlatLength(rows);
    ShuffledPermutes(Flat(rows), seed);
    Shuffled(Flat(rows), seed)[spinIndex - 1]
  }

  /** Contents and counts of the rows not yet revealed. */
  function UnrevealedItems(rows: seq<PenaltyRow>): seq<(string, nat)> {
    if rows == [] then []
    else (if rows[0].isRevealed then [] else [(rows[0].content, rows[0].count)]) + UnrevealedItems(rows[1..])
  }

  /** The unrevealed items are those of the unrevealed rows, in the rows' order. */
  lemma {:induction false} UnrevealedItemsOf(a: seq<PenaltyRow>, row: PenaltyRow)
    ensures UnrevealedItems(a + [row])
         == UnrevealedItems(a) + if row.isRevealed then [] else [(row.content, row.count)]
    ensures UnrevealedItems([]) == []
  {
    var own := if row.isRevealed then [] else [(row.content, row.count)];
    if a == [] {
      assert a + [row] == [row] && UnrevealedItems([row]) == own + UnrevealedItems([]);
    } else {
      var first := if a[0].isRevealed then [] else [(a[0].content, a[0].count)];
      assert (a + [row])[1..] == a[1..] + [row];
      UnrevealedItemsOf(a[1..], row);
      Associates(first, UnrevealedItems(a[1..]), own);
    }
  }

  lemma Associates<T>(a: seq<T>, b: seq<T>, c: seq<T>)
    ensures a + (b + c) == a + b + c
  {
  }

  lemma {:induction false} NothingUnrevealedIff(rows: seq<PenaltyRow>)
    ensures UnrevealedItems(rows) == [] <==> AllRevealed(rows)
  {
    if rows != [] {
      NothingUnrevealedIff(rows[1..]);
      assert rows == [rows[0]] + rows[1..];
      assert forall i :: 1 <= i < |rows| ==> rows[1..][i - 1] == rows[i];
    }
  }

  /** A member's roulette: the stored rows, absent until the result has been computed. */
  class MemberRoulette {
    const seed: seq<bv16>
    const gaveUp: bool
    var hasResult: bool
    var rows: seq<PenaltyRow>

    constructor (seed: seq<bv16>, gaveUp: bool, hasResult: bool, rows: seq<PenaltyRow>)
      ensures this.seed == seed && this.gaveUp == gaveUp && this.hasResult == hasResult && this.rows == rows
    {
      this.seed, this.gaveUp, this.hasResult, this.rows := seed, gaveUp, hasResult, rows;
    }

    /** One spin.  Members who have not given up may spin in the result phase only; the
        last spin reveals every row, and no other outcome changes the rows. */
    method SpinRoulette(inResultPhase: bool, spinIndex: int) returns (r: Result<Spin, SpinError>)
      modifies this`rows
      ensures r.Ok? <==> && (gaveUp || inResultPhase) && hasResult
                         && (old(rows) == [] || !AllRevealed(old(rows)))
                         && 1 <= spinIndex <= TotalSpins(old(rows))
      ensures r.Ok? ==> r.value == Spin(spinIndex, SpinTarget(old(rows), seed, spinIndex),
                                        TotalSpins(old(rows)) - spinIndex, spinIndex == TotalSpins(old(rows)))
      ensures rows == if r.Ok? && r.value.isFinished then RevealAll(old(rows)) else old(rows)
      ensures r == Err(Locked) <==> !gaveUp && !inResultPhase
      ensures (gaveUp || inResultPhase) && !hasResult ==> r == Err(NoResult)
      ensures (gaveUp || inResultPhase) && hasResult && old(rows) != [] && AllRevealed(old(rows)) ==>
                r == Err(AlreadyFinished)
      ensures ((gaveUp || inResultPhase) && hasResult && (old(rows) == [] || !AllRevealed(old(rows)))
               && !(1 <= spinIndex <= TotalSpins(old(rows)))) ==> r == Err(NoSuchSpin)
    {
      if !gaveUp && !inResultPhase {
        return Err(Locked);
      }
      if !hasResult {
        return Err(NoResult);
      }
      if |rows| > 0 && forall i :: 0 <= i < |rows| ==> rows[i].isRevealed {
        return Err(AlreadyFinished);
      }
      var totalSpins := TotalSpins(rows);
      if spinIndex < 1 || spinIndex > totalSpins {
        return Err(NoSuchSpin);
      }
      FlatLength(rows);
      ShuffledPermutes(Flat(rows), seed);
      var shuffled := SeededShuffle(Flat(rows), seed);
      assert shuffled[spinIndex - 1] == shuffled[..][spinIndex - 1];
      var remainingSpins := totalSpins - spinIndex;
      var isFinished := remainingSpins == 0;
      r := Ok(Spin(spinIndex, shuffled[spinIndex - 1], remainingSpins, isFinished));
      if isFinished {
        rows := RevealAll(rows);
      }
    }

    /** Leaving the roulette reveals whatever is left and reports it. */
    method ExitRoulette(inResultPhase: bool) returns (r: Result<seq<(string, nat)>, SpinError>)
      modifies this`rows
      ensures r.Ok? <==> (gaveUp || inResultPhase) && !AllRevealed(old(rows))
      ensures r.Ok? ==> r.value == UnrevealedItems(old(rows)) && r.value != []
      ensures rows == if r.Ok? then RevealAll(old(rows)) else old(rows)
      ensures r.Err? ==> r.error == if !gaveUp && !inResultPhase then Locked
                                    else if hasResult then AlreadyFinished else NoResult
    {
      if !gaveUp && !inResultPhase {
        return Err(Locked);
      }
      var unrevealed := UnrevealedItems(rows);
      NothingUnrevealedIff(rows);
      if |unrevealed| == 0 {
        return Err(if hasResult then AlreadyFinished else NoResult);
      }
      rows := RevealAll(rows);
      return Ok(unrevealed);
    }
  }

  // ----- what was drawn is what is revealed -----

  /** The rows store exactly the given tally, one row per content, in any order. */
  ghost predicate StoresTally(rows: seq<PenaltyRow>, tally: map<string, nat>) {
    && (forall i, j :: 0 <= i < j < |rows| ==> rows[i].content != rows[j].content)
    && (forall i :: 0 <= i < |rows| ==> rows[i].content in tally && tally[rows[i].content] == rows[i].count)
    && (forall c :: c in tally ==> exists i :: 0 <= i < |rows| && rows[i].content == c)
  }

  function CountOf(rows: seq<PenaltyRow>, c: string): nat {
    if rows == [] then 0
    else if rows[0].content == c then rows[0].count
    else CountOf(rows[1..], c)
  }

  lemma RepeatCounts(content: string, count: nat, c: string)
    ensures multiset(Repeat(content, count))[c] == if c == content then count else 0
  {
    if count > 0 {
      RepeatCounts(content, count - 1, c);
      assert Repeat(content, count) == Repeat(content, count - 1) + [content];
    }
  }

  lemma {:induction false} FlatCounts(rows: seq<PenaltyRow>, c: string)
    requires forall i, j :: 0 <= i < j < |rows| ==> rows[i].content != rows[j].content
    ensures multiset(Flat(rows))[c] == CountOf(rows, c)
    ensures (forall i :: 0 <= i < |rows| ==> rows[i].content != c) ==> CountOf(rows, c) == 0
  {
    if rows != [] {
      RepeatCounts(rows[0].content, rows[0].count, c);
      FlatCounts(rows[1..], c);
      if rows[0].content == c {
        assert forall i :: 0 <= i < |rows[1..]| ==> rows[1..][i].content != c;
      }
    }
  }

  lemma {:induction false} CountOfRow(rows: seq<PenaltyRow>, i: nat)
    requires forall i, j :: 0 <= i < j < |rows| ==> rows[i].content != rows[j].content
    requires i < |rows|
    ensures CountOf(rows, rows[i].content) == rows[i].count
  {
    if i > 0 {
      assert rows[0].content != rows[i].content;
      assert rows[1..][i - 1] == rows[i];
      CountOfRow(rows[1..], i - 1);
    }
  }

  /** Expanding the stored rows gives back exactly the drawn contents. */
  lemma FlatUndoesTally(rows: seq<PenaltyRow>, drawn: seq<string>)
    requires StoresTally(rows, Tally(drawn))
    ensures multiset(Flat(rows)) == multiset(drawn)
  {
    forall c ensures multiset(Flat(rows))[c] == multiset(drawn)[c] {
      TallyCounts(drawn, c);
      FlatCounts(rows, c);
      if c in drawn {
        var i :| 0 <= i < |rows| && rows[i].content == c;
        CountOfRow(rows, i);
      } else {
        forall i | 0 <= i < |rows| ensures rows[i].content != c {
          TallyCounts(drawn, rows[i].content);
        }
      }
    }
  }

  /** The contents shown by spins 1, 2, ... up to the last. */
  function AllSpins(rows: seq<PenaltyRow>, seed: seq<bv16>): seq<string> {
    seq(TotalSpins(rows), k requires 0 <= k < TotalSpins(rows) => SpinTarget(rows, seed, k + 1))
  }

  lemma AllSpinsAreFlat(rows: seq<PenaltyRow>, seed: seq<bv16>)
    ensures multiset(AllSpins(rows, seed)) == multiset(Flat(rows))
  {
    FlatLength(rows);
    ShuffledPermutes(Flat(rows), seed);
    var shuffled := Shuffled(Flat(rows), seed);
    forall k | 0 <= k < |shuffled| ensures AllSpins(rows, seed)[k] == shuffled[k] {
    }
    assert AllSpins(rows, seed) == shuffled;
  }

  /** Spinning once for each number shows every content exactly as often as it was
      drawn, and there are exactly as many spins as penalties were due. */
  lemma SpinsRevealWhatWasDrawn(pool: seq<string>, count: nat, draw: nat -> nat, rows: seq<PenaltyRow>, seed: seq<bv16>)
    requires StoresTally(rows, Tally(Drawn(pool, count, draw)))
    ensures multiset(AllSpins(rows, seed)) == multiset(Drawn(pool, count, draw))
    ensures TotalSpins(rows) == if pool == [] then 0 else count
  {
    var drawn := Drawn(pool, count, draw);
    AllSpinsAreFlat(rows, seed);
    FlatUndoesTally(rows, drawn);
    SameMultisetSameLength(AllSpins(rows, seed), drawn);
  }

  lemma SameMultisetSameLength<T>(s: seq<T>, t: seq<T>)
    requires multiset(s) == multiset(t)
    ensures |s| == |t|
  {
    assert |multiset(s)| == |s| && |multiset(t)| == |t|;
  }

  /** Each content is shown exactly as often as its row counts. */
  lemma SpinsPerContent(rows: seq<PenaltyRow>, seed: seq<bv16>, i: nat)
    requires forall i, j :: 0 <= i < j < |rows| ==> rows[i].content != rows[j].content
    requires i < |rows|
    ensures multiset(AllSpins(rows, seed))[rows[i].content] == rows[i].count
  {
    AllSpinsAreFlat(rows, seed);
    FlatCounts(rows, rows[i].content);
    CountOfRow(rows, i);
  }
}
