/** Editing the timer fields of a contract.

    Each number input clamps to bounds computed from the other two fields, so that the
    session never exceeds ten hours.  The module proves that every sequence of commits
    keeps the rule service's length check satisfied. */
module TimerSettings {
  import opened Wrappers
  import opened Timeline
  import PenaltyTiers

  const MAX_TOTAL_MIN := 600

  datatype Fields = Fields(focusMin: int, breakMin: int, rounds: int)

  const DEFAULTS := Fields(25, 5, 4)

  function TotalMin(f: Fields): int { f.focusMin * f.rounds + f.breakMin * Max(0, f.rounds - 1) }

  // ----- dynamic bounds -----

  function MaxFocusMin(f: Fields): int
    requires f.rounds >= 1
  {
    Min(Max(1, (MAX_TOTAL_MIN - f.breakMin * Max(0, f.rounds - 1)) / f.rounds), 120)
  }

  function MaxBreakMin(f: Fields): int {
    Min(if f.rounds > 1 then Max(1, (MAX_TOTAL_MIN - f.focusMin * f.rounds) / (f.rounds - 1)) else 59, 120)
  }

  function MaxRounds(f: Fields): int
    requires f.focusMin + f.breakMin >= 1
  {
    Min(Max(1, MAX_TOTAL_MIN / (f.focusMin + f.breakMin)), 20)
  }

  /** While typing, a number is clamped and committed at once. */
  function TypedValue(max: int, n: int): int { Max(1, Min(max, n)) }

  /** On leaving the field, the draft or, if it is empty, the old value is clamped. */
  function BlurValue(value: int, max: int, draft: Option<int>): int {
    Min(max, Max(1, if draft.Some? then draft.value else value))
  }

  datatype Field = Focus | Break | Rounds

  datatype Commit = Typed(field: Field, n: int) | Blurred(field: Field, draft: Option<int>)

  function FieldMax(f: Fields, field: Field): int
    requires WithinBounds(f)
  {
    match field
    case Focus => MaxFocusMin(f)
    case Break => MaxBreakMin(f)
    case Rounds => MaxRounds(f)
  }

  function FieldValue(f: Fields, field: Field): int {
    match field
    case Focus => f.focusMin
    case Break => f.breakMin
    case Rounds => f.rounds
  }

  function WithField(f: Fields, field: Field, v: int): Fields {
    match field
    case Focus => f.(focusMin := v)
    case Break => f.(breakMin := v)
    case Rounds => f.(rounds := v)
  }

  function Committed(f: Fields, c: Commit): Fields
    requires WithinBounds(f)
  {
    match c
    case Typed(field, n) => WithField(f, field, TypedValue(FieldMax(f, field), n))
    case Blurred(field, draft) => WithField(f, field, BlurValue(FieldValue(f, field), FieldMax(f, field), draft))
  }

  /** The fields the settings card can hold: each in range and ten hours at most. */
  predicate WithinBounds(f: Fields) {
    && 1 <= f.focusMin <= 120 && 1 <= f.breakMin <= 120 && 1 <= f.rounds <= 20
    && TotalMin(f) <= MAX_TOTAL_MIN
  }

  /** The timer part of the contract document. */
  class ContractFields {
    var focusMin: int
    var breakMin: int
    var rounds: int

    ghost function Value(): Fields
      reads this
    {
      Fields(focusMin, breakMin, rounds)
    }

    constructor ()
      ensures Value() == DEFAULTS && focusMin == 25 && breakMin == 5 && rounds == 4
    {
      focusMin, breakMin, rounds := 25, 5, 4;
    }

    method UpdateField(field: Field, value: int)
      modifies this
      ensures Value() == WithField(old(Value()), field, value)
    {
      match field {
        case Focus => focusMin := value;
        case Break => breakMin := value;
        case Rounds => rounds := value;
      }
    }

    /** One commit of the number input showing a field. */
    method Commit(c: Commit)
      requires WithinBounds(Value())
      modifies this
      ensures Value() == Committed(old(Value()), c)
      ensures WithinBounds(Value())
    {
      CommitKeepsBounds(Value(), c);
      var totalBreaks := Max(0, rounds - 1);
      var maxFocusMin := Max(1, (MAX_TOTAL_MIN - breakMin * totalBreaks) / rounds);
      var maxBreakMin := if rounds > 1 then Max(1, (MAX_TOTAL_MIN - focusMin * rounds) / (rounds - 1)) else 59;
      var maxRounds := Max(1, MAX_TOTAL_MIN / (focusMin + breakMin));
      var max := match c.field
        case Focus => if maxFocusMin < 120 then maxFocusMin else 120
        case Break => if maxBreakMin < 120 then maxBreakMin else 120
        case Rounds => if maxRounds < 20 then maxRounds else 20;
      match c {
        case Typed(field, n) =>
          UpdateField(field, Max(1, Min(max, n)));
        case Blurred(field, draft) =>
          var n := if draft.Some? then draft.value
            else match field case Focus => focusMin case Break => breakMin case Rounds => rounds;
          n := Max(1, n);
          n := Min(max, n);
          UpdateField(field, n);
      }
    }
  }

  // ----- commits keep the bounds -----

  lemma FloorBound(a: int, d: int, x: int)
    requires d >= 1 && x <= a / d
    ensures x * d <= a
  {
    assert a == d * (a / d) + a % d;
    MulMonotone(x, a / d, d);
  }

  lemma FloorGreatest(a: int, d: int, x: int)
    requires d >= 1 && x * d <= a
    ensures x <= a / d
  {
    var q := a / d;
    assert a == d * q + a % d;
    assert x * d < (q + 1) * d;
    if q + 1 <= x {
      MulMonotone(q + 1, x, d);
    }
  }

  lemma FocusBound(f: Fields, v: int)
    requires WithinBounds(f) && 1 <= v <= MaxFocusMin(f)
    ensures WithinBounds(f.(focusMin := v))
  {
    var room := MAX_TOTAL_MIN - f.breakMin * Max(0, f.rounds - 1);
    MulMonotone(1, f.focusMin, f.rounds);
    FloorGreatest(room, f.rounds, 1);
    FloorBound(room, f.rounds, v);
  }

  lemma BreakBound(f: Fields, v: int)
    requires WithinBounds(f) && 1 <= v <= MaxBreakMin(f)
    ensures WithinBounds(f.(breakMin := v))
  {
    if f.rounds > 1 {
      var room := MAX_TOTAL_MIN - f.focusMin * f.rounds;
      MulMonotone(1, f.breakMin, f.rounds - 1);
      FloorGreatest(room, f.rounds - 1, 1);
      FloorBound(room, f.rounds - 1, v);
    } else {
      assert f.breakMin * 0 == v * 0 == 0;
    }
  }

  lemma RoundsBound(f: Fields, v: int)
    requires WithinBounds(f) && 1 <= v <= MaxRounds(f)
    ensures WithinBounds(f.(rounds := v))
  {
    var cycle := f.focusMin + f.breakMin;
    FloorGreatest(MAX_TOTAL_MIN, cycle, 1);
    FloorBound(MAX_TOTAL_MIN, cycle, v);
    assert v * cycle == f.focusMin * v + f.breakMin * v;
    assert f.breakMin * v == f.breakMin * (v - 1) + f.breakMin;
  }

  /** The bounds are the largest ones that keep the session within ten hours, except that
      the one for rounds counts a break after the last round and that the break of a single
      round, which never takes place, is limited to 59 minutes. */
  lemma BoundsAreLargest(f: Fields, v: int)
    requires WithinBounds(f) && 1 <= v
    ensures v <= MaxFocusMin(f) <==> v <= 120 && WithinBounds(f.(focusMin := v))
    ensures f.rounds > 1 ==> (v <= MaxBreakMin(f) <==> v <= 120 && WithinBounds(f.(breakMin := v)))
    ensures f.rounds == 1 ==> (v <= MaxBreakMin(f) <==> v <= 59)
    ensures v <= MaxRounds(f) <==> v == 1 || (v <= 20 && (f.focusMin + f.breakMin) * v <= MAX_TOTAL_MIN)
  {
    LargestFocus(f, v);
    LargestBreak(f, v);
    LargestRounds(f, v);
  }

  lemma LargestFocus(f: Fields, v: int)
    requires WithinBounds(f) && 1 <= v
    ensures v <= MaxFocusMin(f) <==> v <= 120 && WithinBounds(f.(focusMin := v))
  {
    var room := MAX_TOTAL_MIN - f.breakMin * Max(0, f.rounds - 1);
    if v <= MaxFocusMin(f) {
      FocusBound(f, v);
    } else if WithinBounds(f.(focusMin := v)) {
      FloorGreatest(room, f.rounds, v);
    }
  }

  lemma LargestBreak(f: Fields, v: int)
    requires WithinBounds(f) && 1 <= v
    ensures f.rounds > 1 ==> (v <= MaxBreakMin(f) <==> v <= 120 && WithinBounds(f.(breakMin := v)))
  {
    if f.rounds > 1 {
      if v <= MaxBreakMin(f) {
        BreakBound(f, v);
      } else if WithinBounds(f.(breakMin := v)) {
        FloorGreatest(MAX_TOTAL_MIN - f.focusMin * f.rounds, f.rounds - 1, v);
      }
    }
  }

  lemma LargestRounds(f: Fields, v: int)
    requires WithinBounds(f) && 1 <= v
    ensures v <= MaxRounds(f) <==> v == 1 || (v <= 20 && (f.focusMin + f.breakMin) * v <= MAX_TOTAL_MIN)
  {
    CyclesFitIff(f, v);
    CyclesFitIff(f, 1);
  }

  /** What a commit leaves in its field: the number typed or, on leaving the field, the
      draft or else the old value; brought up to one and down to the field's bound. */
  lemma CommitSets(f: Fields, c: Commit)
    requires WithinBounds(f)
    ensures var r := Committed(f, c);
            var v := if c.Typed? then c.n else if c.draft.Some? then c.draft.value
                     else if c.field.Focus? then f.focusMin else if c.field.Break? then f.breakMin else f.rounds;
            var max := if c.field.Focus? then MaxFocusMin(f) else if c.field.Break? then MaxBreakMin(f)
                       else MaxRounds(f);
            && r.focusMin == (if c.field.Focus? then (if v < 1 then 1 else if v > max then max else v) else f.focusMin)
            && r.breakMin == (if c.field.Break? then (if v < 1 then 1 else if v > max then max else v) else f.breakMin)
            && r.rounds == (if c.field.Rounds? then (if v < 1 then 1 else if v > max then max else v) else f.rounds)
  {
    BoundsAreLargest(f, 1);
    MaxBreakPositive(f);
  }

  lemma MaxBreakPositive(f: Fields)
    requires WithinBounds(f)
    ensures MaxFocusMin(f) >= 1 && MaxBreakMin(f) >= 1 && MaxRounds(f) >= 1
  {
  }

  lemma CommitKeepsBounds(f: Fields, c: Commit)
    requires WithinBounds(f)
    ensures WithinBounds(Committed(f, c))
  {
    var max := FieldMax(f, c.field);
    var v := match c
      case Typed(_, n) => TypedValue(max, n)
      case Blurred(field, draft) => BlurValue(FieldValue(f, field), max, draft);
    match c.field {
      case Focus => FocusBound(f, v);
      case Break => BreakBound(f, v);
      case Rounds => RoundsBound(f, v);
    }
  }

  // ----- whole editing sessions and the service's check -----

  function CommittedAll(f: Fields, commits: seq<Commit>): Fields
    requires WithinBounds(f)
    decreases |commits|
  {
    if commits == [] then f
    else
      CommitKeepsBounds(f, commits[0]);
      CommittedAll(Committed(f, commits[0]), commits[1..])
  }

  datatype RuleError = InvalidTiers | TooLong(totalMin: int)

  /** The checks of rule creation: tier contiguity first, then the session length. */
  method CheckRoomRule(f: Fields, tiers: seq<PenaltyTiers.PenaltyTier>) returns (r: Result<(), RuleError>)
    ensures r.Ok? <==> PenaltyTiers.Contiguous(tiers) && TotalMin(f) <= MAX_TOTAL_MIN
    ensures !PenaltyTiers.Contiguous(tiers) ==> r == Err(InvalidTiers)
    ensures r.Err? && r.error.TooLong? ==> r.error.totalMin == TotalMin(f) > MAX_TOTAL_MIN
  {
    var valid := PenaltyTiers.ValidateTiers(tiers);
    if valid.Err? {
      return Err(InvalidTiers);
    }
    var totalMin := f.focusMin * f.rounds + f.breakMin * Max(0, f.rounds - 1);
    if totalMin > MAX_TOTAL_MIN {
      return Err(TooLong(totalMin));
    }
    return Ok(());
  }

  /** Every sequence of commits from the defaults yields fields that pass the request
      validator and the service's ten-hour limit. */
  lemma {:induction false} CommitsStayWithinBounds(f: Fields, commits: seq<Commit>)
    requires WithinBounds(f)
    ensures WithinBounds(CommittedAll(f, commits))
    decreases |commits|
  {
    if commits != [] {
      CommitKeepsBounds(f, commits[0]);
      CommitsStayWithinBounds(Committed(f, commits[0]), commits[1..]);
    }
  }

  lemma AnySessionIsAccepted(commits: seq<Commit>)
    ensures WithinBounds(DEFAULTS)
    ensures var f := CommittedAll(DEFAULTS, commits);
            && f.focusMin > 0 && f.breakMin > 0 && f.rounds > 0
            && WithinRequestBounds(Plan(f.focusMin, f.breakMin, f.rounds))
            && SessionMs(Plan(f.focusMin, f.breakMin, f.rounds)) == TotalMin(f) * 60 * 1000 <= 10 * 60 * 60 * 1000
  {
    CommitsStayWithinBounds(DEFAULTS, commits);
  }

  // ----- leaving a field without typing -----

  /** Leaving the focus or break field untouched changes nothing (the break field is
      only reachable with more than one round). */
  lemma UntouchedBlurKeepsMinutes(f: Fields)
    requires WithinBounds(f)
    ensures Committed(f, Blurred(Focus, None)) == f
    ensures f.rounds > 1 ==> Committed(f, Blurred(Break, None)) == f
  {
    FloorGreatest(MAX_TOTAL_MIN - f.breakMin * Max(0, f.rounds - 1), f.rounds, f.focusMin);
    if f.rounds > 1 {
      FloorGreatest(MAX_TOTAL_MIN - f.focusMin * f.rounds, f.rounds - 1, f.breakMin);
    }
  }

  /** A floor bound, without the division. */
  lemma FloorIff(a: int, d: int, x: int)
    requires d >= 1
    ensures x <= a / d <==> d * x <= a
  {
    if x <= a / d {
      FloorBound(a, d, x);
    }
    if x * d <= a {
      FloorGreatest(a, d, x);
    }
  }

  lemma BlurKeepsIff(value: int, max: int)
    requires value >= 1
    ensures BlurValue(value, max, None) == value <==> value <= max
    ensures BlurValue(value, max, None) <= value
  {
  }

  /** How many whole cycles of focus and break fit into the longest session. */
  function CyclesThatFit(f: Fields): int
    requires f.focusMin + f.breakMin >= 1
  {
    MAX_TOTAL_MIN / (f.focusMin + f.breakMin)
  }

  lemma CyclesFitIff(f: Fields, r: int)
    requires f.focusMin + f.breakMin >= 1
    ensures r <= CyclesThatFit(f) <==> (f.focusMin + f.breakMin) * r <= MAX_TOTAL_MIN
  {
    FloorIff(MAX_TOTAL_MIN, f.focusMin + f.breakMin, r);
  }

  /** Leaving the rounds field untouched keeps the rounds exactly when a break after the
      last round would fit too; otherwise the bound, which counts that break, lowers them. */
  lemma UntouchedBlurKeepsRoundsIff(f: Fields)
    requires WithinBounds(f)
    ensures Committed(f, Blurred(Rounds, None)) == f <==> (f.focusMin + f.breakMin) * f.rounds <= MAX_TOTAL_MIN
    ensures Committed(f, Blurred(Rounds, None)).rounds <= f.rounds
  {
    RoundsBlurIff(f);
    CyclesFitIff(f, f.rounds);
  }

  lemma RoundsBlurIff(f: Fields)
    requires WithinBounds(f)
    ensures Committed(f, Blurred(Rounds, None)) == f <==> f.rounds <= CyclesThatFit(f)
    ensures Committed(f, Blurred(Rounds, None)).rounds <= f.rounds
  {
    CyclesFitIff(f, 1);
    RoundsBlurValue(f, CyclesThatFit(f));
  }

  lemma RoundsBlurValue(f: Fields, fit: int)
    requires WithinBounds(f) && fit == CyclesThatFit(f) >= 1
    ensures Committed(f, Blurred(Rounds, None)) == f.(rounds := BlurValue(f.rounds, Min(fit, 20), None))
    ensures Committed(f, Blurred(Rounds, None)) == f <==> f.rounds <= fit
    ensures Committed(f, Blurred(Rounds, None)).rounds <= f.rounds
  {
    BlurKeepsIff(f.rounds, Min(fit, 20));
  }

  lemma {:induction false} OneMoreCommit(f: Fields, commits: seq<Commit>, c: Commit)
    requires WithinBounds(f)
    ensures WithinBounds(CommittedAll(f, commits))
    ensures CommittedAll(f, commits + [c]) == Committed(CommittedAll(f, commits), c)
    decreases |commits|
  {
    CommitsStayWithinBounds(f, commits);
    if commits == [] {
      assert [] + [c] == [c];
      CommitKeepsBounds(f, c);
      assert CommittedAll(f, [c]) == CommittedAll(Committed(f, c), []);
    } else {
      CommitKeepsBounds(f, commits[0]);
      assert (commits + [c])[1..] == commits[1..] + [c];
      OneMoreCommit(Committed(f, commits[0]), commits[1..], c);
    }
  }

  /** From the defaults, typing 3 rounds, 120 minutes and 120-minute breaks is allowed;
      leaving the rounds field untouched afterwards lowers the rounds to two. */
  lemma UntouchedBlurCanDropARound()
    ensures exists typed ::
              && CommittedAll(DEFAULTS, typed) == Fields(120, 120, 3)
              && CommittedAll(DEFAULTS, typed + [Blurred(Rounds, None)]) == Fields(120, 120, 2)
  {
    var rounds, focus, breaks := Typed(Rounds, 3), Typed(Focus, 120), Typed(Break, 120);
    OneMoreCommit(DEFAULTS, [], rounds);
    OneMoreCommit(DEFAULTS, [] + [rounds], focus);
    OneMoreCommit(DEFAULTS, [] + [rounds] + [focus], breaks);
    OneMoreCommit(DEFAULTS, [] + [rounds] + [focus] + [breaks], Blurred(Rounds, None));
    assert Committed(DEFAULTS, rounds) == Fields(25, 5, 3);
    assert Committed(Fields(25, 5, 3), focus) == Fields(120, 5, 3);
    assert Committed(Fields(120, 5, 3), breaks) == Fields(120, 120, 3);
    assert Committed(Fields(120, 120, 3), Blurred(Rounds, None)) == Fields(120, 120, 2);
  }
}
