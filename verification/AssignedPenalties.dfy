/** From a run of the session to the roulette: which penalties a member ends up with.

    In every reachable state a member without a result has no penalties, and a member
    with one has exactly one drawing of the tier that the result calls for, of which more
    and more is revealed.  The roulette shows exactly that drawing.  The module also says
    which drawings are stored revealed from the start. */
module AssignedPenalties {
  import opened Clock
  import opened Wrappers
  import opened EscapeSession
  import ER = EscapeRuns
  import opened Phases
  import PenaltyTiers
  import Roulette

  /** How many penalties are due: the forfeit tier's count after giving up, otherwise the
      count of the tier that the total falls into. */
  function DueCount(t: Template, m: Member): nat
    requires m.result.Some?
  {
    if m.gaveUpAt.Some? then
      match PenaltyTiers.ResolveForfeitTier(t.tiers)
      case Ok(tier) => tier.penaltyCount
      case Err(_) => 0
    else TierFor(t, m.result.value.totalEscapeMs).penaltyCount
  }

  /** The penalties are one drawing of the given size, whatever of it is revealed. */
  predicate IsDrawing(penalties: map<string, Penalty>, pool: seq<string>, count: nat, draw: nat -> nat) {
    var tally := Roulette.Tally(Roulette.Drawn(pool, count, draw));
    && penalties.Keys == tally.Keys
    && forall c :: c in penalties ==> penalties[c].count == tally[c]
  }

  predicate AllFlags(penalties: map<string, Penalty>, revealed: bool) {
    forall c :: c in penalties ==> penalties[c].isRevealed == revealed
  }

  ghost predicate PenaltiesFit(t: Template, m: Member) {
    if m.result.None? then m.penalties == map[]
    else exists draw: nat -> nat :: IsDrawing(m.penalties, t.pool, DueCount(t, m), draw)
  }

  ghost predicate AllFit(room: Room) {
    forall id :: id in room.members ==> PenaltiesFit(room.template, room.members[id])
  }

  lemma NothingDrawn(pool: seq<string>, count: nat, draw: nat -> nat)
    requires count == 0 || pool == []
    ensures Roulette.Tally(Roulette.Drawn(pool, count, draw)) == map[]
  {
    assert Roulette.Drawn(pool, count, draw) == [];
  }

  /** An assignment to a member without penalties stores one drawing, with one flag. */
  lemma AssignedIsDrawing(pool: seq<string>, count: nat, draw: nat -> nat, revealed: bool)
    ensures IsDrawing(Assigned(map[], pool, count, draw, revealed), pool, count, draw)
    ensures AllFlags(Assigned(map[], pool, count, draw, revealed), revealed)
  {
    if count == 0 || pool == [] {
      NothingDrawn(pool, count, draw);
    }
  }

  // ----- each computation -----

  lemma DrawingFits(t: Template, m: Member, draw: nat -> nat, revealed: bool)
    requires m.result.Some? && m.penalties == Assigned(map[], t.pool, DueCount(t, m), draw, revealed)
    ensures PenaltiesFit(t, m) && AllFlags(m.penalties, revealed)
  {
    AssignedIsDrawing(t.pool, DueCount(t, m), draw, revealed);
  }

  /** The session-end computation draws for every member without a result; what it draws
      for members who gave up is stored revealed, for the others unrevealed. */
  lemma SettledFits(room: Room, id: string, m: Member, draws: Draws)
    requires m.result.None? && m.penalties == map[] && Settled(room, id, m, draws).Ok?
    ensures PenaltiesFit(room.template, Settled(room, id, m, draws).value)
    ensures AllFlags(Settled(room, id, m, draws).value.penalties, m.gaveUpAt.Some?)
  {
    SettledPenalties(room, id, m, draws);
    DrawingFits(room.template, Settled(room, id, m, draws).value, (i: nat) => draws(id, i), m.gaveUpAt.Some?);
  }

  lemma SettledPenalties(room: Room, id: string, m: Member, draws: Draws)
    requires m.result.None? && m.penalties == map[] && Settled(room, id, m, draws).Ok?
    ensures var m' := Settled(room, id, m, draws).value;
            && m'.result.Some? && m'.gaveUpAt == m.gaveUpAt
            && m'.penalties == Assigned(map[], room.template.pool, DueCount(room.template, m'),
                                        (i: nat) => draws(id, i), m.gaveUpAt.Some?)
  {
    if m.gaveUpAt.Some? {
      PenaltyTiers.ForfeitNeedsOpenTier(room.template.tiers);
    }
  }

  /** What the give-up computation draws is stored unrevealed. */
  lemma SettledGiveUpFits(room: Room, id: string, m: Member, draws: Draws)
    requires m.gaveUpAt.Some? && m.result.None? && m.penalties == map[]
    requires SettledGiveUp(room, id, m, draws).Ok?
    ensures PenaltiesFit(room.template, SettledGiveUp(room, id, m, draws).value)
    ensures AllFlags(SettledGiveUp(room, id, m, draws).value.penalties, false)
  {
    var tier := PenaltyTiers.ResolveForfeitTier(room.template.tiers).value;
    var draw := (i: nat) => draws(id, i);
    AssignedIsDrawing(room.template.pool, tier.penaltyCount, draw, false);
    var m' := SettledGiveUp(room, id, m, draws).value;
    assert IsDrawing(m'.penalties, room.template.pool, DueCount(room.template, m'), draw);
  }

  lemma SettledMemberFits(room: Room, id: string, draws: Draws, now: int)
    requires ER.RoomInvariant(room, now) && room.phase == Result && SettlesAll(room, draws) && id in room.members
    requires ER.MemberInvariant(room, room.members[id], now) && PenaltiesFit(room.template, room.members[id])
    ensures PenaltiesFit(room.template, Settled(room, id, room.members[id], draws).value)
  {
    var m := room.members[id];
    if m.result.None? {
      SettledFits(room, id, m, draws);
    } else {
      ER.SettledKeeps(room, id, m, draws, now);
    }
  }

  lemma CalculatedFits(room: Room, draws: Draws, now: int)
    requires ER.RoomInvariant(room, now) && room.phase == Result && AllFit(room)
    requires forall id :: id in room.members ==> ER.MemberInvariant(room, room.members[id], now)
    ensures AllFit(Calculated(room, draws))
  {
    if SettlesAll(room, draws) {
      forall id | id in room.members
        ensures PenaltiesFit(room.template, Settled(room, id, room.members[id], draws).value)
      {
        SettledMemberFits(room, id, draws, now);
      }
    }
  }

  lemma EndedFits(room: Room, now: int, draws: Draws, fails: bool)
    requires ER.Invariant(room, now) && AllFit(room)
    ensures AllFit(Ended(room, now, draws, fails))
  {
    if room.phase == Timer {
      var ended := room.(phase := Result, endedAt := Some(now));
      forall id | id in room.members ensures ER.MemberInvariant(ended, room.members[id], now) {
        ER.EndingKeeps(room, room.members[id], now);
      }
      CalculatedFits(ended, draws, now);
    }
  }

  lemma CalculatedGiveUpFits(room: Room, id: string, draws: Draws)
    requires AllFit(room) && id in room.members
    requires room.members[id].gaveUpAt.Some? && room.members[id].result.None?
    ensures AllFit(CalculatedGiveUp(room, id, draws))
  {
    if SettledGiveUp(room, id, room.members[id], draws).Ok? {
      SettledGiveUpFits(room, id, room.members[id], draws);
    }
  }

  lemma RecordedFits(room: Room, id: string, now: int)
    requires ER.Invariant(room, now) && AllFit(room) && MayGiveUp(room, id)
    ensures AllFit(GiveUpRecorded(room, id, now))
  {
    var recorded := GiveUpRecorded(room, id, now);
    ER.RecordedKeeps(room, id, now);
    forall other | other in recorded.members ensures PenaltiesFit(recorded.template, recorded.members[other]) {
      assert PenaltiesFit(room.template, room.members[other]);
    }
  }

  lemma GaveUpFits(room: Room, id: string, now: int, draws: Draws, fails: bool, endFails: bool)
    requires ER.Invariant(room, now) && AllFit(room)
    ensures AllFit(GaveUp(room, id, now, draws, fails, endFails))
  {
    if MayGiveUp(room, id) {
      ER.RecordedKeeps(room, id, now);
      RecordedFits(room, id, now);
      CalculatedGiveUpFits(GiveUpRecorded(room, id, now), id, draws);
      ER.GaveUpSoFarKeeps(room, id, now, draws, fails);
      EndedFits(ER.GaveUpSoFar(room, id, now, draws, fails), now, draws, endFails);
    }
  }

  // ----- steps and runs -----

  /** Steps that leave results and penalties of every member as they are, up to reveals. */
  lemma UntouchedFits(room: Room, after: Room)
    requires AllFit(room) && after.template == room.template && after.members.Keys <= room.members.Keys
    requires forall id :: id in after.members ==>
               && after.members[id].result == room.members[id].result
               && ER.PenaltiesKept(room.members[id].penalties, after.members[id].penalties)
               && after.members[id].gaveUpAt == room.members[id].gaveUpAt
    ensures AllFit(after)
  {
    forall id | id in after.members ensures PenaltiesFit(after.template, after.members[id]) {
      SameFits(room.template, room.members[id], after.members[id]);
    }
  }

  lemma SameFits(t: Template, m: Member, m': Member)
    requires PenaltiesFit(t, m) && m'.result == m.result && m'.gaveUpAt == m.gaveUpAt
    requires ER.PenaltiesKept(m.penalties, m'.penalties)
    ensures PenaltiesFit(t, m')
  {
    if m.result.Some? {
      assert DueCount(t, m') == DueCount(t, m);
      var draw: nat -> nat :| IsDrawing(m.penalties, t.pool, DueCount(t, m), draw);
      assert IsDrawing(m'.penalties, t.pool, DueCount(t, m'), draw);
    }
  }

  lemma QuietStepFits(room: Room, s: ER.Step)
    requires AllFit(room) && ER.IsQuiet(s.action)
    ensures AllFit(ER.Next(room, s))
  {
    var after := ER.Next(room, s);
    assert after.template == room.template && after.members.Keys <= room.members.Keys;
    forall id | id in after.members
      ensures after.members[id].result == room.members[id].result
      ensures after.members[id].gaveUpAt == room.members[id].gaveUpAt
      ensures ER.PenaltiesKept(room.members[id].penalties, after.members[id].penalties)
    {
    }
    UntouchedFits(room, after);
  }

  lemma RecomputeFits(room: Room, now: int, s: ER.Step)
    requires ER.Invariant(room, now) && AllFit(room) && (s.action.Recompute? || s.action.RecomputeGiveUp?)
    ensures AllFit(ER.Next(room, s))
  {
    match s.action {
      case Recompute(draws) => if room.phase == Result { CalculatedFits(room, draws, now); }
      case RecomputeGiveUp(id, draws) =>
        if id in room.members && room.members[id].gaveUpAt.Some? && room.members[id].result.None? {
          CalculatedGiveUpFits(room, id, draws);
        }
    }
  }

  lemma StepFits(room: Room, now: int, s: ER.Step)
    requires ER.Invariant(room, now) && now <= s.now && AllFit(room)
    ensures AllFit(ER.Next(room, s))
  {
    ER.LaterInvariant(room, now, s.now);
    match s.action {
      case GiveUp(id, draws, fails, endFails) => GaveUpFits(room, id, s.now, draws, fails, endFails);
      case End(draws, fails) => EndedFits(room, s.now, draws, fails);
      case Recompute(_) => RecomputeFits(room, s.now, s);
      case RecomputeGiveUp(_, _) => RecomputeFits(room, s.now, s);
      case _ => QuietStepFits(room, s);
    }
  }

  lemma {:induction false} RunFits(room: Room, now: int, steps: seq<ER.Step>)
    requires ER.Invariant(room, now) && ClockRuns(now, steps) && AllFit(room)
    ensures AllFit(ER.Run(room, steps))
    decreases |steps|
  {
    if steps != [] {
      StepFits(room, now, steps[0]);
      ER.StepKeeps(room, now, steps[0]);
      RunFits(ER.Next(room, steps[0]), steps[0].now, steps[1..]);
    }
  }

  // ----- which drawings are stored revealed -----

  /** The step computes the result of a member who gave up, at once or from the roulette
      page. */
  ghost predicate ComputesGiveUp(room: Room, s: ER.Step, id: string) {
    match s.action
    case GiveUp(other, _, fails, _) => other == id && MayGiveUp(room, id) && !fails
    case RecomputeGiveUp(other, _) =>
      other == id && id in room.members && room.members[id].gaveUpAt.Some? && room.members[id].result.None?
    case _ => false
  }

  /** Some step of the run did. */
  ghost predicate GiveUpComputed(room: Room, steps: seq<ER.Step>, id: string)
    decreases |steps|
  {
    steps != [] && (ComputesGiveUp(room, steps[0], id) || GiveUpComputed(ER.Next(room, steps[0]), steps[1..], id))
  }

  lemma ComputedStep(room: Room, now: int, s: ER.Step, id: string)
    requires ER.Invariant(room, now) && now <= s.now && PenaltyTiers.HasOpenTier(room.template.tiers)
    requires id in room.members && id in ER.Next(room, s).members && ER.Next(room, s).phase == Timer
    ensures ER.Next(room, s).members[id].result.Some? <==> room.members[id].result.Some? || ComputesGiveUp(room, s, id)
  {
    if s.action.GiveUp? {
      GiveUpStepComputed(room, now, s, id);
    } else if s.action.RecomputeGiveUp? {
      RecomputeStepComputed(room, s, id);
    } else {
      OtherStepComputed(room, s, id);
    }
  }

  lemma RecomputeStepComputed(room: Room, s: ER.Step, id: string)
    requires s.action.RecomputeGiveUp? && PenaltyTiers.HasOpenTier(room.template.tiers)
    requires id in room.members && id in ER.Next(room, s).members
    ensures ER.Next(room, s).members[id].result.Some? <==> room.members[id].result.Some? || ComputesGiveUp(room, s, id)
  {
    PenaltyTiers.ForfeitNeedsOpenTier(room.template.tiers);
    var after := ER.Next(room, s);
    if s.action.id != id {
      assert after.members[id] == room.members[id];
    }
  }

  lemma GiveUpStepComputed(room: Room, now: int, s: ER.Step, id: string)
    requires ER.Invariant(room, now) && s.action.GiveUp? && PenaltyTiers.HasOpenTier(room.template.tiers)
    requires id in room.members && id in ER.Next(room, s).members && ER.Next(room, s).phase == Timer
    ensures ER.Next(room, s).members[id].result.Some? <==> room.members[id].result.Some? || ComputesGiveUp(room, s, id)
  {
    PenaltyTiers.ForfeitNeedsOpenTier(room.template.tiers);
    var other := s.action.id;
    if MayGiveUp(room, other) {
      var after := ER.GaveUpSoFar(room, other, s.now, s.action.draws, s.action.fails);
      assert ER.Next(room, s) == after;
      assert ER.MemberInvariant(room, room.members[other], now);
    }
  }

  lemma OtherStepComputed(room: Room, s: ER.Step, id: string)
    requires !s.action.GiveUp? && !s.action.RecomputeGiveUp?
    requires id in room.members && id in ER.Next(room, s).members && ER.Next(room, s).phase == Timer
    ensures ER.Next(room, s).members[id].result == room.members[id].result
  {
  }

  lemma {:induction false} ComputedRun(room: Room, now: int, steps: seq<ER.Step>, id: string)
    requires ER.Invariant(room, now) && ClockRuns(now, steps) && PenaltyTiers.HasOpenTier(room.template.tiers)
    requires id in room.members && id in ER.Run(room, steps).members && ER.Run(room, steps).phase == Timer
    ensures ER.Run(room, steps).members[id].result.Some? <==>
              room.members[id].result.Some? || GiveUpComputed(room, steps, id)
    decreases |steps|
  {
    if steps != [] {
      var next := ER.Next(room, steps[0]);
      ER.StaysIfLater(next, steps[1..], id);
      ER.TimerWasOn(next, steps[1..]);
      ER.StepKeeps(room, now, steps[0]);
      ER.NextTemplate(room, steps[0]);
      ComputedStep(room, now, steps[0], id);
      ComputedRun(next, steps[0].now, steps[1..], id);
    }
  }

  /** The session-end computation, once it succeeds: it stores revealed penalties for a
      member who gave up if and only if no computation at or after giving up had succeeded
      (otherwise it leaves the member's penalties alone), and unrevealed ones for every
      other member. */
  lemma EndDrawsRevealedIff(room: Room, steps: seq<ER.Step>, id: string, at: int, draws: Draws)
    requires ER.Fresh(room) && ClockRuns(room.startedAt, steps) && FinalClock(room.startedAt, steps) <= at
    requires PenaltyTiers.HasOpenTier(room.template.tiers)
    requires ER.Run(room, steps).phase == Timer && id in ER.Run(room, steps).members
    ensures var before := ER.Run(room, steps);
            var after := Ended(before, at, draws, false);
            && id in after.members && after.members[id].result.Some?
            && (before.members[id].gaveUpAt.None? ==> AllFlags(after.members[id].penalties, false))
            && (before.members[id].gaveUpAt.Some? ==>
                  if GiveUpComputed(room, steps, id) then after.members[id].penalties == before.members[id].penalties
                  else before.members[id].penalties == map[] && AllFlags(after.members[id].penalties, true))
  {
    ER.FreshInvariant(room);
    ER.RunKeeps(room, room.startedAt, steps);
    ER.RunKeepsFrame(room, steps);
    RunFits(room, room.startedAt, steps);
    ER.StaysIfLater(room, steps, id);
    ComputedRun(room, room.startedAt, steps, id);
    var before := ER.Run(room, steps);
    assert ER.MemberInvariant(before, before.members[id], FinalClock(room.startedAt, steps));
    EndDraws(before, id, at, draws);
  }

  lemma EndDraws(room: Room, id: string, at: int, draws: Draws)
    requires PenaltyTiers.HasOpenTier(room.template.tiers) && room.phase == Timer && id in room.members
    requires room.members[id].result.Some? ==> room.members[id].gaveUpAt.Some?
    requires room.members[id].result.None? ==> room.members[id].penalties == map[]
    ensures var after := Ended(room, at, draws, false);
            && id in after.members && after.members[id].result.Some?
            && if room.members[id].result.Some? then after.members[id].penalties == room.members[id].penalties
               else AllFlags(after.members[id].penalties, room.members[id].gaveUpAt.Some?)
  {
    var ended := room.(phase := Result, endedAt := Some(at));
    ER.SavesResultsIff(ended, draws);
    if room.members[id].result.None? {
      SettledFits(ended, id, room.members[id], draws);
    }
  }

  /** What the session-end computation does to one member's penalties. */
  lemma CalculatedFlags(room: Room, draws: Draws, id: string)
    requires id in room.members && (room.members[id].result.None? ==> room.members[id].penalties == map[])
    ensures var m, m' := room.members[id], Calculated(room, draws).members[id];
            && m'.gaveUpAt == m.gaveUpAt
            && (m.result.Some? ==> m'.result.Some? && m'.penalties == m.penalties)
            && (m.result.None? && m'.result.Some? ==> AllFlags(m'.penalties, m.gaveUpAt.Some?))
  {
    if SettlesAll(room, draws) && room.members[id].result.None? {
      SettledPenalties(room, id, room.members[id], draws);
      SettledFits(room, id, room.members[id], draws);
    }
  }

  lemma EndedFlags(room: Room, now: int, draws: Draws, fails: bool, id: string)
    requires id in room.members && (room.members[id].result.None? ==> room.members[id].penalties == map[])
    ensures var m, m' := room.members[id], Ended(room, now, draws, fails).members[id];
            && m'.gaveUpAt == m.gaveUpAt
            && (m.result.Some? ==> m'.result.Some? && m'.penalties == m.penalties)
            && (m.result.None? && m'.result.Some? ==> AllFlags(m'.penalties, m.gaveUpAt.Some?))
  {
    CalculatedFlags(room.(phase := Result, endedAt := Some(now)), draws, id);
  }

  lemma GaveUpSoFarFlags(room: Room, other: string, now: int, draws: Draws, fails: bool, id: string)
    requires MayGiveUp(room, other) && id in room.members
    requires room.members[id].result.None? && room.members[id].penalties == map[]
    ensures var m' := ER.GaveUpSoFar(room, other, now, draws, fails).members[id];
            && (m'.result.None? ==> m'.penalties == map[])
            && (m'.result.Some? ==> other == id && !fails && m'.gaveUpAt.Some? && AllFlags(m'.penalties, false))
  {
    var recorded := GiveUpRecorded(room, other, now);
    if !fails && other == id && SettledGiveUp(recorded, id, recorded.members[id], draws).Ok? {
      SettledGiveUpFits(recorded, id, recorded.members[id], draws);
    }
  }

  lemma GiveUpDraws(room: Room, s: ER.Step, id: string)
    requires s.action.GiveUp? && MayGiveUp(room, s.action.id) && id in room.members
    requires room.members[id].result.None? && room.members[id].penalties == map[]
    requires id in ER.Next(room, s).members && ER.Next(room, s).members[id].result.Some?
    ensures DrawnAsDue(room, s, id)
  {
    var a := s.action;
    var after := ER.GaveUpSoFar(room, a.id, s.now, a.draws, a.fails);
    GaveUpSoFarFlags(room, a.id, s.now, a.draws, a.fails, id);
    EndedFlags(after, s.now, a.draws, a.endFails, id);
    if ComputesGiveUp(room, s, id) && after.members[id].result.None? {
      NoForfeitNoResult(room, a.id, s.now, a.draws);
      assert ER.SomeoneGaveUp(after);
      ER.SavesResultsIff(after.(phase := Result, endedAt := Some(s.now)), a.draws);
    }
  }

  /** A give-up computation fails only for lack of an unlimited tier. */
  lemma NoForfeitNoResult(room: Room, id: string, now: int, draws: Draws)
    requires MayGiveUp(room, id) && ER.GaveUpSoFar(room, id, now, draws, false).members[id].result.None?
    ensures !PenaltyTiers.HasOpenTier(room.template.tiers)
  {
    PenaltyTiers.ForfeitNeedsOpenTier(room.template.tiers);
  }

  /** The step stores the member's penalties revealed exactly for a member who gave up and
      whose own computation, at giving up or from the roulette page, is not what drew them. */
  ghost predicate DrawnAsDue(room: Room, s: ER.Step, id: string) {
    && id in ER.Next(room, s).members
    && var m := ER.Next(room, s).members[id];
       m.result.Some? && AllFlags(m.penalties, m.gaveUpAt.Some? && !ComputesGiveUp(room, s, id))
  }

  lemma StepDraws(room: Room, s: ER.Step, id: string)
    requires id in room.members && room.members[id].result.None? && room.members[id].penalties == map[]
    requires id in ER.Next(room, s).members && ER.Next(room, s).members[id].result.Some?
    ensures DrawnAsDue(room, s, id)
  {
    match s.action {
      case GiveUp(other, _, _, _) => if MayGiveUp(room, other) { GiveUpDraws(room, s, id); }
      case End(draws, fails) => EndedFlags(room, s.now, draws, fails, id);
      case Recompute(draws) => CalculatedFlags(room, draws, id);
      case RecomputeGiveUp(other, draws) =>
        if other == id { SettledGiveUpFits(room, id, room.members[id], draws); }
      case _ =>
    }
  }

  /** The k-th step of the run draws the member's penalties. */
  ghost predicate DrawsAt(room: Room, steps: seq<ER.Step>, k: nat, id: string)
    requires k < |steps|
  {
    var before := ER.Run(room, steps[..k]);
    && id in before.members && before.members[id].result.None? && before.members[id].penalties == map[]
    && DrawnAsDue(before, steps[k], id)
    && id in ER.Run(room, steps).members
    && ER.PenaltiesKept(ER.Next(before, steps[k]).members[id].penalties, ER.Run(room, steps).members[id].penalties)
  }

  lemma DrawsLater(room: Room, steps: seq<ER.Step>, k: nat, id: string)
    requires steps != [] && k < |steps[1..]| && DrawsAt(ER.Next(room, steps[0]), steps[1..], k, id)
    ensures DrawsAt(room, steps, k + 1, id)
  {
    assert steps[..k + 1][0] == steps[0] && steps[..k + 1][1..] == steps[1..][..k];
    assert steps[1..][k] == steps[k + 1];
  }

  lemma {:induction false} DrawnOnce(room: Room, now: int, steps: seq<ER.Step>, id: string) returns (k: nat)
    requires ER.Invariant(room, now) && ClockRuns(now, steps) && AllFit(room)
    requires id in room.members && room.members[id].result.None?
    requires id in ER.Run(room, steps).members && ER.Run(room, steps).members[id].result.Some?
    ensures k < |steps| && DrawsAt(room, steps, k, id)
    decreases |steps|
  {
    var next := ER.Next(room, steps[0]);
    ER.StepKeeps(room, now, steps[0]);
    ER.StaysIfLater(next, steps[1..], id);
    StepFits(room, now, steps[0]);
    assert PenaltiesFit(room.template, room.members[id]);
    if next.members[id].result.Some? {
      StepDraws(room, steps[0], id);
      ER.ResultsAreFinal(next, steps[0].now, steps[1..], id);
      assert steps[..0] == [] && ER.Run(room, []) == room;
      k := 0;
    } else {
      var rest := DrawnOnce(next, steps[0].now, steps[1..], id);
      DrawsLater(room, steps, rest, id);
      k := rest + 1;
    }
  }

  /** In every run, whatever failed in it: the penalties of a member with a result were all
      drawn in one step; they were stored revealed exactly if the member had given up and
      it was not the member's own computation that drew them; and afterwards they only
      came to be revealed. */
  lemma EveryDrawing(room: Room, steps: seq<ER.Step>, id: string)
    requires ER.Fresh(room) && ClockRuns(room.startedAt, steps)
    requires id in ER.Run(room, steps).members && ER.Run(room, steps).members[id].result.Some?
    ensures exists k :: 0 <= k < |steps| && DrawsAt(room, steps, k, id)
  {
    ER.FreshInvariant(room);
    ER.StaysIfLater(room, steps, id);
    var k := DrawnOnce(room, room.startedAt, steps, id);
  }

  // ----- what the roulette shows -----

  /** The rows list a member's penalties, each content once, in any order. */
  ghost predicate ListsPenalties(rows: seq<Roulette.PenaltyRow>, penalties: map<string, Penalty>) {
    && (forall i, j :: 0 <= i < j < |rows| ==> rows[i].content != rows[j].content)
    && (forall i :: 0 <= i < |rows| ==>
          && rows[i].content in penalties
          && rows[i].count == penalties[rows[i].content].count
          && rows[i].isRevealed == penalties[rows[i].content].isRevealed)
    && (forall c :: c in penalties ==> exists i :: 0 <= i < |rows| && rows[i].content == c)
  }

  lemma DrawingIsStored(rows: seq<Roulette.PenaltyRow>, penalties: map<string, Penalty>, pool: seq<string>, count: nat,
                        draw: nat -> nat)
    requires ListsPenalties(rows, penalties) && IsDrawing(penalties, pool, count, draw)
    ensures Roulette.StoresTally(rows, Roulette.Tally(Roulette.Drawn(pool, count, draw)))
  {
    forall i | 0 <= i < |rows| ensures rows[i].count == penalties[rows[i].content].count {
      assert rows[i].content in penalties;
    }
  }

  /** What the roulette shows for stored penalties that are one drawing. */
  lemma SpinsShowDrawing(rows: seq<Roulette.PenaltyRow>, penalties: map<string, Penalty>, pool: seq<string>, count: nat,
                         draw: nat -> nat, seed: seq<bv16>)
    requires ListsPenalties(rows, penalties) && IsDrawing(penalties, pool, count, draw)
    ensures Roulette.TotalSpins(rows) == if pool == [] then 0 else count
    ensures multiset(Roulette.AllSpins(rows, seed)) == multiset(Roulette.Drawn(pool, count, draw))
    ensures forall c :: c in Roulette.AllSpins(rows, seed) ==> c in pool
  {
    DrawingIsStored(rows, penalties, pool, count, draw);
    Roulette.SpinsRevealWhatWasDrawn(pool, count, draw, rows, seed);
    forall c | c in Roulette.AllSpins(rows, seed) ensures c in pool {
      assert c in multiset(Roulette.Drawn(pool, count, draw));
    }
  }

  /** The spins show one drawing of the given size from the pool, with repetitions. */
  ghost predicate ShowsDrawing(spins: seq<string>, pool: seq<string>, count: nat) {
    && (forall c :: c in spins ==> c in pool)
    && exists draw: nat -> nat :: multiset(spins) == multiset(Roulette.Drawn(pool, count, draw))
  }

  lemma FitsShow(t: Template, m: Member, rows: seq<Roulette.PenaltyRow>, seed: seq<bv16>)
    requires PenaltiesFit(t, m) && m.result.Some? && ListsPenalties(rows, m.penalties)
    ensures Roulette.TotalSpins(rows) == if t.pool == [] then 0 else DueCount(t, m)
    ensures ShowsDrawing(Roulette.AllSpins(rows, seed), t.pool, DueCount(t, m))
  {
    var draw: nat -> nat :| IsDrawing(m.penalties, t.pool, DueCount(t, m), draw);
    SpinsShowDrawing(rows, m.penalties, t.pool, DueCount(t, m), draw, seed);
  }

  /** In every reachable state, whatever has been revealed so far, for a member with a
      result: the roulette has as many spins as the tier calls for (none with an empty
      pool), and together they show one drawing from the pool, with repetitions. */
  lemma RouletteShowsWhatIsDue(room: Room, steps: seq<ER.Step>, id: string, rows: seq<Roulette.PenaltyRow>,
                               seed: seq<bv16>)
    requires ER.Fresh(room) && ClockRuns(room.startedAt, steps)
    requires var end := ER.Run(room, steps);
             && id in end.members && end.members[id].result.Some?
             && ListsPenalties(rows, end.members[id].penalties)
    ensures var m := ER.Run(room, steps).members[id];
            && Roulette.TotalSpins(rows) == (if room.template.pool == [] then 0 else DueCount(room.template, m))
            && ShowsDrawing(Roulette.AllSpins(rows, seed), room.template.pool, DueCount(room.template, m))
  {
    ER.FreshInvariant(room);
    RunFits(room, room.startedAt, steps);
    ER.RunKeepsFrame(room, steps);
    FitsShow(room.template, ER.Run(room, steps).members[id], rows, seed);
  }

  /** What the contract says is what the roulette makes a member do: for a contract whose
      tiers are validated, nondecreasing and open-ended, the member of any run who gave up
      has as many spins as the last tier's count, and every other member with a result as
      the count of the one tier whose range holds the escaped share. */
  lemma SpinsAsContracted(room: Room, steps: seq<ER.Step>, id: string, rows: seq<Roulette.PenaltyRow>) returns (i: nat)
    requires ER.Fresh(room) && ClockRuns(room.startedAt, steps)
    requires var end := ER.Run(room, steps);
             && id in end.members && end.members[id].result.Some?
             && ListsPenalties(rows, end.members[id].penalties)
    requires PenaltyTiers.Contiguous(room.template.tiers) && PenaltyTiers.Nondecreasing(room.template.tiers)
    requires PenaltyTiers.StartsAtZero(room.template.tiers) && PenaltyTiers.OpenEnded(room.template.tiers)
    requires room.template.plan.focusMin * room.template.plan.rounds > 0
    ensures var tiers, m := room.template.tiers, ER.Run(room, steps).members[id];
            var focus := room.template.plan.focusMin * room.template.plan.rounds * 60000;
            && i < |tiers|
            && (if m.gaveUpAt.Some? then i == |tiers| - 1
                else PenaltyTiers.Covers(tiers[i], m.result.value.totalEscapeMs, focus))
            && Roulette.TotalSpins(rows) == if room.template.pool == [] then 0 else tiers[i].count
  {
    RouletteShowsWhatIsDue(room, steps, id, rows, []);
    var m := ER.Run(room, steps).members[id];
    var tiers := room.template.tiers;
    if m.gaveUpAt.Some? {
      PenaltyTiers.ForfeitIsLastTier(tiers);
      i := |tiers| - 1;
    } else {
      i := PenaltyTiers.ChargedExactly(m.result.value.totalEscapeMs, room.template.plan.focusMin,
                                       room.template.plan.rounds, tiers);
    }
  }
}
