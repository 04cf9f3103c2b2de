/** Escape logs of a running session and the totals computed from them.

    The functions say what each operation does to the stored room, with escape totals
    given as numbers of focus instants; the class performs the operations with loops
    over logs, intervals and windows, and is proved to do the same. */
module EscapeSession {
  import opened Wrappers
  import opened Timeline
  import opened EscapeIntervals
  import opened Phases
  import PenaltyTiers
  import Roulette

  /** One escape; open until the member returns. */
  datatype EscapeLog = EscapeLog(escapedAt: int, returnedAt: Option<int>, durationMs: Option<int>)

  datatype RoomResult = RoomResult(totalEscapeMs: nat, penaltyTier: int)

  datatype Penalty = Penalty(count: nat, isRevealed: bool)

  datatype Member = Member(gaveUpAt: Option<int>, logs: seq<EscapeLog>, result: Option<RoomResult>,
                           penalties: map<string, Penalty>)

  datatype Template = Template(plan: Plan, tiers: seq<PenaltyTiers.PenaltyTier>, pool: seq<string>)

  /** A room whose session has started. */
  datatype Room = Room(phase: Phase, startedAt: int, endedAt: Option<int>, template: Template,
                       members: map<string, Member>)

  /** The i-th random number drawn for a member. */
  type Draws = (string, nat) -> nat

  function PlannedEnd(room: Room): int { room.startedAt + SessionMs(room.template.plan) }

  function SessionEnd(room: Room): int { if room.endedAt.Some? then room.endedAt.value else PlannedEnd(room) }

  function RoomGrid(room: Room): Grid { GridOf(room.template.plan, room.startedAt) }

  // ----- totals -----

  /** End of a log: open logs run to the session end; the session-end computation also
      clips closed ones there, the give-up computation does not. */
  function LogEnd(log: EscapeLog, end: int, clip: bool): int {
    var raw := if log.returnedAt.Some? then log.returnedAt.value else end;
    if clip then Min(raw, end) else raw
  }

  function LogIntervals(logs: seq<EscapeLog>, end: int, clip: bool): (s: seq<Interval>)
    ensures |s| == |logs|
    ensures forall i :: 0 <= i < |s| ==> s[i] == Interval(logs[i].escapedAt, LogEnd(logs[i], end, clip))
  {
    seq(|logs|, i requires 0 <= i < |logs| => Interval(logs[i].escapedAt, LogEnd(logs[i], end, clip)))
  }

  /** The instants a member counts as escaped: those inside a log and, after giving up,
      everything up to the planned end. */
  ghost function EscapedInstants(m: Member, end: int, clip: bool, plannedEnd: int): set<int> {
    Covered(LogIntervals(m.logs, end, clip))
    + if m.gaveUpAt.Some? then Range(m.gaveUpAt.value, plannedEnd) else {}
  }

  ghost function FinalTotal(room: Room, m: Member, clip: bool): nat {
    FocusMsIn(EscapedInstants(m, SessionEnd(room), clip, PlannedEnd(room)), RoomGrid(room))
  }

  function TierFor(t: Template, total: nat): PenaltyTiers.TierResult {
    PenaltyTiers.CalculatePenaltyTier(total, t.plan.focusMin, t.plan.rounds, t.tiers)
  }

  ghost function FinalResult(room: Room, m: Member, clip: bool): RoomResult {
    var total := FinalTotal(room, m, clip);
    RoomResult(total, TierFor(room.template, total).penaltyTier)
  }

  /** A log as the computation stores it: closed, with its focus time as duration. */
  ghost function SettledLog(log: EscapeLog, end: int, clip: bool, g: Grid): EscapeLog {
    EscapeLog(log.escapedAt,
              Some(if log.returnedAt.Some? then log.returnedAt.value else end),
              Some(FocusMsIn(Range(log.escapedAt, LogEnd(log, end, clip)), g)))
  }

  ghost function SettledLogs(logs: seq<EscapeLog>, end: int, clip: bool, g: Grid): (s: seq<EscapeLog>)
    ensures |s| == |logs| && forall i :: 0 <= i < |s| ==> s[i] == SettledLog(logs[i], end, clip, g)
  {
    seq(|logs|, i requires 0 <= i < |logs| => SettledLog(logs[i], end, clip, g))
  }

  /** Penalty rows after an assignment: new contents are added, existing rows are kept. */
  function Assigned(existing: map<string, Penalty>, pool: seq<string>, count: nat, draw: nat -> nat, revealed: bool)
    : map<string, Penalty>
  {
    if count == 0 || pool == [] then existing
    else
      var tally := Roulette.Tally(Roulette.Drawn(pool, count, draw));
      (map c | c in tally :: Penalty(tally[c], revealed)) + existing
  }

  /** One member in the session-end computation. */
  ghost function Settled(room: Room, id: string, m: Member, draws: Draws): Result<Member, PenaltyTiers.TierError> {
    if m.result.Some? && m.gaveUpAt.None? then Ok(m)
    else
      var result := FinalResult(room, m, true);
      var settled := m.(logs := SettledLogs(m.logs, SessionEnd(room), true, RoomGrid(room)), result := Some(result));
      var draw := (i: nat) => draws(id, i);
      if m.gaveUpAt.None? then
        var tier := TierFor(room.template, result.totalEscapeMs);
        Ok(settled.(penalties := Assigned(m.penalties, room.template.pool, tier.penaltyCount, draw, tier.isForceAll)))
      else if m.result.Some? then Ok(settled)
      else match PenaltyTiers.ResolveForfeitTier(room.template.tiers)
        case Err(e) => Err(e)
        case Ok(tier) =>
          Ok(settled.(penalties := Assigned(m.penalties, room.template.pool, tier.penaltyCount, draw, tier.isForceAll)))
  }

  /** The session-end computation: all members or, if one fails, none. */
  ghost predicate SettlesAll(room: Room, draws: Draws) {
    forall id :: id in room.members ==> Settled(room, id, room.members[id], draws).Ok?
  }

  ghost function Calculated(room: Room, draws: Draws): Room {
    if SettlesAll(room, draws)
    then room.(members := map id | id in room.members :: Settled(room, id, room.members[id], draws).value)
    else room
  }

  /** One member in the give-up computation; fails without an unlimited tier. */
  ghost function SettledGiveUp(room: Room, id: string, m: Member, draws: Draws)
    : Result<Member, PenaltyTiers.TierError>
  {
    match PenaltyTiers.ResolveForfeitTier(room.template.tiers)
    case Err(e) => Err(e)
    case Ok(tier) =>
      var settled := m.(logs := SettledLogs(m.logs, SessionEnd(room), false, RoomGrid(room)));
      if m.result.Some? then Ok(settled)
      else Ok(settled.(result := Some(FinalResult(room, m, false)),
                       penalties := Assigned(m.penalties, room.template.pool, tier.penaltyCount,
                                             (i: nat) => draws(id, i), false)))
  }

  ghost function CalculatedGiveUp(room: Room, id: string, draws: Draws): Room {
    if id !in room.members then room
    else match SettledGiveUp(room, id, room.members[id], draws)
      case Err(_) => room
      case Ok(m) => room.(members := room.members[id := m])
  }

  // ----- operations -----

  predicate IsOpen(log: EscapeLog) { log.returnedAt.None? }

  predicate HasOpen(logs: seq<EscapeLog>) { exists i :: 0 <= i < |logs| && IsOpen(logs[i]) }

  function ClosedAt(log: EscapeLog, now: int): EscapeLog {
    if IsOpen(log) then EscapeLog(log.escapedAt, Some(now), Some(now - log.escapedAt)) else log
  }

  function CloseFirst(logs: seq<EscapeLog>, now: int): (s: seq<EscapeLog>)
    ensures |s| == |logs|
  {
    if logs == [] then []
    else if IsOpen(logs[0]) then [ClosedAt(logs[0], now)] + logs[1..]
    else [logs[0]] + CloseFirst(logs[1..], now)
  }

  function CloseAll(logs: seq<EscapeLog>, now: int): (s: seq<EscapeLog>)
    ensures |s| == |logs| && forall i :: 0 <= i < |s| ==> s[i] == ClosedAt(logs[i], now)
  {
    seq(|logs|, i requires 0 <= i < |logs| => ClosedAt(logs[i], now))
  }

  function EscapeStarted(room: Room, id: string, now: int): Room {
    if room.phase != Timer || id !in room.members then room
    else
      var m := room.members[id];
      if m.gaveUpAt.Some? || HasOpen(m.logs) then room
      else room.(members := room.members[id := m.(logs := m.logs + [EscapeLog(now, None, None)])])
  }

  function EscapeEnded(room: Room, id: string, now: int): Room {
    if id !in room.members then room
    else
      var m := room.members[id];
      if m.gaveUpAt.Some? then room
      else room.(members := room.members[id := m.(logs := CloseFirst(m.logs, now))])
  }

  function ActiveMembers(room: Room): set<string> {
    set id | id in room.members && room.members[id].gaveUpAt.None?
  }

  /** The session end records the end first; a computation that fails leaves it at that. */
  ghost function Ended(room: Room, now: int, draws: Draws, fails: bool): Room {
    if room.phase == Result || room.phase == Closed then room
    else
      var ended := room.(phase := Result, endedAt := Some(now));
      if fails then ended else Calculated(ended, draws)
  }

  predicate MayGiveUp(room: Room, id: string) {
    room.phase == Timer && id in room.members && room.members[id].gaveUpAt.None?
  }

  function GiveUpRecorded(room: Room, id: string, now: int): Room
    requires id in room.members
  {
    var m := room.members[id];
    room.(members := room.members[id := m.(logs := CloseAll(m.logs, now), gaveUpAt := Some(now))])
  }

  /** Giving up records it whether or not the computation succeeds; the last active
      member's give-up ends the session. */
  ghost function GaveUp(room: Room, id: string, now: int, draws: Draws, fails: bool, endFails: bool): Room {
    if !MayGiveUp(room, id) then room
    else
      var recorded := GiveUpRecorded(room, id, now);
      var after := if fails then recorded else CalculatedGiveUp(recorded, id, draws);
      if ActiveMembers(after) == {} then Ended(after, now, draws, endFails) else after
  }

  function AllShown(penalties: map<string, Penalty>): map<string, Penalty> {
    map c | c in penalties :: Penalty(penalties[c].count, true)
  }

  /** Revealing whatever a member has left. */
  function Revealed(room: Room, id: string): Room {
    if id !in room.members then room
    else
      var m := room.members[id];
      room.(members := room.members[id := m.(penalties := AllShown(m.penalties))])
  }

  /** A host's kick removes the row unless logs still refer to it. */
  function Kicked(room: Room, id: string): Room {
    if id in room.members && room.members[id].logs == [] then room.(members := room.members - {id}) else room
  }

  /** Live escape total: open logs count up to now. */
  ghost function LiveInstants(m: Member, now: int): set<int> { Covered(LogIntervals(m.logs, now, false)) }

  ghost function LiveTotal(room: Room, m: Member, now: int): nat { FocusMsIn(LiveInstants(m, now), RoomGrid(room)) }

  // ----- the services -----

  /** Measures one log and closes it if it is open. */
  method SettleLog(log: EscapeLog, end: int, clip: bool, startedAt: int, plan: Plan)
    returns (settled: EscapeLog, escEnd: int)
    ensures settled == SettledLog(log, end, clip, GridOf(plan, startedAt))
    ensures escEnd == LogEnd(log, end, clip)
  {
    var rawEnd := if log.returnedAt.Some? then log.returnedAt.value else end;
    escEnd := if clip then Min(rawEnd, end) else rawEnd;
    var effectiveMs := GetEffectiveFocusEscapeMs(log.escapedAt, escEnd, startedAt, plan);
    settled := log;
    if log.returnedAt.None? {
      settled := log.(returnedAt := Some(end), durationMs := Some(effectiveMs));
    } else if log.durationMs != Some(effectiveMs) {
      settled := log.(durationMs := Some(effectiveMs));
    }
  }

  /** Settles all logs of a member, collecting their intervals. */
  method SettleLogs(logs: seq<EscapeLog>, end: int, clip: bool, startedAt: int, plan: Plan)
    returns (settled: seq<EscapeLog>, intervals: seq<Interval>)
    ensures settled == SettledLogs(logs, end, clip, GridOf(plan, startedAt))
    ensures intervals == LogIntervals(logs, end, clip)
  {
    ghost var g := GridOf(plan, startedAt);
    settled, intervals := [], [];
    for i := 0 to |logs|
      invariant settled == SettledLogs(logs[..i], end, clip, g)
      invariant intervals == LogIntervals(logs[..i], end, clip)
    {
      var stored, escEnd := SettleLog(logs[i], end, clip, startedAt, plan);
      SettledSnoc(logs, i, end, clip, g);
      settled := settled + [stored];
      intervals := intervals + [Interval(logs[i].escapedAt, escEnd)];
    }
    assert logs[..|logs|] == logs;
  }

  lemma SettledSnoc(logs: seq<EscapeLog>, i: nat, end: int, clip: bool, g: Grid)
    requires i < |logs|
    ensures SettledLogs(logs[..i + 1], end, clip, g)
         == SettledLogs(logs[..i], end, clip, g) + [SettledLog(logs[i], end, clip, g)]
    ensures LogIntervals(logs[..i + 1], end, clip)
         == LogIntervals(logs[..i], end, clip) + [Interval(logs[i].escapedAt, LogEnd(logs[i], end, clip))]
  {
  }

  /** A member's total: merge the intervals, add the time after giving up, cap. */
  method MeasureMember(m: Member, intervals: seq<Interval>, end: int, clip: bool, room: Room) returns (total: nat)
    requires intervals == LogIntervals(m.logs, end, clip)
    ensures total == FocusMsIn(EscapedInstants(m, end, clip, PlannedEnd(room)), RoomGrid(room))
  {
    var all := intervals;
    if m.gaveUpAt.Some? {
      all := all + [Interval(m.gaveUpAt.value, PlannedEnd(room))];
      CoveredSnoc(intervals, Interval(m.gaveUpAt.value, PlannedEnd(room)));
    }
    assert Covered(all) == EscapedInstants(m, end, clip, PlannedEnd(room));
    total := TotalFocusEscapeMs(all, room.startedAt, room.template.plan);
    CapIsVacuous(Covered(all), room.template.plan, room.startedAt);
    total := Min(total, TotalFocusMs(room.template.plan));
  }

  method AssignRows(existing: map<string, Penalty>, pool: seq<string>, count: nat, draw: nat -> nat, revealed: bool)
    returns (rows: map<string, Penalty>)
    ensures rows == Assigned(existing, pool, count, draw, revealed)
  {
    rows := existing;
    if count > 0 && |pool| > 0 {
      var tally := Roulette.AssignPenalties(pool, count, draw);
      rows := (map c | c in tally :: Penalty(tally[c], revealed)) + existing;
    }
  }

  method SettleMember(room: Room, id: string, m: Member, draws: Draws)
    returns (r: Result<Member, PenaltyTiers.TierError>)
    ensures r == Settled(room, id, m, draws)
  {
    if m.result.Some? && m.gaveUpAt.None? {
      return Ok(m);
    }
    var end := SessionEnd(room);
    var settled, intervals := SettleLogs(m.logs, end, true, room.startedAt, room.template.plan);
    var total := MeasureMember(m, intervals, end, true, room);
    var tier := TierFor(room.template, total);
    var draw := (i: nat) => draws(id, i);
    var out := m.(logs := settled, result := Some(RoomResult(total, tier.penaltyTier)));
    if m.gaveUpAt.Some? {
      if m.result.Some? {
        return Ok(out);
      }
      var forfeit := PenaltyTiers.ResolveForfeitTier(room.template.tiers);
      if forfeit.Err? {
        return Err(forfeit.error);
      }
      var rows := AssignRows(m.penalties, room.template.pool, forfeit.value.penaltyCount, draw,
                             forfeit.value.isForceAll);
      return Ok(out.(penalties := rows));
    }
    var rows := AssignRows(m.penalties, room.template.pool, tier.penaltyCount, draw, tier.isForceAll);
    return Ok(out.(penalties := rows));
  }

  method SettleGiveUp(room: Room, id: string, m: Member, draws: Draws)
    returns (r: Result<Member, PenaltyTiers.TierError>)
    ensures r == SettledGiveUp(room, id, m, draws)
  {
    var end := SessionEnd(room);
    var settled, intervals := SettleLogs(m.logs, end, false, room.startedAt, room.template.plan);
    var total := MeasureMember(m, intervals, end, false, room);
    var tier := TierFor(room.template, total);
    var forfeit := PenaltyTiers.ResolveForfeitTier(room.template.tiers);
    if forfeit.Err? {
      return Err(forfeit.error);
    }
    var out := m.(logs := settled);
    if m.result.None? {
      var draw := (i: nat) => draws(id, i);
      var rows := AssignRows(m.penalties, room.template.pool, forfeit.value.penaltyCount, draw, false);
      out := out.(result := Some(RoomResult(total, tier.penaltyTier)), penalties := rows);
    }
    return Ok(out);
  }

  lemma {:induction false} CloseFirstAt(logs: seq<EscapeLog>, i: nat, now: int)
    requires i < |logs| && IsOpen(logs[i])
    requires forall k :: 0 <= k < i ==> !IsOpen(logs[k])
    ensures CloseFirst(logs, now) == logs[i := ClosedAt(logs[i], now)]
  {
    if i > 0 {
      CloseFirstAt(logs[1..], i - 1, now);
    }
  }

  lemma {:induction false} CloseFirstNone(logs: seq<EscapeLog>, now: int)
    requires !HasOpen(logs)
    ensures CloseFirst(logs, now) == logs
  {
    if logs != [] {
      assert !IsOpen(logs[0]);
      forall i | 0 <= i < |logs[1..]| ensures !IsOpen(logs[1..][i]) {
        assert !IsOpen(logs[i + 1]);
      }
      CloseFirstNone(logs[1..], now);
    }
  }

  /** The position of the first open log, if any. */
  method FindActiveEscape(logs: seq<EscapeLog>) returns (found: Option<nat>)
    ensures found.Some? <==> HasOpen(logs)
    ensures found.Some? ==> found.value < |logs| && IsOpen(logs[found.value])
                            && forall k :: 0 <= k < found.value ==> !IsOpen(logs[k])
  {
    for i := 0 to |logs|
      invariant forall k :: 0 <= k < i ==> !IsOpen(logs[k])
    {
      if logs[i].returnedAt.None? {
        return Some(i);
      }
    }
    return None;
  }

  datatype GiveUpError = MemberNotFound | NotInTimer | AlreadyGaveUp

  /** The stored rows of one room whose session has started. */
  class SessionStore {
    const startedAt: int
    const template: Template
    var phase: Phase
    var endedAt: Option<int>
    var members: map<string, Member>

    function Snapshot(): Room
      reads this
    {
      Room(phase, startedAt, endedAt, template, members)
    }

    constructor (room: Room)
      ensures Snapshot() == room
    {
      startedAt, template := room.startedAt, room.template;
      phase, endedAt, members := room.phase, room.endedAt, room.members;
    }

    method LogEscapeStart(id: string, now: int)
      modifies this`members
      ensures Snapshot() == EscapeStarted(old(Snapshot()), id, now)
    {
      if phase != Timer || id !in members {
        return;
      }
      var member := members[id];
      if member.gaveUpAt.Some? {
        return;
      }
      var activeEscape := FindActiveEscape(member.logs);
      if activeEscape.None? {
        members := members[id := member.(logs := member.logs + [EscapeLog(now, None, None)])];
      }
    }

    method LogEscapeEnd(id: string, now: int)
      modifies this`members
      ensures Snapshot() == EscapeEnded(old(Snapshot()), id, now)
    {
      if id !in members {
        return;
      }
      var member := members[id];
      if member.gaveUpAt.Some? {
        return;
      }
      var activeEscape := FindActiveEscape(member.logs);
      if activeEscape.Some? {
        var i := activeEscape.value;
        CloseFirstAt(member.logs, i, now);
        var log := member.logs[i];
        var durationMs := now - log.escapedAt;
        var closed := EscapeLog(log.escapedAt, Some(now), Some(durationMs));
        members := members[id := member.(logs := member.logs[i := closed])];
      } else {
        CloseFirstNone(member.logs, now);
        assert members == members[id := member];
      }
    }

    /** Closes every open log of a member and records the give-up, in one transaction. */
    method GiveUpTransaction(id: string, now: int)
      requires id in members
      modifies this`members
      ensures Snapshot() == GiveUpRecorded(old(Snapshot()), id, now)
    {
      var member := members[id];
      var logs := member.logs;
      for i := 0 to |logs|
        invariant |logs| == |member.logs|
        invariant forall k :: 0 <= k < |logs| ==>
                    logs[k] == if k < i then ClosedAt(member.logs[k], now) else member.logs[k]
      {
        if logs[i].returnedAt.None? {
          logs := logs[i := EscapeLog(logs[i].escapedAt, Some(now), Some(now - logs[i].escapedAt))];
        }
      }
      assert logs == CloseAll(member.logs, now);
      members := members[id := member.(logs := logs, gaveUpAt := Some(now))];
    }

    /** The session-end computation as a transaction over all members, in any order; the
        database may also fail it. */
    method CalculateAndSave(draws: Draws, fails: bool) returns (saved: bool)
      modifies this`members
      ensures saved <==> !fails && SettlesAll(old(Snapshot()), draws)
      ensures Snapshot() == if fails then old(Snapshot()) else Calculated(old(Snapshot()), draws)
    {
      if fails {
        return false;
      }
      var room := Snapshot();
      var rows: map<string, Member> := map[];
      var todo := members.Keys;
      while todo != {}
        invariant Snapshot() == room && todo <= room.members.Keys
        invariant rows.Keys == room.members.Keys - todo
        invariant forall id :: id in rows ==> Settled(room, id, room.members[id], draws) == Ok(rows[id])
      {
        var id :| id in todo;
        var settled := SettleMember(room, id, room.members[id], draws);
        if settled.Err? {
          assert !SettlesAll(room, draws);
          return false;
        }
        rows := rows[id := settled.value];
        todo := todo - {id};
      }
      members := rows;
      return true;
    }

    /** The give-up computation for one member, as a transaction that may fail. */
    method CalculateAndSaveForGiveUp(id: string, draws: Draws, fails: bool) returns (saved: bool)
      modifies this`members
      ensures Snapshot() == if fails then old(Snapshot()) else CalculatedGiveUp(old(Snapshot()), id, draws)
      ensures saved <==> !fails && id in old(members) && SettledGiveUp(old(Snapshot()), id, old(members)[id], draws).Ok?
    {
      if fails || id !in members {
        return false;
      }
      var settled := SettleGiveUp(Snapshot(), id, members[id], draws);
      if settled.Err? {
        return false;
      }
      members := members[id := settled.value];
      return true;
    }

    /** The end is recorded even if the computation fails. */
    method EndSession(now: int, draws: Draws, fails: bool)
      modifies this
      ensures Snapshot() == Ended(old(Snapshot()), now, draws, fails)
    {
      if phase == Result || phase == Closed {
        return;
      }
      phase, endedAt := Result, Some(now);
      var saved := CalculateAndSave(draws, fails);
    }

    /** Giving up: close the logs, compute the result (a failure is only reported), and end
        the session when nobody is left. */
    method GiveUp(id: string, now: int, draws: Draws, fails: bool, endFails: bool)
      returns (r: Wrappers.Result<(), GiveUpError>)
      modifies this
      ensures r == if id !in old(members) then Err(MemberNotFound)
                   else if old(phase) != Timer then Err(NotInTimer)
                   else if old(members)[id].gaveUpAt.Some? then Err(AlreadyGaveUp)
                   else Ok(())
      ensures Snapshot() == GaveUp(old(Snapshot()), id, now, draws, fails, endFails)
    {
      if id !in members {
        return Err(MemberNotFound);
      }
      if phase != Timer {
        return Err(NotInTimer);
      }
      if members[id].gaveUpAt.Some? {
        return Err(AlreadyGaveUp);
      }
      GiveUpTransaction(id, now);
      var saved := CalculateAndSaveForGiveUp(id, draws, fails);
      var active := set m | m in members && members[m].gaveUpAt.None?;
      assert active == ActiveMembers(Snapshot());
      if active == {} {
        EndSession(now, draws, endFails);
      }
      return Ok(());
    }

    /** Reveals whatever a member has left and says how much that was. */
    method RevealUnrevealedPenalties(id: string) returns (count: nat)
      modifies this`members
      ensures Snapshot() == Revealed(old(Snapshot()), id)
      ensures count > 0 <==> Snapshot() != old(Snapshot())
      ensures id !in old(members) ==> count == 0
      ensures id in old(members) ==>
                count == |set c | c in old(members)[id].penalties && !old(members)[id].penalties[c].isRevealed|
    {
      if id !in members {
        return 0;
      }
      var penalties := members[id].penalties;
      var unrevealed := set c | c in penalties && !penalties[c].isRevealed;
      count := |unrevealed|;
      var shown := map c | c in penalties ::
        if c in unrevealed then penalties[c].(isRevealed := true) else penalties[c];
      assert shown == AllShown(penalties);
      members := members[id := members[id].(penalties := shown)];
      if unrevealed != {} {
        var c :| c in unrevealed;
        assert shown[c] != penalties[c];
      } else {
        assert shown == penalties;
      }
    }

    /** Live totals of all members at an instant. */
    method GetCurrentSummary(now: int) returns (summary: map<string, nat>)
      ensures summary.Keys == members.Keys
      ensures forall id :: id in members ==> summary[id] == LiveTotal(Snapshot(), members[id], now)
    {
      summary := map[];
      var todo := members.Keys;
      while todo != {}
        invariant todo <= members.Keys
        invariant summary.Keys == members.Keys - todo
        invariant forall id :: id in summary ==> summary[id] == LiveTotal(Snapshot(), members[id], now)
      {
        var id :| id in todo;
        var intervals := LogIntervals(members[id].logs, now, false);
        var total := TotalFocusEscapeMs(intervals, startedAt, template.plan);
        summary := summary[id := total];
        todo := todo - {id};
      }
    }
  }
}
