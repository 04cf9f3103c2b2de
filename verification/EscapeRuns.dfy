/** Whole runs of a session: what every step keeps, and what follows for the totals.

    A run starts with fresh members in the timer phase and takes any sequence of escape
    starts and ends, give-ups, kicks, reveals, recomputations, the session end and the
    closing of an abandoned room, at instants that never go back.  The computations that
    give-up and session end start may fail. */
module EscapeRuns {
  import opened Clock
  import opened Wrappers
  import opened Timeline
  import opened EscapeIntervals
  import opened Phases
  import opened EscapeSession
  import PenaltyTiers

  datatype Action =
    | EscapeStart(id: string)
    | EscapeEnd(id: string)
    | GiveUp(id: string, draws: Draws, fails: bool, endFails: bool)
    | Kick(id: string)
    | End(draws: Draws, fails: bool)
    | Recompute(draws: Draws)                    // result page with missing results
    | RecomputeGiveUp(id: string, draws: Draws)  // roulette page of a member without a result
    | Reveal(id: string)                         // last spin, exit, timeout or expiry
    | Close                                      // cleanup of a room nobody is active in

  type Step = Timed<Action>

  ghost function Next(room: Room, s: Step): Room {
    match s.action
    case EscapeStart(id) => EscapeStarted(room, id, s.now)
    case EscapeEnd(id) => EscapeEnded(room, id, s.now)
    case GiveUp(id, draws, fails, endFails) => GaveUp(room, id, s.now, draws, fails, endFails)
    case Kick(id) => Kicked(room, id)
    case End(draws, fails) => Ended(room, s.now, draws, fails)
    case Recompute(draws) => Recomputed(room, draws)
    case RecomputeGiveUp(id, draws) => RecomputedGiveUp(room, id, draws)
    case Reveal(id) => Revealed(room, id)
    case Close => ClosedDown(room)
  }

  /** The cleanup closes a running session only when nobody is active in it. */
  function ClosedDown(room: Room): Room {
    if room.phase == Timer && ActiveMembers(room) == {} then room.(phase := Closed) else room
  }

  ghost function Recomputed(room: Room, draws: Draws): Room {
    if room.phase == Result then Calculated(room, draws) else room
  }

  ghost function RecomputedGiveUp(room: Room, id: string, draws: Draws): Room {
    if id in room.members && room.members[id].gaveUpAt.Some? && room.members[id].result.None?
    then CalculatedGiveUp(room, id, draws) else room
  }

  // ----- the invariant of one member -----

  /** Logs start within the session, come in order without overlapping, lie in the past,
      and only the last may be open. */
  predicate LogsInOrder(logs: seq<EscapeLog>, startedAt: int, now: int) {
    && (forall i :: 0 <= i < |logs| ==>
          && startedAt <= logs[i].escapedAt <= now
          && (logs[i].returnedAt.Some? ==> logs[i].escapedAt <= logs[i].returnedAt.value <= now))
    && (forall i, j :: 0 <= i < j < |logs| ==>
          logs[i].returnedAt.Some? && logs[i].returnedAt.value <= logs[j].escapedAt)
  }

  predicate AllClosedBy(logs: seq<EscapeLog>, t: int) {
    forall i :: 0 <= i < |logs| ==> logs[i].returnedAt.Some? && logs[i].returnedAt.value <= t
  }

  predicate AllClosed(logs: seq<EscapeLog>) {
    forall i :: 0 <= i < |logs| ==> logs[i].returnedAt.Some?
  }

  /** What is stored for a member with a result: closed logs with their focus time as
      duration, and the total and tier that the computation gives for them. */
  ghost predicate ResultExact(room: Room, m: Member) {
    && AllClosed(m.logs)
    && m.logs == SettledLogs(m.logs, SessionEnd(room), m.gaveUpAt.None?, RoomGrid(room))
    && m.result == Some(FinalResult(room, m, m.gaveUpAt.None?))
  }

  ghost predicate MemberInvariant(room: Room, m: Member, now: int) {
    && LogsInOrder(m.logs, room.startedAt, now)
    && (m.gaveUpAt.Some? ==> m.gaveUpAt.value <= now && AllClosedBy(m.logs, m.gaveUpAt.value))
    && (room.endedAt.Some? ==>
          && (m.gaveUpAt.Some? ==> m.gaveUpAt.value <= room.endedAt.value)
          && forall i :: 0 <= i < |m.logs| ==> m.logs[i].escapedAt <= room.endedAt.value)
    && (m.result.Some? ==> ResultExact(room, m))
    && (m.result.Some? ==> m.gaveUpAt.Some? || room.phase == Result)
  }

  ghost predicate RoomInvariant(room: Room, now: int) {
    && Rank(room.phase) >= Rank(Timer)
    && (room.phase == Result <==> room.endedAt.Some?)
    && (room.endedAt.Some? ==> room.endedAt.value <= now)
    && room.startedAt <= now
  }

  ghost predicate Invariant(room: Room, now: int) {
    && RoomInvariant(room, now)
    && forall id :: id in room.members ==> MemberInvariant(room, room.members[id], now)
  }

  /** A session at its first instant. */
  predicate Fresh(room: Room) {
    && room.phase == Timer && room.endedAt.None?
    && forall id :: id in room.members ==> room.members[id] == Member(None, [], None, map[])
  }

  // ----- clipping does not matter after giving up -----

  lemma ClipIrrelevant(logs: seq<EscapeLog>, end: int, t: int)
    requires AllClosedBy(logs, t) && t <= end
    ensures LogIntervals(logs, end, true) == LogIntervals(logs, end, false)
  {
  }

  lemma EndIrrelevantWhenClosed(logs: seq<EscapeLog>, e: int, e': int, g: Grid)
    requires AllClosed(logs)
    ensures LogIntervals(logs, e, false) == LogIntervals(logs, e', false)
    ensures SettledLogs(logs, e, false, g) == SettledLogs(logs, e', false, g)
  {
  }

  lemma SettlingClipIrrelevant(logs: seq<EscapeLog>, end: int, t: int, g: Grid)
    requires AllClosedBy(logs, t) && t <= end
    ensures SettledLogs(logs, end, true, g) == SettledLogs(logs, end, false, g)
  {
    assert forall i :: 0 <= i < |logs| ==> LogEnd(logs[i], end, true) == LogEnd(logs[i], end, false);
  }

  /** Settling twice is settling once. */
  lemma SettlingTwice(logs: seq<EscapeLog>, end: int, clip: bool, g: Grid)
    ensures AllClosed(SettledLogs(logs, end, clip, g))
    ensures LogIntervals(SettledLogs(logs, end, clip, g), end, clip) == LogIntervals(logs, end, clip)
    ensures SettledLogs(SettledLogs(logs, end, clip, g), end, clip, g) == SettledLogs(logs, end, clip, g)
  {
    var s := SettledLogs(logs, end, clip, g);
    assert forall i :: 0 <= i < |logs| ==> LogEnd(s[i], end, clip) == LogEnd(logs[i], end, clip);
  }

  // ----- one member's part in each step -----

  lemma SameInstants(m: Member, m': Member, end: int, plannedEnd: int)
    requires m'.gaveUpAt == m.gaveUpAt && LogIntervals(m'.logs, end, true) == LogIntervals(m.logs, end, true)
    ensures EscapedInstants(m', end, true, plannedEnd) == EscapedInstants(m, end, true, plannedEnd)
  {
  }

  lemma TimePasses(room: Room, m: Member, now: int, later: int)
    requires MemberInvariant(room, m, now) && now <= later
    ensures MemberInvariant(room, m, later)
  {
  }

  lemma EscapeStartKeeps(room: Room, m: Member, now: int)
    requires room.phase == Timer && room.endedAt.None? && room.startedAt <= now
    requires MemberInvariant(room, m, now) && m.gaveUpAt.None? && !HasOpen(m.logs)
    ensures MemberInvariant(room, m.(logs := m.logs + [EscapeLog(now, None, None)]), now)
  {
    forall i | 0 <= i < |m.logs| ensures m.logs[i].returnedAt.Some? {
      assert !IsOpen(m.logs[i]);
    }
  }

  /** In an ordered list only the last log can be the open one. */
  lemma OpenIsLast(logs: seq<EscapeLog>, startedAt: int, now: int, i: nat)
    requires LogsInOrder(logs, startedAt, now) && i < |logs| && IsOpen(logs[i])
    ensures i == |logs| - 1
  {
    var lastEscape := logs[|logs| - 1].escapedAt;
  }

  /** At most one log is open, so closing the first open one closes all. */
  lemma CloseFirstIsCloseAll(logs: seq<EscapeLog>, startedAt: int, now: int)
    requires LogsInOrder(logs, startedAt, now)
    ensures CloseFirst(logs, now) == CloseAll(logs, now)
  {
    if HasOpen(logs) {
      var i :| 0 <= i < |logs| && IsOpen(logs[i]);
      OpenIsLast(logs, startedAt, now, i);
      CloseFirstAt(logs, i, now);
      assert forall k :: 0 <= k < i ==> ClosedAt(logs[k], now) == logs[k];
    } else {
      CloseFirstNone(logs, now);
      assert forall k :: 0 <= k < |logs| ==> !IsOpen(logs[k]);
    }
  }

  lemma CloseAllKeepsOrder(logs: seq<EscapeLog>, startedAt: int, now: int)
    requires LogsInOrder(logs, startedAt, now)
    ensures LogsInOrder(CloseAll(logs, now), startedAt, now)
    ensures forall i :: 0 <= i < |logs| ==> CloseAll(logs, now)[i].escapedAt == logs[i].escapedAt
  {
    var closed := CloseAll(logs, now);
    forall i, j | 0 <= i < j < |closed|
      ensures closed[i].returnedAt.Some? && closed[i].returnedAt.value <= closed[j].escapedAt
    {
      var later := logs[j].escapedAt;
      assert logs[i].returnedAt.Some?;
    }
  }

  lemma CloseAllOfClosed(logs: seq<EscapeLog>, now: int)
    requires AllClosed(logs)
    ensures CloseAll(logs, now) == logs
  {
  }

  lemma CloseFirstKeepsOrder(logs: seq<EscapeLog>, startedAt: int, now: int)
    requires LogsInOrder(logs, startedAt, now)
    ensures LogsInOrder(CloseFirst(logs, now), startedAt, now)
    ensures AllClosed(logs) ==> CloseFirst(logs, now) == logs
    ensures forall i :: 0 <= i < |logs| ==> CloseFirst(logs, now)[i].escapedAt == logs[i].escapedAt
    ensures CloseFirst(logs, now) == CloseAll(logs, now)
  {
    CloseFirstIsCloseAll(logs, startedAt, now);
    CloseAllKeepsOrder(logs, startedAt, now);
    if AllClosed(logs) {
      CloseAllOfClosed(logs, now);
    }
  }

  lemma EscapeEndKeeps(room: Room, m: Member, now: int)
    requires MemberInvariant(room, m, now) && m.gaveUpAt.None?
    ensures MemberInvariant(room, m.(logs := CloseFirst(m.logs, now)), now)
  {
    CloseFirstKeepsOrder(m.logs, room.startedAt, now);
    if m.result.Some? {
      assert m.(logs := CloseFirst(m.logs, now)) == m;
    }
  }

  lemma GiveUpKeeps(room: Room, m: Member, now: int)
    requires room.phase == Timer && room.endedAt.None?
    requires MemberInvariant(room, m, now) && m.gaveUpAt.None?
    ensures MemberInvariant(room, m.(logs := CloseAll(m.logs, now), gaveUpAt := Some(now)), now)
  {
    CloseFirstKeepsOrder(m.logs, room.startedAt, now);
  }

  /** Computing the result of a member who gave up makes it exact, and leaves a member
      who has one as is. */
  lemma SettledGiveUpKeeps(room: Room, id: string, m: Member, draws: Draws, now: int)
    requires MemberInvariant(room, m, now) && m.gaveUpAt.Some? && SettledGiveUp(room, id, m, draws).Ok?
    ensures var m' := SettledGiveUp(room, id, m, draws).value;
            && MemberInvariant(room, m', now) && m'.result.Some? && m'.gaveUpAt == m.gaveUpAt
            && (m.result.Some? ==> m' == m)
  {
    var m' := SettledGiveUp(room, id, m, draws).value;
    var end, g := SessionEnd(room), RoomGrid(room);
    SettlingTwice(m.logs, end, false, g);
    if m.result.None? {
      assert FinalResult(room, m', false) == FinalResult(room, m, false);
    }
  }

  lemma SettledStayerExact(room: Room, m: Member, m': Member)
    requires var end, g := SessionEnd(room), RoomGrid(room);
             && m.gaveUpAt.None? && m'.gaveUpAt.None? && m'.logs == SettledLogs(m.logs, end, true, g)
             && m'.result == Some(FinalResult(room, m, true))
    ensures ResultExact(room, m')
  {
    var end, g := SessionEnd(room), RoomGrid(room);
    SettlingTwice(m.logs, end, true, g);
    SameInstants(m, m', end, PlannedEnd(room));
    assert FinalResult(room, m', true) == FinalResult(room, m, true);
  }

  lemma SettledStayerShape(room: Room, id: string, m: Member, draws: Draws)
    requires m.gaveUpAt.None? && m.result.None?
    ensures Settled(room, id, m, draws).Ok?
    ensures var m' := Settled(room, id, m, draws).value;
            && m'.gaveUpAt.None? && m'.logs == SettledLogs(m.logs, SessionEnd(room), true, RoomGrid(room))
            && m'.result == Some(FinalResult(room, m, true))
  {
  }

  lemma SettledStayerInOrder(room: Room, m: Member, now: int)
    requires RoomInvariant(room, now) && room.phase == Result && MemberInvariant(room, m, now)
    ensures var logs := SettledLogs(m.logs, SessionEnd(room), true, RoomGrid(room));
            && LogsInOrder(logs, room.startedAt, now)
            && forall i :: 0 <= i < |logs| ==> logs[i].escapedAt <= SessionEnd(room)
  {
  }

  /** The session-end computation for a member still in. */
  lemma SettledStayerKeeps(room: Room, id: string, m: Member, draws: Draws, now: int)
    requires RoomInvariant(room, now) && room.phase == Result
    requires MemberInvariant(room, m, now) && m.gaveUpAt.None? && m.result.None?
    ensures Settled(room, id, m, draws).Ok?
    ensures var m' := Settled(room, id, m, draws).value;
            MemberInvariant(room, m', now) && m'.result.Some? && m'.gaveUpAt.None?
  {
    SettledStayerShape(room, id, m, draws);
    SettledStayerExact(room, m, Settled(room, id, m, draws).value);
    SettledStayerInOrder(room, m, now);
  }

  /** The session-end computation for a member who gave up: clipping has no effect. */
  lemma SettledLeaverKeeps(room: Room, id: string, m: Member, draws: Draws, now: int)
    requires RoomInvariant(room, now) && room.phase == Result
    requires MemberInvariant(room, m, now) && m.gaveUpAt.Some? && Settled(room, id, m, draws).Ok?
    ensures var m' := Settled(room, id, m, draws).value;
            && MemberInvariant(room, m', now) && m'.result.Some? && m'.gaveUpAt == m.gaveUpAt
            && (m.result.Some? ==> m' == m)
  {
    var m' := Settled(room, id, m, draws).value;
    var end, g := SessionEnd(room), RoomGrid(room);
    ClipIrrelevant(m.logs, end, m.gaveUpAt.value);
    SettlingClipIrrelevant(m.logs, end, m.gaveUpAt.value, g);
    SettlingTwice(m.logs, end, false, g);
    assert FinalResult(room, m, true) == FinalResult(room, m, false);
    assert m'.logs == SettledLogs(m.logs, end, false, g) && m'.gaveUpAt == m.gaveUpAt;
    assert LogIntervals(m'.logs, end, false) == LogIntervals(m.logs, end, false);
    assert FinalResult(room, m', false) == FinalResult(room, m, false);
    assert ResultExact(room, m');
  }

  /** The session-end computation makes every result exact, and leaves members who have
      one as they are, whether or not they gave up. */
  lemma SettledKeeps(room: Room, id: string, m: Member, draws: Draws, now: int)
    requires RoomInvariant(room, now) && room.phase == Result
    requires MemberInvariant(room, m, now) && Settled(room, id, m, draws).Ok?
    ensures var m' := Settled(room, id, m, draws).value;
            && MemberInvariant(room, m', now) && m'.result.Some? && m'.gaveUpAt == m.gaveUpAt
            && (m.result.Some? ==> m' == m)
  {
    if m.gaveUpAt.Some? {
      SettledLeaverKeeps(room, id, m, draws, now);
    } else if m.result.None? {
      SettledStayerKeeps(room, id, m, draws, now);
    }
  }

  /** Setting the end of the session does not disturb results computed before it. */
  lemma EndingKeeps(room: Room, m: Member, now: int)
    requires room.phase == Timer && room.endedAt.None? && MemberInvariant(room, m, now)
    ensures MemberInvariant(room.(phase := Result, endedAt := Some(now)), m, now)
  {
    var ended := room.(phase := Result, endedAt := Some(now));
    if m.result.Some? {
      EndIrrelevantWhenClosed(m.logs, SessionEnd(room), SessionEnd(ended), RoomGrid(room));
      assert FinalResult(ended, m, false) == FinalResult(room, m, false);
    }
  }

  // ----- when the computation succeeds -----

  /** The session-end computation saves results exactly when the tiers have an unlimited
      one or nobody who gave up is still without a result; otherwise nobody gets one. */
  lemma SavesResultsIff(room: Room, draws: Draws)
    ensures SettlesAll(room, draws) <==>
              || PenaltyTiers.HasOpenTier(room.template.tiers)
              || forall id :: id in room.members && room.members[id].gaveUpAt.Some? ==> room.members[id].result.Some?
    ensures !SettlesAll(room, draws) ==> Calculated(room, draws) == room
  {
    PenaltyTiers.ForfeitNeedsOpenTier(room.template.tiers);
  }

  // ----- every step keeps the invariant -----

  /** The same penalties, with reveal flags going up at most. */
  predicate PenaltiesKept(before: map<string, Penalty>, after: map<string, Penalty>) {
    && before.Keys == after.Keys
    && forall c :: c in before ==> after[c].count == before[c].count && (before[c].isRevealed ==> after[c].isRevealed)
  }

  /** The same row up to reveals. */
  predicate SameUpToReveals(m: Member, m': Member) {
    m' == m.(penalties := m'.penalties) && PenaltiesKept(m.penalties, m'.penalties)
  }

  /** Members with a result keep their row up to reveals from one state to the next. */
  ghost predicate ResultsKept(room: Room, after: Room) {
    forall id :: id in room.members && room.members[id].result.Some? && id in after.members ==>
      SameUpToReveals(room.members[id], after.members[id])
  }

  lemma CalculatedMemberKeeps(room: Room, draws: Draws, now: int, id: string)
    requires RoomInvariant(room, now) && room.phase == Result && SettlesAll(room, draws)
    requires id in room.members && MemberInvariant(room, room.members[id], now)
    ensures var after := Calculated(room, draws);
            && MemberInvariant(after, after.members[id], now) && after.members[id].result.Some?
            && (room.members[id].result.Some? ==> after.members[id] == room.members[id])
  {
    SettledKeeps(room, id, room.members[id], draws, now);
    MembersDoNotMatter(room, Calculated(room, draws), Settled(room, id, room.members[id], draws).value, now);
  }

  lemma CalculatedKeeps(room: Room, draws: Draws, now: int)
    requires RoomInvariant(room, now) && room.phase == Result
    requires forall id :: id in room.members ==> MemberInvariant(room, room.members[id], now)
    ensures Invariant(Calculated(room, draws), now) && ResultsKept(room, Calculated(room, draws))
    ensures SettlesAll(room, draws) ==>
              forall id :: id in Calculated(room, draws).members ==> Calculated(room, draws).members[id].result.Some?
  {
    if SettlesAll(room, draws) {
      forall id | id in room.members
        ensures MemberInvariant(Calculated(room, draws), Calculated(room, draws).members[id], now)
        ensures Calculated(room, draws).members[id].result.Some?
        ensures room.members[id].result.Some? ==> Calculated(room, draws).members[id] == room.members[id]
      {
        CalculatedMemberKeeps(room, draws, now, id);
      }
    }
  }

  /** A member's invariant refers to the room only through its phase, times and template. */
  lemma MembersDoNotMatter(room: Room, other: Room, m: Member, now: int)
    requires other == room.(members := other.members)
    ensures MemberInvariant(room, m, now) == MemberInvariant(other, m, now)
  {
    assert RoomGrid(room) == RoomGrid(other);
    assert SessionEnd(room) == SessionEnd(other) && PlannedEnd(room) == PlannedEnd(other);
    var clip := m.gaveUpAt.None?;
    assert FinalResult(room, m, clip) == FinalResult(other, m, clip);
    assert ResultExact(room, m) == ResultExact(other, m);
  }

  lemma EndedKeeps(room: Room, now: int, draws: Draws, fails: bool)
    requires Invariant(room, now)
    ensures Invariant(Ended(room, now, draws, fails), now) && ResultsKept(room, Ended(room, now, draws, fails))
  {
    if room.phase == Timer {
      var ended := room.(phase := Result, endedAt := Some(now));
      forall id | id in room.members ensures MemberInvariant(ended, room.members[id], now) {
        EndingKeeps(room, room.members[id], now);
      }
      CalculatedKeeps(ended, draws, now);
    }
  }

  /** Replacing one member by another that keeps the invariant keeps it for the room. */
  lemma ReplaceKeeps(room: Room, id: string, m: Member, now: int)
    requires RoomInvariant(room, now) && MemberInvariant(room, m, now)
    requires forall other :: other in room.members && other != id ==> MemberInvariant(room, room.members[other], now)
    ensures Invariant(room.(members := room.members[id := m]), now)
  {
    var after := room.(members := room.members[id := m]);
    forall other | other in after.members ensures MemberInvariant(after, after.members[other], now) {
      MembersDoNotMatter(room, after, after.members[other], now);
    }
  }

  lemma CalculatedGiveUpKeeps(room: Room, id: string, draws: Draws, now: int)
    requires Invariant(room, now) && id in room.members && room.members[id].gaveUpAt.Some?
    ensures Invariant(CalculatedGiveUp(room, id, draws), now)
    ensures ResultsKept(room, CalculatedGiveUp(room, id, draws))
  {
    if SettledGiveUp(room, id, room.members[id], draws).Ok? {
      SettledGiveUpKeeps(room, id, room.members[id], draws, now);
      ReplaceKeeps(room, id, SettledGiveUp(room, id, room.members[id], draws).value, now);
    }
  }

  lemma RecordedKeeps(room: Room, id: string, now: int)
    requires Invariant(room, now) && MayGiveUp(room, id)
    ensures Invariant(GiveUpRecorded(room, id, now), now)
    ensures room.members[id].result.None? && ResultsKept(room, GiveUpRecorded(room, id, now))
  {
    var m := room.members[id];
    GiveUpKeeps(room, m, now);
    ReplaceKeeps(room, id, m.(logs := CloseAll(m.logs, now), gaveUpAt := Some(now)), now);
  }

  lemma ResultsKeptTransitive(a: Room, b: Room, c: Room)
    requires ResultsKept(a, b) && ResultsKept(b, c) && c.members.Keys <= b.members.Keys
    ensures ResultsKept(a, c)
  {
    forall id | id in a.members && a.members[id].result.Some? && id in c.members
      ensures SameUpToReveals(a.members[id], c.members[id])
    {
      assert SameUpToReveals(a.members[id], b.members[id]);
      assert SameUpToReveals(b.members[id], c.members[id]);
    }
  }

  /** A give-up up to the point where the session may end. */
  ghost function GaveUpSoFar(room: Room, id: string, now: int, draws: Draws, fails: bool): Room
    requires id in room.members
  {
    var recorded := GiveUpRecorded(room, id, now);
    if fails then recorded else CalculatedGiveUp(recorded, id, draws)
  }

  lemma GaveUpSoFarKeeps(room: Room, id: string, now: int, draws: Draws, fails: bool)
    requires Invariant(room, now) && MayGiveUp(room, id)
    ensures Invariant(GaveUpSoFar(room, id, now, draws, fails), now)
    ensures ResultsKept(room, GaveUpSoFar(room, id, now, draws, fails))
  {
    var recorded := GiveUpRecorded(room, id, now);
    RecordedKeeps(room, id, now);
    if !fails {
      CalculatedGiveUpKeeps(recorded, id, draws, now);
      ResultsKeptTransitive(room, recorded, CalculatedGiveUp(recorded, id, draws));
    }
  }

  lemma GaveUpKeeps(room: Room, id: string, now: int, draws: Draws, fails: bool, endFails: bool)
    requires Invariant(room, now)
    ensures Invariant(GaveUp(room, id, now, draws, fails, endFails), now)
    ensures ResultsKept(room, GaveUp(room, id, now, draws, fails, endFails))
  {
    if MayGiveUp(room, id) {
      var after := GaveUpSoFar(room, id, now, draws, fails);
      GaveUpSoFarKeeps(room, id, now, draws, fails);
      if ActiveMembers(after) == {} {
        EndedKeeps(after, now, draws, endFails);
        EndedKeepsMembers(after, now, draws, endFails);
        ResultsKeptTransitive(room, after, Ended(after, now, draws, endFails));
      }
    }
  }

  lemma EndedKeepsMembers(room: Room, now: int, draws: Draws, fails: bool)
    ensures Ended(room, now, draws, fails).members.Keys == room.members.Keys
  {
  }

  lemma LaterInvariant(room: Room, now: int, later: int)
    requires Invariant(room, now) && now <= later
    ensures Invariant(room, later)
  {
    forall id | id in room.members ensures MemberInvariant(room, room.members[id], later) {
      TimePasses(room, room.members[id], now, later);
    }
  }

  lemma EscapeStartStepKeeps(room: Room, id: string, now: int)
    requires Invariant(room, now)
    ensures Invariant(EscapeStarted(room, id, now), now) && ResultsKept(room, EscapeStarted(room, id, now))
  {
    if room.phase == Timer && id in room.members && room.members[id].gaveUpAt.None? && !HasOpen(room.members[id].logs) {
      var m := room.members[id];
      EscapeStartKeeps(room, m, now);
      ReplaceKeeps(room, id, m.(logs := m.logs + [EscapeLog(now, None, None)]), now);
    }
  }

  lemma EscapeEndInvariant(room: Room, id: string, now: int)
    requires Invariant(room, now) && id in room.members && room.members[id].gaveUpAt.None?
    ensures Invariant(EscapeEnded(room, id, now), now)
  {
    var m := room.members[id];
    EscapeEndKeeps(room, m, now);
    ReplaceKeeps(room, id, m.(logs := CloseFirst(m.logs, now)), now);
  }

  lemma EscapeEndStepKeeps(room: Room, id: string, now: int)
    requires Invariant(room, now)
    ensures Invariant(EscapeEnded(room, id, now), now) && ResultsKept(room, EscapeEnded(room, id, now))
  {
    if id in room.members && room.members[id].gaveUpAt.None? {
      EscapeEndInvariant(room, id, now);
      CloseFirstKeepsOrder(room.members[id].logs, room.startedAt, now);
    }
  }

  lemma KickStepKeeps(room: Room, id: string, now: int)
    requires Invariant(room, now)
    ensures Invariant(Kicked(room, id), now) && ResultsKept(room, Kicked(room, id))
  {
    var after := Kicked(room, id);
    forall other | other in after.members ensures MemberInvariant(after, room.members[other], now) {
      MembersDoNotMatter(room, after, room.members[other], now);
    }
  }

  lemma RecomputedKeeps(room: Room, draws: Draws, now: int)
    requires Invariant(room, now)
    ensures Invariant(Recomputed(room, draws), now) && ResultsKept(room, Recomputed(room, draws))
  {
    if room.phase == Result {
      CalculatedKeeps(room, draws, now);
    }
  }

  lemma RecomputedGiveUpKeeps(room: Room, id: string, draws: Draws, now: int)
    requires Invariant(room, now)
    ensures Invariant(RecomputedGiveUp(room, id, draws), now) && ResultsKept(room, RecomputedGiveUp(room, id, draws))
  {
    if id in room.members && room.members[id].gaveUpAt.Some? && room.members[id].result.None? {
      CalculatedGiveUpKeeps(room, id, draws, now);
    }
  }

  /** The invariant does not speak of penalties. */
  lemma PenaltiesDoNotMatter(room: Room, m: Member, penalties: map<string, Penalty>, now: int)
    requires MemberInvariant(room, m, now)
    ensures MemberInvariant(room, m.(penalties := penalties), now)
  {
    var m' := m.(penalties := penalties);
    assert FinalResult(room, m', m.gaveUpAt.None?) == FinalResult(room, m, m.gaveUpAt.None?);
  }

  lemma RevealedInvariant(room: Room, id: string, now: int)
    requires Invariant(room, now) && id in room.members
    ensures Invariant(Revealed(room, id), now)
  {
    var m := room.members[id];
    PenaltiesDoNotMatter(room, m, AllShown(m.penalties), now);
    ReplaceKeeps(room, id, m.(penalties := AllShown(m.penalties)), now);
  }

  lemma RevealedResultsKept(room: Room, id: string)
    ensures ResultsKept(room, Revealed(room, id))
  {
  }

  lemma RevealedKeeps(room: Room, id: string, now: int)
    requires Invariant(room, now)
    ensures Invariant(Revealed(room, id), now) && ResultsKept(room, Revealed(room, id))
  {
    if id in room.members {
      RevealedInvariant(room, id, now);
    }
    RevealedResultsKept(room, id);
  }

  lemma ClosingDoesNotMatter(room: Room, m: Member, now: int)
    requires room.phase == Timer && MemberInvariant(room, m, now)
    ensures MemberInvariant(room.(phase := Closed), m, now)
  {
    ExactnessIgnoresPhase(room, Closed, m);
  }

  lemma ExactnessIgnoresPhase(room: Room, phase: Phase, m: Member)
    ensures ResultExact(room.(phase := phase), m) == ResultExact(room, m)
  {
    var after := room.(phase := phase);
    assert RoomGrid(after) == RoomGrid(room);
    assert SessionEnd(after) == SessionEnd(room) && PlannedEnd(after) == PlannedEnd(room);
    assert FinalResult(after, m, m.gaveUpAt.None?) == FinalResult(room, m, m.gaveUpAt.None?);
  }

  lemma ClosedDownKeeps(room: Room, now: int)
    requires Invariant(room, now)
    ensures Invariant(ClosedDown(room), now) && ResultsKept(room, ClosedDown(room))
  {
    if ClosedDown(room) != room {
      forall id | id in room.members ensures MemberInvariant(ClosedDown(room), room.members[id], now) {
        ClosingDoesNotMatter(room, room.members[id], now);
      }
    }
  }

  /** Every step keeps the invariant, and leaves members who have a result exactly as
      they are, up to reveals, as long as their row exists. */
  lemma StepKeeps(room: Room, now: int, s: Step)
    requires Invariant(room, now) && now <= s.now
    ensures Invariant(Next(room, s), s.now) && ResultsKept(room, Next(room, s))
  {
    LaterInvariant(room, now, s.now);
    match s.action {
      case EscapeStart(id) => EscapeStartStepKeeps(room, id, s.now);
      case EscapeEnd(id) => EscapeEndStepKeeps(room, id, s.now);
      case GiveUp(id, draws, fails, endFails) => GaveUpKeeps(room, id, s.now, draws, fails, endFails);
      case Kick(id) => KickStepKeeps(room, id, s.now);
      case End(draws, fails) => EndedKeeps(room, s.now, draws, fails);
      case Recompute(draws) => RecomputedKeeps(room, draws, s.now);
      case RecomputeGiveUp(id, draws) => RecomputedGiveUpKeeps(room, id, draws, s.now);
      case Reveal(id) => RevealedKeeps(room, id, s.now);
      case Close => ClosedDownKeeps(room, s.now);
    }
  }

  // ----- whole runs -----

  ghost function Run(room: Room, steps: seq<Step>): Room
    decreases |steps|
  {
    if steps == [] then room else Run(Next(room, steps[0]), steps[1..])
  }

  lemma FreshInvariant(room: Room)
    requires Fresh(room)
    ensures Invariant(room, room.startedAt)
  {
  }

  lemma {:induction false} RunKeeps(room: Room, now: int, steps: seq<Step>)
    requires Invariant(room, now) && ClockRuns(now, steps)
    ensures Invariant(Run(room, steps), FinalClock(now, steps))
    decreases |steps|
  {
    if steps != [] {
      StepKeeps(room, now, steps[0]);
      RunKeeps(Next(room, steps[0]), steps[0].now, steps[1..]);
    }
  }

  /** In every state of every run, each member's logs are ordered and disjoint, at most
      the last one is open, and none is open or ends later once the member gave up. */
  lemma LogsStayOrdered(room: Room, steps: seq<Step>, id: string)
    requires Fresh(room) && ClockRuns(room.startedAt, steps) && id in Run(room, steps).members
    ensures var m := Run(room, steps).members[id];
            && LogsInOrder(m.logs, room.startedAt, FinalClock(room.startedAt, steps))
            && (forall i :: 0 <= i < |m.logs| && IsOpen(m.logs[i]) ==> i == |m.logs| - 1)
            && (m.gaveUpAt.Some? ==> AllClosedBy(m.logs, m.gaveUpAt.value))
  {
    FreshInvariant(room);
    RunKeeps(room, room.startedAt, steps);
    RunKeepsFrame(room, steps);
    var m := Run(room, steps).members[id];
    var now := FinalClock(room.startedAt, steps);
    forall i | 0 <= i < |m.logs| && IsOpen(m.logs[i]) ensures i == |m.logs| - 1 {
      OpenIsLast(m.logs, room.startedAt, now, i);
    }
  }

  lemma {:induction false} RunKeepsFrame(room: Room, steps: seq<Step>)
    ensures Run(room, steps).startedAt == room.startedAt && Run(room, steps).template == room.template
    decreases |steps|
  {
    if steps != [] {
      RunKeepsFrame(Next(room, steps[0]), steps[1..]);
    }
  }

  lemma StepAddsNobody(room: Room, s: Step)
    ensures Next(room, s).members.Keys <= room.members.Keys
  {
  }

  lemma {:induction false} StaysIfLater(room: Room, steps: seq<Step>, id: string)
    requires id in Run(room, steps).members
    ensures id in room.members
    decreases |steps|
  {
    if steps != [] {
      StaysIfLater(Next(room, steps[0]), steps[1..], id);
      StepAddsNobody(room, steps[0]);
    }
  }

  // ----- results are final -----

  /** Once a member has a result, no later step of any run changes the member's total,
      tier, logs, or penalties, except that penalties are revealed. */
  lemma {:induction false} ResultsAreFinal(room: Room, now: int, steps: seq<Step>, id: string)
    requires Invariant(room, now) && ClockRuns(now, steps)
    requires id in room.members && room.members[id].result.Some? && id in Run(room, steps).members
    ensures SameUpToReveals(room.members[id], Run(room, steps).members[id])
    decreases |steps|
  {
    if steps != [] {
      var next := Next(room, steps[0]);
      StepKeeps(room, now, steps[0]);
      StaysIfLater(next, steps[1..], id);
      StepAddsNobody(room, steps[0]);
      assert SameUpToReveals(room.members[id], next.members[id]);
      ResultsAreFinal(next, steps[0].now, steps[1..], id);
    }
  }

  /** A step loses a member's stored result exactly by kicking the member, of whom no log
      exists: result and penalties go with the row. */
  lemma ResultLostIff(room: Room, now: int, s: Step, id: string)
    requires Invariant(room, now) && now <= s.now && id in room.members
    ensures id !in Next(room, s).members <==> s.action == Kick(id) && room.members[id].logs == []
  {
    if !s.action.Kick? {
      StepKeepsMembers(room, s, id);
    }
  }

  lemma StepKeepsMembers(room: Room, s: Step, id: string)
    requires id in room.members && !s.action.Kick?
    ensures id in Next(room, s).members
  {
  }

  predicate KickedIn(steps: seq<Step>, id: string) {
    exists i :: 0 <= i < |steps| && steps[i].action == Kick(id)
  }

  lemma KickedInTail(steps: seq<Step>, id: string)
    requires steps != []
    ensures KickedIn(steps, id) <==> steps[0].action == Kick(id) || KickedIn(steps[1..], id)
  {
    if i :| 0 <= i < |steps| && steps[i].action == Kick(id) {
      assert i > 0 ==> steps[1..][i - 1] == steps[i];
    }
    if j :| 0 <= j < |steps[1..]| && steps[1..][j].action == Kick(id) {
      assert steps[j + 1] == steps[1..][j];
    }
  }

  /** A stored result is there at the end of any run, unless the member, of whom no log
      exists, is kicked; the host can do so also after the end. */
  lemma {:induction false} ResultsStayIff(room: Room, now: int, steps: seq<Step>, id: string)
    requires Invariant(room, now) && ClockRuns(now, steps)
    requires id in room.members && room.members[id].result.Some?
    ensures id !in Run(room, steps).members <==> room.members[id].logs == [] && KickedIn(steps, id)
    decreases |steps|
  {
    if steps != [] {
      var next := Next(room, steps[0]);
      ResultLostIff(room, now, steps[0], id);
      StepKeeps(room, now, steps[0]);
      KickedInTail(steps, id);
      if id in next.members {
        assert SameUpToReveals(room.members[id], next.members[id]);
        ResultsStayIff(next, steps[0].now, steps[1..], id);
      } else if id in Run(room, steps).members {
        StaysIfLater(next, steps[1..], id);
        assert false;
      }
    }
  }

  /** The result stored when a member gives up is the one the session-end computation
      arrives at, however early or late the session ends. */
  lemma GiveUpResultAgreesAtEnd(room: Room, now: int, id: string)
    requires Invariant(room, now) && room.phase == Result
    requires id in room.members && room.members[id].gaveUpAt.Some? && room.members[id].result.Some?
    ensures room.members[id].result == Some(FinalResult(room, room.members[id], true))
  {
    ClipIrrelevant(room.members[id].logs, SessionEnd(room), room.members[id].gaveUpAt.value);
  }

  // ----- the total of a give-up is fixed at giving up -----

  /** The same give-up time and the same closed escapes, durations aside. */
  predicate SameEscapes(m: Member, m': Member) {
    && m'.gaveUpAt == m.gaveUpAt && |m'.logs| == |m.logs|
    && forall i :: 0 <= i < |m.logs| ==>
         && m.logs[i].returnedAt.Some?
         && m'.logs[i].escapedAt == m.logs[i].escapedAt && m'.logs[i].returnedAt == m.logs[i].returnedAt
  }

  lemma SameEscapesSameResult(room: Room, later: Room, m: Member, m': Member)
    requires later.startedAt == room.startedAt && later.template == room.template
    requires SameEscapes(m, m') && m.gaveUpAt.Some?
    ensures FinalResult(later, m', false) == FinalResult(room, m, false)
  {
    assert LogIntervals(m'.logs, SessionEnd(later), false) == LogIntervals(m.logs, SessionEnd(room), false);
    assert EscapedInstants(m', SessionEnd(later), false, PlannedEnd(later))
        == EscapedInstants(m, SessionEnd(room), false, PlannedEnd(room));
  }

  lemma SettlingSameEscapes(m: Member, m': Member, end: int, clip: bool, g: Grid)
    requires AllClosed(m.logs) && m'.gaveUpAt == m.gaveUpAt && m'.logs == SettledLogs(m.logs, end, clip, g)
    ensures SameEscapes(m, m')
  {
  }

  predicate IsQuiet(a: Action) { a.EscapeStart? || a.EscapeEnd? || a.Kick? || a.Reveal? || a.Close? }

  /** These steps leave the row of a member who gave up alone, up to reveals. */
  lemma QuietKeepsGaveUp(room: Room, s: Step, id: string)
    requires IsQuiet(s.action)
    requires id in room.members && room.members[id].gaveUpAt.Some? && id in Next(room, s).members
    ensures Next(room, s).members[id].gaveUpAt == room.members[id].gaveUpAt
    ensures Next(room, s).members[id].logs == room.members[id].logs
  {
  }

  lemma StepSameEscapes(room: Room, now: int, s: Step, id: string)
    requires Invariant(room, now) && now <= s.now
    requires id in room.members && room.members[id].gaveUpAt.Some? && id in Next(room, s).members
    ensures SameEscapes(room.members[id], Next(room, s).members[id])
  {
    assert AllClosed(room.members[id].logs) by {
      assert AllClosedBy(room.members[id].logs, room.members[id].gaveUpAt.value);
    }
    match s.action {
      case GiveUp(other, draws, fails, endFails) =>
        GaveUpSameEscapes(room, now, other, s.now, draws, fails, endFails, id);
      case End(draws, fails) => CalculatedSameEscapes(room.(phase := Result, endedAt := Some(s.now)), draws, id);
      case Recompute(draws) => CalculatedSameEscapes(room, draws, id);
      case RecomputeGiveUp(other, draws) => CalculatedGiveUpSameEscapes(room, other, draws, id);
      case _ => QuietKeepsGaveUp(room, s, id);
    }
  }

  lemma CalculatedSameEscapes(room: Room, draws: Draws, id: string)
    requires id in room.members && AllClosed(room.members[id].logs)
    ensures SameEscapes(room.members[id], Calculated(room, draws).members[id])
  {
    if SettlesAll(room, draws) {
      var m := room.members[id];
      var m' := Settled(room, id, m, draws).value;
      if m' != m {
        SettlingSameEscapes(m, m', SessionEnd(room), true, RoomGrid(room));
      }
    }
  }

  lemma CalculatedGiveUpSameEscapes(room: Room, other: string, draws: Draws, id: string)
    requires id in room.members && AllClosed(room.members[id].logs)
    ensures SameEscapes(room.members[id], CalculatedGiveUp(room, other, draws).members[id])
  {
    var m := room.members[id];
    if other == id && SettledGiveUp(room, id, m, draws).Ok? {
      SettlingSameEscapes(m, SettledGiveUp(room, id, m, draws).value, SessionEnd(room), false, RoomGrid(room));
    }
  }

  lemma GaveUpSameEscapes(room: Room, now: int, other: string, at: int, draws: Draws, fails: bool, endFails: bool,
                          id: string)
    requires Invariant(room, now) && now <= at
    requires id in room.members && room.members[id].gaveUpAt.Some? && AllClosed(room.members[id].logs)
    ensures id in GaveUp(room, other, at, draws, fails, endFails).members
    ensures SameEscapes(room.members[id], GaveUp(room, other, at, draws, fails, endFails).members[id])
  {
    if MayGiveUp(room, other) {
      var recorded := GiveUpRecorded(room, other, at);
      assert recorded.members[id] == room.members[id];
      CalculatedGiveUpSameEscapes(recorded, other, draws, id);
      var after := if fails then recorded else CalculatedGiveUp(recorded, other, draws);
      CalculatedSameEscapes(after.(phase := Result, endedAt := Some(at)), draws, id);
    }
  }

  lemma {:induction false} RunSameEscapes(room: Room, now: int, steps: seq<Step>, id: string)
    requires Invariant(room, now) && ClockRuns(now, steps)
    requires id in Run(room, steps).members && id in room.members && room.members[id].gaveUpAt.Some?
    ensures SameEscapes(room.members[id], Run(room, steps).members[id])
    decreases |steps|
  {
    if steps == [] {
      assert AllClosedBy(room.members[id].logs, room.members[id].gaveUpAt.value);
    } else {
      var next := Next(room, steps[0]);
      StaysIfLater(next, steps[1..], id);
      StepSameEscapes(room, now, steps[0], id);
      StepKeeps(room, now, steps[0]);
      RunSameEscapes(next, steps[0].now, steps[1..], id);
      SameEscapesTransitive(room.members[id], next.members[id], Run(next, steps[1..]).members[id]);
    }
  }

  lemma SameEscapesTransitive(a: Member, b: Member, c: Member)
    requires SameEscapes(a, b) && SameEscapes(b, c)
    ensures SameEscapes(a, c)
  {
    forall i | 0 <= i < |a.logs|
      ensures a.logs[i].returnedAt.Some?
      ensures c.logs[i].escapedAt == a.logs[i].escapedAt && c.logs[i].returnedAt == a.logs[i].returnedAt
    {
      assert b.logs[i].escapedAt == a.logs[i].escapedAt && b.logs[i].returnedAt == a.logs[i].returnedAt;
    }
  }

  /** Any later state of a member who gave up, compared with the state at giving up. */
  lemma GiveUpFixesResult(recorded: Room, later: Room, now: int, id: string)
    requires id in recorded.members && recorded.members[id].gaveUpAt.Some? && id in later.members
    requires later.startedAt == recorded.startedAt && later.template == recorded.template
    requires SameEscapes(recorded.members[id], later.members[id]) && Invariant(later, now)
    ensures later.members[id].result.Some? ==>
              && later.members[id].result == Some(FinalResult(recorded, recorded.members[id], false))
              && (later.phase == Result ==>
                    later.members[id].result == Some(FinalResult(later, later.members[id], true)))
  {
    SameEscapesSameResult(recorded, later, recorded.members[id], later.members[id]);
    if later.members[id].result.Some? {
      assert ResultExact(later, later.members[id]);
      if later.phase == Result {
        GiveUpResultAgreesAtEnd(later, now, id);
      }
    }
  }

  /** Whenever the result of a member who gives up is computed, at once, from the roulette
      page, at the session end or later, and however the session ends: its total and tier
      are those that follow from the state at giving up.  Once the session is over, the
      session-end computation gives the same. */
  lemma GiveUpThenAnyEnding(room: Room, now: int, id: string, at: int, draws: Draws, fails: bool, endFails: bool,
                            steps: seq<Step>)
    requires Invariant(room, now) && now <= at && MayGiveUp(room, id)
    requires var after := Next(room, Timed(at, GiveUp(id, draws, fails, endFails)));
             ClockRuns(at, steps) && id in Run(after, steps).members
    ensures var recorded := GiveUpRecorded(room, id, at);
            var end := Run(Next(room, Timed(at, GiveUp(id, draws, fails, endFails))), steps);
            && end.members[id].gaveUpAt == Some(at)
            && (end.members[id].result.Some? ==>
                  && end.members[id].result == Some(FinalResult(recorded, recorded.members[id], false))
                  && (end.phase == Result ==> end.members[id].result == Some(FinalResult(end, end.members[id], true))))
  {
    var step := Timed(at, GiveUp(id, draws, fails, endFails));
    var after := Next(room, step);
    LaterInvariant(room, now, at);
    GiveUpKeepsEscapes(room, id, at, draws, fails, endFails);
    StepKeeps(room, now, step);
    NextTemplate(room, step);
    RunSameEscapes(after, at, steps, id);
    RunKeeps(after, at, steps);
    RunKeepsFrame(after, steps);
    SameEscapesTransitive(GiveUpRecorded(room, id, at).members[id], after.members[id], Run(after, steps).members[id]);
    GiveUpFixesResult(GiveUpRecorded(room, id, at), Run(after, steps), FinalClock(at, steps), id);
  }

  lemma GaveUpSoFarEscapes(room: Room, id: string, at: int, draws: Draws, fails: bool)
    requires Invariant(room, at) && MayGiveUp(room, id)
    ensures AllClosed(GiveUpRecorded(room, id, at).members[id].logs)
    ensures id in GaveUpSoFar(room, id, at, draws, fails).members
    ensures SameEscapes(GiveUpRecorded(room, id, at).members[id], GaveUpSoFar(room, id, at, draws, fails).members[id])
  {
    var recorded := GiveUpRecorded(room, id, at);
    RecordedKeeps(room, id, at);
    var m := recorded.members[id];
    assert AllClosed(m.logs) by { assert AllClosedBy(m.logs, m.gaveUpAt.value); }
    CalculatedGiveUpSameEscapes(recorded, id, draws, id);
  }

  lemma GiveUpKeepsEscapes(room: Room, id: string, at: int, draws: Draws, fails: bool, endFails: bool)
    requires Invariant(room, at) && MayGiveUp(room, id)
    ensures id in GaveUp(room, id, at, draws, fails, endFails).members
    ensures SameEscapes(GiveUpRecorded(room, id, at).members[id],
                        GaveUp(room, id, at, draws, fails, endFails).members[id])
  {
    var after := GaveUpSoFar(room, id, at, draws, fails);
    GaveUpSoFarEscapes(room, id, at, draws, fails);
    if ActiveMembers(after) == {} && !endFails {
      var ended := after.(phase := Result, endedAt := Some(at));
      CalculatedSameEscapes(ended, draws, id);
      SameEscapesTransitive(GiveUpRecorded(room, id, at).members[id], after.members[id],
                            Calculated(ended, draws).members[id]);
    }
  }

  // ----- who has a result -----

  /** Who has a result if no computation failed and the tiers have an unlimited one. */
  predicate Complete(room: Room) {
    forall id :: id in room.members ==>
      (room.members[id].result.Some? <==> room.members[id].gaveUpAt.Some? || room.phase == Result)
  }

  predicate FaultFree(steps: seq<Step>) {
    forall i :: 0 <= i < |steps| ==> NoFault(steps[i].action)
  }

  predicate NoFault(a: Action) {
    match a
    case GiveUp(_, _, fails, endFails) => !fails && !endFails
    case End(_, fails) => !fails
    case _ => true
  }

  lemma CompleteStep(room: Room, now: int, s: Step)
    requires Invariant(room, now) && now <= s.now && Complete(room) && NoFault(s.action)
    requires PenaltyTiers.HasOpenTier(room.template.tiers)
    ensures Complete(Next(room, s))
  {
    PenaltyTiers.ForfeitNeedsOpenTier(room.template.tiers);
    LaterInvariant(room, now, s.now);
    match s.action {
      case GiveUp(id, draws, _, _) => GaveUpComplete(room, id, s.now, draws);
      case End(draws, _) => EndedComplete(room, s.now, draws);
      case Recompute(draws) => if room.phase == Result { CalculatedComplete(room, draws); }
      case RecomputeGiveUp(_, _) =>
      case _ => CompleteQuiet(room, s);
    }
  }

  lemma CompleteQuiet(room: Room, s: Step)
    requires Complete(room) && IsQuiet(s.action)
    ensures Complete(Next(room, s))
  {
    var after := Next(room, s);
    forall id | id in after.members
      ensures after.members[id].gaveUpAt == room.members[id].gaveUpAt
      ensures after.members[id].result == room.members[id].result
    {
    }
  }

  lemma CalculatedComplete(room: Room, draws: Draws)
    requires PenaltyTiers.HasOpenTier(room.template.tiers) && room.phase == Result
    ensures Complete(Calculated(room, draws))
  {
    SavesResultsIff(room, draws);
  }

  lemma EndedComplete(room: Room, now: int, draws: Draws)
    requires PenaltyTiers.HasOpenTier(room.template.tiers) && Complete(room)
    ensures Complete(Ended(room, now, draws, false))
  {
    if room.phase != Result && room.phase != Closed {
      CalculatedComplete(room.(phase := Result, endedAt := Some(now)), draws);
    }
  }

  lemma GaveUpComplete(room: Room, id: string, now: int, draws: Draws)
    requires PenaltyTiers.HasOpenTier(room.template.tiers) && Complete(room)
    ensures Complete(GaveUp(room, id, now, draws, false, false))
  {
    if MayGiveUp(room, id) {
      PenaltyTiers.ForfeitNeedsOpenTier(room.template.tiers);
      var after := CalculatedGiveUp(GiveUpRecorded(room, id, now), id, draws);
      assert Complete(after);
      EndedComplete(after, now, draws);
    }
  }

  lemma {:induction false} CompleteRun(room: Room, now: int, steps: seq<Step>)
    requires Invariant(room, now) && ClockRuns(now, steps) && Complete(room) && FaultFree(steps)
    requires PenaltyTiers.HasOpenTier(room.template.tiers)
    ensures Complete(Run(room, steps))
    decreases |steps|
  {
    if steps != [] {
      assert NoFault(steps[0].action);
      CompleteStep(room, now, steps[0]);
      StepKeeps(room, now, steps[0]);
      NextTemplate(room, steps[0]);
      forall i | 0 <= i < |steps[1..]| ensures NoFault(steps[1..][i].action) {
        assert steps[1..][i] == steps[i + 1];
      }
      CompleteRun(Next(room, steps[0]), steps[0].now, steps[1..]);
    }
  }

  lemma NextTemplate(room: Room, s: Step)
    ensures Next(room, s).template == room.template && Next(room, s).startedAt == room.startedAt
  {
  }

  /** In every run: only those who gave up have a result before the end, and every result
      is exact.  With an unlimited tier, one look at the result page after the end gives
      everybody a result, whatever failed before; and without failures exactly those who
      gave up, and after the end everybody, have one already. */
  lemma EveryRunResults(room: Room, steps: seq<Step>, draws: Draws)
    requires Fresh(room) && ClockRuns(room.startedAt, steps)
    ensures var end := Run(room, steps);
            forall id :: id in end.members && end.members[id].result.Some? ==>
              && (end.members[id].gaveUpAt.Some? || end.phase == Result)
              && ResultExact(end, end.members[id])
    ensures PenaltyTiers.HasOpenTier(room.template.tiers) ==>
              var end := Run(room, steps);
              && (end.phase == Result ==>
                    forall id :: id in Recomputed(end, draws).members ==>
                      Recomputed(end, draws).members[id].result.Some?)
              && (FaultFree(steps) ==> Complete(end))
  {
    FreshInvariant(room);
    RunKeeps(room, room.startedAt, steps);
    RunKeepsFrame(room, steps);
    var end := Run(room, steps);
    if PenaltyTiers.HasOpenTier(room.template.tiers) {
      if end.phase == Result {
        SavesResultsIff(end, draws);
        CalculatedKeeps(end, draws, FinalClock(room.startedAt, steps));
      }
      if FaultFree(steps) {
        CompleteRun(room, room.startedAt, steps);
      }
    }
  }

  // ----- without an unlimited tier -----

  /** No result can be stored for anybody while somebody who gave up is in the room. */
  ghost predicate NoResults(room: Room) {
    forall id :: id in room.members ==> room.members[id].result.None?
  }

  predicate SomeoneGaveUp(room: Room) {
    exists id :: id in room.members && room.members[id].gaveUpAt.Some?
  }

  /** Without an unlimited tier nobody who gave up has a result, and as long as somebody
      who gave up is in the room nobody has. */
  ghost predicate Blocked(room: Room) {
    && (forall id :: id in room.members && room.members[id].gaveUpAt.Some? ==> room.members[id].result.None?)
    && (SomeoneGaveUp(room) ==> NoResults(room))
  }

  lemma BlockedCalculated(room: Room, draws: Draws)
    requires !PenaltyTiers.HasOpenTier(room.template.tiers) && Blocked(room)
    ensures Blocked(Calculated(room, draws))
  {
    SavesResultsIff(room, draws);
    if SettlesAll(room, draws) {
      assert !SomeoneGaveUp(room);
      assert forall id :: id in room.members ==> room.members[id].gaveUpAt.None?;
    }
  }

  lemma BlockedEnded(room: Room, now: int, draws: Draws, fails: bool)
    requires !PenaltyTiers.HasOpenTier(room.template.tiers) && Blocked(room)
    ensures Blocked(Ended(room, now, draws, fails))
  {
    if room.phase != Result && room.phase != Closed {
      var ended := room.(phase := Result, endedAt := Some(now));
      assert Blocked(ended);
      BlockedCalculated(ended, draws);
    }
  }

  lemma BlockedGaveUp(room: Room, before: int, id: string, now: int, draws: Draws, fails: bool, endFails: bool)
    requires Invariant(room, before) && !PenaltyTiers.HasOpenTier(room.template.tiers) && Blocked(room)
    ensures Blocked(GaveUp(room, id, now, draws, fails, endFails))
  {
    if MayGiveUp(room, id) {
      PenaltyTiers.ForfeitNeedsOpenTier(room.template.tiers);
      var recorded := GiveUpRecorded(room, id, now);
      assert CalculatedGiveUp(recorded, id, draws) == recorded;
      forall other | other in recorded.members ensures recorded.members[other].result.None? {
        assert room.members[other].result.None? by {
          assert MemberInvariant(room, room.members[other], before);
        }
      }
      assert Blocked(recorded);
      BlockedEnded(recorded, now, draws, endFails);
    }
  }

  lemma BlockedStep(room: Room, now: int, s: Step)
    requires Invariant(room, now) && !PenaltyTiers.HasOpenTier(room.template.tiers) && Blocked(room)
    ensures Blocked(Next(room, s))
  {
    PenaltyTiers.ForfeitNeedsOpenTier(room.template.tiers);
    match s.action {
      case GiveUp(id, draws, fails, endFails) => BlockedGaveUp(room, now, id, s.now, draws, fails, endFails);
      case End(draws, fails) => BlockedEnded(room, s.now, draws, fails);
      case Recompute(draws) => BlockedCalculated(room, draws);
      case _ => BlockedQuiet(room, s);
    }
  }

  lemma BlockedQuiet(room: Room, s: Step)
    requires !PenaltyTiers.HasOpenTier(room.template.tiers) && Blocked(room)
    requires !s.action.GiveUp? && !s.action.End? && !s.action.Recompute?
    ensures Blocked(Next(room, s))
  {
    PenaltyTiers.ForfeitNeedsOpenTier(room.template.tiers);
    var after := Next(room, s);
    forall id | id in after.members
      ensures after.members[id].gaveUpAt == room.members[id].gaveUpAt
      ensures after.members[id].result == room.members[id].result
    {
    }
  }

  lemma {:induction false} BlockedRun(room: Room, now: int, steps: seq<Step>)
    requires Invariant(room, now) && ClockRuns(now, steps)
    requires !PenaltyTiers.HasOpenTier(room.template.tiers) && Blocked(room)
    ensures Blocked(Run(room, steps))
    decreases |steps|
  {
    if steps != [] {
      BlockedStep(room, now, steps[0]);
      StepKeeps(room, now, steps[0]);
      NextTemplate(room, steps[0]);
      BlockedRun(Next(room, steps[0]), steps[0].now, steps[1..]);
    }
  }

  /** Without an unlimited tier, in every run: as long as somebody who gave up has a row
      nobody has a result; and once the session is over, looking at the result page gives
      everybody a result if and only if nobody in the room has given up. */
  lemma OneGiveUpBlocksResults(room: Room, steps: seq<Step>, draws: Draws)
    requires Fresh(room) && ClockRuns(room.startedAt, steps) && !PenaltyTiers.HasOpenTier(room.template.tiers)
    ensures var end := Run(room, steps);
            && (SomeoneGaveUp(end) ==> NoResults(end) && Recomputed(end, draws) == end)
            && (end.phase == Result ==>
                  ((forall id :: id in Recomputed(end, draws).members ==>
                      Recomputed(end, draws).members[id].result.Some?)
                   <==> !SomeoneGaveUp(end)))
  {
    FreshInvariant(room);
    BlockedRun(room, room.startedAt, steps);
    RunKeeps(room, room.startedAt, steps);
    RunKeepsFrame(room, steps);
    var end := Run(room, steps);
    SavesResultsIff(end, draws);
    if SomeoneGaveUp(end) {
      var id :| id in end.members && end.members[id].gaveUpAt.Some?;
      assert end.members[id].result.None?;
    } else if end.phase == Result {
      CalculatedKeeps(end, draws, FinalClock(room.startedAt, steps));
    }
  }

  // ----- computing twice -----

  /** Running the session-end computation again changes nothing, in any room whose end
      is set, whatever is drawn the second time. */
  lemma CalculationIdempotent(room: Room, draws: Draws, again: Draws)
    requires room.endedAt.Some?
    ensures Calculated(Calculated(room, draws), again) == Calculated(room, draws)
  {
    var once := Calculated(room, draws);
    SavesResultsIff(room, draws);
    SavesResultsIff(room, again);
    if SettlesAll(room, draws) {
      forall id | id in room.members
        ensures Settled(once, id, once.members[id], again) == Ok(once.members[id])
      {
        SettlingTwice(room.members[id].logs, SessionEnd(room), true, RoomGrid(room));
        SettledTwice(room, once, id, room.members[id], draws, again);
      }
      assert SettlesAll(once, again);
      assert Calculated(once, again).members == once.members;
    }
  }

  lemma SettledTwice(room: Room, once: Room, id: string, m: Member, draws: Draws, again: Draws)
    requires once == room.(members := once.members) && Settled(room, id, m, draws).Ok?
    ensures var m' := Settled(room, id, m, draws).value;
            Settled(once, id, m', again) == Ok(m')
  {
    if m.gaveUpAt.Some? {
      var m' := Settled(room, id, m, draws).value;
      var end, g := SessionEnd(room), RoomGrid(room);
      assert SessionEnd(once) == end && RoomGrid(once) == g && PlannedEnd(once) == PlannedEnd(room);
      SettlingTwice(m.logs, end, true, g);
      assert m'.logs == SettledLogs(m.logs, end, true, g) && m'.result == Some(FinalResult(room, m, true));
      SameInstants(m, m', end, PlannedEnd(room));
      assert FinalResult(once, m', true) == FinalResult(room, m, true);
    }
  }

  // ----- totals and stored durations -----

  function DurationSum(logs: seq<EscapeLog>): nat {
    if logs == [] then 0
    else
      var last := logs[|logs| - 1].durationMs;
      DurationSum(logs[..|logs| - 1]) + if last.Some? && last.value >= 0 then last.value else 0
  }

  lemma {:induction false} OrderedCoverageSum(logs: seq<EscapeLog>, ends: seq<Interval>, g: Grid)
    requires |ends| == |logs|
    requires forall i :: 0 <= i < |logs| ==> logs[i].durationMs == Some(FocusMsIn(Range(ends[i].start, ends[i].end), g))
    requires forall i, j :: 0 <= i < j < |ends| ==> ends[i].end <= ends[j].start
    ensures FocusMsIn(Covered(ends), g) == DurationSum(logs)
  {
    if logs != [] {
      var n := |logs| - 1;
      OrderedCoverageSum(logs[..n], ends[..n], g);
      forall t | t in Covered(ends[..n]) ensures t < ends[n].start {
        CoveredIff(ends[..n], t);
      }
      FocusMsDisjointSum(Covered(ends[..n]), Range(ends[n].start, ends[n].end), g);
    } else {
      assert Covered(ends) * FocusTimes(g) == {};
    }
  }

  /** Settled durations add up to the coverage of the logs. */
  lemma DurationsCover(room: Room, now: int, m: Member)
    requires MemberInvariant(room, m, now) && m.result.Some?
    ensures FocusMsIn(Covered(LogIntervals(m.logs, SessionEnd(room), m.gaveUpAt.None?)), RoomGrid(room))
         == DurationSum(m.logs)
  {
    var clip, g := m.gaveUpAt.None?, RoomGrid(room);
    var s := LogIntervals(m.logs, SessionEnd(room), clip);
    forall i | 0 <= i < |m.logs| ensures m.logs[i].durationMs == Some(FocusMsIn(Range(s[i].start, s[i].end), g)) {
      assert m.logs[i] == SettledLog(m.logs[i], SessionEnd(room), clip, g);
    }
    forall i, j | 0 <= i < j < |s| ensures s[i].end <= s[j].start {
      assert m.logs[i].returnedAt.value <= m.logs[j].escapedAt;
    }
    OrderedCoverageSum(m.logs, s, g);
  }

  lemma CoveredBefore(logs: seq<EscapeLog>, end: int, t: int, u: int)
    requires AllClosedBy(logs, t) && u in Covered(LogIntervals(logs, end, false))
    ensures u < t
  {
    CoveredIff(LogIntervals(logs, end, false), u);
  }

  /** Escapes before giving up and the time after it do not overlap. */
  lemma GiveUpTimeIsSeparate(room: Room, m: Member)
    requires m.gaveUpAt.Some? && AllClosedBy(m.logs, m.gaveUpAt.value)
    ensures FinalTotal(room, m, false)
         == FocusMsIn(Covered(LogIntervals(m.logs, SessionEnd(room), false)), RoomGrid(room))
          + FocusMsIn(Range(m.gaveUpAt.value, PlannedEnd(room)), RoomGrid(room))
  {
    var before := Covered(LogIntervals(m.logs, SessionEnd(room), false));
    forall u | u in before ensures u < m.gaveUpAt.value {
      CoveredBefore(m.logs, SessionEnd(room), m.gaveUpAt.value, u);
    }
    FocusMsDisjointSum(before, Range(m.gaveUpAt.value, PlannedEnd(room)), RoomGrid(room));
  }

  /** A saved total is the sum of the stored durations and, for a member who gave up, all
      focus time from giving up to the planned end. */
  lemma TotalIsSumOfDurations(room: Room, now: int, m: Member)
    requires MemberInvariant(room, m, now) && m.result.Some?
    ensures m.result.value.totalEscapeMs
         == DurationSum(m.logs)
          + if m.gaveUpAt.Some? then FocusMsIn(Range(m.gaveUpAt.value, PlannedEnd(room)), RoomGrid(room)) else 0
  {
    DurationsCover(room, now, m);
    if m.gaveUpAt.Some? {
      GiveUpTimeIsSeparate(room, m);
    } else {
      var s := LogIntervals(m.logs, SessionEnd(room), true);
      assert EscapedInstants(m, SessionEnd(room), true, PlannedEnd(room)) == Covered(s);
    }
  }

  // ----- the live summary -----

  /** Later logs cover at least what earlier ones covered. */
  predicate LogsExtend(logs: seq<EscapeLog>, t: int, later: seq<EscapeLog>, t': int) {
    && |logs| <= |later|
    && forall i :: 0 <= i < |logs| ==>
         later[i].escapedAt == logs[i].escapedAt && LogEnd(logs[i], t, false) <= LogEnd(later[i], t', false)
  }

  lemma ExtendedLogsCoverMore(m: Member, t: int, m': Member, t': int, g: Grid)
    requires LogsExtend(m.logs, t, m'.logs, t')
    ensures FocusMsIn(LiveInstants(m, t), g) <= FocusMsIn(LiveInstants(m', t'), g)
  {
    var s, s' := LogIntervals(m.logs, t, false), LogIntervals(m'.logs, t', false);
    forall x | x in Covered(s) ensures x in Covered(s') {
      CoveredIff(s, x);
      var iv :| iv in s && iv.start <= x < iv.end;
      var i :| 0 <= i < |s| && s[i] == iv;
      CoveredIff(s', x);
      assert s'[i] in s';
    }
    FocusMsMonotone(LiveInstants(m, t), LiveInstants(m', t'), g);
  }

  lemma ClosingExtends(logs: seq<EscapeLog>, now: int, t: int, t': int, end: int, g: Grid)
    requires t <= now
    requires forall i :: 0 <= i < |logs| && logs[i].returnedAt.None? ==> logs[i].escapedAt <= now
    ensures LogsExtend(logs, t, CloseAll(logs, now), t')
    ensures LogsExtend(logs, t, SettledLogs(CloseAll(logs, now), end, false, g), t')
  {
    var closed := CloseAll(logs, now);
    var settled := SettledLogs(closed, end, false, g);
    forall i | 0 <= i < |logs|
      ensures closed[i].escapedAt == settled[i].escapedAt == logs[i].escapedAt
      ensures LogEnd(logs[i], t, false) <= LogEnd(closed[i], t', false) == LogEnd(settled[i], t', false)
    {
      assert closed[i] == ClosedAt(logs[i], now);
      assert settled[i] == SettledLog(closed[i], end, false, g);
    }
  }

  lemma GiveUpExtendsLogs(room: Room, s: Step, id: string, t: int, t': int)
    requires Invariant(room, s.now) && t <= s.now <= t' && s.action.GiveUp?
    requires id in room.members && Next(room, s).phase == Timer
    ensures id in Next(room, s).members
    ensures LogsExtend(room.members[id].logs, t, Next(room, s).members[id].logs, t')
  {
    var other := s.action.id;
    if MayGiveUp(room, other) {
      assert Next(room, s) == GaveUpSoFar(room, other, s.now, s.action.draws, s.action.fails);
      if id == other {
        SoFarExtends(room, id, s.now, s.action.draws, s.action.fails, t, t');
      }
    }
  }

  lemma SoFarExtends(room: Room, id: string, now: int, draws: Draws, fails: bool, t: int, t': int)
    requires Invariant(room, now) && MayGiveUp(room, id) && t <= now <= t'
    ensures LogsExtend(room.members[id].logs, t, GaveUpSoFar(room, id, now, draws, fails).members[id].logs, t')
  {
    var recorded := GiveUpRecorded(room, id, now);
    assert MemberInvariant(room, room.members[id], now);
    ClosingExtends(room.members[id].logs, now, t, t', SessionEnd(recorded), RoomGrid(recorded));
  }

  lemma EscapeEndExtendsLogs(room: Room, now: int, other: string, id: string, t: int, t': int)
    requires Invariant(room, now) && t <= now <= t' && id in room.members
    ensures LogsExtend(room.members[id].logs, t, EscapeEnded(room, other, now).members[id].logs, t')
  {
    CloseFirstKeepsOrder(room.members[id].logs, room.startedAt, now);
  }

  lemma StepExtendsLogs(room: Room, now: int, s: Step, id: string, t: int, t': int)
    requires Invariant(room, now) && now <= t <= s.now <= t'
    requires id in room.members && id in Next(room, s).members && Next(room, s).phase == Timer
    ensures LogsExtend(room.members[id].logs, t, Next(room, s).members[id].logs, t')
  {
    LaterInvariant(room, now, s.now);
    match s.action {
      case EscapeEnd(other) => EscapeEndExtendsLogs(room, s.now, other, id, t, t');
      case GiveUp(_, _, _, _) => GiveUpExtendsLogs(room, s, id, t, t');
      case RecomputeGiveUp(_, _) => RecomputeExtendsLogs(room, s, id, t, t');
      case _ => OtherStepsExtendLogs(room, s, id, t, t');
    }
  }

  lemma RecomputeExtendsLogs(room: Room, s: Step, id: string, t: int, t': int)
    requires s.action.RecomputeGiveUp? && t <= t' && id in room.members && Invariant(room, s.now)
    ensures id in Next(room, s).members
    ensures LogsExtend(room.members[id].logs, t, Next(room, s).members[id].logs, t')
  {
    if s.action.id == id && room.members[id].gaveUpAt.Some? {
      assert AllClosedBy(room.members[id].logs, room.members[id].gaveUpAt.value);
    }
  }

  lemma OtherStepsExtendLogs(room: Room, s: Step, id: string, t: int, t': int)
    requires t <= t' && id in room.members && id in Next(room, s).members && Next(room, s).phase == Timer
    requires !s.action.EscapeEnd? && !s.action.GiveUp? && !s.action.RecomputeGiveUp?
    ensures LogsExtend(room.members[id].logs, t, Next(room, s).members[id].logs, t')
  {
  }

  /** As long as the timer runs, no step and no passing of time lowers a member's live
      total. */
  lemma {:induction false} LiveTotalNeverDrops(room: Room, now: int, steps: seq<Step>, id: string, t': int)
    requires Invariant(room, now) && ClockRuns(now, steps) && FinalClock(now, steps) <= t'
    requires id in Run(room, steps).members && Run(room, steps).phase == Timer
    ensures id in room.members
    ensures LiveTotal(room, room.members[id], now) <= LiveTotal(Run(room, steps), Run(room, steps).members[id], t')
    decreases |steps|
  {
    StaysIfLater(room, steps, id);
    if steps == [] {
      ExtendedLogsCoverMore(room.members[id], now, room.members[id], t', RoomGrid(room));
    } else {
      var next, s := Next(room, steps[0]), steps[0];
      StaysIfLater(next, steps[1..], id);
      StepKeeps(room, now, s);
      TimerWasOn(next, steps[1..]);
      LiveTotalNeverDrops(next, s.now, steps[1..], id, t');
      StepExtendsLogs(room, now, s, id, now, s.now);
      ExtendedLogsCoverMore(room.members[id], now, next.members[id], s.now, RoomGrid(room));
      RunKeepsFrame(room, [s]);
    }
  }

  lemma {:induction false} TimerWasOn(room: Room, steps: seq<Step>)
    requires Run(room, steps).phase == Timer
    ensures room.phase == Timer
    decreases |steps|
  {
    if steps != [] {
      TimerWasOn(Next(room, steps[0]), steps[1..]);
    }
  }

  /** In the result phase a member who stayed keeps the same escapes as far as the session
      reached, even when an open log is closed late. */
  lemma StayerStep(room: Room, now: int, s: Step, id: string)
    requires Invariant(room, now) && now <= s.now && room.phase == Result
    requires id in room.members && room.members[id].gaveUpAt.None? && id in Next(room, s).members
    ensures Next(room, s).phase == Result && Next(room, s).endedAt == room.endedAt
    ensures Next(room, s).members[id].gaveUpAt.None?
    ensures LogIntervals(Next(room, s).members[id].logs, room.endedAt.value, true)
         == LogIntervals(room.members[id].logs, room.endedAt.value, true)
  {
    match s.action {
      case EscapeEnd(_) => StayerReturns(room, now, s, id);
      case Recompute(draws) => SettlingTwice(room.members[id].logs, room.endedAt.value, true, RoomGrid(room));
      case _ => StayerUntouched(room, s, id);
    }
  }

  lemma StayerUntouched(room: Room, s: Step, id: string)
    requires room.phase == Result && !s.action.EscapeEnd? && !s.action.Recompute?
    requires id in room.members && room.members[id].gaveUpAt.None? && id in Next(room, s).members
    ensures Next(room, s).phase == Result && Next(room, s).endedAt == room.endedAt
    ensures Next(room, s).members[id].gaveUpAt.None?
    ensures Next(room, s).members[id].logs == room.members[id].logs
  {
  }

  lemma StayerReturns(room: Room, now: int, s: Step, id: string)
    requires Invariant(room, now) && now <= s.now && room.phase == Result && s.action.EscapeEnd?
    requires id in room.members && room.members[id].gaveUpAt.None?
    ensures Next(room, s).phase == Result && Next(room, s).endedAt == room.endedAt && id in Next(room, s).members
    ensures Next(room, s).members[id].gaveUpAt.None?
    ensures LogIntervals(Next(room, s).members[id].logs, room.endedAt.value, true)
         == LogIntervals(room.members[id].logs, room.endedAt.value, true)
  {
    var m, end := room.members[id], room.endedAt.value;
    LaterInvariant(room, now, s.now);
    CloseFirstKeepsOrder(m.logs, room.startedAt, s.now);
    ClosingLateKeepsClipped(m.logs, s.now, end);
  }

  lemma ClosingLateKeepsClipped(logs: seq<EscapeLog>, now: int, end: int)
    requires end <= now
    ensures LogIntervals(CloseAll(logs, now), end, true) == LogIntervals(logs, end, true)
  {
    assert forall i :: 0 <= i < |logs| ==> LogEnd(ClosedAt(logs[i], now), end, true) == LogEnd(logs[i], end, true);
  }

  lemma {:induction false} StayerRun(room: Room, now: int, steps: seq<Step>, id: string)
    requires Invariant(room, now) && ClockRuns(now, steps) && room.phase == Result
    requires id in room.members && room.members[id].gaveUpAt.None? && id in Run(room, steps).members
    ensures Run(room, steps).phase == Result && Run(room, steps).endedAt == room.endedAt
    ensures Run(room, steps).members[id].gaveUpAt.None?
    ensures LogIntervals(Run(room, steps).members[id].logs, room.endedAt.value, true)
         == LogIntervals(room.members[id].logs, room.endedAt.value, true)
    decreases |steps|
  {
    if steps != [] {
      StaysIfLater(Next(room, steps[0]), steps[1..], id);
      StepKeeps(room, now, steps[0]);
      StayerStep(room, now, steps[0], id);
      StayerRun(Next(room, steps[0]), steps[0].now, steps[1..], id);
    }
  }

  /** For a member still in when the session ends, the live total at that instant is the
      total that is saved, whenever it is computed. */
  lemma LiveTotalIsSavedAtEnd(room: Room, now: int, end: int, draws: Draws, fails: bool, steps: seq<Step>, id: string)
    requires Invariant(room, now) && room.phase == Timer && now <= end
    requires id in room.members && room.members[id].gaveUpAt.None?
    requires ClockRuns(end, steps) && id in Run(Ended(room, end, draws, fails), steps).members
    ensures var later := Run(Ended(room, end, draws, fails), steps);
            later.members[id].result.Some? ==>
              later.members[id].result.value.totalEscapeMs == LiveTotal(room, room.members[id], end)
  {
    var ended := Ended(room, end, draws, fails);
    LaterInvariant(room, now, end);
    EndedKeeps(room, end, draws, fails);
    StaysIfLater(ended, steps, id);
    EndedSameEscapes(room, end, draws, fails, id);
    StayerRun(ended, end, steps, id);
    RunKeeps(ended, end, steps);
    RunKeepsFrame(ended, steps);
    var later := Run(ended, steps);
    if later.members[id].result.Some? {
      assert ResultExact(later, later.members[id]);
      SavedIsLive(room, later, room.members[id], later.members[id], end);
    }
  }

  lemma EndedSameEscapes(room: Room, end: int, draws: Draws, fails: bool, id: string)
    requires Invariant(room, end) && room.phase == Timer && id in room.members && room.members[id].gaveUpAt.None?
    ensures var ended := Ended(room, end, draws, fails);
            && id in ended.members && ended.members[id].gaveUpAt.None?
            && ended.phase == Result && ended.endedAt == Some(end)
            && ended.startedAt == room.startedAt && ended.template == room.template
            && LogIntervals(ended.members[id].logs, end, true) == LogIntervals(room.members[id].logs, end, true)
  {
    SettlingTwice(room.members[id].logs, end, true, RoomGrid(room));
  }

  lemma SavedIsLive(room: Room, later: Room, m: Member, m': Member, end: int)
    requires LogsInOrder(m.logs, room.startedAt, end) && m'.gaveUpAt.None? && later.endedAt == Some(end)
    requires later.startedAt == room.startedAt && later.template == room.template
    requires LogIntervals(m'.logs, end, true) == LogIntervals(m.logs, end, true)
    ensures FinalResult(later, m', true).totalEscapeMs == LiveTotal(room, m, end)
  {
    assert LogIntervals(m.logs, end, true) == LogIntervals(m.logs, end, false);
    assert EscapedInstants(m', end, true, PlannedEnd(later)) == LiveInstants(m, end);
  }
}
