/** What each step of a session does, told by what is stored before and after it, and what
    the stored totals, tiers and durations mean. */
module EscapeEffects {
  import opened Clock
  import opened Wrappers
  import opened Timeline
  import opened EscapeIntervals
  import opened Phases
  import opened EscapeSession
  import opened EscapeRuns
  import PenaltyTiers
  import Roulette

  /** At most this member is stored differently. */
  predicate OnlyMember(room: Room, after: Room, id: string) {
    && after.phase == room.phase && after.startedAt == room.startedAt && after.endedAt == room.endedAt
    && after.template == room.template && after.members.Keys == room.members.Keys
    && forall other :: other in room.members && other != id ==> after.members[other] == room.members[other]
  }

  /** At most the members' logs, results and penalties are stored differently. */
  predicate SameFrame(room: Room, after: Room) {
    && after.startedAt == room.startedAt && after.template == room.template
    && after.members.Keys == room.members.Keys
    && forall id :: id in room.members ==> after.members[id].gaveUpAt == room.members[id].gaveUpAt
  }

  predicate NoneOpen(logs: seq<EscapeLog>) { forall i :: 0 <= i < |logs| ==> logs[i].returnedAt.Some? }

  // ----- escape start and end -----

  /** A return closes the member's open log at that instant and changes nothing else. */
  lemma ReturnClosesEscape(room: Room, before: int, id: string, now: int)
    requires Invariant(room, before) && before <= now && id in room.members && room.members[id].gaveUpAt.None?
    ensures var after := Next(room, Timed(now, EscapeEnd(id)));
            && OnlyMember(room, after, id)
            && var m, m' := room.members[id], after.members[id];
            && m' == m.(logs := m'.logs) && |m'.logs| == |m.logs| && NoneOpen(m'.logs)
            && forall i :: 0 <= i < |m.logs| ==>
                 m'.logs[i] == if m.logs[i].returnedAt.Some? then m.logs[i]
                               else EscapeLog(m.logs[i].escapedAt, Some(now), Some(now - m.logs[i].escapedAt))
  {
    var m := room.members[id];
    LaterInvariant(room, before, now);
    assert MemberInvariant(room, m, now);
    ClosesOpen(m.logs, room.startedAt, now);
  }

  lemma ClosesOpen(logs: seq<EscapeLog>, startedAt: int, now: int)
    requires LogsInOrder(logs, startedAt, now)
    ensures var closed := CloseFirst(logs, now);
            && |closed| == |logs| && NoneOpen(closed)
            && forall i :: 0 <= i < |logs| ==>
                 closed[i] == if logs[i].returnedAt.Some? then logs[i]
                              else EscapeLog(logs[i].escapedAt, Some(now), Some(now - logs[i].escapedAt))
  {
    CloseFirstIsCloseAll(logs, startedAt, now);
  }

  /** From then on the live total stands still at what it was on returning. */
  lemma ReturnStopsTotal(room: Room, before: int, id: string, now: int, t: int)
    requires Invariant(room, before) && before <= now <= t && id in room.members && room.members[id].gaveUpAt.None?
    ensures var after := Next(room, Timed(now, EscapeEnd(id)));
            id in after.members && LiveTotal(after, after.members[id], t) == LiveTotal(room, room.members[id], now)
  {
    ReturnClosesEscape(room, before, id, now);
    var after := Next(room, Timed(now, EscapeEnd(id)));
    assert LogIntervals(after.members[id].logs, t, false) == LogIntervals(room.members[id].logs, now, false);
  }

  /** Nobody else's return does anything. */
  lemma ReturnIgnored(room: Room, id: string, now: int)
    requires id !in room.members || room.members[id].gaveUpAt.Some?
    ensures Next(room, Timed(now, EscapeEnd(id))) == room
  {
  }

  /** In the timer phase a member still in, without an open log, gets one more log, open
      from that instant on; an escape start changes nothing else, and nothing otherwise. */
  lemma EscapeOpensLog(room: Room, id: string, now: int)
    ensures var after := Next(room, Timed(now, EscapeStart(id)));
            if room.phase == Timer && id in room.members && room.members[id].gaveUpAt.None?
               && NoneOpen(room.members[id].logs)
            then
              && OnlyMember(room, after, id)
              && after.members[id] == room.members[id].(logs := room.members[id].logs + [EscapeLog(now, None, None)])
            else after == room
  {
  }

  /** From then on every focus instant counts. */
  lemma EscapeRunsTotal(room: Room, before: int, id: string, now: int, t: int)
    requires Invariant(room, before) && before <= now <= t && room.phase == Timer
    requires id in room.members && room.members[id].gaveUpAt.None? && NoneOpen(room.members[id].logs)
    ensures var after := Next(room, Timed(now, EscapeStart(id)));
            && id in after.members
            && LiveTotal(after, after.members[id], t)
               == LiveTotal(room, room.members[id], now) + FocusMsIn(Range(now, t), RoomGrid(room))
  {
    var m := room.members[id];
    var after := Next(room, Timed(now, EscapeStart(id)));
    EscapeOpensLog(room, id, now);
    assert MemberInvariant(room, m, before);
    var earlier := LogIntervals(m.logs, now, false);
    assert LogIntervals(after.members[id].logs, t, false) == earlier + [Interval(now, t)];
    CoveredSnoc(earlier, Interval(now, t));
    forall u | u in Covered(earlier) ensures u < now {
      CoveredIff(earlier, u);
    }
    FocusMsDisjointSum(Covered(earlier), Range(now, t), RoomGrid(room));
  }

  // ----- giving up -----

  predicate MemberIsActive(room: Room, id: string) { id in room.members && room.members[id].gaveUpAt.None? }

  /** Same escapes, those that were open closed at the given instant. */
  predicate ClosedBy(logs: seq<EscapeLog>, after: seq<EscapeLog>, now: int) {
    && |after| == |logs|
    && forall i :: 0 <= i < |logs| ==>
         && after[i].escapedAt == logs[i].escapedAt
         && after[i].returnedAt == if logs[i].returnedAt.Some? then logs[i].returnedAt else Some(now)
  }

  lemma CloseAllCloses(logs: seq<EscapeLog>, now: int)
    ensures ClosedBy(logs, CloseAll(logs, now), now) && NoneOpen(CloseAll(logs, now))
  {
  }

  lemma SettlingKeepsEscapes(logs: seq<EscapeLog>, end: int, clip: bool, g: Grid)
    ensures ClosedBy(logs, SettledLogs(logs, end, clip, g), end)
  {
  }

  lemma ClosedTwice(a: seq<EscapeLog>, b: seq<EscapeLog>, c: seq<EscapeLog>, now: int, later: int)
    requires ClosedBy(a, b, now) && ClosedBy(b, c, later)
    ensures ClosedBy(a, c, now)
  {
  }

  /** Giving up is for members of a running session who have not done so; it is recorded
      with its instant whatever computation fails, and ends the escape the member is in. */
  lemma GiveUpRecords(room: Room, id: string, now: int, draws: Draws, fails: bool, endFails: bool)
    ensures var after := Next(room, Timed(now, GiveUp(id, draws, fails, endFails)));
            if room.phase == Timer && MemberIsActive(room, id) then
              && after.members.Keys == room.members.Keys
              && after.members[id].gaveUpAt == Some(now)
              && ClosedBy(room.members[id].logs, after.members[id].logs, now)
              && (forall other :: other in room.members && other != id ==>
                    after.members[other].gaveUpAt == room.members[other].gaveUpAt)
            else after == room
  {
    if MayGiveUp(room, id) {
      var soFar := GaveUpSoFar(room, id, now, draws, fails);
      SoFarRecords(room, id, now, draws, fails);
      if ActiveMembers(soFar) == {} {
        EndCloses(soFar, now, draws, endFails, id);
        ClosedTwice(room.members[id].logs, soFar.members[id].logs, Ended(soFar, now, draws, endFails).members[id].logs,
                    now, now);
      }
    }
  }

  /** What the give-up transaction and the computation after it leave of the member. */
  predicate RecordedFor(room: Room, after: Room, id: string, now: int)
    requires id in room.members
  {
    && OnlyMember(room, after, id) && after.members[id].gaveUpAt == Some(now)
    && ClosedBy(room.members[id].logs, after.members[id].logs, now) && NoneOpen(after.members[id].logs)
  }

  lemma TransactionRecords(room: Room, id: string, now: int)
    requires id in room.members
    ensures RecordedFor(room, GiveUpRecorded(room, id, now), id, now)
  {
    CloseAllCloses(room.members[id].logs, now);
  }

  /** A give-up computation keeps the times of closed logs. */
  lemma ComputationKeepsTimes(room: Room, id: string, draws: Draws)
    requires id in room.members && NoneOpen(room.members[id].logs)
    ensures var after := CalculatedGiveUp(room, id, draws);
            && OnlyMember(room, after, id) && after.members[id].gaveUpAt == room.members[id].gaveUpAt
            && ClosedBy(room.members[id].logs, after.members[id].logs, 0) && NoneOpen(after.members[id].logs)
  {
    SettlingKeepsEscapes(room.members[id].logs, SessionEnd(room), false, RoomGrid(room));
  }

  lemma SoFarRecords(room: Room, id: string, now: int, draws: Draws, fails: bool)
    requires MayGiveUp(room, id)
    ensures RecordedFor(room, GaveUpSoFar(room, id, now, draws, fails), id, now)
  {
    var recorded := GiveUpRecorded(room, id, now);
    TransactionRecords(room, id, now);
    if !fails {
      ComputationKeepsTimes(recorded, id, draws);
      ClosedTwice(room.members[id].logs, recorded.members[id].logs,
                  CalculatedGiveUp(recorded, id, draws).members[id].logs, now, 0);
    }
  }

  /** While somebody else is active the session goes on and nobody else is touched; the
      last one to give up ends the session at that instant. */
  lemma LastGiveUpEnds(room: Room, id: string, now: int, draws: Draws, fails: bool, endFails: bool)
    requires room.phase == Timer && MemberIsActive(room, id)
    ensures var after := Next(room, Timed(now, GiveUp(id, draws, fails, endFails)));
            if exists other :: other != id && MemberIsActive(room, other) then OnlyMember(room, after, id)
            else after.phase == Result && after.endedAt == Some(now)
  {
    var soFar := GaveUpSoFar(room, id, now, draws, fails);
    if other :| other != id && MemberIsActive(room, other) {
      assert other in ActiveMembers(soFar);
    } else if ActiveMembers(soFar) != {} {
      var other :| other in ActiveMembers(soFar);
      assert other != id && MemberIsActive(room, other);
    }
  }

  // ----- the end -----

  lemma CalculatedCloses(room: Room, draws: Draws, id: string)
    requires id in room.members
    ensures SameFrame(room, Calculated(room, draws))
    ensures var m' := Calculated(room, draws).members[id];
            m'.logs == room.members[id].logs || ClosedBy(room.members[id].logs, m'.logs, SessionEnd(room))
  {
    SettlingKeepsEscapes(room.members[id].logs, SessionEnd(room), true, RoomGrid(room));
  }

  /** Ending closes each log that is still open at the end, or not at all. */
  lemma EndCloses(room: Room, now: int, draws: Draws, fails: bool, id: string)
    requires room.phase == Timer && id in room.members
    ensures var after := Ended(room, now, draws, fails);
            && SameFrame(room, after)
            && (after.members[id].logs == room.members[id].logs
                || ClosedBy(room.members[id].logs, after.members[id].logs, now))
            && (NoneOpen(room.members[id].logs) ==> ClosedBy(room.members[id].logs, after.members[id].logs, now))
  {
    CalculatedCloses(room.(phase := Result, endedAt := Some(now)), draws, id);
  }

  /** Ending a running session records phase and instant, whether or not the computation
      fails, and touches nothing but logs, results and penalties; it does nothing to a
      session that is over. */
  lemma EndRecords(room: Room, now: int, draws: Draws, fails: bool)
    requires Rank(room.phase) >= Rank(Timer)
    ensures var after := Next(room, Timed(now, End(draws, fails)));
            if room.phase == Timer then
              && after.phase == Result && after.endedAt == Some(now) && SameFrame(room, after)
              && (fails ==> after.members == room.members)
            else after == room
  {
  }

  /** When the computation at the end succeeds, as it does with an unlimited tier, every log
      still open is closed at the end, the others keep their times, and all have a result. */
  lemma EndComputes(room: Room, before: int, now: int, draws: Draws, id: string)
    requires Invariant(room, before) && before <= now && room.phase == Timer && id in room.members
    requires PenaltyTiers.HasOpenTier(room.template.tiers)
    ensures var after := Next(room, Timed(now, End(draws, false)));
            && id in after.members && after.members[id].result.Some?
            && ClosedBy(room.members[id].logs, after.members[id].logs, now)
  {
    EndSettles(room, now, draws, id);
    assert MemberInvariant(room, room.members[id], before);
    SettledCloses(room.(phase := Result, endedAt := Some(now)), id, room.members[id], draws);
  }

  lemma EndSettles(room: Room, now: int, draws: Draws, id: string)
    requires room.phase == Timer && id in room.members && PenaltyTiers.HasOpenTier(room.template.tiers)
    ensures var ended, after := room.(phase := Result, endedAt := Some(now)), Next(room, Timed(now, End(draws, false)));
            && id in after.members && Settled(ended, id, room.members[id], draws) == Ok(after.members[id])
  {
    SavesResultsIff(room.(phase := Result, endedAt := Some(now)), draws);
  }

  lemma SettledCloses(room: Room, id: string, m: Member, draws: Draws)
    requires Settled(room, id, m, draws).Ok? && (m.result.Some? ==> m.gaveUpAt.Some?)
    ensures var m' := Settled(room, id, m, draws).value;
            m'.result.Some? && ClosedBy(m.logs, m'.logs, SessionEnd(room))
  {
    SettlingKeepsEscapes(m.logs, SessionEnd(room), true, RoomGrid(room));
  }

  /** An assignment keeps the stored penalties and adds each other content that was drawn,
      with the number of draws that hit it and the given flag. */
  lemma AssignmentAdds(existing: map<string, Penalty>, pool: seq<string>, count: nat, draw: nat -> nat, revealed: bool,
                       c: string)
    ensures var after := Assigned(existing, pool, count, draw, revealed);
            && (c in after <==> c in existing || (pool != [] && Roulette.Hits(pool, count, draw, c) > 0))
            && (c in existing ==> after[c] == existing[c])
            && (c in after && c !in existing ==> after[c] == Penalty(Roulette.Hits(pool, count, draw, c), revealed))
  {
    if pool != [] {
      Roulette.TallyCountsHits(pool, count, draw, c);
    }
  }

  // ----- kicks, reveals, the page and the cleanup -----

  /** A kick takes the member out, row, result and penalties, if no log exists. */
  lemma KickRemoves(room: Room, id: string, now: int)
    ensures var after := Next(room, Timed(now, Kick(id)));
            && after == room.(members := after.members)
            && (forall other :: other in after.members <==>
                  other in room.members && !(other == id && |room.members[id].logs| == 0))
            && forall other :: other in after.members ==> after.members[other] == room.members[other]
  {
  }

  /** A reveal shows every penalty of the member, keeping contents and counts. */
  lemma RevealShows(room: Room, id: string, now: int)
    ensures var after := Next(room, Timed(now, Reveal(id)));
            && OnlyMember(room, after, id)
            && (id in room.members ==>
                  var m, m' := room.members[id], after.members[id];
                  && m' == m.(penalties := m'.penalties) && m'.penalties.Keys == m.penalties.Keys
                  && forall c :: c in m.penalties ==> m'.penalties[c] == Penalty(m.penalties[c].count, true))
  {
  }

  /** The cleanup closes a running session exactly if nobody is active in it. */
  lemma CloseIff(room: Room, now: int)
    ensures var after := Next(room, Timed(now, Close));
            && after == room.(phase := after.phase)
            && after.phase
               == if room.phase == Timer && !(exists id :: MemberIsActive(room, id)) then Closed else room.phase
  {
    if id :| MemberIsActive(room, id) {
      assert id in ActiveMembers(room);
    } else if ActiveMembers(room) != {} {
      var id :| id in ActiveMembers(room);
      assert MemberIsActive(room, id);
    }
  }

  /** The result page computes in the result phase only, and then gives everybody a result
      if a tier is unlimited. */
  lemma PageComputes(room: Room, id: string, draws: Draws, now: int)
    requires PenaltyTiers.HasOpenTier(room.template.tiers) && id in room.members
    ensures var after := Next(room, Timed(now, Recompute(draws)));
            && after.phase == room.phase && after.endedAt == room.endedAt && SameFrame(room, after)
            && if room.phase == Result then after.members[id].result.Some? else after == room
  {
    if room.phase == Result {
      CalculatedCloses(room, draws, id);
      CalculatedGivesResult(room, draws, id);
    }
  }

  lemma CalculatedGivesResult(room: Room, draws: Draws, id: string)
    requires PenaltyTiers.HasOpenTier(room.template.tiers) && id in room.members
    ensures id in Calculated(room, draws).members && Calculated(room, draws).members[id].result.Some?
  {
    SavesResultsIff(room, draws);
    assert Calculated(room, draws).members[id] == Settled(room, id, room.members[id], draws).value;
    SettledHasResult(room, id, room.members[id], draws);
  }

  lemma SettledHasResult(room: Room, id: string, m: Member, draws: Draws)
    requires Settled(room, id, m, draws).Ok?
    ensures Settled(room, id, m, draws).value.result.Some?
  {
  }

  /** The roulette page computes only for a member who gave up and has no result. */
  lemma RoulettePageComputes(room: Room, id: string, draws: Draws, now: int)
    requires PenaltyTiers.HasOpenTier(room.template.tiers) && id in room.members
    ensures var after := Next(room, Timed(now, RecomputeGiveUp(id, draws)));
            && OnlyMember(room, after, id)
            && if room.members[id].gaveUpAt.Some? && room.members[id].result.None?
               then after.members[id].result.Some? else after == room
  {
    PenaltyTiers.ForfeitNeedsOpenTier(room.template.tiers);
  }

  // ----- what the stored numbers mean -----

  /** Instant t lies in the escape, which ends at the given instant if it is open. */
  predicate InEscape(log: EscapeLog, end: int, t: int) {
    log.escapedAt <= t && t < (if log.returnedAt.Some? then log.returnedAt.value else end)
  }

  ghost predicate InSomeEscape(logs: seq<EscapeLog>, end: int, t: int) {
    exists i :: 0 <= i < |logs| && InEscape(logs[i], end, t)
  }

  /** The number of instants with the property is the given one. */
  ghost predicate Counts(n: nat, p: int -> bool) { exists s: set<int> :: |s| == n && forall t :: t in s <==> p(t) }

  lemma CoveredIffInEscape(logs: seq<EscapeLog>, end: int, clip: bool, t: int)
    ensures t in Covered(LogIntervals(logs, end, clip)) <==> InSomeEscape(logs, end, t) && (clip ==> t < end)
  {
    var s := LogIntervals(logs, end, clip);
    CoveredIff(s, t);
    if InSomeEscape(logs, end, t) && (clip ==> t < end) {
      var i :| 0 <= i < |logs| && InEscape(logs[i], end, t);
      assert s[i] in s && s[i].start <= t < s[i].end;
    }
    if iv :| iv in s && iv.start <= t < iv.end {
      var i :| 0 <= i < |s| && s[i] == iv;
      assert InEscape(logs[i], end, t);
    }
  }

  lemma FocusMsCounts(times: set<int>, g: Grid, p: int -> bool)
    requires forall t :: p(t) <==> t in times && InFocus(g, t)
    ensures Counts(FocusMsIn(times, g), p)
  {
    forall t ensures t in times * FocusTimes(g) <==> p(t) {
      FocusTimesIff(g, t);
    }
  }

  /** The live total is the number of instants in focus windows that lie in an escape of
      the member, an open one lasting until now. */
  lemma LiveTotalCounts(room: Room, m: Member, now: int)
    ensures Counts(LiveTotal(room, m, now), t => InFocus(RoomGrid(room), t) && InSomeEscape(m.logs, now, t))
  {
    var p := t => InFocus(RoomGrid(room), t) && InSomeEscape(m.logs, now, t);
    forall t ensures p(t) <==> t in LiveInstants(m, now) && InFocus(RoomGrid(room), t) {
      CoveredIffInEscape(m.logs, now, false, t);
    }
    FocusMsCounts(LiveInstants(m, now), RoomGrid(room), p);
  }

  /** The instants that count for a stored total: in a focus window, and in an escape up to
      the session's end or, for a member who gave up, in an escape or after giving up and
      before the planned end. */
  ghost predicate CountsForTotal(room: Room, m: Member, end: int, t: int) {
    && InFocus(RoomGrid(room), t)
    && if m.gaveUpAt.Some?
       then InSomeEscape(m.logs, end, t) || m.gaveUpAt.value <= t < room.startedAt + SessionMs(room.template.plan)
       else InSomeEscape(m.logs, end, t) && t < end
  }

  /** Every stored total counts what it should; the stored tier is the one that the tiers
      give for it. */
  lemma StoredResultMeans(room: Room, now: int, id: string)
    requires Invariant(room, now) && id in room.members && room.members[id].result.Some?
    ensures var m := room.members[id];
            && NoneOpen(m.logs)
            && Counts(m.result.value.totalEscapeMs, t => CountsForTotal(room, m, SessionEnd(room), t))
            && m.result.value.penaltyTier
               == PenaltyTiers.CalculatePenaltyTier(m.result.value.totalEscapeMs, room.template.plan.focusMin,
                                                    room.template.plan.rounds, room.template.tiers).penaltyTier
  {
    assert MemberInvariant(room, room.members[id], now);
    TotalCounts(room, room.members[id]);
  }

  lemma TotalCounts(room: Room, m: Member)
    ensures Counts(FinalTotal(room, m, m.gaveUpAt.None?), t => CountsForTotal(room, m, SessionEnd(room), t))
  {
    var end := SessionEnd(room);
    var clip := m.gaveUpAt.None?;
    var times := EscapedInstants(m, end, clip, PlannedEnd(room));
    var p := t => CountsForTotal(room, m, end, t);
    forall t ensures p(t) <==> t in times && InFocus(RoomGrid(room), t) {
      CoveredIffInEscape(m.logs, end, clip, t);
    }
    FocusMsCounts(times, RoomGrid(room), p);
  }

  /** For a contract whose tiers are validated, nondecreasing and open-ended the stored tier
      is the one tier whose range holds the escaped share. */
  lemma StoredTierCovers(room: Room, now: int, id: string) returns (i: nat)
    requires Invariant(room, now) && id in room.members && room.members[id].result.Some?
    requires PenaltyTiers.Contiguous(room.template.tiers) && PenaltyTiers.Nondecreasing(room.template.tiers)
    requires PenaltyTiers.StartsAtZero(room.template.tiers) && PenaltyTiers.OpenEnded(room.template.tiers)
    requires room.template.plan.focusMin * room.template.plan.rounds > 0
    ensures var tiers, r := room.template.tiers, room.members[id].result.value;
            var focus := room.template.plan.focusMin * room.template.plan.rounds * 60000;
            && i < |tiers| && r.penaltyTier == tiers[i].tier
            && PenaltyTiers.Covers(tiers[i], r.totalEscapeMs, focus)
            && forall j :: 0 <= j < |tiers| && PenaltyTiers.Covers(tiers[j], r.totalEscapeMs, focus) ==> j == i
  {
    StoredResultMeans(room, now, id);
    i := PenaltyTiers.ChargedExactly(room.members[id].result.value.totalEscapeMs, room.template.plan.focusMin,
                                     room.template.plan.rounds, room.template.tiers);
  }

  /** The stored duration of each log of a member with a result counts its focus instants,
      for a member who stayed only those before the end. */
  lemma StoredDurationMeans(room: Room, now: int, id: string, k: nat)
    requires Invariant(room, now) && id in room.members && room.members[id].result.Some?
    requires k < |room.members[id].logs|
    ensures var m := room.members[id];
            var log := m.logs[k];
            && log.durationMs.Some? && log.durationMs.value >= 0
            && Counts(log.durationMs.value, t => InFocus(RoomGrid(room), t) && InEscape(log, SessionEnd(room), t)
                                                && (m.gaveUpAt.None? ==> t < SessionEnd(room)))
  {
    var m := room.members[id];
    assert MemberInvariant(room, m, now);
    assert m.logs[k] == SettledLog(m.logs[k], SessionEnd(room), m.gaveUpAt.None?, RoomGrid(room));
    DurationCounts(m.logs[k], SessionEnd(room), m.gaveUpAt.None?, RoomGrid(room));
  }

  lemma DurationCounts(log: EscapeLog, end: int, clip: bool, g: Grid)
    ensures Counts(FocusMsIn(Range(log.escapedAt, LogEnd(log, end, clip)), g),
                   t => InFocus(g, t) && InEscape(log, end, t) && (clip ==> t < end))
  {
    var times := Range(log.escapedAt, LogEnd(log, end, clip));
    var p := t => InFocus(g, t) && InEscape(log, end, t) && (clip ==> t < end);
    forall t ensures t in times <==> InEscape(log, end, t) && (clip ==> t < end) {
    }
    FocusMsCounts(times, g, p);
  }
}
