/** Whole lives of rooms.

    The module proves, for every run, whatever kicks fail half way, that the cached state
    covers the rows, that phases only move forward, when the room's queued jobs are due,
    that a restart recovers exactly the jobs still ahead, which jobs a finished session
    leaves queued, and when a session can be left without anybody in it. */
module RoomProtocol {
  import opened Wrappers
  import opened Timeline
  import opened Phases
  import opened SessionJobs
  import opened RoomOperations

  function Run(w: World, ops: seq<Op>): World
    decreases |ops|
  {
    if ops == [] then w else Run(Next(w, ops[0]), ops[1..])
  }

  // ----- the invariant -----

  /** A cached member with a row agrees with it; one without is not the host. */
  predicate EntryFits(w: World, id: string, m: CachedMember) {
    if id in w.rows then m.isHost == w.rows[id].isHost && m.gaveUpAt == w.rows[id].gaveUpAt
    else !m.isHost && id != w.hostId
  }

  /** The cached state exists until closing; until then it agrees with the room and has an
      entry for each row, and it may have others. */
  predicate CacheCovers(w: World) {
    && (w.cache.None? <==> w.phase == Closed)
    && (w.cache.Some? ==>
          && w.cache.value.hostId == w.hostId && w.cache.value.phase == w.phase
          && w.rows.Keys <= w.cache.value.members.Keys
          && forall id :: id in w.cache.value.members ==> EntryFits(w, id, w.cache.value.members[id]))
  }

  predicate Membership(w: World) {
    && |w.rows| <= MAX_MEMBERS
    && w.rows.Keys !! w.bans && w.hostId !in w.bans
    && forall id :: id in w.rows ==>
         && (w.rows[id].isHost <==> id == w.hostId)
         && (w.rows[id].gaveUpAt.Some? || w.rows[id].hasLogs ==> Rank(w.phase) >= Rank(Timer))
  }

  /** A planned job of the room's session, queued for the instant the plan gives it. */
  predicate OnTime(w: World, j: SessionJob, due: int) {
    && w.plan.Some? && w.startedAt.Some? && IsPlanned(w.code, w.plan.value, j)
    && due == w.startedAt.value + JobOffset(w.plan.value, j)
  }

  /** The room's queued jobs: none before the session, and otherwise only reveal jobs and
      planned jobs, these on time. */
  predicate JobsAccounted(w: World) {
    && (w.phase == Timer ==> w.plan.Some? && w.startedAt.Some?)
    && (w.plan.Some? ==> WithinRequestBounds(w.plan.value))
    && forall j :: j in w.jobs && j.roomCode == w.code ==>
         && Rank(w.phase) >= Rank(Timer)
         && (j.RevealPenalties? || OnTime(w, j, w.jobs[j]))
  }

  predicate CleanupSafe(w: World) { w.cleanupPending ==> ConnectedMembers(w) == {} }

  /** The end is recorded exactly in the result phase. */
  predicate EndRecorded(w: World) { w.endedAt.Some? <==> w.phase == Phase.Result }

  predicate Invariant(w: World) {
    CacheCovers(w) && Membership(w) && JobsAccounted(w) && CleanupSafe(w) && EndRecorded(w)
  }

  /** A step of the same room that keeps the invariant and never moves its phase back. */
  predicate Advances(w: World, after: World) {
    && Invariant(after) && after.code == w.code && after.hostId == w.hostId
    && Rank(w.phase) <= Rank(after.phase)
  }

  lemma AdvancesTransitive(a: World, b: World, c: World)
    requires Advances(a, b) && Advances(b, c)
    ensures Advances(a, c)
  {
  }

  /** Agreement and membership do not speak of jobs and times. */
  lemma CoreAgrees(w: World, w': World)
    requires w'.phase == w.phase && w'.hostId == w.hostId
    requires w'.rows == w.rows && w'.cache == w.cache && w'.bans == w.bans
    ensures CacheCovers(w') == CacheCovers(w) && Membership(w') == Membership(w)
  {
  }

  /** Job accounting speaks only of the jobs, the plan, the start and the phase. */
  lemma JobsIgnoreRows(w: World, w': World)
    requires w'.phase == w.phase && w'.code == w.code
    requires w'.plan == w.plan && w'.startedAt == w.startedAt && w'.jobs == w.jobs
    ensures JobsAccounted(w') == JobsAccounted(w)
  {
  }

  /** Fewer or the same connected members keep the cleanup safe. */
  lemma ConnectedShrinks(w: World, after: World)
    requires CleanupSafe(w) && after.cleanupPending == w.cleanupPending
    requires after.cache.Some? ==>
               w.cache.Some? && forall id ::
                 id in after.cache.value.members && after.cache.value.members[id].socket.Some? ==>
               id in w.cache.value.members && w.cache.value.members[id].socket.Some?
    ensures CleanupSafe(after)
  {
    if w.cleanupPending && after.cache.Some? {
      assert forall id :: id in after.cache.value.members && after.cache.value.members[id].socket.Some? ==>
        id in ConnectedMembers(w);
    }
  }

  /** Editing cached entries in other respects than host flag and give-up time. */
  lemma CacheEditAdvances(w: World, members: map<string, CachedMember>, pending: bool)
    requires Invariant(w) && w.cache.Some? && members.Keys == w.cache.value.members.Keys
    requires forall id :: id in members ==>
               && members[id].isHost == w.cache.value.members[id].isHost
               && members[id].gaveUpAt == w.cache.value.members[id].gaveUpAt
    requires CleanupSafe(w.(cache := Some(w.cache.value.(members := members)), cleanupPending := pending))
    ensures Advances(w, w.(cache := Some(w.cache.value.(members := members)), cleanupPending := pending))
  {
  }

  lemma ReturningAdvances(w: World, id: string)
    requires Invariant(w) && w.cache.Some? && id in w.rows && w.rows[id].gaveUpAt.None?
    ensures Advances(w, Admitted(w, id))
  {
    ConnectedShrinks(w, Admitted(w, id));
    CacheEditAdvances(w, w.cache.value.members[id := CachedMember(id == w.hostId, false, None, None)],
                      w.cleanupPending);
  }

  lemma JoinAdvances(w: World, id: string, passwordOk: bool, inOtherSession: bool)
    requires Invariant(w)
    ensures Advances(w, Joined(w, id, passwordOk, inOtherSession))
  {
    if JoinRefusal(w, id, passwordOk, inOtherSession).None? {
      if id in w.rows {
        ReturningAdvances(w, id);
      } else {
        NewMemberAdvances(w, id);
      }
    }
  }

  lemma NewRowKeepsMembership(w: World, id: string)
    requires Membership(w) && id !in w.rows && id !in w.bans && |w.rows| < MAX_MEMBERS
    ensures Membership(Admitted(w, id))
  {
    assert |Admitted(w, id).rows| == |w.rows| + 1;
  }

  lemma NewRowKeepsCache(w: World, id: string)
    requires CacheCovers(w) && id !in w.rows && w.cache.Some?
    ensures CacheCovers(Admitted(w, id))
  {
    var after := Admitted(w, id);
    forall m | m in after.cache.value.members ensures EntryFits(after, m, after.cache.value.members[m]) {
      assert m == id || EntryFits(w, m, w.cache.value.members[m]);
    }
  }

  lemma NewMemberAdvances(w: World, id: string)
    requires Invariant(w) && id !in w.rows && id !in w.bans && |w.rows| < MAX_MEMBERS && w.cache.Some?
    ensures Advances(w, Admitted(w, id))
  {
    var after := Admitted(w, id);
    NewRowKeepsMembership(w, id);
    NewRowKeepsCache(w, id);
    ConnectedShrinks(w, after);
    assert JobsAccounted(after);
  }

  lemma KeysSubset<K, V>(m: map<K, V>, ids: set<K>)
    ensures |m - ids| <= |m|
  {
    var kept, all := (m - ids).Keys, m.Keys;
    assert all == kept + (all - kept);
    assert |m - ids| == |kept| && |m| == |all|;
  }

  lemma RemovalCache(w: World, deleted: set<string>, uncached: set<string>, after: World)
    requires CacheCovers(w) && Membership(w) && after.phase == w.phase && after.hostId == w.hostId
    requires uncached <= deleted && w.hostId !in deleted
    requires after.rows == w.rows - deleted && after.cache == WithoutCachedMembers(w.cache, uncached)
    ensures CacheCovers(after)
  {
    if w.cache.Some? {
      forall id | id in after.cache.value.members ensures EntryFits(after, id, after.cache.value.members[id]) {
        assert EntryFits(w, id, w.cache.value.members[id]);
      }
    }
  }

  /** Removing members, of whom some may keep their cached entry. */
  lemma RemovalAdvances(w: World, deleted: set<string>, uncached: set<string>, banned: set<string>)
    requires Invariant(w) && banned <= uncached <= deleted && w.hostId !in deleted
    ensures Advances(w, w.(rows := w.rows - deleted, cache := WithoutCachedMembers(w.cache, uncached),
                           bans := w.bans + banned))
  {
    var after := w.(rows := w.rows - deleted, cache := WithoutCachedMembers(w.cache, uncached),
                    bans := w.bans + banned);
    KeysSubset(w.rows, deleted);
    RemovalCache(w, deleted, uncached, after);
    JobsIgnoreRows(w, after);
    ConnectedShrinks(w, after);
  }

  lemma ClosingJobs(w: World, after: World)
    requires JobsAccounted(w) && after.phase == Closed && after.code == w.code && after.plan == w.plan
    requires after.startedAt == w.startedAt && forall j :: j in after.jobs ==> j in w.jobs && after.jobs[j] == w.jobs[j]
    ensures JobsAccounted(after)
  {
  }

  lemma ClosingAdvances(w: World, gone: set<SessionJob>)
    requires Invariant(w) && w.phase != Phase.Result
    ensures Advances(w, w.(cache := None, phase := Closed, jobs := w.jobs - gone))
  {
    var after := w.(cache := None, phase := Closed, jobs := w.jobs - gone);
    ClosingJobs(w, after);
    ConnectedShrinks(w, after);
  }

  lemma DeletedAdvances(w: World)
    requires Invariant(w) && w.phase != Phase.Result
    ensures Advances(w, Deleted(w))
  {
    ClosingAdvances(w, Cancelled(w.code, Rounds(w), w.rows.Keys));
  }

  lemma LeaveAdvances(w: World, id: string)
    requires Invariant(w)
    ensures Advances(w, Left(w, id))
  {
    if LeaveRefusal(w, id).None? {
      if id == w.hostId {
        DeletedAdvances(w);
      } else {
        RemovalAdvances(w, {id}, {id}, {});
        assert w.bans + {} == w.bans;
      }
    }
  }

  lemma WithoutNobody(w: World)
    ensures w.rows - {} == w.rows && w.bans + {} == w.bans && WithoutCachedMembers(w.cache, {}) == w.cache
  {
    if w.cache.Some? {
      assert w.cache.value.members - {} == w.cache.value.members;
    }
  }

  lemma AttemptAdvances(w: World, id: string, fault: Fault)
    requires Invariant(w) && id != w.hostId
    ensures Advances(w, AttemptEffect(w, id, fault))
  {
    var deleted: set<string> := if fault == AtDelete then {} else {id};
    var uncached: set<string> := if fault == AtDelete || fault == AtSave then {} else {id};
    var banned: set<string> := if fault == NoFault then {id} else {};
    WithoutNobody(w);
    RemovalAdvances(w, deleted, uncached, banned);
    assert AttemptEffect(w, id, fault) == w.(rows := w.rows - deleted,
                                             cache := WithoutCachedMembers(w.cache, uncached),
                                             bans := w.bans + banned);
  }

  lemma KickedByHost(w: World, actor: string, target: string)
    requires CacheCovers(w) && Membership(w) && KickAllowed(w, actor, target)
    ensures actor == w.hostId && actor in w.rows && target != w.hostId
  {
    assert EntryFits(w, actor, w.cache.value.members[actor]);
  }

  lemma HostKickAdvances(w: World, actor: string, target: string, fault: Fault)
    requires Invariant(w)
    ensures Advances(w, HostKicked(w, actor, target, fault))
  {
    if KickAllowed(w, actor, target) {
      KickedByHost(w, actor, target);
      AttemptAdvances(w, target, fault);
    }
  }

  /** Moving row and cached state to a later phase, short of closing. */
  lemma MovedOn(w: World, phase: Phase)
    requires CacheCovers(w) && Membership(w) && Rank(w.phase) <= Rank(phase) < Rank(Closed)
    ensures var after := w.(phase := phase, cache := WithCachedPhase(w.cache, phase));
            CacheCovers(after) && Membership(after)
  {
    var after := w.(phase := phase, cache := WithCachedPhase(w.cache, phase));
    forall id | id in after.cache.value.members ensures EntryFits(after, id, after.cache.value.members[id]) {
      assert EntryFits(w, id, w.cache.value.members[id]);
    }
  }

  lemma ToContractAdvances(w: World)
    requires Invariant(w)
    ensures Advances(w, ToContract(w))
  {
    if ToContract(w) != w {
      MovedOn(w, Contract);
      ConnectedShrinks(w, ToContract(w));
    }
  }

  lemma ConnectAdvances(w: World, id: string, socket: int)
    requires Invariant(w)
    ensures Advances(w, Connected(w, id, socket))
  {
    if MayConnect(w, id) {
      var m := w.cache.value.members[id].(socket := Some(socket));
      CacheEditAdvances(w, w.cache.value.members[id := m], false);
      ToContractAdvances(SetSocket(w.(cleanupPending := false), id, Some(socket)));
    }
  }

  lemma EscapeLogAdvances(w: World, id: string)
    requires Invariant(w)
    ensures Advances(w, EscapeLogged(w, id))
    ensures EscapeLogged(w, id).cache == w.cache && EscapeLogged(w, id).cleanupPending == w.cleanupPending
  {
    if w.phase == Timer && id in w.rows && w.rows[id].gaveUpAt.None? {
      var after := EscapeLogged(w, id);
      assert after.rows.Keys == w.rows.Keys;
      assert |after.rows| == |after.rows.Keys| && |w.rows| == |w.rows.Keys|;
      ConnectedShrinks(w, after);
    }
  }

  lemma UnmarkedAdvances(w: World, id: string)
    requires Invariant(w) && w.cache.Some? && id in w.cache.value.members
    ensures var after := SetSocket(w, id, None);
            Advances(w, after.(cleanupPending := ConnectedMembers(after) == {}))
  {
    var members := w.cache.value.members[id := w.cache.value.members[id].(socket := None)];
    CacheEditAdvances(w, members, ConnectedMembers(SetSocket(w, id, None)) == {});
  }

  lemma DisconnectAdvances(w: World, id: string, socket: int)
    requires Invariant(w)
    ensures Advances(w, Disconnected(w, id, socket))
  {
    if LosesConnection(w, id, socket) {
      EscapeLogAdvances(w, id);
      UnmarkedAdvances(EscapedByLeaving(w, id), id);
    }
  }

  lemma SignAdvances(w: World, id: string, signed: bool)
    requires Invariant(w)
    ensures Advances(w, Signed(w, id, signed))
  {
    if MaySign(w, id) {
      ConnectedShrinks(w, Signed(w, id, signed));
      CacheEditAdvances(w, w.cache.value.members[id := w.cache.value.members[id].(isSigned := signed)],
                        w.cleanupPending);
    }
  }

  lemma SignsResetAdvances(w: World)
    requires Invariant(w)
    ensures Advances(w, SignsReset(w))
  {
    if SignsReset(w) != w {
      ConnectedShrinks(w, SignsReset(w));
      CacheEditAdvances(w, SignsReset(w).cache.value.members, w.cleanupPending);
    }
  }

  lemma BeginningJobs(w: World, after: World, planned: map<SessionJob, int>, gone: set<SessionJob>)
    requires JobsAccounted(w) && Rank(w.phase) < Rank(Timer) && w.plan.Some?
    requires after.phase == Timer && after.startedAt.Some? && after.code == w.code && after.plan == w.plan
    requires after.jobs == planned + (w.jobs - gone)
    requires forall j :: j in planned ==> OnTime(after, j, planned[j])
    ensures JobsAccounted(after)
  {
    assert forall j :: j in after.jobs ==> j in planned || j in w.jobs;
  }

  lemma BeganJobs(w: World, now: int)
    requires JobsAccounted(w) && w.phase == Contract && w.plan.Some?
    ensures JobsAccounted(Began(w, now))
  {
    var after := Began(w, now);
    var planned := Upcoming(w.code, w.plan.value, now, now);
    forall j | j in planned ensures OnTime(after, j, planned[j]) {
      UpcomingIff(w.code, w.plan.value, now, now, j);
    }
    BeginningJobs(w, after, planned, Cancelled(w.code, Rounds(w), w.rows.Keys));
  }

  lemma BeganCore(w: World, now: int)
    requires CacheCovers(w) && Membership(w) && w.phase == Contract && w.plan.Some?
    ensures CacheCovers(Began(w, now)) && Membership(Began(w, now))
  {
    MovedOn(w, Timer);
    CoreAgrees(w.(phase := Timer, cache := WithCachedPhase(w.cache, Timer)), Began(w, now));
  }

  lemma BeganAdvances(w: World, now: int)
    requires Invariant(w) && w.phase == Contract && w.plan.Some?
    ensures Advances(w, Began(w, now))
  {
    BeganJobs(w, now);
    BeganCore(w, now);
    ConnectedShrinks(w, Began(w, now));
  }

  lemma StartAdvances(w: World, actor: string, now: int, fails: bool)
    requires Invariant(w)
    ensures Advances(w, Started(w, actor, now, fails))
  {
    if StartRefusal(w, actor).None? {
      BeganAdvances(w, now);
    }
  }

  // ----- forced starts -----

  lemma KickStages(ids: set<string>, faults: Faults)
    ensures KickedBy(ids, faults) <= UncachedBy(ids, faults) <= DeletedBy(ids, faults) <= ids
  {
    forall id | id in ids
      ensures Succeeds(faults, id, KICK_ATTEMPTS) ==> Uncaches(faults, id, KICK_ATTEMPTS)
      ensures Uncaches(faults, id, KICK_ATTEMPTS) ==> Deletes(faults, id, KICK_ATTEMPTS)
    {
      StagesNested(faults, id, KICK_ATTEMPTS);
    }
  }

  lemma KicksAdvance(w: World, ids: set<string>, faults: Faults)
    requires Invariant(w) && w.hostId !in ids
    ensures Advances(w, AfterKicks(w, ids, faults))
  {
    KickStages(ids, faults);
    RemovalAdvances(w, DeletedBy(ids, faults), UncachedBy(ids, faults), KickedBy(ids, faults));
  }

  lemma AllKickedWhenAllSucceed(w: World, ids: set<string>, faults: Faults)
    requires KickedBy(ids, faults) == ids
    ensures AfterKicks(w, ids, faults) == AllKicked(w, ids)
  {
    KickStages(ids, faults);
    assert UncachedBy(ids, faults) == ids && DeletedBy(ids, faults) == ids;
  }

  lemma HostIsNoTarget(w: World)
    requires CacheCovers(w) && Membership(w) && w.cache.Some?
    ensures w.hostId !in UnsignedMembers(w.cache.value.members)
  {
    if w.hostId in w.cache.value.members {
      assert EntryFits(w, w.hostId, w.cache.value.members[w.hostId]);
    }
  }

  lemma ForceStartAdvances(w: World, actor: string, now: int, faults: Faults, fails: bool)
    requires Invariant(w)
    ensures Advances(w, ForceStarted(w, actor, now, faults, fails))
  {
    if StartRefusal(w, actor).None? {
      var targets := UnsignedMembers(w.cache.value.members);
      HostIsNoTarget(w);
      KicksAdvance(w, targets, faults);
      BeganAdvances(AfterKicks(w, targets, faults), now);
    }
  }

  // ----- the end, give-ups, jobs, restarts -----

  lemma EndingJobs(w: World, after: World, queued: map<SessionJob, int>, gone: set<SessionJob>)
    requires JobsAccounted(w) && Rank(w.phase) >= Rank(Timer) && after.phase == Phase.Result
    requires after.code == w.code && after.plan == w.plan && after.startedAt == w.startedAt
    requires after.jobs == queued + (w.jobs - gone)
    requires forall j :: j in queued ==> j.RevealPenalties?
    ensures JobsAccounted(after)
  {
    assert forall j :: j in after.jobs ==> j in queued || j in w.jobs;
  }

  lemma EndingConnected(w: World, after: World)
    requires CleanupSafe(w) && after.cleanupPending == w.cleanupPending
    requires after.cache == WithCachedPhase(w.cache, Phase.Result)
    ensures CleanupSafe(after)
  {
    ConnectedShrinks(w, after);
  }

  lemma EndingAdvances(w: World, now: int, queued: map<SessionJob, int>, gone: set<SessionJob>)
    requires Invariant(w) && w.phase == Timer
    requires forall j :: j in queued ==> j.RevealPenalties?
    ensures Advances(w, w.(phase := Phase.Result, endedAt := Some(now), cache := WithCachedPhase(w.cache, Phase.Result),
                           jobs := queued + (w.jobs - gone)))
  {
    var after := w.(phase := Phase.Result, endedAt := Some(now), cache := WithCachedPhase(w.cache, Phase.Result),
                    jobs := queued + (w.jobs - gone));
    MovedOn(w, Phase.Result);
    CoreAgrees(w.(phase := Phase.Result, cache := WithCachedPhase(w.cache, Phase.Result)), after);
    EndingJobs(w, after, queued, gone);
    EndingConnected(w, after);
  }

  lemma EndAdvances(w: World, now: int)
    requires Invariant(w) && Rank(w.phase) >= Rank(Timer)
    ensures Advances(w, SessionEnded(w, now))
  {
    if w.phase == Timer {
      EndingAdvances(w, now, RevealJobs(w.code, w.rows.Keys, now), Cancelled(w.code, Rounds(w), w.rows.Keys));
    }
  }

  lemma MarkedMembership(w: World, id: string, now: int)
    requires Membership(w) && w.phase == Timer && id in w.rows
    ensures Membership(MarkedGaveUp(w, id, now))
  {
    var after := MarkedGaveUp(w, id, now);
    assert after.rows.Keys == w.rows.Keys && |after.rows| == |after.rows.Keys| && |w.rows| == |w.rows.Keys|;
  }

  lemma MarkedCache(w: World, id: string, now: int)
    requires CacheCovers(w) && w.cache.Some? && id in w.rows
    ensures CacheCovers(MarkedGaveUp(w, id, now))
  {
    var after := MarkedGaveUp(w, id, now);
    forall m | m in after.cache.value.members ensures EntryFits(after, m, after.cache.value.members[m]) {
      assert EntryFits(w, m, w.cache.value.members[m]);
    }
  }

  lemma MarkedAdvances(w: World, id: string, now: int)
    requires Invariant(w) && GiveUpRefusal(w, id).None?
    ensures Advances(w, MarkedGaveUp(w, id, now))
  {
    var after := MarkedGaveUp(w, id, now);
    MarkedMembership(w, id, now);
    MarkedCache(w, id, now);
    JobsIgnoreRows(w, after);
    ConnectedShrinks(w, after);
  }

  lemma RevealQueuedAdvances(w: World, id: string, due: int)
    requires Invariant(w) && w.phase == Timer
    ensures Advances(w, w.(jobs := map[RevealPenalties(w.code, id) := due] + w.jobs))
  {
    var after := w.(jobs := map[RevealPenalties(w.code, id) := due] + w.jobs);
    assert forall j :: j in after.jobs ==>
      j == RevealPenalties(w.code, id) || (j in w.jobs && after.jobs[j] == w.jobs[j]);
    CoreAgrees(w, after);
    ConnectedShrinks(w, after);
  }

  lemma GiveUpAdvances(w: World, id: string, now: int)
    requires Invariant(w)
    ensures Advances(w, GaveUp(w, id, now))
  {
    if GiveUpRefusal(w, id).None? {
      MarkedAdvances(w, id, now);
      var marked := MarkedGaveUp(w, id, now);
      RevealQueuedAdvances(marked, id, now + ROULETTE_TIMEOUT_MS);
      EndAdvances(marked.(jobs := map[RevealPenalties(w.code, id) := now + ROULETTE_TIMEOUT_MS] + w.jobs), now);
    }
  }

  lemma FewerJobsAdvance(w: World, gone: set<SessionJob>)
    requires Invariant(w)
    ensures Advances(w, w.(jobs := w.jobs - gone))
  {
    var after := w.(jobs := w.jobs - gone);
    assert forall j :: j in after.jobs ==> j in w.jobs && after.jobs[j] == w.jobs[j];
    ConnectedShrinks(w, after);
  }

  lemma JobAdvances(w: World, j: SessionJob, now: int)
    requires Invariant(w)
    ensures Advances(w, JobRun(w, j, now))
  {
    if JobDue(w, j, now) {
      FewerJobsAdvance(w, {j});
      EndAdvances(w.(jobs := w.jobs - {j}), now);
    }
  }

  /** A job that is due leaves the queue for good; the end job of a running session ends it,
      at that instant, and no other job changes anything but the queue. */
  lemma DueJobRuns(w: World, j: SessionJob, now: int)
    requires Invariant(w) && JobDue(w, j, now)
    ensures var after := JobRun(w, j, now);
            && Advances(w, after) && j !in after.jobs
            && if w.phase == Timer && j.End? then after.phase == Phase.Result && after.endedAt == Some(now)
               else after == w.(jobs := after.jobs) && after.jobs.Keys == w.jobs.Keys - {j}
  {
    JobAdvances(w, j, now);
    var taken := w.(jobs := w.jobs - {j});
    if w.phase == Timer && j.End? {
      EndedWithout(taken, j, now);
    }
  }

  lemma EndedWithout(w: World, j: SessionJob, now: int)
    requires w.phase == Timer && j.End? && j !in w.jobs
    ensures var after := SessionEnded(w, now);
            j !in after.jobs && after.phase == Phase.Result && after.endedAt == Some(now)
  {
  }

  lemma RequeuedAdvances(w: World, now: int)
    requires Invariant(w) && w.phase == Timer
    ensures Advances(w, w.(jobs := Upcoming(w.code, w.plan.value, w.startedAt.value, now) + w.jobs))
  {
    var upcoming := Upcoming(w.code, w.plan.value, w.startedAt.value, now);
    var after := w.(jobs := upcoming + w.jobs);
    forall j | j in upcoming ensures OnTime(w, j, upcoming[j]) {
      UpcomingIff(w.code, w.plan.value, w.startedAt.value, now, j);
    }
    RequeuedJobs(w, upcoming);
    ConnectedShrinks(w, after);
  }

  lemma RequeuedJobs(w: World, upcoming: map<SessionJob, int>)
    requires JobsAccounted(w) && w.phase == Timer
    requires forall j :: j in upcoming ==> OnTime(w, j, upcoming[j])
    ensures JobsAccounted(w.(jobs := upcoming + w.jobs))
  {
    var after := w.(jobs := upcoming + w.jobs);
    forall j | j in after.jobs && j.roomCode == w.code ensures j.RevealPenalties? || OnTime(after, j, after.jobs[j]) {
      assert j in w.jobs || OnTime(w, j, upcoming[j]);
    }
  }

  lemma RestartCases(w: World, lost: set<SessionJob>, now: int)
    requires w.phase == Timer && w.plan.Some? && w.startedAt.Some?
    ensures var survived := Survived(w, lost);
            Restarted(w, lost, now) ==
              if now >= w.startedAt.value + SessionMs(w.plan.value) then SessionEnded(survived, now)
              else survived.(jobs := Upcoming(w.code, w.plan.value, w.startedAt.value, now) + survived.jobs)
  {
  }

  lemma SurvivedAdvances(w: World, lost: set<SessionJob>)
    requires Invariant(w)
    ensures Advances(w, Survived(w, lost))
  {
    FewerJobsAdvance(w, lost);
  }

  lemma RestartTimerAdvances(w: World, lost: set<SessionJob>, now: int)
    requires Invariant(w) && w.phase == Timer
    ensures Advances(w, Restarted(w, lost, now))
  {
    var survived := Survived(w, lost);
    SurvivedAdvances(w, lost);
    RestartCases(w, lost, now);
    EndAdvances(survived, now);
    RequeuedAdvances(survived, now);
    AdvancesTransitive(w, survived, Restarted(w, lost, now));
  }

  lemma RestartAdvances(w: World, lost: set<SessionJob>, now: int)
    requires Invariant(w)
    ensures Advances(w, Restarted(w, lost, now))
  {
    if w.phase == Timer {
      RestartTimerAdvances(w, lost, now);
    } else {
      SurvivedAdvances(w, lost);
    }
  }

  lemma CleanupAdvances(w: World)
    requires Invariant(w)
    ensures Advances(w, CleanedUp(w))
  {
    if w.cleanupPending && w.phase != Phase.Result {
      DeletedAdvances(w.(cleanupPending := false));
    }
  }

  lemma MemberStepAdvances(w: World, op: Op)
    requires Invariant(w)
    requires op.Join? || op.Leave? || op.HostKick? || op.Connect? || op.Disconnect? || op.LogEscape? || op.Cleanup?
    ensures Advances(w, Next(w, op))
  {
    match op {
      case Join(id, passwordOk, inOtherSession) => JoinAdvances(w, id, passwordOk, inOtherSession);
      case Leave(id) => LeaveAdvances(w, id);
      case HostKick(actor, target, fault) => HostKickAdvances(w, actor, target, fault);
      case Connect(id, socket) => ConnectAdvances(w, id, socket);
      case Disconnect(id, socket) => DisconnectAdvances(w, id, socket);
      case LogEscape(id) => EscapeLogAdvances(w, id);
      case Cleanup => CleanupAdvances(w);
    }
  }

  lemma RuleAdvances(w: World, actor: string, plan: Plan)
    requires Invariant(w)
    ensures Advances(w, RuleSet(w, actor, plan))
  {
    var after := RuleSet(w, actor, plan);
    CoreAgrees(w, after);
    ConnectedShrinks(w, after);
  }

  /** Every handler, also one that fails in the middle of a kick, keeps the cached state
      covering the rows, the membership rules and the job accounting, and moves the phase
      forward if at all. */
  lemma StepAdvances(w: World, op: Op)
    requires Invariant(w)
    ensures Advances(w, Next(w, op))
  {
    match op {
      case Sign(id, signed) => SignAdvances(w, id, signed);
      case EditContract => SignsResetAdvances(w);
      case SetRule(actor, plan) => RuleAdvances(w, actor, plan);
      case Start(actor, now, fails) => StartAdvances(w, actor, now, fails);
      case ForceStart(actor, now, faults, fails) => ForceStartAdvances(w, actor, now, faults, fails);
      case GiveUp(id, now) => GiveUpAdvances(w, id, now);
      case RunJob(j, now) => JobAdvances(w, j, now);
      case Restart(lost, now) => RestartAdvances(w, lost, now);
      case _ => MemberStepAdvances(w, op);
    }
  }

  lemma {:induction false} RunAdvances(w: World, ops: seq<Op>)
    requires Invariant(w)
    ensures Advances(w, Run(w, ops))
    decreases |ops|
  {
    if ops != [] {
      StepAdvances(w, ops[0]);
      RunAdvances(Next(w, ops[0]), ops[1..]);
    }
  }

  /** In every state of every run of a created room, whatever kicks failed: there are at
      most ten members, none of them banned, and only the creator is host; while the room
      is not closed every row has a cached entry that agrees with it, and only the host is
      cached as host. */
  lemma EveryRunCovers(code: string, hostId: string, ops: seq<Op>)
    ensures var w := Run(Created(code, hostId), ops);
            && Invariant(w) && w.code == code && w.hostId == hostId
            && |w.rows| <= MAX_MEMBERS && w.rows.Keys !! w.bans
            && (forall id :: id in w.rows ==> (w.rows[id].isHost <==> id == hostId))
            && (w.phase != Closed ==>
                  && w.cache.Some? && w.cache.value.phase == w.phase
                  && (forall id :: id in w.rows ==>
                        id in w.cache.value.members && w.cache.value.members[id].gaveUpAt == w.rows[id].gaveUpAt)
                  && forall id :: id in w.cache.value.members && w.cache.value.members[id].isHost ==> id == hostId)
  {
    RunAdvances(Created(code, hostId), ops);
    var w := Run(Created(code, hostId), ops);
    if w.cache.Some? {
      forall id | id in w.cache.value.members && w.cache.value.members[id].isHost ensures id == hostId {
        assert EntryFits(w, id, w.cache.value.members[id]);
      }
    }
  }

  // ----- restarts -----

  /** In every run of a created room: a restart during the session, whatever jobs were lost
      and whatever kicks failed before it, leaves queued for the future exactly the planned jobs whose time is still
      ahead, each on time; of all other jobs it leaves what survived.  Past the planned end
      it ends the session. */
  lemma RestartRecovers(code: string, hostId: string, ops: seq<Op>, lost: set<SessionJob>, now: int)
    requires Run(Created(code, hostId), ops).phase == Timer
    ensures var w := Run(Created(code, hostId), ops);
            var after := Restarted(w, lost, now);
            && w.code == code && w.plan.Some? && w.startedAt.Some?
            && var start := w.startedAt.value;
            if now >= start + SessionMs(w.plan.value) then after == SessionEnded(Survived(w, lost), now)
            else
              && (forall j :: IsPlanned(code, w.plan.value, j) ==>
                    && (j in after.jobs && after.jobs[j] > now <==> start + JobOffset(w.plan.value, j) > now)
                    && (j in after.jobs ==> after.jobs[j] == start + JobOffset(w.plan.value, j)))
              && (forall j :: !IsPlanned(code, w.plan.value, j) ==>
                    && (j in after.jobs <==> j in w.jobs && j !in lost)
                    && (j in after.jobs ==> after.jobs[j] == w.jobs[j]))
  {
    RunAdvances(Created(code, hostId), ops);
    var w := Run(Created(code, hostId), ops);
    if now < w.startedAt.value + SessionMs(w.plan.value) {
      RunIsOnSchedule(w, lost);
      RestartRebuildsUpcoming(w.jobs - lost, code, w.plan.value, w.startedAt.value, now);
    }
  }

  /** What the recovery of jobs relies on holds in every state of a session. */
  lemma RunIsOnSchedule(w: World, lost: set<SessionJob>)
    requires JobsAccounted(w) && w.phase == Timer
    ensures OnSchedule(w.jobs - lost, w.code, w.plan.value, w.startedAt.value)
  {
    forall j | j in w.jobs && IsPlanned(w.code, w.plan.value, j)
      ensures w.jobs[j] == w.startedAt.value + JobOffset(w.plan.value, j)
    {
      assert j.roomCode == w.code;
    }
  }

  // ----- starting a session -----

  /** Whichever way a session starts, everyone still in the room has signed; a forced
      start that begins removed and banned exactly the unsigned members other than the
      host, and begins whenever a start would if its kicks and its write go through. */
  lemma StartedMeansSigned(w: World, actor: string, now: int, faults: Faults, fails: bool)
    requires Invariant(w) && w.phase == Contract
    ensures Started(w, actor, now, fails).phase == Timer ==>
              Started(w, actor, now, fails).rows == w.rows && AllSigned(Started(w, actor, now, fails))
    ensures ForceStarted(w, actor, now, faults, fails).phase == Timer ==>
              var after := ForceStarted(w, actor, now, faults, fails);
              && AllSigned(after)
              && after.rows == w.rows - UnsignedMembers(w.cache.value.members)
              && after.bans == w.bans + UnsignedMembers(w.cache.value.members)
              && w.hostId !in after.bans
    ensures Started(w, actor, now, fails).phase == Timer ==> ForceStarted(w, actor, now, faults, fails).phase == Timer
  {
    if StartRefusal(w, actor).None? {
      var targets := UnsignedMembers(w.cache.value.members);
      HostIsNoTarget(w);
      HostSigned(w.cache.value.members);
      if KickedBy(targets, faults) == targets {
        AllKickedWhenAllSucceed(w, targets, faults);
      }
    }
  }

  lemma HostSigned(members: map<string, CachedMember>)
    requires !IsHostUnsigned(members)
    ensures forall id :: id in members && id !in UnsignedMembers(members) ==> members[id].isSigned
  {
    forall id | id in members && id !in UnsignedMembers(members) ensures members[id].isSigned {
      assert members[id].isHost || members[id].isSigned;
    }
  }

  predicate AllSigned(w: World) {
    w.cache.Some? && forall id :: id in w.cache.value.members ==> w.cache.value.members[id].isSigned
  }

  // ----- what a finished session leaves queued -----

  /** No reveal job is queued for a member whose row is gone. */
  ghost predicate RevealsHaveRows(w: World) {
    forall m :: RevealPenalties(w.code, m) in w.jobs ==> m in w.rows
  }

  /** Ending a session leaves one reveal job for each member, and of the jobs queued
      before only reveal jobs of members whose rows are gone. */
  lemma EndedJobs(w: World, now: int, j: SessionJob)
    requires Invariant(w) && w.phase == Timer && j.roomCode == w.code
    ensures j in SessionEnded(w, now).jobs <==>
              j.RevealPenalties? && (j.memberId in w.rows || j in w.jobs)
    ensures j.RevealPenalties? && j.memberId in w.rows ==> SessionEnded(w, now).jobs[j] == now + ROULETTE_TIMEOUT_MS
  {
    var after := RevealJobs(w.code, w.rows.Keys, now) + (w.jobs - Cancelled(w.code, Rounds(w), w.rows.Keys));
    assert SessionEnded(w, now).jobs == after;
    if j.RevealPenalties? {
      RevealCancelledIff(w.code, Rounds(w), w.rows.Keys, j.memberId);
    } else if j in w.jobs {
      CancellationCovers(w.code, w.plan.value, w.rows.Keys, j);
    }
  }

  /** The queue of a finished session holds exactly one reveal job per member if and only
      if, when it ended, no reveal job was queued for a member already removed. */
  lemma OneRevealPerMemberIff(w: World, now: int)
    requires Invariant(w) && w.phase == Timer
    ensures (forall j: SessionJob :: j.roomCode == w.code ==>
               (j in SessionEnded(w, now).jobs <==> j in Reveals(w.code, w.rows.Keys)))
            <==> RevealsHaveRows(w)
  {
    forall j: SessionJob | j.roomCode == w.code
      ensures j in SessionEnded(w, now).jobs <==> j.RevealPenalties? && (j.memberId in w.rows || j in w.jobs)
      ensures j in Reveals(w.code, w.rows.Keys) <==> j.RevealPenalties? && j.memberId in w.rows
    {
      EndedJobs(w, now, j);
    }
    forall m | RevealPenalties(w.code, m) in w.jobs ensures RevealPenalties(w.code, m) in SessionEnded(w, now).jobs {
      EndedJobs(w, now, RevealPenalties(w.code, m));
    }
  }

  lemma NoJobsBeforeSession(w: World, j: SessionJob)
    requires JobsAccounted(w) && Rank(w.phase) < Rank(Timer) && j.roomCode == w.code
    ensures j !in w.jobs
  {
  }

  lemma BeganHasNoReveals(w: World, now: int, m: string)
    requires w.plan.Some? && RevealPenalties(w.code, m) !in w.jobs
    ensures RevealPenalties(w.code, m) !in Began(w, now).jobs
  {
    var planned := Upcoming(w.code, w.plan.value, now, now);
    var kept := w.jobs - Cancelled(w.code, Rounds(w), w.rows.Keys);
    UpcomingIff(w.code, w.plan.value, now, now, RevealPenalties(w.code, m));
    assert Began(w, now).jobs == planned + kept;
  }

  lemma BeganRevealsHaveRows(w: World, now: int)
    requires JobsAccounted(w) && w.phase == Contract && w.plan.Some?
    ensures RevealsHaveRows(Began(w, now))
  {
    forall m ensures RevealPenalties(w.code, m) !in Began(w, now).jobs {
      NoJobsBeforeSession(w, RevealPenalties(w.code, m));
      BeganHasNoReveals(w, now, m);
    }
  }

  lemma EndedRevealsHaveRows(w: World, now: int)
    requires RevealsHaveRows(w)
    ensures RevealsHaveRows(SessionEnded(w, now))
  {
    if w.phase != Phase.Result && w.phase != Closed {
      forall m | RevealPenalties(w.code, m) in SessionEnded(w, now).jobs ensures m in w.rows {
        assert RevealPenalties(w.code, m) in Reveals(w.code, w.rows.Keys) || RevealPenalties(w.code, m) in w.jobs;
      }
    }
  }

  lemma GaveUpRevealsHaveRows(w: World, id: string, now: int)
    requires RevealsHaveRows(w)
    ensures RevealsHaveRows(GaveUp(w, id, now))
  {
    if GiveUpRefusal(w, id).None? {
      var marked := MarkedGaveUp(w, id, now);
      var queued := marked.(jobs := map[RevealPenalties(w.code, id) := now + ROULETTE_TIMEOUT_MS] + w.jobs);
      assert marked.rows.Keys == w.rows.Keys;
      assert RevealsHaveRows(queued);
      EndedRevealsHaveRows(queued, now);
    }
  }

  lemma StartRevealsHaveRows(w: World, actor: string, now: int, fails: bool)
    requires Invariant(w) && RevealsHaveRows(w)
    ensures RevealsHaveRows(Started(w, actor, now, fails))
  {
    if StartRefusal(w, actor).None? {
      BeganRevealsHaveRows(w, now);
    }
  }

  lemma ForceStartRevealsHaveRows(w: World, actor: string, now: int, faults: Faults, fails: bool)
    requires Invariant(w) && RevealsHaveRows(w)
    ensures RevealsHaveRows(ForceStarted(w, actor, now, faults, fails))
  {
    if StartRefusal(w, actor).None? {
      var after := AfterKicks(w, UnsignedMembers(w.cache.value.members), faults);
      forall m ensures RevealPenalties(w.code, m) !in w.jobs {
        NoJobsBeforeSession(w, RevealPenalties(w.code, m));
      }
      BeganRevealsHaveRows(after, now);
    }
  }

  lemma RestartRevealsHaveRows(w: World, lost: set<SessionJob>, now: int)
    requires RevealsHaveRows(w)
    ensures RevealsHaveRows(Restarted(w, lost, now))
  {
    var survived := Survived(w, lost);
    assert RevealsHaveRows(survived);
    EndedRevealsHaveRows(survived, now);
    if w.plan.Some? && w.startedAt.Some? {
      forall m ensures RevealPenalties(w.code, m) !in Upcoming(w.code, w.plan.value, w.startedAt.value, now) {
        UpcomingIff(w.code, w.plan.value, w.startedAt.value, now, RevealPenalties(w.code, m));
      }
    }
  }

  /** Connection and contract steps change neither rows nor jobs. */
  lemma CacheSteps(w: World, op: Op)
    requires op.Connect? || op.Sign? || op.EditContract? || op.SetRule?
    ensures Next(w, op).jobs == w.jobs && Next(w, op).rows == w.rows && Next(w, op).code == w.code
  {
  }

  /** Rows only come to exist or to have logs. */
  predicate RowsGrow(w: World, after: World) {
    && after.jobs == w.jobs && after.code == w.code
    && forall id :: id in w.rows ==> id in after.rows && after.rows[id].gaveUpAt == w.rows[id].gaveUpAt
  }

  lemma DisconnectRows(w: World, id: string, socket: int)
    ensures RowsGrow(w, Disconnected(w, id, socket))
  {
    assert RowsGrow(w, EscapedByLeaving(w, id));
  }

  /** Joining and logging an escape add to the rows. */
  lemma RowSteps(w: World, op: Op)
    requires op.Join? || op.Disconnect? || op.LogEscape?
    ensures RowsGrow(w, Next(w, op))
  {
    match op {
      case Join(_, _, _) =>
      case Disconnect(id, socket) => DisconnectRows(w, id, socket);
      case LogEscape(_) =>
    }
  }

  /** These steps touch neither the queue nor existing rows' give-up times. */
  lemma QuietSteps(w: World, op: Op)
    requires op.Join? || op.Connect? || op.Disconnect? || op.Sign? || op.EditContract? || op.SetRule? || op.LogEscape?
    ensures Next(w, op).jobs == w.jobs && Next(w, op).code == w.code
    ensures forall id :: id in w.rows ==> id in Next(w, op).rows && Next(w, op).rows[id].gaveUpAt == w.rows[id].gaveUpAt
  {
    if op.Join? || op.Disconnect? || op.LogEscape? {
      RowSteps(w, op);
    } else {
      CacheSteps(w, op);
    }
  }

  lemma QuietStepsRevealsHaveRows(w: World, op: Op)
    requires op.Join? || op.Connect? || op.Disconnect? || op.Sign? || op.EditContract? || op.SetRule? || op.LogEscape?
    requires RevealsHaveRows(w)
    ensures RevealsHaveRows(Next(w, op))
  {
    QuietSteps(w, op);
  }

  lemma LeaveRevealsHaveRows(w: World, id: string)
    requires Invariant(w) && RevealsHaveRows(w)
    ensures RevealsHaveRows(Left(w, id))
  {
    if LeaveRefusal(w, id).None? {
      assert forall m :: RevealPenalties(w.code, m) !in w.jobs;
    }
  }

  lemma KickRevealsHaveRows(w: World, actor: string, target: string, fault: Fault)
    requires RevealsHaveRows(w) && RevealPenalties(w.code, target) !in w.jobs
    ensures RevealsHaveRows(HostKicked(w, actor, target, fault))
  {
  }

  lemma JobRevealsHaveRows(w: World, j: SessionJob, now: int)
    requires RevealsHaveRows(w)
    ensures RevealsHaveRows(JobRun(w, j, now))
  {
    var taken := w.(jobs := w.jobs - {j});
    assert RevealsHaveRows(taken);
    EndedRevealsHaveRows(taken, now);
  }

  lemma CleanupRevealsHaveRows(w: World)
    requires RevealsHaveRows(w)
    ensures RevealsHaveRows(CleanedUp(w))
  {
  }

  /** The only step that can leave a reveal job without its row is the host kicking a
      member for whom one is queued. */
  lemma OnlyKicksOrphanReveals(w: World, op: Op)
    requires Invariant(w) && RevealsHaveRows(w)
    requires op.HostKick? ==> RevealPenalties(w.code, op.target) !in w.jobs
    ensures RevealsHaveRows(Next(w, op))
  {
    match op {
      case Leave(id) => LeaveRevealsHaveRows(w, id);
      case HostKick(actor, target, fault) => KickRevealsHaveRows(w, actor, target, fault);
      case Start(actor, now, fails) => StartRevealsHaveRows(w, actor, now, fails);
      case ForceStart(actor, now, faults, fails) => ForceStartRevealsHaveRows(w, actor, now, faults, fails);
      case Restart(lost, now) => RestartRevealsHaveRows(w, lost, now);
      case GiveUp(id, now) => GaveUpRevealsHaveRows(w, id, now);
      case RunJob(j, now) => JobRevealsHaveRows(w, j, now);
      case Cleanup => CleanupRevealsHaveRows(w);
      case _ => QuietStepsRevealsHaveRows(w, op);
    }
  }

  predicate NoOrphaningKick(w: World, ops: seq<Op>)
    decreases |ops|
  {
    ops != [] ==>
      && (ops[0].HostKick? ==> RevealPenalties(w.code, ops[0].target) !in w.jobs)
      && NoOrphaningKick(Next(w, ops[0]), ops[1..])
  }

  lemma {:induction false} RunKeepsRevealsWithRows(w: World, ops: seq<Op>)
    requires Invariant(w) && RevealsHaveRows(w) && NoOrphaningKick(w, ops)
    ensures RevealsHaveRows(Run(w, ops))
    decreases |ops|
  {
    if ops != [] {
      OnlyKicksOrphanReveals(w, ops[0]);
      StepAdvances(w, ops[0]);
      RunKeepsRevealsWithRows(Next(w, ops[0]), ops[1..]);
    }
  }

  lemma GiveUpWhileAnotherStays(w: World, id: string, now: int, other: string)
    requires GiveUpRefusal(w, id).None? && other != id && other in w.rows && w.rows[other].gaveUpAt.None?
    ensures GaveUp(w, id, now)
         == MarkedGaveUp(w, id, now).(jobs := map[RevealPenalties(w.code, id) := now + ROULETTE_TIMEOUT_MS] + w.jobs)
  {
    assert other in ActiveRows(MarkedGaveUp(w, id, now));
  }

  /** A member who gives up without ever having escaped can still be kicked; the reveal
      job queued by giving up then outlives the session, without a member. */
  lemma KickAfterGiveUpOrphansReveal(w: World, id: string, now: int, fault: Fault, end: int)
    requires fault != AtDelete
    requires Invariant(w) && w.phase == Timer && GiveUpRefusal(w, id).None? && !w.rows[id].hasLogs
    requires id != w.hostId && w.hostId in w.rows && w.rows[w.hostId].gaveUpAt.None?
    ensures var after := SessionEnded(HostKicked(GaveUp(w, id, now), w.hostId, id, fault), end);
            && after.phase == Phase.Result && id !in after.rows
            && RevealPenalties(w.code, id) in after.jobs
  {
    GiveUpWhileAnotherStays(w, id, now, w.hostId);
    GiveUpAdvances(w, id, now);
    KickLeavesReveal(GaveUp(w, id, now), id, fault);
    HostKickAdvances(GaveUp(w, id, now), w.hostId, id, fault);
    EndedJobs(HostKicked(GaveUp(w, id, now), w.hostId, id, fault), end, RevealPenalties(w.code, id));
  }

  lemma KickLeavesReveal(w: World, id: string, fault: Fault)
    requires fault != AtDelete
    requires Invariant(w) && w.phase == Timer && id in w.rows && !w.rows[id].hasLogs
    requires id != w.hostId && w.hostId in w.rows
    ensures var after := HostKicked(w, w.hostId, id, fault);
            after.jobs == w.jobs && after.phase == Timer && id !in after.rows && after.code == w.code
  {
  }

  // ----- sessions without active members -----

  /** The session runs, but nobody is left in it. */
  predicate Abandoned(w: World) { w.phase == Timer && ActiveRows(w) == {} }

  /** No member with a row has signed. */
  predicate NobodySigned(w: World) {
    w.cache.Some? && forall id :: id in w.rows && id in w.cache.value.members ==> !w.cache.value.members[id].isSigned
  }

  /** The host, who must have given up, kicks the last active member, who must not have
      escaped. */
  predicate KickAbandons(w: World, actor: string, target: string, fault: Fault) {
    && w.phase == Timer && fault != AtDelete && actor == w.hostId && actor in w.rows && actor != target
    && ActiveRows(w) == {target} && !w.rows[target].hasLogs
  }

  /** An empty room starts; nobody left in the cached state holds it up. */
  predicate StartAbandons(w: World, actor: string, fails: bool) {
    StartRefusal(w, actor).None? && !fails && w.rows == map[] && UnsignedMembers(w.cache.value.members) == {}
  }

  /** A forced start goes through with nobody signed. */
  predicate ForceStartAbandons(w: World, actor: string, faults: Faults, fails: bool) {
    StartRefusal(w, actor).None? && !fails && NobodySigned(w) && AllKicksSucceed(w, faults)
  }

  predicate AllKicksSucceed(w: World, faults: Faults)
    requires w.cache.Some?
  {
    KickedBy(UnsignedMembers(w.cache.value.members), faults) == UnsignedMembers(w.cache.value.members)
  }

  /** The steps that leave a session without active members. */
  predicate Abandons(w: World, op: Op) {
    match op
    case HostKick(actor, target, fault) => KickAbandons(w, actor, target, fault)
    case Start(actor, _, fails) => StartAbandons(w, actor, fails)
    case ForceStart(actor, _, faults, fails) => ForceStartAbandons(w, actor, faults, fails)
    case _ => false
  }

  lemma StillActive(after: World, id: string)
    requires id in after.rows && after.rows[id].gaveUpAt.None?
    ensures !Abandoned(after)
  {
    assert id in ActiveRows(after);
  }

  /** The kick gets as far as deleting the row. */
  predicate DeletesRow(w: World, actor: string, target: string, fault: Fault) {
    KickAllowed(w, actor, target) && !HasLoggedRow(w, target) && fault != AtDelete
  }

  lemma KickedRows(w: World, actor: string, target: string, fault: Fault)
    ensures HostKicked(w, actor, target, fault).phase == w.phase
    ensures HostKicked(w, actor, target, fault).rows
         == if DeletesRow(w, actor, target, fault) then w.rows - {target} else w.rows
  {
  }

  lemma KickAbandonsIff(w: World, actor: string, target: string, fault: Fault)
    requires CacheCovers(w) && Membership(w) && w.phase == Timer && ActiveRows(w) != {}
    ensures Abandoned(HostKicked(w, actor, target, fault)) <==> KickAbandons(w, actor, target, fault)
  {
    var after := HostKicked(w, actor, target, fault);
    KickedRows(w, actor, target, fault);
    if DeletesRow(w, actor, target, fault) {
      KickedByHost(w, actor, target);
      assert ActiveRows(after) == ActiveRows(w) - {target};
    } else {
      SameRowsSameActive(w, after);
    }
    if KickAbandons(w, actor, target, fault) {
      assert target in ActiveRows(w);
    }
  }

  lemma EndingNotAbandoned(w: World, op: Op)
    requires w.phase == Timer && ActiveRows(w) != {} && (op.GiveUp? || op.RunJob? || op.Cleanup? || op.Restart?)
    ensures !Abandoned(Next(w, op))
  {
    match op {
      case GiveUp(id, now) =>
      case RunJob(j, now) => assert ActiveRows(w.(jobs := w.jobs - {j})) == ActiveRows(w);
      case Cleanup => assert ActiveRows(w.(cleanupPending := false)) == ActiveRows(w);
      case Restart(lost, now) => assert ActiveRows(Restarted(w, lost, now)) == ActiveRows(w);
    }
  }

  lemma RefusedWhileRunning(w: World, op: Op)
    requires w.phase == Timer && (op.Leave? || op.Start? || op.ForceStart?)
    ensures Next(w, op) == w
  {
  }

  lemma AllActiveBefore(w: World)
    requires Membership(w) && Rank(w.phase) < Rank(Timer)
    ensures ActiveRows(w) == w.rows.Keys
  {
  }

  lemma StartedShape(w: World, actor: string, now: int, fails: bool)
    requires w.phase != Timer
    ensures Started(w, actor, now, fails).rows == w.rows
    ensures Started(w, actor, now, fails).phase == Timer <==>
              StartRefusal(w, actor).None? && UnsignedMembers(w.cache.value.members) == {} && !fails
  {
  }

  lemma EmptyRoom(w: World)
    requires Membership(w) && Rank(w.phase) < Rank(Timer)
    ensures ActiveRows(w) == {} <==> w.rows == map[]
  {
    AllActiveBefore(w);
  }

  lemma BegunAbandonsIff(w: World, actor: string, fails: bool, after: World)
    requires Membership(w) && after.rows == w.rows
    requires after.phase == Timer <==>
               StartRefusal(w, actor).None? && UnsignedMembers(w.cache.value.members) == {} && !fails
    ensures Abandoned(after) <==> StartAbandons(w, actor, fails)
  {
    SameRowsSameActive(w, after);
    if StartRefusal(w, actor).None? {
      EmptyRoom(w);
    }
  }

  lemma StartAbandonsIff(w: World, actor: string, now: int, fails: bool)
    requires Membership(w) && w.phase != Timer
    ensures Abandoned(Started(w, actor, now, fails)) <==> StartAbandons(w, actor, fails)
  {
    StartedShape(w, actor, now, fails);
    BegunAbandonsIff(w, actor, fails, Started(w, actor, now, fails));
  }

  lemma SameRowsSameActive(w: World, after: World)
    requires after.rows == w.rows
    ensures ActiveRows(after) == ActiveRows(w)
  {
  }

  lemma SignedStay(w: World)
    requires CacheCovers(w) && w.cache.Some? && !IsHostUnsigned(w.cache.value.members)
    ensures (w.rows - UnsignedMembers(w.cache.value.members)).Keys == {} <==> NobodySigned(w)
  {
    var members := w.cache.value.members;
    HostSigned(members);
    forall id | id in w.rows ensures id in w.rows - UnsignedMembers(members) <==> members[id].isSigned {
      assert id in members;
    }
  }

  lemma ForceStartNotBegun(w: World, actor: string, now: int, faults: Faults, fails: bool)
    requires w.phase != Timer
    requires StartRefusal(w, actor).None? ==> fails || !AllKicksSucceed(w, faults)
    ensures ForceStarted(w, actor, now, faults, fails).phase != Timer
  {
  }

  lemma ForceStartAbandonsIff(w: World, actor: string, now: int, faults: Faults, fails: bool)
    requires CacheCovers(w) && Membership(w) && w.phase != Timer
    ensures Abandoned(ForceStarted(w, actor, now, faults, fails)) <==> ForceStartAbandons(w, actor, faults, fails)
  {
    if StartRefusal(w, actor).Some? || fails || !AllKicksSucceed(w, faults) {
      ForceStartNotBegun(w, actor, now, faults, fails);
    } else {
      ForceStartedShape(w, actor, now, faults);
      StartReady(w, actor);
      BegunForceAbandons(w, ForceStarted(w, actor, now, faults, fails));
    }
  }

  lemma StartReady(w: World, actor: string)
    requires StartRefusal(w, actor).None?
    ensures w.phase == Contract && w.cache.Some? && !IsHostUnsigned(w.cache.value.members)
  {
  }

  lemma BegunForceAbandons(w: World, after: World)
    requires CacheCovers(w) && Membership(w) && Rank(w.phase) < Rank(Timer)
    requires w.cache.Some? && !IsHostUnsigned(w.cache.value.members)
    requires after.phase == Timer && after.rows == w.rows - UnsignedMembers(w.cache.value.members)
    ensures Abandoned(after) <==> NobodySigned(w)
  {
    AbandonedByRows(w, UnsignedMembers(w.cache.value.members), after);
    SignedStay(w);
  }

  lemma AbandonedByRows(w: World, gone: set<string>, after: World)
    requires Membership(w) && Rank(w.phase) < Rank(Timer) && after.phase == Timer && after.rows == w.rows - gone
    ensures Abandoned(after) <==> (w.rows - gone).Keys == {}
  {
    SurvivorsActive(w, gone, after);
  }

  lemma SurvivorsActive(w: World, gone: set<string>, after: World)
    requires Membership(w) && Rank(w.phase) < Rank(Timer) && after.rows == w.rows - gone
    ensures ActiveRows(after) == (w.rows - gone).Keys
  {
    forall id | id in after.rows ensures after.rows[id].gaveUpAt.None? {
      assert id in w.rows && after.rows[id] == w.rows[id];
    }
  }

  lemma ForceStartedShape(w: World, actor: string, now: int, faults: Faults)
    requires StartRefusal(w, actor).None? && AllKicksSucceed(w, faults)
    ensures var after := ForceStarted(w, actor, now, faults, false);
            after.phase == Timer && after.rows == w.rows - UnsignedMembers(w.cache.value.members)
  {
    AllKickedWhenAllSucceed(w, UnsignedMembers(w.cache.value.members), faults);
  }

  lemma NotStarting(w: World, op: Op)
    requires Invariant(w) && w.phase != Timer && !op.Start? && !op.ForceStart?
    ensures Next(w, op).phase != Timer
  {
  }

  /** A session without active members comes about in exactly three ways: the host kicks the
      last of them, an empty room starts, or a forced start goes through with nobody
      signed.  Giving up cannot do it, since the last give-up ends the session. */
  lemma AbandonedIff(w: World, op: Op)
    requires Invariant(w) && !Abandoned(w)
    ensures Abandoned(Next(w, op)) <==> Abandons(w, op)
  {
    if w.phase == Timer {
      var id :| id in ActiveRows(w);
      if op.HostKick? {
        KickAbandonsIff(w, op.actor, op.target, op.fault);
      } else if op.GiveUp? || op.RunJob? || op.Cleanup? || op.Restart? {
        EndingNotAbandoned(w, op);
      } else if op.Leave? || op.Start? || op.ForceStart? {
        RefusedWhileRunning(w, op);
      } else {
        QuietSteps(w, op);
        StillActive(Next(w, op), id);
      }
    } else if op.Start? {
      StartAbandonsIff(w, op.actor, op.now, op.fails);
    } else if op.ForceStart? {
      ForceStartAbandonsIff(w, op.actor, op.now, op.faults, op.fails);
    } else {
      NotStarting(w, op);
    }
  }

  /** An abandoned session that also loses its last connection is closed by the cleanup, and
      nothing that happens afterwards makes its results viewable. */
  lemma AbandonedIsNeverViewable(w: World, ops: seq<Op>)
    requires Invariant(w) && Abandoned(w) && w.cleanupPending
    ensures CleanedUp(w).phase == Closed && !ResultViewable(Run(CleanedUp(w), ops))
  {
    CleanupAdvances(w);
    RunAdvances(CleanedUp(w), ops);
  }

  // ----- cleanup -----

  /** The delayed cleanup closes a room exactly when it is still open, before the session
      or in a session without active members; it never closes a room in the result phase
      or one with a member cached as connected. */
  lemma CleanupClosesIff(w: World)
    requires Invariant(w) && w.phase != Closed && w.cleanupPending
    ensures CleanedUp(w).phase == Closed <==> w.phase != Phase.Result && (w.phase == Timer ==> ActiveRows(w) == {})
    ensures CleanedUp(w).phase == Closed ==> ConnectedMembers(w) == {}
    ensures CleanedUp(w).phase != Closed ==> CleanedUp(w) == w.(cleanupPending := false)
  {
  }
}
