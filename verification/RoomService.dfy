/** The room's services on their stored state: each method loads, changes and saves the
    rows, the cached state, the bans and the queue, and is proved to perform the step
    that the room operations describe and to keep the room protocol's invariant. */
module RoomService {
  import opened Wrappers
  import opened Timeline
  import opened Phases
  import opened SessionJobs
  import opened RoomOperations
  import opened RoomProtocol

  lemma WithoutTwice(cache: Option<RoomState>, a: set<string>, b: set<string>)
    ensures WithoutCachedMembers(WithoutCachedMembers(cache, a), b) == WithoutCachedMembers(cache, a + b)
    ensures WithoutCachedMembers(cache, {}) == cache
  {
    if cache.Some? {
      assert cache.value.members - a - b == cache.value.members - (a + b);
      assert cache.value.members - {} == cache.value.members;
    }
  }

  lemma OneMoreAttempt(w: World, id: string, faults: Faults, n: nat)
    ensures AfterAttempts(w, id, faults, n + 1) == AttemptEffect(AfterAttempts(w, id, faults, n), id, faults(id, n))
  {
    WithoutTwice(w.cache, {id}, {id});
    assert {id} + {id} == {id};
    assert w.rows - {id} - {id} == w.rows - {id};
    assert w.bans + {id} + {id} == w.bans + {id};
  }

  /** The list names each member of the set once, and nobody else. */
  ghost predicate Lists(names: seq<string>, s: set<string>) {
    (forall id :: id in names <==> id in s) && |names| == |s|
  }

  lemma ListsOneMore(names: seq<string>, s: set<string>, id: string)
    requires Lists(names, s) && id !in s
    ensures Lists(names + [id], s + {id})
  {
  }

  lemma OneMoreKicked(w: World, ids: set<string>, id: string, faults: Faults)
    requires id !in ids
    ensures KickedBy(ids + {id}, faults)
         == if Succeeds(faults, id, KICK_ATTEMPTS) then KickedBy(ids, faults) + {id} else KickedBy(ids, faults)
    ensures AfterKicks(w, ids + {id}, faults) == AfterAttempts(AfterKicks(w, ids, faults), id, faults, KICK_ATTEMPTS)
  {
    var d, u, k := DeletedBy(ids, faults), UncachedBy(ids, faults), KickedBy(ids, faults);
    assert DeletedBy(ids + {id}, faults) == if Deletes(faults, id, KICK_ATTEMPTS) then d + {id} else d;
    assert UncachedBy(ids + {id}, faults) == if Uncaches(faults, id, KICK_ATTEMPTS) then u + {id} else u;
    assert KickedBy(ids + {id}, faults) == if Succeeds(faults, id, KICK_ATTEMPTS) then k + {id} else k;
    assert w.rows - d - {id} == w.rows - (d + {id});
    assert w.bans + k + {id} == w.bans + (k + {id});
    WithoutTwice(w.cache, u, {id});
  }

  lemma NobodyKicked(w: World, faults: Faults)
    ensures AfterKicks(w, {}, faults) == w
  {
    assert DeletedBy({}, faults) == {} && UncachedBy({}, faults) == {} && KickedBy({}, faults) == {};
    assert w.rows - {} == w.rows;
    WithoutTwice(w.cache, {}, {});
  }

  /** The members a forced start kicks have no escape logs yet. */
  lemma TargetsHaveNoLogs(w: World, actor: string)
    requires Membership(w) && JobsAccounted(w) && StartRefusal(w, actor).None?
    ensures w.phase == Contract && w.plan.Some? && WithinRequestBounds(w.plan.value) && w.cache.Some?
    ensures !IsHostUnsigned(w.cache.value.members)
    ensures forall id :: id in w.rows ==> !w.rows[id].hasLogs
  {
    assert Rank(w.phase) < Rank(Timer);
  }

  lemma AllKickedOutcome(w: World, faults: Faults, now: int)
    requires w.cache.Some? && w.plan.Some? && !IsHostUnsigned(w.cache.value.members)
    requires KickedBy(UnsignedMembers(w.cache.value.members), faults) == UnsignedMembers(w.cache.value.members)
    ensures var kicked := AfterKicks(w, UnsignedMembers(w.cache.value.members), faults);
            && kicked.plan == w.plan && kicked.cache.Some?
            && UnsignedMembers(kicked.cache.value.members) == {} && !IsHostUnsigned(kicked.cache.value.members)
            && AllSigned(Began(kicked, now))
  {
    AllKickedWhenAllSucceed(w, UnsignedMembers(w.cache.value.members), faults);
    SignedAfterKicks(w.cache.value.members);
  }

  lemma NoneFailed(targets: set<string>, faults: Faults)
    requires targets - KickedBy(targets, faults) == {}
    ensures KickedBy(targets, faults) == targets
  {
    assert KickedBy(targets, faults) <= targets;
    assert targets == targets - KickedBy(targets, faults) + KickedBy(targets, faults);
  }

  lemma SignedAfterKicks(members: map<string, CachedMember>)
    requires !IsHostUnsigned(members)
    ensures var left := members - UnsignedMembers(members);
            UnsignedMembers(left) == {} && !IsHostUnsigned(left) && forall id :: id in left ==> left[id].isSigned
  {
    HostSigned(members);
  }

  /** A host, or another member, in the cached state has not signed. */
  predicate SomeoneUnsigned(members: map<string, CachedMember>, isHost: bool) {
    exists id :: id in members && members[id].isHost == isHost && !members[id].isSigned
  }

  class RoomStore {
    const code: string
    const hostId: string
    const queue: SessionQueue
    var phase: Phase
    var plan: Option<Plan>
    var startedAt: Option<int>
    var endedAt: Option<int>
    var rows: map<string, MemberRow>
    var cache: Option<RoomState>
    var bans: set<string>
    var cleanupPending: bool

    ghost function Snapshot(): World
      reads this, queue
    {
      World(code, hostId, phase, plan, startedAt, endedAt, rows, cache, bans, queue.jobs, cleanupPending)
    }

    /** Creates the room with its cached state. */
    constructor (code: string, hostId: string)
      ensures Snapshot() == Created(code, hostId) && fresh(queue)
    {
      this.code, this.hostId := code, hostId;
      queue := new SessionQueue();
      phase, plan, startedAt, endedAt := Lobby, None, None, None;
      rows, cache, bans, cleanupPending := map[], Some(RoomState(hostId, Lobby, map[])), {}, false;
    }

    method Join(id: string, passwordOk: bool, inOtherSession: bool) returns (r: Wrappers.Result<bool, RoomError>)
      modifies this
      ensures Snapshot() == Joined(old(Snapshot()), id, passwordOk, inOtherSession)
      ensures Invariant(old(Snapshot())) ==> Advances(old(Snapshot()), Snapshot())
      ensures r == if !("guest_" <= id)
                      && (inOtherSession || (old(phase) == Timer && id in old(rows) && old(rows)[id].gaveUpAt.None?))
                   then Err(InAnotherSession)
                   else if old(phase) == Closed || old(phase) == Phase.Result then Err(RoomEnded)
                   else if id in old(bans) then Err(Banned)
                   else if id in old(rows) && old(rows)[id].gaveUpAt.Some? then Err(AlreadyGaveUp)
                   else if old(phase) == Timer && id !in old(rows) then Err(AlreadyStarted)
                   else if id != hostId && !passwordOk then Err(WrongPassword)
                   else if id !in old(rows) && |old(rows)| >= 10 then Err(RoomFull)
                   else Ok(id in old(rows))
    {
      if Invariant(Snapshot()) {
        JoinAdvances(Snapshot(), id, passwordOk, inOtherSession);
      }
      var returning := id in rows;
      if !IsGuest(id) {
        if inOtherSession || (phase == Timer && returning && rows[id].gaveUpAt.None?) {
          return Err(InAnotherSession);
        }
      }
      if phase == Closed || phase == Phase.Result {
        return Err(RoomEnded);
      }
      if id in bans {
        return Err(Banned);
      }
      if returning && rows[id].gaveUpAt.Some? {
        return Err(AlreadyGaveUp);
      }
      if phase == Timer && !returning {
        return Err(AlreadyStarted);
      }
      var isHost := id == hostId;
      if !isHost && !passwordOk {
        return Err(WrongPassword);
      }
      if !returning && |rows| >= MAX_MEMBERS {
        return Err(RoomFull);
      }
      HandleMemberUpsert(id, returning);
      return Ok(returning);
    }

    /** Stores a row unless there is one, and resets the cached entry. */
    method HandleMemberUpsert(id: string, returning: bool)
      requires returning <==> id in rows
      modifies this`rows, this`cache
      ensures Snapshot() == Admitted(old(Snapshot()), id)
    {
      var isHost := id == hostId;
      if !returning {
        rows := rows[id := MemberRow(isHost, None, false)];
      }
      if cache.Some? {
        var state := cache.value;
        state := state.(members := state.members[id := CachedMember(isHost, false, None, None)]);
        cache := Some(state);
      }
    }

    method LeaveRoom(id: string) returns (r: Wrappers.Result<bool, RoomError>)
      modifies this, queue
      ensures Snapshot() == Left(old(Snapshot()), id)
      ensures Invariant(old(Snapshot())) ==> Advances(old(Snapshot()), Snapshot())
      ensures r == if old(phase) != Lobby && old(phase) != Contract then Err(NotAllowedNow)
                   else if id != hostId && id !in old(rows) then Err(NotAMember)
                   else Ok(id == hostId)
    {
      if Invariant(Snapshot()) {
        LeaveAdvances(Snapshot(), id);
      }
      if phase != Lobby && phase != Contract {
        return Err(NotAllowedNow);
      }
      if hostId == id {
        DeleteRoom();
        return Ok(true);
      }
      if id !in rows {
        return Err(NotAMember);
      }
      rows := rows - {id};
      if cache.Some? {
        var state := cache.value;
        cache := Some(state.(members := state.members - {id}));
      }
      return Ok(false);
    }

    method DeleteRoom()
      modifies this, queue
      ensures Snapshot() == Deleted(old(Snapshot()))
      ensures Invariant(old(Snapshot())) && old(phase) != Phase.Result ==> Advances(old(Snapshot()), Snapshot())
    {
      if Invariant(Snapshot()) && phase != Phase.Result {
        DeletedAdvances(Snapshot());
      }
      cache := None;
      phase := Closed;
      var rounds := if plan.Some? then plan.value.rounds else MAX_ROUNDS_FALLBACK;
      queue.CancelSessionJobs(code, rounds, rows.Keys);
    }

    /** One kick: delete the row, drop the cached entry, ban; it may fail between these,
        and it fails at once when logs refer to the row. */
    method KickMember(id: string, fault: Fault) returns (done: bool)
      modifies this`rows, this`cache, this`bans
      ensures done <==> fault == NoFault && !(id in old(rows) && old(rows)[id].hasLogs)
      ensures Snapshot() == KickedOut(old(Snapshot()), id, fault)
      ensures id in old(rows) && old(rows)[id].hasLogs ==> Snapshot() == old(Snapshot())
      ensures done ==> id !in rows && id in bans && (cache.Some? ==> id !in cache.value.members)
    {
      if fault == AtDelete || (id in rows && rows[id].hasLogs) {
        return false;
      }
      rows := rows - {id};
      if fault == AtSave {
        return false;
      }
      if cache.Some? {
        var state := cache.value;
        cache := Some(state.(members := state.members - {id}));
      }
      if fault == AtBan {
        return false;
      }
      bans := bans + {id};
      return true;
    }

    /** The host's kick message; a kick that fails is not tried again. */
    method HandleKick(actor: string, target: string, fault: Fault)
      modifies this`rows, this`cache, this`bans
      ensures Snapshot() == HostKicked(old(Snapshot()), actor, target, fault)
      ensures Invariant(old(Snapshot())) ==> Advances(old(Snapshot()), Snapshot())
    {
      if Invariant(Snapshot()) {
        HostKickAdvances(Snapshot(), actor, target, fault);
      }
      if actor == target || cache.None? {
        return;
      }
      if actor !in cache.value.members || !cache.value.members[actor].isHost {
        return;
      }
      var done := KickMember(target, fault);
    }

    method TransitionToContract()
      modifies this`cache, this`phase
      ensures Snapshot() == ToContract(old(Snapshot()))
      ensures Invariant(old(Snapshot())) ==> Advances(old(Snapshot()), Snapshot())
    {
      if Invariant(Snapshot()) {
        ToContractAdvances(Snapshot());
      }
      if cache.None? || cache.value.phase != Lobby {
        return;
      }
      cache := Some(cache.value.(phase := Contract));
      phase := Contract;
    }

    method SetConnected(id: string, socket: Option<int>)
      modifies this`cache
      ensures Snapshot() == SetSocket(old(Snapshot()), id, socket)
    {
      if cache.Some? && id in cache.value.members {
        var state := cache.value;
        cache := Some(state.(members := state.members[id := state.members[id].(socket := socket)]));
      }
    }

    method HandleConnection(id: string, socket: int) returns (accepted: bool)
      modifies this
      ensures Snapshot() == Connected(old(Snapshot()), id, socket)
      ensures Invariant(old(Snapshot())) ==> Advances(old(Snapshot()), Snapshot())
      ensures accepted <==> && old(cache).Some? && id in old(rows)
                            && old(cache).value.phase != Closed && old(cache).value.phase != Phase.Result
                            && (old(cache).value.phase == Timer ==> id in old(cache).value.members)
    {
      if Invariant(Snapshot()) {
        ConnectAdvances(Snapshot(), id, socket);
      }
      if cache.None? {
        return false;
      }
      if cache.value.phase == Timer && id !in cache.value.members {
        return false;
      }
      if cache.value.phase == Closed || cache.value.phase == Phase.Result {
        return false;
      }
      if id !in rows {
        return false;
      }
      cleanupPending := false;
      SetConnected(id, Some(socket));
      TransitionToContract();
      return true;
    }

    /** An escape start, as far as the row is concerned: from now on logs refer to it. */
    method LogEscapeStart(id: string)
      modifies this`rows
      ensures Snapshot() == EscapeLogged(old(Snapshot()), id)
    {
      if phase == Timer && id in rows && rows[id].gaveUpAt.None? {
        rows := rows[id := rows[id].(hasLogs := true)];
      }
    }

    /** Only the closing of the member's current socket counts. */
    method HandleDisconnect(id: string, socket: int)
      modifies this
      ensures Snapshot() == Disconnected(old(Snapshot()), id, socket)
      ensures Invariant(old(Snapshot())) ==> Advances(old(Snapshot()), Snapshot())
    {
      ghost var before := Snapshot();
      if cache.Some? && id in cache.value.members && cache.value.members[id].socket == Some(socket) {
        var state := cache.value;
        SetConnected(id, None);
        if state.phase == Timer && state.members[id].gaveUpAt.None? {
          LogEscapeStart(id);
        }
        var online := set m | m in cache.value.members && cache.value.members[m].socket.Some?;
        assert online == ConnectedMembers(Snapshot());
        cleanupPending := online == {};
      }
      assert Snapshot() == Disconnected(before, id, socket);
      if Invariant(before) {
        DisconnectAdvances(before, id, socket);
      }
    }

    method SetSigned(id: string, signed: bool) returns (allSigned: Option<bool>)
      modifies this`cache
      ensures Snapshot() == Signed(old(Snapshot()), id, signed)
      ensures Invariant(old(Snapshot())) ==> Advances(old(Snapshot()), Snapshot())
      ensures allSigned.Some? <==> && old(cache).Some? && id in old(cache).value.members
                                   && (old(cache).value.phase == Lobby || old(cache).value.phase == Contract)
      ensures allSigned.Some? ==> cache.Some? && id in cache.value.members && cache.value.members[id].isSigned == signed
      ensures allSigned.Some? ==> allSigned.value == AllSigned(Snapshot())
    {
      if Invariant(Snapshot()) {
        SignAdvances(Snapshot(), id, signed);
      }
      if cache.None? || id !in cache.value.members || (cache.value.phase != Contract && cache.value.phase != Lobby) {
        return None;
      }
      var state := cache.value;
      state := state.(members := state.members[id := state.members[id].(isSigned := signed)]);
      cache := Some(state);
      assert Snapshot() == Signed(old(Snapshot()), id, signed);
      allSigned := Some(forall m :: m in state.members ==> state.members[m].isSigned);
    }

    method ResetAllSigns() returns (reset: bool)
      modifies this`cache
      ensures Snapshot() == SignsReset(old(Snapshot()))
      ensures Invariant(old(Snapshot())) ==> Advances(old(Snapshot()), Snapshot())
    {
      if Invariant(Snapshot()) {
        SignsResetAdvances(Snapshot());
      }
      if cache.None? || (cache.value.phase != Contract && cache.value.phase != Lobby) {
        return false;
      }
      var state := cache.value;
      var members := state.members;
      if !exists m :: m in members && members[m].isSigned {
        assert (map id | id in members :: members[id].(isSigned := false)) == members;
        return false;
      }
      cache := Some(state.(members := map id | id in members :: members[id].(isSigned := false)));
      return true;
    }

    method UpdateCachedPhase(phase: Phase)
      modifies this`cache
      ensures cache == WithCachedPhase(old(cache), phase)
    {
      if cache.Some? {
        cache := Some(cache.value.(phase := phase));
      }
    }

    method BeginSession(plan: Plan, now: int, fails: bool) returns (ok: bool)
      requires this.plan == Some(plan) && WithinRequestBounds(plan)
      modifies this, queue
      ensures ok <==> !fails
      ensures Snapshot() == if ok then Began(old(Snapshot()), now) else old(Snapshot())
    {
      if fails {
        return false;
      }
      phase, startedAt := Timer, Some(now);
      UpdateCachedPhase(Timer);
      queue.ScheduleSessionJobs(code, plan, rows.Keys, now);
      return true;
    }

    method EndSession(now: int)
      modifies this, queue
      ensures Snapshot() == SessionEnded(old(Snapshot()), now)
      ensures Invariant(old(Snapshot())) && Rank(old(phase)) >= Rank(Timer) ==> Advances(old(Snapshot()), Snapshot())
    {
      if Invariant(Snapshot()) && Rank(phase) >= Rank(Timer) {
        EndAdvances(Snapshot(), now);
      }
      if phase == Phase.Result || phase == Closed {
        return;
      }
      phase, endedAt := Phase.Result, Some(now);
      UpdateCachedPhase(Phase.Result);
      var rounds := if plan.Some? then plan.value.rounds else MAX_ROUNDS_FALLBACK;
      queue.CancelSessionJobs(code, rounds, rows.Keys);
      queue.ScheduleRevealJobs(code, rows.Keys, now);
    }

    method GiveUp(id: string, now: int) returns (r: Wrappers.Result<(), RoomError>)
      modifies this, queue
      ensures Snapshot() == GaveUp(old(Snapshot()), id, now)
      ensures Invariant(old(Snapshot())) ==> Advances(old(Snapshot()), Snapshot())
      ensures r == if id !in old(rows) then Err(NotAMember)
                   else if old(phase) != Timer then Err(NotAllowedNow)
                   else if old(rows)[id].gaveUpAt.Some? then Err(AlreadyGaveUp)
                   else Ok(())
    {
      if Invariant(Snapshot()) {
        GiveUpAdvances(Snapshot(), id, now);
      }
      if id !in rows {
        return Err(NotAMember);
      }
      if phase != Timer {
        return Err(NotAllowedNow);
      }
      if rows[id].gaveUpAt.Some? {
        return Err(AlreadyGaveUp);
      }
      rows := rows[id := rows[id].(gaveUpAt := Some(now))];
      queue.Add(RevealPenalties(code, id), now + ROULETTE_TIMEOUT_MS);
      if cache.Some? && id in cache.value.members {
        var state := cache.value;
        cache := Some(state.(members := state.members[id := state.members[id].(gaveUpAt := Some(now))]));
      }
      var active := set m | m in rows && rows[m].gaveUpAt.None?;
      assert active == ActiveRows(Snapshot());
      if active == {} {
        EndSession(now);
      }
      return Ok(());
    }

    method ProcessJob(j: SessionJob, now: int)
      modifies this, queue
      ensures Snapshot() == JobRun(old(Snapshot()), j, now)
      ensures Invariant(old(Snapshot())) ==> Advances(old(Snapshot()), Snapshot())
    {
      if Invariant(Snapshot()) {
        JobAdvances(Snapshot(), j, now);
      }
      if j !in queue.jobs || j.roomCode != code || queue.jobs[j] > now {
        return;
      }
      queue.Remove(j);
      if phase == Phase.Result || phase == Closed {
        return;
      }
      if j.End? {
        EndSession(now);
      }
    }

    method HandleRoomCleanup()
      modifies this, queue
      ensures Snapshot() == CleanedUp(old(Snapshot()))
      ensures Invariant(old(Snapshot())) ==> Advances(old(Snapshot()), Snapshot())
    {
      if Invariant(Snapshot()) {
        CleanupAdvances(Snapshot());
      }
      if !cleanupPending {
        return;
      }
      cleanupPending := false;
      if cache.Some? && (cache.value.phase == Timer || cache.value.phase == Phase.Result) {
        if cache.value.phase == Phase.Result {
          return;
        }
        var active := set m | m in rows && rows[m].gaveUpAt.None?;
        assert active == ActiveRows(old(Snapshot()));
        if active != {} {
          return;
        }
      }
      var online := if cache.None? then {} else set m | m in cache.value.members && cache.value.members[m].socket.Some?;
      assert online == ConnectedMembers(old(Snapshot()));
      if online == {} {
        DeleteRoom();
      }
    }

    // ----- starting -----

    /** The recovery of one room after a restart of the server, which has no timers yet. */
    method RecoverRoom(now: int)
      requires phase == Timer && plan.Some? ==> plan.value.rounds >= 1
      modifies this, queue
      ensures Snapshot() == Restarted(old(Snapshot()), {}, now)
      ensures Invariant(old(Snapshot())) ==> Advances(old(Snapshot()), Snapshot())
    {
      if Invariant(Snapshot()) {
        RestartAdvances(Snapshot(), {}, now);
      }
      cleanupPending := false;
      assert queue.jobs - {} == queue.jobs;
      if phase != Timer || plan.None? || startedAt.None? {
        return;
      }
      var mustEnd := queue.RecoverSession(code, plan.value, startedAt.value, now);
      if mustEnd {
        EndSession(now);
      }
    }

    /** The start succeeds exactly if the checks pass, nobody is unsigned and the start is
        stored. */
    method StartTimer(actor: string, now: int, fails: bool) returns (r: Wrappers.Result<(), RoomError>)
      requires plan.Some? ==> WithinRequestBounds(plan.value)
      modifies this, queue
      ensures Snapshot() == Started(old(Snapshot()), actor, now, fails)
      ensures Invariant(old(Snapshot())) ==> Advances(old(Snapshot()), Snapshot())
      ensures r == if actor != hostId then Err(NotHost)
                   else if old(phase) != Contract then Err(NotAllowedNow)
                   else if old(plan).None? then Err(NoRule)
                   else if old(cache).None? then Err(NoState)
                   else if SomeoneUnsigned(old(cache).value.members, true) then Err(HostUnsigned)
                   else if SomeoneUnsigned(old(cache).value.members, false) then Err(Unsigned)
                   else if fails then Err(StartFailed)
                   else Ok(())
    {
      if Invariant(Snapshot()) {
        StartAdvances(Snapshot(), actor, now, fails);
      }
      var refusal := CheckStart(actor);
      if refusal.Some? {
        return Err(refusal.value);
      }
      var unsigned := UnsignedMembers(cache.value.members);
      if unsigned != {} {
        var id :| id in unsigned;
        assert id in cache.value.members;
        return Err(Unsigned);
      }
      assert forall id :: id in cache.value.members ==> id !in unsigned;
      var ok := BeginSession(plan.value, now, fails);
      if !ok {
        return Err(StartFailed);
      }
      return Ok(());
    }

    method CheckStart(actor: string) returns (refusal: Option<RoomError>)
      ensures refusal == StartRefusal(Snapshot(), actor)
    {
      if hostId != actor {
        return Some(NotHost);
      }
      if phase != Contract {
        return Some(NotAllowedNow);
      }
      if plan.None? {
        return Some(NoRule);
      }
      if cache.None? {
        return Some(NoState);
      }
      if exists m :: m in cache.value.members && cache.value.members[m].isHost && !cache.value.members[m].isSigned {
        return Some(HostUnsigned);
      }
      return None;
    }

    /** Up to three attempts; the first without a fault ends the retries. */
    method KickWithRetry(id: string, faults: Faults) returns (done: bool)
      requires id in rows ==> !rows[id].hasLogs
      modifies this`rows, this`cache, this`bans
      ensures done <==> Succeeds(faults, id, KICK_ATTEMPTS)
      ensures Snapshot() == AfterAttempts(old(Snapshot()), id, faults, KICK_ATTEMPTS)
    {
      ghost var before := Snapshot();
      for attempt := 0 to KICK_ATTEMPTS
        invariant !Succeeds(faults, id, attempt)
        invariant Snapshot() == AfterAttempts(before, id, faults, attempt)
      {
        OneMoreAttempt(before, id, faults, attempt);
        done := KickMember(id, faults(id, attempt));
        if done {
          SuccessSettles(before, id, faults, attempt + 1, KICK_ATTEMPTS);
          return true;
        }
      }
      return false;
    }

    /** Kicks several members, each with retries, going on after failures. */
    method KickEach(targets: set<string>, faults: Faults) returns (kicked: seq<string>, failed: set<string>)
      requires forall id :: id in targets && id in rows ==> !rows[id].hasLogs
      modifies this`rows, this`cache, this`bans
      ensures Snapshot() == AfterKicks(old(Snapshot()), targets, faults)
      ensures failed == targets - KickedBy(targets, faults)
      ensures Lists(kicked, KickedBy(targets, faults))
    {
      ghost var before := Snapshot();
      kicked, failed := [], {};
      var todo := targets;
      NobodyKicked(before, faults);
      assert targets - todo == {};
      while todo != {}
        invariant todo <= targets
        invariant Snapshot() == AfterKicks(before, targets - todo, faults)
        invariant failed == (targets - todo) - KickedBy(targets - todo, faults)
        invariant Lists(kicked, KickedBy(targets - todo, faults))
      {
        var id :| id in todo;
        ghost var done := targets - todo;
        assert targets - (todo - {id}) == done + {id};
        OneMoreKicked(before, done, id, faults);
        var ok := KickWithRetry(id, faults);
        if ok {
          ListsOneMore(kicked, KickedBy(done, faults), id);
          kicked := kicked + [id];
        } else {
          failed := failed + {id};
        }
        todo := todo - {id};
      }
      assert targets - todo == targets;
    }

    /** The kicks and the start of a forced start, after its checks. */
    method KickAndBegin(now: int, faults: Faults, startFails: bool) returns (r: Wrappers.Result<seq<string>, RoomError>)
      requires cache.Some? && plan.Some? && WithinRequestBounds(plan.value) && !IsHostUnsigned(cache.value.members)
      requires forall id :: id in rows ==> !rows[id].hasLogs
      modifies this, queue
      ensures var targets := UnsignedMembers(old(Snapshot()).cache.value.members);
              var kicked := AfterKicks(old(Snapshot()), targets, faults);
              && (r.Ok? <==> KickedBy(targets, faults) == targets && !startFails)
              && (r.Ok? ==> Snapshot() == Began(kicked, now) && AllSigned(Snapshot()) && Lists(r.value, targets))
              && (r.Err? ==> && Snapshot() == kicked
                             && r.error == if KickedBy(targets, faults) == targets then StartFailed else KickFailed)
    {
      ghost var before := Snapshot();
      var targets := UnsignedMembers(cache.value.members);
      var kicked, failed := KickEach(targets, faults);
      if failed != {} {
        return Err(KickFailed);
      }
      NoneFailed(targets, faults);
      AllKickedOutcome(before, faults, now);
      if targets != {} {
        if UnsignedMembers(cache.value.members) != {} || IsHostUnsigned(cache.value.members) {
          assert false;
          return Err(KickFailed);
        }
      }
      var ok := BeginSession(plan.value, now, startFails);
      if !ok {
        return Err(StartFailed);
      }
      return Ok(kicked);
    }

    /** Forced start: kick the unsigned members, then begin.  It succeeds exactly when every
        kick goes through within its attempts and the start is stored; then faults have left
        no trace.  Otherwise the session has not begun and the kicks that were carried out
        stand.  What earlier half-done kicks left does not matter. */
    method ForceStartTimer(actor: string, now: int, faults: Faults, startFails: bool)
      returns (r: Wrappers.Result<seq<string>, RoomError>)
      requires Membership(Snapshot()) && JobsAccounted(Snapshot())
      modifies this, queue
      ensures Snapshot() == ForceStarted(old(Snapshot()), actor, now, faults, startFails)
      ensures Invariant(old(Snapshot())) ==> Advances(old(Snapshot()), Snapshot())
      ensures StartRefusal(old(Snapshot()), actor).Some? ==> Snapshot() == old(Snapshot())
      ensures r == Err(NotHost) <==> actor != hostId
      ensures r == Err(NotAllowedNow) <==> actor == hostId && old(phase) != Contract
      ensures r == Err(NoRule) <==> actor == hostId && old(phase) == Contract && old(plan).None?
      ensures r == Err(NoState) <==> actor == hostId && old(phase) == Contract && old(plan).Some? && old(cache).None?
      ensures r == Err(HostUnsigned) <==>
                && actor == hostId && old(phase) == Contract && old(plan).Some? && old(cache).Some?
                && SomeoneUnsigned(old(cache).value.members, true)
      ensures StartRefusal(old(Snapshot()), actor).None? ==>
                var targets := UnsignedMembers(old(Snapshot()).cache.value.members);
                && (r.Ok? <==> KickedBy(targets, faults) == targets && !startFails)
                && (r.Ok? ==> Snapshot().phase == Timer && AllSigned(Snapshot()) && Lists(r.value, targets))
                && (r.Err? ==> && Snapshot() == AfterKicks(old(Snapshot()), targets, faults)
                               && r.error == if KickedBy(targets, faults) == targets then StartFailed else KickFailed)
    {
      ghost var before := Snapshot();
      var refusal := CheckStart(actor);
      if refusal.Some? {
        r := Err(refusal.value);
      } else {
        TargetsHaveNoLogs(before, actor);
        r := KickAndBegin(now, faults, startFails);
      }
      if Invariant(before) {
        ForceStartAdvances(before, actor, now, faults, startFails);
      }
    }
  }

  /** After a success further attempts are not made, and would change nothing. */
  lemma {:induction false} SuccessSettles(w: World, id: string, faults: Faults, n: nat, m: nat)
    requires Succeeds(faults, id, n) && n <= m
    ensures Succeeds(faults, id, m) && AfterAttempts(w, id, faults, m) == AfterAttempts(w, id, faults, n)
  {
    StagesNested(faults, id, n);
    if n < m {
      SuccessSettles(w, id, faults, n, m - 1);
      StagesNested(faults, id, m - 1);
    }
  }
}
