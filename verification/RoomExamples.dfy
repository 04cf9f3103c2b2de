/** Short runs of a created room, one for each property that rooms can fail to have. */
module RoomExamples {
  import opened Wrappers
  import opened Timeline
  import opened Phases
  import opened SessionJobs
  import opened RoomOperations
  import opened RoomProtocol
  import opened RoomAgreement
  import opened RoomConnections

  const ROOM := "r"
  const HOST := "h"
  const MEMBER := "guest_a"

  /** Some run of the created room ends in the state. */
  ghost predicate Reachable(w: World) { exists ops :: Run(Created(ROOM, HOST), ops) == w }

  lemma {:induction false} RunOneMore(w: World, ops: seq<Op>, op: Op)
    ensures Run(w, ops + [op]) == Next(Run(w, ops), op)
    decreases |ops|
  {
    if ops == [] {
      assert [] + [op] == [op];
      assert Run(w, [op]) == Run(Next(w, op), []);
    } else {
      assert (ops + [op])[1..] == ops[1..] + [op];
      RunOneMore(Next(w, ops[0]), ops[1..], op);
    }
  }

  lemma ReachableNext(w: World, op: Op)
    requires Reachable(w)
    ensures Reachable(Next(w, op))
  {
    var ops :| Run(Created(ROOM, HOST), ops) == w;
    RunOneMore(Created(ROOM, HOST), ops, op);
  }

  lemma ReachableStart()
    ensures Reachable(Created(ROOM, HOST))
  {
    assert Run(Created(ROOM, HOST), []) == Created(ROOM, HOST);
  }

  // ----- a room with a host and one member -----

  const HOST_ROW := MemberRow(true, None, false)
  const MEMBER_ROW := MemberRow(false, None, false)

  function Host(signed: bool, socket: Option<int>): CachedMember { CachedMember(true, signed, socket, None) }

  function Member(signed: bool, socket: Option<int>): CachedMember { CachedMember(false, signed, socket, None) }

  /** A room before its session. */
  function Before(phase: Phase, plan: Option<Plan>, rows: map<string, MemberRow>, members: map<string, CachedMember>)
    : World
  {
    World(ROOM, HOST, phase, plan, None, None, rows, Some(RoomState(HOST, phase, members)), {}, map[], false)
  }

  const BOTH_ROWS := map[HOST := HOST_ROW, MEMBER := MEMBER_ROW]

  /** Host and member have joined, the host is connected, the rule is set. */
  function InContract(p: Plan, hostSigned: bool, memberSigned: bool): World {
    Before(Contract, Some(p), BOTH_ROWS, map[HOST := Host(hostSigned, Some(0)), MEMBER := Member(memberSigned, None)])
  }

  lemma BothJoin()
    ensures Joined(Created(ROOM, HOST), HOST, true, false)
         == Before(Lobby, None, map[HOST := HOST_ROW], map[HOST := Host(false, None)])
    ensures Joined(Before(Lobby, None, map[HOST := HOST_ROW], map[HOST := Host(false, None)]), MEMBER, true, false)
         == Before(Lobby, None, BOTH_ROWS, map[HOST := Host(false, None), MEMBER := Member(false, None)])
  {
    assert |map[HOST := HOST_ROW]| == 1;
    assert HOST != MEMBER;
  }

  lemma HostConnects(p: Plan)
    requires WithinRequestBounds(p)
    ensures var joined := Before(Lobby, None, BOTH_ROWS, map[HOST := Host(false, None), MEMBER := Member(false, None)]);
            RuleSet(Connected(joined, HOST, 0), HOST, p) == InContract(p, false, false)
  {
    var joined := Before(Lobby, None, BOTH_ROWS, map[HOST := Host(false, None), MEMBER := Member(false, None)]);
    assert HOST != MEMBER;
    assert joined.cache.value.members[HOST := Host(false, Some(0))]
        == map[HOST := Host(false, Some(0)), MEMBER := Member(false, None)];
  }

  lemma ContractReachable(p: Plan)
    requires WithinRequestBounds(p)
    ensures Reachable(InContract(p, false, false))
  {
    ReachableStart();
    ReachableNext(Created(ROOM, HOST), Join(HOST, true, false));
    BothJoin();
    ReachableNext(Before(Lobby, None, map[HOST := HOST_ROW], map[HOST := Host(false, None)]),
                  Join(MEMBER, true, false));
    var joined := Before(Lobby, None, BOTH_ROWS, map[HOST := Host(false, None), MEMBER := Member(false, None)]);
    ReachableNext(joined, Connect(HOST, 0));
    ReachableNext(Connected(joined, HOST, 0), SetRule(HOST, p));
    HostConnects(p);
  }

  lemma HostSigns(p: Plan)
    requires WithinRequestBounds(p)
    ensures Reachable(InContract(p, true, false))
  {
    ContractReachable(p);
    ReachableNext(InContract(p, false, false), Sign(HOST, true));
    assert HOST != MEMBER;
    assert Signed(InContract(p, false, false), HOST, true) == InContract(p, true, false) by {
      assert InContract(p, false, false).cache.value.members[HOST := Host(true, Some(0))]
          == InContract(p, true, false).cache.value.members;
    }
  }

  lemma BothSign(p: Plan)
    requires WithinRequestBounds(p)
    ensures Reachable(InContract(p, true, true))
  {
    HostSigns(p);
    ReachableNext(InContract(p, true, false), Sign(MEMBER, true));
    assert HOST != MEMBER;
    assert Signed(InContract(p, true, false), MEMBER, true) == InContract(p, true, true) by {
      assert InContract(p, true, false).cache.value.members[MEMBER := Member(true, None)]
          == InContract(p, true, true).cache.value.members;
    }
  }

  /** The session of both, begun at instant 0. */
  function Running(p: Plan): World {
    World(ROOM, HOST, Timer, Some(p), Some(0), None, BOTH_ROWS,
          Some(RoomState(HOST, Timer, map[HOST := Host(true, Some(0)), MEMBER := Member(true, None)])),
          {}, Upcoming(ROOM, p, 0, 0), false)
  }

  lemma RunningReachable(p: Plan)
    requires WithinRequestBounds(p)
    ensures Reachable(Running(p))
  {
    var w := InContract(p, true, true);
    BothSign(p);
    ReachableNext(w, Start(HOST, 0, false));
    SignedStart(p);
  }

  lemma SignedStart(p: Plan)
    requires WithinRequestBounds(p)
    ensures Started(InContract(p, true, true), HOST, 0, false) == Running(p)
  {
    var w := InContract(p, true, true);
    assert StartRefusal(w, HOST).None?;
    assert UnsignedMembers(w.cache.value.members) == {};
    assert Upcoming(ROOM, p, 0, 0) + (w.jobs - Cancelled(ROOM, p.rounds, w.rows.Keys)) == Upcoming(ROOM, p, 0, 0);
  }

  // ----- an orphaned reveal job -----

  /** The member gives up without ever having escaped, and the host kicks the member. */
  function MemberKicked(p: Plan): World { HostKicked(GaveUp(Running(p), MEMBER, 1), HOST, MEMBER, NoFault) }

  lemma MemberKickedState(p: Plan)
    requires WithinRequestBounds(p)
    ensures var kicked := MemberKicked(p);
            && kicked.phase == Timer && kicked.code == ROOM && kicked.plan == Some(p) && kicked.rows.Keys == {HOST}
            && RevealPenalties(ROOM, MEMBER) in kicked.jobs
            && End(ROOM) in kicked.jobs && kicked.jobs[End(ROOM)] == SessionMs(p)
  {
    var w := Running(p);
    assert HOST != MEMBER;
    GiveUpWhileAnotherStays(w, MEMBER, 1, HOST);
    UpcomingIff(ROOM, p, 0, 0, End(ROOM));
    OffsetsPositive(ROOM, p, End(ROOM));
    var gone := GaveUp(w, MEMBER, 1);
    assert !gone.rows[MEMBER].hasLogs;
  }

  lemma EndLeavesReveal(w: World, p: Plan, now: int)
    requires w.phase == Timer && w.code == ROOM && w.plan == Some(p) && w.rows.Keys == {HOST}
    requires RevealPenalties(ROOM, MEMBER) in w.jobs && End(ROOM) in w.jobs && w.jobs[End(ROOM)] <= now
    ensures var after := JobRun(w, End(ROOM), now);
            after.phase == Phase.Result && after.rows == w.rows && RevealPenalties(ROOM, MEMBER) in after.jobs
  {
    RevealCancelledIff(ROOM, p.rounds, {HOST}, MEMBER);
    assert HOST != MEMBER;
    assert RevealPenalties(ROOM, MEMBER) in w.jobs - {End(ROOM)};
  }

  lemma MemberKickedReachable(p: Plan)
    requires WithinRequestBounds(p)
    ensures Reachable(MemberKicked(p))
  {
    RunningReachable(p);
    ReachableNext(Running(p), GiveUp(MEMBER, 1));
    ReachableNext(GaveUp(Running(p), MEMBER, 1), HostKick(HOST, MEMBER, NoFault));
  }

  ghost predicate OrphanReachable() {
    exists w :: Reachable(w) && w.phase == Phase.Result && MEMBER !in w.rows && RevealPenalties(ROOM, MEMBER) in w.jobs
  }

  lemma EndsWithOrphan(w: World, p: Plan, now: int)
    requires Reachable(w) && w.phase == Timer && w.code == ROOM && w.plan == Some(p) && w.rows.Keys == {HOST}
    requires RevealPenalties(ROOM, MEMBER) in w.jobs && End(ROOM) in w.jobs && w.jobs[End(ROOM)] <= now
    ensures OrphanReachable()
  {
    ReachableNext(w, RunJob(End(ROOM), now));
    EndLeavesReveal(w, p, now);
    assert HOST != MEMBER;
  }

  /** A run after which a reveal job is queued for nobody. */
  lemma OrphanedReveal(p: Plan)
    requires WithinRequestBounds(p)
    ensures OrphanReachable()
  {
    MemberKickedReachable(p);
    MemberKickedState(p);
    EndsWithOrphan(MemberKicked(p), p, SessionMs(p));
  }

  // ----- sessions without members -----

  /** The host gives up and kicks the other member. */
  function HostAlone(p: Plan): World { HostKicked(GaveUp(Running(p), HOST, 1), HOST, MEMBER, NoFault) }

  predicate IsHostAlone(w: World) {
    && Abandoned(w) && w.startedAt.Some? && w.endedAt.None? && w.cache.Some?
    && w.cache.value.phase == Timer && w.cache.value.members.Keys == {HOST}
    && w.cache.value.members[HOST].socket == Some(0) && w.cache.value.members[HOST].gaveUpAt.Some?
  }

  lemma HostAloneState(p: Plan)
    ensures IsHostAlone(HostAlone(p))
  {
    assert HOST != MEMBER;
    GiveUpWhileAnotherStays(Running(p), HOST, 1, MEMBER);
    var gone := GaveUp(Running(p), HOST, 1);
    assert !gone.rows[MEMBER].hasLogs;
    assert HostAlone(p).rows.Keys == {HOST};
    assert HostAlone(p).rows[HOST].gaveUpAt.Some?;
  }

  lemma HostAloneReachable(p: Plan)
    requires WithinRequestBounds(p)
    ensures Reachable(HostAlone(p))
  {
    RunningReachable(p);
    ReachableNext(Running(p), GiveUp(HOST, 1));
    ReachableNext(GaveUp(Running(p), HOST, 1), HostKick(HOST, MEMBER, NoFault));
  }

  lemma LastLeaves(w: World)
    requires IsHostAlone(w)
    ensures Abandoned(Disconnected(w, HOST, 0)) && Disconnected(w, HOST, 0).cleanupPending
  {
    var left := Disconnected(w, HOST, 0);
    assert ConnectedMembers(left) == {};
    assert left.rows == w.rows && ActiveRows(left) == ActiveRows(w);
  }

  predicate SessionLost(w: World) { w.phase == Closed && w.startedAt.Some? && !ResultViewable(w) }

  lemma CleanupLosesSession(w: World)
    requires Invariant(w) && Abandoned(w) && w.cleanupPending
    ensures SessionLost(CleanedUp(w))
  {
    AbandonedIsNeverViewable(w, []);
  }

  lemma LosesSession(w: World)
    requires Reachable(w) && Abandoned(w) && w.cleanupPending
    ensures exists lost :: Reachable(lost) && SessionLost(lost)
  {
    ReachableInvariant(w);
    CleanupLosesSession(w);
    ReachableCleanup(w);
    assert Reachable(CleanedUp(w));
  }

  lemma ReachableCleanup(w: World)
    requires Reachable(w)
    ensures Reachable(CleanedUp(w))
  {
    ReachableNext(w, Cleanup);
  }

  lemma ReachableInvariant(w: World)
    requires Reachable(w)
    ensures Invariant(w)
  {
    var ops :| Run(Created(ROOM, HOST), ops) == w;
    RunAdvances(Created(ROOM, HOST), ops);
  }

  /** Kicking the last active member abandons the session; when the host disconnects, the
      cleanup closes the room, and its results cannot be viewed. */
  lemma AbandonedByKick(p: Plan)
    requires WithinRequestBounds(p)
    ensures exists w :: Reachable(w) && Abandoned(w)
    ensures exists w :: Reachable(w) && SessionLost(w)
  {
    HostAloneReachable(p);
    HostAloneState(p);
    LastLeaves(HostAlone(p));
    ReachableNext(HostAlone(p), Disconnect(HOST, 0));
    LosesSession(Disconnected(HostAlone(p), HOST, 0));
  }

  /** The member only has joined and connected. */
  function WithoutHost(p: Plan): World {
    Before(Contract, Some(p), map[MEMBER := MEMBER_ROW], map[MEMBER := Member(false, Some(0))])
  }

  lemma MemberAlone(p: Plan)
    requires WithinRequestBounds(p)
    ensures RuleSet(Connected(Joined(Created(ROOM, HOST), MEMBER, true, false), MEMBER, 0), HOST, p) == WithoutHost(p)
  {
    assert HOST != MEMBER;
    var joined := Joined(Created(ROOM, HOST), MEMBER, true, false);
    assert joined == Before(Lobby, None, map[MEMBER := MEMBER_ROW], map[MEMBER := Member(false, None)]);
    assert joined.cache.value.members[MEMBER := Member(false, Some(0))] == map[MEMBER := Member(false, Some(0))];
  }

  lemma WithoutHostReachable(p: Plan)
    requires WithinRequestBounds(p)
    ensures Reachable(WithoutHost(p))
  {
    ReachableStart();
    ReachableNext(Created(ROOM, HOST), Join(MEMBER, true, false));
    var joined := Joined(Created(ROOM, HOST), MEMBER, true, false);
    ReachableNext(joined, Connect(MEMBER, 0));
    ReachableNext(Connected(joined, MEMBER, 0), SetRule(HOST, p));
    MemberAlone(p);
  }

  lemma EmptyStarts(p: Plan)
    ensures Abandoned(Started(Left(WithoutHost(p), MEMBER), HOST, 0, false))
  {
    assert HOST != MEMBER;
    var empty := Left(WithoutHost(p), MEMBER);
    assert empty.rows == map[] && empty.cache.value.members == map[];
    assert UnsignedMembers(empty.cache.value.members) == {};
    assert ActiveRows(Started(empty, HOST, 0, false)) == {};
  }

  /** The only member leaves, then the host, who never joined, starts. */
  lemma AbandonedByEmptyStart(p: Plan)
    requires WithinRequestBounds(p)
    ensures exists w, now :: Reachable(w) && w.rows == map[] && Abandoned(Started(w, HOST, now, false))
  {
    WithoutHostReachable(p);
    ReachableNext(WithoutHost(p), Leave(MEMBER));
    EmptyStarts(p);
    assert Left(WithoutHost(p), MEMBER).rows == map[] by { assert HOST != MEMBER; }
  }

  lemma NobodyLeftAfterKicks(p: Plan, faults: Faults)
    requires KickedBy({MEMBER}, faults) == {MEMBER}
    ensures Abandoned(ForceStarted(WithoutHost(p), HOST, 0, faults, false))
  {
    var w := WithoutHost(p);
    assert UnsignedMembers(w.cache.value.members) == {MEMBER};
    AllKickedWhenAllSucceed(w, {MEMBER}, faults);
    assert AllKicked(w, {MEMBER}).rows == map[];
    assert ActiveRows(ForceStarted(w, HOST, 0, faults, false)) == {};
  }

  /** The host, who never joined, starts by force, which kicks the only member. */
  lemma AbandonedByForcedStart(p: Plan, faults: Faults)
    requires WithinRequestBounds(p) && faults(MEMBER, 0) == NoFault
    ensures exists w :: Reachable(w) && Abandoned(ForceStarted(w, HOST, 0, faults, false))
  {
    WithoutHostReachable(p);
    assert Succeeds(faults, MEMBER, 1);
    assert Succeeds(faults, MEMBER, 2);
    assert Succeeds(faults, MEMBER, 3);
    assert KickedBy({MEMBER}, faults) == {MEMBER};
    NobodyLeftAfterKicks(p, faults);
  }

  // ----- a half-done kick -----

  /** The host has signed; the member's row is deleted, the cached entry is not. */
  function HalfKickedRoom(p: Plan, memberSigned: bool): World {
    Before(Contract, Some(p), map[HOST := HOST_ROW],
           map[HOST := Host(true, Some(0)), MEMBER := Member(memberSigned, None)])
  }

  lemma RowDeleted(p: Plan)
    ensures InContract(p, true, false).(rows := BOTH_ROWS - {MEMBER}) == HalfKickedRoom(p, false)
  {
    assert HOST != MEMBER;
    assert BOTH_ROWS - {MEMBER} == map[HOST := HOST_ROW];
  }

  lemma HalfKickedDisagrees(p: Plan, memberSigned: bool)
    ensures !CacheAgrees(HalfKickedRoom(p, memberSigned))
  {
    var w := HalfKickedRoom(p, memberSigned);
    assert HOST != MEMBER;
    assert MEMBER in w.cache.value.members && MEMBER !in w.rows;
  }

  lemma HalfKickReachable(p: Plan)
    requires WithinRequestBounds(p)
    ensures Reachable(HalfKickedRoom(p, false))
  {
    HostSigns(p);
    assert HOST != MEMBER;
    RowDeleted(p);
    ReachableNext(InContract(p, true, false), HostKick(HOST, MEMBER, AtSave));
  }

  lemma AlwaysAtSave(faults: Faults)
    requires faults(MEMBER, 0) == faults(MEMBER, 1) == faults(MEMBER, 2) == AtSave
    ensures HalfKicked(MEMBER, faults) && !Succeeds(faults, MEMBER, KICK_ATTEMPTS)
  {
    assert Deletes(faults, MEMBER, 1) && !Uncaches(faults, MEMBER, 1) && !Succeeds(faults, MEMBER, 1);
    assert Deletes(faults, MEMBER, 2) && !Uncaches(faults, MEMBER, 2) && !Succeeds(faults, MEMBER, 2);
    assert Deletes(faults, MEMBER, 3) && !Uncaches(faults, MEMBER, 3) && !Succeeds(faults, MEMBER, 3);
  }

  lemma HalfKickState(p: Plan, faults: Faults)
    requires HalfKicked(MEMBER, faults) && !Succeeds(faults, MEMBER, KICK_ATTEMPTS)
    ensures ForceStarted(InContract(p, true, false), HOST, 0, faults, false) == HalfKickedRoom(p, false)
  {
    var w := InContract(p, true, false);
    assert HOST != MEMBER;
    assert UnsignedMembers(w.cache.value.members) == {MEMBER};
    assert DeletedBy({MEMBER}, faults) == {MEMBER};
    assert UncachedBy({MEMBER}, faults) == {} && KickedBy({MEMBER}, faults) == {};
    assert StartRefusal(w, HOST).None?;
    WithoutNobody(w);
    RowDeleted(p);
  }

  /** When every attempt of a forced start to kick the member deletes the row and then fails
      to save the cached state, the member stays there without a row. */
  lemma HalfKickDisagrees(p: Plan, faults: Faults)
    requires WithinRequestBounds(p)
    requires faults(MEMBER, 0) == faults(MEMBER, 1) == faults(MEMBER, 2) == AtSave
    ensures exists w :: Reachable(w) && w.phase == Contract && !CacheAgrees(ForceStarted(w, HOST, 0, faults, false))
  {
    HostSigns(p);
    AlwaysAtSave(faults);
    HalfKickState(p, faults);
    HalfKickedDisagrees(p, false);
    assert Reachable(InContract(p, true, false)) && InContract(p, true, false).phase == Contract;
  }

  lemma LeftoverSigns(p: Plan)
    ensures Signed(HalfKickedRoom(p, false), MEMBER, true) == HalfKickedRoom(p, true)
  {
    assert HOST != MEMBER;
    assert HalfKickedRoom(p, false).cache.value.members[MEMBER := Member(true, None)]
        == HalfKickedRoom(p, true).cache.value.members;
  }

  lemma StartsWithLeftover(p: Plan)
    ensures var after := Started(HalfKickedRoom(p, true), HOST, 0, false); after.phase == Timer && !CacheAgrees(after)
  {
    var w := HalfKickedRoom(p, true);
    assert HOST != MEMBER;
    assert UnsignedMembers(w.cache.value.members) == {};
    assert StartRefusal(w, HOST).None?;
    HalfKickedDisagrees(p, true);
    assert MEMBER in Began(w, 0).cache.value.members && MEMBER !in Began(w, 0).rows;
  }

  /** A member whose kick was left half done can still sign; the session then starts with
      the member in the cached state and without a row. */
  lemma LeftoverOutlivesStart(p: Plan)
    requires WithinRequestBounds(p)
    ensures exists w :: Reachable(w) && w.phase == Timer && !CacheAgrees(w)
  {
    HalfKickReachable(p);
    ReachableNext(HalfKickedRoom(p, false), Sign(MEMBER, true));
    LeftoverSigns(p);
    ReachableNext(HalfKickedRoom(p, true), Start(HOST, 0, false));
    StartsWithLeftover(p);
  }

  // ----- a forgotten socket -----

  /** The member's connection in the running session. */
  function Online(p: Plan): World { Connected(Running(p), MEMBER, 1) }

  predicate IsOnline(w: World) {
    w.phase == Timer && w.code == ROOM && w.rows == BOTH_ROWS && w.bans == {} && IsCurrent(w, MEMBER, 1)
  }

  lemma OnlineState(p: Plan)
    ensures IsOnline(Online(p))
  {
    assert HOST != MEMBER;
  }

  lemma RejoinDropsSocket(w: World)
    requires IsOnline(w)
    ensures var again := Joined(w, MEMBER, true, false);
            JoinRefusal(w, MEMBER, true, false).None? && Disconnected(again, MEMBER, 1) == again
            && again.phase == Timer && again.rows == BOTH_ROWS
  {
    assert HOST != MEMBER && IsGuest(MEMBER);
  }

  ghost predicate RejoinForgets(w: World) {
    && w.phase == Timer && MEMBER in ActiveRows(w) && IsCurrent(w, MEMBER, 1)
    && var again := Joined(w, MEMBER, true, false);
       again.phase == Timer && MEMBER in ActiveRows(again) && Disconnected(again, MEMBER, 1) == again
  }

  /** A guest who joins again during the session without connecting anew: the closing of
      the guest's socket, still open, changes nothing and is no escape. */
  lemma RejoinForgetsSocket(p: Plan)
    requires WithinRequestBounds(p)
    ensures exists w :: Reachable(w) && RejoinForgets(w)
  {
    RunningReachable(p);
    ReachableNext(Running(p), Connect(MEMBER, 1));
    OnlineState(p);
    RejoinDropsSocket(Online(p));
    assert HOST != MEMBER;
    assert RejoinForgets(Online(p));
  }
}
