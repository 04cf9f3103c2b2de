/** The state of a room and what each operation does to it: database rows, the cached
    state kept beside them, bans and queued jobs.

    Each handler is one step on all of them, except that a kick, whoever calls for it, may
    fail between its writes. */
module RoomOperations {
  import opened Wrappers
  import opened Timeline
  import opened Phases
  import opened SessionJobs

  const MAX_MEMBERS := 10

  /** A member row; hasLogs says that escape logs refer to it. */
  datatype MemberRow = MemberRow(isHost: bool, gaveUpAt: Option<int>, hasLogs: bool)

  /** A member in the cached state, with the socket the member is connected by. */
  datatype CachedMember = CachedMember(isHost: bool, isSigned: bool, socket: Option<int>, gaveUpAt: Option<int>)

  datatype RoomState = RoomState(hostId: string, phase: Phase, members: map<string, CachedMember>)

  datatype World = World(
    code: string, hostId: string, phase: Phase, plan: Option<Plan>, startedAt: Option<int>, endedAt: Option<int>,
    rows: map<string, MemberRow>, cache: Option<RoomState>, bans: set<string>,
    jobs: map<SessionJob, int>, cleanupPending: bool)

  /** Guest tokens are told apart by their prefix. */
  predicate IsGuest(id: string) { "guest_" <= id }

  function Rounds(w: World): nat { if w.plan.Some? then w.plan.value.rounds else MAX_ROUNDS_FALLBACK }

  function WithCachedPhase(cache: Option<RoomState>, phase: Phase): Option<RoomState> {
    if cache.Some? then Some(cache.value.(phase := phase)) else None
  }

  function WithCachedMember(cache: Option<RoomState>, id: string, m: CachedMember): Option<RoomState> {
    if cache.Some? then Some(cache.value.(members := cache.value.members[id := m])) else None
  }

  function WithoutCachedMembers(cache: Option<RoomState>, ids: set<string>): Option<RoomState> {
    if cache.Some? then Some(cache.value.(members := cache.value.members - ids)) else None
  }

  // ----- membership -----

  /** A newly created room: the host is not a member until joining. */
  function Created(code: string, hostId: string): World {
    World(code, hostId, Lobby, None, None, None, map[], Some(RoomState(hostId, Lobby, map[])), {}, map[], false)
  }

  datatype RoomError =
    | InAnotherSession | RoomEnded | Banned | AlreadyGaveUp | AlreadyStarted | WrongPassword | RoomFull
    | NotAllowedNow | NotAMember | NotHost | HostUnsigned | Unsigned | NoRule | NoState | KickFailed | StartFailed

  /** Why a join is refused, if it is; checked in the service's order. */
  function JoinRefusal(w: World, id: string, passwordOk: bool, inOtherSession: bool): Option<RoomError> {
    var returning := id in w.rows;
    if !IsGuest(id) && (inOtherSession || (w.phase == Timer && returning && w.rows[id].gaveUpAt.None?))
    then Some(InAnotherSession)
    else if w.phase == Closed || w.phase == Phase.Result then Some(RoomEnded)
    else if id in w.bans then Some(Banned)
    else if returning && w.rows[id].gaveUpAt.Some? then Some(AlreadyGaveUp)
    else if w.phase == Timer && !returning then Some(AlreadyStarted)
    else if id != w.hostId && !passwordOk then Some(WrongPassword)
    else if !returning && |w.rows| >= MAX_MEMBERS then Some(RoomFull)
    else None
  }

  /** Joining stores a row unless there is one, and resets the cached entry. */
  function Admitted(w: World, id: string): World {
    var isHost := id == w.hostId;
    w.(rows := if id in w.rows then w.rows else w.rows[id := MemberRow(isHost, None, false)],
       cache := WithCachedMember(w.cache, id, CachedMember(isHost, false, None, None)))
  }

  function Joined(w: World, id: string, passwordOk: bool, inOtherSession: bool): World {
    if JoinRefusal(w, id, passwordOk, inOtherSession).Some? then w else Admitted(w, id)
  }

  /** Deleting a room drops the cached state, closes the row and cancels its jobs. */
  function Deleted(w: World): World {
    w.(cache := None, phase := Closed, jobs := w.jobs - Cancelled(w.code, Rounds(w), w.rows.Keys))
  }

  function LeaveRefusal(w: World, id: string): Option<RoomError> {
    if w.phase != Lobby && w.phase != Contract then Some(NotAllowedNow)
    else if id != w.hostId && id !in w.rows then Some(NotAMember)
    else None
  }

  function Left(w: World, id: string): World {
    if LeaveRefusal(w, id).Some? then w
    else if id == w.hostId then Deleted(w)
    else w.(rows := w.rows - {id}, cache := WithoutCachedMembers(w.cache, {id}))
  }

  /** Logs refer to the row, which keeps it from being deleted. */
  predicate HasLoggedRow(w: World, id: string) { id in w.rows && w.rows[id].hasLogs }

  /** A kick: the row goes, unless logs refer to it (then nothing happens); the cached
      entry goes; the id is banned.  It may fail between these. */
  function KickedOut(w: World, id: string, fault: Fault): World {
    if HasLoggedRow(w, id) then w else AttemptEffect(w, id, fault)
  }

  /** A kick message counts only if it comes from the cached host and names another. */
  predicate KickAllowed(w: World, actor: string, target: string) {
    actor != target && w.cache.Some? && actor in w.cache.value.members && w.cache.value.members[actor].isHost
  }

  function HostKicked(w: World, actor: string, target: string, fault: Fault): World {
    if KickAllowed(w, actor, target) then KickedOut(w, target, fault) else w
  }

  // ----- connections and signatures -----

  predicate MayConnect(w: World, id: string) {
    && w.cache.Some?
    && !(w.cache.value.phase == Timer && id !in w.cache.value.members)
    && w.cache.value.phase != Closed && w.cache.value.phase != Phase.Result
    && id in w.rows
  }

  function SetSocket(w: World, id: string, socket: Option<int>): World {
    if w.cache.Some? && id in w.cache.value.members
    then w.(cache := WithCachedMember(w.cache, id, w.cache.value.members[id].(socket := socket)))
    else w
  }

  function ToContract(w: World): World {
    if w.cache.None? || w.cache.value.phase != Lobby then w
    else w.(cache := WithCachedPhase(w.cache, Contract), phase := Contract)
  }

  /** An accepted connection stops the pending cleanup, takes the place of an earlier
      socket and opens the contract phase. */
  function Connected(w: World, id: string, socket: int): World {
    if !MayConnect(w, id) then w else ToContract(SetSocket(w.(cleanupPending := false), id, Some(socket)))
  }

  function ConnectedMembers(w: World): set<string> {
    if w.cache.None? then {} else set id | id in w.cache.value.members && w.cache.value.members[id].socket.Some?
  }

  /** The closing of a socket counts only if it is the member's current one. */
  predicate LosesConnection(w: World, id: string, socket: int) {
    w.cache.Some? && id in w.cache.value.members && w.cache.value.members[id].socket == Some(socket)
  }

  /** During the session the lost connection of an active member is an escape. */
  predicate LeavingIsEscape(w: World, id: string) {
    && w.cache.Some? && id in w.cache.value.members
    && w.cache.value.phase == Timer && w.cache.value.members[id].gaveUpAt.None?
  }

  function EscapedByLeaving(w: World, id: string): World {
    if LeavingIsEscape(w, id) then EscapeLogged(w, id) else w
  }

  /** The last lost connection arms the cleanup, any other disarms it. */
  function Disconnected(w: World, id: string, socket: int): World {
    if !LosesConnection(w, id, socket) then w
    else
      var after := SetSocket(EscapedByLeaving(w, id), id, None);
      after.(cleanupPending := ConnectedMembers(after) == {})
  }

  /** An escape start in the timer phase creates a log for an active member. */
  function EscapeLogged(w: World, id: string): World {
    if w.phase == Timer && id in w.rows && w.rows[id].gaveUpAt.None?
    then w.(rows := w.rows[id := w.rows[id].(hasLogs := true)])
    else w
  }

  predicate MaySign(w: World, id: string) {
    w.cache.Some? && id in w.cache.value.members && (w.cache.value.phase == Contract || w.cache.value.phase == Lobby)
  }

  function Signed(w: World, id: string, signed: bool): World {
    if !MaySign(w, id) then w
    else w.(cache := WithCachedMember(w.cache, id, w.cache.value.members[id].(isSigned := signed)))
  }

  /** Editing the contract clears every signature. */
  function SignsReset(w: World): World {
    if w.cache.None? || (w.cache.value.phase != Contract && w.cache.value.phase != Lobby) then w
    else
      var members := w.cache.value.members;
      w.(cache := Some(w.cache.value.(members := map id | id in members :: members[id].(isSigned := false))))
  }

  /** Storing a rule; only before the session starts. */
  function RuleSet(w: World, actor: string, plan: Plan): World {
    if actor == w.hostId && (w.phase == Lobby || w.phase == Contract) && WithinRequestBounds(plan)
    then w.(plan := Some(plan))
    else w
  }

  // ----- the session -----

  function UnsignedMembers(members: map<string, CachedMember>): set<string> {
    set id | id in members && !members[id].isHost && !members[id].isSigned
  }

  predicate IsHostUnsigned(members: map<string, CachedMember>) {
    exists id :: id in members && members[id].isHost && !members[id].isSigned
  }

  /** Checks shared by both ways of starting a session, in the service's order. */
  function StartRefusal(w: World, actor: string): Option<RoomError> {
    if actor != w.hostId then Some(NotHost)
    else if w.phase != Contract then Some(NotAllowedNow)
    else if w.plan.None? then Some(NoRule)
    else if w.cache.None? then Some(NoState)
    else if IsHostUnsigned(w.cache.value.members) then Some(HostUnsigned)
    else None
  }

  function Began(w: World, now: int): World
    requires w.plan.Some?
  {
    w.(phase := Timer, startedAt := Some(now), cache := WithCachedPhase(w.cache, Timer),
       jobs := Upcoming(w.code, w.plan.value, now, now) + (w.jobs - Cancelled(w.code, Rounds(w), w.rows.Keys)))
  }

  /** A start refused, or failing to store the start, changes nothing. */
  function Started(w: World, actor: string, now: int, fails: bool): World {
    if StartRefusal(w, actor).Some? || UnsignedMembers(w.cache.value.members) != {} || fails then w else Began(w, now)
  }

  // ----- kicks that may fail -----

  const KICK_MAX_RETRIES := 2

  /** Where one kick attempt fails, if it does: before deleting the row, before saving the
      cached state, or before setting the ban. */
  datatype Fault = NoFault | AtDelete | AtSave | AtBan

  /** The fault met by each attempt to kick a member. */
  type Faults = (string, nat) -> Fault

  const KICK_ATTEMPTS := KICK_MAX_RETRIES + 1

  /** Some of the first n attempts got past deleting the row. */
  predicate Deletes(faults: Faults, id: string, n: nat) {
    n > 0 && (Deletes(faults, id, n - 1) || faults(id, n - 1) != AtDelete)
  }

  /** Some of the first n attempts got past saving the cached state. */
  predicate Uncaches(faults: Faults, id: string, n: nat) {
    n > 0 && (Uncaches(faults, id, n - 1) || faults(id, n - 1) == AtBan || faults(id, n - 1) == NoFault)
  }

  /** Some of the first n attempts went through. */
  predicate Succeeds(faults: Faults, id: string, n: nat) {
    n > 0 && (Succeeds(faults, id, n - 1) || faults(id, n - 1) == NoFault)
  }

  lemma {:induction false} StagesNested(faults: Faults, id: string, n: nat)
    ensures Succeeds(faults, id, n) ==> Uncaches(faults, id, n)
    ensures Uncaches(faults, id, n) ==> Deletes(faults, id, n)
  {
    if n > 0 {
      StagesNested(faults, id, n - 1);
    }
  }

  /** What n attempts to kick one member leave behind. */
  function AfterAttempts(w: World, id: string, faults: Faults, n: nat): World {
    w.(rows := if Deletes(faults, id, n) then w.rows - {id} else w.rows,
       cache := if Uncaches(faults, id, n) then WithoutCachedMembers(w.cache, {id}) else w.cache,
       bans := if Succeeds(faults, id, n) then w.bans + {id} else w.bans)
  }

  function DeletedBy(ids: set<string>, faults: Faults): set<string> {
    set id | id in ids && Deletes(faults, id, KICK_ATTEMPTS)
  }

  function UncachedBy(ids: set<string>, faults: Faults): set<string> {
    set id | id in ids && Uncaches(faults, id, KICK_ATTEMPTS)
  }

  function KickedBy(ids: set<string>, faults: Faults): set<string> {
    set id | id in ids && Succeeds(faults, id, KICK_ATTEMPTS)
  }

  /** What retried kicks of several members leave behind: some rows deleted, some cached
      entries cleared, and the members whose kick went through banned. */
  function AfterKicks(w: World, ids: set<string>, faults: Faults): World {
    w.(rows := w.rows - DeletedBy(ids, faults),
       cache := WithoutCachedMembers(w.cache, UncachedBy(ids, faults)),
       bans := w.bans + KickedBy(ids, faults))
  }

  /** What one attempt changes, when no logs refer to the row. */
  function AttemptEffect(w: World, id: string, fault: Fault): World {
    w.(rows := if fault == AtDelete then w.rows else w.rows - {id},
       cache := if fault == AtDelete || fault == AtSave then w.cache else WithoutCachedMembers(w.cache, {id}),
       bans := if fault == NoFault then w.bans + {id} else w.bans)
  }

  /** All the given members kicked, without faults. */
  function AllKicked(w: World, ids: set<string>): World {
    w.(rows := w.rows - ids, cache := WithoutCachedMembers(w.cache, ids), bans := w.bans + ids)
  }

  /** A forced start kicks the unsigned members and begins if all kicks went through; what
      kicks have done stands also when it does not begin. */
  function ForceStarted(w: World, actor: string, now: int, faults: Faults, fails: bool): World {
    if StartRefusal(w, actor).Some? then w
    else
      var targets := UnsignedMembers(w.cache.value.members);
      var after := AfterKicks(w, targets, faults);
      if KickedBy(targets, faults) == targets && !fails then Began(after, now) else after
  }

  // ----- the end -----

  function SessionEnded(w: World, now: int): World {
    if w.phase == Phase.Result || w.phase == Closed then w
    else w.(phase := Phase.Result, endedAt := Some(now), cache := WithCachedPhase(w.cache, Phase.Result),
            jobs := RevealJobs(w.code, w.rows.Keys, now) + (w.jobs - Cancelled(w.code, Rounds(w), w.rows.Keys)))
  }

  function ActiveRows(w: World): set<string> { set id | id in w.rows && w.rows[id].gaveUpAt.None? }

  function GiveUpRefusal(w: World, id: string): Option<RoomError> {
    if id !in w.rows then Some(NotAMember)
    else if w.phase != Timer then Some(NotAllowedNow)
    else if w.rows[id].gaveUpAt.Some? then Some(AlreadyGaveUp)
    else None
  }

  /** Row and cached entry of a member who gives up are marked alike. */
  function MarkedGaveUp(w: World, id: string, now: int): World
    requires id in w.rows
  {
    w.(rows := w.rows[id := w.rows[id].(gaveUpAt := Some(now))],
       cache := if w.cache.Some? && id in w.cache.value.members
                then WithCachedMember(w.cache, id, w.cache.value.members[id].(gaveUpAt := Some(now)))
                else w.cache)
  }

  /** Giving up also queues the member's reveal job; the last active member's give-up
      ends the session. */
  function GaveUp(w: World, id: string, now: int): World {
    if GiveUpRefusal(w, id).Some? then w
    else
      var marked := MarkedGaveUp(w, id, now);
      var after := marked.(jobs := map[RevealPenalties(w.code, id) := now + ROULETTE_TIMEOUT_MS] + w.jobs);
      if ActiveRows(after) == {} then SessionEnded(after, now) else after
  }

  predicate JobDue(w: World, j: SessionJob, now: int) { j in w.jobs && j.roomCode == w.code && w.jobs[j] <= now }

  /** A job leaves the queue when it runs; once the session is over its work is skipped. */
  function JobRun(w: World, j: SessionJob, now: int): World {
    if !JobDue(w, j, now) then w
    else
      var taken := w.(jobs := w.jobs - {j});
      if j.End? then SessionEnded(taken, now) else taken
  }

  /** The delayed cleanup of an empty room: result rooms and running sessions with active
      members are protected. */
  function CleanedUp(w: World): World {
    if !w.cleanupPending then w
    else
      var fired := w.(cleanupPending := false);
      if w.cache.Some? && w.cache.value.phase == Phase.Result then fired
      else if w.cache.Some? && w.cache.value.phase == Timer && ActiveRows(w) != {} then fired
      else if ConnectedMembers(w) == {} then Deleted(fired)
      else fired
  }

  /** What a stop of the server leaves: a pending cleanup lives in the process only, and any
      queued jobs may have been lost as well. */
  function Survived(w: World, lost: set<SessionJob>): World {
    w.(jobs := w.jobs - lost, cleanupPending := false)
  }

  /** A restart of the server: in the timer phase the jobs still ahead are queued again or,
      past the planned end, the session is ended. */
  function Restarted(w: World, lost: set<SessionJob>, now: int): World {
    var survived := Survived(w, lost);
    if w.phase != Timer || w.plan.None? || w.startedAt.None? then survived
    else if now >= w.startedAt.value + SessionMs(w.plan.value) then SessionEnded(survived, now)
    else survived.(jobs := Upcoming(w.code, w.plan.value, w.startedAt.value, now) + survived.jobs)
  }

  /** The result page can be viewed after the end, also of a room closed since then. */
  predicate ResultViewable(w: World) { w.phase == Phase.Result || (w.phase == Closed && w.endedAt.Some?) }

  // ----- steps -----

  datatype Op =
    | Join(id: string, passwordOk: bool, inOtherSession: bool)
    | Leave(id: string)
    | HostKick(actor: string, target: string, fault: Fault)
    | Connect(id: string, socket: int)
    | Disconnect(id: string, socket: int)
    | Sign(id: string, signed: bool)
    | EditContract
    | SetRule(actor: string, plan: Plan)
    | Start(actor: string, now: int, fails: bool)
    | ForceStart(actor: string, now: int, faults: Faults, fails: bool)
    | LogEscape(id: string)
    | GiveUp(id: string, now: int)
    | RunJob(job: SessionJob, now: int)
    | Restart(lost: set<SessionJob>, now: int)
    | Cleanup

  function Next(w: World, op: Op): World {
    match op
    case Join(id, passwordOk, inOtherSession) => Joined(w, id, passwordOk, inOtherSession)
    case Leave(id) => Left(w, id)
    case HostKick(actor, target, fault) => HostKicked(w, actor, target, fault)
    case Connect(id, socket) => Connected(w, id, socket)
    case Disconnect(id, socket) => Disconnected(w, id, socket)
    case Sign(id, signed) => Signed(w, id, signed)
    case EditContract => SignsReset(w)
    case SetRule(actor, plan) => RuleSet(w, actor, plan)
    case Start(actor, now, fails) => Started(w, actor, now, fails)
    case ForceStart(actor, now, faults, fails) => ForceStarted(w, actor, now, faults, fails)
    case LogEscape(id) => EscapeLogged(w, id)
    case GiveUp(id, now) => GaveUp(w, id, now)
    case RunJob(j, now) => JobRun(w, j, now)
    case Restart(lost, now) => Restarted(w, lost, now)
    case Cleanup => CleanedUp(w)
  }
}
