/** The escape session inside its room.

    The room machine keeps of each member's escapes only whether logs exist; the session
    machine keeps the logs and results and knows nothing of cache, bans and queue.  This
    module runs the two side by side and proves that they stay in correspondence, so that
    what is proved of either holds of one and the same session. */
module SessionInRoom {
  import opened Clock
  import opened Wrappers
  import opened Timeline
  import opened Phases
  import opened RoomOperations
  import S = EscapeSession
  import ER = EscapeRuns
  import EE = EscapeEffects
  import RE = RoomEffects
  import RP = RoomProtocol
  import SessionJobs
  import PenaltyTiers

  predicate MemberFits(row: MemberRow, m: S.Member) {
    row.gaveUpAt == m.gaveUpAt && (row.hasLogs <==> m.logs != [])
  }

  /** Both machines describe the same session. */
  predicate Fits(w: World, room: S.Room) {
    && w.phase == room.phase && w.startedAt == Some(room.startedAt) && w.endedAt == room.endedAt
    && w.plan == Some(room.template.plan)
    && w.rows.Keys == room.members.Keys
    && forall id :: id in w.rows ==> MemberFits(w.rows[id], room.members[id])
  }

  /** What happens once a session has started: a handler of the room, with the random
      numbers drawn and the failures met by the computations it starts, or something that
      concerns logs and results only. */
  datatype Event =
    | Handler(op: Op, draws: S.Draws, fails: bool, endFails: bool)
    | EscapeEnd(id: string)
    | Recompute(draws: S.Draws)
    | RecomputeGiveUp(id: string, draws: S.Draws)
    | Reveal(id: string)

  /** The operation takes place at the given instant. */
  predicate TakesPlaceAt(op: Op, now: int) {
    match op
    case GiveUp(_, at) => at == now
    case RunJob(_, at) => at == now
    case Restart(_, at) => at == now
    case _ => true
  }

  predicate IsAt(e: Event, now: int) { e.Handler? ==> TakesPlaceAt(e.op, now) }

  function RoomNext(w: World, e: Event): World {
    if e.Handler? then Next(w, e.op) else w
  }

  /** What an operation of the room means for the session.  A lost connection starts an
      escape, a reconnection of a member who is logged in ends it; a kick counts once it has
      deleted the row; a reveal job reveals while the session runs; the session ends by its
      job or by a restart past its planned end; the cleanup closes it if nobody is active. */
  function OpAction(w: World, op: Op, now: int, draws: S.Draws, fails: bool, endFails: bool): Option<ER.Action> {
    match op
    case LogEscape(id) => Some(ER.EscapeStart(id))
    case Disconnect(id, socket) =>
      if LosesConnection(w, id, socket) && LeavingIsEscape(w, id) then Some(ER.EscapeStart(id)) else None
    case Connect(id, _) =>
      if MayConnect(w, id) && w.phase == Timer && !IsGuest(id) then Some(ER.EscapeEnd(id)) else None
    case GiveUp(id, _) => Some(ER.GiveUp(id, draws, fails, endFails))
    case HostKick(actor, target, fault) =>
      if KickAllowed(w, actor, target) && fault != AtDelete then Some(ER.Kick(target)) else None
    case RunJob(j, _) => if JobDue(w, j, now) then JobAction(w, j, draws, endFails) else None
    case Restart(_, _) => if RestartEnds(w, now) then Some(ER.End(draws, endFails)) else None
    case Cleanup => if CleanedUp(w).phase == Closed then Some(ER.Close) else None
    case _ => None
  }

  /** The work of a job is skipped once the session is over. */
  function JobAction(w: World, j: SessionJobs.SessionJob, draws: S.Draws, endFails: bool): Option<ER.Action> {
    if w.phase == Phase.Result || w.phase == Closed then None
    else
      match j
      case End(_) => Some(ER.End(draws, endFails))
      case RevealPenalties(_, memberId) => Some(ER.Reveal(memberId))
      case _ => None
  }

  predicate RestartEnds(w: World, now: int) {
    && w.phase == Timer && w.plan.Some? && w.startedAt.Some?
    && now >= w.startedAt.value + SessionMs(w.plan.value)
  }

  function SessionAction(w: World, now: int, e: Event): Option<ER.Action> {
    match e
    case Handler(op, draws, fails, endFails) => OpAction(w, op, now, draws, fails, endFails)
    case EscapeEnd(id) => Some(ER.EscapeEnd(id))
    case Recompute(draws) => Some(ER.Recompute(draws))
    case RecomputeGiveUp(id, draws) => Some(ER.RecomputeGiveUp(id, draws))
    case Reveal(id) => Some(ER.Reveal(id))
  }

  ghost function SessionNext(w: World, room: S.Room, now: int, e: Event): S.Room {
    match SessionAction(w, now, e)
    case Some(action) => ER.Next(room, Timed(now, action))
    case None => room
  }

  // ----- results and stored logs do not matter to the room -----

  /** Same members, give-up times and existence of logs. */
  predicate SameOutline(a: S.Room, b: S.Room) {
    && b == a.(members := b.members) && a.members.Keys == b.members.Keys
    && forall id :: id in a.members ==>
         b.members[id].gaveUpAt == a.members[id].gaveUpAt && (b.members[id].logs == [] <==> a.members[id].logs == [])
  }

  lemma OutlineFits(w: World, a: S.Room, b: S.Room)
    requires Fits(w, a) && SameOutline(a, b)
    ensures Fits(w, b)
  {
    forall id | id in w.rows ensures MemberFits(w.rows[id], b.members[id]) {
      assert MemberFits(w.rows[id], a.members[id]);
    }
  }

  lemma SettledOutline(room: S.Room, id: string, m: S.Member, draws: S.Draws)
    requires S.Settled(room, id, m, draws).Ok?
    ensures var m' := S.Settled(room, id, m, draws).value;
            m'.gaveUpAt == m.gaveUpAt && (m'.logs == [] <==> m.logs == [])
  {
  }

  lemma CalculatedOutline(room: S.Room, draws: S.Draws)
    ensures SameOutline(room, S.Calculated(room, draws))
  {
    if S.SettlesAll(room, draws) {
      forall id | id in room.members
        ensures var m' := S.Settled(room, id, room.members[id], draws).value;
                m'.gaveUpAt == room.members[id].gaveUpAt && (m'.logs == [] <==> room.members[id].logs == [])
      {
        SettledOutline(room, id, room.members[id], draws);
      }
    }
  }

  lemma CalculatedGiveUpOutline(room: S.Room, id: string, draws: S.Draws)
    ensures SameOutline(room, S.CalculatedGiveUp(room, id, draws))
  {
  }

  lemma EscapeEndedOutline(room: S.Room, id: string, now: int)
    ensures SameOutline(room, S.EscapeEnded(room, id, now))
  {
  }

  lemma RevealedOutline(room: S.Room, id: string)
    ensures SameOutline(room, S.Revealed(room, id))
  {
  }

  // ----- each operation keeps the correspondence -----

  lemma EscapeStartFits(w: World, room: S.Room, id: string, now: int)
    requires Fits(w, room)
    ensures Fits(EscapeLogged(w, id), S.EscapeStarted(room, id, now))
  {
    if id in w.rows {
      assert MemberFits(w.rows[id], room.members[id]);
    }
  }

  lemma EndFits(w: World, room: S.Room, now: int, draws: S.Draws, fails: bool)
    requires Fits(w, room)
    ensures Fits(SessionEnded(w, now), S.Ended(room, now, draws, fails))
  {
    if room.phase != Phase.Result && room.phase != Closed {
      var ended := room.(phase := Phase.Result, endedAt := Some(now));
      assert Fits(SessionEnded(w, now), ended);
      CalculatedOutline(ended, draws);
      OutlineFits(SessionEnded(w, now), ended, S.Calculated(ended, draws));
    }
  }

  lemma SameActive(w: World, room: S.Room)
    requires Fits(w, room)
    ensures ActiveRows(w) == S.ActiveMembers(room)
  {
    forall id | id in w.rows ensures w.rows[id].gaveUpAt == room.members[id].gaveUpAt {
      assert MemberFits(w.rows[id], room.members[id]);
    }
  }

  lemma RecordedFits(w: World, room: S.Room, id: string, now: int)
    requires Fits(w, room) && S.MayGiveUp(room, id)
    ensures Fits(MarkedGaveUp(w, id, now), S.GiveUpRecorded(room, id, now))
  {
    var marked, recorded := MarkedGaveUp(w, id, now), S.GiveUpRecorded(room, id, now);
    forall other | other in marked.rows ensures MemberFits(marked.rows[other], recorded.members[other]) {
      assert MemberFits(w.rows[other], room.members[other]);
    }
  }

  /** The room with the reveal job of a member who gives up, before the session may end. */
  function GaveUpQueued(w: World, id: string, now: int): World
    requires id in w.rows
  {
    var due := now + SessionJobs.ROULETTE_TIMEOUT_MS;
    MarkedGaveUp(w, id, now).(jobs := map[SessionJobs.RevealPenalties(w.code, id) := due] + w.jobs)
  }

  lemma GaveUpSoFarFits(w: World, room: S.Room, id: string, now: int, draws: S.Draws, fails: bool)
    requires Fits(w, room) && S.MayGiveUp(room, id)
    ensures Fits(GaveUpQueued(w, id, now), ER.GaveUpSoFar(room, id, now, draws, fails))
  {
    var queued, recorded := GaveUpQueued(w, id, now), S.GiveUpRecorded(room, id, now);
    RecordedFits(w, room, id, now);
    assert Fits(queued, recorded);
    if !fails {
      CalculatedGiveUpOutline(recorded, id, draws);
      OutlineFits(queued, recorded, S.CalculatedGiveUp(recorded, id, draws));
    }
  }

  lemma GiveUpFits(w: World, room: S.Room, id: string, now: int, draws: S.Draws, fails: bool, endFails: bool)
    requires Fits(w, room)
    ensures Fits(GaveUp(w, id, now), S.GaveUp(room, id, now, draws, fails, endFails))
  {
    if id in w.rows {
      assert MemberFits(w.rows[id], room.members[id]);
    }
    if S.MayGiveUp(room, id) {
      var queued, after := GaveUpQueued(w, id, now), ER.GaveUpSoFar(room, id, now, draws, fails);
      GaveUpSoFarFits(w, room, id, now, draws, fails);
      SameActive(queued, after);
      EndFits(queued, after, now, draws, endFails);
    }
  }

  lemma KickFits(w: World, room: S.Room, target: string, fault: Fault)
    requires Fits(w, room)
    ensures Fits(KickedOut(w, target, fault), if fault == AtDelete then room else S.Kicked(room, target))
  {
    if target in w.rows {
      assert MemberFits(w.rows[target], room.members[target]);
    }
    var out := KickedOut(w, target, fault);
    var left := if fault == AtDelete then room else S.Kicked(room, target);
    assert left.members.Keys == out.rows.Keys;
    forall id | id in out.rows ensures MemberFits(out.rows[id], left.members[id]) {
      assert MemberFits(w.rows[id], room.members[id]);
    }
  }

  lemma ConnectionFits(w: World, room: S.Room, id: string, socket: Option<int>, pending: bool)
    requires Fits(w, room)
    ensures Fits(SetSocket(w, id, socket).(cleanupPending := pending), room)
  {
  }

  lemma DisconnectFits(w: World, room: S.Room, id: string, socket: int, now: int)
    requires Fits(w, room) && LosesConnection(w, id, socket)
    ensures Fits(Disconnected(w, id, socket),
                 if LeavingIsEscape(w, id) then S.EscapeStarted(room, id, now) else room)
  {
    var room' := if LeavingIsEscape(w, id) then S.EscapeStarted(room, id, now) else room;
    EscapeStartFits(w, room, id, now);
    var after := SetSocket(EscapedByLeaving(w, id), id, None);
    ConnectionFits(EscapedByLeaving(w, id), room', id, None, ConnectedMembers(after) == {});
  }

  /** A connection changes no rows: the lobby is long over. */
  lemma ConnectFits(w: World, room: S.Room, id: string, socket: int)
    requires Fits(w, room) && RP.CacheCovers(w) && Rank(w.phase) >= Rank(Timer)
    ensures Fits(Connected(w, id, socket), room)
  {
  }

  lemma ConnectedFits(w: World, room: S.Room, id: string, socket: int, now: int)
    requires Fits(w, room) && RP.CacheCovers(w) && Rank(w.phase) >= Rank(Timer)
    ensures Fits(Connected(w, id, socket), S.EscapeEnded(room, id, now))
  {
    ConnectFits(w, room, id, socket);
    EscapeEndedOutline(room, id, now);
    OutlineFits(Connected(w, id, socket), room, S.EscapeEnded(room, id, now));
  }

  /** Once the session runs only members who have a row are let in again. */
  lemma RejoinFits(w: World, room: S.Room, id: string, passwordOk: bool, inOtherSession: bool)
    requires Fits(w, room) && Rank(w.phase) >= Rank(Timer)
    ensures Fits(Joined(w, id, passwordOk, inOtherSession), room)
  {
  }

  lemma JobFits(w: World, room: S.Room, j: SessionJobs.SessionJob, now: int, draws: S.Draws, fails: bool,
                endFails: bool)
    requires Fits(w, room)
    ensures Fits(JobRun(w, j, now), SessionNext(w, room, now, Handler(RunJob(j, now), draws, fails, endFails)))
  {
    if JobDue(w, j, now) {
      var taken := w.(jobs := w.jobs - {j});
      assert Fits(taken, room);
      if j.End? {
        EndFits(taken, room, now, draws, endFails);
      } else if j.RevealPenalties? {
        RevealedOutline(room, j.memberId);
        OutlineFits(taken, room, S.Revealed(room, j.memberId));
      }
    }
  }

  lemma RestartFits(w: World, room: S.Room, lost: set<SessionJobs.SessionJob>, now: int, draws: S.Draws, fails: bool)
    requires Fits(w, room)
    ensures Fits(Restarted(w, lost, now), if RestartEnds(w, now) then S.Ended(room, now, draws, fails) else room)
  {
    var survived := Survived(w, lost);
    assert Fits(survived, room);
    EndFits(survived, room, now, draws, fails);
  }

  /** The cleanup closes a room of a session only when it runs and nobody is active. */
  lemma CleanupFits(w: World, room: S.Room)
    requires Fits(w, room) && RP.CacheCovers(w) && Rank(w.phase) >= Rank(Timer)
    ensures Fits(CleanedUp(w), if CleanedUp(w).phase == Closed then ER.ClosedDown(room) else room)
  {
    SameActive(w, room);
  }

  /** Joins aside, the operations of the time before a session are refused during it. */
  lemma EarlyOpsRefused(w: World, op: Op)
    requires RP.CacheCovers(w) && Rank(w.phase) >= Rank(Timer)
    requires op.Leave? || op.Sign? || op.EditContract? || op.SetRule? || op.Start? || op.ForceStart?
    ensures Next(w, op) == w
  {
  }

  lemma ConnectOpFits(w: World, room: S.Room, now: int, op: Op, draws: S.Draws, fails: bool, endFails: bool)
    requires Fits(w, room) && RP.CacheCovers(w) && Rank(w.phase) >= Rank(Timer) && (op.Connect? || op.Disconnect?)
    ensures Fits(Next(w, op), SessionNext(w, room, now, Handler(op, draws, fails, endFails)))
  {
    if op.Connect? {
      ConnectFits(w, room, op.id, op.socket);
      ConnectedFits(w, room, op.id, op.socket, now);
    } else if LosesConnection(w, op.id, op.socket) {
      DisconnectFits(w, room, op.id, op.socket, now);
    }
  }

  lemma EndingOpFits(w: World, room: S.Room, now: int, op: Op, draws: S.Draws, fails: bool, endFails: bool)
    requires Fits(w, room) && RP.CacheCovers(w) && Rank(w.phase) >= Rank(Timer) && TakesPlaceAt(op, now)
    requires op.RunJob? || op.Restart? || op.Cleanup?
    ensures Fits(Next(w, op), SessionNext(w, room, now, Handler(op, draws, fails, endFails)))
  {
    match op {
      case RunJob(j, _) => JobFits(w, room, j, now, draws, fails, endFails);
      case Restart(lost, _) => RestartFits(w, room, lost, now, draws, endFails);
      case Cleanup => CleanupFits(w, room);
    }
  }

  lemma OpFits(w: World, room: S.Room, now: int, op: Op, draws: S.Draws, fails: bool, endFails: bool)
    requires Fits(w, room) && RP.CacheCovers(w) && Rank(w.phase) >= Rank(Timer) && TakesPlaceAt(op, now)
    ensures Fits(Next(w, op), SessionNext(w, room, now, Handler(op, draws, fails, endFails)))
  {
    if op.Connect? || op.Disconnect? {
      ConnectOpFits(w, room, now, op, draws, fails, endFails);
    } else if op.RunJob? || op.Restart? || op.Cleanup? {
      EndingOpFits(w, room, now, op, draws, fails, endFails);
    } else {
      match op {
        case Join(id, passwordOk, inOtherSession) => RejoinFits(w, room, id, passwordOk, inOtherSession);
        case LogEscape(id) => EscapeStartFits(w, room, id, now);
        case HostKick(_, target, fault) => KickFits(w, room, target, fault);
        case GiveUp(id, _) => GiveUpFits(w, room, id, now, draws, fails, endFails);
        case _ => EarlyOpsRefused(w, op);
      }
    }
  }

  /** Every event takes rows, give-up times and existing logs the same way in both
      machines. */
  lemma EventFits(w: World, room: S.Room, now: int, e: Event)
    requires Fits(w, room) && RP.CacheCovers(w) && Rank(w.phase) >= Rank(Timer) && IsAt(e, now)
    ensures Fits(RoomNext(w, e), SessionNext(w, room, now, e))
  {
    match e {
      case Handler(op, draws, fails, endFails) => OpFits(w, room, now, op, draws, fails, endFails);
      case _ => SessionEventFits(w, room, now, e);
    }
  }

  /** What concerns logs and results only leaves the outline. */
  lemma SessionEventFits(w: World, room: S.Room, now: int, e: Event)
    requires Fits(w, room) && !e.Handler?
    ensures Fits(w, SessionNext(w, room, now, e))
  {
    match e {
      case EscapeEnd(id) => EscapeEndedOutline(room, id, now);
      case Recompute(draws) => CalculatedOutline(room, draws);
      case RecomputeGiveUp(id, draws) => CalculatedGiveUpOutline(room, id, draws);
      case Reveal(id) => RevealedOutline(room, id);
    }
    OutlineFits(w, room, SessionNext(w, room, now, e));
  }

  // ----- both machines over a run -----

  predicate AllTimed(events: seq<Timed<Event>>) {
    forall i :: 0 <= i < |events| ==> IsAt(events[i].action, events[i].now)
  }

  function RoomRun(w: World, events: seq<Timed<Event>>): World
    decreases |events|
  {
    if events == [] then w else RoomRun(RoomNext(w, events[0].action), events[1..])
  }

  ghost function SessionRun(w: World, room: S.Room, events: seq<Timed<Event>>): S.Room
    decreases |events|
  {
    if events == [] then room
    else
      var t := events[0];
      SessionRun(RoomNext(w, t.action), SessionNext(w, room, t.now, t.action), events[1..])
  }

  lemma EventAdvances(w: World, e: Event)
    requires RP.Invariant(w) && Rank(w.phase) >= Rank(Timer)
    ensures RP.Advances(w, RoomNext(w, e))
  {
    if e.Handler? {
      RP.StepAdvances(w, e.op);
    }
  }

  lemma EventKeeps(w: World, room: S.Room, before: int, now: int, e: Event)
    requires ER.Invariant(room, before) && before <= now
    ensures ER.Invariant(SessionNext(w, room, now, e), now)
    ensures SessionNext(w, room, now, e).template == room.template
  {
    match SessionAction(w, now, e) {
      case Some(action) =>
        ER.StepKeeps(room, before, Timed(now, action));
        ER.NextTemplate(room, Timed(now, action));
      case None => ER.LaterInvariant(room, before, now);
    }
  }

  /** Through every run of events both machines keep their invariants and describe the
      same session. */
  lemma {:induction false} RunFits(w: World, room: S.Room, now: int, events: seq<Timed<Event>>)
    requires Fits(w, room) && RP.Invariant(w) && Rank(w.phase) >= Rank(Timer)
    requires ER.Invariant(room, now) && ClockRuns(now, events) && AllTimed(events)
    ensures Fits(RoomRun(w, events), SessionRun(w, room, events))
    ensures RP.Advances(w, RoomRun(w, events))
    ensures ER.Invariant(SessionRun(w, room, events), FinalClock(now, events))
    ensures SessionRun(w, room, events).template == room.template
    decreases |events|
  {
    if events != [] {
      var t := events[0];
      assert IsAt(t.action, t.now);
      EventFits(w, room, t.now, t.action);
      EventAdvances(w, t.action);
      EventKeeps(w, room, now, t.now, t.action);
      AllTimedTail(events);
      RunFits(RoomNext(w, t.action), SessionNext(w, room, t.now, t.action), t.now, events[1..]);
      RP.AdvancesTransitive(w, RoomNext(w, t.action), RoomRun(w, events));
    }
  }

  lemma AllTimedTail(events: seq<Timed<Event>>)
    requires AllTimed(events) && events != []
    ensures AllTimed(events[1..])
  {
    forall i | 0 <= i < |events[1..]| ensures IsAt(events[1..][i].action, events[1..][i].now) {
      assert events[1..][i] == events[i + 1];
    }
  }

  /** Through a host's kick a member can be lost with all results, also after the end; and
      through nothing else.  The member must have no escape logs, and the kick must get
      past deleting the row. */
  lemma ResultLostIff(w: World, room: S.Room, now: int, e: Event, id: string)
    requires Fits(w, room) && RP.Invariant(w) && Rank(w.phase) >= Rank(Timer) && IsAt(e, now) && id in w.rows
    ensures id !in SessionNext(w, room, now, e).members <==>
              && e.Handler? && e.op.HostKick? && e.op.target == id && e.op.fault != AtDelete
              && KickAllowed(w, e.op.actor, id) && room.members[id].logs == []
  {
    assert MemberFits(w.rows[id], room.members[id]);
    match SessionAction(w, now, e) {
      case Some(action) =>
        if !action.Kick? {
          ER.StepKeepsMembers(room, Timed(now, action), id);
        }
      case None =>
    }
  }

  // ----- connections, jobs and escapes -----

  /** A user who connects again during the session is no longer in an escape; a guest's
      connection changes nothing in the session. */
  lemma ReconnectionEndsEscape(w: World, room: S.Room, before: int, now: int, id: string, socket: int, draws: S.Draws)
    requires Fits(w, room) && RP.Invariant(w) && ER.Invariant(room, before) && before <= now
    requires w.phase == Timer && id in w.rows
    ensures var after := SessionNext(w, room, now, Handler(Connect(id, socket), draws, false, false));
            && id in after.members
            && if "guest_" <= id then after == room
               else after.members[id].gaveUpAt.None? ==> EE.NoneOpen(after.members[id].logs)
  {
    ConnectionMeans(w, now, id, socket, draws);
    if room.members[id].gaveUpAt.None? {
      EE.ReturnClosesEscape(room, before, id, now);
    } else {
      EE.ReturnIgnored(room, id, now);
    }
  }

  lemma ConnectionMeans(w: World, now: int, id: string, socket: int, draws: S.Draws)
    requires RP.Invariant(w) && w.phase == Timer && id in w.rows
    ensures SessionAction(w, now, Handler(Connect(id, socket), draws, false, false))
         == if "guest_" <= id then None else Some(ER.EscapeEnd(id))
  {
    RE.MayEnterIff(w, id);
  }

  /** The closing of the socket that the room has for an active member leaves the member in
      an escape, begun then unless it was begun before. */
  lemma LostSocketStartsEscape(w: World, room: S.Room, before: int, now: int, id: string, socket: int, draws: S.Draws)
    requires Fits(w, room) && RP.Invariant(w) && ER.Invariant(room, before) && w.phase == Timer
    requires id in w.rows && w.rows[id].gaveUpAt.None? && w.cache.value.members[id].socket == Some(socket)
    ensures var after := SessionNext(w, room, now, Handler(Disconnect(id, socket), draws, false, false));
            && id in after.members && !EE.NoneOpen(after.members[id].logs)
            && (EE.NoneOpen(room.members[id].logs) ==>
                  after.members[id].logs == room.members[id].logs + [S.EscapeLog(now, None, None)])
  {
    assert MemberFits(w.rows[id], room.members[id]);
    LostSocketMeans(w, now, id, socket, draws);
    EE.EscapeOpensLog(room, id, now);
    var logs := room.members[id].logs;
    if EE.NoneOpen(logs) {
      assert (logs + [S.EscapeLog(now, None, None)])[|logs|].returnedAt.None?;
    }
  }

  lemma LostSocketMeans(w: World, now: int, id: string, socket: int, draws: S.Draws)
    requires RP.Invariant(w) && w.phase == Timer && id in w.rows && w.rows[id].gaveUpAt.None?
    requires w.cache.value.members[id].socket == Some(socket)
    ensures SessionAction(w, now, Handler(Disconnect(id, socket), draws, false, false)) == Some(ER.EscapeStart(id))
  {
    assert RP.EntryFits(w, id, w.cache.value.members[id]);
  }

  /** A due reveal job reveals the member's penalties during the session, and only then. */
  lemma RevealJobReveals(w: World, room: S.Room, now: int, id: string, draws: S.Draws, c: string)
    requires Fits(w, room) && id in w.rows && c in room.members[id].penalties
    requires JobDue(w, SessionJobs.RevealPenalties(w.code, id), now)
    ensures var op := RunJob(SessionJobs.RevealPenalties(w.code, id), now);
            var after := SessionNext(w, room, now, Handler(op, draws, false, false));
            if w.phase == Phase.Result || w.phase == Closed then after == room
            else
              && EE.OnlyMember(room, after, id) && c in after.members[id].penalties
              && after.members[id].penalties[c] == S.Penalty(room.members[id].penalties[c].count, true)
  {
    EE.RevealShows(room, id, now);
  }

  // ----- failures -----

  predicate NoFault(e: Event) { e.Handler? ==> !e.fails && !e.endFails }

  predicate FaultFree(events: seq<Timed<Event>>)
    decreases |events|
  {
    events != [] ==> NoFault(events[0].action) && FaultFree(events[1..])
  }

  lemma {:induction false} RunComplete(w: World, room: S.Room, now: int, events: seq<Timed<Event>>)
    requires ER.Invariant(room, now) && ClockRuns(now, events) && FaultFree(events)
    requires PenaltyTiers.HasOpenTier(room.template.tiers) && ER.Complete(room)
    ensures ER.Complete(SessionRun(w, room, events))
    decreases |events|
  {
    if events != [] {
      var t := events[0];
      EventComplete(w, room, now, t.now, t.action);
      EventKeeps(w, room, now, t.now, t.action);
      RunComplete(RoomNext(w, t.action), SessionNext(w, room, t.now, t.action), t.now, events[1..]);
    }
  }

  lemma EventComplete(w: World, room: S.Room, before: int, now: int, e: Event)
    requires ER.Invariant(room, before) && before <= now && NoFault(e)
    requires PenaltyTiers.HasOpenTier(room.template.tiers) && ER.Complete(room)
    ensures ER.Complete(SessionNext(w, room, now, e))
  {
    match SessionAction(w, now, e) {
      case Some(action) => ER.CompleteStep(room, before, Timed(now, action));
      case None =>
    }
  }

  // ----- from creation to the end -----

  /** The session that starts in a room: its members fresh, its plan the room's. */
  function StartedSession(w: World, start: int, tiers: seq<PenaltyTiers.PenaltyTier>, pool: seq<string>): S.Room
    requires w.plan.Some?
  {
    S.Room(Timer, start, None, S.Template(w.plan.value, tiers, pool),
           map id | id in w.rows :: S.Member(None, [], None, map[]))
  }

  lemma StartFits(w: World, start: int, tiers: seq<PenaltyTiers.PenaltyTier>, pool: seq<string>)
    requires RP.Invariant(w) && w.phase == Contract && w.plan.Some?
    ensures Fits(Began(w, start), StartedSession(w, start, tiers, pool))
    ensures ER.Fresh(StartedSession(w, start, tiers, pool))
  {
    forall id | id in w.rows ensures w.rows[id].gaveUpAt.None? && !w.rows[id].hasLogs {
      assert Rank(w.phase) < Rank(Timer);
    }
  }

  /** A start or forced start that begins a session. */
  predicate Begins(w: World, op: Op) {
    (op.Start? || op.ForceStart?) && w.phase == Contract && Next(w, op).phase == Timer
  }

  lemma BegunPlainly(w: World, op: Op)
    requires op.Start? && Begins(w, op)
    ensures w.plan.Some? && Next(w, op) == Began(w, op.now)
  {
  }

  lemma BegunByForce(w: World, op: Op)
    requires op.ForceStart? && Begins(w, op)
    ensures w.plan.Some? && w.cache.Some?
    ensures Next(w, op) == Began(AllKicked(w, UnsignedMembers(w.cache.value.members)), op.now)
  {
    if StartRefusal(w, op.actor).Some? || op.fails || !RP.AllKicksSucceed(w, op.faults) {
      RP.ForceStartNotBegun(w, op.actor, op.now, op.faults, op.fails);
    } else {
      RP.AllKickedWhenAllSucceed(w, UnsignedMembers(w.cache.value.members), op.faults);
    }
  }

  lemma AllKickedReady(w: World)
    requires RP.Invariant(w) && w.phase == Contract && w.cache.Some?
    ensures RP.Invariant(AllKicked(w, UnsignedMembers(w.cache.value.members)))
  {
    var targets := UnsignedMembers(w.cache.value.members);
    RP.HostIsNoTarget(w);
    RP.RemovalAdvances(w, targets, targets, targets);
  }

  /** The state from which the session begins: forced starts kick first. */
  lemma BegunFrom(w: World, op: Op) returns (before: World)
    requires RP.Invariant(w) && Begins(w, op)
    ensures RP.Invariant(before) && before.phase == Contract && before.plan.Some?
    ensures before.code == w.code && Next(w, op) == Began(before, op.now)
  {
    if op.Start? {
      BegunPlainly(w, op);
      before := w;
    } else {
      BegunByForce(w, op);
      AllKickedReady(w);
      before := AllKicked(w, UnsignedMembers(w.cache.value.members));
    }
  }

  lemma BeginsFits(w: World, op: Op, tiers: seq<PenaltyTiers.PenaltyTier>, pool: seq<string>)
    requires RP.Invariant(w) && Begins(w, op)
    ensures var begun := Next(w, op);
            && RP.Invariant(begun) && begun.phase == Timer && begun.plan.Some? && begun.code == w.code
            && Fits(begun, StartedSession(begun, op.now, tiers, pool))
            && ER.Fresh(StartedSession(begun, op.now, tiers, pool))
  {
    var before := BegunFrom(w, op);
    StartFits(before, op.now, tiers, pool);
    RP.BeganAdvances(before, op.now);
    assert StartedSession(Next(w, op), op.now, tiers, pool) == StartedSession(before, op.now, tiers, pool);
  }

  /** What holds of the results of a room's session at any time. */
  ghost predicate ResultsHold(w: World, room: S.Room, draws: S.Draws) {
    && w.rows.Keys == room.members.Keys
    && (forall id :: id in w.rows && room.members[id].result.Some? ==>
          && (w.rows[id].gaveUpAt.Some? || w.phase == Phase.Result)
          && ER.ResultExact(room, room.members[id]))
    && (PenaltyTiers.HasOpenTier(room.template.tiers) && w.phase == Phase.Result ==>
          var page := ER.Recomputed(room, draws);
          page.members.Keys == w.rows.Keys && forall id :: id in w.rows ==> page.members[id].result.Some?)
  }

  lemma PageComplete(room: S.Room, now: int, draws: S.Draws)
    requires ER.Invariant(room, now) && PenaltyTiers.HasOpenTier(room.template.tiers) && room.phase == Phase.Result
    ensures var page := ER.Recomputed(room, draws);
            page.members.Keys == room.members.Keys && forall id :: id in page.members ==> page.members[id].result.Some?
  {
    ER.SavesResultsIff(room, draws);
    ER.CalculatedKeeps(room, draws, now);
  }

  lemma FitsHold(w: World, room: S.Room, now: int, draws: S.Draws)
    requires Fits(w, room) && ER.Invariant(room, now)
    ensures ResultsHold(w, room, draws)
  {
    forall id | id in w.rows && room.members[id].result.Some?
      ensures w.rows[id].gaveUpAt.Some? || w.phase == Phase.Result
      ensures ER.ResultExact(room, room.members[id])
    {
      assert MemberFits(w.rows[id], room.members[id]);
      assert ER.MemberInvariant(room, room.members[id], now);
    }
    if PenaltyTiers.HasOpenTier(room.template.tiers) && w.phase == Phase.Result {
      PageComplete(room, now, draws);
    }
  }

  /** A room's whole life: created, changed in any way up to the contract, with kicks that
      may fail half way, started plainly or by force, then through any events.  Both
      machines describe the same session throughout.  Before the end only members who gave
      up have a result, and every result is exact; with an unlimited tier, one look at the
      result page after the end gives one to exactly the members who still have a row,
      whatever failed before; and without failures exactly those who gave up, and after the
      end all, have one already. */
  lemma WholeLife(code: string, hostId: string, ops: seq<Op>, begin: Op, tiers: seq<PenaltyTiers.PenaltyTier>,
                  pool: seq<string>, events: seq<Timed<Event>>, draws: S.Draws)
    requires Begins(RP.Run(Created(code, hostId), ops), begin)
    requires ClockRuns(begin.now, events) && AllTimed(events)
    ensures var begun := Next(RP.Run(Created(code, hostId), ops), begin);
            && begun.plan.Some?
            && var room := StartedSession(begun, begin.now, tiers, pool);
            var w', room' := RoomRun(begun, events), SessionRun(begun, room, events);
            && Fits(w', room') && RP.Invariant(w') && w'.code == code && room'.template.tiers == tiers
            && ResultsHold(w', room', draws)
            && (PenaltyTiers.HasOpenTier(tiers) && FaultFree(events) ==> ER.Complete(room'))
  {
    var w := RP.Run(Created(code, hostId), ops);
    RP.RunAdvances(Created(code, hostId), ops);
    BeginsFits(w, begin, tiers, pool);
    var begun := Next(w, begin);
    var room := StartedSession(begun, begin.now, tiers, pool);
    ER.FreshInvariant(room);
    RunFits(begun, room, begin.now, events);
    FitsHold(RoomRun(begun, events), SessionRun(begun, room, events), FinalClock(begin.now, events), draws);
    if PenaltyTiers.HasOpenTier(tiers) && FaultFree(events) {
      RunComplete(begun, room, begin.now, events);
    }
  }
}
