/** Which socket a room takes for a member's connection.

    Only the closing of the socket in the cached state counts as a lost connection.  The
    module says exactly which socket that is after any run, and hence which lost connections
    are escapes. */
module RoomConnections {
  import opened Wrappers
  import opened Phases
  import SessionJobs
  import opened RoomOperations
  import opened RoomProtocol

  /** The socket is the one in the cached state. */
  predicate IsCurrent(w: World, id: string, socket: int) {
    w.cache.Some? && id in w.cache.value.members && w.cache.value.members[id].socket == Some(socket)
  }

  predicate Connects(w: World, op: Op, id: string, socket: int) { op == Connect(id, socket) && MayConnect(w, id) }

  /** After the step the room no longer knows the socket: another one took its place, it was
      closed, the member joined again, left or was kicked, or the host closed the room. */
  predicate Forgets(w: World, op: Op, id: string, socket: int) {
    match op
    case Connect(other, newer) => other == id && newer != socket && MayConnect(w, id)
    case Disconnect(other, lost) => other == id && lost == socket
    case Join(other, passwordOk, inOtherSession) =>
      other == id && JoinRefusal(w, id, passwordOk, inOtherSession).None?
    case Leave(other) => (other == id || other == w.hostId) && LeaveRefusal(w, other).None?
    case HostKick(actor, target, fault) =>
      && target == id && KickAllowed(w, actor, target) && (fault == AtBan || fault == NoFault)
      && !HasLoggedRow(w, id)
    case ForceStart(actor, _, faults, _) =>
      && StartRefusal(w, actor).None? && id in UnsignedMembers(w.cache.value.members)
      && Uncaches(faults, id, KICK_ATTEMPTS)
    case _ => false
  }

  lemma ConnectCurrent(w: World, other: string, newer: int, id: string, socket: int)
    requires Invariant(w)
    ensures var op := Connect(other, newer);
            IsCurrent(Next(w, op), id, socket) <==>
              Connects(w, op, id, socket) || (IsCurrent(w, id, socket) && !Forgets(w, op, id, socket))
  {
  }

  lemma DisconnectCurrent(w: World, other: string, lost: int, id: string, socket: int)
    ensures var op := Disconnect(other, lost);
            IsCurrent(Next(w, op), id, socket) <==> IsCurrent(w, id, socket) && !Forgets(w, op, id, socket)
  {
    if LosesConnection(w, other, lost) {
      SameSockets(w, EscapedByLeaving(w, other), id, socket);
    }
  }

  lemma MembershipCurrent(w: World, op: Op, id: string, socket: int)
    requires Invariant(w) && (op.Join? || op.Leave? || op.HostKick?)
    ensures IsCurrent(Next(w, op), id, socket) <==> IsCurrent(w, id, socket) && !Forgets(w, op, id, socket)
  {
    match op {
      case Join(_, _, _) =>
      case Leave(_) =>
      case HostKick(_, _, _) =>
    }
  }

  lemma ForceStartCurrent(w: World, actor: string, now: int, faults: Faults, fails: bool, id: string, socket: int)
    requires Invariant(w) && StartRefusal(w, actor).None?
    ensures IsCurrent(ForceStarted(w, actor, now, faults, fails), id, socket) <==>
              IsCurrent(w, id, socket) && id !in UncachedBy(UnsignedMembers(w.cache.value.members), faults)
  {
  }

  /** The cleanup closes no room with a socket that it knows. */
  lemma CleanupCurrent(w: World, id: string, socket: int)
    requires Invariant(w)
    ensures IsCurrent(CleanedUp(w), id, socket) <==> IsCurrent(w, id, socket)
  {
    if IsCurrent(w, id, socket) {
      assert id in ConnectedMembers(w);
    }
  }

  lemma SameSockets(w: World, after: World, id: string, socket: int)
    requires after.cache.None? <==> w.cache.None?
    requires w.cache.Some? ==> after.cache.value.members == w.cache.value.members
    ensures IsCurrent(after, id, socket) <==> IsCurrent(w, id, socket)
  {
  }

  lemma ContractStepsCurrent(w: World, op: Op, id: string, socket: int)
    requires op.Sign? || op.EditContract? || op.SetRule? || op.LogEscape?
    ensures IsCurrent(Next(w, op), id, socket) <==> IsCurrent(w, id, socket)
  {
  }

  lemma EndedCurrent(w: World, now: int, id: string, socket: int)
    ensures IsCurrent(SessionEnded(w, now), id, socket) <==> IsCurrent(w, id, socket)
  {
    SameSockets(w, SessionEnded(w, now), id, socket);
  }

  lemma GiveUpCurrent(w: World, other: string, now: int, id: string, socket: int)
    ensures IsCurrent(GaveUp(w, other, now), id, socket) <==> IsCurrent(w, id, socket)
  {
    if GiveUpRefusal(w, other).None? {
      var marked := MarkedGaveUp(w, other, now);
      var due := now + SessionJobs.ROULETTE_TIMEOUT_MS;
      var queued := marked.(jobs := map[SessionJobs.RevealPenalties(w.code, other) := due] + w.jobs);
      SameSockets(marked, queued, id, socket);
      EndedCurrent(queued, now, id, socket);
    }
  }

  lemma JobCurrent(w: World, j: SessionJobs.SessionJob, now: int, id: string, socket: int)
    ensures IsCurrent(JobRun(w, j, now), id, socket) <==> IsCurrent(w, id, socket)
  {
    SameSockets(w, w.(jobs := w.jobs - {j}), id, socket);
    EndedCurrent(w.(jobs := w.jobs - {j}), now, id, socket);
  }

  lemma RestartCurrent(w: World, lost: set<SessionJobs.SessionJob>, now: int, id: string, socket: int)
    ensures IsCurrent(Restarted(w, lost, now), id, socket) <==> IsCurrent(w, id, socket)
  {
    SameSockets(w, Survived(w, lost), id, socket);
    EndedCurrent(Survived(w, lost), now, id, socket);
  }

  lemma StartCurrent(w: World, actor: string, now: int, fails: bool, id: string, socket: int)
    ensures IsCurrent(Started(w, actor, now, fails), id, socket) <==> IsCurrent(w, id, socket)
  {
    SameSockets(w, Started(w, actor, now, fails), id, socket);
  }

  /** After a step a socket is the current one exactly if the step connected the member by
      it, or it was before and the step does not make the room forget it. */
  lemma CurrentIff(w: World, op: Op, id: string, socket: int)
    requires Invariant(w)
    ensures IsCurrent(Next(w, op), id, socket) <==>
              Connects(w, op, id, socket) || (IsCurrent(w, id, socket) && !Forgets(w, op, id, socket))
  {
    assert CurrentAsTold(w, op, id, socket) by {
      if op.Connect? || op.Disconnect? || op.Join? || op.Leave? || op.HostKick? || op.ForceStart? {
        MemberStepCurrent(w, op, id, socket);
      } else {
        OtherStepCurrent(w, op, id, socket);
      }
    }
  }

  predicate CurrentAsTold(w: World, op: Op, id: string, socket: int) {
    IsCurrent(Next(w, op), id, socket) <==>
      Connects(w, op, id, socket) || (IsCurrent(w, id, socket) && !Forgets(w, op, id, socket))
  }

  lemma MemberStepCurrent(w: World, op: Op, id: string, socket: int)
    requires Invariant(w)
    requires op.Connect? || op.Disconnect? || op.Join? || op.Leave? || op.HostKick? || op.ForceStart?
    ensures CurrentAsTold(w, op, id, socket)
  {
    if op.Connect? {
      ConnectCurrent(w, op.id, op.socket, id, socket);
    } else if op.Disconnect? {
      DisconnectCurrent(w, op.id, op.socket, id, socket);
    } else if op.ForceStart? {
      if StartRefusal(w, op.actor).None? {
        ForceStartCurrent(w, op.actor, op.now, op.faults, op.fails, id, socket);
      }
    } else {
      MembershipCurrent(w, op, id, socket);
    }
  }

  lemma SocketKept(w: World, op: Op, id: string, socket: int)
    requires Invariant(w)
    requires !op.Connect? && !op.Disconnect? && !op.Join? && !op.Leave? && !op.HostKick? && !op.ForceStart?
    ensures IsCurrent(Next(w, op), id, socket) <==> IsCurrent(w, id, socket)
  {
    match op {
      case Cleanup => CleanupCurrent(w, id, socket);
      case GiveUp(other, now) => GiveUpCurrent(w, other, now, id, socket);
      case RunJob(j, now) => JobCurrent(w, j, now, id, socket);
      case Restart(lost, now) => RestartCurrent(w, lost, now, id, socket);
      case Start(actor, now, fails) => StartCurrent(w, actor, now, fails, id, socket);
      case _ => ContractStepsCurrent(w, op, id, socket);
    }
  }

  lemma OtherStepCurrent(w: World, op: Op, id: string, socket: int)
    requires Invariant(w)
    requires !op.Connect? && !op.Disconnect? && !op.Join? && !op.Leave? && !op.HostKick? && !op.ForceStart?
    ensures CurrentAsTold(w, op, id, socket)
  {
    SocketKept(w, op, id, socket);
  }

  // ----- runs -----

  predicate NeverForgotten(w: World, ops: seq<Op>, id: string, socket: int)
    decreases |ops|
  {
    ops != [] ==> !Forgets(w, ops[0], id, socket) && NeverForgotten(Next(w, ops[0]), ops[1..], id, socket)
  }

  /** Some step of the run connects the member by the socket, which is not forgotten again. */
  predicate ConnectedBy(w: World, ops: seq<Op>, id: string, socket: int)
    decreases |ops|
  {
    && ops != []
    && var next := Next(w, ops[0]);
       || (Connects(w, ops[0], id, socket) && NeverForgotten(next, ops[1..], id, socket))
       || ConnectedBy(next, ops[1..], id, socket)
  }

  lemma {:induction false} CurrentOverRuns(w: World, ops: seq<Op>, id: string, socket: int)
    requires Invariant(w)
    ensures IsCurrent(Run(w, ops), id, socket) <==>
              (IsCurrent(w, id, socket) && NeverForgotten(w, ops, id, socket)) || ConnectedBy(w, ops, id, socket)
    decreases |ops|
  {
    if ops != [] {
      StepAdvances(w, ops[0]);
      CurrentIff(w, ops[0], id, socket);
      CurrentOverRuns(Next(w, ops[0]), ops[1..], id, socket);
    }
  }

  /** In every run of a created room: the closing of a member's socket starts an escape if
      and only if the session runs, the member has not given up, and the member's last
      accepted connection is by that socket, with no accepted join since then. */
  lemma LostConnectionIsEscapeIff(code: string, hostId: string, ops: seq<Op>, id: string, socket: int)
    requires id in Run(Created(code, hostId), ops).rows
    ensures var w := Run(Created(code, hostId), ops);
            LosesConnection(w, id, socket) && LeavingIsEscape(w, id) <==>
              && w.phase == Timer && w.rows[id].gaveUpAt.None?
              && ConnectedBy(Created(code, hostId), ops, id, socket)
  {
    var w := Run(Created(code, hostId), ops);
    RunAdvances(Created(code, hostId), ops);
    CurrentOverRuns(Created(code, hostId), ops, id, socket);
    if w.cache.Some? {
      assert EntryFits(w, id, w.cache.value.members[id]);
    }
  }
}
