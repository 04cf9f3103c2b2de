/** What a room's operations change, told piece by piece of what is stored: exactly which
    steps give a member a row, sign a member, ban one, open, start, end or close the room,
    queue its jobs, and for whom. */
module RoomEffects {
  import opened Wrappers
  import opened Timeline
  import opened Phases
  import opened SessionJobs
  import opened RoomOperations
  import opened RoomProtocol

  // ----- who may do what -----

  predicate BeforeSession(w: World) { w.phase == Lobby || w.phase == Contract }

  /** Whoever joins is not banned, has not given up, knows the password unless it is the
      host, and finds fewer than ten members unless already one; during the session only
      guests come back, and users not while in a session elsewhere. */
  predicate MayJoin(w: World, id: string, passwordOk: bool, inOtherSession: bool) {
    && (BeforeSession(w) || (w.phase == Timer && id in w.rows))
    && id !in w.bans
    && (id in w.rows ==> w.rows[id].gaveUpAt.None?)
    && (id == w.hostId || passwordOk)
    && (id in w.rows || |w.rows| < 10)
    && ("guest_" <= id || (!inOtherSession && w.phase != Timer))
  }

  predicate Joins(w: World, op: Op, id: string) {
    op.Join? && op.id == id && MayJoin(w, id, op.passwordOk, op.inOtherSession)
  }

  /** Members with a row connect until the session is over. */
  predicate MayEnter(w: World, id: string) { (BeforeSession(w) || w.phase == Timer) && id in w.rows }

  /** Only the host, as a member, kicks, and somebody else. */
  predicate Kicks(w: World, op: Op, id: string) {
    && op.HostKick? && op.target == id && op.actor == w.hostId
    && w.hostId in w.rows && id != w.hostId && w.phase != Closed
  }

  predicate IsCached(w: World, id: string) { w.cache.Some? && id in w.cache.value.members }

  predicate HasSigned(w: World, id: string) { IsCached(w, id) && w.cache.value.members[id].isSigned }

  predicate IsUnsigned(w: World, id: string) {
    IsCached(w, id) && id != w.hostId && !w.cache.value.members[id].isSigned
  }

  /** The host may start a room in the contract phase with a rule, having signed if a member. */
  predicate MayStart(w: World, actor: string) {
    && actor == w.hostId && w.phase == Contract && w.plan.Some?
    && (w.hostId in w.rows ==> HasSigned(w, w.hostId))
  }

  /** One of the three attempts to kick the member gets past deleting the row. */
  predicate GetsPastRow(faults: Faults, id: string) {
    faults(id, 0) != AtDelete || faults(id, 1) != AtDelete || faults(id, 2) != AtDelete
  }

  predicate GetsPastCache(faults: Faults, id: string) {
    exists k :: 0 <= k < 3 && (faults(id, k) == AtBan || faults(id, k) == NoFault)
  }

  predicate GetsThrough(faults: Faults, id: string) {
    faults(id, 0) == NoFault || faults(id, 1) == NoFault || faults(id, 2) == NoFault
  }

  /** A forced start tries to kick this member. */
  predicate ForcesOut(w: World, op: Op, id: string) { op.ForceStart? && MayStart(w, op.actor) && IsUnsigned(w, id) }

  // ----- the services' checks come to this -----

  lemma MayJoinIff(w: World, id: string, passwordOk: bool, inOtherSession: bool)
    ensures JoinRefusal(w, id, passwordOk, inOtherSession).None? <==> MayJoin(w, id, passwordOk, inOtherSession)
  {
  }

  lemma MayEnterIff(w: World, id: string)
    requires Invariant(w)
    ensures MayConnect(w, id) <==> MayEnter(w, id)
  {
  }

  lemma MayKickIff(w: World, actor: string, target: string, fault: Fault)
    requires Invariant(w)
    ensures KickAllowed(w, actor, target) <==> Kicks(w, HostKick(actor, target, fault), target)
  {
    if KickAllowed(w, actor, target) {
      KickedByHost(w, actor, target);
    }
  }

  lemma MayStartIff(w: World, actor: string)
    requires Invariant(w)
    ensures StartRefusal(w, actor).None? <==> MayStart(w, actor)
  {
    if w.cache.Some? {
      var members := w.cache.value.members;
      forall id | id in members ensures members[id].isHost <==> id == w.hostId && id in w.rows {
        assert EntryFits(w, id, members[id]);
      }
      assert IsHostUnsigned(members) <==> w.hostId in w.rows && !members[w.hostId].isSigned;
    }
  }

  lemma UnsignedIff(w: World, id: string)
    requires Invariant(w) && w.cache.Some?
    ensures id in UnsignedMembers(w.cache.value.members) <==> IsUnsigned(w, id)
  {
    if IsCached(w, id) {
      assert EntryFits(w, id, w.cache.value.members[id]);
    }
  }

  lemma ThreeAttempts(faults: Faults, id: string)
    ensures Deletes(faults, id, KICK_ATTEMPTS) <==> GetsPastRow(faults, id)
    ensures Uncaches(faults, id, KICK_ATTEMPTS) <==> GetsPastCache(faults, id)
    ensures Succeeds(faults, id, KICK_ATTEMPTS) <==> GetsThrough(faults, id)
  {
    assert Deletes(faults, id, 3) <==> Deletes(faults, id, 2) || faults(id, 2) != AtDelete;
    assert Deletes(faults, id, 2) <==> Deletes(faults, id, 1) || faults(id, 1) != AtDelete;
    assert Deletes(faults, id, 1) <==> Deletes(faults, id, 0) || faults(id, 0) != AtDelete;
    assert Uncaches(faults, id, 3) <==> Uncaches(faults, id, 2) || faults(id, 2) == AtBan || faults(id, 2) == NoFault;
    assert Uncaches(faults, id, 2) <==> Uncaches(faults, id, 1) || faults(id, 1) == AtBan || faults(id, 1) == NoFault;
    assert Uncaches(faults, id, 1) <==> Uncaches(faults, id, 0) || faults(id, 0) == AtBan || faults(id, 0) == NoFault;
    assert Succeeds(faults, id, 3) <==> Succeeds(faults, id, 2) || faults(id, 2) == NoFault;
    assert Succeeds(faults, id, 2) <==> Succeeds(faults, id, 1) || faults(id, 1) == NoFault;
    assert Succeeds(faults, id, 1) <==> Succeeds(faults, id, 0) || faults(id, 0) == NoFault;
  }

  /** Same rows, bans, cached members, plan and end. */
  predicate SameMembers(w: World, after: World) {
    && after.rows == w.rows && after.bans == w.bans && after.plan == w.plan && after.endedAt == w.endedAt
    && after.cleanupPending == w.cleanupPending && (after.cache.Some? <==> w.cache.Some?)
    && (w.cache.Some? ==> after.cache.value.members == w.cache.value.members)
  }

  lemma BeganSameMembers(w: World, now: int)
    requires w.plan.Some?
    ensures SameMembers(w, Began(w, now))
  {
  }

  /** A forced start changes members by its kicks only. */
  lemma ForceStartedAs(w: World, actor: string, now: int, faults: Faults, fails: bool)
    requires StartRefusal(w, actor).None?
    ensures SameMembers(AfterKicks(w, UnsignedMembers(w.cache.value.members), faults),
                        ForceStarted(w, actor, now, faults, fails))
  {
    BeganSameMembers(AfterKicks(w, UnsignedMembers(w.cache.value.members), faults), now);
  }

  /** Kicks that may fail, of one member among several. */
  lemma KickedOne(w: World, ids: set<string>, faults: Faults, id: string)
    requires w.cache.Some?
    ensures var after := AfterKicks(w, ids, faults);
            && (id in after.rows <==> id in w.rows && !(id in ids && GetsPastRow(faults, id)))
            && (id in after.rows ==> after.rows[id] == w.rows[id])
            && (IsCached(after, id) <==> IsCached(w, id) && !(id in ids && GetsPastCache(faults, id)))
            && (IsCached(after, id) ==> after.cache.value.members[id] == w.cache.value.members[id])
            && (id in after.bans <==> id in w.bans || (id in ids && GetsThrough(faults, id)))
            && after.plan == w.plan && after.endedAt == w.endedAt && after.cleanupPending == w.cleanupPending
  {
    ThreeAttempts(faults, id);
  }

  /** What an operation leaves of one member, told by forced kicks. */
  predicate ForcedOutAs(w: World, op: Op, after: World, id: string)
    requires op.ForceStart?
  {
    && (id in after.rows <==> id in w.rows && !(ForcesOut(w, op, id) && GetsPastRow(op.faults, id)))
    && (id in after.rows ==> after.rows[id] == w.rows[id])
    && (IsCached(after, id) <==> IsCached(w, id) && !(ForcesOut(w, op, id) && GetsPastCache(op.faults, id)))
    && (IsCached(after, id) ==> after.cache.value.members[id] == w.cache.value.members[id])
    && (id in after.bans <==> id in w.bans || (ForcesOut(w, op, id) && GetsThrough(op.faults, id)))
    && after.plan == w.plan && after.endedAt == w.endedAt && after.cleanupPending == w.cleanupPending
  }

  lemma ForcedOutWhen(w: World, op: Op, id: string)
    requires op.ForceStart? && StartRefusal(w, op.actor).None? && MayStart(w, op.actor)
    requires id in UnsignedMembers(w.cache.value.members) <==> IsUnsigned(w, id)
    ensures ForcedOutAs(w, op, Next(w, op), id)
  {
    ForceStartedAs(w, op.actor, op.now, op.faults, op.fails);
    KickedOne(w, UnsignedMembers(w.cache.value.members), op.faults, id);
  }

  /** What a forced start does to one member. */
  lemma ForcedOut(w: World, op: Op, id: string)
    requires Invariant(w) && op.ForceStart?
    ensures ForcedOutAs(w, op, Next(w, op), id)
  {
    MayStartIff(w, op.actor);
    if MayStart(w, op.actor) {
      UnsignedIff(w, id);
      ForcedOutWhen(w, op, id);
    }
  }

  // ----- rows -----

  /** The step takes the member's row away. */
  predicate LosesRow(w: World, op: Op, id: string)
    requires id in w.rows
  {
    || (op == Leave(id) && id != w.hostId && BeforeSession(w))
    || (Kicks(w, op, id) && op.fault != AtDelete && !w.rows[id].hasLogs)
    || (ForcesOut(w, op, id) && GetsPastRow(op.faults, id))
  }

  predicate RowAsTold(w: World, op: Op, id: string) {
    id in Next(w, op).rows <==> Joins(w, op, id) || (id in w.rows && !LosesRow(w, op, id))
  }

  lemma JoinRow(w: World, op: Op, id: string)
    requires op.Join?
    ensures RowAsTold(w, op, id)
  {
    MayJoinIff(w, op.id, op.passwordOk, op.inOtherSession);
  }

  lemma LeaveRow(w: World, op: Op, id: string)
    requires op.Leave?
    ensures RowAsTold(w, op, id)
  {
  }

  lemma KickRow(w: World, op: Op, id: string)
    requires Invariant(w) && op.HostKick?
    ensures RowAsTold(w, op, id)
  {
    MayKickIff(w, op.actor, op.target, op.fault);
    KickedRows(w, op.actor, op.target, op.fault);
  }

  lemma ForcedRow(w: World, op: Op, id: string)
    requires Invariant(w) && op.ForceStart?
    ensures RowAsTold(w, op, id)
  {
    ForcedOut(w, op, id);
  }

  lemma KeptRow(w: World, op: Op, id: string)
    requires Invariant(w) && !op.Join? && !op.Leave? && !op.HostKick? && !op.ForceStart?
    ensures RowAsTold(w, op, id)
  {
    RowsStay(w, op, id);
  }

  /** Only an accepted join brings a row, and only leaving before the session, a kick by the
      host of a member without logs, and a forced start's kick take one away. */
  lemma RowIff(w: World, op: Op, id: string)
    requires Invariant(w)
    ensures id in Next(w, op).rows <==> Joins(w, op, id) || (id in w.rows && !LosesRow(w, op, id))
  {
    assert RowAsTold(w, op, id) by {
      if op.Join? {
        JoinRow(w, op, id);
      } else if op.Leave? {
        LeaveRow(w, op, id);
      } else if op.HostKick? {
        KickRow(w, op, id);
      } else if op.ForceStart? {
        ForcedRow(w, op, id);
      } else {
        KeptRow(w, op, id);
      }
    }
  }

  /** The closing of the socket that the room has for the member. */
  predicate LosesSocket(w: World, op: Op, id: string) {
    op.Disconnect? && op.id == id && IsCached(w, id) && w.cache.value.members[id].socket == Some(op.socket)
  }

  predicate GivesUp(w: World, op: Op, id: string) {
    op.GiveUp? && op.id == id && w.phase == Timer && id in w.rows && w.rows[id].gaveUpAt.None?
  }

  predicate Escapes(w: World, op: Op, id: string) {
    w.phase == Timer && id in w.rows && w.rows[id].gaveUpAt.None? && (op == LogEscape(id) || LosesSocket(w, op, id))
  }

  lemma DisconnectRow(w: World, other: string, socket: int, id: string)
    requires Invariant(w)
    ensures var op := Disconnect(other, socket);
            var after := Next(w, op);
            && (id in after.rows <==> id in w.rows)
            && (id in w.rows ==> after.rows[id] == w.rows[id].(hasLogs := w.rows[id].hasLogs || Escapes(w, op, id)))
  {
    if IsCached(w, other) {
      assert EntryFits(w, other, w.cache.value.members[other]);
    }
  }

  lemma GiveUpRow(w: World, other: string, now: int, id: string)
    ensures var op := GiveUp(other, now);
            var after := Next(w, op);
            && (id in after.rows <==> id in w.rows)
            && (id in w.rows ==>
                  after.rows[id] == if GivesUp(w, op, id) then w.rows[id].(gaveUpAt := Some(now)) else w.rows[id])
  {
  }

  /** Operations that change no row. */
  predicate LeavesRows(op: Op) {
    || op.Connect? || op.Sign? || op.EditContract? || op.SetRule? || op.Start? || op.RunJob? || op.Restart?
    || op.Cleanup?
  }

  lemma RowsUntouched(w: World, op: Op)
    requires LeavesRows(op)
    ensures Next(w, op).rows == w.rows
  {
    match op {
      case Connect(_, _) =>
      case _ =>
    }
  }

  function RowAfter(w: World, op: Op, id: string): MemberRow
    requires id in w.rows
  {
    MemberRow(w.rows[id].isHost, if GivesUp(w, op, id) then Some(op.now) else w.rows[id].gaveUpAt,
              w.rows[id].hasLogs || Escapes(w, op, id))
  }

  lemma RowsStay(w: World, op: Op, id: string)
    requires Invariant(w) && !op.Join? && !op.Leave? && !op.HostKick? && !op.ForceStart?
    ensures id in Next(w, op).rows <==> id in w.rows
    ensures id in w.rows ==> Next(w, op).rows[id] == RowAfter(w, op, id)
  {
    if LeavesRows(op) {
      RowsUntouched(w, op);
    } else {
      match op {
        case Disconnect(other, socket) => DisconnectRow(w, other, socket, id);
        case GiveUp(other, now) => GiveUpRow(w, other, now, id);
        case LogEscape(other) => LogRow(w, other, id);
      }
    }
  }

  lemma LogRow(w: World, other: string, id: string)
    ensures var op := LogEscape(other);
            var after := Next(w, op);
            && (id in after.rows <==> id in w.rows)
            && (id in w.rows ==> after.rows[id] == w.rows[id].(hasLogs := w.rows[id].hasLogs || Escapes(w, op, id)))
  {
  }

  lemma MembershipRow(w: World, op: Op, id: string)
    requires Invariant(w) && (op.Join? || op.Leave? || op.HostKick?) && id in Next(w, op).rows
    ensures Next(w, op).rows[id] == if id in w.rows then w.rows[id] else MemberRow(id == w.hostId, None, false)
  {
    match op {
      case Join(_, _, _) =>
      case Leave(_) =>
      case HostKick(actor, target, fault) => KickedRows(w, actor, target, fault);
    }
  }

  /** A row is the host's exactly if it is the creator's; it comes without give-up and logs;
      later the member's give-up is recorded once, and escapes leave logs. */
  lemma RowContents(w: World, op: Op, id: string)
    requires Invariant(w) && id in Next(w, op).rows
    ensures Next(w, op).rows[id]
         == if id !in w.rows then MemberRow(id == w.hostId, None, false)
            else MemberRow(id == w.hostId,
                           if GivesUp(w, op, id) then Some(op.now) else w.rows[id].gaveUpAt,
                           w.rows[id].hasLogs || Escapes(w, op, id))
  {
    if op.Join? || op.Leave? || op.HostKick? {
      MembershipRow(w, op, id);
    } else if op.ForceStart? {
      ForcedOut(w, op, id);
    } else {
      RowsStay(w, op, id);
    }
  }

  // ----- bans -----

  lemma BansStay(w: World, op: Op)
    requires !op.HostKick? && !op.ForceStart?
    ensures Next(w, op).bans == w.bans
  {
    match op {
      case Connect(_, _) =>
      case Disconnect(_, _) =>
      case GiveUp(_, _) =>
      case _ =>
    }
  }

  /** Banned is whom a complete kick removed, by the host's message or a forced start. */
  lemma BannedIff(w: World, op: Op, id: string)
    requires Invariant(w)
    ensures id in Next(w, op).bans <==>
              || id in w.bans
              || (Kicks(w, op, id) && op.fault == NoFault && !(id in w.rows && w.rows[id].hasLogs))
              || (ForcesOut(w, op, id) && GetsThrough(op.faults, id))
  {
    match op {
      case HostKick(actor, target, fault) => MayKickIff(w, actor, target, fault);
      case ForceStart(_, _, _, _) => ForcedOut(w, op, id);
      case _ => BansStay(w, op);
    }
  }

  // ----- signatures and sockets -----

  /** Operations that change no cached entry, although they may take it away. */
  predicate LeavesEntries(op: Op) {
    || op.Leave? || op.HostKick? || op.SetRule? || op.Start? || op.LogEscape? || op.RunJob? || op.Restart?
    || op.Cleanup?
  }

  lemma EntriesUntouched(w: World, op: Op, id: string)
    requires LeavesEntries(op) && IsCached(Next(w, op), id)
    ensures IsCached(w, id) && Next(w, op).cache.value.members[id] == w.cache.value.members[id]
  {
  }

  lemma GiveUpEntry(w: World, other: string, now: int, id: string)
    requires IsCached(GaveUp(w, other, now), id)
    ensures IsCached(w, id)
    ensures HasSigned(GaveUp(w, other, now), id) <==> HasSigned(w, id)
    ensures SocketOf(GaveUp(w, other, now), id) == SocketOf(w, id)
  {
  }

  /** Only a member's own message before the session signs; taking it back, any edit of the
      contract and joining again clear the signature. */
  lemma SignedIff(w: World, op: Op, id: string)
    requires Invariant(w) && IsCached(Next(w, op), id)
    ensures HasSigned(Next(w, op), id) <==>
              || (op == Sign(id, true) && BeforeSession(w))
              || (HasSigned(w, id) && !Joins(w, op, id)
                  && !(BeforeSession(w) && (op == Sign(id, false) || op == EditContract)))
  {
    if op.Sign? || op.EditContract? {
      SigningSigns(w, op, id);
    } else if op.Join? {
      JoinedEntry(w, op, id);
    } else if op.ForceStart? {
      ForcedOut(w, op, id);
    } else {
      SignaturesStay(w, op, id);
    }
  }

  lemma SigningSigns(w: World, op: Op, id: string)
    requires Invariant(w) && (op.Sign? || op.EditContract?) && IsCached(Next(w, op), id)
    ensures HasSigned(Next(w, op), id) <==>
              || (op == Sign(id, true) && BeforeSession(w))
              || (HasSigned(w, id) && !(BeforeSession(w) && (op == Sign(id, false) || op == EditContract)))
    ensures SocketOf(Next(w, op), id) == SocketOf(w, id)
  {
    match op {
      case Sign(_, _) =>
      case EditContract =>
    }
  }

  lemma JoinedEntry(w: World, op: Op, id: string)
    requires op.Join? && IsCached(Next(w, op), id)
    ensures HasSigned(Next(w, op), id) <==> HasSigned(w, id) && !Joins(w, op, id)
    ensures SocketOf(Next(w, op), id) == if Joins(w, op, id) then None else SocketOf(w, id)
  {
    MayJoinIff(w, op.id, op.passwordOk, op.inOtherSession);
  }

  lemma ConnectionSignature(w: World, op: Op, id: string)
    requires (op.Connect? || op.Disconnect?) && IsCached(Next(w, op), id)
    ensures HasSigned(Next(w, op), id) <==> HasSigned(w, id)
  {
    match op {
      case Connect(_, _) =>
      case Disconnect(_, _) =>
    }
  }

  lemma SignaturesStay(w: World, op: Op, id: string)
    requires !op.Join? && !op.ForceStart? && !op.Sign? && !op.EditContract?
    requires IsCached(Next(w, op), id)
    ensures HasSigned(Next(w, op), id) <==> HasSigned(w, id)
  {
    if op.Connect? || op.Disconnect? {
      ConnectionSignature(w, op, id);
    } else if op.GiveUp? {
      GiveUpEntry(w, op.id, op.now, id);
    } else {
      EntriesUntouched(w, op, id);
    }
  }

  function SocketOf(w: World, id: string): Option<int> {
    if IsCached(w, id) then w.cache.value.members[id].socket else None
  }

  /** A member's socket is that of the last accepted connection, until it is closed or the
      member joins again. */
  lemma SocketAfter(w: World, op: Op, id: string)
    requires Invariant(w) && IsCached(Next(w, op), id)
    ensures SocketOf(Next(w, op), id)
         == if Joins(w, op, id) || LosesSocket(w, op, id) then None
            else if op.Connect? && op.id == id && MayEnter(w, id) then Some(op.socket)
            else SocketOf(w, id)
  {
    if op.Connect? || op.Disconnect? {
      ConnectionSocket(w, op, id);
    } else if op.Join? {
      JoinedEntry(w, op, id);
    } else if op.ForceStart? {
      ForcedOut(w, op, id);
    } else {
      SocketsStay(w, op, id);
    }
  }

  lemma ConnectionSocket(w: World, op: Op, id: string)
    requires Invariant(w) && (op.Connect? || op.Disconnect?) && IsCached(Next(w, op), id)
    ensures SocketOf(Next(w, op), id)
         == if LosesSocket(w, op, id) then None
            else if op.Connect? && op.id == id && MayEnter(w, id) then Some(op.socket)
            else SocketOf(w, id)
  {
    match op {
      case Connect(other, _) => MayEnterIff(w, other);
      case Disconnect(_, _) =>
    }
  }

  lemma SocketsStay(w: World, op: Op, id: string)
    requires Invariant(w) && !op.Join? && !op.Connect? && !op.ForceStart? && !op.Disconnect?
    requires IsCached(Next(w, op), id)
    ensures SocketOf(Next(w, op), id) == SocketOf(w, id)
  {
    if op.GiveUp? {
      GiveUpEntry(w, op.id, op.now, id);
    } else if op.Sign? || op.EditContract? {
      SigningSigns(w, op, id);
    } else {
      EntriesUntouched(w, op, id);
    }
  }

  // ----- the phase -----

  predicate NobodyActive(w: World) { forall id :: id in w.rows ==> w.rows[id].gaveUpAt.Some? }

  predicate Begins(w: World, op: Op) {
    || (op.Start? && MayStart(w, op.actor) && !op.fails && AllHaveSigned(w))
    || (op.ForceStart? && MayStart(w, op.actor) && !op.fails && AllGetThrough(w, op.faults))
  }

  predicate AllHaveSigned(w: World) {
    w.cache.Some? && forall id :: id in w.cache.value.members ==> !IsUnsigned(w, id)
  }

  predicate AllGetThrough(w: World, faults: Faults) {
    w.cache.Some? && forall id :: id in w.cache.value.members && IsUnsigned(w, id) ==> GetsThrough(faults, id)
  }

  /** The end comes with the end job, when it is due, with the last give-up, or with a restart
      past the planned end. */
  predicate Ends(w: World, op: Op) {
    && w.phase == Timer
    && match op
       case GiveUp(id, _) => GivesUp(w, op, id) && forall o :: o in w.rows && o != id ==> w.rows[o].gaveUpAt.Some?
       case RunJob(j, now) => j == End(w.code) && j in w.jobs && w.jobs[j] <= now
       case Restart(_, now) => w.plan.Some? && w.startedAt.Some? && now >= w.startedAt.value + SessionMs(w.plan.value)
       case _ => false
  }

  /** The host leaves before the session, or the cleanup finds nobody in a room that is not
      over and has no active members in a session. */
  predicate Closes(w: World, op: Op) {
    || (op == Leave(w.hostId) && BeforeSession(w))
    || (op.Cleanup? && w.cleanupPending && w.phase != Phase.Result && (w.phase == Timer ==> NobodyActive(w)))
  }

  predicate Opens(w: World, op: Op) { w.phase == Lobby && op.Connect? && op.id in w.rows }

  lemma NoneUnsignedIff(w: World)
    requires Invariant(w) && w.cache.Some?
    ensures UnsignedMembers(w.cache.value.members) == {} <==> AllHaveSigned(w)
  {
    forall id | id in w.cache.value.members
      ensures id in UnsignedMembers(w.cache.value.members) <==> IsUnsigned(w, id)
    {
      UnsignedIff(w, id);
    }
    if UnsignedMembers(w.cache.value.members) != {} {
      var id :| id in UnsignedMembers(w.cache.value.members);
      assert id in w.cache.value.members;
    }
  }

  lemma AllThroughIff(w: World, faults: Faults)
    requires Invariant(w) && w.cache.Some?
    ensures AllKicksSucceed(w, faults) <==> AllGetThrough(w, faults)
  {
    var targets := UnsignedMembers(w.cache.value.members);
    forall id ensures id in targets <==> IsUnsigned(w, id) && id in w.cache.value.members
      ensures id in KickedBy(targets, faults) <==> id in targets && GetsThrough(faults, id)
    {
      UnsignedIff(w, id);
      ThreeAttempts(faults, id);
    }
    if AllKicksSucceed(w, faults) {
      forall id | id in w.cache.value.members && IsUnsigned(w, id) ensures GetsThrough(faults, id) {
        assert id in KickedBy(targets, faults);
      }
    } else {
      assert KickedBy(targets, faults) <= targets;
      var id :| id in targets && id !in KickedBy(targets, faults);
      assert id in w.cache.value.members;
    }
  }

  lemma StartPhase(w: World, op: Op)
    requires Invariant(w) && (op.Start? || op.ForceStart?)
    ensures Next(w, op).phase == if Begins(w, op) then Timer else w.phase
    ensures Next(w, op).startedAt == if Begins(w, op) then Some(op.now) else w.startedAt
    ensures Next(w, op).endedAt == w.endedAt && Next(w, op).plan == w.plan
  {
    MayStartIff(w, op.actor);
    if MayStart(w, op.actor) {
      NoneUnsignedIff(w);
      if op.ForceStart? {
        AllThroughIff(w, op.faults);
      }
    }
  }

  lemma NobodyActiveIff(w: World)
    ensures ActiveRows(w) == {} <==> NobodyActive(w)
  {
    if ActiveRows(w) != {} {
      var id :| id in ActiveRows(w);
      assert id in w.rows;
    } else {
      forall id | id in w.rows ensures w.rows[id].gaveUpAt.Some? {
        assert id !in ActiveRows(w);
      }
    }
  }

  lemma GiveUpPhase(w: World, id: string, now: int)
    ensures var op := GiveUp(id, now);
            var after := Next(w, op);
            && after.phase == (if Ends(w, op) then Phase.Result else w.phase)
            && after.endedAt == (if Ends(w, op) then Some(now) else w.endedAt)
            && after.startedAt == w.startedAt && after.plan == w.plan
  {
    if GiveUpRefusal(w, id).None? {
      var marked := MarkedGaveUp(w, id, now);
      var queued := marked.(jobs := map[RevealPenalties(w.code, id) := now + ROULETTE_TIMEOUT_MS] + w.jobs);
      NobodyActiveIff(queued);
      forall o | o in w.rows
        ensures queued.rows[o].gaveUpAt.Some? <==> o == id || w.rows[o].gaveUpAt.Some?
      {
      }
      assert marked.rows.Keys == w.rows.Keys;
    }
  }

  lemma CleanupPhase(w: World)
    requires Invariant(w)
    ensures CleanedUp(w).phase == if Closes(w, Cleanup) then Closed else w.phase
    ensures CleanedUp(w).startedAt == w.startedAt && CleanedUp(w).endedAt == w.endedAt && CleanedUp(w).plan == w.plan
  {
    NobodyActiveIff(w);
    if w.cleanupPending && w.phase != Closed {
      CleanupClosesIff(w);
    }
  }

  predicate SameTimes(w: World, after: World) {
    after.phase == w.phase && after.startedAt == w.startedAt && after.endedAt == w.endedAt
  }

  lemma ConnectPhase(w: World, id: string, socket: int)
    requires Invariant(w)
    ensures var op := Connect(id, socket);
            && Next(w, op).phase == (if Opens(w, op) then Contract else w.phase)
            && Next(w, op).startedAt == w.startedAt && Next(w, op).endedAt == w.endedAt
  {
    MayEnterIff(w, id);
  }

  lemma LeavePhase(w: World, id: string)
    ensures var op := Leave(id);
            && Next(w, op).phase == (if Closes(w, op) then Closed else w.phase)
            && Next(w, op).startedAt == w.startedAt && Next(w, op).endedAt == w.endedAt
  {
  }

  lemma EndedTimes(w: World, now: int)
    requires w.phase == Timer
    ensures var after := SessionEnded(w, now);
            after.phase == Phase.Result && after.endedAt == Some(now) && after.startedAt == w.startedAt
  {
  }

  lemma EndJobIff(w: World, j: SessionJob, now: int)
    ensures Ends(w, RunJob(j, now)) <==> w.phase == Timer && j.End? && JobDue(w, j, now)
  {
    assert j.End? && j.roomCode == w.code <==> j == End(w.code);
  }

  lemma JobPhase(w: World, j: SessionJob, now: int)
    requires Invariant(w)
    ensures var ends, after := Ends(w, RunJob(j, now)), JobRun(w, j, now);
            && after.phase == (if ends then Phase.Result else w.phase)
            && after.endedAt == (if ends then Some(now) else w.endedAt)
            && after.startedAt == w.startedAt
  {
    EndJobIff(w, j, now);
    if Ends(w, RunJob(j, now)) {
      EndedTimes(w.(jobs := w.jobs - {j}), now);
    } else {
      JobLeavesTimes(w, j, now);
    }
  }

  lemma JobLeavesTimes(w: World, j: SessionJob, now: int)
    requires Invariant(w) && !(JobDue(w, j, now) && w.phase == Timer && j.End?)
    ensures SameTimes(w, JobRun(w, j, now))
  {
    if JobDue(w, j, now) {
      DueJobRuns(w, j, now);
    }
  }

  lemma RestartPhase(w: World, lost: set<SessionJob>, now: int)
    ensures var op := Restart(lost, now);
            && Next(w, op).phase == (if Ends(w, op) then Phase.Result else w.phase)
            && Next(w, op).endedAt == (if Ends(w, op) then Some(now) else w.endedAt)
            && Next(w, op).startedAt == w.startedAt
  {
  }

  lemma QuietPhase(w: World, op: Op)
    requires op.Join? || op.HostKick? || op.Disconnect? || op.Sign? || op.EditContract? || op.SetRule? || op.LogEscape?
    ensures SameTimes(w, Next(w, op))
  {
    match op {
      case Disconnect(_, _) =>
      case _ =>
    }
  }

  /** The phase moves exactly so: a first connection opens the contract phase, a start begins
      the session, an end ends it, a closing closes the room; the starting and the ending
      instant are recorded then and never otherwise. */
  lemma PhaseAfter(w: World, op: Op)
    requires Invariant(w)
    ensures Next(w, op).phase == if Opens(w, op) then Contract else if Begins(w, op) then Timer
                                 else if Ends(w, op) then Phase.Result else if Closes(w, op) then Closed else w.phase
    ensures Next(w, op).startedAt == if Begins(w, op) then Some(op.now) else w.startedAt
    ensures Next(w, op).endedAt == if Ends(w, op) then Some(op.now) else w.endedAt
  {
    if op.Start? || op.ForceStart? {
      StartPhase(w, op);
    } else if op.GiveUp? {
      GiveUpPhase(w, op.id, op.now);
    } else if op.Cleanup? {
      CleanupPhase(w);
    } else {
      match op {
        case Connect(id, socket) => ConnectPhase(w, id, socket);
        case Leave(id) => LeavePhase(w, id);
        case RunJob(j, now) => JobPhase(w, j, now);
        case Restart(lost, now) => RestartPhase(w, lost, now);
        case _ => QuietPhase(w, op);
      }
    }
  }

  /** Only the host stores a rule, before the session and within the request bounds. */
  lemma PlanAfter(w: World, op: Op)
    ensures Next(w, op).plan
         == if op.SetRule? && op.actor == w.hostId && BeforeSession(w)
               && 1 <= op.plan.focusMin <= 600 && 1 <= op.plan.breakMin <= 120 && 1 <= op.plan.rounds <= 20
            then Some(op.plan) else w.plan
    ensures Next(w, op).code == w.code && Next(w, op).hostId == w.hostId
  {
    if !op.SetRule? {
      PlanStays(w, op);
    }
  }

  predicate SameRoom(w: World, after: World) {
    after.plan == w.plan && after.code == w.code && after.hostId == w.hostId
  }

  lemma SessionSameRoom(w: World, op: Op)
    requires op.GiveUp? || op.ForceStart? || op.RunJob? || op.Restart?
    ensures SameRoom(w, Next(w, op))
  {
    match op {
      case GiveUp(_, _) =>
      case ForceStart(_, _, _, _) =>
      case _ =>
    }
  }

  lemma PlanStays(w: World, op: Op)
    requires !op.SetRule?
    ensures SameRoom(w, Next(w, op))
  {
    match op {
      case Connect(_, _) =>
      case Disconnect(_, _) =>
      case Join(_, _, _) =>
      case Leave(_) =>
      case HostKick(_, _, _) =>
      case Sign(_, _) =>
      case EditContract =>
      case LogEscape(_) =>
      case Start(_, _, _) =>
      case Cleanup =>
      case _ => SessionSameRoom(w, op);
    }
  }

  // ----- only the host starts -----

  /** A start by anybody but the host changes nothing, plain or forced; whoever begins a
      session is the host, in the contract phase, with a rule, having signed if a member. */
  lemma OnlyHostStarts(w: World, op: Op)
    requires Invariant(w) && (op.Start? || op.ForceStart?)
    ensures Next(w, op) != w ==> op.actor == w.hostId && w.phase == Contract && w.plan.Some?
    ensures Next(w, op) != w ==> w.hostId in w.rows ==> HasSigned(w, w.hostId)
  {
    MayStartIff(w, op.actor);
  }

  // ----- the cleanup -----

  predicate NobodyElseConnected(w: World, id: string) {
    w.cache.Some? && forall other :: other in w.cache.value.members && other != id ==> SocketOf(w, other).None?
  }

  lemma DisconnectPending(w: World, id: string, socket: int)
    ensures var op := Disconnect(id, socket);
            Next(w, op).cleanupPending
              == if LosesSocket(w, op, id) then NobodyElseConnected(w, id) else w.cleanupPending
  {
    if LosesConnection(w, id, socket) {
      var after := SetSocket(EscapedByLeaving(w, id), id, None);
      if ConnectedMembers(after) != {} {
        var other :| other in ConnectedMembers(after);
        assert SocketOf(w, other).Some?;
      } else {
        forall other | other in w.cache.value.members && other != id ensures SocketOf(w, other).None? {
          assert other !in ConnectedMembers(after);
        }
      }
    }
  }

  /** The cleanup is armed by the closing of the last socket, and disarmed by any other
      closing, by a connection, by running, and by a restart. */
  lemma PendingAfter(w: World, op: Op)
    requires Invariant(w)
    ensures Next(w, op).cleanupPending
         == if op.Connect? && MayEnter(w, op.id) then false
            else if op.Disconnect? && LosesSocket(w, op, op.id) then NobodyElseConnected(w, op.id)
            else if op.Cleanup? || op.Restart? then false
            else w.cleanupPending
  {
    match op {
      case Connect(id, _) => MayEnterIff(w, id);
      case Disconnect(id, socket) => DisconnectPending(w, id, socket);
      case GiveUp(_, _) =>
      case ForceStart(_, _, _, _) => ForcedOut(w, op, "");
      case _ =>
    }
  }

  // ----- jobs -----

  /** A start queues the end and, for every round but the last, the warning and the break
      start, each at its offset from the start; nothing else is queued for the room. */
  lemma JobsAtStart(w: World, op: Op, j: SessionJob)
    requires Invariant(w) && Begins(w, op) && j.roomCode == w.code
    ensures j in Next(w, op).jobs <==>
              || j == End(w.code)
              || ((j.BreakWarning? || j.BreakStart?) && 1 <= j.round < w.plan.value.rounds)
    ensures j in Next(w, op).jobs ==> Next(w, op).jobs[j] == op.now + JobOffset(w.plan.value, j)
  {
    StartIsBegan(w, op);
    NoJobsBeforeSession(w, j);
    BeganQueue(BegunFrom(w, op), op.now, j);
    if IsPlanned(w.code, w.plan.value, j) {
      OffsetsPositive(w.code, w.plan.value, j);
    }
  }

  lemma BeganQueue(from: World, now: int, j: SessionJob)
    requires from.plan.Some? && j !in from.jobs && j.roomCode == from.code
    ensures j in Began(from, now).jobs <==>
              IsPlanned(from.code, from.plan.value, j) && JobOffset(from.plan.value, j) > 0
    ensures j in Began(from, now).jobs ==> Began(from, now).jobs[j] == now + JobOffset(from.plan.value, j)
  {
    UpcomingIff(from.code, from.plan.value, now, now, j);
  }

  /** The state from which the session begins: a forced start kicks first. */
  function BegunFrom(w: World, op: Op): World
    requires (op.Start? || op.ForceStart?) && w.cache.Some?
  {
    if op.Start? then w else AfterKicks(w, UnsignedMembers(w.cache.value.members), op.faults)
  }

  lemma StartIsBegan(w: World, op: Op)
    requires Invariant(w) && Begins(w, op)
    ensures w.plan.Some? && w.phase == Contract && Next(w, op) == Began(BegunFrom(w, op), op.now)
    ensures SameQueue(w, BegunFrom(w, op))
  {
    BeginsThrough(w, op);
    ThroughIsBegan(w, op);
  }

  predicate SameQueue(w: World, after: World) {
    after.plan == w.plan && after.code == w.code && after.jobs == w.jobs
  }

  /** The checks and kicks of a start go through. */
  predicate GoesThrough(w: World, op: Op)
    requires op.Start? || op.ForceStart?
  {
    && StartRefusal(w, op.actor).None? && !op.fails
    && if op.Start? then UnsignedMembers(w.cache.value.members) == {} else AllKicksSucceed(w, op.faults)
  }

  lemma BeginsThrough(w: World, op: Op)
    requires Invariant(w) && Begins(w, op)
    ensures GoesThrough(w, op)
  {
    MayStartIff(w, op.actor);
    if op.Start? {
      NoneUnsignedIff(w);
    } else {
      AllThroughIff(w, op.faults);
    }
  }

  lemma ThroughIsBegan(w: World, op: Op)
    requires (op.Start? || op.ForceStart?) && GoesThrough(w, op)
    ensures w.plan.Some? && w.phase == Contract && Next(w, op) == Began(BegunFrom(w, op), op.now)
    ensures SameQueue(w, BegunFrom(w, op))
  {
  }

  /** The jobs lost by a restart do not survive it. */
  predicate WasQueued(w: World, op: Op, j: SessionJob) { j in w.jobs && !(op.Restart? && j in op.lost) }

  /** The state in which the end finds the room. */
  function AtEnd(w: World, op: Op): World
    requires Ends(w, op)
  {
    match op
    case GiveUp(id, now) =>
      MarkedGaveUp(w, id, now).(jobs := map[RevealPenalties(w.code, id) := now + ROULETTE_TIMEOUT_MS] + w.jobs)
    case RunJob(j, _) => w.(jobs := w.jobs - {j})
    case Restart(lost, _) => Survived(w, lost)
  }

  lemma GiveUpQueued(w: World, id: string, now: int)
    requires Invariant(w) && GiveUpRefusal(w, id).None?
    ensures var marked := MarkedGaveUp(w, id, now);
            Invariant(marked.(jobs := map[RevealPenalties(w.code, id) := now + ROULETTE_TIMEOUT_MS] + w.jobs))
  {
    MarkedAdvances(w, id, now);
    var marked := MarkedGaveUp(w, id, now);
    assert marked.code == w.code && marked.jobs == w.jobs && marked.phase == Timer;
    RevealQueuedAdvances(marked, id, now + ROULETTE_TIMEOUT_MS);
  }

  lemma AtEndInvariant(w: World, op: Op)
    requires Invariant(w) && Ends(w, op)
    ensures Invariant(AtEnd(w, op))
  {
    if op.GiveUp? {
      GiveUpQueued(w, op.id, op.now);
    } else if op.RunJob? {
      FewerJobsAdvance(w, {op.job});
    } else {
      SurvivedAdvances(w, op.lost);
    }
  }

  lemma LastGiveUpIsEnd(w: World, id: string, now: int)
    requires Ends(w, GiveUp(id, now))
    ensures GaveUp(w, id, now) == SessionEnded(AtEnd(w, GiveUp(id, now)), now)
  {
    var queued := AtEnd(w, GiveUp(id, now));
    forall o | o in queued.rows ensures queued.rows[o].gaveUpAt.Some? {
      assert o in w.rows;
    }
    NobodyActiveIff(queued);
    GiveUpEnds(w, id, now, queued);
  }

  lemma GiveUpEnds(w: World, id: string, now: int, queued: World)
    requires GiveUpRefusal(w, id).None? && ActiveRows(queued) == {}
    requires queued
          == MarkedGaveUp(w, id, now).(jobs := map[RevealPenalties(w.code, id) := now + ROULETTE_TIMEOUT_MS] + w.jobs)
    ensures GaveUp(w, id, now) == SessionEnded(queued, now)
  {
  }

  lemma EndIsEnded(w: World, op: Op)
    requires Ends(w, op)
    ensures Next(w, op) == SessionEnded(AtEnd(w, op), op.now)
    ensures AtEnd(w, op).phase == Timer && AtEnd(w, op).code == w.code && AtEnd(w, op).rows.Keys == w.rows.Keys
  {
    match op {
      case GiveUp(id, now) => LastGiveUpIsEnd(w, id, now);
      case RunJob(_, _) =>
      case Restart(_, _) =>
    }
  }

  lemma QueuedAtEnd(w: World, op: Op, j: SessionJob)
    requires Ends(w, op) && j.roomCode == w.code && j.RevealPenalties? && j.memberId !in w.rows
    ensures j in AtEnd(w, op).jobs <==> WasQueued(w, op, j)
  {
  }

  /** The end leaves for the room one reveal job per member, ten minutes later, and reveal
      jobs that were queued for members since removed. */
  lemma JobsAtEnd(w: World, op: Op, j: SessionJob)
    requires Invariant(w) && Ends(w, op) && j.roomCode == w.code
    ensures j in Next(w, op).jobs <==> j.RevealPenalties? && (j.memberId in w.rows || WasQueued(w, op, j))
    ensures j.RevealPenalties? && j.memberId in w.rows ==> Next(w, op).jobs[j] == op.now + 10 * 60 * 1000
  {
    AtEndInvariant(w, op);
    EndIsEnded(w, op);
    if j.RevealPenalties? && j.memberId !in w.rows {
      QueuedAtEnd(w, op, j);
    }
    EndedJobs(AtEnd(w, op), op.now, j);
  }

  /** Closing a room leaves for it reveal jobs of removed members only. */
  lemma JobsAtClose(w: World, op: Op, j: SessionJob)
    requires Invariant(w) && Closes(w, op) && j.roomCode == w.code
    ensures j in Next(w, op).jobs <==> j in w.jobs && j.RevealPenalties? && j.memberId !in w.rows
  {
    CloseIsDeleted(w, op);
    if j.RevealPenalties? {
      RevealMember(w, j);
    }
    if BeforeSession(w) {
      NoJobsBeforeSession(w, j);
    } else if j in w.jobs && !j.RevealPenalties? {
      CancellationCovers(w.code, w.plan.value, w.rows.Keys, j);
    }
  }

  lemma RevealMember(w: World, j: SessionJob)
    requires j.roomCode == w.code && j.RevealPenalties?
    ensures j in Cancelled(w.code, Rounds(w), w.rows.Keys) <==> j.memberId in w.rows
  {
    RevealCancelledIff(w.code, Rounds(w), w.rows.Keys, j.memberId);
  }

  lemma CloseIsDeleted(w: World, op: Op)
    requires Invariant(w) && Closes(w, op)
    ensures Next(w, op).jobs == w.jobs - Cancelled(w.code, Rounds(w), w.rows.Keys)
  {
    NobodyActiveIff(w);
  }

  /** Between these, a give-up that does not end the session queues the member's reveal job,
      ten minutes later, a due job leaves, and no other operation changes the queue. */
  lemma JobsOtherwise(w: World, op: Op)
    requires Invariant(w) && !Begins(w, op) && !Ends(w, op) && !Closes(w, op) && !op.Restart?
    ensures Next(w, op).jobs
         == if op.GiveUp? && GivesUp(w, op, op.id)
            then map[RevealPenalties(w.code, op.id) := op.now + 10 * 60 * 1000] + w.jobs
            else if op.RunJob? && op.job in w.jobs && op.job.roomCode == w.code && w.jobs[op.job] <= op.now
            then w.jobs - {op.job}
            else w.jobs
  {
    match op {
      case Start(_, _, _) => FailedStartQueue(w, op);
      case ForceStart(_, _, _, _) => FailedStartQueue(w, op);
      case GiveUp(id, now) => GiveUpQueue(w, id, now);
      case _ => OtherQueue(w, op);
    }
  }

  lemma FailedStartQueue(w: World, op: Op)
    requires Invariant(w) && (op.Start? || op.ForceStart?) && !Begins(w, op)
    ensures Next(w, op).jobs == w.jobs
  {
    MayStartIff(w, op.actor);
    if MayStart(w, op.actor) {
      if op.Start? {
        NoneUnsignedIff(w);
      } else {
        AllThroughIff(w, op.faults);
      }
    }
  }

  lemma GiveUpQueue(w: World, id: string, now: int)
    requires !Ends(w, GiveUp(id, now))
    ensures Next(w, GiveUp(id, now)).jobs
         == if GivesUp(w, GiveUp(id, now), id) then map[RevealPenalties(w.code, id) := now + 10 * 60 * 1000] + w.jobs
            else w.jobs
  {
    GiveUpPhase(w, id, now);
  }

  lemma JobQueue(w: World, j: SessionJob, now: int)
    requires Invariant(w) && !Ends(w, RunJob(j, now))
    ensures JobRun(w, j, now).jobs == if JobDue(w, j, now) then w.jobs - {j} else w.jobs
  {
    if JobDue(w, j, now) {
      if Rank(w.phase) < Rank(Timer) {
        NoJobsBeforeSession(w, j);
      }
      assert j.End? ==> j == End(w.code);
      JobTaken(w, j, now);
    }
  }

  lemma JobTaken(w: World, j: SessionJob, now: int)
    requires JobDue(w, j, now) && Rank(w.phase) >= Rank(Timer) && !(w.phase == Timer && j.End?)
    ensures JobRun(w, j, now).jobs == w.jobs - {j}
  {
  }

  lemma CleanupQueue(w: World)
    requires Invariant(w) && !Closes(w, Cleanup)
    ensures CleanedUp(w).jobs == w.jobs
  {
    CleanupPhase(w);
    if w.cleanupPending {
      CleanupClosesIff(w);
    }
  }

  lemma OtherQueue(w: World, op: Op)
    requires Invariant(w) && !Ends(w, op) && !Closes(w, op)
    requires !op.Start? && !op.ForceStart? && !op.GiveUp? && !op.Restart?
    ensures Next(w, op).jobs
         == if op.RunJob? && op.job in w.jobs && op.job.roomCode == w.code && w.jobs[op.job] <= op.now
            then w.jobs - {op.job} else w.jobs
  {
    match op {
      case Leave(_) =>
      case Cleanup => CleanupQueue(w);
      case RunJob(j, now) => JobQueue(w, j, now);
      case HostKick(_, _, _) =>
      case _ => QuietSteps(w, op);
    }
  }

  /** A restart that does not end the session leaves what was queued and not lost, and during
      the session the planned jobs still ahead. */
  lemma JobsAtRestart(w: World, lost: set<SessionJob>, now: int, j: SessionJob)
    requires Invariant(w) && !Ends(w, Restart(lost, now)) && j.roomCode == w.code
    ensures var op := Restart(lost, now);
            j in Next(w, op).jobs <==>
              || (j in w.jobs && j !in lost)
              || (w.phase == Timer && IsPlanned(w.code, w.plan.value, j)
                  && w.startedAt.value + JobOffset(w.plan.value, j) > now)
  {
    RestartQueue(w, lost, now);
    if w.phase == Timer {
      RequeuedIff(Survived(w, lost), now, j);
    }
  }

  lemma RestartQueue(w: World, lost: set<SessionJob>, now: int)
    requires w.phase == Timer ==> w.plan.Some? && w.startedAt.Some?
    requires w.phase == Timer ==> now < w.startedAt.value + SessionMs(w.plan.value)
    ensures Restarted(w, lost, now).jobs
         == if w.phase == Timer then Upcoming(w.code, w.plan.value, w.startedAt.value, now) + Survived(w, lost).jobs
            else w.jobs - lost
  {
    if w.phase == Timer {
      RestartCases(w, lost, now);
    }
  }

  lemma RequeuedIff(w: World, now: int, j: SessionJob)
    requires w.plan.Some? && w.startedAt.Some?
    ensures j in Upcoming(w.code, w.plan.value, w.startedAt.value, now) + w.jobs <==>
              j in w.jobs || (IsPlanned(w.code, w.plan.value, j)
                              && w.startedAt.value + JobOffset(w.plan.value, j) > now)
  {
    UpcomingIff(w.code, w.plan.value, w.startedAt.value, now, j);
  }

  lemma OtherRoomEnded(w: World, now: int, j: SessionJob)
    requires j.roomCode != w.code
    ensures j in SessionEnded(w, now).jobs <==> j in w.jobs
    ensures j in w.jobs ==> SessionEnded(w, now).jobs[j] == w.jobs[j]
  {
  }

  lemma OtherRoomBegan(w: World, now: int, j: SessionJob)
    requires w.plan.Some? && j.roomCode != w.code
    ensures j in Began(w, now).jobs <==> j in w.jobs
    ensures j in w.jobs ==> Began(w, now).jobs[j] == w.jobs[j]
  {
    OtherRoomsUntouched(w.code, w.plan.value, w.rows.Keys, now, now, j);
    UpcomingIff(w.code, w.plan.value, now, now, j);
  }

  lemma OtherRoomRestarted(w: World, lost: set<SessionJob>, now: int, j: SessionJob)
    requires j.roomCode != w.code
    ensures var after := Restarted(w, lost, now);
            && (j in after.jobs <==> j in w.jobs && j !in lost) && (j in after.jobs ==> after.jobs[j] == w.jobs[j])
  {
    OtherRoomEnded(Survived(w, lost), now, j);
    if w.plan.Some? && w.startedAt.Some? {
      UpcomingIff(w.code, w.plan.value, w.startedAt.value, now, j);
    }
  }

  /** No operation of a room touches another room's jobs. */
  lemma OtherRoomsJobs(w: World, op: Op, j: SessionJob)
    requires Invariant(w) && j.roomCode != w.code
    ensures j in Next(w, op).jobs <==> WasQueued(w, op, j)
    ensures j in Next(w, op).jobs ==> Next(w, op).jobs[j] == w.jobs[j]
  {
    if op.Restart? {
      OtherRoomRestarted(w, op.lost, op.now, j);
    } else if Begins(w, op) {
      OtherRoomStarts(w, op, j);
    } else if Ends(w, op) {
      OtherRoomEnds(w, op, j);
    } else if Closes(w, op) {
      OtherRoomCloses(w, op, j);
    } else {
      OtherRoomQuiet(w, op, j);
    }
  }

  lemma OtherRoomQuiet(w: World, op: Op, j: SessionJob)
    requires Invariant(w) && !Begins(w, op) && !Ends(w, op) && !Closes(w, op) && !op.Restart? && j.roomCode != w.code
    ensures j in Next(w, op).jobs <==> j in w.jobs
    ensures j in Next(w, op).jobs ==> Next(w, op).jobs[j] == w.jobs[j]
  {
    JobsOtherwise(w, op);
  }

  lemma OtherRoomEnds(w: World, op: Op, j: SessionJob)
    requires Ends(w, op) && !op.Restart? && j.roomCode != w.code
    ensures j in Next(w, op).jobs <==> j in w.jobs
    ensures j in Next(w, op).jobs ==> Next(w, op).jobs[j] == w.jobs[j]
  {
    EndIsEnded(w, op);
    OtherRoomEnded(AtEnd(w, op), op.now, j);
    OthersAtEnd(w, op, j);
  }

  lemma OthersAtEnd(w: World, op: Op, j: SessionJob)
    requires Ends(w, op) && !op.Restart? && j.roomCode != w.code
    ensures j in AtEnd(w, op).jobs <==> j in w.jobs
    ensures j in w.jobs ==> AtEnd(w, op).jobs[j] == w.jobs[j]
  {
  }

  lemma OtherRoomCloses(w: World, op: Op, j: SessionJob)
    requires Invariant(w) && Closes(w, op) && j.roomCode != w.code
    ensures j in Next(w, op).jobs <==> j in w.jobs
    ensures j in Next(w, op).jobs ==> Next(w, op).jobs[j] == w.jobs[j]
  {
    CloseIsDeleted(w, op);
    NotCancelledElsewhere(w, j);
  }

  lemma NotCancelledElsewhere(w: World, j: SessionJob)
    requires j.roomCode != w.code
    ensures j !in Cancelled(w.code, Rounds(w), w.rows.Keys)
  {
  }

  lemma OtherRoomStarts(w: World, op: Op, j: SessionJob)
    requires Invariant(w) && Begins(w, op) && j.roomCode != w.code
    ensures j in Next(w, op).jobs <==> j in w.jobs
    ensures j in Next(w, op).jobs ==> Next(w, op).jobs[j] == w.jobs[j]
  {
    StartIsBegan(w, op);
    OtherRoomBegan(BegunFrom(w, op), op.now, j);
  }
}
