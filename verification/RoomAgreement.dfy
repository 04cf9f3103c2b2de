/** When the cached state agrees with the rows.

    It always covers them; what can be too much are cached members without a row, left over
    by a kick that failed between deleting the row and saving the cached state.  The module
    says exactly which steps leave one and which clear one, and hence exactly after which
    runs of a room cache and rows agree. */
module RoomAgreement {
  import opened Wrappers
  import opened Phases
  import opened SessionJobs
  import opened RoomOperations
  import opened RoomProtocol

  /** While the cached state exists it agrees with the rows; it exists until closing. */
  predicate CacheAgrees(w: World) {
    && (w.cache.None? <==> w.phase == Closed)
    && (w.cache.Some? ==>
          && w.cache.value.hostId == w.hostId && w.cache.value.phase == w.phase
          && w.cache.value.members.Keys == w.rows.Keys
          && forall id :: id in w.rows ==>
               && w.cache.value.members[id].isHost == w.rows[id].isHost
               && w.cache.value.members[id].gaveUpAt == w.rows[id].gaveUpAt)
  }

  /** The members in the cached state without a row. */
  function Leftovers(w: World): set<string> {
    if w.cache.None? then {} else w.cache.value.members.Keys - w.rows.Keys
  }

  lemma AgreesIff(w: World)
    requires CacheCovers(w)
    ensures CacheAgrees(w) <==> Leftovers(w) == {}
  {
    if w.cache.Some? && Leftovers(w) == {} {
      forall id | id in w.cache.value.members ensures id in w.rows {
        assert id !in Leftovers(w);
      }
      assert forall id :: id in w.rows ==> EntryFits(w, id, w.cache.value.members[id]);
    }
  }

  // ----- one step -----

  /** A kick with these faults deletes the row without ever reaching the cached state. */
  predicate HalfKicked(id: string, faults: Faults) {
    Deletes(faults, id, KICK_ATTEMPTS) && !Uncaches(faults, id, KICK_ATTEMPTS)
  }

  /** The step leaves a kick of this member half done. */
  predicate HalfKicks(w: World, op: Op, id: string) {
    match op
    case HostKick(actor, target, fault) =>
      && target == id && KickAllowed(w, actor, target) && fault == AtSave
      && id in w.cache.value.members && !HasLoggedRow(w, id)
    case ForceStart(actor, _, faults, _) =>
      StartRefusal(w, actor).None? && id in UnsignedMembers(w.cache.value.members) && HalfKicked(id, faults)
    case _ => false
  }

  /** The step ends the disagreement about a member without a row: the member joins again,
      a kick gets through to the cached state, or the room is closed. */
  predicate Clears(w: World, op: Op, id: string) {
    match op
    case Join(other, passwordOk, inOtherSession) =>
      other == id && JoinRefusal(w, id, passwordOk, inOtherSession).None?
    case HostKick(actor, target, fault) =>
      target == id && KickAllowed(w, actor, target) && (fault == AtBan || fault == NoFault)
    case ForceStart(actor, _, faults, _) =>
      && StartRefusal(w, actor).None? && id in UnsignedMembers(w.cache.value.members)
      && Uncaches(faults, id, KICK_ATTEMPTS)
    case Leave(other) => other == w.hostId && LeaveRefusal(w, other).None?
    case Cleanup => w.cleanupPending && w.phase != Phase.Result && (w.phase == Timer ==> ActiveRows(w) == {})
    case _ => false
  }

  lemma KicksLeave(w: World, ids: set<string>, faults: Faults, id: string)
    requires w.cache.Some? && ids <= w.cache.value.members.Keys
    ensures id in Leftovers(AfterKicks(w, ids, faults)) <==>
              (id in ids && HalfKicked(id, faults)) || (id in Leftovers(w) && id !in UncachedBy(ids, faults))
  {
    StagesNested(faults, id, KICK_ATTEMPTS);
  }

  lemma BeganLeaves(w: World, now: int)
    requires w.plan.Some?
    ensures Leftovers(Began(w, now)) == Leftovers(w)
  {
  }

  lemma ForceStartLeaves(w: World, actor: string, now: int, faults: Faults, fails: bool, id: string)
    requires StartRefusal(w, actor).None?
    ensures Leftovers(ForceStarted(w, actor, now, faults, fails))
         == Leftovers(AfterKicks(w, UnsignedMembers(w.cache.value.members), faults))
  {
    BeganLeaves(AfterKicks(w, UnsignedMembers(w.cache.value.members), faults), now);
  }

  lemma ForceStartLeftoverIff(w: World, actor: string, now: int, faults: Faults, fails: bool, id: string)
    ensures var op := ForceStart(actor, now, faults, fails);
            id in Leftovers(Next(w, op)) <==> HalfKicks(w, op, id) || (id in Leftovers(w) && !Clears(w, op, id))
  {
    if StartRefusal(w, actor).None? {
      ForceStartLeaves(w, actor, now, faults, fails, id);
      KicksLeave(w, UnsignedMembers(w.cache.value.members), faults, id);
    }
  }

  lemma JoinLeaves(w: World, other: string, passwordOk: bool, inOtherSession: bool, id: string)
    requires Invariant(w)
    ensures var op := Join(other, passwordOk, inOtherSession);
            id in Leftovers(Next(w, op)) <==> id in Leftovers(w) && !Clears(w, op, id)
  {
  }

  lemma LeaveLeaves(w: World, other: string, id: string)
    requires Invariant(w)
    ensures var op := Leave(other); id in Leftovers(Next(w, op)) <==> id in Leftovers(w) && !Clears(w, op, id)
  {
  }

  lemma HostKickLeaves(w: World, actor: string, target: string, fault: Fault, id: string)
    requires Invariant(w)
    ensures var op := HostKick(actor, target, fault);
            id in Leftovers(Next(w, op)) <==> HalfKicks(w, op, id) || (id in Leftovers(w) && !Clears(w, op, id))
  {
  }

  lemma ClosedLeavesNobody(w: World)
    requires CacheCovers(w) && w.phase == Closed
    ensures Leftovers(w) == {}
  {
  }

  lemma CleanupLeaves(w: World, id: string)
    requires Invariant(w)
    ensures id in Leftovers(CleanedUp(w)) <==> id in Leftovers(w) && !Clears(w, Cleanup, id)
  {
    CleanupAdvances(w);
    if w.phase == Closed {
      ClosedLeavesNobody(w);
      ClosedLeavesNobody(CleanedUp(w));
    } else if w.cleanupPending {
      CleanupClosesIff(w);
      if CleanedUp(w).phase == Closed {
        ClosedLeavesNobody(CleanedUp(w));
      } else {
        SameKeysSameLeftovers(w, w.(cleanupPending := false));
      }
    }
  }

  /** Same rows as far as keys go, same cached members. */
  lemma SameKeysSameLeftovers(w: World, after: World)
    requires after.rows.Keys == w.rows.Keys && (after.cache.None? <==> w.cache.None?)
    requires w.cache.Some? ==> after.cache.value.members.Keys == w.cache.value.members.Keys
    ensures Leftovers(after) == Leftovers(w)
  {
  }

  lemma SocketLeaves(w: World, id: string, socket: Option<int>)
    ensures Leftovers(SetSocket(w, id, socket)) == Leftovers(w)
  {
    SameKeysSameLeftovers(w, SetSocket(w, id, socket));
  }

  lemma ConnectLeaves(w: World, id: string, socket: int)
    ensures Leftovers(Connected(w, id, socket)) == Leftovers(w)
  {
    if MayConnect(w, id) {
      var ready := w.(cleanupPending := false);
      var online := SetSocket(ready, id, Some(socket));
      SameKeysSameLeftovers(w, ready);
      SocketLeaves(ready, id, Some(socket));
      SameKeysSameLeftovers(online, ToContract(online));
    }
  }

  lemma DisconnectLeaves(w: World, id: string, socket: int)
    ensures Leftovers(Disconnected(w, id, socket)) == Leftovers(w)
  {
    if LosesConnection(w, id, socket) {
      var escaped := EscapedByLeaving(w, id);
      var after := SetSocket(escaped, id, None);
      SameKeysSameLeftovers(w, escaped);
      SocketLeaves(escaped, id, None);
      SameKeysSameLeftovers(after, after.(cleanupPending := ConnectedMembers(after) == {}));
    }
  }

  lemma EndedLeaves(w: World, now: int)
    ensures Leftovers(SessionEnded(w, now)) == Leftovers(w)
  {
  }

  lemma GiveUpLeaves(w: World, id: string, now: int)
    requires Invariant(w)
    ensures Leftovers(GaveUp(w, id, now)) == Leftovers(w)
  {
    if GiveUpRefusal(w, id).None? {
      var marked := MarkedGaveUp(w, id, now);
      SameKeysSameLeftovers(w, marked);
      var queued := marked.(jobs := map[RevealPenalties(w.code, id) := now + ROULETTE_TIMEOUT_MS] + w.jobs);
      SameKeysSameLeftovers(marked, queued);
      EndedLeaves(queued, now);
    }
  }

  lemma RestartLeaves(w: World, lost: set<SessionJob>, now: int)
    ensures Leftovers(Restarted(w, lost, now)) == Leftovers(w)
  {
    SameKeysSameLeftovers(w, Survived(w, lost));
    EndedLeaves(Survived(w, lost), now);
  }

  lemma JobLeaves(w: World, j: SessionJob, now: int)
    ensures Leftovers(JobRun(w, j, now)) == Leftovers(w)
  {
    SameKeysSameLeftovers(w, w.(jobs := w.jobs - {j}));
    EndedLeaves(w.(jobs := w.jobs - {j}), now);
  }

  lemma StartLeaves(w: World, actor: string, now: int, fails: bool)
    ensures Leftovers(Started(w, actor, now, fails)) == Leftovers(w)
  {
    if w.plan.Some? {
      BeganLeaves(w, now);
    }
  }

  lemma ContractStepsLeave(w: World, op: Op)
    requires op.Sign? || op.EditContract? || op.SetRule? || op.LogEscape?
    ensures Leftovers(Next(w, op)) == Leftovers(w)
  {
    SameKeysSameLeftovers(w, Next(w, op));
  }

  /** After a step a member is in the cached state without a row exactly if the step left a
      kick half done, or it was so before and the step does not clear it. */
  lemma LeftoverIff(w: World, op: Op, id: string)
    requires Invariant(w)
    ensures id in Leftovers(Next(w, op)) <==> HalfKicks(w, op, id) || (id in Leftovers(w) && !Clears(w, op, id))
  {
    match op {
      case Join(other, passwordOk, inOtherSession) => JoinLeaves(w, other, passwordOk, inOtherSession, id);
      case Leave(other) => LeaveLeaves(w, other, id);
      case HostKick(actor, target, fault) => HostKickLeaves(w, actor, target, fault, id);
      case ForceStart(actor, now, faults, fails) =>
        ForceStartLeftoverIff(w, actor, now, faults, fails, id);
      case Cleanup => CleanupLeaves(w, id);
      case Connect(other, socket) => ConnectLeaves(w, other, socket);
      case Disconnect(other, socket) => DisconnectLeaves(w, other, socket);
      case GiveUp(other, now) => GiveUpLeaves(w, other, now);
      case Restart(lost, now) => RestartLeaves(w, lost, now);
      case RunJob(j, now) => JobLeaves(w, j, now);
      case Start(actor, now, fails) => StartLeaves(w, actor, now, fails);
      case _ => ContractStepsLeave(w, op);
    }
  }

  // ----- runs -----

  predicate NeverCleared(w: World, ops: seq<Op>, id: string)
    decreases |ops|
  {
    ops != [] ==> !Clears(w, ops[0], id) && NeverCleared(Next(w, ops[0]), ops[1..], id)
  }

  /** Some step of the run leaves a kick of the member half done and no later one clears it. */
  predicate LeftBehind(w: World, ops: seq<Op>, id: string)
    decreases |ops|
  {
    && ops != []
    && var next := Next(w, ops[0]);
       (HalfKicks(w, ops[0], id) && NeverCleared(next, ops[1..], id)) || LeftBehind(next, ops[1..], id)
  }

  lemma {:induction false} LeftoverOverRuns(w: World, ops: seq<Op>, id: string)
    requires Invariant(w)
    ensures id in Leftovers(Run(w, ops)) <==>
              (id in Leftovers(w) && NeverCleared(w, ops, id)) || LeftBehind(w, ops, id)
    decreases |ops|
  {
    if ops != [] {
      StepAdvances(w, ops[0]);
      LeftoverIff(w, ops[0], id);
      LeftoverOverRuns(Next(w, ops[0]), ops[1..], id);
    }
  }

  ghost predicate AnyoneLeftBehind(w: World, ops: seq<Op>) { exists id :: LeftBehind(w, ops, id) }

  /** In every run of a created room cached state and rows agree at the end if and only if
      every kick left half done was cleared later in the run; a run without half-done kicks
      therefore always ends in agreement. */
  lemma EveryRunAgreesIff(code: string, hostId: string, ops: seq<Op>)
    ensures CacheAgrees(Run(Created(code, hostId), ops)) <==> !AnyoneLeftBehind(Created(code, hostId), ops)
  {
    var w := Created(code, hostId);
    var left := Leftovers(Run(w, ops));
    RunAdvances(w, ops);
    AgreesIff(Run(w, ops));
    forall id ensures id in left <==> LeftBehind(w, ops, id) {
      LeftoverOverRuns(w, ops, id);
    }
    if left != {} {
      var id :| id in left;
      assert LeftBehind(w, ops, id);
    }
  }

  // ----- forced starts -----

  /** Kicks that may fail keep the agreement exactly when none of them was left half done. */
  lemma KicksAgreeIff(w: World, ids: set<string>, faults: Faults)
    requires Invariant(w) && CacheAgrees(w) && w.cache.Some? && ids <= w.rows.Keys && w.hostId !in ids
    ensures CacheAgrees(AfterKicks(w, ids, faults)) <==> forall id :: id in ids ==> !HalfKicked(id, faults)
  {
    KicksAdvance(w, ids, faults);
    AgreesIff(w);
    AgreesIff(AfterKicks(w, ids, faults));
    forall id ensures id in Leftovers(AfterKicks(w, ids, faults)) <==> id in ids && HalfKicked(id, faults) {
      KicksLeave(w, ids, faults, id);
    }
  }

  /** A forced start whose kicks all go through restores the agreement if and only if nobody
      in the cached state without a row has signed there. */
  lemma ForcedStartRestoresIff(w: World, actor: string, now: int, faults: Faults, fails: bool)
    requires Invariant(w) && StartRefusal(w, actor).None? && AllKicksSucceed(w, faults)
    ensures CacheAgrees(ForceStarted(w, actor, now, faults, fails)) <==>
              Leftovers(w) <= UnsignedMembers(w.cache.value.members)
  {
    var after := ForceStarted(w, actor, now, faults, fails);
    ForceStartAdvances(w, actor, now, faults, fails);
    AgreesIff(after);
    SuccessLeaves(w, actor, now, faults, fails);
  }

  lemma SuccessLeaves(w: World, actor: string, now: int, faults: Faults, fails: bool)
    requires StartRefusal(w, actor).None? && AllKicksSucceed(w, faults)
    ensures Leftovers(ForceStarted(w, actor, now, faults, fails))
         == Leftovers(w) - UnsignedMembers(w.cache.value.members)
  {
    var targets := UnsignedMembers(w.cache.value.members);
    var left := Leftovers(ForceStarted(w, actor, now, faults, fails));
    forall id ensures id in left <==> id in Leftovers(w) && id !in targets {
      ForceStartLeaves(w, actor, now, faults, fails, id);
      AllKickedLeave(w, targets, faults, id);
    }
  }

  lemma AllKickedLeave(w: World, ids: set<string>, faults: Faults, id: string)
    requires w.cache.Some? && ids <= w.cache.value.members.Keys && KickedBy(ids, faults) == ids
    ensures id in Leftovers(AfterKicks(w, ids, faults)) <==> id in Leftovers(w) && id !in ids
  {
    KicksLeave(w, ids, faults, id);
    KickStages(ids, faults);
    StagesNested(faults, id, KICK_ATTEMPTS);
    assert id in ids ==> id in KickedBy(ids, faults);
  }

  /** Once the kicks of a failed forced start go through at a later try, the room is as if
      they had gone through at once: it agrees again, whatever the first try left behind. */
  lemma RetryRestores(w: World, actor: string, faults: Faults, again: Faults, now: int)
    requires Invariant(w) && CacheAgrees(w) && StartRefusal(w, actor).None?
    requires AllKicksSucceed(AfterKicks(w, UnsignedMembers(w.cache.value.members), faults), again)
    ensures var after := AfterKicks(w, UnsignedMembers(w.cache.value.members), faults);
            && StartRefusal(after, actor).None?
            && ForceStarted(after, actor, now, again, false).phase == Timer
            && CacheAgrees(ForceStarted(after, actor, now, again, false))
  {
    var targets := UnsignedMembers(w.cache.value.members);
    var after := AfterKicks(w, targets, faults);
    HostIsNoTarget(w);
    KicksAdvance(w, targets, faults);
    AgreesIff(w);
    forall id | id in Leftovers(after) ensures id in UnsignedMembers(after.cache.value.members) {
      KicksLeave(w, targets, faults, id);
    }
    ForcedStartRestoresIff(after, actor, now, again, false);
    ForceStartedShape(after, actor, now, again);
  }
}
