/** The delayed jobs of a session: scheduling, recovery after a restart, cancellation.

    The queue maps each job to the instant it is due.  A job stands for its id, since
    the ids are built injectively from the jobs; adding a job whose id is already queued
    leaves the queued one in place. */
module SessionJobs {
  import opened Timeline

  datatype SessionJob =
    | End(roomCode: string)
    | BreakWarning(roomCode: string, round: nat)
    | BreakStart(roomCode: string, round: nat)
    | RevealPenalties(roomCode: string, memberId: string)

  const ROULETTE_TIMEOUT_MS := 10 * 60 * 1000
  const MAX_ROUNDS_FALLBACK := 30

  // ----- job ids -----

  function Digits(n: nat): string {
    var d := ["0", "1", "2", "3", "4", "5", "6", "7", "8", "9"][n % 10];
    if n < 10 then d else Digits(n / 10) + d
  }

  function JobId(j: SessionJob): string {
    match j
    case End(room) => "end_" + room
    case BreakWarning(room, r) => "warn_" + room + "_" + Digits(r)
    case BreakStart(room, r) => "break_start_" + room + "_" + Digits(r)
    case RevealPenalties(room, m) => "reveal_" + room + "_" + m
  }

  lemma {:induction false} DigitsInjective(a: nat, b: nat)
    requires Digits(a) == Digits(b)
    ensures a == b
  {
    var x, y := Digits(a), Digits(b);
    assert x[|x| - 1] == y[|y| - 1];
    if a >= 10 && b >= 10 {
      assert x[..|x| - 1] == Digits(a / 10);
      assert y[..|y| - 1] == Digits(b / 10);
      DigitsInjective(a / 10, b / 10);
    } else if a >= 10 {
      DigitsNonempty(a / 10);
    } else if b >= 10 {
      DigitsNonempty(b / 10);
    }
  }

  lemma DigitsNonempty(n: nat)
    ensures |Digits(n)| >= 1
  {
  }

  lemma {:induction false} DigitsHaveNoUnderscore(n: nat)
    ensures '_' !in Digits(n)
  {
    if n >= 10 {
      DigitsHaveNoUnderscore(n / 10);
    }
  }

  /** The last underscore splits a string in one way only. */
  lemma SplitAtLastUnderscore(a: string, b: string, a': string, b': string)
    requires a + "_" + b == a' + "_" + b'
    requires '_' !in b && '_' !in b'
    ensures a == a' && b == b'
  {
    var s := a + "_" + b;
    assert s[|a|] == '_' && s[|a'|] == '_';
    assert forall k :: |a| < k < |s| ==> s[k] == b[k - |a| - 1];
    assert forall k :: |a'| < k < |s| ==> s[k] == b'[k - |a'| - 1];
    assert |a| == |a'|;
    assert a == s[..|a|] && a' == s[..|a'|];
    assert b == s[|a| + 1..] && b' == s[|a'| + 1..];
  }

  function Initial(j: SessionJob): char {
    match j
    case End(_) => 'e'
    case BreakWarning(_, _) => 'w'
    case BreakStart(_, _) => 'b'
    case RevealPenalties(_, _) => 'r'
  }

  /** Different jobs have different ids, whatever the room codes, as long as member ids
      contain no underscore. */
  lemma JobIdInjective(i: SessionJob, j: SessionJob)
    requires i.RevealPenalties? ==> '_' !in i.memberId
    requires j.RevealPenalties? ==> '_' !in j.memberId
    requires JobId(i) == JobId(j)
    ensures i == j
  {
    var s, t := JobId(i), JobId(j);
    assert s[0] == Initial(i) && t[0] == Initial(j);
    match i {
      case End(room) =>
        assert room == s[4..] && j.roomCode == t[4..];
      case BreakWarning(room, r) =>
        SameTail("warn_", room, Digits(r), j.roomCode, Digits(j.round));
        DigitsInjective(r, j.round);
      case BreakStart(room, r) =>
        SameTail("break_start_", room, Digits(r), j.roomCode, Digits(j.round));
        DigitsInjective(r, j.round);
      case RevealPenalties(room, m) =>
        SplitAtLastUnderscore("reveal_" + room, m, "reveal_" + j.roomCode, j.memberId);
        assert room == ("reveal_" + room)[7..];
        assert j.roomCode == ("reveal_" + j.roomCode)[7..];
    }
  }

  lemma SameTail(prefix: string, a: string, b: string, a': string, b': string)
    requires prefix + a + "_" + b == prefix + a' + "_" + b'
    requires exists n: nat :: b == Digits(n)
    requires exists n: nat :: b' == Digits(n)
    ensures a == a' && b == b'
  {
    var n: nat :| b == Digits(n);
    var n': nat :| b' == Digits(n');
    DigitsHaveNoUnderscore(n);
    DigitsHaveNoUnderscore(n');
    SplitAtLastUnderscore(prefix + a, b, prefix + a', b');
    assert a == (prefix + a)[|prefix|..] && a' == (prefix + a')[|prefix|..];
  }

  // ----- when jobs are due -----

  /** Offset of a job from the session start, as the service computes it. */
  function JobOffset(p: Plan, j: SessionJob): int {
    match j
    case End(_) => SessionMs(p)
    case BreakWarning(_, r) => ((p.focusMin + p.breakMin) * r - 1) * 60 * 1000
    case BreakStart(_, r) => (p.focusMin * r + p.breakMin * (r - 1)) * 60 * 1000
    case RevealPenalties(_, _) => 0
  }

  /** A timeline job of the rounds below k. */
  predicate IsPlannedBefore(room: string, k: nat, j: SessionJob) {
    && j.roomCode == room
    && match j
       case End(_) => true
       case BreakWarning(_, r) => 1 <= r < k
       case BreakStart(_, r) => 1 <= r < k
       case RevealPenalties(_, _) => false
  }

  predicate IsPlanned(room: string, p: Plan, j: SessionJob) { IsPlannedBefore(room, p.rounds, j) }

  /** Adds a job unless its due time has passed or its id is present. */
  function WithJob(jobs: map<SessionJob, int>, j: SessionJob, due: int, now: int): map<SessionJob, int> {
    if due > now then map[j := due] + jobs else jobs
  }

  /** The end job and the jobs of rounds below k still ahead at an instant, with their
      due times. */
  function UpcomingBefore(room: string, p: Plan, start: int, now: int, k: nat): map<SessionJob, int> {
    if k <= 1 then WithJob(map[], End(room), start + JobOffset(p, End(room)), now)
    else
      var warn, pause := BreakWarning(room, k - 1), BreakStart(room, k - 1);
      var before := UpcomingBefore(room, p, start, now, k - 1);
      WithJob(WithJob(before, warn, start + JobOffset(p, warn), now), pause, start + JobOffset(p, pause), now)
  }

  /** The planned jobs still ahead at an instant. */
  function Upcoming(room: string, p: Plan, start: int, now: int): map<SessionJob, int> {
    UpcomingBefore(room, p, start, now, p.rounds)
  }

  lemma {:induction false} UpcomingBeforeIff(room: string, p: Plan, start: int, now: int, k: nat, j: SessionJob)
    ensures j in UpcomingBefore(room, p, start, now, k) <==>
              IsPlannedBefore(room, k, j) && start + JobOffset(p, j) > now
    ensures j in UpcomingBefore(room, p, start, now, k) ==>
              UpcomingBefore(room, p, start, now, k)[j] == start + JobOffset(p, j)
  {
    if k > 1 {
      UpcomingBeforeIff(room, p, start, now, k - 1, j);
    }
  }

  /** The upcoming jobs are exactly the planned ones not yet due. */
  lemma UpcomingIff(room: string, p: Plan, start: int, now: int, j: SessionJob)
    ensures j in Upcoming(room, p, start, now) <==> IsPlanned(room, p, j) && start + JobOffset(p, j) > now
    ensures j in Upcoming(room, p, start, now) ==> Upcoming(room, p, start, now)[j] == start + JobOffset(p, j)
  {
    UpcomingBeforeIff(room, p, start, now, p.rounds, j);
  }

  lemma WithJobOver(a: map<SessionJob, int>, b: map<SessionJob, int>, j: SessionJob, due: int, now: int)
    ensures WithJob(a + b, j, due, now) == WithJob(a, j, due, now) + b
  {
  }

  /** The end job falls on the end of the last focus window. */
  lemma EndOnLastWindow(room: string, p: Plan, start: int)
    requires p.rounds >= 1
    ensures start + JobOffset(p, End(room)) == FocusEnd(GridOf(p, start), p.rounds - 1)
  {
    SessionEndsWithLastWindow(p, start);
  }

  /** Break-start jobs fall on the ends of focus windows. */
  lemma BreakStartOnWindowEnd(room: string, p: Plan, start: int, r: nat)
    requires r >= 1
    ensures start + JobOffset(p, BreakStart(room, r)) == FocusEnd(GridOf(p, start), r - 1)
  {
    FocusStartProduct(GridOf(p, start), r - 1);
    CyclesPlusFocus(p.focusMin, p.breakMin, r);
  }

  /** Warnings fall one minute before the next focus window. */
  lemma WarningBeforeWindow(room: string, p: Plan, start: int, r: nat)
    ensures start + JobOffset(p, BreakWarning(room, r)) == FocusStart(GridOf(p, start), r) - MS_PER_MIN
  {
    FocusStartProduct(GridOf(p, start), r);
    CyclesInMinutes(p.focusMin, p.breakMin, r);
  }

  /** The client's screen switches from focus to break exactly when the break-start job
      of that round is due, and is still on that break when the warning is due. */
  lemma ClientSeesBreakJobs(room: string, p: Plan, r: nat)
    requires WithinRequestBounds(p) && 1 <= r < p.rounds
    ensures var e := JobOffset(p, BreakStart(room, r));
            && 0 < e < SessionMs(p)
            && ClientClock(p, e).round == r && !ClientClock(p, e).isFocus
            && ClientClock(p, e - 1).round == r && ClientClock(p, e - 1).isFocus
    ensures var w := JobOffset(p, BreakWarning(room, r));
            && 0 < w < SessionMs(p)
            && ClientClock(p, w).round == r && !ClientClock(p, w).isFocus
            && ClientClock(p, w).remainingMs == MS_PER_MIN
  {
    var g := GridOf(p, 0);
    BreakStartOnWindowEnd(room, p, 0, r);
    WarningBeforeWindow(room, p, 0, r);
    WindowsOrdered(g, r - 1, r);
    SessionEndsWithLastWindow(p, 0);
    if r < p.rounds - 1 { WindowsOrdered(g, r, p.rounds - 1); }
    FocusStartNonnegative(g, r - 1);
    assert FocusStart(g, r) == FocusStart(g, r - 1) + g.cycleMs;
    ClientInRound(p, FocusEnd(g, r - 1), r);
    ClientInRound(p, FocusEnd(g, r - 1) - 1, r);
    ClientInRound(p, FocusStart(g, r) - MS_PER_MIN, r);
  }

  lemma {:induction false} FocusStartNonnegative(g: Grid, i: nat)
    requires g.start >= 0
    ensures FocusStart(g, i) >= 0
  {
    if i > 0 {
      FocusStartNonnegative(g, i - 1);
    }
  }

  /** Between the starts of windows r - 1 and r the client shows round r. */
  lemma ClientInRound(p: Plan, e: int, r: nat)
    requires 1 <= r < p.rounds && 0 <= e < SessionMs(p)
    requires FocusStart(GridOf(p, 0), r - 1) <= e < FocusStart(GridOf(p, 0), r)
    ensures var v := ClientClock(p, e);
            && v.round == r
            && (v.isFocus <==> e < FocusEnd(GridOf(p, 0), r - 1))
            && (!v.isFocus ==> v.remainingMs == FocusStart(GridOf(p, 0), r) - e)
  {
    ClientRound(p, e);
    var v := ClientClock(p, e);
    RoundUnique(p, e, v.round - 1, r - 1);
    RoundUnique(p, e, r - 1, v.round - 1);
  }

  lemma OffsetsPositive(room: string, p: Plan, j: SessionJob)
    requires WithinRequestBounds(p) && IsPlanned(room, p, j)
    ensures 0 < JobOffset(p, j) <= SessionMs(p)
  {
    match j {
      case End(_) => MulMonotone(1, p.rounds, p.focusMin); assert p.breakMin * Max(0, p.rounds - 1) >= 0;
      case BreakWarning(_, r) => ClientSeesBreakJobs(room, p, r);
      case BreakStart(_, r) => ClientSeesBreakJobs(room, p, r);
    }
  }

  // ----- the queue -----

  function Warnings(room: string, k: nat): set<SessionJob> { set r: nat | 1 <= r <= k :: BreakWarning(room, r) }

  function BreakStarts(room: string, k: nat): set<SessionJob> { set r: nat | 1 <= r <= k :: BreakStart(room, r) }

  function Reveals(room: string, memberIds: set<string>): set<SessionJob> {
    set m | m in memberIds :: RevealPenalties(room, m)
  }

  /** Jobs whose ids a cancellation removes. */
  function Cancelled(room: string, rounds: nat, memberIds: set<string>): set<SessionJob> {
    {End(room)} + Warnings(room, rounds) + BreakStarts(room, Max(0, rounds - 1)) + Reveals(room, memberIds)
  }

  function RevealJobs(room: string, memberIds: set<string>, now: int): map<SessionJob, int> {
    map j | j in Reveals(room, memberIds) :: now + ROULETTE_TIMEOUT_MS
  }

  /** One more round adds its warning and its break start, if they are ahead. */
  lemma UpcomingStep(room: string, p: Plan, start: int, now: int, r: nat, kept: map<SessionJob, int>)
    requires r >= 1
    ensures UpcomingBefore(room, p, start, now, r + 1) + kept
         == WithJob(WithJob(UpcomingBefore(room, p, start, now, r) + kept,
                            BreakWarning(room, r), start + JobOffset(p, BreakWarning(room, r)), now),
                    BreakStart(room, r), start + JobOffset(p, BreakStart(room, r)), now)
  {
    var before := UpcomingBefore(room, p, start, now, r);
    var warn, pause := BreakWarning(room, r), BreakStart(room, r);
    WithJobOver(before, kept, warn, start + JobOffset(p, warn), now);
    WithJobOver(WithJob(before, warn, start + JobOffset(p, warn), now), kept, pause, start + JobOffset(p, pause), now);
  }

  class SessionQueue {
    var jobs: map<SessionJob, int>

    constructor ()
      ensures jobs == map[]
    {
      jobs := map[];
    }

    /** A job whose id is queued already is left as it is. */
    method Add(j: SessionJob, due: int)
      modifies this
      ensures jobs == map[j := due] + old(jobs)
    {
      if j !in jobs {
        jobs := jobs[j := due];
      }
      assert j in old(jobs) ==> jobs == map[j := due] + old(jobs);
    }

    /** Queues a job only if its delay is positive. */
    method AddAhead(j: SessionJob, due: int, now: int)
      modifies this
      ensures jobs == WithJob(old(jobs), j, due, now)
    {
      var delay := due - now;
      if delay > 0 {
        Add(j, now + delay);
      }
    }

    /** The warning and break start of one round, each queued if still ahead. */
    method AddRound(room: string, p: Plan, startedAt: int, now: int, r: nat)
      modifies this
      ensures var warn, pause := BreakWarning(room, r), BreakStart(room, r);
              jobs == WithJob(WithJob(old(jobs), warn, startedAt + JobOffset(p, warn), now),
                              pause, startedAt + JobOffset(p, pause), now)
    {
      var notifyTimeMs := ((p.focusMin + p.breakMin) * r - 1) * 60 * 1000;
      AddAhead(BreakWarning(room, r), startedAt + notifyTimeMs, now);
      var breakStartMs := (p.focusMin * r + p.breakMin * (r - 1)) * 60 * 1000;
      AddAhead(BreakStart(room, r), startedAt + breakStartMs, now);
    }

    method Remove(j: SessionJob)
      modifies this
      ensures jobs == old(jobs) - {j}
    {
      jobs := jobs - {j};
    }

    /** Removes the end job, one warning per round, one break start per round but the
        last, and one reveal job per member row. */
    method CancelSessionJobs(room: string, rounds: nat, memberIds: set<string>)
      modifies this
      ensures jobs == old(jobs) - Cancelled(room, rounds, memberIds)
    {
      Remove(End(room));
      for i := 0 to rounds
        invariant jobs == old(jobs) - {End(room)} - Warnings(room, i)
      {
        Remove(BreakWarning(room, i + 1));
        assert Warnings(room, i + 1) == Warnings(room, i) + {BreakWarning(room, i + 1)};
      }
      label warned:
      for i := 0 to Max(0, rounds - 1)
        invariant jobs == old@warned(jobs) - BreakStarts(room, i)
      {
        Remove(BreakStart(room, i + 1));
        assert BreakStarts(room, i + 1) == BreakStarts(room, i) + {BreakStart(room, i + 1)};
      }
      label timeline:
      var todo := memberIds;
      while todo != {}
        invariant todo <= memberIds
        invariant jobs == old@timeline(jobs) - Reveals(room, memberIds - todo)
      {
        var m :| m in todo;
        Remove(RevealPenalties(room, m));
        assert Reveals(room, memberIds - (todo - {m})) == Reveals(room, memberIds - todo) + {RevealPenalties(room, m)};
        todo := todo - {m};
      }
      assert memberIds - todo == memberIds;
    }

    /** One reveal job per member row, due when the roulette times out. */
    method ScheduleRevealJobs(room: string, memberIds: set<string>, now: int)
      modifies this
      ensures jobs == RevealJobs(room, memberIds, now) + old(jobs)
    {
      var todo := memberIds;
      while todo != {}
        invariant todo <= memberIds
        invariant jobs == RevealJobs(room, memberIds - todo, now) + old(jobs)
      {
        var m :| m in todo;
        Add(RevealPenalties(room, m), now + ROULETTE_TIMEOUT_MS);
        assert Reveals(room, memberIds - (todo - {m})) == Reveals(room, memberIds - todo) + {RevealPenalties(room, m)};
        todo := todo - {m};
      }
      assert memberIds - todo == memberIds;
    }

    /** Session start: cancel leftovers, then queue the end job and each round's
        warning and break start. */
    method ScheduleSessionJobs(room: string, p: Plan, memberIds: set<string>, now: int)
      requires WithinRequestBounds(p)
      modifies this
      ensures jobs == Upcoming(room, p, now, now) + (old(jobs) - Cancelled(room, p.rounds, memberIds))
    {
      CancelSessionJobs(room, p.rounds, memberIds);
      ghost var kept := jobs;
      var totalMs := SessionMs(p);
      Add(End(room), now + totalMs);
      OffsetsPositive(room, p, End(room));
      for r := 1 to p.rounds
        invariant jobs == UpcomingBefore(room, p, now, now, r) + kept
      {
        UpcomingStep(room, p, now, now, r, kept);
        AddRound(room, p, now, now, r);
      }
    }

    /** Recovery of one running session after a restart.  Past the planned end nothing is
        queued and the caller ends the session; otherwise each timeline job still ahead
        is queued again with its remaining delay. */
    method RecoverSession(room: string, p: Plan, startedAt: int, now: int) returns (mustEnd: bool)
      requires p.rounds >= 1
      modifies this
      ensures mustEnd <==> now >= startedAt + SessionMs(p)
      ensures jobs == if mustEnd then old(jobs) else Upcoming(room, p, startedAt, now) + old(jobs)
    {
      var totalMs := SessionMs(p);
      var remaining := totalMs - (now - startedAt);
      if remaining <= 0 {
        return true;
      }
      Add(End(room), now + remaining);
      for r := 1 to p.rounds
        invariant jobs == UpcomingBefore(room, p, startedAt, now, r) + old(jobs)
      {
        UpcomingStep(room, p, startedAt, now, r, old(jobs));
        AddRound(room, p, startedAt, now, r);
      }
      return false;
    }
  }

  // ----- restart and cancellation -----

  /** The queue holds no timeline job of the session at a time other than planned. */
  predicate OnSchedule(jobs: map<SessionJob, int>, room: string, p: Plan, start: int) {
    forall j :: j in jobs && IsPlanned(room, p, j) ==> jobs[j] == start + JobOffset(p, j)
  }

  /** Whatever part of the session's jobs survived a crash, recovery leaves exactly the
      planned jobs still ahead, with the delays that remain, and changes nothing else;
      with all of them intact it changes nothing at all. */
  lemma RestartRebuildsUpcoming(jobs: map<SessionJob, int>, room: string, p: Plan, start: int, now: int)
    requires OnSchedule(jobs, room, p, start)
    ensures var after := Upcoming(room, p, start, now) + jobs;
            && OnSchedule(after, room, p, start)
            && (forall j :: IsPlanned(room, p, j) ==>
                  (j in after && after[j] > now <==> start + JobOffset(p, j) > now))
            && (forall j :: !IsPlanned(room, p, j) ==>
                  (j in after <==> j in jobs) && (j in jobs ==> after[j] == jobs[j]))
            && ((forall j :: j in Upcoming(room, p, start, now) ==> j in jobs) ==> after == jobs)
  {
    var upcoming := Upcoming(room, p, start, now);
    forall j
      ensures j in upcoming <==> IsPlanned(room, p, j) && start + JobOffset(p, j) > now
      ensures j in upcoming ==> upcoming[j] == start + JobOffset(p, j)
    {
      UpcomingIff(room, p, start, now, j);
    }
  }

  /** Recovery at the starting instant queues what the start queued: the whole plan. */
  lemma RecoveryAtStartIsSchedule(room: string, p: Plan, start: int, j: SessionJob)
    requires WithinRequestBounds(p)
    ensures j in Upcoming(room, p, start, start) <==> IsPlanned(room, p, j)
  {
    UpcomingIff(room, p, start, start, j);
    if IsPlanned(room, p, j) {
      OffsetsPositive(room, p, j);
    }
  }

  /** Cancelling covers every job a session start can queue, and every reveal job of the
      listed members; also with the fallback number of rounds. */
  lemma CancellationCovers(room: string, p: Plan, memberIds: set<string>, j: SessionJob)
    requires IsPlanned(room, p, j) || j in Reveals(room, memberIds)
    ensures j in Cancelled(room, p.rounds, memberIds)
    ensures WithinRequestBounds(p) ==> j in Cancelled(room, MAX_ROUNDS_FALLBACK, memberIds)
  {
    match j {
      case End(_) =>
      case BreakWarning(_, r) =>
        assert IsPlanned(room, p, j) ==> j in Warnings(room, p.rounds) && (p.rounds <= 20 ==> j in Warnings(room, 30));
      case BreakStart(_, r) =>
        assert IsPlanned(room, p, j) ==>
          j in BreakStarts(room, p.rounds - 1) && (p.rounds <= 20 ==> j in BreakStarts(room, 29));
      case RevealPenalties(_, _) =>
    }
  }

  /** Cancellation names the end job, the warnings of all rounds, the break starts of all
      but the last, and the reveal jobs of the listed members; nothing else. */
  lemma CancelledIff(room: string, rounds: nat, memberIds: set<string>, j: SessionJob)
    ensures j in Cancelled(room, rounds, memberIds) <==>
              && j.roomCode == room
              && match j
                 case End(_) => true
                 case BreakWarning(_, r) => 1 <= r <= rounds
                 case BreakStart(_, r) => 1 <= r < rounds
                 case RevealPenalties(_, m) => m in memberIds
  {
    assert j in Warnings(room, rounds) <==> j.BreakWarning? && j.roomCode == room && 1 <= j.round <= rounds;
    assert j in BreakStarts(room, Max(0, rounds - 1)) <==> j.BreakStart? && j.roomCode == room && 1 <= j.round < rounds;
  }

  lemma RevealCancelledIff(room: string, rounds: nat, memberIds: set<string>, m: string)
    ensures RevealPenalties(room, m) in Cancelled(room, rounds, memberIds) <==> m in memberIds
    ensures RevealPenalties(room, m) in Reveals(room, memberIds) <==> m in memberIds
  {
  }

  /** Cancellation and scheduling for one room leave the jobs of every other room alone. */
  lemma OtherRoomsUntouched(room: string, p: Plan, memberIds: set<string>, start: int, now: int, j: SessionJob)
    requires j.roomCode != room
    ensures j !in Cancelled(room, p.rounds, memberIds)
    ensures j !in Upcoming(room, p, start, now) && j !in RevealJobs(room, memberIds, now)
  {
    UpcomingIff(room, p, start, now, j);
  }
}
