# Focus-room sessions: a verified model

The repository runs group focus sessions. A host creates a room, members sign a contract
(timer fields, penalty tiers, a penalty pool), the session alternates focus and break
windows, leaving the screen is logged as an escape, and at the end each member's escape
share of the focus time picks a penalty tier whose penalties are revealed by a roulette.

This project models the parts of it that carry invariants across functions and proves
them in Dafny. `dafny verify dfyconfig.toml` checks everything.

| file | what it models |
|---|---|
| `Timeline.dfy` | focus windows and session length on the server, round and phase on the client |
| `EscapeIntervals.dfy` | merging escape intervals and measuring the focus time in them |
| `PenaltyTiers.dfy` | tier validation, tier selection, the forfeit tier |
| `TierEditor.dfy` | the contract's tier list, edited in place |
| `TimerSettings.dfy` | the contract's timer fields with their dynamic bounds |
| `Roulette.dfy` | drawing penalties, the seeded shuffle, spins and exits |
| `RevealProtocol.dfy` | interleaved reads and updates of everyone who reveals penalties of a room |
| `SessionJobs.dfy` | the timed jobs of a session: scheduling, restart recovery, cancellation |
| `EscapeSession.dfy` | escape logs, give-up, the session-end computation, reveals, the live summary |
| `EscapeRuns.dfy` | whole runs of a session, with computations that may fail |
| `EscapeEffects.dfy` | what each step of a session stores, and what stored totals, tiers and durations mean |
| `AssignedPenalties.dfy` | which penalties a run leaves a member with, and that the roulette shows them |
| `RoomOperations.dfy` | the state of a room and what each operation does to it |
| `RoomProtocol.dfy` | whole lives of rooms: rows, cached state, bans and queue |
| `RoomEffects.dfy` | exactly which operations change which part of a room's state |
| `RoomAgreement.dfy` | after which runs cached state and rows agree |
| `RoomConnections.dfy` | which socket counts as a member's connection, and which lost connections are escapes |
| `RoomService.dfy` | the room and timer services performing the operations |
| `RoomExamples.dfy` | short runs of a created room, one for each property that can fail |
| `SessionInRoom.dfy` | the session machine and the room machine side by side, from creation to the end |
| `Ranking.dfy` | the result page's ranking |
| `Sorting.dfy`, `Clock.dfy`, `Phases.dfy`, `Wrappers.dfy` | stable insertion sort, timed steps, the room phases, option and result types |

Escape totals are specified by counting: a total is the number of milliseconds that lie
both in the union of the escapes and in a focus window. The loops are proved to compute
that number, and everything said about totals over runs is said about the count.

The two stateful machines follow one pattern. A function describes what each operation
does to the stored state (`EscapeSession.GaveUp`, `RoomOperations.Joined`, ...), a class
performs the operation step by step and is proved to do the same, and lemmas about the
functions prove invariants over every run. The two effects modules say in terms of the
stored state alone what every operation changes and leaves alone. The session machine holds logs and results,
the room machine cache, bans and queue; `SessionInRoom.RunFits` proves that they stay in
step, and `SessionInRoom.WholeLife` says what follows for a room from its creation on.

## What turned out false, and exactly when it holds

- **Removing the last tier.** The editor shows the last tier as reaching 100 %, but
  removing the last tier leaves the new last one with a limit of at most 99. Such a
  contract passes validation. Afterwards no tier is unlimited: members above the limit
  fall to tier 0, the forfeit lookup throws, and one give-up keeps the whole room without
  results. Both lookups are total if and only if no such removal came after the last
  added tier or moved boundary (`TierEditor.EditedContractTotalIff`,
  `EscapeRuns.SavesResultsIff`, `EscapeRuns.OneGiveUpBlocksResults`).
- **One reveal job per member after the session.** The host can kick a member during the
  session as long as no escape log refers to the row. If that member had given up, the
  reveal job stays queued without a row. The queue is as intended if and only if no
  reveal job was queued for a removed member (`RoomProtocol.OneRevealPerMemberIff`).
- **A session with nobody in it.** The last give-up ends the session, but there are
  exactly three other ways to be left with nobody (`RoomProtocol.AbandonedIff`): the host,
  having given up, kicks the last active member, who has no escape log; a room that
  everybody has left is started by a host who never joined; or a forced start goes through
  with nobody signed. If everybody then disconnects, the cleanup closes the room without an
  end time, and its results can never be viewed (`RoomProtocol.AbandonedIsNeverViewable`).
  Runs that get there are in `RoomExamples`.
- **Leaving the rounds field untouched.** The field's bound counts a break after the last
  round that the session does not have, so blurring the field can lower the rounds of an
  allowed session. It keeps them if and only if that extra break would fit
  (`TimerSettings.UntouchedBlurKeepsRoundsIff`).
- **Cached state and rows agree.** A kick, by the host's message or in a forced start,
  writes the row, the cached state and the ban one after the other. Every row keeps a
  cached entry that agrees with it in every run (`RoomProtocol.EveryRunCovers`), but a kick
  that fails after deleting the row leaves a cached member without one, who can still sign
  and outlive the start (`RoomExamples.LeftoverOutlivesStart`). Both sides agree if and only
  if every half-done kick was made up for by a new join, a kick that gets through, or the
  closing (`RoomAgreement.EveryRunAgreesIff`); a forced start that goes through restores
  the agreement if and only if no such member has signed
  (`RoomAgreement.ForcedStartRestoresIff`).
- **A lost connection is an escape.** A member who joins again during the session, as guests
  can, loses the cached socket. Closing a socket starts an escape if and only if the last
  accepted connection of the active member is by it, with no accepted join since
  (`RoomConnections.LostConnectionIsEscapeIff`, `RoomExamples.RejoinForgetsSocket`).
- **Results are final.** They never change, but a kick does not check the phase: a result,
  with its penalties, is lost exactly when the host kicks a member who has no escape log
  (`EscapeRuns.ResultsStayIff`, `SessionInRoom.ResultLostIff`).
- **One broadcast per member.** A member's reveal is broadcast at most twice, with the same
  payload (`RevealProtocol.BroadcastAtMostTwice`). An expired result page updates all
  members at once and broadcasts for everyone it had seen with something left, if it
  changed anything at all. So two broadcasts are possible if and only if the member and
  another one have something left to reveal, there is such a page, and the member exits or
  takes the final spin (`RevealProtocol.BroadcastTwiceIff`).
- **Penalties of a give-up start out unrevealed.** A failure of the give-up computation is
  swallowed, and the session-end computation that makes up for it stores its drawing
  revealed. It does so for a give-up if and only if no give-up computation had succeeded
  before (`AssignedPenalties.EndDrawsRevealedIff`); and whatever fails in a run, drawings
  start out revealed exactly for give-ups whose own computation did not make them
  (`AssignedPenalties.EveryDrawing`).

The code and its comments or specs disagree in places; the code is followed. A comment at
`apps/backend/src/modules/penalty/penalty.util.ts:88` says that a give-up skips the
roulette and reveals everything, and the service's spec expects so too, but the give-up
computation stores its penalties unrevealed
(`apps/backend/src/modules/penalty/penalty.service.ts:368`). The job processor skips every
job once the session is over (`apps/backend/src/modules/timer/session.processor.ts:38`),
so no reveal job acts in the result phase, and nothing here claims it does.

## Assumptions

- A handler is one step, except in `RevealProtocol`, where read, update and broadcast are
  separate steps, and in kicks, which can fail between their writes. The computations of
  results may fail as a whole, as may the storing of a start.
- Clocks do not go back from one step of a room to the next.
- The rule template does not change once the session has started; the rule service itself
  does not check the phase (`apps/backend/src/modules/rule/rule.service.ts:70-109`).
- Plans meet the request bounds (`apps/backend/src/modules/rule/dto/rule.dto.ts:45-62`).
- A member's row id stands for both the row and the user id or guest token. Row ids hold
  no underscore (they are UUIDs), and the host of a room is a user, not a guest.

## Model

| member | source | states |
|---|---|---|
| `Timeline.FocusStartProduct` | apps/backend/src/modules/penalty/penalty.util.ts:126-131 | focus windows start at session start plus a whole number of cycles, as the services multiply it out |
| `Timeline.WindowsOrdered` | apps/backend/src/modules/penalty/penalty.util.ts:126-135 | focus windows come in order and never overlap |
| `Timeline.SessionEndsWithLastWindow` | apps/backend/src/modules/timer/timer.service.ts:127-134 | the planned session length ends exactly at the end of the last focus window: no break follows the last round |
| `Timeline.ClientTotalIsSessionMs` | apps/frontend/src/components/timer/Timer.tsx:133-134 | the client computes the same session length as the server |
| `Timeline.ClientAgreesWithServer` | apps/frontend/src/components/timer/Timer.tsx:137-150 | at every instant of the session the client shows focus exactly inside a server focus window, names the right round, and counts down to that phase's boundary |
| `Timeline.PhaseStableUntilBoundary` | apps/frontend/src/components/timer/Timer.tsx:137-150 | round and phase on screen do not change before the countdown reaches zero |
| `Timeline.PhaseFlipsAtBoundary` | apps/frontend/src/components/timer/Timer.tsx:137-150 | when the countdown reaches zero focus and break swap, unless the session is over |
| `Timeline.BreakStartNotInFocus` | apps/frontend/src/components/timer/Timer.tsx:146-146 | the instant a focus window ends is a break instant |
| `EscapeIntervals.FocusTimesIff` | apps/backend/src/modules/penalty/penalty.util.ts:126-136 | the set of counted instants is exactly the set of instants lying in a focus window |
| `EscapeIntervals.OverlapsCountInstants` | apps/backend/src/modules/penalty/penalty.util.ts:126-136 | adding up the overlaps with each window counts the focus instants of an escape, each once |
| `EscapeIntervals.OverlapWithWindows` | apps/backend/src/modules/penalty/penalty.util.ts:126-136 | the overlap loop returns the number of focus milliseconds inside one escape, for any bounds |
| `EscapeIntervals.GetEffectiveFocusEscapeMs` | apps/backend/src/modules/penalty/penalty.util.ts:118-137 | focus time of one escape, breaks exempt: the number of its milliseconds in focus windows |
| `EscapeIntervals.CoveredPermutation` | apps/backend/src/modules/penalty/penalty.service.ts:28-28 | what a list of intervals covers does not depend on its order |
| `EscapeIntervals.MergeStepCovers` | apps/backend/src/modules/penalty/penalty.service.ts:35-39 | extending the last interval or appending the current one adds exactly the current interval's instants |
| `EscapeIntervals.MergeIntervals` | apps/backend/src/modules/penalty/penalty.service.ts:24-42 | merging any list (unsorted, nested, touching, reversed bounds) covers the same instants with pairwise separated intervals |
| `EscapeIntervals.SeparatedStep` | apps/backend/src/modules/penalty/penalty.service.ts:143-152 | summing over merged intervals counts no focus instant twice |
| `EscapeIntervals.TotalFocusEscapeMs` | apps/backend/src/modules/penalty/penalty.service.ts:139-152 | merge and sum gives exactly the number of milliseconds lying in both the union of the intervals and a focus window |
| `EscapeIntervals.CapIsVacuous` | apps/backend/src/modules/penalty/penalty.service.ts:154-155 | the cap at the session's whole focus time never lowers a total |
| `PenaltyTiers.ValidateTiers` | apps/backend/src/modules/rule/rule.service.ts:50-58 | validation succeeds exactly if each tier ends where the next starts |
| `PenaltyTiers.SortTiersSorts` | apps/backend/src/modules/penalty/penalty.util.ts:54-59 | sorting permutes the tiers, ordered by start with unlimited tiers last |
| `PenaltyTiers.SelectTierPicks` | apps/backend/src/modules/penalty/penalty.util.ts:50-83 | a matching tier is found whenever there is one; limited tiers win over unlimited ones, lower starts over higher |
| `PenaltyTiers.FallsThroughIff` | apps/backend/src/modules/penalty/penalty.util.ts:64-83 | for validated tiers starting at zero, in any boundary order, tier 0 results exactly if every tier is limited and all limits are reached |
| `PenaltyTiers.NeverFallsThrough` | apps/backend/src/modules/penalty/penalty.util.ts:64-83 | validated tiers that start at zero and end unlimited always yield a tier, even with non-monotone boundaries |
| `PenaltyTiers.MatchUnique` | apps/backend/src/modules/penalty/penalty.util.ts:64-73 | with nondecreasing boundaries no two tiers match one percentage |
| `PenaltyTiers.SelectIgnoresOrder` | apps/backend/src/modules/penalty/penalty.util.ts:54-73 | with nondecreasing boundaries the choice does not depend on the stored order |
| `PenaltyTiers.TierMonotone` | apps/backend/src/modules/penalty/penalty.util.ts:39-84 | escaping longer never lowers the tier |
| `PenaltyTiers.ChargedTier` | apps/backend/src/modules/penalty/penalty.util.ts:39-84 | for any list: tier 0 with no penalties without focus time or if no tier covers 100 * total / focus, else number and count of a covering tier, limited before unlimited, lowest start first |
| `PenaltyTiers.ChargedExactly` | apps/backend/src/modules/penalty/penalty.util.ts:50-83 | for validated nondecreasing open-ended tiers exactly one tier covers 100 * total / focus, compared without dividing, and its number and count are charged, not force-revealed |
| `PenaltyTiers.ForfeitNeedsOpenTier` | apps/backend/src/modules/penalty/penalty.util.ts:94-104 | the forfeit lookup fails exactly if no tier is unlimited, else it takes an unlimited tier's number and count |
| `PenaltyTiers.ForfeitIsFirstOpen` | apps/backend/src/modules/penalty/penalty.util.ts:94-104 | the first unlimited tier in stored order gives the forfeit number and count |
| `PenaltyTiers.ForfeitIsLastTier` | apps/backend/src/modules/penalty/penalty.util.ts:94-104 | in a validated list the forfeit tier is the last one, present exactly if that one is unlimited |
| `TierEditor.ContractTiers.AddTier` | apps/frontend/src/hooks/useYjsContract.ts:250-280 | the delete, insert and push come to the list with a last tier split off; a well-formed list stays one |
| `TierEditor.ContractTiers.UpdateCount` | apps/frontend/src/hooks/useYjsContract.ts:282-299 | delete and reinsert change the count of that tier only, seeding an empty list first; a well-formed list stays one |
| `TierEditor.ContractTiers.SetTierBoundary` | apps/frontend/src/hooks/useYjsContract.ts:302-331 | the in-place repair loop comes to the cascade over all later tiers; a well-formed list stays one |
| `TierEditor.AddedAt` | apps/frontend/src/hooks/useYjsContract.ts:250-280 | adding splits the last tier at its end or one above its start and appends an unlimited tier with one penalty; every other tier stays |
| `TierEditor.CountSetAt` | apps/frontend/src/hooks/useYjsContract.ts:282-299 | only the chosen count changes; index 0 of an empty document becomes the seed with that count |
| `TierEditor.AddKeeps` | apps/frontend/src/hooks/useYjsContract.ts:250-280 | adding keeps tiers numbered, starting at 0, joined, nondecreasing, at most 99, and makes the last one unlimited |
| `TierEditor.CountKeeps` | apps/frontend/src/hooks/useYjsContract.ts:282-299 | changing a count keeps the list well-formed and its end as it was |
| `TierEditor.RemovedAt` | apps/frontend/src/hooks/useYjsContract.ts:343-348 | after a removal every later tier keeps its count and its end under the next lower number, and the one behind the gap starts where the removed one did |
| `TierEditor.RemoveKeeps` | apps/frontend/src/hooks/useYjsContract.ts:333-353 | removing keeps the list well-formed; the end stays open exactly if it was and the removed tier was not the last |
| `TierEditor.CascadeKeeps` | apps/frontend/src/hooks/useYjsContract.ts:315-326 | from any partly repaired list the repair loop ends well-formed and open |
| `TierEditor.CascadeEffect` | apps/frontend/src/hooks/useYjsContract.ts:315-326 | the repair leaves earlier tiers alone and keeps a later end whenever it is still above its start, else pushes it to start plus one, at most 99 |
| `TierEditor.BoundaryKeeps` | apps/frontend/src/hooks/useYjsContract.ts:302-331 | every value the percentage input can commit keeps the list well-formed and open |
| `TierEditor.BoundaryEffect` | apps/frontend/src/hooks/useYjsContract.ts:302-331 | a boundary edit sets the chosen end, leaves earlier tiers alone and repairs later ones as little as needed |
| `TierEditor.EditKeeps` | apps/frontend/src/components/contract/TierSettings.tsx:231-346 | each edit the settings card allows keeps the list well-formed and changes its open end as tracked |
| `TierEditor.SessionKeeps` | apps/frontend/src/components/contract/TierSettings.tsx:231-346 | so does every sequence of allowed edits |
| `TierEditor.PayloadShape` | apps/backend/src/modules/rule/rule.service.ts:50-58 | an edited list passes the rule service's validation with the starts and counts as edited, and has the shape the resolver needs |
| `TierEditor.ShownIsCharged` | apps/frontend/src/components/contract/TierSettings.tsx:231-346 | after any editing session with an open end exactly one tier is shown for a share of escape, and the penalty service charges its number and count |
| `TierEditor.EditedContractTotalIff` | apps/frontend/src/hooks/useYjsContract.ts:250-353 | after any allowed session from the seed both tier lookups are total if and only if no removal of the last tier came after the last added tier or moved boundary |
| `TierEditor.RemovingLastTierLosesOpenEnd` | apps/frontend/src/hooks/useYjsContract.ts:343-348 | concrete session after which the forfeit lookup fails |
| `TimerSettings.ContractFields.Commit` | apps/frontend/src/components/contract/TimerSettings.tsx:122-144 | a typed or blurred value is clamped to the field's current bounds; the result stays within all bounds |
| `TimerSettings.FocusBound` | apps/frontend/src/components/contract/TimerSettings.tsx:177-180 | any focus value up to the dynamic bound keeps the session within ten hours |
| `TimerSettings.BreakBound` | apps/frontend/src/components/contract/TimerSettings.tsx:181-187 | any break value up to the dynamic bound keeps the session within ten hours |
| `TimerSettings.RoundsBound` | apps/frontend/src/components/contract/TimerSettings.tsx:188-191 | any round count up to the dynamic bound keeps the session within ten hours |
| `TimerSettings.BoundsAreLargest` | apps/frontend/src/components/contract/TimerSettings.tsx:177-191 | focus and break bounds are the largest values that keep the session within ten hours; the rounds bound is the largest that fits a break after the last round too |
| `TimerSettings.CommitSets` | apps/frontend/src/components/contract/TimerSettings.tsx:122-144 | a commit stores the number typed, or on blur the draft or else the old value, raised to one and lowered to the bound, in its own field only |
| `TimerSettings.CommitsStayWithinBounds` | apps/frontend/src/components/contract/TimerSettings.tsx:122-191 | every sequence of commits keeps all fields in range and the session within ten hours |
| `TimerSettings.AnySessionIsAccepted` | apps/backend/src/modules/rule/rule.service.ts:78-85 | what any sequence of commits from the defaults produces passes the request bounds and the length check |
| `TimerSettings.CheckRoomRule` | apps/backend/src/modules/rule/rule.service.ts:76-85 | the rule check fails for non-contiguous tiers first, then for sessions over ten hours, and otherwise passes |
| `TimerSettings.UntouchedBlurKeepsMinutes` | apps/frontend/src/components/contract/TimerSettings.tsx:135-144 | leaving the focus or break field untouched changes nothing |
| `TimerSettings.UntouchedBlurKeepsRoundsIff` | apps/frontend/src/components/contract/TimerSettings.tsx:188-191 | leaving the rounds field untouched keeps the rounds if and only if a break after the last round would fit too |
| `TimerSettings.UntouchedBlurCanDropARound` | apps/frontend/src/components/contract/TimerSettings.tsx:188-191 | commits from the defaults after which an untouched rounds field drops from three rounds to two |
| `Roulette.AssignPenalties` | apps/backend/src/modules/penalty/penalty.service.ts:385-398 | draws count penalties with replacement and tallies them by content |
| `Roulette.TallyCounts` | apps/backend/src/modules/penalty/penalty.service.ts:393-396 | the tally holds exactly the drawn contents, each with its multiplicity |
| `Roulette.TallyCountsHits` | apps/backend/src/modules/penalty/penalty.service.ts:389-396 | a content is assigned as often as draws hit it, each draw taking the pool entry at its random number modulo the pool size |
| `Roulette.HashSeed` | apps/backend/src/modules/roulette/roulette.service.ts:26-31 | the loop computes the 32-bit FNV-1a hash of the seed |
| `Roulette.KnownOutputs` | apps/backend/src/modules/roulette/roulette.service.ts:26-38 | hash and generator agree with published values: the offset basis, "a", "foobar", and the first output for state zero |
| `Roulette.SwapIndex` | apps/backend/src/modules/roulette/roulette.service.ts:32-40 | the scaled generator output always stays in [0, i] |
| `Roulette.SeededSwapAt` | apps/backend/src/modules/roulette/roulette.service.ts:32-42 | the k-th swap pairs position length - 1 - k with its share of the k-th output of the generator seeded with the hash |
| `Roulette.SwapsDetermined` | apps/backend/src/modules/roulette/roulette.service.ts:39-42 | different swaps give different orders of different elements, so all orders are possible and none twice |
| `Roulette.SeededShuffle` | apps/backend/src/modules/roulette/roulette.service.ts:25-44 | the in-place loop returns a fresh array holding the sequence shuffled by swaps that depend on length and seed only |
| `Roulette.ShuffledPermutes` | apps/backend/src/modules/roulette/roulette.service.ts:25-44 | the shuffle is a permutation for every sequence and seed |
| `Roulette.ShuffleIsFixedPermutation` | apps/backend/src/modules/roulette/roulette.service.ts:25-44 | which element lands where depends on length and seed only |
| `Roulette.MemberRoulette.SpinRoulette` | apps/backend/src/modules/roulette/roulette.service.ts:87-150 | outcome, error cases in order, and new rows of a spin: only a successful last spin reveals |
| `Roulette.MemberRoulette.ExitRoulette` | apps/backend/src/modules/roulette/roulette.service.ts:162-218 | leaving reveals and reports exactly what was left, or fails and changes nothing |
| `Roulette.FlatUndoesTally` | apps/backend/src/modules/roulette/roulette.service.ts:119-123 | expanding counted rows gives back the drawn contents as a multiset, whatever the row order |
| `Roulette.SpinsRevealWhatWasDrawn` | apps/backend/src/modules/roulette/roulette.service.ts:114-138 | spins 1 to N together show exactly the drawn contents, and N is the number assigned |
| `Roulette.SpinsPerContent` | apps/backend/src/modules/roulette/roulette.service.ts:114-138 | each content comes up exactly as often as it was assigned |
| `RevealProtocol.FlagsNeverGoBack` | apps/backend/src/modules/roulette/roulette.service.ts:132-138 | under every interleaving contents and counts of every member stay and no reveal flag is taken back |
| `RevealProtocol.StepKeeps` | apps/backend/src/modules/result/result.service.ts:175-212 | each read, update or broadcast step of any caller keeps the protocol invariant over the rows of all members |
| `RevealProtocol.RevealedAtMostOnce` | apps/backend/src/modules/roulette/roulette.service.ts:131-138 | under every interleaving at most one update changes a member's rows, rows that changed were changed by one, and revealed plus unrevealed stays the assigned total |
| `RevealProtocol.EffectiveCallerHasSent` | apps/backend/src/modules/roulette/roulette.service.ts:132-138 | whoever revealed a member's rows has broadcast it once nobody is between update and broadcast, exactly unless it is the timeout job |
| `RevealProtocol.BroadcastAtMostTwice` | apps/backend/src/modules/result/result.service.ts:185-210 | a member's reveal is broadcast at most twice, never twice by one caller, and always with every row |
| `RevealProtocol.BroadcastTwiceIff` | apps/backend/src/modules/result/result.service.ts:185-210 | some interleaving broadcasts it twice if and only if the member and another one have something left, there is an expired page, and the member exits or takes the final spin |
| `RevealProtocol.FinishedUpdateRevealsAll` | apps/backend/src/modules/timer/timer.repository.ts:284-291 | from the first finished update that concerns a member on, every row of the member is revealed, and somebody's update did it if there was anything to reveal |
| `RevealProtocol.TwoTurnsReveal` | apps/backend/src/modules/timer/timer.repository.ts:284-291 | under every interleaving the timeout job, an expired page, an exit or the last spin, once it has had two turns, leaves nothing of the member unrevealed; the first two are never refused |
| `RevealProtocol.HarmlessRead` | apps/backend/src/modules/roulette/roulette.service.ts:106-138 | a read changes nothing; a spin that is not the last one goes no further, nor does an exit with nothing left |
| `SessionJobs.JobIdInjective` | apps/backend/src/modules/timer/timer.queue.ts:18-30 | different jobs of a room have different ids |
| `SessionJobs.UpcomingIff` | apps/backend/src/modules/timer/timer.service.ts:415-452 | the jobs queued are exactly the planned ones whose target lies ahead, due at that target |
| `SessionJobs.EndOnLastWindow` | apps/backend/src/modules/timer/timer.service.ts:577-588 | the end job falls on the end of the last focus window |
| `SessionJobs.BreakStartOnWindowEnd` | apps/backend/src/modules/timer/timer.service.ts:606-606 | break-start jobs fall on ends of focus windows |
| `SessionJobs.WarningBeforeWindow` | apps/backend/src/modules/timer/timer.service.ts:591-591 | warnings fall one minute before the next focus window |
| `SessionJobs.ClientSeesBreakJobs` | apps/backend/src/modules/timer/timer.service.ts:590-621 | the client's screen turns to the break exactly when that round's break-start job is due, and shows one minute left at the warning |
| `SessionJobs.SessionQueue.Add` | apps/backend/src/modules/timer/timer.service.ts:577-588 | adding a job whose id is queued changes nothing |
| `SessionJobs.SessionQueue.AddRound` | apps/backend/src/modules/timer/timer.service.ts:590-621 | one round adds its warning and break start, each only if its delay is positive |
| `SessionJobs.SessionQueue.CancelSessionJobs` | apps/backend/src/modules/timer/timer.service.ts:630-647 | removes exactly the end job, the rounds' warnings and break starts, and the reveal jobs of the listed members |
| `SessionJobs.SessionQueue.ScheduleRevealJobs` | apps/backend/src/modules/timer/timer.service.ts:339-358 | adds one reveal job per member, due after the roulette timeout |
| `SessionJobs.SessionQueue.ScheduleSessionJobs` | apps/backend/src/modules/timer/timer.service.ts:569-622 | after a start the queue holds the whole plan of the session besides what the cancellation left |
| `SessionJobs.SessionQueue.RecoverSession` | apps/backend/src/modules/timer/timer.service.ts:393-455 | past the planned end recovery only asks to end the session; otherwise it adds the jobs still ahead with their remaining delays |
| `SessionJobs.RecoveryAtStartIsSchedule` | apps/backend/src/modules/timer/timer.service.ts:569-622 | recovery at the starting instant queues what the start queued |
| `SessionJobs.CancellationCovers` | apps/backend/src/modules/timer/timer.service.ts:630-647 | cancellation covers every id a session start or a listed member's give-up can queue, also with the fallback rounds |
| `SessionJobs.CancelledIff` | apps/backend/src/modules/timer/timer.service.ts:630-647 | cancellation removes exactly the end job, all rounds' warnings, the break starts of all rounds but the last, and the listed members' reveal jobs |
| `SessionJobs.RevealCancelledIff` | apps/backend/src/modules/timer/timer.service.ts:640-641 | a reveal job is cancelled exactly if its member still has a row |
| `SessionJobs.OtherRoomsUntouched` | apps/backend/src/modules/timer/timer.service.ts:633-641 | scheduling and cancelling leave other rooms' jobs alone |
| `EscapeSession.SettleLog` | apps/backend/src/modules/penalty/penalty.service.ts:101-129 | measures one log, closes it at the session end if open, corrects its duration otherwise |
| `EscapeSession.SettleLogs` | apps/backend/src/modules/penalty/penalty.service.ts:99-130 | settles every log and collects its interval |
| `EscapeSession.MeasureMember` | apps/backend/src/modules/penalty/penalty.service.ts:132-155 | a member's total is the number of focus instants inside logs or, after giving up, before the planned end |
| `EscapeSession.AssignRows` | apps/backend/src/modules/penalty/penalty.service.ts:184-195 | assigned rows are added by content, existing rows are kept |
| `EscapeSession.SettleMember` | apps/backend/src/modules/penalty/penalty.service.ts:96-225 | one member in the session-end computation, give-up or not, with or without a result |
| `EscapeSession.SettleGiveUp` | apps/backend/src/modules/penalty/penalty.service.ts:282-374 | one member in the give-up computation: logs not clipped, penalties stored unrevealed |
| `EscapeSession.FindActiveEscape` | apps/backend/src/modules/escape/escape.service.ts:68-70 | finds an open log exactly if there is one |
| `EscapeSession.SessionStore.LogEscapeStart` | apps/backend/src/modules/escape/escape.service.ts:49-83 | a log is opened only in the timer phase, for a member still in, without an open one |
| `EscapeSession.SessionStore.LogEscapeEnd` | apps/backend/src/modules/escape/escape.service.ts:91-114 | closes the open log of a member still in, with its wall-clock duration |
| `EscapeSession.SessionStore.GiveUpTransaction` | apps/backend/src/modules/timer/timer.repository.ts:166-187 | closes all open logs at the give-up instant and records it, together |
| `EscapeSession.SessionStore.CalculateAndSave` | apps/backend/src/modules/penalty/penalty.service.ts:52-227 | as one transaction: all members settled or, if a member or the database fails it, nothing stored |
| `EscapeSession.SessionStore.CalculateAndSaveForGiveUp` | apps/backend/src/modules/penalty/penalty.service.ts:238-375 | settles the one member, or stores nothing if it fails, as it must without an unlimited tier |
| `EscapeSession.SessionStore.EndSession` | apps/backend/src/modules/timer/timer.service.ts:369-380 | sets phase and end once, then computes; a failed computation does not stop the end |
| `EscapeSession.SessionStore.GiveUp` | apps/backend/src/modules/timer/timer.service.ts:263-319 | refused in order for strangers, outside the timer phase and for repeats, each with its error; any failure of the computation is swallowed; the last one to give up ends the session |
| `EscapeSession.SessionStore.RevealUnrevealedPenalties` | apps/backend/src/modules/timer/timer.repository.ts:284-291 | reveals whatever a member has left, keeping contents and counts, and reports how many contents that were |
| `EscapeSession.SessionStore.GetCurrentSummary` | apps/backend/src/modules/escape/escape.service.ts:121-159 | each member's live total is the number of focus instants inside logs, open ones up to now |
| `EscapeEffects.ReturnClosesEscape` | apps/backend/src/modules/escape/escape.service.ts:91-114 | a return closes the open log at that instant and changes nothing else |
| `EscapeEffects.ReturnStopsTotal` | apps/backend/src/modules/escape/escape.service.ts:91-159 | from a return on the live total stays what it was then |
| `EscapeEffects.EscapeOpensLog` | apps/backend/src/modules/escape/escape.service.ts:49-83 | in the timer phase a member still in without an open log gets one more, open from that instant; otherwise nothing changes |
| `EscapeEffects.EscapeRunsTotal` | apps/backend/src/modules/escape/escape.service.ts:49-159 | from an escape start on every focus instant adds to the live total |
| `EscapeEffects.GiveUpRecords` | apps/backend/src/modules/timer/timer.service.ts:263-288 | giving up records its instant and ends the running escape whatever fails, for active members of a running session only |
| `EscapeEffects.LastGiveUpEnds` | apps/backend/src/modules/timer/timer.service.ts:313-317 | the session ends with the give-up of the last active member and at that instant; otherwise nobody else is touched |
| `EscapeEffects.EndRecords` | apps/backend/src/modules/timer/timer.service.ts:369-380 | ending records phase and instant once, whatever fails, and touches only logs, results and penalties |
| `EscapeEffects.EndComputes` | apps/backend/src/modules/penalty/penalty.service.ts:96-225 | with an unlimited tier the computation at the end closes open logs there, keeps the times of the others and gives everybody a result |
| `EscapeEffects.AssignmentAdds` | apps/backend/src/modules/penalty/penalty.service.ts:184-195 | an assignment keeps the stored penalties and adds every other drawn content with the number of draws that hit it |
| `EscapeEffects.KickRemoves` | apps/backend/src/modules/room/room.service.ts:324-332 | a kick removes exactly a member without logs |
| `EscapeEffects.RevealShows` | apps/backend/src/modules/timer/timer.repository.ts:284-291 | a reveal shows every penalty of the member with content and count kept, and touches nothing else |
| `EscapeEffects.CloseIff` | apps/backend/src/modules/gateway/room/room.gateway.ts:271-304 | the cleanup closes a running session exactly if nobody is active |
| `EscapeEffects.PageComputes` | apps/backend/src/modules/result/result.service.ts:236-249 | the result page computes in the result phase only and, with an unlimited tier, gives everybody a result |
| `EscapeEffects.RoulettePageComputes` | apps/backend/src/modules/penalty/penalty.service.ts:238-375 | the roulette page computes exactly for a member who gave up and has no result |
| `EscapeEffects.LiveTotalCounts` | apps/backend/src/modules/escape/escape.service.ts:121-159 | a live total is the number of instants in a focus window and in an escape, an open one lasting until now |
| `EscapeEffects.StoredResultMeans` | apps/backend/src/modules/penalty/penalty.service.ts:99-173 | a stored total is the number of instants in a focus window and in an escape before the end or, for a give-up, in an escape or after giving up and before the planned end; the stored tier is the one charged for it |
| `EscapeEffects.StoredTierCovers` | apps/backend/src/modules/penalty/penalty.service.ts:157-173 | for validated tiers the stored tier is the one whose range holds the escaped share |
| `EscapeEffects.StoredDurationMeans` | apps/backend/src/modules/penalty/penalty.service.ts:101-129 | the stored duration of a settled log is the number of its focus instants, before the end for members who stayed |
| `EscapeRuns.StepKeeps` | apps/backend/src/modules/escape/escape.service.ts:49-114 | every step, failing computations and reveals included, keeps logs ordered, closed after give-up, results exact, and rows with results unchanged up to reveals |
| `EscapeRuns.RunKeeps` | apps/backend/src/modules/penalty/penalty.service.ts:52-375 | so does every run with a clock that does not go back |
| `EscapeRuns.LogsStayOrdered` | apps/backend/src/modules/escape/escape.service.ts:68-82 | in every reachable state logs are ordered and disjoint, at most the last is open, none after give-up |
| `EscapeRuns.CloseFirstIsCloseAll` | apps/backend/src/modules/timer/timer.repository.ts:172-186 | closing the one open log found and closing all open logs come to the same |
| `EscapeRuns.SettlingClipIrrelevant` | apps/backend/src/modules/penalty/penalty.service.ts:103-106 | for logs closed by the give-up instant clipping at the session end changes nothing |
| `EscapeRuns.SavesResultsIff` | apps/backend/src/modules/penalty/penalty.service.ts:175-175 | the session-end computation stores results exactly if a tier is unlimited or nobody who gave up lacks a result; otherwise it stores nothing |
| `EscapeRuns.OneGiveUpBlocksResults` | apps/backend/src/modules/penalty/penalty.service.ts:95-95 | without an unlimited tier, in every run: nobody has a result while somebody who gave up has a row, and after the end the result page gives everybody one if and only if nobody in the room has given up |
| `EscapeRuns.ResultsAreFinal` | apps/backend/src/modules/penalty/penalty.service.ts:97-97 | once stored, a member's total, tier, logs and penalties never change in any later run while the row exists, except that penalties are revealed |
| `EscapeRuns.ResultsStayIff` | apps/backend/src/modules/room/room.service.ts:324-332 | a stored result is gone at the end of a run exactly if the member, without any log, was kicked in it |
| `EscapeRuns.GiveUpResultAgreesAtEnd` | apps/backend/src/modules/penalty/penalty.service.ts:132-173 | a give-up result equals what the session-end computation recomputes |
| `EscapeRuns.GiveUpThenAnyEnding` | apps/backend/src/modules/penalty/penalty.service.ts:238-375 | whenever the result of a give-up is computed, and however the session ends, total and tier are those that follow from the state at giving up, and the session-end computation gives the same |
| `EscapeRuns.EveryRunResults` | apps/backend/src/modules/result/result.service.ts:236-249 | in every run results are exact and before the end only give-ups have one; with an unlimited tier one look at the result page after the end gives everybody one whatever failed, and without failures exactly the give-ups, after the end all, have one already |
| `EscapeRuns.CalculationIdempotent` | apps/backend/src/modules/penalty/penalty.service.ts:95-225 | once the end is set a second computation changes nothing, whatever is drawn |
| `EscapeRuns.TotalIsSumOfDurations` | apps/backend/src/modules/penalty/penalty.service.ts:139-155 | a saved total is the sum of stored durations plus, for a give-up, all focus time from then to the planned end |
| `EscapeRuns.LiveTotalNeverDrops` | apps/backend/src/modules/escape/escape.service.ts:121-159 | during the timer phase no step and no passing time lowers a live total |
| `EscapeRuns.LiveTotalIsSavedAtEnd` | apps/backend/src/modules/escape/escape.service.ts:121-159 | for a member still in, the live total at the end instant is the total that is saved, whenever in the later run it is computed |
| `RoomProtocol.StepAdvances` | apps/backend/src/modules/room/room.service.ts:128-503 | every handler, also one that fails in the middle of a kick, keeps every row covered by a cached entry that agrees with it, the membership rules, the job accounting and the recording of the end, and never moves the phase back |
| `RoomProtocol.RunAdvances` | apps/backend/src/modules/room/room.service.ts:128-503 | so does every run |
| `RoomProtocol.EveryRunCovers` | apps/backend/src/modules/room/room.service.ts:128-231 | in every run of a created room, whatever kicks failed: until closing each row has a cached entry with the same give-up, and nobody but the creator is cached as host; at most ten members, none banned, only the creator host |
| `RoomProtocol.AllKickedWhenAllSucceed` | apps/backend/src/modules/timer/timer.service.ts:160-174 | when every kick goes through earlier faults leave no trace |
| `RoomProtocol.DueJobRuns` | apps/backend/src/modules/timer/session.processor.ts:31-59 | a due job leaves the queue for good, within the invariant; exactly the end job of a running session ends it at that instant, every other job changes the queue only; what a reveal job reveals is in SessionInRoom.EventFits |
| `RoomProtocol.RestartRecovers` | apps/backend/src/modules/timer/timer.service.ts:393-455 | in every run of a created room, whatever jobs were lost and whatever kicks failed: a restart during the session leaves queued for the future exactly the planned jobs still ahead, on time, and of all others what survived; past the planned end it ends the session |
| `RoomProtocol.StartedMeansSigned` | apps/backend/src/modules/timer/timer.service.ts:183-251 | whichever way a session starts everyone left has signed; a forced start removed and banned exactly the unsigned non-hosts |
| `RoomProtocol.EndedJobs` | apps/backend/src/modules/timer/timer.service.ts:382-386 | after the end a job of the room is queued exactly if it reveals for a member row or was an earlier reveal of a removed member |
| `RoomProtocol.OneRevealPerMemberIff` | apps/backend/src/modules/timer/timer.service.ts:369-387 | the finished queue holds exactly one reveal job per member if and only if no reveal job was queued for a removed member |
| `RoomProtocol.OnlyKicksOrphanReveals` | apps/backend/src/modules/gateway/room/room.gateway.ts:347-380 | only the host kicking a member with a queued reveal job can leave such a job without its row |
| `RoomProtocol.RunKeepsRevealsWithRows` | apps/backend/src/modules/gateway/room/room.gateway.ts:347-380 | runs without such kicks, half-done ones or not, never have one |
| `RoomProtocol.KickAfterGiveUpOrphansReveal` | apps/backend/src/modules/gateway/room/room.gateway.ts:347-380 | a kick that deletes the row of a member who gave up without any log leaves the reveal job behind after the session |
| `RoomProtocol.CleanupClosesIff` | apps/backend/src/modules/gateway/room/room.gateway.ts:271-304 | cleanup closes exactly rooms before the session or running without active members; never a result room or one with a member cached as connected |
| `RoomProtocol.AbandonedIff` | apps/backend/src/modules/gateway/room/room.gateway.ts:347-380 | a session comes to have no active members in exactly three ways: the host who gave up kicks the last one without logs (getting at least to the row), an empty room starts, or a forced start goes through with no member signed |
| `RoomProtocol.AbandonedIsNeverViewable` | apps/backend/src/modules/result/result.service.ts:228-234 | cleanup closes such a session, and after no later run can the result page be viewed |
| `RoomEffects.RowIff` | apps/backend/src/modules/room/room.service.ts:128-332 | a member row comes only by an accepted join and goes only by leaving before the session, by the host's kick of a member without logs, or by a forced start's kick |
| `RoomEffects.RowContents` | apps/backend/src/modules/room/room.service.ts:432-451 | a row is the host's exactly for the creator; a give-up is recorded once with its instant, and logs come from escapes of active members only |
| `RoomEffects.BannedIff` | apps/backend/src/modules/room/room.service.ts:324-332 | exactly those whom a complete kick removed are banned |
| `RoomEffects.SignedIff` | apps/backend/src/modules/room/room.service.ts:342-382 | a member is signed exactly by the own message before the session, and until taken back, the contract is edited, or the member joins again |
| `RoomEffects.SocketAfter` | apps/backend/src/modules/room/room.service.ts:296-310 | a member's socket is that of the last accepted connection until it is closed or the member joins again |
| `RoomEffects.PhaseAfter` | apps/backend/src/modules/timer/timer.service.ts:183-387 | the phase moves exactly by a first connection, a start that goes through, the end job, last give-up or late restart, the host leaving or the cleanup; start and end instants are recorded then and only then |
| `RoomEffects.PlanAfter` | apps/backend/src/modules/rule/rule.service.ts:70-109 | only the host stores a rule, before the session and within the request bounds |
| `RoomEffects.OnlyHostStarts` | apps/backend/src/modules/timer/timer.service.ts:112-118 | a start, plain or forced, changes something only if called by the host in the contract phase with a rule, having signed if a member |
| `RoomEffects.PendingAfter` | apps/backend/src/modules/gateway/room/room.gateway.ts:154-230 | the cleanup is armed exactly by the closing of the last socket and disarmed by other closings, connections, running and restarts |
| `RoomEffects.JobsAtStart` | apps/backend/src/modules/timer/timer.service.ts:569-622 | after a start exactly the end and each inner round's warning and break start are queued for the room, at their offsets |
| `RoomEffects.JobsAtEnd` | apps/backend/src/modules/timer/timer.service.ts:382-387 | after the end exactly one reveal job per member, in ten minutes, is queued for the room, besides those of removed members |
| `RoomEffects.JobsAtClose` | apps/backend/src/modules/room/room.service.ts:472-478 | after closing only reveal jobs of removed members stay queued for the room |
| `RoomEffects.JobsOtherwise` | apps/backend/src/modules/timer/timer.service.ts:263-319 | otherwise only a give-up adds, its reveal job in ten minutes, and only a due job leaves |
| `RoomEffects.JobsAtRestart` | apps/backend/src/modules/timer/timer.service.ts:393-455 | a restart that does not end the session adds exactly the planned jobs still ahead to what was not lost |
| `RoomEffects.OtherRoomsJobs` | apps/backend/src/modules/timer/timer.service.ts:630-647 | no operation of a room touches the jobs of another |
| `RoomAgreement.AgreesIff` | apps/backend/src/modules/room/room.service.ts:324-332 | cached state and rows agree exactly when no cached member lacks a row |
| `RoomAgreement.LeftoverIff` | apps/backend/src/modules/room/room.service.ts:324-332 | after a step a cached member lacks a row exactly if the step left its kick half done, or it lacked one before and the step is no new join, no kick that reaches the cache and no closing |
| `RoomAgreement.EveryRunAgreesIff` | apps/backend/src/modules/room/room.service.ts:324-332 | in every run of a created room cache and rows agree at the end if and only if every half-done kick was cleared later in the run |
| `RoomAgreement.KicksAgreeIff` | apps/backend/src/modules/timer/timer.service.ts:160-174 | retried kicks keep the agreement if and only if none deleted a row without ever reaching the cache |
| `RoomAgreement.ForcedStartRestoresIff` | apps/backend/src/modules/timer/timer.service.ts:200-251 | a forced start whose kicks all go through ends in agreement if and only if no cached member without a row has signed |
| `RoomAgreement.RetryRestores` | apps/backend/src/modules/timer/timer.service.ts:200-251 | a later forced start by the host after failed kicks is not refused and, once its kicks go through, begins the session in agreement |
| `RoomConnections.CurrentIff` | apps/backend/src/modules/gateway/room/room.gateway.ts:120-199 | after a step a socket is the one cached for a member exactly if the step connected it, or it was before and the step neither replaces, closes nor forgets it |
| `RoomConnections.LostConnectionIsEscapeIff` | apps/backend/src/modules/gateway/room/room.gateway.ts:186-206 | in every run of a created room the closing of a socket of a member with a row starts an escape if and only if the session runs, the member has not given up, and the last accepted connection is by that socket with no join accepted since |
| `SessionInRoom.EventFits` | apps/backend/src/modules/gateway/room/room.gateway.ts:171-176 | every handler of the room, with the escape a lost connection starts and a reconnection ends, the penalties a reveal job reveals and the row a half-done kick deletes, and every computation and reveal takes rows, give-up times and existing logs the same way in both machines |
| `SessionInRoom.StartFits` | apps/backend/src/modules/timer/timer.service.ts:513-540 | the session that starts has exactly the room's members, without logs or results |
| `SessionInRoom.RunFits` | apps/backend/src/modules/timer/timer.service.ts:263-455 | over every run, cleanup and restarts included, both machines keep their invariants and describe the same session |
| `SessionInRoom.WholeLife` | apps/backend/src/modules/penalty/penalty.service.ts:52-375 | from creation through any contract phase, half-done kicks included, plain or forced start and session: results are exact and before the end only give-ups have one; with an unlimited tier the result page after the end gives exactly the members with a row one whatever failed, and without failures they have it already |
| `SessionInRoom.ReconnectionEndsEscape` | apps/backend/src/modules/gateway/room/room.gateway.ts:171-176 | a user who connects again during the session is in no escape afterwards; a guest's connection changes nothing in the session |
| `SessionInRoom.LostSocketStartsEscape` | apps/backend/src/modules/gateway/room/room.gateway.ts:199-206 | the closing of an active member's current socket leaves the member in an escape, begun then unless begun before |
| `SessionInRoom.RevealJobReveals` | apps/backend/src/modules/timer/session.processor.ts:38-53 | a due reveal job shows the member's penalties during the session and nothing after it |
| `SessionInRoom.ResultLostIff` | apps/backend/src/modules/gateway/room/room.gateway.ts:347-380 | a member, with any stored result, goes from a session exactly by an allowed kick of the host that gets to the row of a member without logs; in the result phase too |
| `AssignedPenalties.SettledFits` | apps/backend/src/modules/penalty/penalty.service.ts:175-195 | the session-end computation draws the size due for every member without a result, revealed for those who gave up and unrevealed for the others |
| `AssignedPenalties.EndDrawsRevealedIff` | apps/backend/src/modules/penalty/penalty.service.ts:169-195 | at the end of any run the session-end computation stores revealed penalties for a give-up if and only if no give-up computation had succeeded before; otherwise it leaves them alone |
| `AssignedPenalties.EveryDrawing` | apps/backend/src/modules/penalty/penalty.service.ts:169-195 | in every run, whatever failed: the penalties of a member with a result were drawn in one step, stored revealed exactly if the member had given up and not the own computation at giving up or from the roulette page drew them, and afterwards were only revealed |
| `AssignedPenalties.RunFits` | apps/backend/src/modules/penalty/penalty.service.ts:184-223 | in every run a member without a result has no penalties and one with a result has one drawing of the size due, however much of it is revealed |
| `AssignedPenalties.RouletteShowsWhatIsDue` | apps/backend/src/modules/roulette/roulette.service.ts:109-138 | in every run, whatever is revealed already, the roulette has as many spins as the member's tier calls for and together they show the drawing |
| `AssignedPenalties.SpinsAsContracted` | apps/backend/src/modules/roulette/roulette.service.ts:109-138 | for validated tiers a member has as many spins as the tier whose range holds the escaped share says, after giving up as the last tier says |
| `RoomService.RoomStore.Join` | apps/backend/src/modules/room/room.service.ts:128-178 | refusals in the service's order; an accepted join stores a row at most once, resets the cached entry and keeps the invariant |
| `RoomService.RoomStore.LeaveRoom` | apps/backend/src/modules/room/room.service.ts:189-231 | the host leaving deletes the room, a member leaving goes from rows and cache |
| `RoomService.RoomStore.DeleteRoom` | apps/backend/src/modules/room/room.service.ts:472-478 | drops the cache, closes the room, cancels its jobs |
| `RoomService.RoomStore.KickMember` | apps/backend/src/modules/room/room.service.ts:324-332 | what a kick changes, and what it leaves when it fails between its three writes |
| `RoomService.RoomStore.HandleKick` | apps/backend/src/modules/gateway/room/room.gateway.ts:347-380 | only the cached host's kick of somebody else has an effect, complete or cut off between its writes, within the invariant |
| `RoomService.RoomStore.HandleConnection` | apps/backend/src/modules/gateway/room/room.gateway.ts:100-162 | which connections are accepted; an accepted one takes over the member's socket, disarms the cleanup and opens the contract phase, within the invariant |
| `RoomService.RoomStore.HandleDisconnect` | apps/backend/src/modules/gateway/room/room.gateway.ts:186-230 | only the closing of the current socket counts; it marks the member, starts an escape log during the session and arms the cleanup if nobody is left, within the invariant |
| `RoomService.RoomStore.SetSigned` | apps/backend/src/modules/room/room.service.ts:342-362 | signs before the session only and reports whether all have signed |
| `RoomService.RoomStore.ResetAllSigns` | apps/backend/src/modules/room/room.service.ts:371-382 | clears every signature before the session |
| `RoomService.RoomStore.BeginSession` | apps/backend/src/modules/timer/timer.service.ts:513-540 | starts row, cache and jobs together, or on a failed write nothing |
| `RoomService.RoomStore.RecoverRoom` | apps/backend/src/modules/timer/timer.service.ts:395-453 | recovers one room after a restart, which has lost a pending cleanup, within the invariant |
| `RoomService.RoomStore.EndSession` | apps/backend/src/modules/timer/timer.service.ts:369-387 | one effective end; afterwards cancelled timeline jobs and one reveal job per row |
| `RoomService.RoomStore.GiveUp` | apps/backend/src/modules/timer/timer.service.ts:263-319 | refusals in order; row and cache marked alike, reveal job queued, last give-up ends the session, within the invariant |
| `RoomService.RoomStore.StartTimer` | apps/backend/src/modules/timer/timer.service.ts:112-191 | only the host starts; each refusal in the service's order with the exact state that gives it: not the host, wrong phase, no rule, no state, host unsigned, others unsigned, failed write |
| `RoomService.RoomStore.KickWithRetry` | apps/backend/src/modules/timer/timer.service.ts:160-174 | succeeds exactly if one of three attempts goes through; failed ones leave their partial writes |
| `RoomService.RoomStore.KickEach` | apps/backend/src/modules/timer/timer.service.ts:211-235 | kicks go on after failures; the kicked list names exactly the successful ones once |
| `RoomService.RoomStore.ForceStartTimer` | apps/backend/src/modules/timer/timer.service.ts:112-251 | only the host starts by force, each refusal with the exact state that gives it; for every fault pattern: starts exactly if every kick goes through and the start is stored, with everyone left signed and the kicked list equal to the unsigned non-hosts; otherwise the session has not begun; what earlier half-done kicks left does not matter, and the invariant is kept |
| `RoomExamples.OrphanedReveal` | apps/backend/src/modules/gateway/room/room.gateway.ts:347-380 | a run of a created room after which a reveal job is queued for nobody |
| `RoomExamples.AbandonedByKick` | apps/backend/src/modules/gateway/room/room.gateway.ts:347-380 | a run that leaves a session without active members, and one in which it is then closed with its results out of reach |
| `RoomExamples.AbandonedByEmptyStart` | apps/backend/src/modules/timer/timer.service.ts:183-191 | a run after which a plain start begins a session with nobody |
| `RoomExamples.AbandonedByForcedStart` | apps/backend/src/modules/timer/timer.service.ts:200-251 | a run after which a forced start begins a session with nobody |
| `RoomExamples.HalfKickDisagrees` | apps/backend/src/modules/room/room.service.ts:324-332 | a run and faults after which a failed forced start leaves cache and rows in disagreement |
| `RoomExamples.LeftoverOutlivesStart` | apps/backend/src/modules/room/room.service.ts:342-362 | a run in which a member without a row signs and the session starts with the member in the cache |
| `RoomExamples.RejoinForgetsSocket` | apps/backend/src/modules/room/room.service.ts:453-463 | a run in which a guest joins again during the session and the closing of the guest's open socket then changes nothing |
| `Ranking.ViewCountsAddUp` | apps/backend/src/modules/result/result.service.ts:89-101 | shown penalties and remaining spins of a member add up to the assigned total |
| `Ranking.SortViewsSorts` | apps/backend/src/modules/result/result.service.ts:126-130 | the sort orders members by falling total and loses nobody |
| `Ranking.AssignRanks` | apps/backend/src/modules/result/result.service.ts:132-137 | the in-place rank loop |
| `Ranking.RankIsOnePlusHigher` | apps/backend/src/modules/result/result.service.ts:132-137 | whatever the tie-break and loading order, a rank is one plus the number of members with a strictly greater total |
| `Ranking.RanksFollowTotals` | apps/backend/src/modules/result/result.service.ts:131-137 | ranks order members as totals do and are equal exactly on ties |
| `Ranking.RankMembers` | apps/backend/src/modules/result/result.service.ts:87-137 | the page lists every member once by falling total, ties by id; each entry shows what is stored: total, tier, all clear iff the total is zero, revealed and remaining counts, revealed items, and one plus the number of rows with a greater stored total |
| `Ranking.PageEntry` | apps/backend/src/modules/result/result.service.ts:87-137 | every page entry is a row's view with the competition rank and consistent counts |
| `Ranking.ExpiryLeavesNoSpins` | apps/backend/src/modules/result/result.service.ts:190-193 | after the expiry update no spins remain and everything is shown |

## Left out

- EscapeIntervals.MergeIntervals: the interval list and its records are values here; the source sorts and extends the caller's list and records in place, which its callers do not look at afterwards.
- EscapeSession.SessionStore.CalculateAndSave: rooms without a template, or whose session has no start, are not modelled; the source throws or falls back to the current time for them.
- RoomService.RoomStore.KickWithRetry: the members kicked by a forced start have no escape logs, which the room invariant provides before a session.
- RoomService.RoomStore.ForceStartTimer: the kicked list is proved as a set named once each; the order of the cached entries is not modelled.
- Roulette.AssignPenalties: contents that are names of inherited JavaScript object properties (such as "constructor") would be miscounted by the source's record; the map here has no such names.
- Roulette.SwapIndex: the product of a 32-bit output and the position is exact here; in the source it is a floating-point product, which is exact for lists shorter than two million.
- PenaltyTiers.TierMonotone: percentages are exact reals; rounding of floating-point division at a boundary is not modelled.
- Ranking.SortViewsSorts: the library sort is a stable insertion sort with the same comparator, as are the sorts of tiers and intervals; locale comparison is a parameter.
- RevealProtocol.BroadcastTwiceIff: the phase check of spins and exits and the time check of a page are left to the choice of callers.
- TierEditor.SessionKeeps: one editor's operations; concurrent edits and their merging by the shared-document library, and loading a saved rule over the document, are not modelled.
- RoomProtocol.StepAdvances: of the handlers only kicks can fail between their writes; the escape logs of the room machine are a flag on the row, tied to their contents by SessionInRoom.
- SessionInRoom.RunFits: a failing give-up computation and a failing session-end computation are events; a failing recomputation is no event, since it changes nothing.
- AssignedPenalties.RunFits: a reveal is one step here; the steps of concurrent reveals are the subject of the reveal protocol.
- Transport, expiry of stored state, retries and delays of the job library, and failures to queue or remove a job that the source ignores.
- The forced closing of a duplicate socket after a delay; heartbeat expiry, which is another trigger of an escape start.
- Edit permissions, nicknames, profile images, the mapping from penalty contents to item ids, penalty pool edits.
- Sign-in, tokens, password hashing (a join takes whether the password was right), push messages, error reporting, saved rules, history paging.
- Rendering, animation, navigation, wake lock; which member of the pool is drawn, and how fairly.
