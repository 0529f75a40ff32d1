# Verification model of the proxy manager's health and routing core

The backend turns health measurements into routing decisions. These Dafny modules model the parts of it that
carry protocol invariants and prove those invariants for every input and every run. Nothing is executed; the
model is checked by Dafny alone: `dafny verify dfyconfig.toml`.

How the modules belong together:

- `FailureWindow`, `ProbeRing`, `GroupMember`: one member of a group: its sliding failure window, its replay ring
  and its recovery streak, over whole runs of events. `MemberOutcomes` says when a report evicts and what it clears.
- `MemberRestart`: a member restored from its row and fed the journal again.
- `GroupWorld`, `GroupReconciliation`, `GroupRuntime`, `GroupInvariants`, `GroupRevisions`, `GroupAnnouncements`,
  `GroupFields`: several group runtimes with one global mark for each node and one revision clock. `GroupRuntime.Groups`
  holds the operations as methods with their loops; the invariants, the revision order, what observers are told and
  what becomes of each field are proved about the relations in their contracts. `GroupInterleaving` takes two of the
  operations apart, group by group.
- `MemberRows`, `HealthDelivery`, `HealthDeliverySafety`, `HealthOpening`, `HealthNotices`, `HealthSubscription`,
  `HealthHub`: delivery of the health journal. The protocol has one step for each critical section, interleaved with
  notifications, timers, pruning, closing and restarts; `HealthSubscription.Subscription` has the methods, each proved
  to be a stretch of the protocol.
- `ReplaySafety`: journal delivery and a group member together.
- `Retirement`, `RetirementSafety`, `RetirementRisk`, `RetirementSlot`: changing a group's members while old outbounds drain.
- `StatePersister`, `PersisterOrder`: the coalescing background writer, and which orders of events it keeps safe.
- `HealPlanner`, `PlanContents`, `CapacitySlots`: the capacity planner, what a plan says, and the slots a pool carries from
  update to update. `HealCoordinator`, `HealTiming`, `Healer`, `HealerOutcomes`: the coordinator that carries out the plans.
- `NodeRegistry`, `SessionGate`, `PortAllocation`, `ReloadRebase`, `MembershipQueue`: smaller state machines.

Times are integers of nanoseconds. Store calls, callbacks, timers and clocks are parameters or free choices of a
step, so a theorem covers every outcome.

Where the code does less than its comments promise, the model follows the code and a lemma gives the exact
condition: `FailureWindow.AlwaysEvidenceIff`, `GroupMember.AlwaysEarnedIff`,
`MemberRestart.ReplayedFailuresCountOnceIff`, `GroupInvariants.ReconcileAgreesIff`,
`GroupInterleaving.InterleavedAgreesIff`, `HealthOpening.NothingPassedOverIff`, `RetirementRisk.CanLoseIff`,
`MemberRestart.RestoredCatchesUpIff`, `GroupReconciliation.RebuiltAppliesReplayIff`, `PersisterOrder.AlwaysSafeIff`,
`StatePersister.NewestSurvivesIff`, `MembershipQueue.StoppedForgetsIff`, `PortAllocation.AllDistinctIff`; or it
shows what happens: `HealthOpening.BacklogWaitsForNotice`, `HealCoordinator.FailuresInARow`.

Assumptions that the theorems state as preconditions: a node has one tag in a group and node ID 0 is left out
(`GroupWorld.Shape`); a tag stands for one node key and one endpoint within a runtime generation
(`Retirement.Coherent`); each measurement of a member has its own probe ID (`ReplaySafety.OwnIdentities`); a session
token is new when it is created and nobody names it before its creation returns (`SessionGate.Enabled`, and
`SessionGate.RevokedDuringCreationReturns` shows why); a revision
identifies one state of a member (`StatePersister.Enabled`); the states a delivery callback returns supersede the
stored rows (`HealthDelivery.Enabled`).

## Model

| member | source | states |
|---|---|---|
| `FailureWindow.History.Compact` | internal/group/runtime.go:1026-1043 | keeping the entries inside the window in place on the shared buffer yields exactly the surviving suffix of the history, in order |
| `FailureWindow.History.Report` | internal/group/runtime.go:657-689 | the in-place report equals the history function, counts unless the same second ends the surviving entries, and evicts exactly at the threshold |
| `FailureWindow.History.Prune` | internal/group/runtime.go:1026-1043 | read-side pruning equals dropping the entries before the cutoff and clears the error only when the history empties |
| `FailureWindow.UnixIs` | internal/group/runtime.go:670-674 | a second is the whole billions of nanoseconds, rounded down |
| `FailureWindow.HistoryIsEvidence` | internal/group/runtime.go:657-689 | for non-decreasing times and a whole-second window the history is the strictly increasing list of the distinct reported seconds in the window |
| `FailureWindow.EvictionIsThreshold` | internal/group/runtime.go:669-689 | eviction is decided by the number of distinct reported seconds in the window, and the early return happens exactly for a second already reported |
| `FailureWindow.PrunesDoNotMatter` | internal/group/runtime.go:534-547 | prunes between reports never change what a report stores or decides |
| `FailureWindow.EarlyReturnIntactIff` | internal/group/runtime.go:657-674 | the same-second early return leaves a sound history exactly when no entry fell out of the window |
| `FailureWindow.AlwaysEvidenceIff` | internal/group/runtime.go:657-689 | the history is the list of distinct seconds in the window in all runs if and only if the window is a whole number of seconds; windows read from stored settings always are (internal/boxmgr/manager.go, line 2737) |
| `FailureWindow.FractionalWindowOvercounts` | internal/group/runtime.go:657-689 | for every fractional window a stale tail survives the early return: one second is entered twice, and three entries then stand for two seconds |
| `ProbeRing.Ring.AlreadyApplied` | internal/group/runtime.go:168-188 | reports a replay exactly for an identified probe in the ring and otherwise records it |
| `ProbeRing.RingIsLatestAccepted` | internal/group/runtime.go:162-188 | over any run of offers the ring is exactly the last 64 distinct accepted probes |
| `ProbeRing.ReplaysAreNeutral` | internal/group/runtime.go:168-188 | offering any of the last 64 again, any number of times, changes nothing |
| `ProbeRing.OlderProbesAreForgotten` | internal/group/runtime.go:162-188 | the bound is sharp: the 65th last probe is accepted again |
| `GroupMember.RingFollowsOffers` | internal/group/runtime.go:715-731 | a member ring depends on its offered probes alone, whatever dial failures, evictions and restores come between |
| `GroupMember.ReplayedEventsChangeNothing` | internal/group/runtime.go:715-731 | feeding back success or failure events with any of the last 64 probes leaves the whole member as it is |
| `GroupMember.StreaksAreExplained` | internal/group/runtime.go:732-770 | a positive streak is backed by that many probe successes after the cooldown with no applied failure since |
| `GroupMember.RecoveryIsEarned` | internal/group/runtime.go:732-770 | for cooldowns of a second or more, recovery needs the threshold number of distinct successes after the cooldown with no failure between |
| `GroupMember.AlwaysEarnedIff` | internal/group/runtime.go:715-770 | over all members and runs every automatic recovery is earned if and only if the policy is off, the cooldown is at least a second, or one success is enough |
| `MemberOutcomes.FailureEvictsIff` | internal/group/runtime.go:640-713 | over any run of a member that is not evicted, with a whole-second window: after a dial failure, or a probe failure that is no replay, in a new second the member is evicted if and only if the distinct seconds counted in the window since the last clear, this one included, reach the threshold; date, error and streak are as stated |
| `MemberOutcomes.SuccessClears` | internal/group/runtime.go:715-770 | a success that is no replay leaves a member that is not evicted without history and streak, and without an error if a history was cleared; otherwise nothing else changes |
| `MemberOutcomes.CountStartsAfresh` | internal/group/runtime.go:657-689 | what counts after a clear is exactly what failed after it |
| `MemberRestart.RestoredCatchesUpIff` | internal/group/runtime.go:468-520 | a member restored from the row stored with the cursor and fed any rows it had not seen agrees with the member that never died, the memory of old probes aside, if and only if no recovery streak was lost |
| `MemberRestart.MeetAgainIff` | internal/group/runtime.go:640-770 | with a lost streak the two agree again if and only if something has reset the streak: a failure in a second of its own, a manual restore, or a success under a disabled policy; until then the restored one is exactly the lost streak behind |
| `MemberRestart.RecoveryIsLateBy` | internal/group/runtime.go:732-760 | without a reset the other is readmitted first, and the restored member follows after exactly as many further successes as the lost streak had |
| `MemberRestart.ReplayedFailuresCountOnceIff` | internal/group/runtime.go:886-905 | a row stored ahead of the cursor: the failures delivered again leave the history as it was if and only if there is only one |
| `GroupWorld.PropagationsCompose` | internal/group/runtime.go:1045-1078 | propagating the evictions of two nodes one after the other is one propagation of both to every group |
| `GroupRuntime.Groups.Touch` | internal/group/runtime.go:148-151 | the member gets the next global revision |
| `GroupRuntime.Groups.AdvanceRevision` | internal/group/runtime.go:156-163 | the clock becomes the larger of itself and the restored revision |
| `GroupRuntime.Groups.PropagateEviction` | internal/group/runtime.go:1045-1078 | the node is marked and evicted in every group that holds it; members already evicted stay as they were; each change is announced with the next revision, in the order of stamping |
| `GroupRuntime.Groups.FreeNode` | internal/group/runtime.go:854-883 | the node is returned to the clean state in every other group, each change announced with the next revision, in the order of stamping |
| `GroupRuntime.Groups.RecordFailure` | internal/group/runtime.go:640-713 | the group, the mark and all other groups after a dial failure, with the exact announcements |
| `GroupRuntime.Groups.RecordGroupHealthFailure` | internal/group/runtime.go:886-905 | the replay and same-second checks come before the failure counts |
| `GroupRuntime.Groups.RecordHealthSuccess` | internal/group/runtime.go:715-796 | streak, recovery everywhere, or cleared history, with the exact announcements |
| `GroupRuntime.Groups.RestoreGroupMember` | internal/group/runtime.go:910-941 | a manual restore clears the node in all groups and refuses an unknown group or member |
| `GroupRuntime.Groups.Register` | internal/group/runtime.go:468-532 | restored members, the raised clock, the marks and the propagation of restored evictions |
| `GroupRuntime.Groups.ReconcileSilent` | internal/group/runtime.go:312-428 | members are rebuilt by node from the live runtime or the persisted state without any announcement, and the owed events are returned; a newcomer whose state changed is stamped above the revision it was restored with |
| `GroupRuntime.Groups.PruneGlobalEvictions` | internal/group/runtime.go:430-450 | a removed node keeps its mark exactly when some group still holds it evicted |
| `GroupRuntime.Groups.NotifyEvents` | internal/group/runtime.go:456-463 | the owed events are announced and their evictions propagated; no two announcements share a revision, and a propagated one is stamped after the silent phase |
| `GroupRuntime.Groups.Reconcile` | internal/outbound/pool/pool.go:1001-1058 | a pool commit is the silent phase followed by its announcements |
| `GroupRuntime.Groups.SetCurrentTag` | internal/group/runtime.go:599-638 | only an existing member that is neither standby nor evicted, or none, becomes current |
| `GroupRuntime.Groups.CurrentTag` | internal/group/runtime.go:564-597 | reading prunes the current member and drops it when it can no longer serve |
| `GroupRuntime.Groups.MemberAvailable` | internal/group/runtime.go:534-547 | availability after pruning; an unknown group never blocks |
| `GroupReconciliation.ReconciledOwes` | internal/group/runtime.go:372-428 | the returned events are exactly owed: each evicted one describes an evicted member of the rebuilt group |
| `GroupReconciliation.RebuiltAppliesReplayIff` | internal/group/runtime.go:335-351 | a probe that the member recognised is applied again by the rebuilt member exactly when it still has something to change: a success that clears a history, counts for a recovery or ends a streak, or a failure outside the last second of the history |
| `GroupInvariants.ReconcileKeepsInv` | internal/group/runtime.go:312-463 | both phases of a reconciliation keep agreement when its evicted newcomers are marked; between the phases evicted implies marked |
| `GroupInvariants.ReconcileAgreesIff` | internal/group/runtime.go:352-364 | after a reconciliation the groups agree exactly when every newcomer restored as evicted was already marked |
| `GroupInvariants.CallKeepsInv` | internal/group/runtime.go:312-1078 | every operation keeps agreement, the soundness of current members and streaks, distinct revisions and the order of announcements |
| `GroupInvariants.RunsKeepInv` | internal/group/runtime.go:146-163 | in every run every world satisfies all of it: marks and members agree, a streak belongs to an evicted member below the threshold, announcements carry distinct revisions, and those of one member strictly grow |
| `GroupInvariants.GroupsNeverDisagree` | internal/group/runtime.go:1045-1078 | two groups never differ about a node both hold |
| `GroupAnnouncements.CallTells` | internal/group/runtime.go:456-796 | each announcement of an operation is the state that the member it names has when the operation is over: history, flag, error, revision and, unless it is in service, date |
| `GroupAnnouncements.RunsTell` | internal/group/runtime.go:456-796 | and so after every call of every run |
| `GroupAnnouncements.DatesAreTold` | internal/group/runtime.go:456-796 | where the stored rows read back date evictions only, an announcement is the whole state, date included |
| `GroupFields.AvailableIff` | internal/group/runtime.go:534-547 | a member is available if and only if it is neither standby nor evicted and none of its failures is in the window; an unknown group never blocks, an unknown member always does |
| `GroupFields.CurrentIff` | internal/group/runtime.go:564-597 | the current member is answered exactly while it is such a member, and dropped as soon as it is not |
| `GroupFields.CurrentIsSet` | internal/group/runtime.go:599-638 | nobody, or a member that is neither standby nor evicted, becomes current, and nothing else changes |
| `GroupFields.ReadsPrune` | internal/group/runtime.go:534-597 | the two reads drop the expired failures of the member asked about, unless it is evicted, and touch no other |
| `GroupFields.PrunedLeaves` | internal/group/runtime.go:1026-1043 | pruning drops the expired failures alone and forgets the error only with the last of them |
| `GroupFields.SameSecondChangesNothing` | internal/group/runtime.go:670-674 | a failure in a second that counts already changes nothing while every failure is in the window |
| `GroupFields.FailureDropsCurrent` | internal/group/runtime.go:680-684 | a failure that counts takes the current place from its member and from nobody else |
| `GroupFields.PropagationSets` | internal/group/runtime.go:1045-1078 | an eviction carried everywhere sets flag, date and error of the members of the node not evicted before, ends their streaks, and leaves history, ring and all others alone |
| `GroupFields.AnnouncementsSet` | internal/group/runtime.go:456-463 | the announcements of a reconciliation evict the nodes of its evicted events everywhere with the date and error of the event, and change nobody else |
| `GroupFields.RestoreSets` | internal/group/runtime.go:910-941 | a manual restore leaves every member of the node in service without history, error, date or streak, evicted before or not |
| `GroupFields.RecoverySets` | internal/group/runtime.go:854-883 | an automatic recovery cleans the evicted members of the node in the other groups and leaves those in service alone |
| `GroupFields.RegistrationKeeps` | internal/group/runtime.go:468-532 | stored history, error, date and revision survive a registration; a member is evicted if stored so or marked; an undated eviction is dated; window and threshold fall back to 300 seconds and 3 |
| `GroupFields.PolicyFilledIn` | internal/group/runtime.go:93-107 | missing numbers of a recovery policy become the defaults, a disabled one stays so, and one not given changes nothing |
| `GroupFields.RebuildKeeps` | internal/group/runtime.go:343-390 | what a reconciliation makes of a member, field by field, from what its node had before |
| `GroupFields.PriorIs` | internal/group/runtime.go:327-330 | the live member of a node is the one that names it |
| `GroupFields.CurrentSurvives` | internal/group/runtime.go:396-406 | who is current after a reconciliation: the node that was, if it may serve, else the preferred one if nobody was |
| `GroupFields.MarksAfterReconcile` | internal/group/runtime.go:430-450 | a node loses its mark exactly when it left the group and is evicted in no group any more |
| `GroupInterleaving.InterleavedAgreesIff` | internal/group/runtime.go:910-941 | an eviction and an automatic or manual recovery of one node interleaved group by group and with both changes of the mark: the groups agree in the end if and only if the two come in the same order in the mark and in every group holding the node |
| `GroupRevisions.CallKeepsLedger` | internal/group/runtime.go:142-163 | every operation issues its revisions above all that were issued or restored before, announces only issued ones, and records each persisted revision it reads back |
| `GroupRevisions.AnnouncementsOutrank` | internal/group/runtime.go:134-163 | in every run the revision of an announcement is above every revision issued or restored before it was stamped, and no other announcement carries it |
| `GroupRevisions.LaterAnnouncementsOutrank` | internal/group/runtime.go:352-364 | across calls an announcement outranks every earlier announcement, every revision read back and every revision a member held |
| `MemberRows.UpsertAllOverrides` | internal/store/sqlite.go:2524-2543 | writing states that supersede the stored ones overrides the rows by the newest of each member |
| `MemberRows.WrittenIff` | internal/store/sqlite.go:2524-2543 | what one write does to each row |
| `MemberRows.RevisionsNeverGoBack` | internal/store/sqlite.go:2524-2543 | versioned writes never lower a stored revision |
| `MemberRows.WritersCommute` | internal/store/sqlite.go:2524-2543 | the two writers commute: a stalled write cannot undo a newer one |
| `MemberRows.RecordNewest` | internal/monitor/health_event_hub.go:321-341 | merging delivered states keeps one entry a member, the newest |
| `MemberRows.RestoreNewest` | internal/monitor/health_event_hub.go:294-312 | returned states give way to newer ones queued meanwhile, one entry a member |
| `HealthDelivery.ListIsNext` | internal/store/health_events.go:110-130 | a read from the persisted cursor returns the next rows with none left out, and a short batch reaches the end |
| `HealthDeliverySafety.NextKeepsInv` | internal/monitor/health_event_hub.go:194-478 | every critical section, notification, timer, close, prune and restart keeps the whole invariant |
| `HealthDeliverySafety.DeliveredInOrder` | internal/monitor/health_event_hub.go:354-428 | a registration delivers exactly the rows its filter takes between the cursor it found and the cursor it reached, in order, and every such row up to the persisted cursor has been delivered |
| `HealthDeliverySafety.DeliveredAreThoseWanted` | internal/monitor/health_event_hub.go:436-447 | of the rows between the two cursors a registration delivers a row if and only if it asked for everything, or its tag, or its non-zero node |
| `HealthDeliverySafety.StoredMatchesCursor` | internal/monitor/health_event_hub.go:251-341 | at all times the stored states are the newest-wins fold of exactly the calls up to the persisted cursor, and the states held back are the unique-key fold of the rest |
| `HealthDeliverySafety.RedeliveriesFitTheRing` | internal/monitor/health_event_hub.go:15-18 | a registration delivers at most 64 rows that were delivered before it |
| `HealthDeliverySafety.UncommittedFitTheRing` | internal/monitor/health_event_hub.go:57-67 | at most 64 delivered rows are uncommitted at any time |
| `HealthDeliverySafety.WorkHasAToken` | internal/monitor/health_event_hub.go:146-224 | with work to do an open subscription has a token, a timer, a notifier on its way, or a worker still stepping |
| `HealthDeliverySafety.QuietMeansCaughtUp` | internal/monitor/health_event_hub.go:194-224 | when the worker sleeps with nothing on its way, all it was told of is delivered and its cursor and states are stored |
| `HealthOpening.BacklogWaitsForNotice` | internal/monitor/health_event_hub.go:87-106 | however long a registration runs, without a notification it delivers nothing and its stored cursor stays |
| `HealthOpening.NothingPassedOverIff` | internal/monitor/health_event_hub.go:108-142 | a registration starts before every undelivered row if and only if its cursor was read, or the tail was not, or no row lies between, whether or not the tail could be written |
| `HealthOpening.StartsAt` | internal/monitor/health_event_hub.go:108-142 | where a registration starts and what it leaves stored, for every outcome of the three store calls: at the stored cursor, behind everything in the journal, or at the beginning; a stored cursor never goes back |
| `HealthNotices.InlineOnceInOrder` | internal/monitor/health_event_hub.go:152-166 | while a registration lasts the inline events called and those waiting are exactly those that found one of the 1024 places, each once and in order |
| `HealthNotices.SnapshotAnswers` | internal/monitor/health_event_hub.go:153-154 | a requested snapshot is called or still waits, one call may answer several requests, and none is called without a request |
| `HealthNotices.ClosedIsSilent` | internal/monitor/health_event_hub.go:226-260 | a closed subscription calls its consumer no more and stores nothing but what it is storing already |
| `HealthOpening.PassedOverForGood` | internal/monitor/health_event_hub.go:354-428 | a row that the registration and the stored cursor have passed is delivered by no continuation, restarts included |
| `HealthOpening.FailedReadLosesRow` | internal/monitor/health_event_hub.go:119-141 | from any opening that passed over a row the protocol goes on to deliver the next row alone and to commit beyond the row passed over, for good |
| `HealthSubscription.Subscription.constructor` | internal/monitor/health_event_hub.go:87-142 | cursor and stored cursor after opening; with a read cursor, or at a first start at a written tail, the protocol starts in its initial state |
| `HealthSubscription.Subscription.Notify` | internal/monitor/health_event_hub.go:146-169 | the notification step followed by the token, or nothing when closed or full |
| `HealthSubscription.Subscription.RestoreStates` | internal/monitor/health_event_hub.go:294-312 | the loops compute the restore function |
| `HealthSubscription.Subscription.RecordStates` | internal/monitor/health_event_hub.go:321-341 | the nested loops compute the record function |
| `HealthSubscription.Subscription.FlushCursor` | internal/monitor/health_event_hub.go:251-290 | detach, commit or restore, park and arm the retry, as one stretch of the protocol |
| `HealthSubscription.Subscription.ReadJournal` | internal/monitor/health_event_hub.go:354-428 | the read and the batch loop are a stretch of the protocol |
| `HealthSubscription.Subscription.Step` | internal/monitor/health_event_hub.go:194-224 | a whole step is a stretch of the protocol from its first to its last position and keeps the invariant |
| `HealthSubscription.Subscription.ScheduleRetry` | internal/monitor/health_event_hub.go:461-478 | at most one timer is armed, none when closed |
| `HealthSubscription.Subscription.RetryTimer` | internal/monitor/health_event_hub.go:469-477 | the timer disarms and sends a token unless closed |
| `HealthHub.Hub.Register` | internal/monitor/health_event_hub.go:576-603 | a fresh subscription with its tags, node IDs and wish for everything, and every index lists exactly the subscriptions in force |
| `HealthHub.Hub.Unsubscribe` | internal/monitor/health_event_hub.go:605-628 | the subscription leaves every index; a second call changes nothing |
| `HealthHub.Hub.Match` | internal/monitor/health_event_hub.go:648-670 | a subscription made and not dropped since is matched if and only if it asked for everything, or for the non-empty tag of the event, or for its non-zero node |
| `HealthHub.NobodyElseIsMatched` | internal/monitor/health_event_hub.go:648-670 | whoever is matched made such a subscription and did not drop it since |
| `ReplaySafety.DeliveredIsRemembered` | internal/group/runtime.go:168-172 | a row delivered before and beyond the stored cursor is still in the replay ring of its member |
| `ReplaySafety.DeliveryCountsOnce` | internal/outbound/pool/pool.go:1494-1525 | one delivery keeps the correspondence of accepted probes and rows, and a repeated one leaves the member as it is |
| `ReplaySafety.ResumedConsumerCountsOnce` | internal/monitor/health_event_hub.go:62-66 | over any number of registrations a member accepts one measurement for each of its rows, in order, and a repeated row changes neither streak nor window |
| `RetirementSafety.NextKeepsInv` | internal/boxmgr/manager.go:1353-1555 | every step of an apply, of a failing apply and of the drain goroutines keeps the ownership invariant |
| `RetirementSafety.NothingLeaks` | internal/boxmgr/manager.go:1485-1555 | whenever no apply runs, the outbounds are the disjoint union of member and retiring tags, and every retiring one has a goroutine that will remove it |
| `RetirementSafety.OutboundsInUseStay` | internal/boxmgr/manager.go:1531-1548 | no step other than tearing down removes or replaces the outbound of a member or of anything published |
| `RetirementSafety.PublishedAsDesired` | internal/boxmgr/manager.go:1479-1504 | members change only when an apply publishes, and then to exactly the desired nodes under their own tags |
| `RetirementRisk.CanLoseIff` | internal/boxmgr/manager.go:1353-1449 | an apply can end with a member kept and its outbound gone if and only if a desired node bears a member tag under another key or endpoint and no earlier node stops the apply |
| `RetirementRisk.MembersKeepOutbounds` | internal/boxmgr/manager.go:1401-1449 | without such a node the same objects stay registered for all members at every moment of the apply, drain goroutines included |
| `RetirementRisk.CoherentNeverOvertakes` | internal/boxmgr/manager.go:1402-1445 | within one generation of tags there is no such node |
| `RetirementRisk.TakenServesEndpoint` | internal/boxmgr/manager.go:1402-1445 | an outbound that is kept or taken back serves the endpoint of the desired node |
| `RetirementRisk.RefusedRenameLosesOutbound` | internal/boxmgr/manager.go:1402-1449 | any member whose tag arrives under another key or endpoint loses its outbound when the pool refuses the update |
| `RetirementSlot.Slot.TakeNode` | internal/boxmgr/manager.go:1401-1449 | one desired node, kept, refused, taken back or created, as steps of the protocol |
| `RetirementSlot.Slot.RollBack` | internal/boxmgr/manager.go:1387-1400 | created outbounds are removed last first, then each cancelled retirement is issued again |
| `RetirementSlot.Slot.PublishMembers` | internal/boxmgr/manager.go:1485-1504 | the publishing loop computes the publishing step |
| `RetirementSlot.Slot.ApplyIncremental` | internal/boxmgr/manager.go:1353-1507 | the whole apply is a path of the protocol; it commits exactly the desired nodes, of which there is one at least, or leaves members and topology unchanged |
| `RetirementSlot.Slot.FinishRetirement` | internal/boxmgr/manager.go:1531-1554 | the last section removes the outbound only if its ticket still holds the claim and was not stopped |
| `RetirementSlot.Slot.CancelRetirements` | internal/boxmgr/manager.go:1341-1351 | every goroutine with a claim is told to stop and no claim remains |
| `StatePersister.NewestIsSomewhere` | internal/app/app.go:286-309 | the last accepted state of a member is pending, in the detached batch, or stored unless a newer one is |
| `StatePersister.StoredNeverGoesBack` | internal/app/app.go:357-401 | no step lowers a stored revision, whatever fails, is retried, or is written by the other writer |
| `StatePersister.ShutdownIsComplete` | internal/app/app.go:324-336 | a shutdown whose final writes succeed leaves every row and current node at the last accepted event |
| `StatePersister.NewestSurvivesIff` | internal/app/app.go:286-401 | events in any order, batches in hand, failing writes: the accepted state with the highest revision survives if and only if every older event or retry that displaced it was made up for by a renewal |
| `StatePersister.StepJudged` | internal/app/app.go:292-391 | for every step exactly when it displaces the newest state of a member and when it renews it |
| `StatePersister.ShutdownStoresNewestIff` | internal/app/app.go:324-336 | after a clean shutdown a row is at least as new as the newest accepted state if and only if every displacement was made up for |
| `StatePersister.DrainStoresNewestIff` | internal/app/app.go:286-391 | one event and one drain: the row is at least as new as everything accepted if and only if nothing newer than the event was pending or the row held it already |
| `PersisterOrder.AlwaysSafeIff` | internal/app/app.go:286-401 | a sequence of events of one member keeps its newest state safe at every moment of every run if and only if the revisions never decrease |
| `PersisterOrder.SafeAtEndIff` | internal/app/app.go:286-401 | and at the end of every run if and only if the last event is the newest |
| `PersisterOrder.StoredAtEndIff` | internal/app/app.go:324-336 | every clean shutdown after these events leaves a row as new as all of them if and only if the last event is the newest |
| `StatePersister.Persister.Observe` | internal/app/app.go:286-309 | the observing step; nothing is accepted once closed |
| `StatePersister.Persister.DrainStates` | internal/app/app.go:357-401 | every pending state is written except the failing ones, which are pending again; a path of the protocol |
| `StatePersister.Persister.FlushCurrent` | internal/app/app.go:403-426 | missing groups are dropped, failed writes are kept for later; a path of the protocol |
| `StatePersister.Persister.Shutdown` | internal/app/app.go:324-336 | closing, the final drain and flush as a path of the protocol; nothing is left behind when all writes succeed |
| `HealPlanner.Validate` | internal/group/healer.go:32-53 | accepts exactly sizes in range and the eight ordered lists of known actions |
| `HealPlanner.PlanHealing` | internal/group/healer.go:99-198 | exactly when each refusal happens, and otherwise the plan function on the candidates in ID order |
| `HealPlanner.PlanIsOptimal` | internal/group/healer.go:119-172 | the selection is permitted and no permitted selection holds more healthy candidates |
| `PlanContents.PromotionIsTheDifference` | internal/group/healer.go:152-172 | a plan promotes, once and first of all, whenever the desired set is not the active one: it adds exactly the desired candidates that are not active and removes exactly the active ones not desired, each list in order |
| `PlanContents.NoDifferenceNoPromotion` | internal/group/healer.go:171-173 | and promotes nobody when the two sets are equal |
| `PlanContents.AddedAreProven` | internal/group/healer.go:136-146 | nobody joins unproven, nor while the proven active candidates are enough |
| `PlanContents.LowestAreChosen` | internal/group/healer.go:110-151 | among equals the lowest IDs are chosen |
| `PlanContents.FiguresCount` | internal/group/healer.go:130-170 | healthy counts the proven active candidates, projected the proven desired ones, the deficit is what they lack to the minimum |
| `PlanContents.RequestsFollowShortage` | internal/group/healer.go:174-198 | exactly in a shortage: a probe of exactly the evicted candidates that may be tried again, a refresh of exactly the known subscriptions, and an alert with the two numbers at the end |
| `HealPlanner.PlanPartitions` | internal/group/healer.go:152-169 | desired and standby are increasing, partition the candidates, respect the target, and the projection is the reachable maximum |
| `HealPlanner.SelectionIsFixed` | internal/group/healer.go:124-151 | replanning with the selection in force selects it again |
| `HealPlanner.PlanIsFixed` | internal/group/healer.go:99-198 | replanning gives the same desired nodes and projection and promotes nobody |
| `HealPlanner.SufficientPoolStays` | internal/group/healer.go:136-151 | a pool that is healthy enough and within its target is left alone |
| `HealPlanner.OrderDoesNotMatter` | internal/group/healer.go:110-111 | the order of the candidates does not matter |
| `HealPlanner.ReactivateSorted` | internal/group/healer.go:110-111 | putting a selection into force commutes with sorting, so the fixed point holds for inputs in any order |
| `HealPlanner.ReadyIff` | internal/group/healer.go:112-118 | the candidates are refused exactly when an ID is not positive or occurs twice |
| `HealPlanner.UniquePositiveSorts` | internal/group/healer.go:200-209 | the result is strictly increasing and holds exactly the positive IDs |
| `HealPlanner.CapacitySelection` | internal/group/healer.go:214-233 | the loops compute the slot function |
| `HealPlanner.SlotsNeverAdmit` | internal/group/healer.go:211-233 | an existing selection never admits a new node and leaves no qualifying one out below the target |
| `HealPlanner.LowestSlotsStay` | internal/group/healer.go:211-233 | when the target cuts a selection short the lowest IDs keep their slots |
| `HealPlanner.SlotsWithoutChoice` | internal/group/healer.go:211-233 | without a target every candidate is active; a first selection takes the lowest IDs |
| `HealPlanner.SlotsIdempotent` | internal/group/healer.go:211-233 | selecting again from a selection changes nothing |
| `HealPlanner.SlotsKeepHealing` | internal/group/healer.go:211-233 | a healing selection given as a list survives normal reconciliation |
| `HealPlanner.NilSelectionStartsAfreshIff` | internal/group/healer.go:211-221 | no selection starts afresh and an empty one stays empty: passed on as none, a selection would survive exactly when it is not empty or nothing can be selected; the copy the caller makes (internal/boxmgr/manager.go, lines 1465-1468) keeps that case out |
| `CapacitySlots.NormalRunsOnlyLose` | internal/outbound/pool/pool.go:988-995 | over any run of normal updates the active set never gains a node, and a lost slot stays lost |
| `CapacitySlots.SelectsAfresh` | internal/outbound/pool/pool.go:988-995 | when execution was off or is now, or no selection was ever made, an update selects afresh, everybody without a target and else the lowest IDs |
| `CapacitySlots.SlotsLeftIff` | internal/outbound/pool/pool.go:988-995 | the slots left after such a run are exactly those whose node was a candidate every time, while the target covers the selection |
| `CapacitySlots.OnlyHealingAdmits` | internal/outbound/pool/pool.go:988-995 | a node joins only through an update that brings a selection naming it |
| `CapacitySlots.HealingStays` | internal/boxmgr/manager.go:1461-1469 | after a healing update and any run of normal ones the active set is exactly the plan, an empty plan included |
| `HealCoordinator.EachWindowIsBudgeted` | internal/group/healer_coordinator.go:63-69 | each window carries out at most 20 probes and 2 refreshes |
| `HealCoordinator.AnyMinuteIsBudgeted` | internal/group/healer_coordinator.go:187-206 | any stretch of up to a minute holds at most 40 probe and 4 refresh starts |
| `HealCoordinator.RunsKeepTheirDistance` | internal/group/healer_coordinator.go:207-233 | runs of one key keep the base delay, the backoff of their failures and any deferral, with hourly forgetting or not, each right after its successful planned audit |
| `HealTiming.BackoffInSeconds` | internal/group/healer_coordinator.go:209-232 | the delay after each failure in a row: 60, 120, 240, 480, then 960 seconds for a probe, 10 to 160 for a promotion, 300, 600, then 1800 for a refresh |
| `HealTiming.RunsWait` | internal/group/healer_coordinator.go:181-187 | two runs of one key are apart by those seconds, and by any deferral |
| `HealTiming.WaitsIff` | internal/group/healer_coordinator.go:181-187 | a key waits exactly while one of its runs is not over for so long |
| `HealTiming.RunsIff` | internal/group/healer_coordinator.go:177-206 | an audited action runs if and only if every run of its key is over for so long and the window has had fewer than 20 probes or 2 refreshes; otherwise it is put off |
| `HealTiming.WindowBeginsIff` | internal/group/healer_coordinator.go:67-69 | a tick begins a new budget window if and only if none began in the last minute |
| `HealTiming.ForgottenAfterAnHour` | internal/group/healer_coordinator.go:70-74 | a tick forgets a key exactly when more than an hour has passed since it was due |
| `HealCoordinator.FailuresInARow` | internal/group/healer_coordinator.go:70-74 | the failures a run knows are those the run before it left, unless more than an hour had passed since it was due; then the count restarts |
| `Healer.FallbackCountsActiveHealth` | internal/group/healer_coordinator.go:132-142 | fallback actions are asked for exactly when the active healthy members are too few, whatever a promotion might add |
| `HealerOutcomes.PromotionAskedIff` | internal/group/healer_coordinator.go:145-149 | a promotion is asked for exactly while the active candidates are not those that should be |
| `HealerOutcomes.ProbeAskedIff` | internal/group/healer_coordinator.go:132-156 | a probe is asked for exactly of the evicted candidates that may be tried again, while the proven active candidates are too few, whoever stands by |
| `HealerOutcomes.RefreshAskedIff` | internal/group/healer_coordinator.go:132-162 | a refresh is asked for exactly of the known subscriptions, while the proven active candidates are too few |
| `HealerOutcomes.AskedIsSeenTo` | internal/group/healer_coordinator.go:141-166 | a stage that is done has run, put off or announced every key that its plan asks for |
| `Healer.Coordinator.BeginTick` | internal/group/healer_coordinator.go:63-74 | the window reset and the forgetting loop |
| `Healer.Coordinator.Perform` | internal/group/healer_coordinator.go:177-239 | refusal, audit, budget, action and backoff, keeping the invariant |
| `Healer.Coordinator.RunGroup` | internal/group/healer_coordinator.go:109-175 | promotions, probes, promotions once more and refreshes come in this order; each stage that can be planned deals with everything its fresh plan asks for, nothing else runs, and a dry run runs nothing |
| `NodeRegistry.Registry.Register` | internal/monitor/node_registry.go:110-137 | an existing entry keeps its object and history, a new tag gets a new entry, both indexes change together, other entries do not change |
| `NodeRegistry.Registry.Migrate` | internal/monitor/node_registry.go:139-205 | the entry of the new tag, or the moved entry, or a new one, with both indexes as stated; a moved entry of the same endpoint keeps its counters and loses its evidence, another endpoint inherits nothing |
| `NodeRegistry.Registry.Unregister` | internal/monitor/node_registry.go:207-222 | the tag and the node ID that led to the same entry lead nowhere |
| `NodeRegistry.Registry.SweepStale` | internal/monitor/node_registry.go:85-101 | exactly the entries seen since the reload began stay, in both indexes |
| `NodeRegistry.Registry.ByNodeId` | internal/monitor/node_registry.go:70-77 | a found entry has the node ID and is the entry of its own tag |
| `NodeRegistry.DropOne` | internal/monitor/node_registry.go:85-101 | under its own tag and ID an entry is the only thing to remove from the indexes |
| `SessionGate.NextKeepsInv` | internal/controlplane/auth.go:257-415 | every store call and lock region of every request keeps the invariant |
| `SessionGate.NoResurrection` | internal/controlplane/auth.go:291-351 | after a successful revocation the token stays out of cache and store and no later validation says yes |
| `SessionGate.WithoutTheGateASessionReturns` | internal/controlplane/auth.go:92-94 | without the gate a refill under way brings a revoked session back |
| `SessionGate.RevokedDuringCreationReturns` | internal/controlplane/auth.go:257-287 | a token revoked while its creation is under way would be cached afterwards |
| `SessionGate.Auth.Validate` | internal/controlplane/auth.go:291-329 | yes exactly for live sessions when the store can be asked, dropping expired ones; a complete path of the protocol |
| `SessionGate.Auth.RevokeSession` | internal/controlplane/auth.go:333-351 | success removes both copies, failure leaves both; a complete path of the protocol |
| `SessionGate.Auth.CreateSession` | internal/controlplane/auth.go:257-287 | the cache stays within its cap and only an oldest session makes room; a complete path of the protocol |
| `SessionGate.Auth.CleanupExpired` | internal/controlplane/auth.go:400-415 | exactly the expired sessions go |
| `SessionGate.FindOldest` | internal/controlplane/auth.go:379-389 | finds a session created no later than any other |
| `PortAllocation.Config.NormalizeWithPortMap` | internal/config/config.go:701-779 | each refusal exactly when due, naming the first node without a URI, and otherwise the normalised nodes |
| `PortAllocation.Config.BuildPortMap` | internal/config/config.go:689-697 | every node with a port, later ones replacing earlier ones |
| `PortAllocation.PortsAreSound` | internal/config/config.go:710-767 | kept ports stay; a new port is in range, available, clear of listener, kept and other new ports, and the smallest that would do |
| `PortAllocation.NodesKeepTheirOwn` | internal/config/config.go:739-776 | the rest of a node: the port in the map comes before its own, group credentials fill in where it names no user, key and URI stay |
| `PortAllocation.AllDistinctIff` | internal/config/config.go:739-749 | all ports are distinct exactly when the map and the nodes bring none twice |
| `PortAllocation.FailureMeansNoneLeft` | internal/config/config.go:757-762 | failure means every port from the base up is taken, unavailable or given to a new node, and too few are left |
| `PortAllocation.PortsSurviveReload` | internal/config/config.go:689-748 | normalising again with the port map of the result gives the same ports |
| `PortAllocation.NextUnreservedPort` | internal/boxmgr/manager.go:2293-2309 | the wrap-around scan returns a free port whenever 1..65535 has one, the first from the base |
| `ReloadRebase.Config.Rebase` | internal/boxmgr/reload_rebase.go:23-64 | the loop computes the merged nodes and the count |
| `ReloadRebase.NewNodesInOrder` | internal/boxmgr/reload_rebase.go:33-62 | the new nodes come first in order and take the runtime facts exactly when they moved |
| `ReloadRebase.MovedFactsWin` | internal/boxmgr/reload_rebase.go:50-61 | region, country and tags of a node are those of the runtime whenever one of them moved in the window |
| `ReloadRebase.OtherwiseUnmoved` | internal/boxmgr/reload_rebase.go:50-61 | and those of the reload when none did |
| `ReloadRebase.RebasedKeys` | internal/boxmgr/reload_rebase.go:42-54 | the reload nodes and those created in the window are committed; removals stay removed |
| `ReloadRebase.CreatedNodesAre` | internal/boxmgr/reload_rebase.go:42-49 | exactly the runtime nodes new to both other configurations are appended, as they are |
| `ReloadRebase.RebaseIsIdempotent` | internal/boxmgr/reload_rebase.go:23-64 | a second application changes nothing |
| `ReloadRebase.CountIsExact` | internal/boxmgr/reload_rebase.go:37-63 | the count is the created nodes plus the nodes whose facts moved |
| `ReloadRebase.NothingMovedNothingChanges` | internal/boxmgr/reload_rebase.go:50-61 | without changes in the window nothing changes and the count is zero |
| `ReloadRebase.NodeFactsDiffer` | internal/boxmgr/reload_rebase.go:66-76 | compares region, country and tags one by one |
| `MembershipQueue.NothingForgotten` | internal/app/membership_queue.go:32-94 | until shutdown an accepted node waits, pending or in hand, until an apply that started after it was asked for has succeeded |
| `MembershipQueue.EnqueuedIsSeenTo` | internal/app/membership_queue.go:32-94 | from the caller: a positive ID enqueued before shutdown is from then on waiting, or served by an apply that started after |
| `MembershipQueue.NothingBeginsAfterShutdown` | internal/app/membership_queue.go:49-72 | once the queue is closing no apply begins, but for the set a worker past its check is about to take |
| `MembershipQueue.QuietMeansServed` | internal/app/membership_queue.go:54-72 | when the worker sleeps without a token everything accepted has been served |
| `MembershipQueue.StoppedForgetsIff` | internal/app/membership_queue.go:49-94 | over all runs: once the worker has stopped an accepted node is unserved and not pending if and only if its batch failed while the queue was closing and it had not been asked for again |
| `MembershipQueue.Queue.Enqueue` | internal/app/membership_queue.go:32-47 | positive IDs become dirty and a token is sent, unless closing |
| `MembershipQueue.Queue.Take` | internal/app/membership_queue.go:63-73 | the whole set is taken, in increasing order, and none stays behind |

## Left out

- GroupRuntime.Groups.SetCurrentTag: does not model the throttled announcement of current-member changes, because it carries no member state.
- GroupRuntime.Groups.CurrentTag: does not model the announcement that the current member was dropped, for the same reason.
- GroupRuntime.Groups.RecordFailure: each operation is one step over all groups; of the interleavings between the locks of two groups only an eviction against a recovery of the same node is modelled (`GroupInterleaving`).
- GroupRuntime.Groups.Register: members with node ID 0 and several tags for one node in one group are excluded, because the code treats both as best effort.
- Failure histories are arrays compacted in place in `FailureWindow.History` only; in `GroupRuntime` they are sequences with the same function, and the ring is a sequence.
- `groupRuntimeSnapshots`, `ActivateMember` and the state-change subscriber list: views and plumbing.
- HealthDeliverySafety.DeliveredInOrder: pruning is assumed to remove only rows at or below the consumer's persisted cursor; a consumer that is not registered can lose rows to age-based pruning.
- HealthDeliverySafety.StoredMatchesCursor: rows of groups or nodes deleted meanwhile are dropped by the store; the model has no deletions, and no other writer of the same rows (`MemberRestart.ReplayedFailuresCountOnceIff` says what a row stored ahead of the cursor costs).
- HealthDelivery: the path without a store, the delivery counters and the gap counter; two overlapping registrations of one consumer.
- ReplaySafety.ResumedConsumerCountsOnce: covers a member between two reconciliations, because a reconciliation drops the ring (`GroupReconciliation.RebuiltAppliesReplayIff`), and a fixed topology lookup.
- Retirement: the runtime generation is fixed, building an outbound is one outcome, and a removal that panics is taken to have removed the outbound; draining itself is a free choice of when the last section runs.
- RetirementSlot.Slot.FinishRetirement: the waiting loops before the last section are steps of the protocol (`GiveUp`), not a loop.
- StatePersister: writes are one step each; the worker and the final drain never overlap because shutdown waits for the worker, so the drain lock is not modelled.
- HealPlanner.PlanHealing: reason texts of actions and which of two bad candidates is named; sorting is a function with the library's contract.
- Healer.Coordinator.RunGroup: audit entries of dry runs and the final capacity alert are not in the log; answers of the backend come from a function of their position in time order.
- HealCoordinator: the rotation of the first group of a tick.
- NodeRegistry.Registry.Register: locks of entries, debug callbacks and the statistics views; endpoint identity is a function parameter.
- SessionGate: password checks, the login limiter, API keys, and replacing the store while requests run.
- PortAllocation.Config.NormalizeWithPortMap: trimming, names from URI fragments and the other defaults; availability of a port is a fixed predicate during one call.
- CapacitySlots: preparing and committing an update are one step, and an update that fails leaves the selection as it was.
- ReloadRebase.Config.Rebase: configurations that are nil, and nodes with equal keys.
- MembershipQueue: the retry delay is a free choice; what the apply does with a batch.
- `Manager.reload`, base-box lifecycle, landing detection, subscriptions, parsers, HTTP handlers, diagnostics, GeoIP and the frontend: I/O around the core or work of libraries.
