# Verification of SHIFT's checkpoint transactions

SHIFT checkpoints a running workload and restores, clones, forks or replicates it, and promises that a
failed move never destroys the source. This project models the crash-recoverable transactions and the
two-party protocols behind that promise, and the algorithms they rest on, and proves what they keep over
every input, every fault and every interleaving.

How faults are modelled: an effectful step asks a parameter whether it works, fails, or is where the agent
dies. A crash at a step falls before that step's effect. Durable records, in-memory copies and disk contents
are separate state. A block the source runs under a lock is one atomic step; what runs between locks
interleaves with everything. Object methods that update fields are methods of classes, proved equal to
functions on values; theorems over whole runs are lemmas about those functions.

| file | what it models |
|---|---|
| Restore.dfy | Prepare, Commit, rollback and Recover of one restore, over target, backup and failed trees |
| RestoreGuard.dfy | the per-root guard and its ownerless release |
| Standby.dfy, StandbyRuns.dfy | the standby's duty records and every interleaving of holds, death watch, fencing and failover |
| Replicate.dfy | the replication pass, composed with the standbys it pushes to |
| CloneSet.dfy | the clone pool in every interleaving, and commit, rollback and recovery of clone sets |
| UploadPool.dfy | the chunk upload workers in every interleaving |
| Live.dfy | live pre-copy sessions and the checkpoint guard |
| ImageChain.dfy | the parent walk and the pass assets a restore accepts |
| Repository.dfy | the manifest file and index writes of Save and Delete |
| Multipart.dfy | the resumable multipart writer |
| Paths.dfy | lexical paths, fork and clone roots, rebasing |
| EditDistance.dfy | the two-row Levenshtein distance and the command suggestion |

## Findings

Some promises hold only under a condition. Each is stated as an if-and-only-if with the failing case beside it.

- A rollback entered from a persisted ROLLING_BACK treats the filesystem as switched. If it died before any
  rename, the next one moves the untouched original aside and deletes it (`Restore.ReentryIff`,
  `Restore.ReentryLosesUntouchedRoot`).
- A rollback whose Lstat of the backup fails for any reason takes it that there is none. It then writes
  ROLLED_BACK with the original still under its backup name, where no later start looks for it
  (`Restore.UnseenBackupStaysAside`, `Restore.Transaction.PrepareThenRecover`).
- A rollback that renames the backup back and stops before ROLLED_BACK is written makes the next one delete the
  original; with the original aside, that and an unseen backup are the only ways to end without it
  (`Restore.Transaction.Restarts`).
- Commit removes the backup before it writes COMMITTED, so a rollback after that point has nothing to give
  back (`Restore.CommitWindowIff`).
- A failed Prepare releases the root guard twice, which can release another transaction's claim
  (`RestoreGuard.ExclusiveIff`, `RestoreGuard.DoubleReleaseAdmitsTwo`).
- Three steps strand a duty, and nothing else does (`Replicate.NoOrphanIff`): a withdrawal answered although the
  standby could not remove the duty; a first hold whose ledger writes both fail; and a hold that goes on after its call,
  or an earlier attempt of it, gave up, and lands where no ledger entry names its standby: the entry was withdrawn
  meanwhile (`Replicate.LateHoldOrphans`), or no ledger write ever landed.
- Such a late hold may also put an older checkpoint back after a newer one was pushed, so that a failover restores
  something else than the ledger says; `Replicate.CurrentIff` names every step that does.
- A hold confirmed HELD need not be a stored duty: the duty was unreadable, already failed over, or neither
  it nor the degraded session could be written (`Standby.ConfirmedHoldIff`, `Replicate.OverclaimNeeds`).
- A pause whose signal was delivered while its record write failed leaves the workload frozen after a failed
  Finalize with its recorded status unchanged (`Live.LiveSession.Finalize`).
- The final dump leaves the process stopped, and only a workload recorded as running is resumed. One that executes
  without being recorded so is left stopped by any Finalize whose dump works, also by a success asked to leave it running;
  a deferred resume that was not recorded leads there (`Live.StaleStatusStops`).
- An index write that reports an error but survives in the journal leaves an index entry without a manifest
  (`Repository.MatchedIff`, `Repository.GhostEntryDangles`).
- A member root that appears on disk before its worker gets there makes the member fail, and the rollback removes
  that tree although the clone did not make it (`CloneSet.Cloner.Clone`).
- A workload whose registration was not recorded before a crash, or whose delete fails, outlives the rollback of its clone
  set; no other registered workload of such a set does (`CloneSet.Cloner.Recover`).

## Model

| member | source | states |
|---|---|---|
| Restore.UndoRestores | internal/checkpoint/restore.go:780-841 | One completed rollback that can stat the backup gives the target back as it was, present or absent, from each shape an interrupted Prepare can leave: nothing moved, original aside, fresh target. |
| Restore.ReentryIff | internal/checkpoint/restore.go:785-841 | Entered on any record that tracks the disk, a rollback gives an originally present root back if and only if it finds the backup by its Lstat, or the record is PREPARING and the target still is the original. |
| Restore.ReentryLosesUntouchedRoot | internal/checkpoint/restore.go:812-841 | The failing family: the same untouched disk is kept from a PREPARING record and lost from a ROLLING_BACK one. |
| Restore.UnseenBackupStaysAside | internal/checkpoint/restore.go:808-841 | The failing inputs of the Lstat: from PREPARING nothing comes back, from FILESYSTEM_SWITCHED the restored tree goes too, and the original stays under its backup name. |
| Restore.FateIff | internal/checkpoint/restore.go:686-692 | From a switched record the original is still aside after any interrupted starts if and only if none of them renamed it back without recording it. |
| Restore.UntouchedFate | internal/checkpoint/restore.go:686-692 | From an untouched root under PREPARING, it is safe exactly as long as no start manages to write ROLLING_BACK. |
| Restore.DoomedFate | internal/checkpoint/restore.go:812-841 | A switched record without its backup never becomes anything else. |
| Restore.CommitWindowIff | internal/checkpoint/restore.go:631-651 | For every point at which Commit can stop, a rollback that can stat the backup still gives the original back if and only if the backup has not been touched. |
| Restore.Transaction.constructor | internal/checkpoint/restore.go:256-265 | A fresh session has no backup and no failed tree, and the invariant holds. |
| Restore.Transaction.Materialize | internal/checkpoint/archive.go:215-253 | How it ends, exactly: the rename, or across devices the copy and its clean-up; and what a failure leaves at the target, nothing unless a copy could not be removed. |
| Restore.Transaction.Switch | internal/checkpoint/restore.go:309-358 | Whatever step fails or crashes, the persisted and the in-memory record each still describe a disk one rollback can undo; exactly how it ends; and a failure on one device puts the original back when that rename works. |
| Restore.Transaction.StartSteps | internal/checkpoint/restore.go:359-498 | From the switch to VALIDATED the record stays undoable at every step; which record is on disk at each stop; VALIDATED exactly when every step works, dead exactly when the first that does not is a crash. |
| Restore.Transaction.PrepareSteps | internal/checkpoint/restore.go:260-498 | All steps of Prepare keep the invariant; the first step that does not work decides between refusal, a record for the rollback and a crash; success is VALIDATED with the restored tree in place and the original in the backup. |
| Restore.Transaction.SwitchBack | internal/checkpoint/restore.go:816-841 | The restored tree goes aside and the backup comes back, exactly when nothing stops it; stopped anywhere, the backup is untouched, and what became of the tree moved aside. |
| Restore.Transaction.DropFailed | internal/checkpoint/restore.go:830-835 | The deferred removal touches only the tree that was moved aside. |
| Restore.Transaction.RollbackSteps | internal/checkpoint/restore.go:780-884 | Exactly what each stopping point leaves on disk and in the persisted record, and exactly when nothing stops it. |
| Restore.Transaction.Rollback | internal/checkpoint/restore.go:780-884 | Completes exactly when nothing stops it; a root that could be given back is never lost wherever it stops; with ROLLING_BACK on disk a later one can give it back exactly when the backup was there and this one had not renamed it or had not seen it; what becomes of the tree moved aside. |
| Restore.Transaction.Prepare | internal/checkpoint/restore.go:139-498 | A failed Prepare is rolled back: that completes exactly when nothing stops it and otherwise stops where something does, with the record that leaves. The original tree survives every fault, and the completed rollback restores the target if and only if it was re-entrant, which it is whenever it could stat the backup. |
| Restore.Transaction.Commit | internal/checkpoint/restore.go:614-657 | Refused unless VALIDATED or COMMITTED, idempotent on COMMITTED, and what each stop leaves. |
| Restore.Transaction.Recover | internal/checkpoint/restore.go:686-712 | Succeeds exactly when nothing stops the rollback or the Commit it calls for; then it ends ROLLED_BACK with the root as it was if and only if the rollback was re-entrant, the Lstat of the backup included, or completes a validated restore whose process survived. |
| Restore.Transaction.PrepareThenRecover | internal/checkpoint/restore.go:260-371 | The crash theorem: stopped by a fault or a crash between any two steps, the one rollback that follows completes exactly when nothing stops it, and then leaves the target exactly as before if and only if it was re-entrant on what it found, always when it could stat the backup. |
| Restore.Transaction.Restarts | internal/checkpoint/restore.go:686-692 | Over any number of starts under any faults, from any unfinished record: when ROLLED_BACK is reached an originally present root is as it was exactly when the original was aside and the last start saw it, or in place under PREPARING; from a switched record, an untouched root and a lost backup stated on the interruption points alone. |
| Restore.Transaction.OneStart | internal/checkpoint/restore.go:686-692 | One start, seen from where the original is: what a finished one leaves, and where an interrupted one leaves it. |
| Restore.RecoverAll | internal/checkpoint/restore.go:686-712 | Over all stored records, stopping exactly at the first whose recovery something stops: those before it are finished, each root as it was if and only if its rollback was re-entrant; those after it are untouched; no root that could be given back is lost. |
| RestoreGuard.StepExclusiveIff | internal/checkpoint/restore.go:121-137 | A step keeps one transaction per root if and only if it is not a release of a root another transaction holds. |
| RestoreGuard.ExclusiveIff | internal/checkpoint/restore.go:121-137 | In every run the guard excludes a second transaction at every point if and only if only owners release. |
| RestoreGuard.DoubleReleaseAdmitsTwo | internal/checkpoint/restore.go:211-217 | The second release of a failed Prepare lets two later transactions run over one root. |
| RestoreGuard.Guard.BeginRestore | internal/checkpoint/restore.go:121-129 | Refused exactly when the root is claimed, and otherwise the run model's Begin. |
| RestoreGuard.Guard.EndRestore | internal/checkpoint/restore.go:133-137 | The run model's End, whoever calls it. |
| Standby.ConfirmedHoldIff | internal/agent/standby.go:210-279 | When the session still reads HELD, the standby stores a duty naming the checkpoint if and only if the duty was readable, not failed over and written, or was already there. |
| Standby.ConfirmedHoldIsStored | internal/agent/standby.go:210-279 | With a readable armed duty and a working degrade write, a confirmed hold is a stored armed duty naming that checkpoint. |
| Standby.TwoSignals | internal/agent/standby.go:370-492 | An observation is dead exactly with both signals, contrary exactly with a sign of life, and inconclusive exactly when there is no record, no address to probe, or the probe could not run; gone is announced offline or unheard of for more than ninety seconds. |
| Standby.StandbySupervisor.constructor | internal/agent/standby.go:150-164 | A supervisor opens on the stored duties with no death samples and no claim. |
| Standby.StandbySupervisor.ReplicationHeld | internal/agent/standby.go:210-279 | Which holds count, what a counted one writes on the duty and what it leaves there; the session is degraded exactly when the duty could not be written and the degrade could; no other duty is touched. |
| Standby.StandbySupervisor.ReplicationWithdrawn | internal/agent/standby.go:285-311 | The duty and its samples go exactly when the recorded source asks for an armed duty that can be read and deleted. |
| Standby.StandbySupervisor.RecordDeathSample | internal/agent/standby.go:448-455 | Counts up to the target and reports whether it is reached. |
| Standby.StandbySupervisor.ConsiderDeath | internal/agent/standby.go:370-405 | The two-signal rule: sustained only with both signals for the third time, cleared by any sign of life, otherwise untouched; other workloads keep their counts. |
| Standby.StandbySupervisor.UpdateDutyLocked | internal/agent/standby.go:189-201 | The mutation is applied to the freshly read record and written, or nothing changes. |
| Standby.StandbySupervisor.RecordFencingEvidence | internal/agent/standby.go:468-480 | Epoch, token and result go onto the freshly read record, each in its field, and nothing else changes. |
| Standby.StandbySupervisor.RecordAttemptFailure | internal/agent/standby.go:772-786 | The cause and a retry a minute on go onto a duty that is still armed, and nothing else changes. |
| Standby.StandbySupervisor.MarkFailedOver | internal/agent/standby.go:742-763 | When, from which restore and why go onto a duty that is still armed, the last failure cleared; it succeeds exactly when that was written or the duty was failed over already. |
| Standby.StandbySupervisor.BeginFailover | internal/agent/standby.go:691-712 | Claims the wanted checkpoint, else the one the duty names; each refusal exactly for its own reason. |
| Standby.StandbySupervisor.Failover | internal/agent/standby.go:633-719 | Claims are as before on every path; a restore starts only on a claim, of the wanted checkpoint or else the one the duty names; the duty is marked exactly when that was restored or the workload already ran here; success exactly when it was marked, or had been before. |
| StandbyRuns.StepKeepsHistory | internal/agent/standby.go:189-311 | No locked block deletes a failed-over duty or changes its failover time, restore id or reason. |
| StandbyRuns.FailedOverIsForever | internal/agent/standby.go:189-311 | In every interleaving, restarts included, a failed-over duty stays and its history never changes. |
| StandbyRuns.DutyStep | internal/agent/standby.go:210-260 | Only a stored hold changes which checkpoint a duty names. |
| StandbyRuns.DutyNamesLastHold | internal/agent/standby.go:210-260 | In every interleaving a stored duty names the checkpoint of the last hold that was persisted. |
| StandbyRuns.StepMovesClaims | internal/agent/standby.go:633-719 | What one step may do to the claims on a workload. |
| StandbyRuns.ClaimsStep | internal/agent/standby.go:633-719 | Every step keeps the running set exactly the workloads some actor holds, one actor each, on a duty not yet failed over. |
| StandbyRuns.ClaimsAlways | internal/agent/standby.go:633-719 | The claim invariant after every run. |
| StandbyRuns.SingleRestore | internal/agent/standby.go:691-719 | At most one restore of a workload is active in any interleaving of automatic passes and operator triggers. |
| StandbyRuns.NoRestoreAfterFailover | internal/agent/standby.go:633-719 | Once the failed-over state is persisted, no later restore of that workload starts. |
| StandbyRuns.SamplesStep | internal/agent/standby.go:370-463 | What one step does to the counter of one workload: a sign of life, a withdrawal or a restart resets it, both signals count, all else leaves it. |
| StandbyRuns.CounterRefinesTrace | internal/agent/standby.go:370-463 | The counter is min(3, observations with both signals of death since the last sign of life, withdrawal or restart). |
| StandbyRuns.WalkBack | internal/agent/standby.go:370-442 | Wherever an actor stands, it entered that position by the one event that leads there and has not left it since. |
| StandbyRuns.EntersSustained | internal/agent/standby.go:370-405 | The step that makes a death sustained is a counted observation, at least the third since the last reset. |
| StandbyRuns.AutomaticFailoverIsJustified | internal/agent/standby.go:370-442 | Every automatic failover of a workload was preceded, within one unbroken pass of one actor over that workload, by its third sustained death observation, then its ownership, then a positive fence, then the fence persisted. |
| StandbyRuns.RestoreIsJustified | internal/agent/standby.go:370-442 | Every restore that runs was claimed by an operator's trigger of that workload or by a pass that had owned and fenced that very workload. |
| StandbyRuns.FailoverIsEarned | internal/agent/standby.go:742-763 | A workload is marked failed over only by an actor that restored it, or found it running here, and has not left it since. |
| StandbyRuns.EvidenceIsKept | internal/agent/standby.go:412-426 | The evidence of a fence is on the duty whichever way the attempt ends, and only a positive one goes on. |
| Replicate.WithdrawStrandsIff | internal/agent/replicate.go:144-174 | A withdrawal orphans a duty if and only if it was answered and recorded while the standby kept the duty. |
| Replicate.PushStrandsIff | internal/agent/replicate.go:181-339 | A push orphans a duty if and only if a first hold landed during its call and neither ledger write did; a hold that is still at work orphans nothing yet. |
| Replicate.LateStrandsIff | internal/transfer/server.go:690-760 | A hold that lands after its call gave up orphans a duty if and only if no ledger entry names its standby then. |
| Replicate.LateHoldOrphans | internal/agent/replicate.go:144-174 | The failing run: the hold gives up and is noted, the policy goes, the withdrawal finds no duty and is answered, the hold lands. |
| Replicate.StrandsIff | internal/agent/replicate.go:144-339 | One step keeps every duty at the standby its ledger entry names if and only if it strands none. |
| Replicate.NoOrphanIff | internal/agent/replicate.go:132-245 | Over any history of policy edits, failed pushes, failed withdrawals and holds landing late, no duty is ever orphaned if and only if no step strands one. |
| Replicate.OneStandby | internal/agent/replicate.go:181-245 | Without orphans at most one standby holds a duty for a workload. |
| Replicate.OverclaimsIff | internal/agent/replicate.go:252-374 | A step keeps the ledger backed by stored duties if and only if it does not record a push that stored nothing. |
| Replicate.OverclaimNeeds | internal/agent/replicate.go:363-374 | Overclaiming takes an unreadable duty, a failed-over duty, or two failed writes on the standby. |
| Replicate.LedgerIsBacked | internal/agent/replicate.go:252-374 | The two-party claim over whole histories: with healthy standbys every checkpoint the ledger says was pushed had been durably stored as a duty there. |
| Replicate.DivergesIff | internal/agent/replicate.go:252-374 | One step keeps the standby's duty on the checkpoint the ledger names if and only if it does not withdraw behind the entry, hold without recording, record without holding, land an older hold late, or change on the standby's own account. |
| Replicate.CurrentIff | internal/agent/replicate.go:252-374 | Over any history a failover would restore what the ledger says at every point, if and only if no step diverges. |
| Replicate.WithdrawalSkipped | internal/agent/replicate.go:144-155 | A withdrawal is left alone without an entry, while the workload cannot be read or still asks for that standby, or before a retry is due. |
| Replicate.WithdrawalMade | internal/agent/replicate.go:144-174 | A workload that is gone, or asks for no standby or another: answered, the entry is struck, and the duty if the standby can delete it; else the failure is noted. |
| Replicate.PushSkipped | internal/agent/replicate.go:181-213 | Nothing happens without a policy and a root checkpoint, during a migration, while another standby is owed a withdrawal, when that checkpoint is pushed, or before a retry is due. |
| Replicate.PushHolds | internal/agent/replicate.go:252-325 | A due push whose hold is taken leaves the duty it asks for on that standby, with the pusher's address and retention; otherwise the duties stay. |
| Replicate.PushIsRecorded | internal/agent/replicate.go:214-245 | A due push is in the ledger if it was confirmed and that write worked; otherwise as failing, on the checkpoint that was there. |
| Replicate.LateHoldHolds | internal/transfer/server.go:690-760 | A hold that lands late is taken or not as one during its call would be, once, and leaves the ledger alone. |
| Replicate.OthersUntouched | internal/agent/replicate.go:144-245 | Neither a withdrawal nor a push touches another workload's entry or duty. |
| Replicate.Replicator.constructor | internal/agent/replicate.go:66-92 | A replicator opens on its stored ledger and the standbys it can reach. |
| Replicate.Replicator.WithdrawOne | internal/agent/replicate.go:144-174 | One ledger entry equals the withdrawal step; nothing happens while the workload cannot be read or still asks for that standby. |
| Replicate.Replicator.HoldAndConfirm | internal/agent/replicate.go:316-374 | The hold and its confirmation act on the standby as its own hold step does. |
| Replicate.Replicator.PushOne | internal/agent/replicate.go:181-339 | One workload equals the push step: hold, confirm, then ledger; a hold whose call gave up stays pending; nothing happens unless a push is due. |
| Replicate.Replicator.LandLate | internal/transfer/server.go:690-760 | A pending hold acts on the standby as any hold does, whenever it lands. |
| Replicate.Replicator.ReconcileWithdrawals | internal/agent/replicate.go:144-163 | The loop equals the run of its entries, with late holds landing between any two. |
| Replicate.Replicator.ReplicateDue | internal/agent/replicate.go:181-230 | The loop equals the run of its pushes, with late holds landing between any two. |
| Replicate.Replicator.Pass | internal/agent/replicate.go:132-137 | A pass equals withdrawals then pushes, and orphans nothing if it strands nothing. |
| ClonePool.CoveredAlways | internal/checkpoint/clone.go:344-378 | In every interleaving, until something fails every member taken is running or in the hands of exactly one worker. |
| ClonePool.RunningIsEarned | internal/checkpoint/clone.go:422-525 | In every interleaving a member recorded RUNNING, in memory or on disk, had its copy to a free root, its registration and the restore of its process work. |
| ClonePool.FailuresIff | internal/checkpoint/clone.go:358-378 | The pool counts a failure exactly when some stage of some member did not work. |
| ClonePool.FailsNow | internal/checkpoint/clone.go:422-525 | An event adds a failure exactly when its stage did not work. |
| ClonePool.FinishedWithoutFailure | internal/checkpoint/clone.go:358-378 | The pool finishes without a failure only if every member was copied to a free root, registered, restored and reached RUNNING. |
| ClonePool.PlanKept | internal/checkpoint/clone.go:422-525 | Members keep identity and root, and a member recorded RUNNING, in memory or on disk, has its root and workload. |
| ClonePool.GrowsByPlan | internal/checkpoint/clone.go:422-525 | The pool adds no root and no workload the plan does not name. |
| ClonePool.FlaggedAlways | internal/checkpoint/clone.go:454-458 | In every interleaving a member flagged as created, in memory or on disk, is a workload this pool registered, and every workload it registered is flagged in memory or about to be. |
| ClonePool.FinishedFlags | internal/checkpoint/clone.go:454-458 | Once no worker is left, the in-memory record flags exactly the workloads the pool registered. |
| ClonePool.RecoverableCommitIsBuilt | internal/checkpoint/clone.go:599-635 | Crashed anywhere, a set that Recover would commit is really built: roots, workloads, and every process restored. |
| CloneSet.DrivenIsSound | internal/checkpoint/clone.go:344-378 | All guarantees of the pool from a fresh plan, crashed at any point or run to the end. |
| CloneSet.DrivenFlags | internal/checkpoint/clone.go:454-458 | From a fresh plan: flagged workloads are new ones, and all new ones are flagged once the pool has finished. |
| CloneSet.IsFullyRunning | internal/checkpoint/clone.go:625-635 | True exactly with at least one member, as many as planned, all of them RUNNING. |
| CloneSet.Cloner.constructor | internal/checkpoint/clone.go:128-141 | A cloner opens on stored sets whose terminal states are true. |
| CloneSet.Cloner.Commit | internal/checkpoint/clone.go:396-417 | Up to three attempts: COMMITTED is written exactly if one works. |
| CloneSet.Cloner.UndoMember | internal/checkpoint/clone.go:557-580 | Deletes a created workload, ignoring that failure, and removes the root unless it is the source's. |
| CloneSet.Cloner.UndoMembers | internal/checkpoint/clone.go:557-580 | How far the loop gets, and exactly what is gone from the disk and the registry. |
| CloneSet.Cloner.Rollback | internal/checkpoint/clone.go:547-589 | Removes nothing but member roots and created workloads; a finished member loop has done exactly that whether or not the last write landed; completes exactly when the loop finishes and that write lands, and then the set is settled. |
| CloneSet.Cloner.RollbackTwice | internal/checkpoint/clone.go:547-620 | Run again under unrelated faults, a rollback whose member loop had finished changes no root and deletes only workloads whose delete had failed; an interrupted one is finished by the second; the source root stays. |
| CloneSet.Cloner.RunPool | internal/checkpoint/clone.go:344-378 | The pool over the stored plan leaves the record of its last successful write, and keeps every other set settled when the plan names none of its roots or workloads. |
| CloneSet.Cloner.Build | internal/checkpoint/clone.go:344-388 | From CLONING on: the outcome for every schedule and fault; nothing is taken away unless the set is undone, earlier workloads stay, and a reversed set keeps exactly the workloads whose delete failed. |
| CloneSet.Cloner.UndoBuilt | internal/checkpoint/clone.go:284-301 | The deferred rollback of a failed pool: what it takes away, and that a reversed set keeps exactly the workloads whose delete failed. |
| CloneSet.Cloner.Clone | internal/checkpoint/clone.go:284-388 | Which way a clone goes, exactly, for every fault and schedule; committed or left up means every member was copied, registered, restored and runs; reversed means no member root is left and every workload it registered is deleted unless that failed; earlier workloads, other sets' records and all but member roots stay on every path, and every earlier root if and only if no member root was among them. |
| CloneSet.Cloner.RecoverOne | internal/checkpoint/clone.go:599-620 | Succeeds exactly when the commit or rollback it calls for does; a set that need not be undone loses nothing, one that must loses its member roots and the workloads it created and no more. |
| CloneSet.Cloner.Recover | internal/checkpoint/clone.go:599-620 | After any crash: a set is a problem exactly when its own recovery meets an error; every other is COMMITTED with all members RUNNING if it was or all ran, else ROLLED_BACK; only member roots and flagged workloads of sets that had to be undone are gone, no set's source root on its own account, and without an error exactly those, except where a delete failed. |
| CloneSet.Cloner.RecoverEach | internal/checkpoint/clone.go:599-620 | The loop attempts each set once and keeps count of what is settled, stuck and gone. |
| UploadPool.TallyMove | internal/agent/replicate.go:437-455 | The counter of successes follows where each index is. |
| UploadPool.TidyStep | internal/agent/replicate.go:380-455 | Every step keeps each index in one place and every claimed success uploaded. |
| UploadPool.AccountedStep | internal/agent/replicate.go:380-455 | Unless cancelled or failing, no step loses an index or lets a worker leave early. |
| UploadPool.SoundAlways | internal/agent/replicate.go:380-455 | Both invariants after every run. |
| UploadPool.UploadedWasSent | internal/agent/replicate.go:400-412 | Nothing counts as uploaded but what an attempt got through. |
| UploadPool.ThreeAttempts | internal/agent/replicate.go:400-416 | An index is tried at most three times in vain, and given up only after the third unless the call was cancelled. |
| UploadPool.GivesUpIff | internal/agent/replicate.go:400-416 | After a failed attempt the index is given up if and only if the call was cancelled or it was the third. |
| UploadPool.NilMeansAllUploaded | internal/agent/replicate.go:380-455 | In every interleaving a nil return means an attempt at every requested chunk went through. |
| UploadPool.ExitIff | internal/agent/replicate.go:437-455 | When the results run out, the call fails if and only if its context was cancelled. |
| Live.RequireKeyVersion | internal/checkpoint/live.go:304-312 | True exactly when every chunk is under the pinned key version. |
| Live.ManifestTags | internal/checkpoint/live.go:484-485 | How a restore reads the asset names of a finalized manifest. |
| Live.FinalizedIsAccepted | internal/checkpoint/live.go:484-485 | What Finalize builds from n passes meets every condition of processImageAssets, with the passes in order. |
| Live.RestoreReadsWhatLiveWrote | internal/checkpoint/restore.go:581-612 | The consumer run on the producer's manifest returns exactly its final asset and its passes. |
| Live.Service.constructor | internal/checkpoint/live.go:93-106 | No session is open and no guard is held at the start. |
| Live.Service.BeginLive | internal/checkpoint/live.go:93-166 | Opens a session exactly when the guard is free and every step works, with the recorded status as what it was running, and releases the guard on every failure. |
| Live.LiveSession.constructor | internal/checkpoint/live.go:140-166 | A new session is open with an empty chain. |
| Live.LiveSession.Pass | internal/checkpoint/live.go:200-269 | Appends the next numbered, pinned asset exactly when all works; a failed pass is terminal; another pass is worth running exactly unless the cap is reached or a measured delta has converged, however the threshold is rounded. |
| Live.LiveSession.Close | internal/checkpoint/live.go:575-580 | Releases the guard, once. |
| Live.LiveSession.Signalled | internal/runtime/manager.go:336-363 | A signal changes what executes unless it was refused, and what is recorded only when the call succeeds. |
| Live.LiveSession.FinalSteps | internal/checkpoint/live.go:325-549 | Success exactly when every step works; what the frozen flag and the stopping dump mean for the workload at every exit. |
| Live.LiveSession.Finalize | internal/checkpoint/live.go:325-549 | Closes and releases once on every path; after a failure with a delivered resume, whether the workload executes, exactly: recorded as running, unless the pause was delivered unrecorded; not so recorded, only if it did and the dump failed; left frozen by a success exactly when that was not asked to leave a recorded one running; the manifest is the pinned chain. |
| Live.LiveSession.Abort | internal/checkpoint/live.go:556-571 | Closes and releases once, a no-op on a closed session, and the workload executes exactly if it did when the session began. |
| Live.StaleStatusStops | internal/checkpoint/live.go:366-379 | The run that leaves an executing workload stopped: a resume that was not recorded, then a Finalize asked to leave it running. |
| Numerals.ValueItoa | internal/checkpoint/restore.go:581-612 | A decimal numeral denotes the number it was written from. |
| Numerals.AtoiItoa | internal/checkpoint/restore.go:581-612 | Parsing a formatted pass number gives it back. |
| Numerals.AtoiPositiveIff | internal/checkpoint/restore.go:592-597 | Which strings are read as a positive number: an optional plus, any zeros and its decimal numeral, within 64 bits. |
| ImageChain.PassNameParses | internal/checkpoint/live.go:200-269 | The name a live pass writes is read back as that pass. |
| ImageChain.TagIff | internal/checkpoint/restore.go:587-597 | Which asset names are pass n, which are malformed, and that all others are no passes. |
| ImageChain.AssetByName | internal/checkpoint/restore.go:935-942 | The first asset of a name, or none if there is none. |
| ImageChain.IndexPasses | internal/checkpoint/restore.go:586-603 | Indexes every pass once, or reports a malformed or duplicate one, in which case no numbering is acceptable. |
| ImageChain.CollectPasses | internal/checkpoint/restore.go:604-612 | Collects 1..n in order, or names a missing number, in which case no numbering is acceptable. |
| ImageChain.ProcessImageAssets | internal/checkpoint/restore.go:581-612 | Accepts if and only if the final asset exists and the pass numbers are exactly 1..n without duplicates, and returns those assets in pass order; each refusal names something really wrong, a gap its first number. |
| ImageChain.PassOrderIsUnique | internal/checkpoint/restore.go:581-612 | The manifest determines the passes returned. |
| ImageChain.DescentsAgree | internal/checkpoint/restore.go:504-537 | Two descents from one manifest agree as far as both go. |
| ImageChain.LineageIsUnique | internal/checkpoint/restore.go:504-537 | A manifest has at most one whole lineage. |
| ImageChain.CycleBreaks | internal/checkpoint/restore.go:515-530 | A manifest whose parent is already in its chain has no lineage. |
| ImageChain.WalkParents | internal/checkpoint/restore.go:504-537 | Ends on every repository, cyclic ones included; yields a duplicate-free chain of at most 256 manifests of one workload ending without a parent, if and only if there is one. |
| ImageChain.CheckMember | internal/checkpoint/restore.go:504-537 | True exactly when the process images are accepted and intact. |
| ImageChain.ProcessChain | internal/checkpoint/restore.go:504-537 | Succeeds if and only if a whole lineage exists and every member is restorable. |
| Repository.SaveMatched | internal/checkpoint/repository.go:117-175 | A Save, crashed or failed between any two writes, keeps every index entry matched if and only if its index write does not fail yet survive. |
| Repository.DeleteMatched | internal/checkpoint/repository.go:287-302 | A Delete keeps every index entry matched at every crash point. |
| Repository.MatchedIff | internal/checkpoint/repository.go:117-302 | One call keeps every indexed checkpoint matched by a stored manifest if and only if it leaves no ghost entry. |
| Repository.GhostEntryDangles | internal/checkpoint/repository.go:171-174 | A concrete ghost entry: Save failed, yet after a restart the index names a missing manifest. |
| Repository.MatchedAlways | internal/checkpoint/repository.go:117-302 | Over any run of saves, deletes, compactions and restarts, matched at every point if and only if no save leaves a ghost entry. |
| Repository.SavedIff | internal/checkpoint/repository.go:117-175 | For every ending of its two writes, whether a first Save loads, now and after a restart. |
| Repository.DeletedIff | internal/checkpoint/repository.go:287-302 | A Delete is final after a restart exactly when the removal of its entry reached the disk. |
| Repository.OthersUntouched | internal/checkpoint/repository.go:117-302 | A call about one checkpoint touches no other's file or entry on disk. |
| Repository.LoadedStays | internal/checkpoint/repository.go:117-222 | No call but its own Delete changes what a checkpoint with its entry on disk loads as, in any repository. |
| Repository.Immutable | internal/checkpoint/repository.go:117-222 | Over any repository and any run, once a checkpoint loads and its entry is on disk, every later load returns the same manifest hash until it is deleted. |
| Repository.LoadedIsDurable | internal/checkpoint/repository.go:117-222 | In a matched repository a checkpoint that loads and has an entry on disk is one a restart loads the same. |
| Repository.DeletedLate | internal/securestore/collection.go:304-317 | A checkpoint that loads survives a restart if and only if its entry is on disk, and a Delete that failed but was journalled is how it goes missing. |
| Repository.Store.constructor | internal/checkpoint/repository.go:100-110 | A repository opens on its stored index. |
| Repository.Store.LoadManifest | internal/checkpoint/repository.go:198-222 | Loads exactly when index, envelope and manifest agree on workload, id, key version and hash, and otherwise says which is missing. |
| Repository.Store.SaveManifest | internal/checkpoint/repository.go:117-175 | Equals the save step; success means the checkpoint loads with that hash. |
| Repository.Store.DeleteManifest | internal/checkpoint/repository.go:287-302 | Equals the delete step; success means entry and file are gone. |
| Multipart.CutIsUnique | internal/checkpoint/mirror.go:180-228 | There is one way to cut bytes into full parts and a shorter last one. |
| Multipart.HoldsMore | internal/checkpoint/mirror.go:210-228 | Storing the next number leaves the parts already sent as they are. |
| Multipart.HoldsStill | internal/checkpoint/mirror.go:217-220 | A part stored by a call that failed leaves the parts already sent as they are. |
| Multipart.ReusedIsSame | internal/checkpoint/mirror.go:214-215 | A listed part of equal size and digest is the very part wanted. |
| Multipart.Upload.constructor | internal/checkpoint/mirror.go:156-167 | A new upload holds nothing. |
| Multipart.Upload.ListParts | internal/checkpoint/mirror.go:133-136 | Lists what the upload holds, with true sizes and digests. |
| Multipart.Upload.UploadPart | internal/checkpoint/mirror.go:217-220 | Stores the whole part or nothing; an error does not say which. |
| Multipart.MultipartWriter.constructor | internal/checkpoint/mirror.go:137-146 | A writer starts empty over an honest listing. |
| Multipart.MultipartWriter.FlushPart | internal/checkpoint/mirror.go:210-228 | The buffer becomes the next part; nothing is sent if and only if the listing has it; the buffer is kept on failure. |
| Multipart.MultipartWriter.TakeSome | internal/checkpoint/mirror.go:186-199 | One turn of the write loop moves a prefix of the input into buffer and parts. |
| Multipart.MultipartWriter.Write | internal/checkpoint/mirror.go:180-201 | Parts and buffer grow by exactly the bytes reported as written, and all of them on success. |
| Multipart.MultipartWriter.Close | internal/checkpoint/mirror.go:203-208 | On success the parts cut exactly what was written. |
| Multipart.PutMultipart | internal/checkpoint/mirror.go:128-154 | For any reads and any leftovers of earlier attempts, the parts handed over are numbered 1..n, none empty, all but the last exactly the part size, and concatenate to the bytes read. |
| Multipart.ResumedIsFresh | internal/checkpoint/mirror.go:128-154 | A resumed upload names the same parts with the same bytes as a fresh one. |
| FilePath.CleanIsClean | internal/checkpoint/fork.go:598-598 | Clean is idempotent on absolute paths and keeps the components. |
| FilePath.PartsOfJoined | internal/checkpoint/fork.go:691-691 | Joining a relative path under a root appends its components. |
| FilePath.NormalIsKept | internal/checkpoint/fork.go:598-598 | Cleaning keeps an ordinary component in its place. |
| FilePath.DotIsDropped | internal/checkpoint/fork.go:598-598 | "." and empty components say nothing. |
| FilePath.UpUndoes | internal/checkpoint/fork.go:598-598 | ".." undoes the component before it. |
| FilePath.UpStopsAtTop | internal/checkpoint/fork.go:598-598 | ".." at the top of the tree stays there. |
| FilePath.RelRoundTrip | internal/checkpoint/fork.go:611-611 | Joined to the base, the relative path is the cleaned target again, for all absolute paths. |
| ForkPaths.EscapesIff | internal/checkpoint/fork.go:615-615 | The string test for ".." and "../" is true exactly when the first component is "..". |
| ForkPaths.ContainsIff | internal/checkpoint/fork.go:610-616 | pathContains is component-prefix, for all absolute parents and all children. |
| ForkPaths.RebaseIff | internal/checkpoint/fork.go:679-692 | Rebasing succeeds exactly for paths inside the source root, and swaps the root's components for the other root's. |
| ForkPaths.RebaseRoundTrip | internal/checkpoint/fork.go:679-692 | Source to fork and back is the identity on cleaned paths inside the source. |
| ForkPaths.RebaseCommand | internal/checkpoint/fork.go:700-719 | Elements inside the source root are rebased, all others are unchanged; it fails only if a rebase does. |
| ForkPaths.CommandIsMoved | internal/checkpoint/fork.go:694-719 | No rebase of an inside element fails, each keeps its place under the new root, and none is left inside the source when the roots are apart. |
| ForkPaths.ForkRootIff | internal/checkpoint/fork.go:588-608 | A requested root is admitted if and only if neither root contains the other. |
| ForkPaths.AbsMeans | internal/checkpoint/fork.go:594-597 | An absolute path stands for itself, a relative one for what it names from the working directory. |
| ForkPaths.DerivedForkRootIff | internal/checkpoint/fork.go:589-608 | The derived root is admitted if and only if the source root is not "/". |
| ForkPaths.SuffixedIsApart | internal/checkpoint/fork.go:590-592 | Lengthening the last component takes a root apart from itself, unless it is "/". |
| ForkPaths.CloneRootApartIff | internal/checkpoint/clone.go:739-740 | A member root is apart from the source root if and only if that is not "/". |
| ForkPaths.CloneRootsApart | internal/checkpoint/clone.go:739-740 | Member roots of a set are pairwise distinct and not nested. |
| EditDistance.Symmetric | cmd/shift/help.go:293-314 | The distance is symmetric. |
| EditDistance.ZeroIffEqual | cmd/shift/help.go:294-296 | Zero exactly between equal texts, so the early return is right. |
| EditDistance.Triangle | cmd/shift/help.go:293-314 | The triangle inequality. |
| EditDistance.OneEdit | cmd/shift/help.go:291-314 | One insertion, deletion or substitution anywhere moves a text by at most one. |
| EditDistance.NoShorterScript | cmd/shift/help.go:291-314 | No edit script is shorter than the distance. |
| EditDistance.ShortestScript | cmd/shift/help.go:291-314 | Some edit script has exactly the distance's length. |
| EditDistance.DistIsShortest | cmd/shift/help.go:291-314 | The distance is the length of a shortest edit script. |
| EditDistance.Min3 | cmd/shift/help.go:316-324 | The least of three. |
| EditDistance.RowFollows | cmd/shift/help.go:302-311 | Each row of distances follows from the one above by the loop's recurrence. |
| EditDistance.FillRow | cmd/shift/help.go:303-310 | The inner loop computes the next row in place. |
| EditDistance.Compute | cmd/shift/help.go:293-314 | The two swapped rows yield the distance. |
| EditDistance.SuggestCommand | cmd/shift/help.go:276-289 | For any lowering of the argument, the first candidate of least distance, if below three and not empty, else none. |

## Left out

- Process dump and restore, tar extraction, cgroups, namespaces, symlink-free pinning and xattrs: foreign code, taken as steps that work or fail.
- Encryption, signing and hashing: digests are parameters, collision-free where a theorem says so.
- Health checks, network activation, lazy page serving and the frozen source tree of a restore: folded into the Validate, StartProcess and Reinstate steps.
- HTTP handlers, command-line output, timers and logs: clocks and due times are parameters.
- Concurrent Commit and Rollback of one restore, and an operator's rollback of a clone set still being built: the source does not serialize them, and the model runs them one after the other.
- Concurrent Save calls for one checkpoint id: Save takes no lock of its own, and the model runs calls one after the other.
- Journal replay and compaction inside the encrypted collection: the index is its in-memory copy and what a restart would load.
- Completing a multipart upload: assembling the named parts, its size and digest checks and its own listing when it is handed no parts belong to the object store.
- Relative base paths in filepath.Rel: every root in this code is absolute and cleaned.
- The rest of forkSpecification and cloneSpecification (names, ports, environment, lineage) and the Forker's own transaction: field copies and a smaller form of the clone set's recovery.
- uniqueChunkRefs, newestRootCheckpoint, List and the plan catalogue: they would only add easy members.
- EditDistance.SuggestCommand: strings.ToLower is a parameter, because its Unicode tables are foreign; the result is stated for every such function.
- Restore.RecoverAll: every record has its own root; two unfinished restores of one root are what the root guard is there to exclude.
- A standby's URL always reaches the same standby: `withdraw` does not check which machine answers it (internal/agent/replicate.go:166-174), and the model does not let an address move.
- Writes to an encrypted collection that report an error but survive in the journal are modelled only in Repository; the records of Restore, Standby, Replicate and CloneSet take an error as not stored.
- A source root of "/": ForkPaths.CloneRootApartIff states what the path code would do, but CheckNewRoot refuses it before Clone does any work (internal/checkpoint/policy.go:256-259, 325-328).
- Live.LiveSession.Abort: the source also thaws a frozen workload here, which no open session ever is.
- UploadPool.NilMeansAllUploaded: the workers are a step machine rather than threads; an empty list of chunks, for which the source starts no worker, is the machine with no worker.
- CloneSet.Cloner.Recover: a workload whose delete fails inside a rollback is counted as leaked, because the source ignores that error.
