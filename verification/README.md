# Proofs about the deployment control plane

This project models the control plane that deploys Windows machines on Proxmox and proves properties of it that
span many calls, whole runs, or every interleaving of its workers. It is checked with

    dafny verify --resource-limit 2000000 --verification-time-limit 0 --warn-contradictory-assumptions dfyconfig.toml

## What is modelled

* **The job queue** (`JobTable`, `JobStore`, `ClaimProtocol`, `CapLowering`, `SoloClaim`, `ReaperTiming`). Builders claim jobs from
  one table under a cap per job type. The claim is modelled twice: as one call on a store, and statement by statement,
  with the advisory lock per type, the count, the skip-locked selection and the guarded update of any number of workers
  interleaved with each other and with enqueues, heartbeats, endings, reaps, kills, cap changes and aborts.
* **The builder** (`BuilderCall`, `BuilderKill`, `BuilderLoop`). The loop around a child process, with the statements of
  others between any two of its own: `CallOf` and `TourOf` say which statements a call and a builder commit for every such
  script, `BuilderKill` what becomes of kill requests, stops, exits and lost rows, told from the log alone.
* **Phase timing** (`PhaseMerge`, `PhaseStore`, `PhaseProgress`, `JobPhases`, `Percentile`). Repeated reports folded into one row per
  phase, the sync that repeats them all, and the baselines computed from the rows.
* **The directory timeline** (`DirectoryTimeline`). Differences between probes, as events that replay.
* **Lab bubbles** (`LabBubbles`, `LabStore`, `LabRaces`). Four linked tables with cascades and an audit log, and what
  other transactions can do between a call's check and its write.
* **Credential migration** (`CredentialRefs`, `CredentialMigration`, `SequenceSteps`). The id allocator, the upsert by
  name, and the rewriting of references buried in step parameters.
* **Cloud deployments** (`CloudRun`, `CloudPlan`, `CloudRetries`, `CloudHeartbeat`, `CloudStore`, `DomainMatch`, `FreeNames`,
  `Decimal`). A run row and an engine row moved by transactions of the controller, of agents and of operators, the plan,
  how often a step is tried, the completion gate, and the search for free names.
* **Sweeps** (`JoinSweep`, `HashOutput`). Live-first selection under a limit, its accounting, and the parsing of what
  a guest printed.
* **The image cache** (`ImageCache`, `ImageStore`). Rows, files, and downloads that can break or die anywhere.
* **Agent versions** (`Versions`). The comparison of builds and what it means for an agent over time.

A specification function on values says what each call does to the state; classes carry out the calls step by step
and are proved to compute it; the main results are about the function, over runs. `Prelude` and `Text` hold shared
vocabulary. Clocks, random ids, the hash of a lock name, digests, encryption and the place a file is kept are
parameters.

## Where a plausible claim is false

Each of these has a counterexample and, beside it, the condition under which the claim holds and only then.

* A lowered cap can be exceeded (`LoweredCapCanBeExceeded`), by what already runs or by a claim that was let through under
  the old cap (`ClaimInProgressPassesLoweredCap`): `CapHoldsIff`. The largest cap so far never is.
* The run row and the engine row can disagree (`RowsCanDisagree`): `AgreementExactly` for one transaction,
  `HeartbeatAgreesIff` for a heartbeat. Where the engine is ahead with no step left, the next heartbeat mends it exactly
  when nothing needed was skipped (`NextHeartbeatSettlesIff`, `SkippedCaptureSticks`).
* A complete run can have a required step undone by a late result (`CompleteRunCanLoseAStep`): `DoneStaysIff`,
  `CompleteMeansReady`. A finished run can be reopened (`TerminalMoves`), though its first times stay.
* The replayed log can miss a container that becomes unknown (`ContainerCanBeLost`): `ContainerRightIff`.
* The check of a lab call and its write can be separated by another call (`CheckThenInsertCanBeOvertaken`):
  `InsertStaysLinkedIff`, `RewireStaysLinkedIff`, `MoveOvertakenIff`, and `DeleteNullsIff` for what follows.
* A reference to a credential that was never migrated can come to name another one (`DanglingRefCanBeCaptured`):
  `DanglingRefs`.
* Images that differ only in language, edition, architecture or activation share a file (`SharedPathBreaks`):
  `ReadyFilesMatch` needs distinct paths. A refresh can leave a ready row whose file the catalogue no longer expects
  (`RefreshCanOutdate`): `StaysAsExpected`.
* A wrapped line that looks like a marker loses part of the hash (`WrappedPaddingCanBeLost`): `ParseInvertsPrint`. The
  comment above the parser calls the reassembly lossless.
* The execution phase can start before the claim (`ExecutionCanStartBeforeClaim`): `ExecutionStart`.
* A repeated sync can move the last progress of a new row (`ProgressCanMove`): `SyncProgressTwice`.

## Model

| member | source | states |
|---|---|---|
| `JobTable.ApplyKeepsTable` | autopilot-proxmox/web/jobs_pg.py:231-303 | every statement on the jobs table keeps every row well formed (complete only with exit code 0, orphaned only without one, an end time exactly on ended rows, a claim time and worker exactly on claimed ones) and moves each row's status only upwards in pending < running < failed, orphaned < complete |
| `JobTable.PickedIsGloballyOldest` | autopilot-proxmox/web/jobs_pg.py:183-230 | the job the rule picks was created no later than any pending job of any type under its cap |
| `JobTable.PickedBeats` | autopilot-proxmox/web/jobs_pg.py:183-230 | the picked job comes strictly before every other eligible one, first by its type's oldest job, then by creation and id |
| `JobTable.ClaimRuleIsDeterministic` | autopilot-proxmox/web/jobs_pg.py:183-245 | the rule determines one job, and picks one only when some pending job's type is under its cap |
| `JobTable.RulePicksWhenItCan` | autopilot-proxmox/web/jobs_pg.py:183-245 | whenever some pending job's type is under its cap the rule picks a job |
| `JobTable.TiesAreSettledById` | autopilot-proxmox/web/jobs_pg.py:183-230 | ties: within a type the smaller id of two jobs created at once; between types whose oldest jobs were created at once, the one that holds the smaller id |
| `JobTable.ListedFirstIsPicked` | autopilot-proxmox/web/jobs_pg.py:183-230 | walking the candidate types in order and taking the oldest row of the first one under its cap picks what the global rule picks |
| `JobTable.ListExhausted` | autopilot-proxmox/web/jobs_pg.py:183-245 | when every listed type is at its cap, so is the type of every pending job |
| `JobStore.Store.Enqueue` | autopilot-proxmox/web/jobs_pg.py:135-155 | adds one pending row with the type, run and time given, all others untouched, or refuses a key that is there |
| `JobStore.Store.TouchHeartbeat` | autopilot-proxmox/web/jobs_pg.py:248-259 | sets the stamp, and only that, of the row if it is running for this worker, and returns whether it was |
| `JobStore.Store.FinalizeJob` | autopilot-proxmox/web/jobs_pg.py:262-277 | ends the row only if it is running: complete exactly for exit code 0 and failed otherwise, with that code, the given end and the kill flag cleared; returns whether it did |
| `JobStore.Store.RequestKill` | autopilot-proxmox/web/jobs_pg.py:280-286 | sets the flag of the row, whatever its status, and of no other |
| `JobStore.Store.ReapStaleRunningJobs` | autopilot-proxmox/web/jobs_pg.py:289-303 | orphans, with the given end, exactly the running rows with a stamp before the cutoff, changes nothing else and returns how many |
| `JobStore.Store.UpdateJobTypeLimit` | autopilot-proxmox/web/jobs_pg.py:321-337 | refuses a cap below one and otherwise changes one cap |
| `JobStore.Store.CompleteInterruptedJobsForRun` | autopilot-proxmox/web/jobs_pg.py:350-367 | every row of type provision_winpe or provision_clone whose run is the given one and which is orphaned, or failed with exit code -15 or none, becomes complete with exit code 0, the given end and no kill flag; every other row stays; returns how many changed |
| `JobStore.Store.UpdateJobArgs` | autopilot-proxmox/web/jobs_pg.py:340-347 | sets the run a row names, whatever its status, and nothing else |
| `JobStore.Store.OldestPending` | autopilot-proxmox/web/jobs_pg.py:210-230 | finds the pending row of a type that is least by creation and id |
| `JobStore.Store.CandidateTypes` | autopilot-proxmox/web/jobs_pg.py:183-193 | lists the pending types by the creation of their oldest job |
| `JobStore.Store.ClaimNextJob` | autopilot-proxmox/web/jobs_pg.py:178-245 | run alone: makes exactly the job the global rule picks running for this worker, claimed and stamped now, or changes nothing and returns none exactly when every pending job's type is at its cap |
| `ClaimProtocol.StepKeepsInv` | autopilot-proxmox/web/jobs_pg.py:178-245 | every statement of every interleaved claim, commit, abort and other statement keeps the invariant: locks and locked rows are exclusive, what a session counted still bounds the running jobs of its type |
| `ClaimProtocol.RunningNeverExceedsPeakCap` | autopilot-proxmox/web/jobs_pg.py:194-245 | over every run of interleaved claims and arbitrary other steps, the running jobs of a type never outnumber the largest cap that type has had |
| `ClaimProtocol.ConstantCapIsNeverExceeded` | autopilot-proxmox/web/jobs_pg.py:194-245 | if the cap of a type is left alone it is never exceeded |
| `ClaimProtocol.UnlistedTypesRunOneAtATime` | autopilot-proxmox/web/jobs_pg.py:194-217 | a type for which no cap was ever set has at most one running job in every state of every run |
| `ClaimProtocol.LoweredCapCanBeExceeded` | autopilot-proxmox/web/jobs_pg.py:321-337 | a concrete run: after a cap is lowered, more jobs run than it allows; the exact condition is CapLowering.CapHoldsIff |
| `CapLowering.CapHoldsIff` | autopilot-proxmox/web/jobs_pg.py:194-245 | from any state of any run, every continuation that leaves the cap of a type alone keeps its running jobs within the cap exactly when fewer run, or as many and no claim in progress has counted, selected, written, or read a larger cap, for that type |
| `CapLowering.StepKeepsRoom` | autopilot-proxmox/web/jobs_pg.py:194-245 | that condition is kept by every step of every transaction but a change of the cap |
| `CapLowering.ClaimInProgressPassesLoweredCap` | autopilot-proxmox/web/jobs_pg.py:321-337 | a concrete run in which the cap is lowered to just what runs and a claim that counted before goes past it |
| `ClaimProtocol.RowOverRun` | autopilot-proxmox/web/jobs_pg.py:231-303 | over any stretch of a run a row stays, its worker and claim time once set never change, and its rank never falls |
| `ClaimProtocol.AtMostThreeStatusChanges` | autopilot-proxmox/web/jobs_pg.py:231-367 | a job changes status at most three times |
| `ClaimProtocol.CommitClaims` | autopilot-proxmox/web/jobs_pg.py:231-245 | a claim commits on a row that is still pending and makes it running for its worker, claimed and stamped with the time it took |
| `ClaimProtocol.ClaimedAtMostOnce` | autopilot-proxmox/web/jobs_pg.py:231-245 | no job is claimed twice in any run, and it stays with the worker that claimed it |
| `ClaimProtocol.OnlyKillsAndArgsWait` | autopilot-proxmox/web/jobs_pg.py:218-245 | a statement waits for the row locks of claims in progress exactly if it is a kill request or an argument update of a locked row; heartbeats, endings and reaps never do |
| `SoloClaim.SoloClaimFollowsTheRule` | autopilot-proxmox/web/jobs_pg.py:178-245 | the statement-by-statement claim, run alone, refines the atomic one |
| `ReaperTiming.StampSource` | autopilot-proxmox/web/jobs_pg.py:231-259 | the stamp on a running row was committed by some earlier claim or heartbeat and nothing stamped or ended the job since |
| `ReaperTiming.PromptJobsAreNeverOrphaned` | autopilot-proxmox/web/jobs_pg.py:289-303 | if at most G passes from taking one stamp to committing the next or the end, lock waits included, no reap with a threshold of at least G orphans the job, in any run |
| `ReaperTiming.ReapIsExact` | autopilot-proxmox/web/jobs_pg.py:289-303 | a reap orphans every running row with a stamp before its cutoff and no other |
| `BuilderCall.OwnStatementsAreSafe` | autopilot-proxmox/web/builder.py:246-336 | at each statement a call makes: no other row changes, a row that has ended, in particular one the reaper orphaned, is left as it is, and the row becomes complete only if the child exited 0 and failed only if it did not |
| `BuilderCall.ClaimedStays` | autopilot-proxmox/web/jobs_pg.py:231-303 | a claimed row stays claimed by its worker, and an ended one ended, through any statement of anyone |
| `BuilderCall.Beat` | autopilot-proxmox/web/builder.py:283-302 | commits, around what others do, exactly one heartbeat of its own unless the database fails; reports the row gone exactly when that heartbeat found it not running for this worker, and a kill exactly when it found it and the row read back is flagged |
| `BuilderCall.Watch` | autopilot-proxmox/web/builder.py:280-312 | computes the course of the loop; what a course does about kills, stops, exits and a lost row is told by the lemmas of BuilderKill |
| `BuilderCall.CallJobs` | autopilot-proxmox/web/builder.py:246-336 | the table a call leaves is what its log of statements makes of the one it found |
| `BuilderCall.Finish` | autopilot-proxmox/web/builder.py:314-325 | commits, around what others do, exactly one end of the job with the code given unless the database fails |
| `BuilderCall.RunOneJob` | autopilot-proxmox/web/builder.py:246-336 | for every interleaving: leaves the table the call's statements make, no others, and the child exited or terminated as the lemmas of BuilderKill say |
| `BuilderCall.CallIsScripted` | autopilot-proxmox/web/builder.py:246-336 | of the statements of a call, those of others are all the environment's and in its order; its own are heartbeats for its worker and at most one end of its job, with the child's code, and none once its row was gone |
| `BuilderCall.ReturnMeansEnded` | autopilot-proxmox/web/builder.py:246-336 | on return the child has exited or was told to terminate, and the row has ended unless the final statement was lost while the row was still running; a child that could not be started is neither |
| `BuilderCall.CallIsSafe` | autopilot-proxmox/web/builder.py:246-336 | of a running job's call: if no one else may complete the row and it is complete afterwards, the child exited 0; and a row orphaned at any moment of the call is orphaned at its end unless someone else repaired interrupted jobs |
| `BuilderCall.OrphanedIsLeft` | autopilot-proxmox/web/builder.py:246-336 | between any two moments of a call an orphaned row stays orphaned unless others repair interrupted jobs |
| `BuilderCall.AfterKeepsClaims` | autopilot-proxmox/web/builder.py:246-336 | through a whole log the row stays this worker's, and an ended one ended |
| `BuilderKill.KillTerminates` | autopilot-proxmox/web/builder.py:280-312 | a kill request in the log, not cleared since, terminates the child at the first beat that finds the row running for this worker and reads it back |
| `BuilderKill.StopTerminates` | autopilot-proxmox/web/builder.py:303-312 | a stop seen in a beat terminates the child, unless that beat finds the row lost and the child has exited |
| `BuilderKill.TerminatedOnlyForCause` | autopilot-proxmox/web/builder.py:280-336 | nothing else terminates it, but for the end of a call that lost its row while the child runs on: some beat saw a stop or read back a flag, and the flag was requested during the call if it was not set before |
| `BuilderKill.KillStands` | autopilot-proxmox/web/jobs_pg.py:280-286 | a kill request stays on the row through any statements but the end of the job and the repair of interrupted ones |
| `BuilderKill.FlagWasRequested` | autopilot-proxmox/web/jobs_pg.py:280-286 | a flag that was not there was set by a kill request in the log |
| `BuilderKill.LostExactlyWhenSeen` | autopilot-proxmox/web/builder.py:280-297 | a heartbeat that finds the row not running for this worker is the call's last beat, and only such a one ends a call as lost |
| `BuilderKill.CallEndsAsSeen` | autopilot-proxmox/web/builder.py:278-336 | a call beats until poll() answers, its row is lost or the script ends, never after, and takes for the exit what poll() answered |
| `BuilderKill.OwnStatementsExactly` | autopilot-proxmox/web/builder.py:246-325 | what a call itself writes, in order: a heartbeat with its time for each beat that reaches the database, then one end with the exit code, or -1 when no child was started; no end for a lost row |
| `BuilderKill.StoppedIff` | autopilot-proxmox/web/builder.py:303-312 | a call counts as stopped exactly when a beat other than the one that lost the row saw the stop event |
| `BuilderLoop.RunBuilder` | autopilot-proxmox/web/builder.py:339-393 | for every script of turns: the jobs claimed, in order, and the table are those of claiming what the rule picks, running it to its end, and repeating until told to stop |
| `BuilderLoop.TourIsSound` | autopilot-proxmox/web/builder.py:339-393 | each job claimed was free before and is the builder's own ever after, none is claimed twice even when final statements are lost, and when none is lost all have ended but for one whose call has not returned |
| `BuilderLoop.OneMoreTurn` | autopilot-proxmox/web/builder.py:339-393 | a builder that goes on claims in each further turn what the rule picks, if anything, and runs it |
| `BuilderLoop.ClaimIsOnRecord` | autopilot-proxmox/web/jobs_pg.py:231-245 | whatever happens during the call, the row ends with the worker that claimed it and the time of the claim |
| `BuilderLoop.NothingAfterStop` | autopilot-proxmox/web/builder.py:339-393 | once a call was stopped or did not return nothing more is claimed |
| `BuilderLoop.HoldsOnlyClaims` | autopilot-proxmox/web/builder.py:339-393 | any row the builder is the worker of was its own before, or is among those it claimed, or was claimed in its name by someone else |
| `PhaseMerge.FoldClosedForm` | autopilot-proxmox/web/deployment_health_pg.py:115-126 | the state after any sequence of reports, in closed form: from the last failed, done or skipped report and whether a stale one followed it |
| `PhaseMerge.FoldTwice` | autopilot-proxmox/web/deployment_health_pg.py:115-126 | folding the same reports again, from any row, leaves the state as it is |
| `PhaseMerge.OverriddenTwice` | autopilot-proxmox/web/deployment_health_pg.py:240-291 | last-setter-wins fields are unchanged by a second pass |
| `PhaseStore.FoldRowState` | autopilot-proxmox/web/deployment_health_pg.py:115-126 | the state of a stored row is the fold of the reported states |
| `PhaseStore.FoldRowFields` | autopilot-proxmox/web/deployment_health_pg.py:240-291 | end, error and each evidence key of a stored row are those of the last report that set them |
| `PhaseStore.FoldRowStart` | autopilot-proxmox/web/deployment_health_pg.py:200-291 | the start of a stored row is the least start ever reported, and one of them |
| `PhaseStore.BatchTwice` | autopilot-proxmox/web/deployment_health_pg.py:169-291 | reporting a whole batch again later changes no state, start, end, duration, evidence, error or origin, even when several reports of it hit one row |
| `PhaseStore.SyncRowwise` | autopilot-proxmox/web/deployment_health.py:877-888 | after a sync each row is the fold of its own reports alone |
| `PhaseStore.SyncTwice` | autopilot-proxmox/web/deployment_health.py:877-888 | re-running the sync over unchanged sources adds no phase row and changes none but perhaps in its last progress |
| `PhaseStore.DurationsAreSeconds` | autopilot-proxmox/web/deployment_health_pg.py:93-96 | after any sync each row it wrote has a duration exactly when it has an end: the whole seconds of microseconds from start to end, and 0 when the end comes first |
| `PhaseProgress.SyncProgressTwice` | autopilot-proxmox/web/deployment_health.py:877-888 | the last progress stays too, when reports carry times of their own, exactly for rows that were there before the first run and for new ones whose start and first reported end are not after it |
| `PhaseProgress.ProgressCanMove` | autopilot-proxmox/web/deployment_health_pg.py:200-291 | a new row that ended after the progress reported for it moves on when reported again |
| `PhaseStore.Store.RecordPhase` | autopilot-proxmox/web/deployment_health_pg.py:169-291 | writes one row and no other: as reported when new; else the earlier start, the reported end if any, evidence overlaid by key, the error replaced when given or when the phase is done or skipped, a failed state kept against all but done and skipped, an ended one against pending and running, and the last progress the latest of the four times; the duration in whole seconds |
| `PhaseStore.Store.SyncFromSources` | autopilot-proxmox/web/deployment_health.py:877-888 | records every report in order |
| `PhaseStore.Store.ProgressPhase` | autopilot-proxmox/web/deployment_health_pg.py:298-331 | changes only an existing row and only its progress and evidence, the former never backwards |
| `PhaseStore.Store.EndPhase` | autopilot-proxmox/web/deployment_health_pg.py:334-365 | an existing row becomes done, ended when given or now, its start and origin kept, its error cleared, its evidence overlaid |
| `PhaseStore.Store.FailPhase` | autopilot-proxmox/web/deployment_health_pg.py:368-401 | an existing row becomes failed with the error, ended when given or now, its start and origin kept, its evidence overlaid |
| `JobPhases.ExecutionRowMirrorsJob` | autopilot-proxmox/web/deployment_health.py:276-338 | however often a job is synced over its life, its execution row is pending, running, done, failed or stale exactly as the job is pending, running, complete, failed or orphaned, with the job's end and the error failed or orphaned |
| `JobPhases.QueueRowMirrorsJob` | autopilot-proxmox/web/deployment_health.py:276-338 | the wait row is done exactly once the job was claimed, spans creation to claim, and lasts the whole seconds between them, 0 if the claim's clock was behind |
| `JobPhases.RowsShowTheLastSighting` | autopilot-proxmox/web/deployment_health.py:276-338 | both rows hold the evidence of the last sighting and are no further back than the progress it shows |
| `JobPhases.ExecutionStart` | autopilot-proxmox/web/deployment_health.py:276-338 | the execution row starts at the claim, but at the creation when that is earlier and a sync came while the job was waiting |
| `JobPhases.ExecutionCanStartBeforeClaim` | autopilot-proxmox/web/deployment_health.py:276-338 | a concrete job whose execution is said to start a minute before its claim |
| `JobPhases.RunsGiveHistories` | autopilot-proxmox/web/deployment_health.py:276-338 | what syncs see of a job during any run of the queue is such a history |
| `Percentile.NearestHasRank` | autopilot-proxmox/web/deployment_health_pg.py:432-437 | the result is a sample with at least ceil(p n / 100) samples at or below it and fewer strictly below |
| `Percentile.RankDetermines` | autopilot-proxmox/web/deployment_health_pg.py:432-437 | that property determines the value, and a higher percentage never gives a smaller one |
| `Percentile.NearestIgnoresOrder` | autopilot-proxmox/web/deployment_health_pg.py:432-437 | the order of the samples does not matter |
| `Percentile.ComputeBaseline` | autopilot-proxmox/web/deployment_health_pg.py:440-497 | p50 <= p90 <= p95 of the newest 50 successes, the failures among the newest 50 samples, and learning exactly below 5 successes |
| `Percentile.SuccessesInOrder` | autopilot-proxmox/web/deployment_health_pg.py:456-460 | the successes are exactly the done samples with a duration, each behind those before it |
| `Percentile.FailuresAreCounted` | autopilot-proxmox/web/deployment_health_pg.py:461 | the failure count is the number of samples not done |
| `DirectoryTimeline.FirstMatchWins` | autopilot-proxmox/web/device_regression.py:59-68 | the index holds exactly the named objects, each as its first match |
| `DirectoryTimeline.IndexMatches` | autopilot-proxmox/web/device_regression.py:59-68 | the loop computes the index |
| `DirectoryTimeline.DisabledBit` | autopilot-proxmox/web/device_regression.py:230-239 | an account is disabled exactly when the bit of value 2 is set in its control number |
| `DirectoryTimeline.ParentIsTheRest` | autopilot-proxmox/web/device_regression.py:71-77 | an object's container is all after the first comma of its name, and nothing when there is none |
| `DirectoryTimeline.Changes` | autopilot-proxmox/web/device_regression.py:202-243 | the events of one object; none exactly when nothing reported differs |
| `DirectoryTimeline.ChangeEventsReplay` | autopilot-proxmox/web/device_regression.py:202-243 | replaying the events of one object turns what was shown of it into what is shown now and touches no other |
| `DirectoryTimeline.ContainerFollows` | autopilot-proxmox/web/device_regression.py:71-77 | from a right container, one step leaves the replayed one right exactly when it did not change or both containers are known |
| `DirectoryTimeline.ContainerCanBeLost` | autopilot-proxmox/web/device_regression.py:205-269 | a concrete object whose container changes without an event |
| `DirectoryTimeline.DiffProbes` | autopilot-proxmox/web/device_regression.py:198-269 | between two probes, whatever order the object sets are walked in: the events are exactly those due, each once, changes before new objects before lost ones; they replay a directory that shows the one view into Diffed; there are none exactly when nothing reported differs |
| `DirectoryTimeline.AdTransitions` | autopilot-proxmox/web/device_regression.py:173-269 | the log of any sequence of probes says of the first what it shows, if anything, and at each later one exactly the events due there, told from the fields of the two views, each once; replayed from nothing it rebuilds ShownAfter |
| `DirectoryTimeline.FlipsAreLogged` | autopilot-proxmox/web/device_regression.py:230-247 | for an object of two consecutive probes the log says disabled exactly when the bit of value 2 went from clear to set, and re-enabled exactly when it went from set to clear |
| `DirectoryTimeline.ChangesInOrder` | autopilot-proxmox/web/device_regression.py:202-247 | of one object a change of name is logged first, then of container, then of the bit |
| `DirectoryTimeline.NamesAreRight` | autopilot-proxmox/web/device_regression.py:173-269 | which shows exactly the objects of the last probe, each with the names of that probe and disabled exactly when its bit of value 2 is set there |
| `DirectoryTimeline.ContainerRightIff` | autopilot-proxmox/web/device_regression.py:216-229 | and an object in its true container exactly when that is the container it was last reported in, as appearing, new or moved |
| `DirectoryTimeline.KnownMeansRight` | autopilot-proxmox/web/device_regression.py:216-229 | which is so when its container was known at every probe since |
| `LabBubbles.OpKeepsInv` | autopilot-proxmox/web/lab_bubbles_pg.py:315-727 | every operation keeps: references resolve, each provider lies in its service's bubble, and the newest snapshot in a row's bubble is the live row |
| `LabBubbles.EveryStoreIsLinkedAndAudited` | autopilot-proxmox/web/lab_bubbles_pg.py:203-727 | so it holds in every reachable store |
| `LabBubbles.DeleteTouchesNothingElse` | autopilot-proxmox/web/lab_bubbles_pg.py:315-318 | deleting a bubble removes its own rows and changes no surviving asset or service |
| `LabBubbles.CascadeAuditKeeps` | autopilot-proxmox/web/lab_bubbles_pg.py:315-318 | of the log, a deletion keeps exactly the events of other bubbles, in order, clearing only references to assets deleted with the bubble |
| `LabBubbles.AssetUpdateMeans` | autopilot-proxmox/web/lab_bubbles_pg.py:490-528 | an update takes over exactly the nine patchable columns sent, leaves the asset in its bubble and logs both versions, or does nothing when none is sent |
| `LabBubbles.ServiceUpdateMeans` | autopilot-proxmox/web/lab_bubbles_pg.py:652-699 | the same for a service and its six columns, the provider replaced or cleared only when named |
| `LabBubbles.MoveBackRestores` | autopilot-proxmox/web/lab_bubbles_pg.py:531-579 | moving an asset away and back restores it but for its update time |
| `LabRaces.CheckThenInsertCanBeOvertaken` | autopilot-proxmox/web/lab_bubbles_pg.py:582-636 | a concrete state in which a move between the provider check and the insert breaks the invariant, and a delete then nulls the provider |
| `LabRaces.InsertStaysLinkedIff` | autopilot-proxmox/web/lab_bubbles_pg.py:582-636 | whatever commits between check and insert: the store stays in order exactly when nothing was the last to put the provider in another bubble |
| `LabRaces.OneOpOvertakesIff` | autopilot-proxmox/web/lab_bubbles_pg.py:582-636 | of single operations, exactly an accepted move of the provider to another bubble overtakes the check |
| `LabRaces.RewireStaysLinkedIff` | autopilot-proxmox/web/lab_bubbles_pg.py:652-699 | the same for the check of a new provider: exactly when the operations in between last put it where they last put the service |
| `LabRaces.MoveOvertakenIff` | autopilot-proxmox/web/lab_bubbles_pg.py:531-579 | the check of a move is overtaken exactly by an operation that makes a service elsewhere depend on the asset |
| `LabRaces.DeleteNullsIff` | autopilot-proxmox/web/lab_bubbles_pg.py:315-318 | after an insert past its check, deleting a bubble changes a surviving service exactly when it is the one its provider was last put in and not the service's own |
| `LabStore.Store.CreateBubble` | autopilot-proxmox/web/lab_bubbles_pg.py:203-253 | adds an empty bubble and its event, or changes nothing |
| `LabStore.Store.RecordAuditEvent` | autopilot-proxmox/web/lab_bubbles_pg.py:321-352 | appends one event |
| `LabStore.Store.DeleteBubble` | autopilot-proxmox/web/lab_bubbles_pg.py:315-318 | the tables after the cascade; true exactly when the bubble was there |
| `LabStore.Store.AddAsset` | autopilot-proxmox/web/lab_bubbles_pg.py:355-409 | adds the asset and its snapshot, or changes nothing |
| `LabStore.Store.UpdateAsset` | autopilot-proxmox/web/lab_bubbles_pg.py:490-528 | patches one asset, logging only a change, or changes nothing |
| `LabStore.Store.MoveAsset` | autopilot-proxmox/web/lab_bubbles_pg.py:531-579 | refused exactly when a service elsewhere depends on the asset or something is missing; otherwise moves it and logs one event, in the bubble it moves to |
| `LabStore.Store.AddService` | autopilot-proxmox/web/lab_bubbles_pg.py:582-636 | refused exactly when the provider is not in the bubble |
| `LabStore.Store.UpdateService` | autopilot-proxmox/web/lab_bubbles_pg.py:652-699 | patches one service under the same check |
| `LabStore.Store.DeleteService` | autopilot-proxmox/web/lab_bubbles_pg.py:702-727 | removes one service and logs it |
| `LabStore.Store.UpdateReadiness` | autopilot-proxmox/web/lab_bubbles_pg.py:743-786 | logs the evidence exactly when it comes from a domain controller, active or provisioning, of that bubble |
| `CredentialRefs.EveryRefIsRemapped` | autopilot-proxmox/scripts/migrate_sqlite_state_to_postgres.py:160-176 | at every position of any nested value, exactly the reference there is looked up in the map, and left as it is when unmapped or not a number |
| `CredentialRefs.FieldAfterRemap` | autopilot-proxmox/scripts/migrate_sqlite_state_to_postgres.py:33-38 | exactly five field names refer to credentials; what reads as a whole number under them, fractions cut towards zero, is looked up, an id unknown to the map staying, and anything else is left alone |
| `CredentialRefs.OnlyRefsChange` | autopilot-proxmox/scripts/migrate_sqlite_state_to_postgres.py:160-176 | nothing but references changes |
| `CredentialMigration.NextId` | autopilot-proxmox/scripts/migrate_sqlite_state_to_postgres.py:128-131 | one more than every id on either side, and no more |
| `CredentialMigration.FirstFree` | autopilot-proxmox/scripts/migrate_sqlite_state_to_postgres.py:139-140 | the least free id from the counter on |
| `CredentialMigration.Allocator.ChooseId` | autopilot-proxmox/scripts/migrate_sqlite_state_to_postgres.py:134-144 | keeps a positive free legacy id, else takes the next free one; never one in use |
| `CredentialMigration.IndexByName` | autopilot-proxmox/scripts/migrate_sqlite_state_to_postgres.py:193-196 | the index sends exactly the stored names to their ids |
| `CredentialMigration.Importer.ImportRow` | autopilot-proxmox/scripts/migrate_sqlite_state_to_postgres.py:198-240 | one row: an update under the known id, or an insert under the chosen one |
| `CredentialMigration.MigrateCredentials` | autopilot-proxmox/scripts/migrate_sqlite_state_to_postgres.py:184-244 | the loop computes the import, and a refused insert rolls all of it back |
| `CredentialMigration.RowMeans` | autopilot-proxmox/scripts/migrate_sqlite_state_to_postgres.py:200-240 | one row, whatever came before: updates the credential of its name, or inserts one under a free id, its own when that is free, with local_admin for a missing kind and a made-up name for a missing one; refused exactly when that name stands in the table unindexed |
| `CredentialMigration.NamesArePreserved` | autopilot-proxmox/scripts/migrate_sqlite_state_to_postgres.py:184-244 | for distinct ids and non-empty names the import commits, every legacy credential stands under its own name at the mapped id, names stay unique, and the target's own rows keep ids and names |
| `CredentialMigration.LegacyIdKeptIffFree` | autopilot-proxmox/scripts/migrate_sqlite_state_to_postgres.py:134-240 | a row of a new name keeps its legacy id exactly when that id was free at the start, else gets one above every id of either side |
| `CredentialMigration.MappingIsStable` | autopilot-proxmox/scripts/migrate_sqlite_state_to_postgres.py:184-244 | once a legacy id is mapped its target never changes during the import |
| `CredentialMigration.RunWrites` | autopilot-proxmox/scripts/migrate_sqlite_state_to_postgres.py:184-244 | with distinct names every legacy credential ends with its name, its kind or local_admin, and its blob re-encrypted |
| `CredentialMigration.SecondRunInsertsNothing` | autopilot-proxmox/scripts/migrate_sqlite_state_to_postgres.py:184-244 | a second run inserts nothing and returns the same map; with distinct names it leaves the table as it is |
| `CredentialMigration.ReferencesKeepMeaning` | autopilot-proxmox/scripts/migrate_sqlite_state_to_postgres.py:160-176 | a rewritten reference to a migrated credential, at any depth, names the credential of the same name as before |
| `CredentialMigration.DanglingRefs` | autopilot-proxmox/scripts/migrate_sqlite_state_to_postgres.py:160-176 | a reference to no legacy credential is left alone and still names nothing exactly when its id was not in the target and was not handed out to a renumbered row |
| `CredentialMigration.DanglingRefCanBeCaptured` | autopilot-proxmox/scripts/migrate_sqlite_state_to_postgres.py:160-176 | a concrete import after which such a reference names a credential it never named |
| `SequenceSteps.SortIsStable` | autopilot-proxmox/scripts/migrate_sqlite_state_to_postgres.py:316 | sorting keeps the order of rows of one sequence and position |
| `SequenceSteps.SortAscends` | autopilot-proxmox/scripts/migrate_sqlite_state_to_postgres.py:316 | rows are walked by sequence, then position |
| `SequenceSteps.SortSorts` | autopilot-proxmox/scripts/migrate_sqlite_state_to_postgres.py:316 | the rows come out by sequence and position, every row once |
| `SequenceSteps.MigrateSteps` | autopilot-proxmox/scripts/migrate_sqlite_state_to_postgres.py:316-338 | the loop of upserts computes the step import |
| `SequenceSteps.RowIsCarriedIff` | autopilot-proxmox/scripts/migrate_sqlite_state_to_postgres.py:317-338 | a row of a sequence that was not migrated is skipped; any other takes its position with its type, its enabled flag and its parameters rewritten |
| `SequenceSteps.ImportedSteps` | autopilot-proxmox/scripts/migrate_sqlite_state_to_postgres.py:262-338 | at each position of a migrated sequence stands the last legacy row for it, with its type, enabled flag and rewritten parameters, or what was kept |
| `SequenceSteps.OtherSequencesKeepTheirSteps` | autopilot-proxmox/scripts/migrate_sqlite_state_to_postgres.py:262-338 | the steps of sequences nobody migrated are untouched |
| `SequenceSteps.ImportTwice` | autopilot-proxmox/scripts/migrate_sqlite_state_to_postgres.py:262-338 | importing again leaves all steps as they are, for an injective map of sequences whose new ones had no steps |
| `SequenceSteps.StepsImportTwice` | autopilot-proxmox/scripts/migrate_sqlite_state_to_postgres.py:247-345 | both hold of the map the import by name makes, when steps belong to existing sequences, so a second run leaves all steps as they are |
| `SequenceSteps.StepsKeepTheirCredentials` | autopilot-proxmox/scripts/migrate_sqlite_state_to_postgres.py:320 | a step arrives naming the credentials it named |
| `Text.StripIsExact` | autopilot-proxmox/web/cloudosd_pg.py:640 | stripping takes off the spaces around a text and nothing else |
| `Text.LowerLetters` | autopilot-proxmox/web/cloudosd_pg.py:641 | of ASCII text lower case changes the 26 capitals, each to its small letter, and nothing else |
| `Text.AsciiSpaces` | autopilot-proxmox/web/cloudosd_domain_join.py:573-574 | of ASCII, exactly which characters are space and which break a line |
| `DomainMatch.UniqueText` | autopilot-proxmox/web/cloudosd_pg.py:636-646 | the loop computes the distinct non-blank names |
| `DomainMatch.UniqueKeepsKeys` | autopilot-proxmox/web/cloudosd_pg.py:636-646 | which loses no name, case aside |
| `DomainMatch.MatchMeaning` | autopilot-proxmox/web/cloudosd_pg.py:679-705 | a heartbeat matches exactly when the join is enabled, the guest says it is joined and names one of the configured domains, blanks and case aside; otherwise the reason tells which of these fails |
| `CloudRun.TxKeepsAgreement` | autopilot-proxmox/web/cloudosd_pg.py:1777-2114 | the controller's own transactions keep agreement of the two rows, or the engine row ahead with no step left |
| `CloudRun.AgreementExactly` | autopilot-proxmox/web/cloudosd_pg.py:854-2114 | from every state, whatever wrote it, and for every transaction, agents' results, reboots and requeued steps included: exactly when the rows agree after it |
| `CloudRun.RowsAgree` | autopilot-proxmox/web/cloudosd_pg.py:1777-2114 | from any moment at which the rows agree, whatever interleaves, they go on agreeing until something is written for an agent, but for the engine row being ahead when no step is left; so until then they agree while a step remains and whenever the run is over |
| `CloudRun.RowsCanDisagree` | autopilot-proxmox/web/ts_engine_pg.py:1219-1248 | a concrete run in which marking the last step leaves the engine done and the run not |
| `CloudRun.TimesNeverChange` | autopilot-proxmox/web/cloudosd_pg.py:1886-2146 | over any stretch of any run, registration, first-heartbeat and installation times once set never change, the plan stays and events stay recorded |
| `CloudRun.DoneStaysIff` | autopilot-proxmox/web/ts_engine_pg.py:2181-2304 | done steps stay done exactly as long as no agent sends another result for one of them, other than a success that needs no reboot |
| `CloudRun.CompleteMeansReady` | autopilot-proxmox/web/cloudosd_pg.py:708-740 | a run complete in any reachable state was found with every required step done and a first heartbeat on record before it became so, and still is unless an agent has undone a step since |
| `CloudRun.TerminalMoves` | autopilot-proxmox/web/cloudosd_pg.py:854-2114 | only a finishing call completes a run, with a join only on a matching heartbeat; a complete run is reopened only by a new identity or registration, a failed one also by sending a step back |
| `CloudRetries.FailureRule` | autopilot-proxmox/web/ts_engine_pg.py:2235-2250 | a failure of a step not waiting for a reboot makes it pending, the engine running its phase, exactly while its attempts do not exceed its retries, and failed otherwise |
| `CloudRetries.FailsIffSpent` | autopilot-proxmox/web/ts_engine_pg.py:1921-2253 | over any run: a step becomes failed exactly when a failure is reported for it, it is not waiting for a reboot, and it was handed out more often since it was last sent back than it may be retried: 60 times the verification, twice the capture, never another |
| `CloudRetries.FailedMeansSpent` | autopilot-proxmox/web/ts_engine_pg.py:1921-2253 | in every reachable state a failed step has been handed out more often than its retries since the start or since it was last sent back |
| `CloudRetries.AttemptCountsHandouts` | autopilot-proxmox/web/ts_engine_pg.py:1979-1990 | the attempt count of a step is the number of times it was handed out since then |
| `CloudRetries.HandedOutIff` | autopilot-proxmox/web/ts_engine_pg.py:1947-1997 | an agent is handed a step only if it is pending, in its phase or any, and the engine has not finished; that adds one attempt |
| `CloudPlan.PlanInOrder` | autopilot-proxmox/web/cloudosd_pg.py:1395-1464 | the steps of a new run, in order, for each way to join a domain, all pending and untried, only the join in the new system rebooting |
| `CloudPlan.PhasesInOrder` | autopilot-proxmox/web/cloudosd_pg.py:1409-1441 | the steps before the heartbeat run while installing, the others in the new system |
| `CloudPlan.ReadyIff` | autopilot-proxmox/web/cloudosd_pg.py:708-740 | a run is ready exactly when the last heartbeat and capture steps are done, and with a join to make the last verification |
| `CloudPlan.LastOfKind` | autopilot-proxmox/web/cloudosd_pg.py:726-730 | of several steps of one kind the last one's state counts |
| `CloudPlan.EvidenceFor` | autopilot-proxmox/web/cloudosd_pg.py:476-510 | for each kind of step, exactly which times and events mark it done |
| `CloudHeartbeat.BlockedMeans` | autopilot-proxmox/web/cloudosd_pg.py:649-706 | a heartbeat holds a run up exactly when there is a domain to join and the guest does not name, as joined, one of those configured, blanks and case aside |
| `CloudHeartbeat.HeartbeatEvents` | autopilot-proxmox/web/cloudosd_pg.py:1920-2080 | a heartbeat call logs that it was seen and then exactly one of: the join is pending, steps are pending, the gate is satisfied |
| `CloudHeartbeat.HeartbeatIsTransactions` | autopilot-proxmox/web/cloudosd_pg.py:1920-2080 | one heartbeat call is a path of such transactions, its completion step enabled |
| `CloudHeartbeat.HeartbeatCompletesIff` | autopilot-proxmox/web/cloudosd_pg.py:1920-2080 | a heartbeat completes a run exactly when it was complete, or the domain is right, the plan waits for a heartbeat, the hash is captured and membership is verified |
| `CloudHeartbeat.HeartbeatAgreesIff` | autopilot-proxmox/web/cloudosd_pg.py:1920-2080 | from every state, agents' writes included: exactly when the rows agree after a heartbeat that is let through |
| `CloudHeartbeat.NoneRemainIsReadyIff` | autopilot-proxmox/web/cloudosd_pg.py:1395-1464 | in every reachable state with no step left, the required steps are done exactly when none of them was skipped |
| `CloudHeartbeat.NextHeartbeatSettlesIff` | autopilot-proxmox/web/cloudosd_pg.py:1920-2080 | a run whose engine row is ahead is completed, and its rows made to agree, by the next heartbeat let through exactly when neither the hash capture nor an unseen membership check was skipped |
| `CloudHeartbeat.SkippedCaptureSticks` | autopilot-proxmox/web/ts_engine_pg.py:2225-2229 | a concrete run whose skipped hash capture leaves the engine row ahead whatever heartbeat comes next |
| `CloudHeartbeat.CompleteRunCanLoseAStep` | autopilot-proxmox/web/ts_engine_pg.py:2237-2253 | a concrete complete run that a late failure leaves with a required step undone |
| `CloudHeartbeat.SyncTwice` | autopilot-proxmox/web/cloudosd_pg.py:476-524 | syncing the same evidence again changes nothing |
| `CloudHeartbeat.StateAfterMark` | autopilot-proxmox/web/ts_engine_pg.py:1158-1217 | marking kinds sets exactly the steps of those kinds done |
| `CloudStore.Store.SetRunIdentity` | autopilot-proxmox/web/cloudosd_pg.py:1777-1848 | both rows wait for PE, whatever they said |
| `CloudStore.Store.MarkPeRegistered` | autopilot-proxmox/web/cloudosd_pg.py:1886-1917 | both rows are registered; the first time is kept |
| `CloudStore.Store.MarkStepsDoneByKind` | autopilot-proxmox/web/ts_engine_pg.py:1158-1262 | marks the kinds and, when nothing remains and the engine row has not failed, makes it done |
| `CloudStore.Store.CompleteStep` | autopilot-proxmox/web/ts_engine_pg.py:2181-2304 | what each result makes of the step and the engine: a success is done or waits for the reboot, a failure is retried while attempts do not exceed retries and final after that, one that comes while the step waits for a reboot is ignored; the engine is queued or done by whether another step still needs an agent, failed after a final failure unless the step lets the run continue |
| `CloudStore.Store.MarkRebootComplete` | autopilot-proxmox/web/ts_engine_pg.py:2307-2353 | a step waiting for a reboot is done, the engine queued or done by what is left; any other is refused |
| `CloudStore.Store.RequeueStep` | autopilot-proxmox/web/ts_engine_pg.py:2091-2157 | a failed step is pending again with no attempts and the engine runs its phase; any other is refused |
| `CloudStore.Store.ReopenRun` | autopilot-proxmox/web/cloudosd_pg.py:876-884 | the run waits for its steps again unless it is complete |
| `CloudStore.Store.MarkOsdcloudFinished` | autopilot-proxmox/web/cloudosd_pg.py:2133-2146 | records the first time installation finished |
| `CloudStore.Store.RecordHeartbeat` | autopilot-proxmox/web/cloudosd_pg.py:1940-2025 | both rows wait, unless the run is complete or the engine done, and the first heartbeat is kept |
| `CloudStore.Store.SyncTsProgress` | autopilot-proxmox/web/cloudosd_pg.py:476-524 | marks what the lifecycle evidence shows |
| `CloudStore.Store.CompletionStatus` | autopilot-proxmox/web/cloudosd_pg.py:708-740 | collects the last state of each required kind and decides whether all are done |
| `CloudStore.Store.MarkCompleteFromHeartbeat` | autopilot-proxmox/web/cloudosd_pg.py:1920-2080 | changes the rows as the heartbeat call specifies |
| `CloudStore.Store.AppendEvent` | autopilot-proxmox/web/cloudosd_pg.py:2149-2187 | adds one event |
| `CloudStore.Store.MarkFailed` | autopilot-proxmox/web/cloudosd_pg.py:2083-2114 | fails both rows unless the run is complete |
| `FreeNames.IndexMatchIsComplete` | autopilot-proxmox/web/cloudosd_pg.py:355-355 | the index match finds the one way to read a name as base and digits |
| `FreeNames.CandidateMeans` | autopilot-proxmox/web/cloudosd_pg.py:376-385 | the names tried are the base, a dash and the index in at least as many digits as the request had and at least two, wider only without leading zeros |
| `FreeNames.CandidatesDiffer` | autopilot-proxmox/web/cloudosd_pg.py:384-387 | distinct indices give names distinct even when case is ignored |
| `FreeNames.NextFreeIndexedName` | autopilot-proxmox/web/cloudosd_pg.py:358-388 | the loop computes the search |
| `FreeNames.SearchIsComplete` | autopilot-proxmox/web/cloudosd_pg.py:358-388 | the request when free, else the lowest free index, else the request again, and that only when every index is taken, which takes at least as many names as there are indices |
| `FreeNames.FreeWhileSlotsRemain` | autopilot-proxmox/web/cloudosd_pg.py:384-388 | with fewer names taken than there are indices the answer is free |
| `FreeNames.BatchIsDistinct` | autopilot-proxmox/web/app.py:8817-8822 | a batch that fits gets names that are new and pairwise distinct |
| `FreeNames.BatchClashesIffExhausted` | autopilot-proxmox/web/app.py:8837-8842 | a batch clashes exactly when some request comes with all its indices taken |
| `FreeNames.ResultIsItsOwnKey` | autopilot-proxmox/web/app.py:8821-8822 | a result handed back in lower case is compared as that very text |
| `FreeNames.KeysOfMore` | autopilot-proxmox/web/cloudosd_pg.py:373-373 | so adding results to the taken names adds just them |
| `Decimal.ReadingInvertsPrinting` | autopilot-proxmox/web/cloudosd_pg.py:385 | a decimal read back is the number printed |
| `Decimal.PaddedReads` | autopilot-proxmox/web/cloudosd_pg.py:385 | a padded number reads as the number and is wider than asked only without a leading zero |
| `Decimal.PaddedIsInjective` | autopilot-proxmox/web/cloudosd_pg.py:385 | zero padding never makes two numbers look alike |
| `JoinSweep.TestsAgree` | autopilot-proxmox/web/cloudosd_domain_join.py:78-113 | the query's freshness test and Python's agree exactly when a cutoff is set or there is a heartbeat |
| `JoinSweep.FateIff` | autopilot-proxmox/web/cloudosd_domain_join.py:71-95 | a run is given up as stale exactly when its last heartbeat is older than allowed or missing, put off exactly when the deadline has come, and driven otherwise |
| `JoinSweep.StampsAreRead` | autopilot-proxmox/web/cloudosd_domain_join.py:78-95 | a time without a zone counts as UTC, and what is no time as no heartbeat |
| `JoinSweep.SelectionExists` | autopilot-proxmox/web/cloudosd_domain_join.py:109-113 | the ordering and limit always admit an answer |
| `JoinSweep.LiveFirst` | autopilot-proxmox/web/cloudosd_domain_join.py:224-279 | either every live run is selected or only live ones are; live ones lead, oldest first |
| `JoinSweep.ExecuteJoin` | autopilot-proxmox/web/cloudosd_domain_join.py:293-400 | exactly which answers of guest and store lead to each of the six outcomes; a join command is sent exactly to a guest that says it is not joined and has a usable credential; membership is confirmed only by the guest; a reboot follows exactly a join that exits 0 and says so |
| `JoinSweep.Summary.Sweep` | autopilot-proxmox/web/cloudosd_domain_join.py:464-533 | every counter and list of the summary is what the fates of the candidates make it |
| `JoinSweep.CountersAddUp` | autopilot-proxmox/web/cloudosd_domain_join.py:491-533 | the counters sum to the candidates, the result list misses exactly the deferred, and the reboots are the joins |
| `JoinSweep.BucketsCount` | autopilot-proxmox/web/cloudosd_domain_join.py:491-533 | each counter is the number of candidates with that fate |
| `JoinSweep.FateHasOneBucket` | autopilot-proxmox/web/cloudosd_domain_join.py:500-528 | which outcome goes to which counter: runs without a node or a credential are the skipped ones |
| `JoinSweep.ResultsInOrder` | autopilot-proxmox/web/cloudosd_domain_join.py:491-533 | the result list names each run not deferred, with what became of it, in order |
| `JoinSweep.ContainsIff` | autopilot-proxmox/web/cloudosd_domain_join.py:182-194 | an answer says something exactly when the marker occurs in it somewhere |
| `JoinSweep.NoLiveRunIsLost` | autopilot-proxmox/web/cloudosd_domain_join.py:464-533 | every live run is driven or deferred unless the limit went to other live runs, deferred ones come after driven ones, and without a budget none is deferred |
| `JoinSweep.RebootedGuestsAreNotProbed` | autopilot-proxmox/web/cloudosd_domain_join.py:688-756 | a guest the join sweep rebooted is left alone by the capture sweep of the same tick |
| `HashOutput.LinesInvertPrint` | autopilot-proxmox/web/cloudosd_domain_join.py:573 | splitting printed lines gives them back, for either line ending |
| `HashOutput.ParseHashOutput` | autopilot-proxmox/web/cloudosd_domain_join.py:561-583 | the loop computes the parse |
| `HashOutput.ParseInvertsPrint` | autopilot-proxmox/web/cloudosd_domain_join.py:561-583 | however the hash was wrapped, the serial and the whole hash come back exactly when no wrapped line looks like a marker |
| `HashOutput.WrappedPaddingCanBeLost` | autopilot-proxmox/web/cloudosd_domain_join.py:573-583 | a concrete wrapping that loses the hash |
| `HashOutput.JudgesPrintedHash` | autopilot-proxmox/web/cloudosd_domain_join.py:650-673 | of an unspoilt printout exactly the full hash is stored, when it is long enough and there is a serial |
| `HashOutput.JudgesAnyOutput` | autopilot-proxmox/web/cloudosd_domain_join.py:650-673 | of any output exactly a serial with a hash of at least 512 characters is stored |
| `HashOutput.ReadOther` | autopilot-proxmox/web/cloudosd_domain_join.py:573-583 | unmarked lines before the hash, and blank ones, are skipped |
| `ImageCache.StepKeepsInv` | autopilot-proxmox/web/cloudosd_cache.py:240-260 | every operation keeps ready rows true to their files when no two images share a path |
| `ImageCache.ReadyFilesMatch` | autopilot-proxmox/web/cloudosd_cache.py:681-879 | over any sequence of refresh, warm, verify and delete, a warm dying at any point, a ready row's file holds bytes of the recorded size and digests |
| `ImageCache.WarmIsAllOrNothing` | autopilot-proxmox/web/cloudosd_cache.py:734-790 | a warm leaves every cached byte alone unless it delivered what is expected; then the file holds just that, and the row is ready exactly when the process neither died nor failed to record it |
| `ImageCache.VerifyRecovers` | autopilot-proxmox/web/cloudosd_cache.py:793-852 | after a broken warm, verifying restores the row exactly when the bytes kept meet what is expected |
| `ImageCache.RefreshKeepsReady` | autopilot-proxmox/web/cloudosd_cache.py:240-260 | a refresh changes no file and never drops a ready row or what is recorded of it |
| `ImageCache.RefreshMeans` | autopilot-proxmox/web/cloudosd_cache.py:223-296 | a refresh adds an unknown image, failed when refused and missing otherwise; of a known one it replaces the expectations and, unless it is ready, the status |
| `ImageCache.ReceivedUpTo` | autopilot-proxmox/web/cloudosd_cache.py:748-760 | a download is all chunks up to the first empty one |
| `ImageCache.StaysAsExpected` | autopilot-proxmox/web/cloudosd_cache.py:240-260 | ready files keep meeting the catalogue's expectations exactly until a refresh gives a ready row an expectation its file does not meet |
| `ImageCache.RefreshCanOutdate` | autopilot-proxmox/web/cloudosd_cache.py:240-260 | any ready row can be outdated so, and stays ready |
| `ImageCache.SharedPathBreaks` | autopilot-proxmox/web/cloudosd_cache.py:727-731 | any two rows on one path, such as rows that differ only in language: warming both and deleting one leaves the other ready without a file, and already the second warm breaks the record of the first if the contents differ |
| `ImageStore.Store.MarkStatus` | autopilot-proxmox/web/cloudosd_cache.py:681-724 | changes one row; missing values leave what was recorded |
| `ImageStore.Store.UpsertEntry` | autopilot-proxmox/web/cloudosd_cache.py:223-296 | inserts the row or updates the one of the same key |
| `ImageStore.Store.Download` | autopilot-proxmox/web/cloudosd_cache.py:748-760 | reads to the end, counting what it read, or breaks off |
| `ImageStore.Store.WarmEntry` | autopilot-proxmox/web/cloudosd_cache.py:734-790 | only a download that meets the expected size and digests replaces the file, under the place of its type, version and name, and makes the row ready with what was measured |
| `ImageStore.Store.VerifyEntry` | autopilot-proxmox/web/cloudosd_cache.py:793-852 | a row whose file is gone is missing; else it records the file's size and digests and is ready exactly when they meet the expectations, failed otherwise |
| `ImageStore.Store.DeleteEntryFile` | autopilot-proxmox/web/cloudosd_cache.py:855-879 | removes the file and clears path, size and sha256, leaving sha1, and the row missing |
| `ImageStore.Store.CheckReadyFile` | autopilot-proxmox/web/cloudosd_cache.py:343-357 | a ready row whose file is gone is marked missing |
| `Versions.VersionParts` | autopilot-proxmox/web/agent_v1_endpoints.py:249-256 | the loop computes the leading numbers |
| `Versions.ParsingInvertsPrinting` | autopilot-proxmox/web/agent_v1_endpoints.py:249-256 | reading a printed version gives its parts back |
| `Versions.VerdictMeaning` | autopilot-proxmox/web/agent_v1_endpoints.py:276-318 | an upgrade is offered exactly when nothing is reported or both are comparable and the published one comes later, parts missing at the end counting as 0 |
| `Versions.UndecidedMeaning` | autopilot-proxmox/web/agent_v1_endpoints.py:284-301 | exactly when and why no order is given: nothing published, no leading number, or one side starting with a year from 2000 on and the other not |
| `Versions.DashIsDot` | autopilot-proxmox/web/agent_v1_endpoints.py:251 | a dash separates like a dot |
| `Versions.StopsAtTheFirstOther` | autopilot-proxmox/web/agent_v1_endpoints.py:251-256 | reading stops at the first piece that is not a number |
| `Versions.Trichotomy` | autopilot-proxmox/web/agent_v1_endpoints.py:303-318 | exactly one of before, same and after |
| `Versions.AfterIsTransitive` | autopilot-proxmox/web/agent_v1_endpoints.py:303-318 | the order is transitive |
| `Versions.PaddingWidthIsIrrelevant` | autopilot-proxmox/web/agent_v1_endpoints.py:303-318 | padding to any sufficient width decides the same |
| `Versions.TrailingZeroIsIrrelevant` | autopilot-proxmox/web/agent_v1_endpoints.py:303-318 | an added ".0" changes no verdict, on either side |
| `Versions.VersionsOnlyGoUp` | autopilot-proxmox/web/agent_v1_endpoints.py:537-556 | over any stretch of update checks an agent that installs only upgrades moves strictly up or installs nothing |
| `Versions.InstalledAtMostOnce` | autopilot-proxmox/web/agent_v1_endpoints.py:537-556 | it installs no build twice, however spelled |
| `Versions.StartIsNotReinstalled` | autopilot-proxmox/web/agent_v1_endpoints.py:537-556 | nor the build it started from |
| `Versions.ReofferedIffUnreported` | autopilot-proxmox/web/agent_v1_endpoints.py:288-293 | a build that is already installed is offered again exactly when the agent reports nothing |

## Left out

- SQL text, driver, JSON encoding and schema creation: tables are maps with the stated keys, unique indexes, cascades and transaction boundaries.
- Job ids are numbers standing for their rank in the database's text order; times are whole numbers.
- The first filling of the cap table with defaults.
- Deadlock freedom, liveness of claims and first-in-first-out order under contention, which the code does not promise; an abort is a step that changes no row.
- What follows a failed job in the deployment tables, log redaction and the worker's identity file in the builder.
- Sanitising of evidence, and the sources of phase reports other than the jobs table: any batch of reports is allowed in their place.
- Entra, Intune and Proxmox transitions and the merging of timelines, newest first.
- Bubble and asset attributes beyond those that link tables; each lab call is one transaction, except in the lemma that separates the two statements.
- Uniqueness of bubble names.
- A legacy row whose name is null rather than empty; timestamps of migrated rows, the sequence rows themselves (the same upsert by name as for credentials) and every other migrated area; re-encryption is a function of the blob, and text that reads as a number is a parameter.
- Which pending step an agent may claim next: any pending step of its phase may be claimed, which allows more runs than the order of steps does.
- Phase labels, cursors and error texts of the engine row, archiving, and the lab assets promoted when a run completes.
- Calls on unknown ids, which change nothing.
- CloudRun.TimesNeverChange: says nothing of the engine row's finish time, which an agent's result overwrites and requeuing a step clears.
- The capture sweep's own counters: only what becomes of each candidate is modelled, not its summary.
- Image keys with absent columns, which the database would let coexist; every caller gives them all.
- Percentile ranks are computed in exact rationals.
- Disk space is a yes or no; temporary files are kept apart from cached ones; losing a cached file to someone else is not an operation.
- Case and digits outside ASCII.
- Name normalisation, installer classification, launch gates, SMBIOS strings, manifests and preflight checks, which would only add easy members.
