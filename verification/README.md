# Verified model of the video service

The Go service in `services/api_go` takes share links, downloads the videos or pictures behind them and transcribes the
speech. This project models the parts of it whose correctness depends on many steps, and proves what they promise.

- **Job queue** (`JobTable`, `JobRepositories`, `WorkerPhases`, `JobSystem`, `JobRuns`, `JobWaiting`, `JobLives`,
  `JobEndings`, `JobBeats`, `WorkerWrites`, `WorkerPrograms`). Each SQL statement is a guard and an effect on a row, and a method that
  runs it in place. Worker goroutines, info requests, user actions, deletions and restarts interleave one statement at a
  time. The theorems are about every execution: leases exclude one another, records stay whole, attempts move forward,
  waiting and status changes are bounded, ended jobs are final exactly when no run may still fail them, and a worker
  that beats once per lease keeps its job. The worker
  program calls the repository between arbitrary statements of others and keeps the tables that each of its writes met
  and left; its writes are accepted by an automaton, and every accepted program, however interleaved, is proved to be an
  execution of the machine.
- **Text search** (`LikeSearch`): the escaped LIKE pattern.
- **Sessions** (`Sessions`, `AuthServices`): find and rotate are two steps, so refreshes race.
- **Request signature** (`Sm3`, `Sm3Examples`, `Rc4`, `CustomBase64`, `UriComponent`, `ABogus`): the layers, a reader
  that undoes them, known answers, and both worked examples of GB/T 32905-2016, computed round by round.
- **Speech recognition** (`AsrLedger`, `AsrBudgets`, `AsrServices`, `AudioWindows`, `TranscriptMerge`): budget, windows,
  merging.
- **Login limiter** (`LoginLimiters`) and **file cleanup** (`FileCleanup`).

Functions specify what the source computes; classes and loops stand where the source changes things in place, and their
contracts tie them to the functions. `dafny verify dfyconfig.toml` checks the whole project.

Some promises hold only under a condition, and the condition is part of the theorem:

- An ended job is final if and only if no worker run on it may still fail it (`JobEndings.EndedIsFinalExactly`,
  `JobEndings.CompletedIsFinalExactly`). A run may no longer fail its job once a write of it missed its row, completed
  the job or gave it back. As long as no recovery has taken a lease from a run that was not over, every ended job is
  final (`JobEndings.PoliteEndingsAreFinal`); with one process at a time this always holds, and so it does when every
  worker beats at least once per lease (`JobBeats.PunctualWorkersKeepTheirJobs`). `Fail` names no owner, so a
  worker whose lease was taken over can turn a completed job to failed (`JobEndings.CompletedJobCanStillFail`).
- `CompleteInfo` has no lease clause either. It is sound because a job in its info window belongs to no worker, which is
  an invariant of the machine.
- Two jobs created in the same millisecond have no order, so a job created later with the same stamp can overtake. It is
  counted in `JobWaiting.BoundedWaiting`.
- An info job can end only while its request is in flight; one whose request vanished stays at resolving for good
  (`JobEndings.InfoJobEndsExactly`).
- A reset cuts a user off, refreshes on their way included, except for a login whose password was accepted before and
  whose session is inserted after it (`Sessions.ResetIsCompleteExactly`).
- The budget mutex is one for each process. The caps are safe for one process and for no greater number
  (`AsrBudgets.CapsAreSafeExactly`). With n processes on one ledger a total exceeds its cap by at most n - 1 times the
  greatest estimate of a call, and the bound is reached for every n (`AsrBudgets.OvershootIsBounded`,
  `AsrBudgets.OvershootIsReached`). Check and insert may fall on different sides of midnight, as long as the clock does
  not run back. The caps bound what the ledger records: what was ever recorded exceeds the bound by no more than
  deletions took out of the window, and not at all if no deleted job had a cost in it (`AsrBudgets.SpendingIsBounded`,
  `AsrBudgets.CapsBoundSpending`; `AsrBudgets.DeletionRefundsTheBudget` is an execution). A provider that bills more than
  it was sent is not covered.
- In any half-open minute `2 * limit - 1` logins of one key can pass, one fewer than two full windows.
- Merging can drop or repeat spoken text; `TranscriptMerge.WindowsRejoin` says exactly when two windows give their text
  back.
- The cutting loop and the cleanup loop do not always end. `AudioWindows.LoopEnds` says exactly when the first does.
  The second ends if every full batch marks a record, whatever fails when (`FileCleanup.MarkingLoopEnds`), marks nothing
  from some round on if it does not end, and with lasting faults ends exactly if fewer than a hundred files are stuck
  (`FileCleanup.LoopEndsExactly`). The cutting method asks for its condition. `CleanupService.Once` asks that a
  hundred different due files never all fail in one round; for lasting faults that is the same as fewer than a hundred
  stuck files (`FileCleanup.SteadyFaultsMarkExactly`).

The machine takes an owner name to stand for one live goroutine and lets both statements of Recover run at any moment.
The source runs them when a worker starts, which it does before it listens
(`services/api_go/cmd/server/main.go:129-135`), so a second process that is started while the first still works recovers
the first one's expired leases while its runs are alive. The owner is fixed to `server`
(`services/api_go/cmd/server/main.go:103`) and a goroutine is called by it and its number
(`services/api_go/internal/jobs/worker.go:74`), so any two overlapping processes both have a `server-1`. Two live
goroutines of one name are not covered: the theorems speak of overlapping processes only as far as the goroutines at work
have different names. `JobEndings.CompletedJobCanStillFail` is real with at least two goroutines in a process, as
`server-1` of one against `server-2` of the other.

## Model

| member | source | states |
|---|---|---|
| JobTable.StmtKeepsRowOk | services/api_go/internal/jobs/repository_sqlite.go:428-577 | A single-row statement keeps a sound row sound: ended iff 100 percent iff a completion time; lease owner, expiry and heartbeat set together and only in active stages; a waiting job below its attempt limit; error code present or absent as the status demands. Ten statements may meet any row; SetStage asks for an active stage below 100 percent and CompleteInfo for a job in its info window. |
| JobTable.CompleteInfoNeedsInfoWindow | services/api_go/internal/jobs/repository_sqlite.go:292-300 | CompleteInfo names no lease owner: on a resolving row it leaves a sound record if and only if the row has no lease. |
| JobTable.SetStageNeedsStageArgs | services/api_go/internal/jobs/repository_sqlite.go:470-480 | SetStage keeps a leased row sound if and only if the status is active and the progress below 100. |
| JobTable.StmtFrame | services/api_go/internal/jobs/repository_sqlite.go:428-577 | No statement changes user, action, creation time or an existing start time; only a claim counts an attempt and only a user retry clears the count; every statement stamps updated_at. |
| JobTable.HeartbeatRenews | services/api_go/internal/jobs/repository_sqlite.go:445-456 | A heartbeat of the owner sets heartbeat to now and the expiry to one lease later and changes nothing else; Recover leaves the row alone up to that expiry and takes it after it. |
| JobTable.ClaimLeases | services/api_go/internal/jobs/repository_sqlite.go:428-443 | A claim leases the row to its owner for one lease from now; until then Recover leaves it, nobody can claim it, and no statement of another owner meets it. |
| JobTable.OtherUsersJobs | services/api_go/internal/jobs/repository_sqlite.go:537-577 | A cancel or a retry of another user leaves the row as it is. |
| JobTable.ClaimableAfter | services/api_go/internal/jobs/repository_sqlite.go:509-577 | A postponed job can be claimed exactly from its retry time on and with attempts left; a retried one at once; a cancelled or failed one never. |
| JobTable.ExecKeepsSound | services/api_go/internal/jobs/repository_sqlite.go:428-577 | A statement used as its callers use it keeps the whole table sound. |
| JobTable.SweepsKeepRowOk | services/api_go/internal/jobs/repository_sqlite.go:579-609 | Both statements of Recover keep a row sound, and on a sound row the sweep for exhausted waiting jobs changes nothing. |
| JobTable.RecoverExactly | services/api_go/internal/jobs/repository_sqlite.go:579-599 | Recover requeues an active job exactly when its lease expired, attempts are left and it is not a transcription with an open provider task; such a task ends it with its own code; every other row is untouched. |
| JobRepositories.JobRepository.Create | services/api_go/internal/jobs/repository_sqlite.go:272-290 | Inserts a queued row, or a resolving row at 10 percent for an info request; stores nothing if the id exists or another constraint, such as the unique idempotency key, refuses the row. |
| JobRepositories.JobRepository.Earliest | services/api_go/internal/jobs/repository_sqlite.go:430-436 | The inner query of the claim: an eligible row with the least creation time, or none if there is none. |
| JobRepositories.JobRepository.ClaimNext | services/api_go/internal/jobs/repository_sqlite.go:428-443 | Leases an eligible row with the least creation time, counts the attempt and starts at 5 percent; answers none only if no row is eligible. |
| JobRepositories.JobRepository.Heartbeat | services/api_go/internal/jobs/repository_sqlite.go:445-456 | Sets the heartbeat to now and the lease's end to one lease from now on an active row of this owner, and changes no other column; reports a lost lease otherwise and then changes nothing. |
| JobRepositories.JobRepository.SetResolved | services/api_go/internal/jobs/repository_sqlite.go:458-468 | Moves a resolving row of this owner to downloading at 30 percent; otherwise the lease is lost and nothing changes. |
| JobRepositories.JobRepository.SetStage | services/api_go/internal/jobs/repository_sqlite.go:470-480 | Writes stage and progress of a row of this owner; the column check rejects a progress outside 0..100 without storing anything. |
| JobRepositories.JobRepository.CompleteInfo | services/api_go/internal/jobs/repository_sqlite.go:292-300 | Completes a resolving row whoever holds it. |
| JobRepositories.JobRepository.CompleteDownload | services/api_go/internal/jobs/repository_sqlite.go:482-493 | Completes a downloading row of this owner, clears its error and frees the lease. |
| JobRepositories.JobRepository.CompleteTranscription | services/api_go/internal/jobs/repository_sqlite.go:494-507 | Completes a postprocessing row of this owner, clears its error and frees the lease. |
| JobRepositories.JobRepository.RetryLater | services/api_go/internal/jobs/repository_sqlite.go:509-522 | Frees the lease and postpones the job, or fails it when its attempts are used up; progress is kept in the first case and 100 in the second. |
| JobRepositories.JobRepository.CancelOwned | services/api_go/internal/jobs/repository_sqlite.go:524-535 | Cancels a row of this owner and frees the lease. |
| JobRepositories.JobRepository.Fail | services/api_go/internal/jobs/repository_sqlite.go:302-310 | Fails any stored row and frees its lease, with no owner and no status in the condition. |
| JobRepositories.JobRepository.Cancel | services/api_go/internal/jobs/repository_sqlite.go:537-561 | Cancels a waiting job of this user. If the update hits nothing, the table at the later lookup decides between a job that cannot be cancelled and one that is not there, whatever others did in between. |
| JobRepositories.JobRepository.CancelWaiting | services/api_go/internal/jobs/repository_sqlite.go:538-547 | The update of Cancel alone, with whether it hit. |
| JobRepositories.JobRepository.Retry | services/api_go/internal/jobs/repository_sqlite.go:563-577 | Requeues a failed or cancelled job of this user with a clean record. If the update hits nothing, the table at the later lookup decides which error it is, whatever others did in between. |
| JobRepositories.JobRepository.RequeueEnded | services/api_go/internal/jobs/repository_sqlite.go:564-570 | The update of Retry alone, with whether it hit. |
| JobRepositories.JobRepository.Recover | services/api_go/internal/jobs/repository_sqlite.go:579-599 | The two statements in order, with any statements of others between them; the count is that of the second statement on the table it meets. |
| JobRepositories.JobRepository.RecoverLeases | services/api_go/internal/jobs/repository_sqlite.go:587-598 | The second statement alone, with the number of rows it hit. |
| JobRepositories.JobRepository.RecoverOpenTasks | services/api_go/internal/jobs/repository_sqlite.go:579-586 | The first statement alone. |
| JobRepositories.JobRepository.FailExhaustedQueued | services/api_go/internal/jobs/repository_sqlite.go:601-609 | Fails waiting rows without attempts left; on a sound table there are none and the count is zero. |
| JobRepositories.JobRepository.Delete | services/api_go/internal/jobs/repository_sqlite.go:190-213 | Removes the job and its ledger rows together, or neither if it is not this user's job. |
| WorkerPhases.StageTable | services/api_go/internal/jobs/worker.go:264 | The status and percentage stored for each stage: 5, 30, 55 and 90 percent, a picture its floor share of 45 from 30 on, a segment its floor share of 19 from 70 on. |
| WorkerPhases.StageInRange | services/api_go/internal/jobs/worker.go:140-142 | Every stage a worker can reach lies in 0..99 percent, with the floor divisions of the picture and segment shares, and its stage write is one the table accepts. |
| WorkerPhases.ForwardIsMonotone | services/api_go/internal/jobs/transcription.go:22-31 | Along each of the three paths progress never falls and the status never goes back. |
| JobSystem.StepKeepsInv | services/api_go/internal/jobs/worker.go:64-215 | Every step of every interleaving of workers, info requests, user actions, deletions and restarts keeps three invariants: sound rows with timed leases, info jobs apart from workers and deletions, and each leased row showing exactly the stage its own run has reached. |
| JobSystem.LeasedStage | services/api_go/internal/jobs/repository_sqlite.go:458-480 | The stage of a leased row is always the stage of the run that holds the lease. |
| JobSystem.InfoWindowStep | services/api_go/internal/jobs/service.go:23-53 | Nothing but the end of its own request moves an info job out of its window, and nothing moves a job into it. |
| JobSystem.StepsAreDisciplined | services/api_go/internal/jobs/worker.go:140-215 | Callers use SetStage with active stages below 100 percent only, and CompleteInfo on info jobs only. |
| JobRuns.ReachableStatesAreSound | services/api_go/internal/jobs/worker.go:64-103 | All three invariants hold in every state of every execution of any length. |
| JobRuns.LeaseStep | services/api_go/internal/jobs/repository_sqlite.go:428-443 | A lease goes from one owner to another only through being free, and a claim only takes a free lease. |
| JobRuns.LeaseExclusivity | services/api_go/internal/jobs/repository_sqlite.go:428-535 | Between two successful owner-guarded writes to one job by different owners there is a release of the first lease and then a claim by the second owner. |
| JobRuns.LeasedRowWriters | services/api_go/internal/jobs/repository_sqlite.go:579-599 | A leased row is changed only by its owner, by a worker that gives the job up, by Delete, or by Recover when the heartbeat column lies more than one lease back. |
| JobBeats.LeaseRunsFromLastSign | services/api_go/internal/jobs/repository_sqlite.go:428-456 | In every execution a held lease was renewed at its holder's last claim or successful heartbeat, and runs for one lease from it. |
| JobBeats.RecoveryNeedsSilence | services/api_go/internal/jobs/repository_sqlite.go:579-599 | Recovery changes a held job only if its holder's last sign of life lies more than one lease back, and its second statement then always does. |
| JobBeats.HeartbeatShields | services/api_go/internal/jobs/worker.go:392-409 | After a successful heartbeat no recovery up to one lease later changes the job, as long as its owner holds it and its clock does not run back. |
| JobBeats.PunctualWorkersKeepTheirJobs | services/api_go/internal/jobs/worker.go:392-409 | If at every recovery each run that is not over gave its last sign of life no longer than a lease ago, no recovery has taken a job from such a run, and each of them holds its lease. |
| JobRuns.AttemptMovesForward | services/api_go/internal/jobs/worker.go:140-215 | While one owner holds the lease progress never falls, the stage never goes back, and the job stays below 100 percent. |
| JobRuns.IdentityIsFixed | services/api_go/internal/jobs/repository_sqlite.go:272-290 | A stored job keeps its user, action and creation time, and its first start. |
| JobWaiting.PotentialStep | services/api_go/internal/jobs/repository_sqlite.go:428-443 | Every overtaking claim uses the waiting potential up; only a job created with the same or an earlier stamp, or a user retry, adds to it. |
| JobWaiting.BoundedWaiting | services/api_go/internal/jobs/repository_sqlite.go:428-443 | Claims that pass over an eligible job number at most the attempts left to the jobs no younger than it, plus three for each such creation or user retry meanwhile. |
| JobLives.LifeStep | services/api_go/internal/jobs/repository_sqlite.go:509-577 | Attempts left, then the rank of the status, fall at every status change that is not a user retry. |
| JobLives.StatusChangesAreBounded | services/api_go/internal/jobs/repository_sqlite.go:428-609 | A job changes status at most 39 times, and 35 times more for each user retry. |
| JobEndings.EndedStep | services/api_go/internal/jobs/repository_sqlite.go:302-310 | Exactly what one step does to an ended job: its owner's Delete removes it, a user retry reopens it, a run on it that gives it up makes it failed, and every other step leaves it as it is. |
| JobEndings.EndedStatusStaysExactly | services/api_go/internal/jobs/repository_sqlite.go:302-310 | An ended job keeps its status in a step if and only if the step is not its deletion, not its user retry, and not a run on it giving it up unless it has failed already. |
| JobEndings.RunEnds | services/api_go/internal/jobs/worker.go:196-214 | A write that a run makes for a job that has ended or is gone misses, and the run is over after it. |
| JobEndings.RestLasts | services/api_go/internal/jobs/repository_sqlite.go:302-310 | Once no run may still fail an ended job it stays as it is, or is deleted, until a user retries it, and no such run ever gets on it. |
| JobEndings.EndedIsFinalExactly | services/api_go/internal/jobs/repository_sqlite.go:302-310 | Between user retries an ended job is final in every continuation of an execution if and only if no worker run on it may still fail it: one that has not missed a write, completed the job or given it back, at a stage from which the program calls Fail. |
| JobEndings.CompletedIsFinalExactly | services/api_go/internal/jobs/repository_sqlite.go:302-310 | A completed job is final in every continuation, user retries included, if and only if no worker run on it may still fail it. |
| JobEndings.KeepLeasesStep | services/api_go/internal/jobs/repository_sqlite.go:579-599 | While recoveries take leases only from runs that are over, each step leaves every other run with the lease of its job. |
| JobEndings.PoliteEndingsAreFinal | services/api_go/internal/jobs/worker.go:64-70 | If no recovery so far has taken a lease from a run that was not over, every ended job is final until a user retries it, and a completed one for good, in every continuation. |
| JobEndings.FailedStaysFailed | services/api_go/internal/jobs/repository_sqlite.go:302-310 | Without a user retry a failed job stays failed or is deleted. |
| JobEndings.SweepFindsNothing | services/api_go/internal/jobs/repository_sqlite.go:601-609 | In every execution the sweep for exhausted waiting jobs leaves the table as it is. |
| JobEndings.OpenTaskIsNeverReplayed | services/api_go/internal/jobs/repository_sqlite.go:579-586 | A transcription whose lease expired with an open provider task ends failed at Recover and is given to no worker before a user retry. |
| JobEndings.AbandonedInfoJobIsStuck | services/api_go/internal/jobs/service.go:34-52 | An info job whose request vanished is never touched again by claim, recovery, cancel, retry or deletion. |
| JobEndings.InfoJobEndsExactly | services/api_go/internal/jobs/service.go:34-52 | A job in its info window can still end if and only if its request is in flight. |
| JobEndings.RequestCanBeAbandoned | services/api_go/internal/jobs/service.go:34-52 | An execution in which a request is lost and leaves its job at resolving. |
| JobEndings.CompletedJobCanStillFail | services/api_go/internal/jobs/repository_sqlite.go:302-310 | A concrete execution in which a completed job becomes failed, because Fail names no owner: a run whose lease was recovered while it was resolving fails the job after another run has completed it. |
| WorkerWrites.WriteStep | services/api_go/internal/jobs/worker.go:105-215 | Every write the program's automaton accepts, with a flag that is true to the table, is an enabled step of the machine with the write's own arguments and takes the run where the program stands next. |
| WorkerWrites.WriteIsStep | services/api_go/internal/jobs/worker.go:105-215 | A write that ran on the machine's table is the machine's step: its flag is true and it leaves the same table. |
| WorkerWrites.ReleaseInRows | services/api_go/internal/jobs/worker.go:419-446 | By columns: a postponement keeps the progress and sets a retry time while attempts are left and fails the job otherwise; a failure fails it whoever holds it; a cancel cancels it; only the failure touches a row that is not the owner's, and no other row is touched. |
| WorkerWrites.ProgressInRows | services/api_go/internal/jobs/repository_sqlite.go:458-507 | By columns: a stage write or completion that hits leaves the status and percentage that the log records on a row that was the owner's, and one that misses leaves the table. |
| WorkerWrites.OtherStep | services/api_go/internal/jobs/worker.go:64-215 | Any step of anyone else leaves the run of a worker where it stands. |
| WorkerWrites.ProgramsAreExecutions | services/api_go/internal/jobs/worker.go:81-215 | However an accepted program's writes interleave with everyone else's steps, from its claim on, the whole is an execution of the machine, and the run stands where the program stands. |
| WorkerWrites.CompletesOnce | services/api_go/internal/jobs/worker.go:196-214 | A run completes its job at most once and makes no write after it. |
| WorkerWrites.FailsOnce | services/api_go/internal/jobs/worker.go:419-446 | A run that fails its job does so once, as its last write, with no completion, postponement or other failure before it. |
| WorkerPrograms.Worker.FailedWith | services/api_go/internal/jobs/worker.go:419-446 | What the log records is what ran on the table. A cancel cancels the row of the owner, the seven permanent causes and a second FFmpeg failure fail the job with a code, and every other cause postpones the owner's row while attempts are left and fails it otherwise; rows that are not the owner's stay, except for a failure, and so does every other job; a statement that does not reach the table changes nothing. |
| WorkerPrograms.Worker.ReturnedInRows | services/api_go/internal/jobs/worker.go:419-446 | Every error is returned with nothing given back, or after the release that left the row as this error calls for. |
| WorkerPrograms.Worker.DownloadPictures | services/api_go/internal/jobs/worker.go:242-319 | Pictures are written in order with rising shares; the note goes on only if at least one picture was stored. |
| WorkerPrograms.Worker.ProcessNote | services/api_go/internal/jobs/worker.go:220-351 | A note with pictures completes only after one of them was stored, and always by way of postprocessing; success means that the job is stored as completed. |
| WorkerPrograms.Worker.TranscribeSegment | services/api_go/internal/jobs/transcription.go:30 | However often the provider reports, the segment share stays within its bounds and never falls. |
| WorkerPrograms.Worker.Transcribe | services/api_go/internal/jobs/transcription.go:20-36 | Extracting, then transcribing, then postprocessing are written in order, and success means that the job is stored as completed by one completion. |
| WorkerPrograms.Worker.Process | services/api_go/internal/jobs/worker.go:105-215 | Whatever happens around it, every logged write is what ran on the table. Success means that the job is stored as completed, by exactly one completion and no release, on the path that action and work call for: video download, transcription or note; an error means no completion, and either nothing was given back or the last write left the row as the cause calls for. |
| LikeSearch.SearchIsExact | services/api_go/internal/jobs/repository_sqlite.go:424-426 | The escaped pattern matches a text if and only if the text contains the query, up to ASCII case, for every query and text. |
| LikeSearch.ListedIsExact | services/api_go/internal/jobs/repository_sqlite.go:79-82 | A job is listed exactly when the query is empty or occurs in its input, title or author. |
| LikeSearch.FoldJoinsCases | services/api_go/internal/jobs/repository_sqlite.go:79-82 | Two characters are the same to LIKE exactly if they are equal or one ASCII letter in its two cases. |
| LikeSearch.UnescapedSearchIsNot | services/api_go/internal/jobs/repository_sqlite.go:424-426 | Without escaping, a percent sign would match every text. |
| Sessions.StepKeepsInv | services/api_go/internal/auth/repository_sqlite.go:167-193 | Every interleaving of logins, finds, rotations and revocations keeps each login's sessions one acyclic replaced_by chain whose tail alone can be unrevoked, with distinct tokens. |
| Sessions.ReachableStatesAreSound | services/api_go/internal/auth/service.go:75-99 | The chain invariant holds in every state of every execution. |
| Sessions.StoredSession | services/api_go/internal/auth/service.go:75-99 | A login or exchange stores a session of the right user with its own token, usable at exactly the instants before now plus the lifetime; an exchange goes through exactly if the session found is unrevoked and unexpired, and revokes it. |
| Sessions.OneUsableSessionPerLogin | services/api_go/internal/auth/service.go:75-99 | At any moment at most one session of a login is usable, and it is the newest. |
| Sessions.RevocationIsFinal | services/api_go/internal/auth/repository_sqlite.go:221-246 | User and token of a stored session never change, and nothing changes after its revocation. |
| Sessions.OneReplacementPerToken | services/api_go/internal/auth/repository_sqlite.go:175-191 | Of all concurrent refreshes of one session at most one stores a replacement. |
| Sessions.DeadLoginsStayDead | services/api_go/internal/auth/repository_sqlite.go:167-193 | A login with every session revoked never gets a usable one again, also through refreshes already on their way. |
| Sessions.RevokeAllCutsEveryLogin | services/api_go/internal/auth/repository_sqlite.go:230-237 | After all sessions of a user were revoked, a usable session of that user comes from a login inserted later. |
| Sessions.KeptSessionStays | services/api_go/internal/auth/repository_sqlite.go:230-246 | Revoking a user's sessions leaves the kept one and every other user's as they are and ends all others for good. |
| Sessions.ResetIsCompleteExactly | services/api_go/internal/auth/service.go:44-73 | After a reset a usable session of the user can appear without a new password check if and only if a password accepted before it still waits for its session to be inserted. |
| AuthServices.AuthService.CreateSession | services/api_go/internal/auth/repository_sqlite.go:113-124 | Stores a session unless its id or token is taken. |
| AuthServices.AuthService.Login | services/api_go/internal/auth/service.go:44-73 | Each outcome by its cause; on success the session stored is the user's, with the issued token, unrevoked, and ends at now plus the lifetime. A session whose login cannot be recorded is revoked again, or stays if that fails too, and no other session changes. |
| AuthServices.AuthService.RotateSession | services/api_go/internal/auth/repository_sqlite.go:167-193 | Replaces an unrevoked, unexpired session in one transaction and leaves the store unchanged in every other case. |
| AuthServices.AuthService.RevokeSession | services/api_go/internal/auth/repository_sqlite.go:221-228 | Revokes one session of the user and reports whether there was an unrevoked one. |
| AuthServices.AuthService.RevokeUserSessions | services/api_go/internal/auth/repository_sqlite.go:230-246 | Revokes every session of the user except the one kept, if any. |
| AuthServices.AuthService.FindByToken | services/api_go/internal/auth/repository_sqlite.go:126-165 | Finds the session of a token or none. |
| AuthServices.AuthService.Refresh | services/api_go/internal/auth/service.go:75-99 | Among other requests: an unknown token changes nothing, a revoked one cuts off every session of its user unless that statement fails, an expired one or an inactive user is refused, and otherwise the session is exchanged if and only if it is still usable when the exchange is made. The replacement has the predecessor's user and the issued token and ends at now plus the lifetime. |
| AuthServices.UsableForItsLifetime | services/api_go/internal/auth/service.go:231-246 | A session handed out by login or refresh is usable at exactly the instants before its end, so at once if the lifetime is positive. |
| AuthServices.AuthService.SetUserActive | services/api_go/internal/auth/service.go:220-229 | Deactivating a user revokes all sessions; an unknown user or a failed first statement changes nothing, and a failed revocation leaves the user inactive. |
| AuthServices.AuthService.ValidateAccess | services/api_go/internal/auth/service.go:128-142 | Access exactly for a usable session of an active user. |
| AuthServices.RotationHandsOver | services/api_go/internal/auth/repository_sqlite.go:167-193 | After an exchange the new session is usable, the old one never again, and no other session changed. |
| Rc4.TableIsAPermutation | services/api_go/internal/resolver/abogus.go:28-47 | The table is a permutation of 0..255 after key scheduling and after any number of output bytes. |
| Rc4.EncryptLaws | services/api_go/internal/resolver/abogus.go:28-47 | Encrypting twice with one key is the identity, and the ciphertext of a prefix is the prefix of the ciphertext. |
| Rc4.ThreeByteKey | services/api_go/internal/resolver/abogus.go:33-37 | The first four exchanges of the key schedule for the key 1, 2, 3, the last of which begins the key again. |
| Rc4.PlainSchedule | services/api_go/internal/resolver/abogus.go:33-37 | A family of 256-byte keys for which all 256 rounds are known: all but the last leave the table alone. |
| Rc4.FirstKnownAnswer | services/api_go/internal/resolver/abogus.go:28-47 | Known answer: two zeros under such a key that leaves the table alone become 2, 5. |
| Rc4.SecondKnownAnswer | services/api_go/internal/resolver/abogus.go:28-47 | Known answer: two zeros under such a key that exchanges 1 and 255 become 0, 3. |
| Rc4.KeySchedule | services/api_go/internal/resolver/abogus.go:29-37 | The scheduling loop in place computes the specified table for every non-empty key. |
| Rc4.EncryptBytes | services/api_go/internal/resolver/abogus.go:28-47 | The loops in place compute the cipher, with the length of the input. |
| CustomBase64.SymbolPosition | services/api_go/internal/resolver/abogus.go:16 | The 64 symbols are distinct, none is the padding, and the inverse table finds each. |
| CustomBase64.EncodedLength | services/api_go/internal/resolver/abogus.go:50-76 | Four symbols for each three bytes or part of them. |
| CustomBase64.DecodeEncode | services/api_go/internal/resolver/abogus.go:50-76 | Decoding undoes encoding for every byte string. |
| CustomBase64.KnownAnswers | services/api_go/internal/resolver/abogus.go:50-76 | Known answers: the bytes of "Man", its first two and its first, with their padding. |
| CustomBase64.EncodeBytes | services/api_go/internal/resolver/abogus.go:50-76 | The grouping loop and the padding loop compute the encoding. |
| UriComponent.DecodeEncode | services/api_go/internal/resolver/abogus.go:175-189 | Percent-decoding undoes encodeURIComponent for every byte string. |
| UriComponent.EncodedAlphabet | services/api_go/internal/resolver/abogus.go:175-189 | The encoded text holds unreserved characters and percent signs only. |
| UriComponent.EscapedExactly | services/api_go/internal/resolver/abogus.go:177-180 | Exactly which characters below 128 are escaped: control characters, the space and 23 marks. |
| UriComponent.KnownAnswer | services/api_go/internal/resolver/abogus.go:175-189 | Known answer with three escapes, in upper-case digits. |
| UriComponent.EncodeComponent | services/api_go/internal/resolver/abogus.go:175-189 | The loop over the bytes computes the encoding. |
| Words.RotlRotates | services/api_go/internal/resolver/sm3.go:13 | The two shifts are the cyclic shift by any number of places. |
| Sm3.GGChooses | services/api_go/internal/resolver/sm3.go:22-27 | In the late rounds each bit of GG is that of y where x has a one and that of z where it has a zero. |
| Sm3.FFIsTheMajority | services/api_go/internal/resolver/sm3.go:15-20 | In the late rounds each bit of FF is the majority of the three. |
| Sm3Examples.DigestOfAbc | services/api_go/internal/resolver/sm3_test.go:8 | Example 1 of GB/T 32905-2016: the digest of the message abc, byte by byte. |
| Sm3Examples.DigestOfAbcds | services/api_go/internal/resolver/sm3_test.go:9 | Example 2 of GB/T 32905-2016: the digest of sixteen times abcd, over two blocks, byte by byte. |
| Sm3.PadLength | services/api_go/internal/resolver/sm3.go:35-44 | A padded message is a whole number of 64-byte blocks, no longer than needed. |
| Sm3.PadInjective | services/api_go/internal/resolver/sm3.go:35-44 | No two messages below 2^61 bytes have one padding. |
| Sm3.PadMessage | services/api_go/internal/resolver/sm3.go:35-44 | The padding loop adds exactly the zeros that section 5.2 of GB/T 32905-2016 asks for. |
| Sm3.ExpandBlock | services/api_go/internal/resolver/sm3.go:50-56 | The expansion loops compute the words of section 5.3.2 of GB/T 32905-2016. |
| Sm3.Round | services/api_go/internal/resolver/sm3.go:63-82 | The eight assignments of a round are one simultaneous step of section 5.3.3 of GB/T 32905-2016. |
| Sm3.CompressBlock | services/api_go/internal/resolver/sm3.go:49-91 | Expansion, 64 rounds and the final exclusive-or are the compression of one block. |
| Sm3.Sum | services/api_go/internal/resolver/sm3.go:33-101 | The loop program computes the digest of the standard for every message. |
| Sm3.RegsInjective | services/api_go/internal/resolver/sm3.go:96-100 | The digest bytes determine the eight words they were written from. |
| ABogus.RandomRoundTrip | services/api_go/internal/resolver/abogus.go:106-111 | A four-byte group gives its 16-bit value back whenever the constants lie in the gaps of the masks. |
| ABogus.HeaderReads | services/api_go/internal/resolver/abogus.go:129-157 | The header gives back both times modulo 2^40, its four digest bytes and the browser length modulo 256. |
| ABogus.HeaderConstants | services/api_go/internal/resolver/abogus.go:141-156 | The 23 bytes of the header that are the same in every signature. |
| ABogus.PrefixGaps | services/api_go/internal/resolver/abogus.go:113-119 | The constant bits of the prefix, in the gaps of the masks. |
| ABogus.CheckLaws | services/api_go/internal/resolver/abogus.go:121-127 | The check byte of nothing is zero, that of one byte is the byte, and that of two stretches is the exclusive-or of theirs. |
| ABogus.EndCheckNum | services/api_go/internal/resolver/abogus.go:121-127 | The loop computes the exclusive-or of the header. |
| ABogus.List4Arr | services/api_go/internal/resolver/abogus.go:129-157 | The appends build the header from the two SM3 fingerprints; a time of zero stands for now. |
| ABogus.GenerateString1 | services/api_go/internal/resolver/abogus.go:113-119 | Three groups with their constants make the prefix of 12 bytes. |
| ABogus.GenerateString2 | services/api_go/internal/resolver/abogus.go:159-165 | Header, browser string and check byte under RC4. |
| ABogus.ReadSignature | services/api_go/internal/resolver/abogus.go:159-172 | Reading the escaped text through all four layers recovers prefix, header, browser string and check byte, whatever they are. |
| ABogus.SignatureTellsItsInputs | services/api_go/internal/resolver/abogus.go:106-172 | From the text alone: the three random values, both times modulo 2^40, the browser string, and a check byte that is the exclusive-or of the header. |
| ABogus.Sign | services/api_go/internal/resolver/abogus.go:159-189 | The signing program writes exactly the signature that the reader above undoes, with key y, the two fingerprints of the texts followed by cus, and both times from the clock. |
| AsrLedger.MonthsInOrder | services/api_go/internal/asr/repository.go:13-15 | Calendar months follow one another, leap years included. |
| AsrLedger.MonthLengths | services/api_go/internal/asr/repository.go:13 | The lengths of the twelve months of every year. |
| AsrLedger.YearStart | services/api_go/internal/asr/repository.go:13 | A year begins 365 days after the one before and one more for each leap year, in closed form. |
| AsrLedger.MonthOfExactly | services/api_go/internal/asr/repository.go:13 | The month of an instant is the one month whose days it lies in. |
| AsrLedger.NewYear2026 | services/api_go/internal/asr/repository.go:13-18 | The first of January 2026 in milliseconds: its day and month, from midnight to midnight. |
| AsrLedger.InsertIsSafe | services/api_go/internal/asr/service.go:33-34 | A call that passed both checks, with nothing inserted since, is within every daily and monthly cap when it is inserted, also across midnight or the end of the month. |
| AsrLedger.LowerIsSafe | services/api_go/internal/asr/repository.go:23-24 | Changes that lower every total keep every cap. |
| AsrLedger.TotalWithout | services/api_go/internal/jobs/repository_sqlite.go:199 | Deleting a job takes exactly its calls out of every total. |
| AsrLedger.DeletionRefundsExactly | services/api_go/internal/jobs/repository_sqlite.go:199 | Deleting a job lowers the total of a window if and only if one of its calls cost something in it. |
| AsrLedger.ActualIsLower | services/api_go/internal/asr/service.go:33 | A bill of at most the audio length costs at most the estimate; a bill of zero keeps the estimate. |
| AsrLedger.CostOfSeconds | services/api_go/internal/asr/service.go:33 | Sixty times the estimate is the price of the seconds sent; sixty times the actual cost is that of the seconds billed, or of those sent when none are billed. |
| AsrBudgets.StepKeepsInv | services/api_go/internal/asr/service.go:24-34 | Every step of every process, with deletions and lost processes in between, keeps recorded total plus what may still be inserted within the cap plus what all processes but one can add, in every day and month. |
| AsrBudgets.OvershootIsBounded | services/api_go/internal/asr/service.go:24-34 | With n processes no recorded total ever exceeds its cap by more than n - 1 times the greatest estimate of a call. |
| AsrBudgets.OvershootIsReached | services/api_go/internal/asr/service.go:26 | For every n an execution with n processes that exceeds the daily cap by exactly that much. |
| AsrBudgets.CapsAreSafeExactly | services/api_go/internal/asr/service.go:17-34 | The caps hold in every execution with n processes if and only if n is one. |
| AsrBudgets.CapsHold | services/api_go/internal/asr/service.go:24-34 | With one process, in every reachable state no recorded daily or monthly total exceeds a cap that is set, if providers bill at most the audio length. |
| AsrBudgets.CallIsRecorded | services/api_go/internal/asr/repository.go:22 | An insert records the seconds sent, no bill, and a cost that taken sixty times is the price of those seconds. |
| AsrBudgets.AnswerSettles | services/api_go/internal/asr/repository.go:24 | An answer completes its own row with the seconds billed and their price, or that of the seconds sent when none are billed, and changes no other row. |
| AsrBudgets.RecordedIsCharged | services/api_go/internal/asr/repository.go:22-25 | In every reachable state sixty times the recorded total of a day or month is the price of the seconds billed for its completed calls plus those sent for the rest; with deleted jobs counted in, the same. |
| AsrBudgets.AnswersFillTheCap | services/api_go/internal/asr/service.go:26-34 | An execution in which answered calls, one billed less than it sent, fill the daily cap exactly, after which no call of any length gets through that day. |
| AsrBudgets.SpendingIsBounded | services/api_go/internal/asr/service.go:24-34 | All that was ever recorded in a day or month is at most the bound for n processes plus what deletions took out of it. |
| AsrBudgets.CapsBoundSpending | services/api_go/internal/asr/service.go:24-34 | With one process, if no deleted job had a cost in the day or month, the cap bounds all that was ever recorded in it. |
| AsrBudgets.DeletionRefundsTheBudget | services/api_go/internal/jobs/repository_sqlite.go:199 | An execution in which the calls of one day cost more than the daily cap, because a deleted job gave its share back. |
| AsrServices.AsrService.CostBetween | services/api_go/internal/asr/repository.go:17-21 | The sum query adds the costs of exactly the calls started in the window. |
| AsrServices.AsrService.CheckBudget | services/api_go/internal/asr/service.go:34 | Passes if and only if the queries that a cap needs go through and both caps that are set have room for the estimate, first by month and then by day. |
| AsrServices.AsrService.CallProvider | services/api_go/internal/asr/service.go:33 | If the insert goes through, adds one ledger row that shows how the call ended and what it cost, open and at its estimate if it cannot be settled; keeps every cap. |
| AsrServices.AsrService.TranscribeSegment | services/api_go/internal/asr/service.go:24-33 | Calls the primary and, after exactly three kinds of error, the fallback; each call is turned down exactly when a query fails or a cap has no room at its own check; the ledger grows by one row for each call, whichever ledger statements fail: completed with the seconds billed and their price (that of the seconds sent if none are billed), or failed or open with the price of the seconds sent; the answer is a success exactly when the last row is completed; every cap holds. |
| AsrServices.AsrService.DeleteJob | services/api_go/internal/jobs/repository_sqlite.go:199 | Removes the calls of the job and keeps every cap. |
| AudioWindows.LoopEnds | services/api_go/internal/media/ffmpeg.go:31-34 | The cutting loop ends if and only if there is nothing to cut or the arguments are sensible: not a segment of at most a second with a negative or too long overlap. |
| AudioWindows.WindowShape | services/api_go/internal/media/ffmpeg.go:34 | Each window is non-empty, inside the recording and at most a segment; neighbours share exactly the overlap, or what is left of the recording if that is less. |
| AudioWindows.UnionIsTheRecording | services/api_go/internal/media/ffmpeg.go:34 | An instant lies in a window if and only if it lies in the recording. |
| AudioWindows.SentBound | services/api_go/internal/media/ffmpeg.go:30-36 | The windows last at most the recording plus one overlap for each seam. |
| AudioWindows.SplitMp3 | services/api_go/internal/media/ffmpeg.go:30-36 | The loop cuts exactly ceil(total/step) windows in closed form, or stops at the first failure. |
| AudioWindows.SegmentsAreTheRecording | services/api_go/internal/jobs/transcription.go:25-26 | Whatever its length, a recording is sent whole: in one window up to nine minutes, and beyond that in windows of at most nine minutes that begin every nine minutes less a second and share that second. |
| TranscriptMerge.BestIsLongest | services/api_go/internal/asr/service.go:38 | The overlap found is the longest match of 4 to 40 characters. |
| TranscriptMerge.AppendLosesNothing | services/api_go/internal/asr/service.go:38 | What was merged stays in front, the part stands whole at the end, the length is exact, and parts with no match of 4 to 40 characters are joined by a newline. |
| TranscriptMerge.EveryPartIsThere | services/api_go/internal/asr/service.go:38 | Every normalized part stands in one piece in the result, where the merge up to it ends. |
| TranscriptMerge.WindowsRejoin | services/api_go/internal/asr/service.go:38 | Two windows of a text rejoin to it if and only if one is empty, or they share 4 to 40 characters and have no longer match. |
| TranscriptMerge.RepetitionCanBeLost | services/api_go/internal/asr/service.go:38 | A repeating text that loses a repetition. |
| TranscriptMerge.ShortAndLongAreRepeated | services/api_go/internal/asr/service.go:38 | Shared stretches of 3 and of 41 characters are repeated. |
| TranscriptMerge.FindOverlap | services/api_go/internal/asr/service.go:38 | The downward search finds the longest match. |
| TranscriptMerge.Merge | services/api_go/internal/asr/service.go:38 | The loop computes the merge for any normalization. |
| LoginLimiters.LoginLimiter.DropExpired | services/api_go/internal/httpapi/middleware.go:138-142 | The cleanup loop drops exactly the expired windows. |
| LoginLimiters.LoginLimiter.Allow | services/api_go/internal/httpapi/middleware.go:131-158 | Cleanup, cap, new window, full window and count, in this order; by fields: a cleanup that is due after a minute takes the windows away that are a minute old, a call is refused only at ten thousand windows or when its key's live window is full, and one that passes counts in that window or begins a new one. |
| LoginLimiters.TableIsBounded | services/api_go/internal/httpapi/middleware.go:145-147 | The table never holds more than 10,000 windows. |
| LoginLimiters.CountIsExact | services/api_go/internal/httpapi/middleware.go:148-157 | A window's count is exactly the number of calls that passed in its minute, and at most the limit. |
| LoginLimiters.LessThanTwiceTheLimit | services/api_go/internal/httpapi/middleware.go:131-158 | In any half-open minute at most 2 * limit - 1 calls of a key pass. |
| LoginLimiters.BoundIsReached | services/api_go/internal/httpapi/middleware.go:131-158 | For every limit a burst around the end of a window reaches that bound. |
| LoginLimiters.AnswersArePerKey | services/api_go/internal/httpapi/middleware.go:137-147 | As long as the cap is not hit, every answer is that of a limiter for the key alone, without cleanup. |
| FileCleanup.FinalTouchesDueFilesOnly | services/api_go/internal/files/files.go:60-69 | Records that have not expired by now, never expire or are marked keep row and file; every other one is marked with now unless it fails, and then its file is gone. |
| FileCleanup.OnlyExpiredFilesGo | services/api_go/internal/files/files.go:60-69 | By columns: a record that has changed was unmarked with an expiry not later than now, is marked with now, and keeps its other columns; a file that is gone was that of such a record. |
| FileCleanup.SafeStepsKeepTheEnd | services/api_go/internal/cleanup/cleanup.go:21-24 | A stop after any step, also between disk and record, leaves the end state of a later cleanup the same. |
| FileCleanup.StoppedAnywhere | services/api_go/internal/cleanup/cleanup.go:17-27 | The same after any number of steps. |
| FileCleanup.RoundsKeep | services/api_go/internal/cleanup/cleanup.go:17-27 | Whatever fails in whichever round, only due files are touched, and a later cleanup without failures still comes to the same end. |
| FileCleanup.MarkingRoundsAreBounded | services/api_go/internal/cleanup/cleanup.go:17-27 | No run, whatever fails when, has more rounds that mark a record than there are due records at its start. |
| FileCleanup.MarkingLoopEnds | services/api_go/internal/cleanup/cleanup.go:17-27 | If every full batch marks at least one record, the loop ends before more rounds than there are due records, whatever fails when. |
| FileCleanup.IdleRoundRepeats | services/api_go/internal/cleanup/cleanup.go:21-25 | A full batch that marks nothing is followed by a full batch. |
| FileCleanup.WholeBatchLeaves | services/api_go/internal/cleanup/cleanup.go:21-25 | A batch of every due file leaves due exactly what failed in it, and no file whose removal went through. |
| FileCleanup.LastBatchFinishes | services/api_go/internal/cleanup/cleanup.go:25 | A batch that takes in every due file reaches the end state exactly. |
| FileCleanup.LoopEndsExactly | services/api_go/internal/cleanup/cleanup.go:17-27 | With faults that stay the same, the loop ends if and only if fewer than 100 due files keep failing. |
| FileCleanup.SteadyFaultsMarkExactly | services/api_go/internal/cleanup/cleanup.go:17-27 | Faults that stay the same let every full batch mark a record if and only if fewer than 100 due files keep failing. |
| FileCleanup.CleanupService.Expired | services/api_go/internal/files/files.go:60-65 | Unmarked records whose expiry is not later than now, the earliest first, and all of them if the limit allows. |
| FileCleanup.CleanupService.CleanFile | services/api_go/internal/cleanup/cleanup.go:22-23 | Removes the file and then marks the record; a failed removal leaves the record. |
| FileCleanup.CleanupService.Once | services/api_go/internal/cleanup/cleanup.go:17-27 | With arbitrary failures at every attempt, as long as a hundred different due files never all fail in one round: the cleanup ends, has touched due files only, leaves due only what failed last, and a later cleanup without failures comes to the same end; steady faults of fewer than 100 due files give the exact end state. |

## Left out

- JobRepositories.JobRepository.ClaimNext: the source runs select and update as one statement; equal creation times leave the choice open, as in SQLite.
- JobRepositories.JobRepository.Create: the columns of the request are left out, so whether one of their constraints refuses the row is a parameter.
- AuthServices.AuthService.Login: that a statement fails is a parameter, here and in Refresh and SetUserActive, and a statement that fails stores nothing.
- AsrBudgets.OvershootIsBounded: the processes share one clock, and a process reads it and runs its query in one step.
- WorkerPrograms.Worker.Process: does not model the files it writes and rolls back, the step log, or the lengths of retry delays; what resolver, downloads, FFmpeg, providers and storage do is arbitrary. A statement either runs or does not; one that runs but is reported as failed is not modelled.
- AsrServices.AsrService.TranscribeSegment: runs without deletions in between; those and lost processes are in AsrBudgets. A negative or overstated bill is not covered.
- FileCleanup.CleanupService.Once: the clock is fixed during one cleanup, and distinct relative paths are distinct files.
- LikeSearch.SearchIsExact: LIKE's limit on pattern length, and texts with NUL characters, are not modelled.
- Sm3.Sum: of the three digests in the source's test, that of the empty message is not computed; the two of the standard are.
- ABogus.Sign: the random values, the clock and the browser string are parameters.
- Heartbeat timing: a lost heartbeat cancels the run at any moment. The ticker is not modelled; that beats come once per lease is the condition of JobBeats.PunctualWorkersKeepTheirJobs.
- Worker.Cancel and its map of running jobs: a cancel may reach a run at any moment.
- Job step log, audit log, settings, statistics and the database schema beyond the columns named above.
- The listing, paging and ownership queries, which only read.
- Argon2, token signing, encryption of settings, ULIDs and random bytes: identifiers and token hashes are fresh and distinct.
- Last-used stamps of a login and the device records.
- Unicode normalization of transcripts: Normalize is any function.
- FFmpeg, provider HTTP calls and polling, downloads, DNS checks and the headless browser.
- Parsing of web pages and share links.
- HTTP routing, cookies, JSON, ZIP export, the Flutter client and packaging.
- Floating point: costs are real numbers, durations whole nanoseconds.
- RetryAfter, errorCode and other single expressions, which state nothing beyond their bodies.
