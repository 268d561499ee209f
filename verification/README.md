# HorizonX: verified models of its protocols

A Dafny model of the parts of HorizonX in which several parties share state: the job protocol between control plane,
agent and reaper, the agent's worker pool and keyed lock, the request limiter, the metrics pipeline, the WebSocket hub,
the session store, the deployment history, the webhook queue, the deploy pipeline with its health gate, the smoothing
arithmetic and the instance's `.env` file.

`dafny verify dfyconfig.toml` checks all of it.

## How it is modelled

Code that runs concurrently is a state machine: a `State`, the moves that are `Enabled`, their effect `Next`, and `Runs`
and `After` over any sequence of moves. A move is what the code does atomically (one SQL statement, one channel
operation, one critical section, one Redis transaction), so anything may run between two of them, and results are
proved of every run. Code that updates an object in place is a class whose methods are proved against specification
functions, those of the machine where there is one; a method that is several of its steps is proved to be that run,
uninterrupted. Calls that may fail take their outcome from the environment, as a parameter or as part of a move.

| file | models |
|---|---|
| `JobTable.dfy` | job rows and the guarded updates |
| `JobProtocol.dfy` | rows, published events and the deployments' copy of the status, as one machine |
| `JobAgreement.dfy` | when rows and deployments agree |
| `JobService.dfy` | service, retry endpoint and listener as objects over that machine |
| `JobReaper.dfy` | the reaper's pass and its timing against the agents' timeouts |
| `KeyedMutex.dfy` | the per-application lock, line by line |
| `WorkerPool.dfy` | one batch of the agent's workers, using that lock |
| `RateLimit.dfy` | the sliding window over slices compacted in place |
| `MetricsFlush.dfy` | the buffer and its competing flushes |
| `MetricsService.dfy` | latest values, recent histories, ingest |
| `UserHub.dfy` | clients, channels, requests in flight, sends on closed channels |
| `Sessions.dfy` | session keys, index sets, token check |
| `EnvDiff.dfy` | environment diffs and the chain of previous deployments |
| `Webhook.dfy` | the drop-oldest queue and its publishers |
| `Executor.dfy` | health verdict, health gate, deploy and rollback |
| `Ema.dfy`, `Cpu.dfy` | smoothing, and usage from wrapping counters |
| `EnvFile.dfy`, `InstanceEnv.dfy` | the two `.env` readers, and the file printed for them |

## Where the code promises less than its comments

- `internal/agent/keyed_mutex.go:36` calls the deletion safe because no waiter is left. A successful TryLock does not
  show that: a goroutine may have looked the mutex up and not locked it yet, and the entry may by then be another's.
  Exclusion per key holds under the condition of `KeyedMutex.KeyExclusion`, which `KeyedMutex.DeletionIsSafeIffClean`
  shows to be exact; the two concrete runs show both ways of missing it.
- A missed guard in the job table is no error, and the event is published all the same; the requeue has no guard, and the
  retry endpoint reads before it requeues. `JobAgreement.AgreementIsKeptIff` says exactly which starts, reports, requeues
  and deliveries keep row and deployment in agreement; the concrete runs show a late report, a second retry and two
  events in the wrong order.
- The reaper spares every timely job when its pass is not interrupted. Otherwise the row is spared unless the job was
  requeued and started again since the listing (`JobReaper.ReapsTimelyJobIff`, `JobReaper.RestartedJobIsReaped`), and the
  deployment of a spared row may still be announced as failed (`JobReaper.StraddlingPassFlipsDeployment`).
- `internal/adapters/webhook/notifier.go:129-130` says the newest payload is kept. It is with one publisher only
  (`Webhook.NewestIsKeptIff`).
- `internal/application/application/service.go:272-274` says the rollback's tag exists. After any history of deploys and
  rollbacks it does exactly when some build of the application had the reported eight characters as its whole hash
  (`Executor.RollbackTagExistsIff`), so never with the forty that git prints (`Executor.LongHashesAreNotFound`).
- An unregistration may overtake a subscription of the same client, since the hub picks among its queues at random. A
  later event then sends on a closed channel; `UserHub.MoveIsSafeIffPrudent` says exactly when.
- It may also overtake the client's registration: the client is then registered for good after it has gone
  (`UserHub.DepartedClientStaysIff`). And a subscription that overtakes it lists a client the hub does not have;
  `UserHub.TidinessIsKeptIff` says that nothing else makes the channel sets untidy.

## Assumptions

- A new job row is queued with null stamps: `internal/adapters/postgres/migrations/005_jobs.up.sql` gives the status its
  default and the insert names no stamp.
- A deployment gets one job. Finish reports success or failure, which is what agent and reaper send.
- A Finish or Start that the agent sends and the reaper's report reach the service as calls; the order in which their
  events reach the listener is free.
- A commit hash holds no colon; git prints hexadecimal digits.
- Session ids are new each time. Go's TryLock may succeed while others wait, and may fail spuriously.
- The exponential function is a parameter of which only its laws are used: sums become products, values are positive,
  and below one for negative arguments.

## Model

| member | source | states |
|---|---|---|
| `JobProtocol.StatusIsFoldOfEvents` | internal/application/deployment/listener.go:31-120 | in every interleaving of calls and deliveries, a deployment's status is the fold of those created, started and finished events delivered for it whose status write went through, in delivery order |
| `JobProtocol.LastEventDecides` | internal/application/deployment/listener.go:31-120 | in every run a deployment shows what the last event written for a deploy or rollback of an application that names it says, created as pending, started as deploying, finished as failed or successful, and is pending while there was none |
| `JobProtocol.ListenerFollows` | internal/application/deployment/listener.go:31-120 | what one event does to each deployment, kind by kind: only deploys and rollbacks of an application move one, and only the one they name |
| `JobProtocol.EveryCallIsAStep` | internal/application/job/service.go:91-189 | the runs leave nothing out: at any later time any job may be started, reported or requeued whatever its row says, and any event on its way may come next, its write lost or not |
| `JobAgreement.CopiesAgree` | internal/application/job/service.go:138-189 | in every run of harmless steps, once nothing about the deployment of a deploy or rollback job is on its way it agrees with the job's row: running with deploying, success with success, failed with failed, queued with pending or failed |
| `JobAgreement.AgreementIsKeptIff` | internal/application/job/service.go:91-189 | rows and deployments agree, what is on its way accounted for, at every moment of a run if and only if each step is harmless, a condition on the row a call finds, or on what is queued behind a delivered event |
| `JobAgreement.AgreeStepIff` | internal/application/job/service.go:91-189 | the same for one step of any kind: create, start, finish, requeue, and delivery, in or out of order, written or lost |
| `JobAgreement.DeliveryOutlook` | internal/application/deployment/listener.go:31-120 | what delivering any queued event does to the status its deployment will end with: nothing when a later queued event concerns it, otherwise the last word goes to the events before it over the status then stored |
| `JobAgreement.DeliveryAgreesIff` | internal/application/deployment/listener.go:31-120 | from it, exactly when a delivery keeps a row and its deployment in agreement |
| `JobAgreement.FaithfulRunsAreHarmless` | internal/application/job/service.go:91-189 | runs in which every call hits its guard and each deployment's events arrive in order, and are written, consist of harmless steps and keep agreement |
| `JobAgreement.FinishCallAgreesIff` | internal/adapters/postgres/job_repo.go:388-439 | a Finish call, guarded update and published event together, leaves row and deployment in agreement exactly when it hits its guard with success or failure, or merely repeats what the row ended as |
| `JobAgreement.StartCallAgreesIff` | internal/adapters/postgres/job_repo.go:339-386 | the same for Start: it keeps agreement exactly when the job is queued or already running |
| `JobAgreement.RetryCallAgreesIff` | internal/adapters/postgres/job_repo.go:290-337 | the same for the unguarded requeue: exactly when the job is queued or failed |
| `JobAgreement.RetryAfterReadAgreesIff` | internal/adapters/http/job_handler.go:221-253 | whatever runs between the read and the requeue of a retry request, the requeue keeps agreement exactly when the job is queued or failed by then, whatever was read |
| `JobAgreement.SecondRetryBreaksAgreement` | internal/adapters/http/job_handler.go:221-253 | concrete run: two retry requests read the same failed job; the second requeues it when it runs again, and the row ends queued, the deployment deploying |
| `JobAgreement.LateFinishBreaksAgreement` | internal/application/job/service.go:164-189 | concrete run: a job is reaped, its agent reports success afterwards; the row stays failed and the deployment turns successful |
| `JobAgreement.OvertakenEventBreaksAgreement` | internal/application/job/service.go:138-189 | concrete run in which every guard is hit and only the order of two publications differs: the row ends successful, the deployment deploying |
| `JobAgreement.LostWriteBreaksAgreement` | internal/application/deployment/listener.go:51-78 | concrete run in which every guard is hit and only one status write is lost: the row runs, the deployment stays pending |
| `JobProtocol.RowsKeepShape` | internal/adapters/postgres/job_repo.go:236-439 | in every interleaving of create, start, finish and retry: queued rows carry neither stamp, running rows only a start, ended rows a start no later than their finish |
| `JobProtocol.AtMostOneStartAndFinish` | internal/adapters/postgres/job_repo.go:339-439 | between two requeues at most one start and one finish take effect, and exactly as many as the status has climbed |
| `JobProtocol.FirstFinisherWins` | internal/adapters/postgres/job_repo.go:388-439 | until a requeue no call of anybody alters any column of an ended row |
| `JobTable.JobRepository.Create` | internal/adapters/postgres/job_repo.go:236-269 | a new row under an unused id, queued by the column default, with null stamps |
| `JobTable.JobRepository.Retry` | internal/adapters/postgres/job_repo.go:290-337 | requeues and clears the stamps whatever the status was; the missing row is an error |
| `JobTable.JobRepository.MarkRunning` | internal/adapters/postgres/job_repo.go:339-386 | changes the row exactly when it is queued; a missed guard returns the row without error |
| `JobTable.JobRepository.MarkFinished` | internal/adapters/postgres/job_repo.go:388-439 | changes the row exactly when it is running; a missed guard returns the row without error |
| `JobTable.JobRepository.GetPending` | internal/adapters/postgres/job_repo.go:138-189 | the page of a server's queued rows: no row twice, oldest first, nothing older passed over, thirty at most |
| `JobTable.JobRepository.ListRunning` | internal/adapters/postgres/job_repo.go:70-101 | the page of running rows by newest queue time, up to the limit |
| `JobTable.PageIsCompleteUnlessFull` | internal/adapters/postgres/job_repo.go:70-101 | such a page holds every matching row exactly when they fit under the limit |
| `JobService.JobService.Create` | internal/application/job/service.go:91-115 | an uninterrupted call is two machine steps: the insert, then the delivery of job_created |
| `JobService.JobService.Start` | internal/application/job/service.go:138-162 | an uninterrupted call is two machine steps, and job_started goes out even when the guard was missed; the missing row changes nothing |
| `JobService.JobService.Finish` | internal/application/job/service.go:164-189 | the same for job_finished, which carries the reported status, not the row's |
| `JobService.JobService.HandleRetry` | internal/adapters/http/job_handler.go:215-264 | an uninterrupted request: only failed and expired jobs are requeued; every other status is a conflict and changes nothing |
| `JobService.DeploymentListener.HandleJobFinished` | internal/application/deployment/listener.go:80-110 | one job_finished event writes failed for a failed job, else successful, on the deployment it names, for deploy and rollback jobs of an application only |
| `JobReaper.JobTimeout` | internal/agent/job_worker.go:138-158 | for every job type, listed or not, timeout plus fifteen minutes of grace is within the thirty minutes after which the reaper acts |
| `JobReaper.MinutesAllowed` | internal/agent/job_worker.go:138-158 | the timeouts themselves, job type by job type |
| `JobReaper.Run` | internal/workers/job_reaper_worker.go:38-78 | a pass that nothing interrupts is the machine's pass over a page of at most a hundred running jobs |
| `JobReaper.PassRows` | internal/workers/job_reaper_worker.go:52-77 | a pass fails exactly the listed jobs that are due and whose report succeeds, each at its own time, and touches no other row |
| `JobReaper.UninterruptedPassSparesTimelyJobs` | internal/workers/job_reaper_worker.go:38-78 | when every listed job's agent is within timeout and grace, a pass changes nothing at all, deployments included |
| `JobReaper.ReapsTimelyJobIff` | internal/workers/job_reaper_worker.go:38-78 | whatever runs between a pass's listing and its report, the report fails a timely job exactly when the job runs in another execution than the one listed, told by its start stamp |
| `JobReaper.RestartedJobIsReaped` | internal/workers/job_reaper_worker.go:38-78 | concrete run: a job listed as overdue is failed by its agent, requeued and started again; the pass fails the execution of one second |
| `JobReaper.InterruptedPassEndsOverdueExecutions` | internal/workers/job_reaper_worker.go:38-78 | with at most a hundred running jobs and no failing report, however other calls interleave with the pass, no execution overdue at the scan is still running after it |
| `JobReaper.ExecutionEnds` | internal/workers/job_reaper_worker.go:70-77 | an execution followed through any run: reported by anybody it is over, ended by a requeue it never comes back, and kind and later stamps tell executions apart |
| `JobReaper.FullPageSkipsTheOldest` | internal/adapters/postgres/job_repo.go:70-101 | above the limit, some running job queued no later than any listed one is never looked at |
| `JobReaper.StraddlingPassFlipsDeployment` | internal/workers/job_reaper_worker.go:38-78 | concrete run: a pass listing just before and checking just after a punctual success leaves the row successful and announces the deployment failed |
| `KeyedMutex.MutexExclusion` | internal/agent/keyed_mutex.go:20-42 | in every interleaving each mutex object has at most one holder |
| `KeyedMutex.KeyExclusion` | internal/agent/keyed_mutex.go:20-42 | while each deletion so far removed an entry that nobody had looked up and not yet unlocked, no key has two holders |
| `KeyedMutex.DeletionIsSafeIffClean` | internal/agent/keyed_mutex.go:35-39 | the condition is exact: after clean moves a deletion can be followed by two holders of its key, in some clean continuation, if and only if somebody has the key checked out |
| `KeyedMutex.OwnEntryWithoutWaitersIsClean` | internal/agent/keyed_mutex.go:35-39 | a test the unlock could make implies the condition: the entry is the mutex it holds and nobody waits at its lock |
| `KeyedMutex.DeletionUnderAWaiter` | internal/agent/keyed_mutex.go:26-38 | concrete run: an unlock is about to delete its own mutex while another goroutine is on its way to it |
| `KeyedMutex.DeletionOfAnothersEntry` | internal/agent/keyed_mutex.go:32-38 | concrete run: an unlock is about to delete an entry made after the first was dropped, with a holder inside it |
| `KeyedMutex.SomeoneCanMove` | internal/agent/keyed_mutex.go:20-42 | no deadlock: whenever somebody is inside, somebody who is inside can move, whatever was deleted |
| `KeyedMutex.MovesAreBounded` | internal/agent/keyed_mutex.go:20-42 | every move of a goroutine that is inside shortens its way out and moves nobody else |
| `WorkerPool.SendNeverBlocks` | internal/agent/job_worker.go:77-89 | in every reachable state a worker with a result finds room for it |
| `WorkerPool.NoDeadlock` | internal/agent/job_worker.go:81-93 | while a worker is not done, some worker can move, however its call ends and a TryLock turns out |
| `WorkerPool.BatchIsBounded` | internal/agent/job_worker.go:60-103 | every run of a batch takes at most sixteen moves a job and one a worker |
| `WorkerPool.StuckMeansComplete` | internal/agent/job_worker.go:60-103 | with at least one worker, a batch in which nothing can move has reported every fetched job exactly once and left the lock idle |
| `WorkerPool.EveryJobIsFinished` | internal/agent/job_worker.go:105-136 | in a complete batch each fetched job either failed to start or had exactly one execution and one Finish call; the status that call reports is success exactly when the execution succeeded, and the outcome tells which of the three calls failed, fine being none |
| `WorkerPool.CallsBalance` | internal/agent/job_worker.go:105-136 | the same at every moment of every run, with what the workers still carry: an execution follows a successful start, a Finish call its execution, a result its last call |
| `WorkerPool.OneJobPerApplication` | internal/agent/job_worker.go:105-136 | while the lock deletes nothing in use, two workers never execute jobs of one application |
| `WorkerPool.DeletionIsSafeIff` | internal/agent/job_worker.go:81-91 | in the pool a deletion can be followed by two workers inside one application's lock, by actions that delete nothing in use, exactly when somebody has the lock checked out and somebody is about to ask for it or a job that will is still queued |
| `WorkerPool.TwoJobsOfOneApplication` | internal/agent/job_worker.go:105-136 | concrete run of three workers on three jobs of one application in which two end up executing |
| `RateLimit.Limiter.Allow` | internal/adapters/http/middleware/ratelimit/ratelimit.go:30-54 | for a clock that does not run backwards, admits a call exactly when fewer than limit of the key's hits ever admitted are younger than the window, and records it |
| `RateLimit.Limiter.AdmitsAtMostLimit` | internal/adapters/http/middleware/ratelimit/ratelimit.go:30-54 | of everything a limiter ever admitted for a key, no interval of the window's length holds more than limit hits |
| `RateLimit.Limiter.SlotsStayShort` | internal/adapters/http/middleware/ratelimit/ratelimit.go:30-54 | in every state of a limiter, a key's slice has no more cells in use than the limit allows hits, none for a limit below one |
| `RateLimit.DropUntil` | internal/adapters/http/middleware/ratelimit/ratelimit.go:36-43 | the compaction, in place on the backing array, leaves exactly the times after the cutoff, in order |
| `RateLimit.VisitKeepsAnswers` | internal/adapters/http/middleware/ratelimit/ratelimit.go:30-54 | after a visit the short slices still answer every later question as the whole history would, for every key |
| `MetricsFlush.NothingIsLostOrReordered` | internal/application/metrics/service.go:76-97 | at every moment of every interleaving of ingests, size-triggered and ticker flushes: ingested is taken, then the one batch in flight, then the buffer |
| `MetricsFlush.DatabaseHasEverythingIffNoInsertFailed` | internal/application/metrics/service.go:246-277 | the database has received everything that is neither in flight nor buffered, once each and in ingest order, exactly when no insert failed |
| `MetricsFlush.StartsFlusherIff` | internal/application/metrics/service.go:84-96 | an ingest starts a flusher exactly when the buffer then holds ten metrics; a tick always does |
| `MetricsFlush.ArrivalLocksIff` | internal/application/metrics/service.go:246-253 | a flusher gets the lock exactly when nobody has it, and gives up otherwise |
| `MetricsFlush.UninterruptedFlush` | internal/application/metrics/service.go:246-277 | from any reachable state with the lock free, a flush that nothing interrupts empties the buffer into one batch, stored or lost, and leaves the lock free; an empty buffer makes no batch |
| `MetricsFlush.HolderTakesTheBuffer` | internal/application/metrics/service.go:255-264 | in every interleaving the flusher with the lock takes the whole buffer it finds, to which others have only added |
| `MetricsFlush.TakenBufferIsRecorded` | internal/application/metrics/service.go:268-276 | what it took becomes one batch, stored or lost, and no other batch comes before it |
| `MetricsFlush.LockIsReturned` | internal/application/metrics/service.go:246-253 | and then the lock is free again |
| `MetricsFlush.FlusherIsGoneAfterFour` | internal/application/metrics/service.go:246-277 | in every interleaving a flusher is gone after at most four moves of its own |
| `MetricsService.PrefixDropIsFilterIff` | internal/application/metrics/service.go:184-207 | dropping a prefix is filtering exactly when no old sample follows a young one |
| `MetricsService.HistoryIsTheRecentPast` | internal/application/metrics/service.go:184-235 | with timestamps in order the history is the filter of everything ever recorded by the last fifteen minutes |
| `MetricsService.Service.Ingest` | internal/application/metrics/service.go:76-97 | records latest value and both histories; the buffer and the flush asked for, from ten metrics on, are those of the buffer machine's ingest step |
| `MetricsService.Service.HistoriesAreRecent` | internal/application/metrics/service.go:184-235 | both histories of a server after any ingest with timestamps in order: exactly the samples of the last 900 seconds |
| `UserHub.ClosedAtMostOnce` | internal/adapters/ws/userws/hub.go:66-86 | in every order of handling, each client's send channel is closed at most once and never while it is registered |
| `UserHub.PrudentRunsNeverPanic` | internal/adapters/ws/userws/hub.go:56-108 | while the hub never unregisters a client it has with a subscription of that client to a named channel still waiting, nothing is ever sent on a closed channel, whatever else is overtaken |
| `UserHub.MoveIsSafeIffPrudent` | internal/adapters/ws/userws/hub.go:66-108 | the condition is exact: after such moves, a move can be followed by a send on a closed channel, in a continuation of such moves, if and only if it is no such move |
| `UserHub.OrderedRunsArePrudent` | internal/adapters/ws/userws/client.go:52-127 | handling each client's requests in issue order meets the condition |
| `UserHub.OrderedRunsAreTidy` | internal/adapters/ws/userws/hub.go:56-108 | when each client's requests are handled in issue order: subscribers are registered, no channel set is empty, nothing is sent on a closed channel, and both maps are what the handled requests last said |
| `UserHub.RegistrationsAreTheLog` | internal/adapters/ws/userws/hub.go:66-76 | in every run, whatever overtakes what, the hub has exactly the clients whose last handled registration or unregistration was a registration |
| `UserHub.TidinessIsKeptIff` | internal/adapters/ws/userws/hub.go:56-108 | in any order of handling, all subscribers are registered and no channel set is empty at every moment of a run if and only if each subscription handled was that of a client the hub had; as long as that lasts nothing is sent on a closed channel and both maps are what the handled requests last said |
| `UserHub.TidyStepIff` | internal/adapters/ws/userws/hub.go:56-108 | the same for one step of any kind |
| `UserHub.DepartedClientStaysIff` | internal/adapters/ws/userws/hub.go:66-76 | a client that has gone and has no request outstanding is still registered, then and in every continuation, exactly when its unregistration was handled before its registration |
| `UserHub.RegistrationIsOvertaken` | internal/adapters/ws/userws/hub.go:66-76 | concrete run: such a client, registered with nothing outstanding |
| `UserHub.EventReachesTheSelected` | internal/adapters/ws/userws/hub.go:123-156 | as long as every subscription handled was that of a client the hub had, an event reaches exactly the clients the history selects that have room, last in line; the rest are counted, so deliveries and drops add up to the targets |
| `UserHub.BuffersAreBounded` | internal/adapters/ws/userws/client.go:44 | in every run no send channel holds more than 256 messages |
| `UserHub.NothingIsRefused` | internal/adapters/ws/userws/hub.go:56-121 | the runs leave nothing out: until a panic, events, pongs and a live client's requests may come at any time, and the oldest outstanding request may be handled |
| `UserHub.RequestsCanBeWorkedOff` | internal/adapters/ws/userws/hub.go:56-108 | so from any run without a panic all outstanding requests can be handled, the oldest first |
| `UserHub.OvertakenSubscriptionPanics` | internal/adapters/ws/userws/client.go:52-127 | concrete run: an unregistration overtakes its client's subscription and the next event on that channel panics |
| `UserHub.HubObject.Unregister` | internal/adapters/ws/userws/hub.go:70-86 | drops the client, closes its channel, leaves every channel set and removes those it was alone in; an unknown client changes nothing |
| `UserHub.HubObject.HandleEvent` | internal/adapters/ws/userws/hub.go:123-156 | one message to each target with room behind what was there, the others counted, nothing at all when the event does not marshal |
| `Sessions.LiveSessionsAreIndexed` | internal/adapters/redis/session_store.go:33-96 | with expiry, creations, two-step deletions and revocations interleaved, each live session is in its owner's set, unless one was stored inside a revocation of that user |
| `Sessions.CoverIsKeptIff` | internal/adapters/redis/session_store.go:33-96 | the index covers the store, now and after every revocation under way, at every moment of a run exactly when no session is stored inside a revocation of its user |
| `Sessions.CreationInsideUncovers` | internal/adapters/redis/session_store.go:80-96 | a session stored inside a revocation of its user is in no set after it, whatever runs meanwhile, unless it is dead by then |
| `Sessions.RevokeKeepsCoverIff` | internal/adapters/redis/session_store.go:80-96 | a revocation's write leaves the index covering the store exactly when its read saw every session of the user still alive |
| `Sessions.CreationInsideRevocation` | internal/adapters/redis/session_store.go:80-96 | concrete run: the excluded case leaves a live session in no set |
| `Sessions.RevocationIsFinal` | internal/adapters/redis/session_store.go:80-96 | every session a user had when a revocation read the index is dead once its write is through and ever after |
| `Sessions.SessionLivesIff` | internal/adapters/redis/session_store.go:33-96 | a session is found from its creation on exactly while its time of expiry lies ahead and neither a deletion of it nor a revocation that listed it has been written, whatever else runs; one created past its expiry is never stored |
| `Sessions.TokenLivesIff` | internal/adapters/http/middleware/jwt.go:33-49 | a token naming it is accepted over exactly that time, for its user only, and rejected as revoked from the expiry on |
| `Sessions.TokenExpires` | internal/adapters/redis/session_store.go:38-63 | from any run on, the clock may pass a stored session's expiry, and its token is rejected then |
| `Sessions.AcceptedIff` | internal/adapters/http/middleware/jwt.go:18-49 | accepted is exactly a valid token that names no session, or no store to ask, or a session that the store finds and is the token's user's; when the store answers with an error a token naming a session is rejected |
| `Sessions.UninterruptedDelete` | internal/adapters/redis/session_store.go:65-78 | after any run a deletion with nothing between its read and its write ends its session and does what the object's call does |
| `Sessions.UninterruptedRevoke` | internal/adapters/redis/session_store.go:80-96 | the same for a revocation and every session in the user's set |
| `Sessions.DeletedIsNowhere` | internal/adapters/redis/session_store.go:65-78 | a deletion that found its session leaves it neither in the store nor in any set, and every other entry where it was |
| `Sessions.TokenLivesWithItsSession` | internal/adapters/http/middleware/jwt.go:33-44 | a valid token naming a session is accepted exactly while that session is stored, not expired, and its user's |
| `Sessions.ListingsAreCompleteIff` | internal/adapters/redis/session_store.go:98-115 | what is listed for each user is exactly what lives for that user just when the index covers the store |
| `Sessions.SessionStore.ListForUser` | internal/adapters/redis/session_store.go:98-115 | returns the sessions in the user's set that are stored and not expired |
| `Sessions.SessionStore.Delete` | internal/adapters/redis/session_store.go:65-78 | removes the session and its entry in the set of the user it was read with |
| `Sessions.SessionStore.DeleteAllForUser` | internal/adapters/redis/session_store.go:80-96 | removes every listed session and the user's set; an empty set writes nothing |
| `EnvDiff.ForwardsReachesCurrent` | internal/application/deployment/service.go:231-244 | removals, updates and additions applied to the previous environment give the current one |
| `EnvDiff.BackwardsReachesPrevious` | internal/application/deployment/service.go:231-244 | undone on the current environment they give the previous one |
| `EnvDiff.EmptyDiffIffEqual` | internal/application/deployment/service.go:231-244 | the three lists are empty exactly when nothing changed |
| `EnvDiff.DiffTellsEachKey` | internal/application/deployment/service.go:231-244 | each key stands once under the list it belongs to, with its values before and after, and in no other |
| `EnvDiff.ReplayRebuildsSnapshot` | internal/application/deployment/service.go:206-247 | replaying the diffs up the chain of previous deployments terminates and rebuilds the snapshot, deleted predecessors included |
| `EnvDiff.DiffLinksSnapshots` | internal/application/deployment/service.go:206-247 | a deployment's diff leads from the snapshot of its previous deployment to its own, and back |
| `EnvDiff.DeploymentRepository.UpdateEnvSnapshot` | internal/adapters/postgres/deployment_repo.go:361-404 | stores the snapshot and links the newest earlier successful deployment of the application, so links always point down |
| `EnvDiff.DeploymentRepository.Diff` | internal/application/deployment/service.go:186-247 | what the loops collect is a diff: each changed key once, under the right list, with its old and new value; every key an addition without a previous row |
| `Webhook.EveryPayloadIsAccountedFor` | internal/adapters/webhook/notifier.go:129-144 | for any number of publishers between whose steps anything may run: at most 64 payloads queued, every payload exactly once taken, dropped, refused, queued or held, and taken followed by queued is a subsequence of the sends |
| `Webhook.SinglePublisherIsNeverRefused` | internal/adapters/webhook/notifier.go:129-144 | a single publisher's newest payload is never the one dropped |
| `Webhook.NewestIsKeptIff` | internal/adapters/webhook/notifier.go:129-144 | the newest payload is never the one dropped, in any run of n publishers, if and only if n is at most one |
| `Webhook.UninterruptedEnqueue` | internal/adapters/webhook/notifier.go:129-144 | after any run, the moves of one publisher with no others between them refuse nothing, drop the oldest of a full queue only, and leave the publisher idle and the queue with the payload last |
| `Webhook.UninterruptedDrain` | internal/adapters/webhook/notifier.go:76-88 | after any run the consumer's moves can take as many payloads as are queued, in order |
| `Webhook.Notifier.Handle` | internal/adapters/webhook/notifier.go:93-145 | an uninterrupted Handle leaves the queue as that run of moves does, for ended deployments while the webhook is configured, and unchanged otherwise |
| `Webhook.Notifier.Drain` | internal/adapters/webhook/notifier.go:76-88 | the worker empties the queue in order and posts what the settings of the moment allow |
| `Webhook.PostedIffConfigured` | internal/adapters/webhook/notifier.go:76-88 | posted are exactly the payloads at whose turn the webhook was configured, in queue order |
| `Executor.AggregateContainerHealth` | internal/agent/executor/executor.go:295-332 | the loop over a mutable flag computes the verdict stated by quantifiers: the first failing or paused container settles it, else running when all are up, else starting |
| `Executor.RunningMeansAllUp` | internal/agent/executor/executor.go:295-332 | running means a nonempty list of containers that are running and neither unhealthy nor starting, or exited with 0 |
| `Executor.VerdictOnOne` | internal/agent/executor/executor.go:295-332 | the verdict on a single container, state by state, and on none |
| `Executor.OrderIsIrrelevantIff` | internal/agent/executor/executor.go:300-324 | every reordering of the containers gets the same verdict exactly when no failing container competes with a paused one |
| `Executor.WaitForAppRunning` | internal/agent/executor/executor.go:340-398 | for every mix of failing, unreadable and undecided polls the gate returns after at most T/0.5s + T/3s + 2 polls: ready exactly when the last verdict is running, crashed exactly when it is failed, out of time only when that poll ended late, cancelled only in time; each earlier poll was neither up nor failed, nor late, nor cancelled |
| `Executor.FirstUpDecides` | internal/agent/executor/executor.go:370-374 | if a poll finds all containers up and none before it failed, was late or was cancelled, the gate is ready at that poll |
| `Executor.UpInTimeIsReady` | internal/agent/executor/executor.go:349-397 | so it is when what the commands took, half a second for each failing poll and three for each other one, fits into the time |
| `Executor.WaitsAreShort` | internal/agent/executor/executor.go:349-397 | the waits the gate adds are no longer than that |
| `Executor.GateTakesAMinute` | internal/agent/executor/executor.go:548-555 | all of this for the gate of a deploy or rollback, whose time is a minute |
| `Executor.UndecidedPollsAreBounded` | internal/agent/executor/executor.go:349-397 | the bound itself, from the two waits: each failing poll sleeps, each other one consumes a tick |
| `Executor.ReadyMeansAllUp` | internal/agent/executor/executor.go:340-398 | the gate is satisfied exactly when the last poll listed only containers that are up, at least one, and none before was failed or running |
| `Executor.DeployApp` | internal/agent/executor/executor.go:400-555 | for every schedule of failures the trace is the plan up to its first failing step, and the job succeeds only through the gate; a short hash or missing deployment stops it after the fetch |
| `Executor.RollbackApp` | internal/agent/executor/executor.go:636-693 | the same for a rollback; an empty tag is rejected before any effect |
| `Executor.GatedDeployDidAll` | internal/agent/executor/executor.go:400-546 | a deploy that comes to its gate has fetched, reported eight characters of the hash, written the user's and then the merged environment, built and recreated, in this order, and no step failed |
| `Executor.GatedRollbackDidAll` | internal/agent/executor/executor.go:652-686 | and a rollback has written its environment and recreated the stack |
| `Executor.NothingIsTakenDown` | internal/agent/executor/executor.go:119-130 | however a deploy or rollback is cut short, all it asked compose for is `build`, in a deploy, and `up -d --force-recreate`, each right after the compose file was looked up; never `down` |
| `Executor.UpOnlyAfterBuild` | internal/agent/executor/executor.go:472-546 | on every trace of a deploy the only compose command besides build is the recreation, and it follows a successful build, both under the merged environment |
| `Executor.RollbackRecreatesUnderItsTag` | internal/agent/executor/executor.go:652-686 | on every trace of a rollback the recreation sees the environment with the requested tag |
| `Executor.ImageOverrides` | internal/agent/executor/executor.go:493-498 | the merged environment holds all of the user's variables except that the two of the pipeline win |
| `Executor.RollbackTagExistsIff` | internal/application/application/service.go:271-299 | after any history of deploys and rollbacks, each cut short anywhere, the tag made of an application's key and a reported hash is among the tags built exactly when a build of that application succeeded whose whole hash was the reported string |
| `Executor.LongHashesAreNotFound` | internal/agent/executor/executor.go:454-458 | so when all hashes are longer than the eight characters reported, the tag made of what a deploy reported was never built |
| `Executor.RollbackTagIsBuiltTagIff` | internal/application/application/service.go:299 | the tag derived from a deploy's reported hash equals the tag of that same deploy exactly when the hash has eight characters |
| `Ema.EMA.Update` | internal/metrics/ema.go:24-42 | one sample: the first initialises, a clock that has not advanced changes nothing, otherwise the old value decays towards the sample |
| `Ema.DistanceLeft` | internal/metrics/ema.go:32-39 | an update leaves exp(-dt/tau) of the distance from the input, so exp(-1) after one time constant |
| `Ema.StaysWithinSamples` | internal/metrics/ema.go:24-42 | whatever the clock does, the value stays within every range that holds all samples seen |
| `Ema.SubdivisionIsOneUpdate` | internal/metrics/ema.go:32-39 | a constant input at any times, in any order, leaves exactly the state one update at the latest time leaves |
| `Cpu.CPUUsageState.Calculate` | internal/metrics/cpu.go:12-81 | the usages of the average and of every core slot, zero where a reading is missing or no time passed; a reading without cores is not remembered |
| `Cpu.UsageIsPercentageIff` | internal/metrics/cpu.go:49-56 | a usage is never above 100, and not negative exactly when the idle difference is at most the total difference |
| `Cpu.GrowthIsExact` | internal/metrics/cpu.go:43-50 | for counters that only grow and whose sum fits a word, the wrapping differences are the true ones |
| `Cpu.UsageIsBusyShare` | internal/metrics/cpu.go:43-56 | for counters that only grow the usage is the hundredfold share of the ticks that were neither idle nor iowait: 100 without idle time, 0 with nothing else |
| `Cpu.SmoothedUsageIsPercentage` | internal/metrics/cpu.go:12-81 | in every run over such counters the smoothed usage of the average and of every core is in [0, 100], with cores that come and go and clocks that step back |
| `Cpu.ShrinkingIowaitIsNegative` | internal/metrics/cpu.go:46-56 | concrete readings: one tick less of iowait makes the usage negative |
| `EnvFile.ParseEnv` | internal/app/install_agent.go:108-120 | the line loop computes the table of last assignments |
| `EnvFile.EnvValue` | internal/app/install_server.go:335-343 | the line loop with its early return computes the first match |
| `EnvFile.LastAssignmentWins` | internal/app/install_agent.go:108-120 | for any lines, the table holds the value of the last line that assigns the name, and no name that no line assigns |
| `EnvFile.FirstMatchWins` | internal/app/install_server.go:335-343 | for any lines, the other reader returns the rest of the first line that begins with key and equals sign, trimmed, and the empty string without one |
| `EnvFile.TrimIsMiddle` | internal/app/install_agent.go:111-117 | trimming takes white space off both ends and nothing else |
| `EnvFile.PlainWhiteSpace` | internal/app/install_agent.go:111-117 | which ASCII characters are white space, and some that are not ASCII |
| `EnvFile.ReadersAgreeIff` | internal/app/install_server.go:335-343 | first match and table agree on a key, in every file that assigns each name once and right up to its equals sign, exactly when the key is no comment, not empty and has no equals sign a name could end at, or is one no line can hold |
| `InstanceEnv.FieldsComeBackIff` | internal/app/instance_env.go:90-148 | parsing the rendered file returns every assignment under its name exactly when no field holds a line end and none but the host begins or ends with white space; equals signs and hashes survive |
| `InstanceEnv.EachFieldUnderItsName` | internal/app/instance_env.go:90-148 | on such a file each field is found under its own name, the two passwords and the URLs made of them and of the host included |
| `InstanceEnv.JoinOfParts` | internal/app/instance_env.go:145 | the allowed origins are joined by commas |
| `InstanceEnv.BothReadersAgree` | internal/app/instance_env.go:90-148 | on such a file both readers return the same for every safe key |
| `InstanceEnv.AssignmentIsParsed` | internal/app/install_agent.go:111-117 | a printed assignment is read back under its name with the white space around its value removed |

## Left out

- SQL, Redis, WebSocket, HTTP, docker and git are atomic steps or outcomes chosen by the environment; JSON, token signing and password hashing are not part of this model.
- JobService.JobService.HandleRetry: the object's call is not interrupted; what may run between its read and its requeue is in `JobAgreement.RetryAfterReadAgreesIff`.
- JobReaper.Run: the object's pass is not interrupted; interrupted ones are runs of the machine that contain its calls.
- Deletion of jobs, the expiry column, the deployments' own started and finished stamps, and the server and application status that other listeners keep.
- The event bus as a registry of handlers: publishing is a direct call of the one listener concerned, which `internal/event/bus.go` does in order and synchronously.
- HTTP requests that finish a job with a status other than success or failed.
- Cancellation of a worker batch, and the time spent draining logs after a job; the latter is the reaper's grace.
- The Go memory model: keyed lock, pool, flushes, queue, hub and sessions interleave atomic steps of values.
- A queue-full or cancelled Broadcast, hub shutdown and the client pumps after it.
- The cold-load path of the histories, which stores newest-first data, and the ticker that broadcasts latest values.
- The agents' WebSocket router, whose late unregistration removes whoever is under the id by then.
- Installers, host probing, user and role administration, pagination, log tails: plumbing or single-branch facts.
- Executor.WaitForAppRunning: each `compose ps` is taken to return after some time of its own; nothing bounds that time.
- Executor.DeployApp: the steps' log messages, the printing of the `.env` file and the parsing of `compose ps` output are not modelled; an output is a list of containers, or unreadable.
- Cpu.CPUUsageState.Calculate: names are parsed already, so two spellings of one core number and negative numbers do not occur; floating-point rounding is not modelled.
- Cpu: power from energy counters, and the other smoothed signals, which only repeat the smoother.
- Ema.EMA.Update: over real numbers; rounding is not modelled.
- RateLimit.Limiter.Allow: the lock around it makes a call one step; addresses are numbers, since keys are only compared.
- InstanceEnv.FieldsComeBackIff: the wording of the comments is a parameter, any lines without line ends; characters are Unicode characters, not bytes, so invalid encodings are not modelled.
- EnvFile.ReadersAgreeIff: the condition excludes, besides comments and keys with an equals sign, only the empty key; it admits keys that no line can hold, on which both readers find nothing.
- Sessions.SessionStore.Delete: the object methods are uninterrupted calls; the interleavings are in the machine.
