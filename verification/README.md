# svlopp, modelled and proved

svlopp is a single-threaded process supervisor. It keeps a registry of services, starts one process
for each, and reacts to five kinds of event: SIGHUP (reload), SIGCHLD (reap), SIGTERM/SIGINT
(shutdown), a periodic timer, and commands read from a FIFO. This project models the registry, the
service state machine, every event with its early returns, the status file and the control FIFO, and
proves what holds over whole runs.

How the model is laid out:

- `Types`, `Steps` - services, configurations, events, and each event as a function from one state of
  supervisor and kernel to the next (`Step`, `Run`). What the kernel decides (does a call succeed,
  which pid does `fork` return, how much time passes, who is waitable, in which order `wait` reports)
  and the unspecified iteration order of every hash map are part of the event, so a statement about
  all events is a statement about all of them. The kernel promises only that `fork` returns a pid that
  no unreaped child holds. Startup is `Booted`; a state some run leads to is `Reachable`.
- `Histories` - the kernel's own record of forks (with the argv, environment and definition that the
  child executes), signals and reaps. `Alive`, `StopOf` and `LatestFork` are read off that record alone,
  and `Disciplined` says which records are acceptable without mentioning the supervisor.
- `Invariants` - one invariant for every reachable state.
- `Lifecycles` - every loop over the registry as one simultaneous update; `LocalStep` is the automaton
  of a single service.
- `Startups`, `Outcomes` - what startup and each event do, spelled out in fields, kernel answers and
  numbers, without the definitions of the other modules.
- `Runs`, `Shutdowns`, `Reaping`, `Reloads`, `Convergence`, `Executions` (what processes execute),
  `Signals` (under which definition they are stopped) - the theorems.
- `Boundaries` - claims one would like to make that the code does not keep, with the exact conditions
  under which it does; `Witnesses` - runs from startup into the failing sides of these and of the
  boundaries stated among the theorems.
- `Supervision` - the supervisor as objects with fields, loops and early returns; each method is proved
  to have exactly the effect of its function in `Steps`.
- `StatusText`, `Publication`, `ControlFrames`, `EndToEnd` - the status printer with its reader, the
  write-then-rename protocol, the FIFO, and the path of a request from status file to service.

Where the documentation and the code differ, the model follows the code:

- README.md:222-223 says that `on_exit` is not taken for a service svlopp stops. A process that answers
  the stop signal by dying of SIGSEGV, SIGABRT, SIGFPE, SIGILL or SIGBUS is classified as crashed
  (src/service.rs:133-135), and then `on_exit` is taken (`Runs.FallbackAfterStopIff`).
- README.md:111 lists the bytes of a control frame from the most significant one; the code and README.md:108-109
  have the least significant one first.
- src/service.rs:782 says that a running process continues with its old configuration until it exits. The
  stop signal and the timeout used on it are already those of the new one
  (`Boundaries.StoppedByNewDefinition`); `Signals.StepStopsOwnIff` says exactly when this
  makes a difference, and `Witnesses.StoppedByOtherDefinition` is a run in which it does.

## Model

| member | source | states |
|---|---|---|
| Invariants.ReachableInv | src/service.rs:600-606 | Every state any run can reach, including after a reload that gave up half way, satisfies the invariant: the two maps are in step, the pid map is what the kernel's record says is unreaped, the record is disciplined, ids and names are unique |
| Invariants.ReloadInv | src/service.rs:722-810 | Reload keeps the invariant for every order of its three iterations and at whichever `?` it returns |
| Invariants.LaunchInv | src/service.rs:532-559 | Starting a stopped or new service under a fresh pid and registering that pid keeps the invariant, and uses up no other pid |
| Invariants.HaltInv | src/service.rs:565-574 | Sending the stop signal keeps the invariant and leaves the set of unreaped children alone |
| Invariants.KillInv | src/main.rs:237-247 | A SIGKILL at or after the deadline is an allowed effect on the history |
| Invariants.ReapOneInv | src/service.rs:896-935 | One report of `wait`, known or unknown pid, ended or not, keeps the invariant |
| Invariants.BootInv | src/main.rs:123-160 | Startup establishes the invariant, also when some services could not be started |
| Startups.StartupOutcome | src/main.rs:127-160 | After startup the names in the registry are those of the configuration, each with its definition, nothing pending and ids in order of insertion; every service whose fork succeeds is Running with that pid in a process that executes its command, arguments and environment, every other is NeverStarted with no fork |
| Startups.StartupOkIff | src/main.rs:127-135 | Startup reaches the event loop exactly when no command, argument or environment entry holds a NUL and there are at most 2^64-1 services |
| Startups.BootedOutcome | src/main.rs:123-160 | Every run begins so |
| Invariants.StepInv | src/main.rs:169-318 | Every event keeps the invariant |
| Runs.ProcessesAccounted | src/service.rs:600-689 | In every reachable state the pid map is the inverse of the services' pids and equals the set forked and not yet reaped; forks minus reaps of an id is 1 if it is Running or Stopping, else 0; NeverStarted means never forked |
| Runs.StopReasonsTrue | src/service.rs:118-144 | In every reachable state the reason of a stopped service is the classification of how its last process ended, by whether that process had been sent its stop signal; Crashed stands for the signals 4, 6, 7, 8 and 11 alone |
| Runs.SignalsWellAimed | src/service.rs:565-584 | Every stop signal, SIGKILL and reap in any run concerns a child that is unreaped at that moment and belongs to that service; a process gets one stop signal at most; its deadline is the return of that call plus exactly the timeout then in force, and SIGKILL comes no earlier; a fork hands over the environment of the definition it is made for |
| Histories.ForksMinusReaps | src/service.rs:551-555 | In any disciplined history forks minus reaps is the number of live processes of the service |
| Histories.OneProcessPerService | src/service.rs:602-605 | A service never has two processes at once |
| Histories.StopsBoundedByForks | src/service.rs:565-574 | Successful stop signals never outnumber the processes forked, and stay below while one has not got its signal |
| Histories.KillNeverEarly | README.md:83-84 | Every SIGKILL is preceded by the stop signal of the same process; its deadline is the return of the stop call plus exactly the timeout, and the SIGKILL goes out no earlier |
| Runs.DeadlineIsTimeout | README.md:81-84 | In every reachable state the deadline of a stopping service is the timeout in force when its stop signal was sent, counted from the return of that call |
| Runs.PresentProcess | src/service.rs:551-555 | A live process is the one its service forked last, and the stop signal it got the last one sent for the service |
| Runs.DeadlineNeverMoves | src/service.rs:565-574 | Over any run, reloads included, a service that is Stopping and was not forked in between has the same process and the same kill deadline |
| Runs.KilledExactlyWhenOverdue | src/main.rs:230-247 | Over any run the SIGKILLs sent to a service are as many as the ticks that begin at or past its deadline: one at each such tick, none otherwise |
| Runs.StepKills | src/main.rs:235-247 | No event but a tick sends SIGKILL, and a tick does so exactly to the overdue services |
| Runs.IdsNeverReused | src/service.rs:311-323 | Over any run an id given to a name never denotes another name and never comes back once removed; at most 2^64-1 ids are issued |
| Runs.StartsBounded | src/main.rs:248-290 | Forks of one id are at most 1 plus ticks, reloads, and Start/Restart commands addressed to it |
| Runs.RunStarts | src/main.rs:248-290 | The same bound for a run from any state; without commands and reloads it is the number of ticks |
| Runs.RemovalIsFinal | src/service.rs:845-876 | With Remove pending and no further reload, no mix of commands, reaps, ticks and shutdown forks the service again |
| Runs.RemovedAtFirstTick | src/main.rs:261-264 | Such a service leaves the registry at the first tick after its process was reaped |
| Runs.StoppedStaysDown | src/service.rs:119-143 | A service stopped by the supervisor with nothing pending is not forked again in any run without a reload, a Start/Restart for it, or a crash of its process, whatever its on_exit |
| Runs.FallbackAfterStopIff | README.md:222-223 | After a stop with nothing pending, on_exit takes effect exactly when the process ended by a crash signal |
| Witnesses.RestartedAfterStop | README.md:222-223 | A run from startup in which a service that was told to stop crashes and is started again |
| Runs.RequestsRespectPending | src/service.rs:812-829 | Over any sequence of commands and reaps a pending action other than None stays and its service is not forked; the only change is None to Restart |
| Runs.RequestStep | src/service.rs:845-876 | A command forks only the service it addresses, only when that is stopped with nothing pending, and Stop never forks |
| Runs.StepGrows | src/main.rs:166-319 | No event rewrites history or turns back the clock |
| Lifecycles.StepAt | src/main.rs:169-318 | Every event moves every service as the automaton of a single service does, with what is forked and which stop signal and deadline it gets: exact for ticks, reaps, shutdown and commands, bounded for reloads |
| Outcomes.TickOutcome | src/main.rs:235-293 | A tick removes a stopped service exactly when Remove is pending, or nothing is pending, on_exit is Remove and it neither never ran nor was ended by the supervisor; it restarts one under the same condition for Restart if the fork succeeds, only clears what is pending otherwise, and sends SIGKILL exactly to stopping services at or past their deadline |
| Outcomes.ReapOutcome | src/service.rs:894-956 | SIGCHLD stops exactly the services whose process has ended: SupervisorTerminated if it was stopping, else Success, Error or Killed, but Crashed for the signals 4, 6, 7, 8 and 11 in either case; nothing else about them changes |
| Outcomes.CommandOutcome | src/service.rs:836-881 | A command starts, stops or restarts exactly the service it addresses, exactly in the states that allow it, with the deadline of the stop in milliseconds after the call |
| Outcomes.CommandOkIff | src/service.rs:830-882 | A command fails exactly if it had to start or stop its service and could not |
| Outcomes.RequestOutcome | src/main.rs:203-223 | The first shutdown request stops every running service whose signal gets through and changes no other; later requests change none |
| Outcomes.HangupOutcome | src/main.rs:173-188 | A SIGHUP with an unreadable configuration, or after shutdown was requested, changes nothing at all; any other has exactly the effects of the names it gets to |
| Outcomes.NothingAppears | src/main.rs:169-318 | Only a reload adds a service |
| Outcomes.DeadlineKillIsFinal | src/utils.rs:42-47 | A service stopped by request with nothing pending whose process ends by SIGKILL is SupervisorTerminated(Signaled(9)) and, without a reload or a Start/Restart for it, is never forked again, whatever its on_exit |
| Lifecycles.TickAllAt | src/main.rs:235-293 | A tick treats all services at once, whatever order retain visits them in: next state, removal, the process forked and what it executes, and SIGKILLs of each depend on that service and its own kernel answer |
| Lifecycles.ReapIsSimultaneous | src/service.rs:894-956 | The reap loop is one simultaneous update of the registry, and after a full round nothing is waitable |
| Lifecycles.StopAllAt | src/main.rs:208-217 | Shutdown sends each running service the stop signal of its definition, independently of the others, with its timeout after that call as deadline, and changes nothing else |
| Lifecycles.ControlAt | src/service.rs:836-881 | A command changes only the service it addresses, as its state, its pending action and the operation determine: what is forked and what it executes, which stop signal is sent and its deadline |
| Lifecycles.ReloadForks | src/service.rs:722-810 | One reload, however it ends, forks a service at most once, reaps nothing and sends no SIGKILL |
| Lifecycles.ReasonTellsAll | src/service.rs:118-144 | The stop reason determines how the process ended and, unless it crashed, whether it had been asked to stop; a reaped service is never NeverStarted |
| Reaping.ReapOrderIrrelevant | src/service.rs:895-953 | Any two orders in which wait reports the same children leave the same registry, pid map and per-service record |
| Reaping.CoalescedIsOneByOne | src/main.rs:193-201 | A run with one SIGCHLD for many children ends in the same registry, pids, per-service record and exit decision as the run with one SIGCHLD per child, in whatever order they are reported |
| Reaping.CoalescedLeavesToo | src/main.rs:193-201 | If one SIGCHLD per child makes the loop end before the last child, the coalesced SIGCHLD ends it too, with the same registry and record |
| Shutdowns.NormalExitIff | src/main.rs:193-223 | In every run that did not fail, the loop has been left exactly when shutdown was requested and every process ever forked for a service has been reaped |
| Shutdowns.ExitOf | src/main.rs:194-222 | The loop is left in the very event after which no service is live while shutting down, or on an I/O error, and in no other |
| Shutdowns.ShutdownOnlyDrains | src/main.rs:202-223 | After the request, with no restart pending, owed or commanded and no process ending in a way its service is restarted for, nothing is forked and the live services are those live at the start and not reaped since: never more, and one fewer with each reap. Services with on_exit Restart are included as long as they are stopping and do not crash |
| Shutdowns.CalmExactly | src/main.rs:248-258 | The endings excluded there are exactly those after which a restart is due |
| Shutdowns.ShutdownShrinksIff | src/main.rs:235-307 | While shutting down, the set of live services can grow, and does so at exactly those events that start a service: ticks with a restart due and Start/Restart commands |
| Shutdowns.RequestStopsAllIff | src/main.rs:206-217 | The shutdown request leaves no service running exactly when every stop signal it sends gets through |
| Shutdowns.NoneRunningIff | src/main.rs:235-307 | From then on no service is running except after exactly the events that start one |
| Shutdowns.WaitedForIsKilled | src/main.rs:237-247 | Until such an event, every service that shutdown still waits for is stopping, and each tick at or past its deadline sends it SIGKILL |
| Shutdowns.ShutdownWaits | src/main.rs:202-223 | A service that is running while shutting down is waited for without end: no SIGTERM, reload or tick stops, kills or drops it, and the loop does not end normally, until its process ends or a command is sent for it |
| Witnesses.ShutdownHangs | src/main.rs:208-217 | A run from startup into that: one stop signal of the request fails |
| Witnesses.RestartAfterShutdown | src/main.rs:265-288 | A concrete run from startup in which the tick after a shutdown request forks a service that had already stopped |
| Reloads.ReloadOkIff | src/service.rs:729-809 | Reload returns Ok exactly when every kernel call it needs succeeds, every new or changed definition can be built and the ids suffice: a condition free of any order |
| Reloads.ReloadAt | src/service.rs:722-810 | A successful reload, service by service: removed, stopped for removal or for restart with its signal and deadline, untouched, or started on its new definition; new names get consecutive new ids and run theirs; nothing else is in the registry |
| Reloads.PartialReloadAt | src/service.rs:722-810 | Any reload, successful or not, service by service: every name up to and including the first failure has had its effect, half-way effects of the failing one included, and no other service is touched; an id may be spent |
| Reloads.RemoveAllAt | src/service.rs:733-754 | The removal loop succeeds exactly when every stop signal it needs can be sent; it retires exactly the services whose name the configuration lacks, up to the first failure, and touches no other |
| Reloads.ApplyAllAt | src/service.rs:756-808 | The configuration loop succeeds exactly when its calls do; up to the first failure it revises exactly the changed services and adds exactly the new names, and touches no other |
| Invariants.IndexExact | src/service.rs:729-732 | The name index a reload builds is the exact inverse of the services' names, in whatever order it is filled |
| Convergence.ReloadIdempotent | src/service.rs:722-810 | After a reload that returned Ok, a second one with the same configuration returns Ok, changes nothing, forks nothing and signals nothing, for all orders and all kernel answers |
| Convergence.ReloadOrderIrrelevant | src/service.rs:729-808 | Success, presence, definition, kind of state, pid and pending action of every name are the same for all iteration orders |
| Convergence.ReloadConvergesIff | README.md:72-76 | After a successful reload of a quiescent state, and any further run of time, status reports, reaps and ticks in which only processes asked to stop end, at whatever times, the registry is the configuration exactly when nothing is stopping and nothing is pending: the names are those configured, new and changed services run a process forked since that executes their new definition, unchanged ones are exactly as before |
| Convergence.ReloadConverges | src/main.rs:231-288 | After any such run in which every process asked to stop has been reaped, one tick suffices |
| Convergence.PendingRemovalSurvives | src/service.rs:776-777 | A service named again while its removal is pending keeps that removal exactly when its definition is unchanged or it is already stopped |
| Convergence.StartedWithPendingIff | src/service.rs:785-794 | After a successful reload some running service has a pending action exactly when a stopped, changed service had one |
| Boundaries.ReloadKeepsFreeIff | src/service.rs:733-805 | Any reload, successful or not, leaves running services without pending action exactly when it gets neither to a stop signal that fails nor to a stopped, changed service that had one |
| Boundaries.StepKeepsFreeIff | src/service.rs:870-874 | Every event leaves running services without pending action, except exactly the reloads above and a Restart command whose stop signal fails |
| Witnesses.RunningWithRestartPending | src/service.rs:785-794 | A run from startup in which a reload starts a service that has a restart pending |
| Witnesses.RestartCommandStuck | src/service.rs:870-874 | A run from startup in which a Restart command that fails leaves a running service with the restart pending |
| Witnesses.RemovalOutlivesReload | src/service.rs:776-777 | A run from startup in which a service is taken out of the configuration and put back unchanged, and is still to be removed |
| Boundaries.UpdateConfigAgreesIff | src/service.rs:421-426 | A rejected definition leaves environment and configuration in agreement; argv disagrees exactly when argv was accepted, differs, and the environment was rejected |
| Executions.StepOnRecord | src/service.rs:494-559 | Whatever event forks a process of a service, reloads that fail later included, it executes the argv, environment and definition that the event leaves in the record; whatever event sends a stop signal, signal, timeout and deadline are those of the definition it leaves in the record |
| Executions.ReloadAgreesIff | src/service.rs:775-783 | Any reload, successful or not, keeps every argv in agreement with its definition exactly when it does not get to a definition whose argv is accepted and new and whose environment is rejected |
| Executions.StepAgreesIff | src/main.rs:169-318 | No other event disturbs that agreement |
| Executions.ArgvAgreesIff | src/service.rs:421-426 | In a run from startup argv and definition agree after every event exactly when no reload stops half way through a definition; that suffices for every process to execute the argv of its definition |
| Executions.StepFaithfulIff | src/main.rs:265-288 | What an event forks executes the argv of its definition, except exactly when a tick or a command starts a service whose argv is stale; no reload does, failing or not |
| Executions.ArgvFaithfulIff | src/service.rs:494-517 | Every process a run from startup forks executes the command of its definition followed by each of its arguments, if and only if no tick and no command of the run starts a service whose argv is stale |
| Executions.FaithfulStage | src/service.rs:494-517 | In such a run every single fork has argv of one entry more than the arguments, the command first and then the arguments in order, and the environment of its definition |
| Executions.SoundRun | src/service.rs:421-426 | That is so in every run in which no configuration holds a NUL in an environment |
| Executions.StepRunsRecordIff | src/service.rs:775-803 | Every event keeps each running service in a process that executes the argv, environment and definition of its record, except exactly a reload that gets to a changed, running service whose stop signal fails or whose definition it rejects half way |
| Executions.RunsRecordIff | src/service.rs:775-803 | The same over whole runs from startup |
| Witnesses.OldProcessKept | src/service.rs:775-803 | A run from startup in which a reload fails to stop a changed service, and the same reload repeated returns Ok and leaves the old process running |
| Witnesses.RejectedArgvExecuted | src/service.rs:421-426 | A run from startup in which a reload rejects a definition, the process ends, and on_exit forks the command of the rejected definition |
| Boundaries.EnvironmentsNeverStale | src/service.rs:421-426 | In every reachable state the environment to exec with is that of the current configuration |
| Boundaries.StoppedByNewDefinition | src/service.rs:780-803 | A changed running service gets the stop signal and the timeout of its new definition |
| Signals.StepSignals | src/service.rs:565-574 | The stop signals of any event, failing reloads included, exactly: to which processes, which signal, and with which deadline; a reload sends those of the definition it has just taken over |
| Signals.StepFitsIff | src/service.rs:775-803 | What an event sends fits the definition the process was forked for, except exactly when it is sent under a definition with another stop signal or timeout |
| Signals.StopsFitIff | src/service.rs:775-803 | Every process of a run from startup gets the stop signal and timeout of the definition it was forked for if and only if no event of the run sends one under a definition that differs |
| Signals.StepStopsOwnIff | src/service.rs:780-803 | Every event stops processes, and leaves running ones to be stopped, as the definitions they were forked for say, except exactly a reload that takes over, for a running service, a definition with another stop signal or timeout |
| Signals.StopsOwnIff | src/service.rs:780-803 | The same over whole runs from startup |
| Witnesses.StoppedByOtherDefinition | src/service.rs:780-803 | A run from startup in which a process forked for SIGTERM and 5 s is stopped with SIGINT and 1 ms |
| Boundaries.FailedStopLeavesPending | src/service.rs:747-751 | A removal stops the reload exactly when the stop signal to a running service fails, and then leaves it running with Remove pending |
| Boundaries.FailedRestartForgotten | src/main.rs:249-286 | An explicit restart that fails is dropped; the next tick tries again exactly when on_exit would have restarted the service anyway |
| Witnesses.RestartLost | src/main.rs:249-286 | A run from startup in which a restart asked for is lost because one fork fails |
| Supervision.Supervisor.Handle | src/main.rs:169-318 | Handling one event has exactly the effect of Step, and keeps the invariant |
| Supervision.Supervisor.Loop | src/main.rs:166-319 | The event loop has exactly the effect of Run |
| Supervision.Supervisor.Startup | src/main.rs:123-160 | Loading and starting the configured services succeeds exactly if the configuration is startable, and then leaves every configured service in the registry, running if its fork succeeded |
| Supervision.Supervisor.InsertServices | src/main.rs:127-135 | The first startup loop is InsertAll, early return included |
| Supervision.Supervisor.StartServices | src/main.rs:137-160 | The second startup loop is StartAll; a failed start changes no service |
| Supervision.Supervisor.ReloadServices | src/service.rs:722-810 | Reload as two loops with early returns has the state and result of Reload |
| Supervision.Supervisor.RetireAll | src/service.rs:733-754 | The removal loop is RemoveAll |
| Supervision.Supervisor.ApplyConfig | src/service.rs:756-808 | The configuration loop is ApplyAll |
| Supervision.Supervisor.Revise | src/service.rs:775-806 | Updating a changed service is ReviseOne, also when update_config fails half way |
| Supervision.Supervisor.Add | src/service.rs:758-774 | Adding a new service is AddOne; a failure may still have spent an id |
| Supervision.Supervisor.HandleSigchld | src/service.rs:894-956 | The reap loop terminates, is ReapAll, and returns an error exactly when wait does |
| Supervision.Supervisor.WaitAndReap | src/service.rs:896-953 | One turn of the reap loop is ReapOne if wait reports a child, and no change otherwise |
| Supervision.Supervisor.StopServices | src/main.rs:208-217 | The shutdown loop is StopAll |
| Supervision.Supervisor.Tick | src/main.rs:229-293 | The tick, with the time read once at its beginning, is TickAll |
| Supervision.Supervisor.TickService | src/main.rs:236-292 | The body of retain is TickOne |
| Supervision.Supervisor.ApplyControlOp | src/service.rs:830-882 | A command is Control, with the same result |
| Supervision.Supervisor.Launches | src/service.rs:532-559 | start_service and the pid registration are Launch |
| Supervision.Supervisor.StopService | src/service.rs:565-574 | stop_service is Halt |
| Supervision.ServiceIdGen.Nextval | src/service.rs:317-322 | The next id, or nothing and no change once the 64-bit counter is exhausted |
| Supervision.ServiceRegistry.TakeByPid | src/service.rs:651-658 | Forgets the pid and finds its service, if both exist |
| Supervision.ServiceRegistry.ServiceIds | src/service.rs:729-732 | Builds the name index |
| Supervision.BuildSvcArgv | src/service.rs:262-269 | The command followed by each argument, or nothing exactly if one of them holds a NUL |
| Types.EnvpSpelled | src/service.rs:271-283 | The environment, or nothing exactly if a name or a value holds a NUL |
| StatusText.StatusRoundTripIff | tests/helpers/status_file.py:33-65 | Parsing the formatted status gives back name, id, kind of state and pid or reason of every service exactly when all names are non-empty and free of white space |
| StatusText.FromPath | tests/helpers/status_file.py:33-65 | The reader's loop computes Parse |
| StatusText.ReasonTextInjective | src/service.rs:105-116 | The printed reason determines the stop reason, nested exit reasons and integers included |
| StatusText.StateTextInjective | src/service.rs:171-179 | Kind and detail determine the state up to the deadline |
| StatusText.StatusWords | src/service.rs:171-179 | A line is name, id, one of the words running, stopping and stopped, which tells the state, and pid or reason |
| StatusText.ReasonWords | src/service.rs:105-116 | The word for each stop reason, and the number it carries |
| StatusText.ShowsDecimal | src/service.rs:436-438 | Numbers are decimal |
| StatusText.ParseGoodIff | tests/helpers/status_file.py:44-53 | The reader gives up exactly when a line that is not blank has fewer than four words or no number for an id |
| StatusText.ParseTakes | tests/helpers/status_file.py:54-65 | Otherwise it takes the first four words of each line that is not blank, in order |
| StatusText.IntRoundTrip | src/service.rs:436-438 | Every integer printed in decimal is read back |
| Publication.WriteAll | src/utils.rs:50-56 | Terminates, writes a prefix of the buffer, all of it on success, touches no other file, and succeeds exactly if no write failed before everything was out |
| Publication.WriteStatusFile | src/status.rs:48-58 | At every intermediate stage, failures included, the status path holds the old content, or as the last stage the complete new one; on success it holds the new, on failure the old; it succeeds exactly if open, all needed writes, fsync and rename do; no other file is touched, and the temporary one is gone after success |
| Publication.FormatStatus | src/service.rs:691-697 | The buffer is one line per service in the order listed |
| Publication.Svlopp.Flush | src/main.rs:58-68 | Publishes the formatted registry, or leaves the published one as it was |
| Publication.Svlopp.HandleWake | src/main.rs:166-319 | After the events of a wake-up the status file is the formatted current registry if the write succeeded, the previous one if it failed or the loop was left, and one of the two at every moment |
| Publication.Svlopp.Serve | src/main.rs:166-319 | Over any number of wake-ups, at every moment, failures included, the status path shows what it did at first or the complete status after one of them; without failures, the present one |
| Publication.ServedIsReachable | src/main.rs:166-319 | The states between wake-ups are reachable states, so that everything proved of runs holds of them |
| ControlFrames.DecodeEncode | tests/helpers/control_fifo.py:8-12 | Every command with a 64-bit id survives encoding and decoding; the first byte is 0x41 for stop, 0x42 for start, 0x43 for restart |
| ControlFrames.DecodeSpelled | src/control.rs:117-147 | What a read is taken for, byte by byte: the operation by its number, the id least significant byte first, any other first byte or size refused |
| ControlFrames.EncodeDecode | src/control.rs:117-139 | A frame that is accepted is the encoding of the command it is taken for |
| ControlFrames.FramesStayAligned | src/control.rs:117-147 | Whole frames, valid or not, are read one for one and in order; a shorter rest is reported once with its size |
| ControlFrames.ControlFifo.ReadControlCommand | src/control.rs:117-147 | With writers that send whole frames at any time, reads return the frames sent, in order, none split or lost |
| EndToEnd.PublishedLines | README.md:94-101 | With parsable names, what a client reads from the published status describes the registry: every line is the line of the service with that id, and every service has one |
| EndToEnd.RequestsReachTheirService | README.md:107-113 | A command for the id in a line that describes an earlier registry, applied after any later events, finds the service of that name or none, and changes no other service |
| EndToEnd.Get | tests/helpers/status_file.py:67-71 | Finds the first line of the name if there is one |
| EndToEnd.IsRunning | tests/helpers/status_file.py:76-77 | Whether a line of that name says running; nothing for an unknown name |
| EndToEnd.IsStopped | tests/helpers/status_file.py:79-80 | Whether a line of that name says stopped; nothing for an unknown name |
| EndToEnd.StatusIsTrue | README.md:94-101 | In a published status the line of a name is that of the one service with the name, and its words tell whether it is running, stopping or stopped, and its pid |
| EndToEnd.StatusHas | tests/helpers/status_file.py:73-74 | A name is in a published status exactly if a service has it |

## Left out

- The numbers of the stop signals (src/service.rs:198-210): a stop signal is recorded by its name.
- The child between fork and exec (src/service.rs:451-519): a start either succeeds with a fresh pid, recorded with the argv, environment and definition the child was given, or fails.
- The process-group SIGKILL after a reap (src/service.rs:910-921): best-effort cleanup of orphans; it is in neither the history nor the claims about signals.
- epoll, signalfd, timerfd and signal masks (src/main.rs:75-121): the events are arbitrary sequences, and a failure of any of these calls is the event LoopError.
- TOML parsing (src/service.rs:298-304): a reload is given a map from names to definitions, or a read failure.
- Command line, logging and the creation of the runtime directory.
- Lifecycles.StepAt: for a reload it only bounds forks and keeps names, because the exact effect of any reload, successful or not, is Reloads.PartialReloadAt.
- Supervision.Supervisor.HandleSigchld: the children `wait` reports are a list that comes with the event; one that ends during the loop counts as having ended before it.
- Runs.KilledExactlyWhenOverdue: counts the attempts; the history also says of each whether the kernel reported success.
- Supervision.Supervisor.ReloadServices: a service is a value in the registry's map that is written back, so aliasing through `&mut Service` is not modelled.
- Types.Envp: the environment is kept as a map, so the order of its entries is not modelled.
- StatusText.FromPath: Python's `int` also accepts underscores and digits outside ASCII; the model does not.
- Publication.WriteStatusFile: fsync succeeds or fails but changes nothing a reader sees; what is on the disk after a crash is not modelled.
- Publication.WriteAll: a file is text, not bytes, and only finitely many writes may make no progress.
- EndToEnd.Get: the KeyError for an unknown name is an empty result.
