# A verified model of the ddg coroutine library

ddg is a C++ library of coroutines: fibers with their own stacks, a scheduler that runs them on
several threads, an I/O manager that resumes them when descriptors become ready, and the
configuration and logging code around them. This project models the parts of it where the state is
hardest to keep straight and proves what they keep. `dafny verify dfyconfig.toml` checks all of it.

How the pieces fit together:

* **Scheduler.** `Protocol` is `Scheduler::run` as a step relation: any number of workers and tasks,
  one step per region that holds the lock or that only the stepping worker can observe. The
  decrement of `m_activeThreadCount` and the requeue after it are separate steps, `isStoped` is a
  snapshot, and the thread-pin test is a parameter. `RunQueue` has the scan under the lock, as a
  loop over the list and as the function the protocol uses. `Control` has the context switches.
  `Invariant` proves what every step keeps; `SchedulerTheorems`, `Fairness` and `Nesting` draw the
  results; `Witnesses` has concrete runs for what is not promised. `AnySubmission` proves what is
  kept even if callers submit fibers at the wrong time, `ScanEdge` when the scan then leaves its list. `WorkerSteps`
  tells every step by what it does: whose turn it is and where it leads, when a worker leaves `run`, what
  becomes of a fiber it has run, what is asserted, and which bodies were started. On top of it `EventStop` adds the pending
  counter of the I/O manager and splits registration and trigger into micro-steps; `EventWitness`
  has the run for the one exception to its result.
* **I/O manager.** `Registry` is the specification of the registry operations on values,
  `IoManager` the operations on context objects updated in place and proved equal to it.
  `RegistryTheorems` says what callers can rely on, and `Registrations` follows every single
  registration from the call that makes it to the call that ends it.
* **Logging.** `Pattern` is the scanner of log patterns, `PatternTable` its table and alphabet
  written out, `Loggers` the incremental listener that
  follows a changed configuration, `LogYaml` the conversions between definitions and YAML trees,
  `LogDefines` their shared values.
* **Configuration and ids.** `ConfigTree` loads a YAML tree into the variables, `Paths` says what
  their names are, `LogsVariable` looks at the variable "logs" among them; `ListenerIds` and `FiberIds` are the two id allocators.

Histories that no branch reads (`place`, `starts`, `callers`, `accepted`, `handed`, `deleted`,
`awaited`, `ended`, `named`, `given`) record what happened, so that the results can speak about whole
runs. The results about one place per task are stated on the queue and the workers themselves.

## Where the code and its promises differ

The model follows the code. Each of these is stated by a lemma or is visible in a contract.

* The pin test of the scan passes over entries pinned to the scanning thread (ddg/scheduler.cc:151),
  while README.md:56 describes the opposite. The other results about the scheduler hold for every pin
  test; with the coded one a worker never holds an entry pinned to its own thread
  (`SchedulerTheorems.NeverHeldByItsThread`).
* The branch of the scan for a finished fiber erases with `it++`, and the loop header then steps once
  more (ddg/scheduler.cc:172-176). The entry behind it is passed over, or the iterator leaves the list:
  `ScanEdge.ScanFallsOffIff` says exactly when, for every queue. Callers who submit only unfinished
  fibers never reach the branch (`RunQueue.ScanIsExact`, `SchedulerTheorems.RunIsSound`).
* A fiber that is resubmitted after it asked to be held, but before its worker has parked it, ends up
  in the queue twice, and two workers then run it at once (`Witnesses.EarlyResubmissionDuplicates`);
  `SchedulerTheorems.SubmitSafeIff` gives the exact condition on submission.
* `IOManager::isStoped` can be true although a registration has fired and its fiber was not entered
  since (`EventWitness.StoppedAlthoughAwaited`). It takes that this very registration was handed to the
  scheduler while a worker that had entered the fiber had not let go of it, or after the fiber had
  finished (`EventStop.MissedOnlyIfLate`). It never happens to a callback
  (`EventStop.CallbackNeverMissed`), nor to a registration handed over as the scheduler's own rule for
  submissions allows (`EventStop.NeverStoppedWhileAwaited`), whatever else is submitted.
* `isStoped` can be true while a task is between the decrement and the requeue
  (`Witnesses.StoppedInTheWindow`, exact condition in `SchedulerTheorems.StoppedIff`).
* `cancelEvent` passes the operation code as event flags, and the dispatch loop passes the reported
  flags: `RegistryTheorems.CancelMasksIff` and `DispatchMasksIff` say exactly when the kernel's flags
  are still right, `CancelReadForgetsWrite` and `ReadReportForgetsWrite` give inputs on which they
  are not.
* The dispatch loop triggers what is reported without asking whether it is registered. With only
  WRITE registered, a hang-up, which the kernel reports unasked, fails the assertion of `triggerEvent`
  (`RegistryTheorems.HangupFailsAssertion`; exact condition in `DispatchIff`).
* The equality of appender definitions compares one file name with itself (ddg/log.cc:615):
  `Loggers.ExactIffFilesAgree` says exactly when the listener then misses a change, `OldFileStays`
  gives one, and `LogsVariable.LoadingKeepsOldFile` shows that loading a configuration misses it too.
* A listener that throws leaves the value as it was and some loggers rebuilt. Setting the old value
  again does not repair them, because it compares equal (`Loggers.FailureLeavesLoggerBehind`).
* `Logger::setFormatter` with a pattern checks the pattern but hands on the old formatter, so a
  logger keeps the formatter it was made with (`Loggers.LogConfig.Configure`).
* The second percent sign of `%%` is read again (ddg/log.cc:480-483), and `checkValid` throws where
  its signature suggests it returns false; `Pattern` and `LogYaml` follow that.
* Adding a listener with a key is refused until the id counter is at least 1
  (`ListenerIds.KeyAcceptedIff`), so always on a variable whose listeners were never added without a
  key (`KeysNeedAnAutomaticId`), and a key that is in use keeps its old listener.

## Model

| member | source | states |
|---|---|---|
| `RunQueue.ScanIsExact` | ddg/scheduler.cc:149-189 | the scan takes the first eligible entry if there is one, removes only that entry, promotes exactly the waiting fibers it passed, and never reaches the branch that erases and steps twice, for every queue without finished or repeated fibers |
| `RunQueue.Scheduler.Scan` | ddg/scheduler.cc:147-190 | the loop over the list does what the scan function says, counts the worker active exactly when it takes an entry, and leaves the flags alone |
| `RunQueue.Scheduler.ScheduleNoLock` | ddg/scheduler.h:112-126 | an entry with a fiber or callback goes to the end of the queue, an empty one is dropped; a tickle is asked for iff the queue is not empty |
| `RunQueue.Scheduler.ScheduleRange` | ddg/scheduler.h:95-108 | the callbacks or fibers of a range are swapped out of it and those that are not empty appended, unpinned and in order |
| `Control.SwapInSwapOutIff` | ddg/fiber.cc:150-166 | swapOut returns to whoever did the swapIn, and `t_fiber` is right afterwards iff that was the thread's scheduler fiber |
| `Control.NestedSwapInLosesScheduler` | ddg/fiber.cc:150-166 | a swapIn by any other fiber leaves no context from which the scheduler fiber could be resumed |
| `Invariant.StepKeeps` | ddg/scheduler.cc:133-241 | every step of any worker and every proper submission keeps the invariant that ties queue, workers, fiber states, counters, idle fibers and started bodies together |
| `Invariant.RunKeeps` | ddg/scheduler.cc:133-241 | the invariant holds after every run |
| `Invariant.TakeKeeps` | ddg/scheduler.cc:181-187 | dequeueing moves one task from the queue to one worker and keeps the counters exact |
| `Invariant.DispatchKeeps` | ddg/scheduler.cc:196-207 | making a fiber for a callback and swapping it in keeps the invariant, so a body starts at most once |
| `Invariant.SettleKeeps` | ddg/scheduler.cc:209-219 | requeueing, parking and dropping keep the invariant |
| `SchedulerTheorems.EveryTaskInOnePlace` | ddg/scheduler.cc:144-220 | in every interleaving each submitted task is queued once and held by nobody, or held by exactly one worker and not queued, or at rest in HOLD or finished |
| `SchedulerTheorems.SubmitSafeIff` | ddg/scheduler.h:112-137 | submitting a fiber keeps every task in one place and finished fibers out of the queue iff the fiber is unfinished and neither queued nor held |
| `SchedulerTheorems.StoppedIff` | ddg/scheduler.cc:116-119 | a snapshot of isStoped is true iff the flags are set and every submitted task is parked, finished, or exactly between the decrement and the requeue |
| `SchedulerTheorems.CountersAreExact` | ddg/scheduler.cc:182-232 | in every reachable state the active counter is the number of workers between dequeue and decrement, and the idle counter the number of workers around their idle fiber |
| `SchedulerTheorems.RunIsSound` | ddg/scheduler.cc:144-236 | no assertion fails in any run; every queued entry carries work and no queued fiber is running or finished; a dequeued fiber is READY and nobody else's; no body starts twice; a kept idle fiber can be swapped in |
| `WorkerSteps.WorkersAlwaysProceed` | ddg/scheduler.cc:144-241 | in every reachable state a step of a worker is possible iff it is the one its place in `run` calls for, in whatever way the code it runs gives up control; only a worker that has left has none |
| `WorkerSteps.StepLeads` | ddg/scheduler.cc:144-241 | where each step leads in `run`; a scan that found nothing leads to the idle branch and any other to a dispatch |
| `WorkerSteps.IdleFiberIsKept` | ddg/scheduler.cc:222-236 | whenever a worker is not with its idle fiber, the idle fiber is gone iff it has returned or thrown; otherwise it is new, READY after a yield to READY, and in HOLD after a yield to HOLD or a bare swapOut |
| `WorkerSteps.EmptyWorkerDecides` | ddg/scheduler.cc:225-240 | a worker whose scan found nothing leaves `run` iff its idle fiber has returned or thrown, and swaps it in otherwise |
| `WorkerSteps.WhatBecomesOfAFiber` | ddg/scheduler.cc:207-219 | a fiber that yielded READY is requeued last, one that yielded HOLD or just swapped out is parked in HOLD, one that returned or threw is finished in TERM or EXCEPT, and the worker counts itself out |
| `WorkerSteps.SubmissionsGoLast` | ddg/scheduler.h:112-126 | a fiber or callback goes to the end of the queue with the thread it is pinned to, and an empty submission changes nothing |
| `WorkerSteps.CallersAreFree` | ddg/scheduler.h:82-137 | any existing fiber can be submitted at any time, any unused name as a fiber or callback, and the flags can be set to anything, which isStoped then sees |
| `WorkerSteps.StepFailsIff` | ddg/fiber.cc:152-225 | a step fails iff a fiber yields that is not in EXEC, an idle fiber is swapped in that is, or a scan leaves the list |
| `WorkerSteps.BodiesAreStarted` | ddg/fiber.cc:234-258 | in every reachable state the bodies that were started are, each once, those of the fibers that are not still to be entered, and every task a worker has entered is among them |
| `Fairness.BoundedBypass` | ddg/scheduler.cc:149-189 | while an unpinned task waits, it is never overtaken if it is a callback or READY fiber, and in at most one scan of all workers if it is INIT or HOLD |
| `Nesting.TransfersAreNested` | ddg/fiber.cc:150-285 | in every run `t_fiber` names the fiber in control of each thread, every fiber is in control of one thread or suspended with its own execution, and a task or idle fiber that swaps out, or a root fiber that goes back, returns control to the one that swapped it in or called it |
| `Nesting.StepNests` | ddg/scheduler.cc:133-241 | every step keeps the nesting of thread main fiber, root fiber, and task or idle fiber |
| `Witnesses.EarlyResubmissionDuplicates` | ddg/scheduler.cc:207-217 | a run and four further steps after which a held fiber that was resubmitted is in the queue twice, and four more after which two workers run it and a context with nothing to resume was loaded |
| `Witnesses.StoppedInTheWindow` | ddg/scheduler.cc:208-214 | a run in which isStoped is true although the next step requeues an unfinished task |
| `Witnesses.PinnedEntrySkipsItsThread` | ddg/scheduler.cc:151-154 | a pinned callback that is queued alone is taken by a thread iff it is not the thread it is pinned to |
| `SchedulerTheorems.NeverHeldByItsThread` | ddg/scheduler.cc:151-154 | with the pin test as it is coded, in no run does a worker hold an entry pinned to its own thread |
| `AnySubmission.StaysAwaiting` | ddg/scheduler.cc:149-207 | whatever callers submit and when, a task that is queued or dequeued stays so until it is entered, unless a scan finds its fiber in none of the states it waits for |
| `AnySubmission.ScanLosesOnlyErasable` | ddg/scheduler.cc:149-189 | a scan of any queue, healthy or not, that stays inside the list keeps every copy of every entry but the one it takes and copies of entries of fibers in none of the states it waits for, and changes states only by promotion |
| `ScanEdge.ScanFallsOffIff` | ddg/scheduler.cc:149-179 | the scan of any queue moves its iterator past the end iff the queue ends with an odd number of entries to be erased and each entry that would end the scan stands directly behind an odd number of them |
| `ScanEdge.FinishedAloneFallsOff` | ddg/scheduler.cc:172-179 | a finished fiber that is queued alone makes it do so |
| `AnySubmission.FinishedEntryIsErased` | ddg/scheduler.cc:172-179 | a finished fiber at the front of the queue is erased and the entry after it passed over |
| `AnySubmission.NotLateStays` | ddg/scheduler.cc:196-219 | nothing but entering a task puts it into the hands of a worker or finishes its fiber |
| `EventStop.MissedOnlyIfLate` | ddg/iomanager.cc:242-244 | in every interleaving of workers and arbitrary submissions with micro-steps of registration and trigger, with any number of registrations per fiber: if isStoped is true while something registered on the manager's own threads has fired and was not entered since, it is a fiber whose body has ended, and this registration was handed over while a worker that had entered the fiber had not let go of it or after it had finished |
| `EventStop.CallbackNeverMissed` | ddg/iomanager.cc:360-372 | in every such interleaving isStoped is false while a callback registered on the manager's own threads has fired and was not entered since |
| `EventStop.NeverStoppedWhileAwaited` | ddg/iomanager.cc:178-179 | the same for every registration that was handed over as the scheduler's rule allows, whatever the other submissions of the run did |
| `EventWitness.StoppedAlthoughAwaited` | ddg/scheduler.cc:172-179 | the run that shows the condition is needed: a fiber scheduled by its event while it still runs, and then ended |
| `EventStop.CallbackCanBeHanded` | ddg/iomanager.cc:360-372 | whatever has been cleared can be handed over at once, callback or fiber, so the previous result is not won by blocking |
| `EventStop.RegistrationsProceed` | ddg/iomanager.cc:97-146 | no registration is stuck at any stage, and a running fiber or an unused name can always be registered |
| `EventStop.RegistrationSteps` | ddg/iomanager.cc:97-180 | a registration is counted, armed, cleared, pushed and forgotten in this order, or deleted while armed; the counter goes up with the first step and down with the last or the deletion, and other registrations stay as they are |
| `EventStop.EndedIff` | ddg/fiber.cc:237-250 | a body counts as ended iff it returned or threw in the course of the run |
| `EventStop.ForeignRegistrationIsNotAwaited` | ddg/iomanager.cc:102-106 | what a thread of another scheduler registered can be pending there while this manager reports itself stopped |
| `Registry.RegistryInvariant` | ddg/iomanager.cc:46-228 | in every reachable registry the pending counter is the number of set bits, a bit is set iff its context has a scheduler and exactly one of callback and fiber, slot i owns descriptor i, the interest set is the descriptors with a set bit, and registrations are conserved |
| `Registry.CallKeeps` | ddg/iomanager.cc:57-347 | each of add, delete, cancel, cancel-all and dispatch keeps that invariant |
| `Registry.Reserved` | ddg/iomanager.cc:60-68 | growing to 1.5 times the descriptor, rounded down, reaches its slot once there are 32 slots, keeps every old slot and adds only empty ones |
| `RegistryTheorems.RegistrationsAreConserved` | ddg/iomanager.cc:114-228 | accepted registrations are the stored, the handed-over and the deleted ones, item by item and in total |
| `Registrations.HandedOverExactlyOnce` | ddg/iomanager.cc:57-228 | in any run each registration of an event is fired or deleted exactly once unless it is still stored; the next cancel, cancel-all or report hands over exactly the items that the calls brought which registered the events it concerns, and a delete deletes exactly that item |
| `Registrations.RegisteredIffOpen` | ddg/iomanager.cc:97-109 | an event is registered iff some call registered it and none has fired or deleted it since, and its context stores exactly what that call brought |
| `Registrations.CallConcerns` | ddg/iomanager.cc:57-347 | a call registers, ends or leaves alone each event of each descriptor, as its arguments and the kernel's answer say |
| `RegistryTheorems.CounterBitsAndKernelAgree` | ddg/iomanager.cc:79-109 | after any run no assertion failed, the kernel was asked to ADD only absent and to MOD or DEL only present descriptors, and counter, contexts, slots and interest set agree |
| `RegistryTheorems.TableOnlyGrows` | ddg/iomanager.cc:46-68 | no operation shortens the table |
| `RegistryTheorems.AddIff` | ddg/iomanager.cc:57-112 | a successful addEvent keeps the invariant iff the event was not registered and the calling thread has a scheduler |
| `RegistryTheorems.DispatchIff` | ddg/iomanager.cc:306-346 | dispatching a report meets no failing assertion iff the report names only registered events or none of them, or the kernel refuses |
| `RegistryTheorems.HangupFailsAssertion` | ddg/iomanager.cc:309-341 | a reported hang-up on a descriptor with only WRITE registered fails an assertion |
| `RegistryTheorems.MasksAlwaysAgree` | ddg/iomanager.cc:79-141 | over runs of addEvent, delEvent and cancelAll the kernel's flags are EPOLLET plus the registered bits |
| `RegistryTheorems.FlagsAreTheBits` | ddg/iomanager.cc:83-141 | after any run of addEvent, delEvent and cancelAll the kernel watches a descriptor edge-triggered, for EPOLLIN iff READ is registered, for EPOLLOUT iff WRITE is, and for nothing else, as a word too |
| `RegistryTheorems.AddRequest` | ddg/iomanager.cc:83-86 | a successful addEvent asks for EPOLLET, what was registered and the new event |
| `RegistryTheorems.CancelRequest` | ddg/iomanager.cc:163-169 | cancelEvent asks for the word 3 where another event stays registered |
| `RegistryTheorems.OperationWords` | ddg/iomanager.cc:166 | read as flags the operation codes are the words 1, 2 and 3 |
| `RegistryTheorems.DispatchRequest` | ddg/iomanager.cc:309-328 | the dispatch loop asks for the flags that were reported, with EPOLLIN added after a hang-up if READ was registered |
| `RegistryTheorems.WrongInterestIsNoted` | ddg/iomanager.cc:79-141 | had the interest set been wrong, a request would fail and change nothing |
| `RegistryTheorems.CancelMasksIff` | ddg/iomanager.cc:162-179 | after cancelEvent the kernel's flags are right iff no other event of the descriptor remains |
| `RegistryTheorems.CancelReadForgetsWrite` | ddg/iomanager.cc:163-169 | cancelling READ while WRITE is registered stops the kernel from watching for WRITE |
| `RegistryTheorems.DispatchMasksIff` | ddg/iomanager.cc:313-346 | after a proper report the kernel's flags are right iff nothing was dispatched or nothing remains |
| `RegistryTheorems.ReadReportForgetsWrite` | ddg/iomanager.cc:326-341 | a plain EPOLLIN report while READ and WRITE are registered stops the kernel from watching for WRITE |
| `IoManager.Manager.ContextResize` | ddg/iomanager.cc:46-55 | old contexts stay where they are, new slots get new, distinct, empty contexts |
| `IoManager.Manager.AddEvent` | ddg/iomanager.cc:57-112 | the operation on the objects has the effect of the specification on the table, the counter and the interest set, and returns 0 iff it was counted |
| `IoManager.Manager.DelEvent` | ddg/iomanager.cc:114-146 | the same for delEvent, which returns true iff the counter went down |
| `IoManager.Manager.CancelEvent` | ddg/iomanager.cc:148-181 | the same for cancelEvent |
| `IoManager.Manager.CancelAll` | ddg/iomanager.cc:183-228 | the same for cancelAll |
| `IoManager.Manager.Trigger` | ddg/iomanager.cc:360-372 | the callback, or else the fiber, leaves its context for its scheduler; the bit, the scheduler and one count go with it |
| `IoManager.Manager.DispatchLoop` | ddg/iomanager.cc:297-347 | the loop over the reports is the run of one dispatch call per report that is not of the tickle pipe |
| `Pattern.ParserIsExact` | ddg/log.cc:467-582 | a pattern is accepted with given tokens iff they are canonical and print to the pattern; so parsing is lossless, parsing undoes printing, and rejection means no canonical list prints to the pattern |
| `PatternTable.ItemsAreTheLetters` | ddg/log.cc:541-563 | a percent sign and a character are an item iff the character is one of the twelve letters of the table |
| `PatternTable.TextAfterItem` | ddg/log.cc:491-520 | what may follow a brace-less item: letters and braces and percent signs make the pattern invalid, any other character is text |
| `PatternTable.ShippedFormatter` | tests/confs/log.yaml:7 | the formatter of the shipped configuration is accepted, with its eighteen tokens written out |
| `Pattern.TokensPrint` | ddg/log.cc:473-539 | the collected tokens print to the scanned text for every pattern without an open brace, known letters or not |
| `Pattern.CanonicalIsParsed` | ddg/log.cc:473-539 | scanning the printed form of a canonical token list gives that list |
| `Pattern.TokensCanonical` | ddg/log.cc:473-539 | what the scanner collects is canonical when its letters are known |
| `Pattern.ReadItemAt` | ddg/log.cc:486-520 | the inner loop finds an item's name, format and end, or finds the brace open |
| `Pattern.CollectTokens` | ddg/log.cc:473-539 | the outer loop only moves forward, ends, and collects the tokens of the whole pattern or remembers the error |
| `Pattern.InitPattern` | ddg/log.cc:467-582 | the whole scanner with the table lookup accepts and rejects as the specification says |
| `LogDefines.Equals` | ddg/log.cc:613-630 | two definitions compare equal iff they agree in everything but the files of their appenders |
| `LogDefines.SameDefineIff` | ddg/log.cc:613-630 | two definitions compare equal iff they are equal once the files of their appenders are removed |
| `LogDefines.ValidPatternIff` | ddg/log.cc:462-465 | a pattern is valid iff it is the printed form of a canonical list of tokens; the shipped one is, an unknown item and an open brace are not |
| `Loggers.IncrementalEqualsRebuild` | ddg/log.cc:667-723 | after any sequence of setValue calls, some of which may fail, the last of which goes through, a logger named in the last set has the level and appenders a rebuild from scratch gives, up to files, and any other name ever used has no logger, iff it is not one of the names failing calls left out of step, which are given exactly |
| `Loggers.LoggersHaveWhatIsDefined` | ddg/log.cc:684-710 | after any such sequence the logger of a name that is in step has the defined level, the default formatter, and appenders with the types, levels and formatters that are defined, the logger's formatter where an appender has none |
| `Loggers.ChangedLoggersHaveTheirFiles` | ddg/log.cc:690-709 | a name that a call finds changed gets the files of its file appenders too |
| `Loggers.FailureLeavesExactly` | ddg/log.cc:672-711 | after a call whose listener stops at a name, the changed names up to it are in step iff what was made of them is alike what is still set, and every other name iff it was before |
| `Loggers.StopIsUnique` | ddg/log.cc:672-711 | the name at which a failing listener stops is determined: the first changed one, in the order of names, that cannot be built |
| `Loggers.StoppedLogger` | ddg/log.cc:684-710 | the logger at which a failing listener stops has the new level and the appenders up to the first that cannot be made, or its old ones if its own pattern does not parse |
| `Loggers.BuildableIff` | ddg/log.cc:685-708 | a definition can be built iff its patterns parse and its appenders have known types |
| `Loggers.LessIff` | ddg/log.cc:632-634 | names are ordered by their first difference |
| `Loggers.OffExactly` | ddg/config.h:85-94 | after any sequence of calls the names out of step are exactly those the calls left so |
| `Loggers.FailureLeavesLoggerBehind` | ddg/config.h:85-94 | a failing call can leave a rebuilt logger that setting the old value again does not repair |
| `Loggers.OldFileStays` | ddg/log.cc:613-616 | a set that differs only in a file leaves the logger on the old file |
| `Loggers.ExactIffFilesAgree` | ddg/log.cc:613-616 | the agreement includes files iff no definition that compares equal to its predecessor names another file |
| `Loggers.SetRepairsExactly` | ddg/config.h:85-94 | one setValue that goes through brings into step exactly the names it finds changed or dropped; every other name is in step afterwards iff it was before |
| `Loggers.LogConfig.Configure` | ddg/log.cc:684-710 | the logger of a definition is what building it from the definition alone gives, whatever it was before; it fails iff a pattern does not parse or an appender type is unknown, and then has the new level and the appenders made so far, or its old ones if its own pattern does not parse |
| `Loggers.LogConfig.MakeAppenders` | ddg/log.cc:690-710 | the appender list matches the definitions one by one, with the logger's formatter where none is given |
| `Loggers.LogConfig.RebuildChanged` | ddg/log.cc:672-711 | exactly the new and changed names are rebuilt; if one cannot be, exactly those before the first such name are, in the order of names |
| `Loggers.LogConfig.RemoveDropped` | ddg/log.cc:713-722 | exactly the names no longer defined are removed |
| `Loggers.LogConfig.Listen` | ddg/log.cc:667-723 | dropped names are gone, changed ones rebuilt, all others untouched |
| `Loggers.LogConfig.SetValue` | ddg/config.h:85-94 | an equal value changes nothing; another one runs the listener and is stored only if the listener does not fail; a failing one keeps the value and has touched exactly the changed names up to the first that cannot be built |
| `Loggers.LogConfig.GetLogger` | ddg/log.cc:728-739 | an existing logger is returned as it is, a missing one is made and entered |
| `Loggers.LogConfig.DelLogger` | ddg/log.cc:741-747 | the name is gone and nothing else is |
| `LogYaml.RoundTripIff` | ddg/log.h:435-522 | writing and reading a definition gives it back with level and formatter inherited by its appenders, iff its name is not empty and its formatter parses |
| `LogYaml.ParsedRoundTripIff` | ddg/log.h:435-522 | on definitions that came from the reader, writing and reading is the identity iff they have a name |
| `LogYaml.AppenderRoundTrip` | ddg/log.h:384-433 | every appender definition is read back as it was written |
| `LogYaml.InheritIdempotent` | ddg/log.h:509-518 | inheriting a second time changes nothing |
| `LogYaml.NamesRoundTrip` | ddg/log.cc:8-304 | the names of levels and appender types are read back as the values they name |
| `LogYaml.LevelIsRead` | ddg/log.cc:27-41 | a level is read from its name in any mixture of upper and lower case and from nothing else |
| `LogYaml.LevelNames` | ddg/log.cc:8-25 | the names of the levels |
| `LogYaml.KindIsRead` | ddg/log.cc:280-304 | an appender type is read from its exact name and from nothing else |
| `LogYaml.AppenderIsWritten` | ddg/log.h:384-407 | the keys of an appender's node are those of the fields that are set, in order |
| `LogYaml.DefineIsWritten` | ddg/log.h:435-465 | a definition's node always has its name, and its other keys where the fields are set |
| `LogYaml.AppendersAfterRoundTrip` | ddg/log.h:509-518 | writing and reading gives each appender the formatter and level of its logger where it has none, and changes nothing else |
| `LogYaml.UnknownKeyIsIgnored` | ddg/log.h:416-431 | keys that are not known change nothing |
| `LogYaml.ReadingThrows` | ddg/log.h:473-496 | an empty name, a formatter that does not parse, and a sequence in the place of a map throw |
| `LogYaml.OnlyScalarsHaveText` | ddg/log.h:416-424 | what is no scalar throws as a name and leaves any field of an appender unset |
| `LogYaml.RepeatedAppenders` | ddg/log.h:493-501 | a repeated list of appenders is looked up by its key, so the first one is read twice |
| `LogYaml.ShippedDefinition` | tests/confs/log.yaml:5-14 | the root logger of the shipped configuration is read as one expects |
| `LogYaml.CastToAppender` | ddg/log.h:409-433 | the loop over the node's entries reads what the specification reads |
| `LogYaml.CastToDefine` | ddg/log.h:467-522 | the loop over the node's entries, with inheritance, reads what the specification reads or throws where it does |
| `ConfigTree.PruningIsFiltering` | ddg/config.cc:34-52 | the pruned walk lists exactly the valid paths of the full walk, in the same order |
| `ConfigTree.BelowInvalid` | ddg/config.cc:38-42 | no path below an invalid path is valid |
| `Paths.NamesAreJoinedKeys` | ddg/config.cc:46-50 | the walk lists, a node before its children and these in order, exactly the lists of keys that lead to a node, each as its keys joined with dots, empty keys in front left out |
| `Paths.ValidCharacters` | ddg/config.cc:32 | the characters of a valid name, by their codes |
| `Paths.LowerByCode` | ddg/config.cc:72 | lower-casing moves the codes of the upper-case letters and no others |
| `Paths.NestedSettingIsLoaded` | ddg/config.cc:61-85 | a setting b in a section a sets the variable a.b, unless it holds a value that compares equal |
| `Paths.StackSizeIsLoaded` | ddg/fiber.cc:26-27 | the stack size of fibers is set by its section and key |
| `ConfigTree.ValidIsLower` | ddg/config.cc:32 | lower-casing changes no valid name |
| `ConfigTree.ListAllMember` | ddg/config.cc:34-52 | the recursive loop appends that listing to the output list |
| `ConfigTree.Config.FromString` | ddg/config.h:72-94 | the variable takes the converted value unless it holds one that compares equal, or keeps its own where the conversion throws |
| `ConfigTree.Config.LoadFromYaml` | ddg/config.cc:61-85 | every variable ends as if fromString had been applied to it, in order, with each value that a valid non-empty path of the whole tree gives it; no variable is added or lost |
| `ConfigTree.LoadedIsLast` | ddg/config.cc:61-85 | so every variable ends with the last such value that converts, up to the variable's own equality |
| `ConfigTree.FoldedExactIff` | ddg/config.h:85-94 | it ends with that very value iff it did not hold a different one that compares equal to it |
| `LogsVariable.LogsLoadedUpToFiles` | ddg/log.cc:613-630 | "logs" ends with the last set that converts, in everything but the files |
| `LogsVariable.LoadingKeepsOldFile` | ddg/log.cc:613-630 | a tree that changes only a file leaves "logs" as it was |
| `FiberIds.IdsOfFibers` | ddg/fiber.cc:295-314 | the ids of n callback fibers made one after the other are pairwise distinct, new, and at most kMaxFiberId, and there are n of them unless no value is left |
| `FiberIds.IdsAreCounted` | ddg/fiber.cc:295-314 | in a run there are as many ids as the set has members, and the set holds every value iff kMaxFiberId + 1 ids were given out |
| `FiberIds.TakenIffGiven` | ddg/fiber.cc:295-300 | an id is in the set iff it was given out, and until the counter is exhausted iff the counter has passed it |
| `FiberIds.Ids.SafeFiberIdIncr` | ddg/fiber.cc:295-314 | the ids are 1, 2, 3 and so on up to kMaxFiberId, then 0, each new; it fails iff kMaxFiberId + 1 ids were given out, which is iff all values are taken |
| `FiberIds.Ids.Search` | ddg/fiber.cc:302-312 | the fallback finds the smallest value not in the set, and its counter stays below 2^64 |
| `ListenerIds.AcceptedKeyBelowDouble` | ddg/config.h:143-155 | an accepted key is below twice the counter even with 64-bit wrap-around, and cannot raise it from 0 or 1 |
| `ListenerIds.AcceptedIff` | ddg/config.h:143-155 | while no sum leaves 64 bits, exactly which keys are accepted, without division |
| `ListenerIds.AcceptedBorders` | ddg/config.h:143-155 | the borders at the counters 0, 1, 255, 256 and 1000 |
| `ListenerIds.KeysStayBelowCounter` | ddg/config.h:100-134 | in every run all listener keys are at most the counter |
| `ListenerIds.OneCallGrowth` | ddg/config.h:100-155 | a call without a key raises the counter by at most one, a call with a key at most doubles it |
| `ListenerIds.KeysNeedAnAutomaticId` | ddg/config.h:113-124 | without a call that has no key, no call with a key is ever accepted |
| `ListenerIds.KeyAcceptedIff` | ddg/config.h:113-155 | after any run that leaves the counter below 2^63, some key is accepted iff the counter is at least 1 |
| `ListenerIds.ConfigVar.AddListener` | ddg/config.h:100-111 | the listener gets the smallest unused id and replaces nothing |
| `ListenerIds.ConfigVar.AddListenerAt` | ddg/config.h:113-124 | refused iff the key grows too fast; a listener that has the key stays |

## Left out

* Timers and hooks: expired timers are arbitrary submissions of the protocol.
* `ucontext`, stacks, pthread, epoll, pipes and fcntl: modelled only as control transfer, ideal locks
  and an interest map whose changes may fail. The write guard of ddg/mutex.h:126-131, which records
  itself as not locked, is not modelled.
* The worker protocol and the fiber switches are a state machine on values, because many workers
  share the state; only the regions under the lock (`RunQueue.Scheduler`) are a class.
* Races inside lock-free reads, and the window in which a yielding fiber has set its state but has
  not saved its context (ddg/fiber.cc:214-226), lie below the step size. `isStoped` is one snapshot.
* `Scheduler::start` and `Scheduler::stop`: only as arbitrary changes of the two flags and as the
  call of the root fiber; joining threads and tickling are not modelled.
* `Fiber::reset`, fiber destruction and the reuse of fiber objects.
* A fiber that does not leave through a yield, its end or an exception: bodies that never return are
  simply steps that never happen; no liveness is claimed.
* The truncation of a 64-bit thread id to `int` in `scheduleNoLock` (ddg/scheduler.h:112).
* The registry operations are atomic: the unlocked recheck in `addEvent` (ddg/iomanager.cc:64-66), the
  missing fd lock in `delEvent` and the early bit test in `cancelEvent` are not interleaved.
  Descriptors are not negative. The assertion that a registering fiber is in EXEC
  (ddg/iomanager.cc:107) is a condition of the registration step of `EventStop` only.
* `EventStop` abstracts from descriptors and bits; every registration has a number of its own.
* RegistryTheorems.MasksAlwaysAgree: claims agreement only for addEvent, delEvent and cancelAll, because
  it is false for the other two; their exact conditions are separate lemmas.
* Loggers.IncrementalEqualsRebuild: names a failing call left out of step are only named, since the
  code does not repair them; a null appender of an unknown type counts as such a failure.
* Loggers are values in the table: objects other threads still hold after a logger was dropped, and
  the level 100 given to them, are not modelled.
* ConfigTree.Config.LoadFromYaml: listeners are assumed not to throw, and conversion is a parameter.
* YAML text: emitting a tree and loading the text is taken to give the tree back. Repeated keys are
  kept, map keys are scalars.
* ListenerIds.ConfigVar.AddListener: requires the counter to be below 2^64 - 1, where the source's
  search loop would not end.
* FiberIds.Ids.SafeFiberIdIncr: sequential runs only; the counter and the set are not updated together
  in the source.
* `dealListener`, which calls a member that does not exist; locale-dependent `isalpha`, `toupper` and
  `tolower` (ASCII here); log output, date formatting, file appenders, backtraces, `Env`, singletons.
