# The build daemon of a content-addressed store, verified

A Dafny model of the C++ build daemon under `nix/`: its garbage collector and the handshake
with the processes that add temporary roots, its lock files, its goal scheduler, the database
of valid paths with the graph algorithms on it, and its file formats. `dafny verify
dfyconfig.toml` checks everything.

Code that changes things step by step is a class or a method with loops, proved against a
specification; protocols between processes are step systems whose invariants are proved over
every run; what only computes is a function with lemmas.

| file | models |
|---|---|
| `TempRoots.dfy`, `RootCalls.dfy`, `LostRoots.dfy` | addTempRoot, readTempRoots and the locking of collectGarbage as an interleaved step system; whole calls; runs that lose a root |
| `GarbageCollector.dfy` | the memoised mark phase and the sweep, a class over the store graph |
| `Liveness.dfy` | what the collector keeps is the closure of the roots |
| `LockFiles.dfy`, `LockCalls.dfy` | PathLocks and its stale-token protocol as an interleaved step system; whole calls of lockPaths and unlock |
| `Scheduler.dfy`, `FinishedGoals.dfy`, `TopGoals.dfy`, `LateTimeouts.dfy`, `EndOfRun.dfy`, `Endings.dfy`, `WakeUps.dfy`, `Sleepers.dfy`, `KeptLocks.dfy` | goals waiting for goals, the wake lists, children and build slots; runs of the worker loop, how they end and when they get stuck |
| `Worker.dfy` | the same operations as methods of a class, with the loops of the source |
| `DerivationGoals.dfy`, `DerivationGoalClass.dfy`, `OutputChecks.dfy`, `GoalOutcomes.dfy`, `BuildRounds.dfy`, `FailingBuilds.dfy` | the states of a derivation goal in normal mode, as functions and as an object; the outputs it accepts; when it succeeds, fails or throws; the rounds of a build and their assertions |
| `SubstitutionGoals.dfy` | the states of a substitution goal, as functions and as an object |
| `Waiting.dfy`, `Realisation.dfy` | the worker together with its goals, the store and the temporary roots |
| `Registration.dfy`, `TopoSort.dfy`, `Closure.dfy` | registerValidPaths, topoSortPaths, computeFSClosure |
| `HashModulo.dfy`, `HashTexts.dfy` | hashDerivationModulo and its cache; what equal hashes mean |
| `References.dfy` | the streaming reference scanner |
| `Derivations.dfy`, `DerivationText.dfy` | the textual form of derivations: specification and round trip; printer and parser as methods |
| `Serialise.dfy`, `Archive.dfy`, `ArchiveStreams.dfy` | archives: specification and round trip; sink and source as classes |
| `Formats.dfy` | the two formats field by field |
| `Base32.dfy` | hashes in base 32, bit by bit |
| `Graphs.dfy`, `ByteStrings.dfy`, `StoreDb.dfy`, `Wrappers.dfy` | reachability and acyclicity, the order of strings, the database, options |

How the model stands to the code:

- A byte is a character below 256, and a byte string is a `string`. Integers are unbounded
  except where a width shows: the 32-bit and 64-bit lengths of the archive format and the
  bytes of a hash.
- The database is a map from valid paths to rows; a transaction is atomic and rolls back.
  Removing a row removes its references, as foreign keys do.
- A lock is an advisory record lock in the sense of fcntl() in the System Interfaces volume of
  POSIX.1: it belongs to a process, a process never blocks itself, and closing any descriptor
  of a file drops the lock on it.
- The outcome of builders, hooks, substituters, locks and the file system is a parameter or an
  arbitrary choice. In goals, an exception is the outcome `Throws` and a failed assertion the
  outcome `AssertionFails`.
- Hashing is a function parameter; its printed form is part of it.
- Dumping and restoring work on a tree; the order of the entries and every rejected field are
  as in the code. Restoring accepts more than dumping writes: entries need not be sorted,
  because the last name is forgotten after each entry.
- The parser of derivations fails at the end of the input, where the code would go on reading.
- For a goal the store may change arbitrarily between two calls, except for its temporary
  roots: the outputs of a derivation goal stay valid while it waits for a build, and the
  references of a substitution goal once it tries to run.

Where a property fails, the exact condition is proved, and the failure is shown by a run:

- A sweep reads the temporary roots of another process if and only if the file of that process
  is in the directory, and it is there unless the process has collected itself
  (`RootsSurviveEverySweep`). A collection leaves the collecting client without the name of its
  file or without the lock on it (`OwnCollectionUnprotects`); either way a root can be lost
  (`LostByRemoval`, `LostByClosing`).
- Of the assertions of the worker itself, a step fails one if and only if it calls a goal that
  has ended (`OnlyEndedGoalsFail`), and a goal that has ended is left awake if and only if its
  child timed out while it was awake (`LivelyExactlyInTime`). Then the loop does call it if keepGoing is on
  and another top goal is left (`LateTimeoutFails`, `EndedGoalIsCalled`); otherwise it does not
  (`HarmlessTimeout`), but the last assertions of the loop can fail (`AwakeAtTheEnd`), and only
  the one about awake goals (`AllFinishedAtTheEnd`).
- The worker finds nothing to wait for although builds are allowed only if a goal has gone to
  sleep until another one ends while no other goal had a child (`NeverStuckAsleep`, with
  keepGoing on, acyclic waiting, and no goal asking for goals once it has had a child, as
  `LateStaysLate` says of derivation goals). A goal whose child times out keeps its locks, so
  that this happens (`SleepsForEver`).
- The assertions of goals that paths are valid hold (`ExpectedPathsAreValid`). Those at the end
  of a build fail if and only if the hook has taken an earlier build and this process has
  started the present one, or not as many outputs were missing as in the rounds looked at before
  (`BuildDoneFails`, `SingleBuildNeverFails`); runs are `HookDeclinesAgain`, `OutputAppears` and
  `HookRegistersOnce`.
- Registering a path that is valid already keeps the store acyclic if and only if it gains no
  reference from which it can be reached (`AcyclicUnlessBackReference`,
  `ReRegistrationCanMakeCycle`).
- A derivation is read back if and only if it is well-formed (`Derivations.RoundTrip`).
- Exchanging fixed-output derivations of the same content changes no hash if inputs that hash
  alike ask for the same outputs (`FixedOutputsDoNotMatter`), but can otherwise (`NamesMatter`);
  with an ideal hash function the hashes agree if and only if the hashed derivations do
  (`EqualHashesExactly`). Two fixed-output derivations have the same hash if and only if they
  have the same output, provided that hashes and paths hold no colon (`FixedHashesExactly`,
  `ColonsMatter`).
- Printing a parsed base-32 text gives it back if and only if its number fits the bytes
  (`ReprintedExactly`, `OverlongText`).

## Model

| member | source | states |
|---|---|---|
| `TempRoots.StepKeepsInv` | nix/libstore/gc.cc:149-261 | every step of addTempRoot, of a collection, and of starting, leaving or killing a process keeps the handshake invariant, whichever process takes it |
| `TempRoots.RunKeepsInv` | nix/libstore/gc.cc:149-261 | the invariant holds in every state of every interleaving of any number of clients and collectors |
| `TempRoots.LockedIsNotRemoved` | nix/libstore/gc.cc:175-184 | a client that has its lock and finds an empty file is not in the way of a removal: the collector does not delete the file after that |
| `TempRoots.UnlinkOwnKeepsCollectors` | nix/libstore/local-store.cc:182-192 | a client that exits in order unlinks its file without any lock; what a collection in progress relies on still holds |
| `TempRoots.SweepReadsLinkedFiles` | nix/libstore/gc.cc:207-261 | a sweeping collector has read and keeps locked the file of a client if and only if the file is still in the directory |
| `TempRoots.SweepSeesRoots` | nix/libstore/gc.cc:674-683 | while another process sweeps: the file of a client is among those read if and only if it is in the directory; then all roots the client has returned for are among the roots read and the client is not writing; and it is in the directory unless a collection of the client itself has closed it |
| `TempRoots.ReturnedStays` | nix/libstore/gc.cc:189-200 | once addTempRoot has returned, the root stays returned until the process begins to exit, over any run |
| `TempRoots.OwnCollectionUnprotects` | nix/libstore/gc.cc:207-261 | when the own collection of a client is over, its file has lost its name or the client has lost its lock on it, although its roots were returned for |
| `TempRoots.SuspectHasCollected` | nix/libstore/gc.cc:207-261 | over every run: only a process that has called collectGarbage with a roots file of its own, and has not begun to exit, can have closed that file |
| `TempRoots.RootsSurviveEverySweep` | nix/libstore/gc.cc:656-683 | over every run: after addTempRoot(p) has returned in a process that has not begun to exit, every later sweep of another process reads its file if and only if it is in the directory, then has p among its roots; it is in the directory unless the process has called collectGarbage itself |
| `TempRoots.NoRootAddedDuringSweep` | nix/libstore/gc.cc:239-243 | over every run: an addTempRoot returns in another process while a sweep is under way only if the file of that process is not in the directory, and so only if it has called collectGarbage itself |
| `TempRoots.RootedClosureSurvives` | nix/libstore/gc.cc:656-755 | over every run: what a live client that has not collected itself has rooted keeps its whole closure, rows unchanged, through a collection of another process that loses nothing live |
| `TempRoots.CollectInRun` | nix/libstore/gc.cc:632-755 | the collection made with the roots a sweeping process has read, whatever its options and other roots, keeps the closure of everything that other processes have rooted |
| `RootCalls.CallReturns` | nix/libstore/gc.cc:149-201 | over every run: a call of addTempRoot comes back only by the step that returns for the path it was called with |
| `RootCalls.AddedRootSurvives` | nix/libstore/gc.cc:149-261 | over every run, from call to sweep: after a call of addTempRoot has come back in a process that has not begun to exit, every sweep of another process that finds its file has the path among its roots |
| `RootCalls.NoInventedRoots` | nix/libstore/gc.cc:244-256 | over every run: a collector has read only roots that somebody has called addTempRoot for |
| `RootCalls.OnlyLocksStop` | nix/libstore/gc.cc:149-261 | in every reachable state a process inside a call can go on if and only if it does not wait for a lock |
| `LostRoots.LostByRemoval` | nix/libstore/gc.cc:225-237 | for every path a run in which a client removes its own file as stale and another process then sweeps without its root |
| `LostRoots.LostByClosing` | nix/libstore/gc.cc:239-258 | for every path a run in which a client keeps its file but closes it, so that its lock is dropped, and another process then removes the file and sweeps without its root |
| `GarbageCollector.LiveStep` | nix/libstore/gc.cc:520-525 | a path with a live incoming neighbour is live |
| `GarbageCollector.DerivationsAreKept` | nix/libstore/gc.cc:503-510 | with gc-keep-derivations a valid derivation lives while an output lives that it has made |
| `GarbageCollector.OutputsAreKept` | nix/libstore/gc.cc:512-518 | with gc-keep-outputs a valid output lives while a derivation lives that can make it |
| `GarbageCollector.ActiveTempFile` | nix/libstore/gc.cc:384-388 | a lock file or chroot is active exactly when what it belongs to is a temporary root |
| `GarbageCollector.SearchWithoutRoot` | nix/libstore/gc.cc:553-558 | a finished search that met no root and ran only into visited or dead paths has visited dead paths only, cycles allowed |
| `GarbageCollector.DependentsOfDeadAreDead` | nix/libstore/gc.cc:554-560 | whatever refers, directly or not, to a dead path is dead |
| `GarbageCollector.ClosureOfLiveIsLive` | nix/libstore/gc.cc:500-501 | whatever a live path refers to, directly or not, is live |
| `GarbageCollector.RemovingDeadKeepsLiveness` | nix/libstore/gc.cc:531-562 | deleting dead paths changes the liveness of no path, so the memo sets stay sound |
| `GarbageCollector.RootKeepsClosure` | nix/libstore/gc.cc:681-755 | after a collection a valid root has its whole closure, rows unchanged |
| `GarbageCollector.InvalidateKeepsClosed` | nix/libstore/local-store.cc:1430-1448 | invalidating a path without other referrers keeps every reference of a valid path valid |
| `GarbageCollector.ReferrerStep` | nix/libstore/gc.cc:413-420 | deleting a referrer first deletes only dependents, never the path itself, and there are fewer of them: the recursion ends |
| `Liveness.IncomingIsFlipped` | nix/libstore/gc.cc:498-518 | the collector follows exactly the edges of computeFSClosure in flipped direction, with outputs and derivers as it keeps them |
| `Liveness.FlippedIsConverse` | nix/libstore/misc.cc:26-54 | in a database whose rows agree, flipping the direction of computeFSClosure gives the converse edges |
| `Liveness.LiveIsClosureOfRoots` | nix/libstore/gc.cc:476-528 | in such a database a valid path is live for the collector if and only if it lies in the closure of a valid root under references, outputs if kept and derivers if kept |
| `GarbageCollector.GCState.constructor` | nix/libstore/gc.cc:637-683 | the roots are the temporary ones and, unless liveness is ignored, the permanent ones; the keep flags are off for ignored liveness with named paths; nothing is counted yet |
| `GarbageCollector.GCState.CanReachRoot` | nix/libstore/gc.cc:476-528 | with nothing visited, true if and only if a chain of incoming edges leads to a root; the memo sets stay right, and a failed search has visited dead paths only |
| `GarbageCollector.GCState.SearchIncoming` | nix/libstore/gc.cc:498-527 | the loop over the incoming edges: found means live and remembered, not found means that all edges lead to visited or dead paths |
| `GarbageCollector.GCState.InvalidatePathChecked` | nix/libstore/local-store.cc:1430-1448 | succeeds if and only if nobody else refers to the path; the database loses that row and no other, and stays closed |
| `GarbageCollector.GCState.RemoveFromDisk` | nix/libstore/gc.cc:422-472 | the whole effect, given how the rename goes: the entry leaves the directory and is reported, unless it is a directory whose move to the trash fails; a directory that is moved counts its archive size as invalidated, anything else that goes counts as freed; the limit is reported exactly when the counters exceed it |
| `GarbageCollector.RemovedSince` | nix/libstore/gc.cc:420-465 | deleting a path with its row keeps the accounts: what is gone is reported and nothing else, only directories can be stuck, and each entry in the trash counts the size in its row |
| `GarbageCollector.GCState.DeleteEntry` | nix/libstore/gc.cc:418-472 | a path that nobody refers to is gone with its row, and the accounts are kept |
| `GarbageCollector.GCState.DeletePathRecursive` | nix/libstore/gc.cc:407-473 | never raises PathInUse; at every exit the store is closed and acyclic, the accounts are kept, only dependents of the path are gone, and what has left the database has left the directory unless its move failed; it is cut short exactly when it goes over the limit |
| `GarbageCollector.GCState.DeleteReferrers` | nix/libstore/gc.cc:413-417 | the loop over the referrers: likewise, and nobody else refers to the path afterwards |
| `GarbageCollector.GCState.TryToDelete` | nix/libstore/gc.cc:531-562 | nothing live is lost, the path is marked truthfully, and when deletion is on it is gone, from the database and from the directory unless its move failed, or it was live or is one of those never tried |
| `GarbageCollector.GCState.DeletionSound` | nix/libstore/gc.cc:553-561 | all dependents of a dead path are dead, and removing some of them changes no liveness |
| `GarbageCollector.GCState.SweepInvalid` | nix/libstore/gc.cc:727-738 | the first pass: invalid entries are tried and, when deletion is on, gone from the directory unless live, valid ones put off, nothing live is lost |
| `GarbageCollector.GCState.SweepValid` | nix/libstore/gc.cc:742-751 | the second pass: unless cut short, every valid entry that was dead is gone, from the database and from the directory unless its move failed, and nothing live is lost |
| `GarbageCollector.GCState.Sweep` | nix/libstore/gc.cc:716-754 | a whole sweep in any order of the valid entries loses nothing live; it is cut short exactly when it goes over the limit, and otherwise leaves no dead entry in the database or the directory, but for failed moves and entries never tried |
| `GarbageCollector.GCState.DeleteNamed` | nix/libstore/gc.cc:700-707 | success means all named paths were dead and are gone, from the database and from the directory unless a move failed; the error names a path that was alive or is never tried |
| `GarbageCollector.GCState.CollectGarbage` | nix/libstore/gc.cc:637-765 | in every mode and at every exit nothing live is lost, references stay closed, PathInUse never occurs and the accounts are kept; without named paths the sweep is complete unless the limit is 0 or was exceeded; a complete deletion leaves no dead entry, valid or not, in the database or the directory, but for failed moves and entries never tried; the listing modes return the true split of the examined entries into live and dead |
| `StoreDb.ReferrerHasFewerDependents` | nix/libstore/local-store.cc:708-714 | in an acyclic store a referrer has strictly fewer dependents |
| `LockFiles.StepKeepsInv` | nix/libstore/pathlocks.cc:93-187 | every step of lockPaths, unlock and deleteLockFile, whichever process takes it, keeps the lock-file invariant |
| `LockFiles.RunKeepsInv` | nix/libstore/pathlocks.cc:93-187 | the invariant holds in every state of every crash-free interleaving |
| `LockFiles.LockedIsNotDeleted` | nix/libstore/pathlocks.cc:139-151 | a file that a process has locked is not being deleted by another one, so the size check decides |
| `LockFiles.MutualExclusion` | nix/libstore/pathlocks.cc:93-160 | over every run at most one process, with one descriptor, is inside for a path; the inode it holds is the one the name denotes and is not stale |
| `LockFiles.WaitsUpward` | nix/libstore/pathlocks.cc:101-104 | who is waited for waits itself for a greater path, because paths are locked in sorted order |
| `LockFiles.WaitChainAscends` | nix/libstore/pathlocks.cc:101-104 | along any chain of waiting processes the awaited paths ascend |
| `LockFiles.NoDeadlock` | nix/libstore/pathlocks.cc:93-160 | over every run processes that hold no other locks never wait in a circle |
| `LockCalls.LockPathsReturns` | nix/libstore/pathlocks.cc:93-159 | over every run: lockPaths comes back with true, false or the error of a self-held lock, and leaves the locks of other objects alone |
| `LockCalls.TrueHoldsAll` | nix/libstore/pathlocks.cc:107-158 | over every run: when lockPaths has returned true, the object is inside for exactly the paths it was asked for, and the process had none of them before |
| `LockCalls.FalseHoldsNone` | nix/libstore/pathlocks.cc:126-131 | over every run: when lockPaths has returned false, it was told not to wait and the object holds nothing |
| `LockCalls.FalseFoundTaken` | nix/libstore/pathlocks.cc:121-131 | over every run: lockPaths gives up only after it has found one of its locks taken by another process |
| `LockCalls.SelfHeldBefore` | nix/libstore/pathlocks.cc:114-115 | over every run: the error of a self-held lock means that the process had one of the locks when it called |
| `LockCalls.OnlyTheBlockedWait` | nix/libstore/pathlocks.cc:117-150 | in every reachable state a process inside a call can go on if and only if it does not wait for a lock that another process has |
| `LockCalls.UnlockReleases` | nix/libstore/pathlocks.cc:173-187 | over every run: when unlock has returned, the object holds nothing, other objects hold what they did, and files to be deleted are marked as stale |
| `Scheduler.AddToWeakGoals` | nix/libstore/build.cc:326-333 | adds exactly the goal and no duplicate |
| `Scheduler.WakeAll` | nix/libstore/build.cc:3502-3507 | wakes exactly those of a list that still exist and changes nothing else |
| `Scheduler.MakeGoalKeepsInv` | nix/libstore/build.cc:3449-3472 | the goal found or made is busy and has the key, nothing else changes, and the invariant holds |
| `Scheduler.AddWaiteeKeepsInv` | nix/libstore/build.cc:336-340 | both ends of the new edge are recorded and the invariant holds |
| `Scheduler.WaiteeDoneEffect` | nix/libstore/build.cc:343-372 | telling one waiter counts the result, drops that edge, or all of them if it failed with keepGoing off, leaves all other goals their waitees, and wakes it exactly when it waits for nothing any more |
| `Scheduler.WaiteeDoneKeepsInv` | nix/libstore/build.cc:343-372 | the assertion of waiteeDone holds, and the invariant survives the early cancel when keepGoing is off |
| `Scheduler.NotifyKeepsInv` | nix/libstore/build.cc:381-384 | the loop over the waiters never fails an assertion and keeps the invariant, whichever waiters are gone |
| `Scheduler.RemoveGoalKeepsInv` | nix/libstore/build.cc:3489-3508 | leaving the index and the top goals and waking who waits for any goal re-establishes the invariant |
| `Scheduler.AmDoneKeepsInv` | nix/libstore/build.cc:375-387 | ending a goal that waits for nothing fails no assertion and keeps the invariant |
| `Endings.AmDoneEndsWith` | nix/libstore/build.cc:343-387 | the whole effect: the exit code is the result, exactly the waiters count it and lose the waitee or give up, and exactly those are woken up that have nothing left to wait for or wait for any goal |
| `Endings.ExitCodeIsResult` | nix/libstore/build.cc:375-387 | over every run: a goal has an exit code if and only if an earlier step has ended it with this code, by itself or, for a failure, by a timeout of its child |
| `WakeUps.PerformPlaces` | nix/libstore/build.cc:3511-3588 | a goal that has been at work is awake, asleep in the list it asked for, has the child it started, or waits, and is nowhere else |
| `WakeUps.EventsWake` | nix/libstore/build.cc:3600-3630 | output of a child, a poll and a new round of the loop wake up or call everybody that waits for them |
| `Scheduler.ChildStartedKeepsInv` | nix/libstore/build.cc:3524-3536 | starting a child in a free slot, or outside the slots, keeps the invariant |
| `Scheduler.ChildTerminatedKeepsInv` | nix/libstore/build.cc:3539-3563 | the assertions of childTerminated hold, the slot is given back and who wants to build is woken |
| `Scheduler.SleepKeepsInv` | nix/libstore/build.cc:3566-3587 | waking oneself or sleeping in one of the three lists keeps the invariant |
| `Scheduler.RequestKeepsInv` | nix/libstore/build.cc:995-1005 | requesting any goals, new or existing, and waiting for them keeps the invariant |
| `Scheduler.ResetKeepsInv` | nix/libstore/build.cc:968 | counting failures anew keeps the invariant |
| `Scheduler.PerformKeepsInv` | nix/libstore/build.cc:861-864 | however a call of work() ends, the goal is somewhere afterwards and no assertion fails |
| `Scheduler.StepKeepsInv` | nix/libstore/build.cc:3590-3627 | a step fails an assertion of the worker if and only if it calls a goal that has ended; otherwise it keeps the invariant |
| `Scheduler.RunKeepsInv` | nix/libstore/build.cc:3590-3627 | the invariant holds in every state of every run |
| `Scheduler.OnlyEndedGoalsFail` | nix/libstore/build.cc:3600-3613 | over every run the next step fails an assertion of the worker if and only if it calls a goal that has ended |
| `Scheduler.WaitersMatchWaitees` | nix/libstore/build.cc:336-387 | over every run, for existing goals: w waits for e iff e has waiter w, every waitee is busy, each counter is the number of waitees that ended that way since the last reset, and nrFailed is the sum of the three kinds |
| `Scheduler.NoLostWakeUp` | nix/libstore/build.cc:3489-3587 | over every run a busy goal waits for nothing if and only if it is awake, asleep in one of the lists, or owns a child |
| `Scheduler.SlotsAreCounted` | nix/libstore/build.cc:3524-3573 | over every run nrLocalBuilds is the number of children in slots, never exceeds max(maxBuildJobs, 1), and a goal wants to build only while all slots are in use |
| `Scheduler.SomebodyWantsToBuild` | nix/libstore/build.cc:3618-3626 | when nothing is left to wait for and waiting is acyclic, following waitees ends at a goal that wants to build |
| `Scheduler.StuckOnlyWithoutJobs` | nix/libstore/build.cc:3618-3626 | over every run: with acyclic waiting and running lock holders, the loop finds nothing to wait for only when maxBuildJobs is 0 |
| `Sleepers.AttendedInRun` | nix/libstore/build.cc:3489-3508 | over every run with keepGoing on whose goals sleep until another one ends only while another has a child, and ask for no goals after they have had one: while anybody sleeps that way, a goal that has had a child is busy with something else |
| `Sleepers.NeverStuckAsleep` | nix/libstore/build.cc:3618-3626 | over every such run with acyclic waiting, the loop finds nothing to wait for only when maxBuildJobs is 0 |
| `KeptLocks.SleepsForEver` | nix/libstore/build.cc:852-858 | a run from the start, builds allowed, after which the loop has nothing to wait for: a goal sleeps because of the locks of one that has timed out |
| `FinishedGoals.AmDoneLively` | nix/libstore/build.cc:375-387 | when a goal ends that is neither awake nor asleep, no goal that has ended is awake or asleep afterwards |
| `FinishedGoals.TimeoutLively` | nix/libstore/build.cc:3741-3761 | after a timeout a goal that has ended is still awake if and only if it was awake already |
| `FinishedGoals.OnlyBusyGoalsWork` | nix/libstore/build.cc:3600-3613 | over every run without such a timeout, the loop calls busy goals only |
| `FinishedGoals.LivelyExactlyInTime` | nix/libstore/build.cc:3741-3761 | over every run without such a timeout so far: the next step leaves a goal that has ended awake or asleep if and only if it is such a timeout |
| `FinishedGoals.NoAssertionFails` | nix/libstore/build.cc:343-387 | over every run without such a timeout no step runs into a failed assertion of the worker |
| `FinishedGoals.HarmlessTimeout` | nix/libstore/build.cc:3600-3616 | when such a timeout does no harm: the loop calls nobody any more if the goal was the last top goal or keepGoing is off, and a goal that nobody keeps can go away |
| `LateTimeouts.LateTimeoutFails` | nix/libstore/build.cc:3600-3613 | when it does: with keepGoing on, a top goal that ends by such a timeout beside another top goal is called next, and an assertion fails |
| `LateTimeouts.EndedGoalIsCalled` | nix/libstore/build.cc:1337-1360 | a run from the start that fails an assertion in this way |
| `LateTimeouts.AwakeAtTheEnd` | nix/libstore/build.cc:3629-3634 | a run from the start after which no top goal is left but a goal is awake |
| `EndOfRun.AllFinishedAtTheEnd` | nix/libstore/build.cc:3629-3634 | over every run with keepGoing on, once no top goal is left: no goal is busy, nobody wants to build and no child runs; and nobody is awake either if no child timed out while its goal was awake |
| `EndOfRun.OrderlyInRun` | nix/libstore/build.cc:3489-3508 | over every run with keepGoing on: every busy goal is waited for, directly or not, by a top goal or is one, and whoever sleeps is busy |
| `TopGoals.EndOfTop` | nix/libstore/build.cc:3489-3508 | a goal that ends leaves the top goals, and takes all others with it exactly if it was one of them and failed with keepGoing off; it is never busy again |
| `TopGoals.TopGoalStays` | nix/libstore/build.cc:3590-3616 | over every run with keepGoing on: a goal the worker was asked to reach stays a top goal until it has ended, whatever else fails |
| `WorkerClass.Worker.Wake` | nix/libstore/build.cc:3511-3515 | adds the goal to the awake ones (proved against the specification of the step) |
| `WorkerClass.Worker.WakeList` | nix/libstore/build.cc:3502-3507 | the loop wakes exactly the listed goals that exist (proved against the specification of the step) |
| `WorkerClass.Worker.MakeOrFind` | nix/libstore/build.cc:3449-3472 | finds the goal of the key or makes one and keeps the invariant (proved against the specification of the step) |
| `WorkerClass.Worker.LinkWaitee` | nix/libstore/build.cc:336-340 | records both ends of the edge and keeps the invariant for a goal at work (proved against the specification of the step) |
| `WorkerClass.Worker.DropWaitees` | nix/libstore/build.cc:357-368 | the loops over waitees and their waiters give up exactly the edges of this goal (proved against the specification of the step) |
| `WorkerClass.Worker.TellWaitee` | nix/libstore/build.cc:343-372 | reports failure exactly when the assertion fails, else does what the specification says (proved against the specification of the step) |
| `WorkerClass.Worker.Remove` | nix/libstore/build.cc:3489-3508 | forgets the goal, drops or clears the top goals, wakes who waits for any goal (proved against the specification of the step) |
| `WorkerClass.Worker.TellWaiters` | nix/libstore/build.cc:381-384 | the loop over the waiters fails no assertion (proved against the specification of the step) |
| `WorkerClass.Worker.End` | nix/libstore/build.cc:375-387 | in a worker that keeps the invariant, no assertion fails and the invariant holds afterwards (proved against the specification of the step) |
| `WorkerClass.Worker.StartChildProcess` | nix/libstore/build.cc:3524-3536 | registers the child and counts its slot, after which the invariant holds again (proved against the specification of the step) |
| `WorkerClass.Worker.ReapChild` | nix/libstore/build.cc:3539-3563 | reports failure exactly when an assertion fails, else frees the slot and wakes who wants to build; never in a worker that keeps the invariant (proved against the specification of the step) |
| `WorkerClass.Worker.SleepUntilSlot` | nix/libstore/build.cc:3566-3573 | wakes the goal if a slot is free, else puts it to sleep, after which the invariant holds again (proved against the specification of the step) |
| `DerivationGoals.NothingInvalid` | nix/libstore/build.cc:2963-2974 | no wanted output invalid means that everything ever asked for is valid |
| `DerivationGoals.AllValid` | nix/libstore/build.cc:1203-1210 | as many valid output paths as outputs means that all outputs are valid, also when outputs share a path |
| `DerivationGoals.HaveDerivationSound` | nix/libstore/build.cc:905-953 | ends in success only with all requests delivered, asks for substitutes or goes on, and keeps the invariant; the mutual recursion of the states ends |
| `DerivationGoals.OutputsSubstitutedSound` | nix/libstore/build.cc:956-1006 | likewise, with a restart when more outputs were asked for and with the retry of substitution |
| `DerivationGoals.InputsRealisedSound` | nix/libstore/build.cc:1070-1136 | likewise, with the retry of substitution, the check of the inputs and the number of rounds |
| `DerivationGoals.TryToBuildSound` | nix/libstore/build.cc:1169-1287 | likewise, under the locks, with the hook and the build slots |
| `OutputChecks.AcceptedIsAcceptable` | nix/libstore/build.cc:2503-2668 | an output is accepted if and only if it is there with trusted permissions, matches a hash given in advance, and keeps within the four attributes on references and requisites |
| `OutputChecks.RejectedExactly` | nix/libstore/build.cc:2503-2668 | an output that can be checked is rejected if and only if it is not acceptable; another exception means that something could not be checked |
| `OutputChecks.ExamineRecords` | nix/libstore/build.cc:2486-2683 | the loop over the outputs ends well if and only if every output that was missing is acceptable, and records exactly those as they were found |
| `OutputChecks.RecordedPaths` | nix/libstore/build.cc:2676-2682 | the paths recorded are those of the missing outputs |
| `OutputChecks.ExamineOutputs` | nix/libstore/build.cc:2486-2683 | the loop, stopping at the first output that is not accepted (proved against the specification) |
| `DerivationGoals.RegisteredIsAcceptable` | nix/libstore/build.cc:2462-2726 | after the last round exactly the missing outputs become valid, each of them acceptable; before it nothing does |
| `DerivationGoals.BuildDoneSound` | nix/libstore/build.cc:1337-1523 | the last good round leaves every output valid, by registration of what was missing and accepted or by the hook |
| `DerivationGoals.WorkIsSound` | nix/libstore/build.cc:861-1523 | every call of work() keeps the invariant, makes nothing valid but missing outputs that are acceptable, asks for nothing improper, and ends in success only when every output ever asked for is valid |
| `DerivationGoals.WorkIsLegal` | nix/libstore/build.cc:1260-1265 | whatever work() asks for is a legal command of the scheduler: somebody else to wait for, a slot only when one is free |
| `DerivationGoals.RunIsFine` | nix/libstore/build.cc:861-1523 | the invariant over every order of requests, store changes and calls of work() |
| `DerivationGoals.RequestedIsDelivered` | nix/libstore/build.cc:867-881 | over every run: a goal that ends in success leaves valid every output it was made for or that anybody asked for since |
| `GoalOutcomes.AskedIsWanted` | nix/libstore/build.cc:867-881 | what was wanted before and what is asked for is wanted, and the goal starts again if and only if that is more |
| `GoalOutcomes.LooksExactly` | nix/libstore/build.cc:905-953 | what looking at the derivation leads to, with all the calls from state to state: success if and only if all that is wanted is valid, failure if and only if an output is known to fail, otherwise the exact goals that are asked for |
| `GoalOutcomes.InitExactly` | nix/libstore/build.cc:884-902 | how a call in state init ends, in every case |
| `GoalOutcomes.OutputsSubstitutedExactly` | nix/libstore/build.cc:956-1006 | how a call in state outputsSubstituted ends, in every case |
| `GoalOutcomes.InputsRealisedExactly` | nix/libstore/build.cc:1070-1136 | how a call in state inputsRealised ends, in every case |
| `GoalOutcomes.CountsAll` | nix/libstore/build.cc:1204-1210 | as many valid paths as outputs if and only if all are valid and no two outputs share a path |
| `GoalOutcomes.TryToBuildExactly` | nix/libstore/build.cc:1169-1325 | how a call in state tryToBuild ends, in every case |
| `GoalOutcomes.BuildDoneExactly` | nix/libstore/build.cc:1337-1523 | when a build ends in failure, by an exception, in success or in another round |
| `GoalOutcomes.EndsForACause` | nix/libstore/build.cc:861-1523 | over every run: a goal fails only because a waitee has failed, an output is known to fail, the builder has not started, or the build was broken, rejected or different from the last round; it throws only because the store is read-only, something cannot be read, substitutes have failed without fallback, or a build or registration was aborted |
| `BuildRounds.RoundsAgree` | nix/libstore/build.cc:2685-2720 | over every run: all rounds of a build that end well have produced the same outputs, hashes and references |
| `BuildRounds.FlagsInRun` | nix/libstore/build.cc:1575-1576 | over every run: a goal has a hook if and only if the hook has taken one of its builds, and builds itself if and only if it has started the last one |
| `BuildRounds.PreviousCount` | nix/libstore/build.cc:2717-2720 | over every run: the infos remembered are as many as outputs were missing in any round looked at before, none if the hook has registered them all |
| `BuildRounds.BuildDoneFails` | nix/libstore/build.cc:1347-1355 | over every run: buildDone fails an assertion if and only if an earlier build was taken by the hook and the present one was started by this process, or this is not the first round, the build went well, all that was missing is acceptable, and not as many outputs were missing as in the rounds looked at before (line 2688) |
| `BuildRounds.SingleBuildNeverFails` | nix/libstore/build.cc:1124-1126 | over every run without repetition, by option or because all outputs are fixed, buildDone fails no assertion |
| `FailingBuilds.HookDeclinesAgain` | nix/libstore/build.cc:1347-1349 | a run that waits for a hook that is gone |
| `FailingBuilds.OutputAppears` | nix/libstore/build.cc:2685-2688 | a run in which one of two outputs becomes valid between the rounds and the counts differ |
| `FailingBuilds.HookRegistersOnce` | nix/libstore/build.cc:2467-2472 | a run in which the hook registers the first round only and the counts differ |
| `DerivationGoalClass.DerivationGoal.constructor` | nix/libstore/build.cc:788-809 | a new goal wants the outputs it was made for |
| `DerivationGoalClass.DerivationGoal.AddWantedOutputs` | nix/libstore/build.cc:867-881 | the loop adds the outputs and asks for a restart exactly when one was not wanted |
| `DerivationGoalClass.DerivationGoal.CheckValidity` | nix/libstore/build.cc:2963-2974 | the loop returns exactly the paths of wanted outputs that are valid, or those that are not |
| `DerivationGoalClass.DerivationGoal.AnyFailed` | nix/libstore/build.cc:2977-2991 | true iff failures are cached and one of the paths is known to fail |
| `DerivationGoalClass.DerivationGoal.Missing` | nix/libstore/build.cc:1212-1214 | the loop leaves the output paths that are not valid |
| `DerivationGoalClass.DerivationGoal.SubstitutionKeysFor` | nix/libstore/build.cc:945-947 | one substitution goal for each path, in order |
| `DerivationGoalClass.DerivationGoal.DerivationKeysFor` | nix/libstore/build.cc:995-997 | one derivation goal for each path, in order |
| `DerivationGoalClass.DerivationGoal.InputsChecked` | nix/libstore/build.cc:1099-1111 | the loop over the input derivations stops at the first that is not valid or faulty, equal to its specification |
| `DerivationGoalClass.DerivationGoal.DoInit` | nix/libstore/build.cc:884-902 | the transition of state init, equal to its specification, which WorkIsSound is about |
| `DerivationGoalClass.DerivationGoal.DoHaveDerivation` | nix/libstore/build.cc:905-953 | the transition of state haveDerivation, equal to its specification, which WorkIsSound is about |
| `DerivationGoalClass.DerivationGoal.DoOutputsSubstituted` | nix/libstore/build.cc:956-1006 | the transition of state outputsSubstituted, equal to its specification, which WorkIsSound is about |
| `DerivationGoalClass.DerivationGoal.DoInputsRealised` | nix/libstore/build.cc:1070-1136 | the transition of state inputsRealised, equal to its specification, which WorkIsSound is about |
| `DerivationGoalClass.DerivationGoal.DoTryToBuild` | nix/libstore/build.cc:1169-1287 | the transition of state tryToBuild, equal to its specification, which WorkIsSound is about |
| `DerivationGoalClass.DerivationGoal.AllOutputsValid` | nix/libstore/build.cc:2467-2472 | the loop finds out whether all outputs are valid |
| `DerivationGoalClass.DerivationGoal.CompareRounds` | nix/libstore/build.cc:2685-2726 | compares with the last round, with the assertion on the counts, then remembers or registers; equal to its specification, which RegisteredIsAcceptable and RoundsAgree are about |
| `DerivationGoalClass.DerivationGoal.DoRegisterOutputs` | nix/libstore/build.cc:2462-2726 | registerOutputs, equal to its specification, which RegisteredIsAcceptable, RoundsAgree and BuildDoneFails are about |
| `DerivationGoalClass.DerivationGoal.DoBuildDone` | nix/libstore/build.cc:1337-1523 | the transition of state buildDone with registerOutputs, failed assertions apart from exceptions, equal to its specification, which WorkIsSound and BuildDoneFails are about |
| `DerivationGoalClass.DerivationGoal.Work` | nix/libstore/build.cc:861-864 | success means that everything asked for is valid; otherwise the invariant holds again |
| `SubstitutionGoals.SubstitutionGoal.DoInit` | nix/libstore/build.cc:3124-3140 | succeeds at once when the path is valid |
| `SubstitutionGoals.SubstitutionGoal.TryNext` | nix/libstore/build.cc:3143-3175 | ends with ecNoSubstituters iff there is no substituter, else waits for the references other than itself or goes on |
| `SubstitutionGoals.SubstitutionGoal.DoReferencesValid` | nix/libstore/build.cc:3178-3194 | ends with ecIncompleteClosure iff a reference had no substituter or an incomplete closure; goes on only with all references valid, else fails an assertion |
| `SubstitutionGoals.SubstitutionGoal.DoTryToRun` | nix/libstore/build.cc:3197-3274 | sleeps for a slot iff none is free, one being allowed even without jobs; then for a lock of another goal or process; then succeeds if the path is valid, else starts the child |
| `SubstitutionGoals.SubstitutionGoal.DoFinished` | nix/libstore/build.cc:3277-3377 | registers the path exactly when the fetch went well |
| `SubstitutionGoals.SubstWorkIsSound` | nix/libstore/build.cc:3118-3377 | every call of work(): success means that the path is valid; the store gains at most this path, with its references valid; the references stay valid once it tries to run |
| `SubstitutionGoals.SubstitutedIsComplete` | nix/libstore/build.cc:3118-3377 | over every run, the store changing in between: success means that the path is valid, and a call makes nothing valid but this path, with all its references valid |
| `SubstitutionGoals.SubstitutionGoal.Work` | nix/libstore/build.cc:3118-3121 | the object does what the specification does, which the two rows above are about |
| `SubstitutionGoals.ProperIsLegal` | nix/libstore/build.cc:3201-3208 | what a substitution goal asks for is a legal command of the scheduler |
| `Waiting.AmDoneEnds` | nix/libstore/build.cc:343-387 | when a goal ends, nobody loses a waitee without counting a failure, except for one that has ended in success |
| `Waiting.RequestAwaits` | nix/libstore/build.cc:995-1005 | after asking for goals, a goal waits for one with each key, and nobody else has lost any |
| `Waiting.WorkWorks` | nix/libstore/build.cc:861-864 | what a call of work() means for the waitees of all goals |
| `Realisation.MoveKeepsInv` | nix/libstore/build.cc:861-920 | every move of the worker, a goal or the store keeps: what a goal expects is awaited, or counted as failed, or valid and a temporary root |
| `Realisation.SystemRunKeepsInv` | nix/libstore/build.cc:3590-3627 | likewise over every run of the worker with its goals |
| `Realisation.LateStaysLate` | nix/libstore/build.cc:1169-1523 | a derivation goal that has come to its build asks for no goals again |
| `Realisation.ExpectedPathsAreValid` | nix/libstore/build.cc:1099-1111 | over every run of the worker with its goals: the assertions that the derivation (line 920), the input derivations (line 1103) and the references (line 3190) are valid hold; a derivation goal fails an assertion only at the end of a build, a substitution goal none |
| `Closure.ComputeFSClosure` | nix/libstore/misc.cc:18-59 | terminates on cycles; adds only what is reachable, is closed apart from what was passed in, and fails only when a query on a reachable path fails |
| `Closure.ClosureIsExact` | nix/libstore/misc.cc:18-59 | started from a closed set, the result is that set and exactly the reachable paths |
| `Closure.ComputeClosures` | nix/libstore/build.cc:1099-1120 | repeated calls on one set yield precisely the union of the single closures |
| `Closure.ForwardClosureSucceeds` | nix/libstore/misc.cc:18-59 | following references from a valid path of a closed store, no query fails |
| `TopoSort.OrderedIsAcyclic` | nix/libstore/misc.cc:62-95 | an order that respects all references shows that there is no cycle |
| `TopoSort.Sorter.DfsVisit` | nix/libstore/misc.cc:62-85 | fails only on a cycle, else leaves the path and all before it sorted |
| `TopoSort.Sorter.Prepend` | nix/libstore/misc.cc:83-84 | the path goes before everything it refers to |
| `TopoSort.TopoSortPaths` | nix/libstore/misc.cc:88-95 | succeeds if and only if there is no cycle of two or more paths among the set; the result is the set in an order in which p precedes what it refers to |
| `Registration.LocalStore.AddRows` | nix/libstore/local-store.cc:952-959 | new paths get a row without references, old ones their new size |
| `Registration.LocalStore.AddReferences` | nix/libstore/local-store.cc:961-965 | succeeds iff every reference is valid, and joins the references in |
| `Registration.LocalStore.RegisterValidPaths` | nix/libstore/local-store.cc:941-986 | all or nothing; succeeds only if every reference is known, outputs are right and the registered paths have no cycle, fails only if one of these fails; keeps the store closed and, for fresh paths, acyclic |
| `Registration.ListedExactly` | nix/libstore/local-store.cc:960-965 | a path gains exactly the references that some info lists for it |
| `Registration.LastSizeCounts` | nix/libstore/local-store.cc:953-958 | the last info about a path has its size |
| `Registration.FirstInfoCounts` | nix/libstore/local-store.cc:495-530 | the first info about a new path settles its deriver, and its outputs are read if it is a derivation |
| `Registration.OldRowsStay` | nix/libstore/local-store.cc:636-652 | a path that was valid keeps everything but its size |
| `Registration.RegistrationKeepsClosed` | nix/libstore/local-store.cc:961-965 | references stay closed over valid paths |
| `Registration.FreshKeepsAcyclic` | nix/libstore/local-store.cc:978-982 | sorting only the new paths keeps the whole store acyclic when they were not valid before |
| `Registration.AcyclicUnlessBackReference` | nix/libstore/local-store.cc:952-982 | for every accepted registration: the store stays acyclic if and only if no path that is valid already is to be given a reference from which it can be reached, a condition on the database before and the infos |
| `Registration.ReRegistrationCanMakeCycle` | nix/libstore/local-store.cc:952-982 | a concrete re-registration that the sort accepts and that makes the store cyclic |
| `References.SkipIsSafe` | nix/libstore/references.cc:28-37 | no window that holds a character outside base 32 can be a wanted hash |
| `References.Skip` | nix/libstore/references.cc:29-37 | the right-to-left test of one window |
| `References.Search` | nix/libstore/references.cc:16-47 | moves exactly the wanted words that occur in the text from hashes to seen, despite the skip |
| `References.FoundAcross` | nix/libstore/references.cc:68-79 | a word is in the stream so far iff it was found before, or is in the seam of tail and fragment, or in the fragment |
| `References.RefScanSink.Write` | nix/libstore/references.cc:64-80 | after each fragment, seen is the subset of wanted words that occur in the concatenation, hashes the rest, and the tail is the end of it |
| `References.Scan` | nix/libstore/references.cc:64-80 | for every way of cutting the stream, the result is the set of wanted words that occur in the whole |
| `References.ScanForReferences` | nix/libstore/references.cc:83-119 | the scan takes place if and only if every candidate has a hash part of full length that no other candidate has; the references are then exactly the candidates whose hash part occurs |
| `Derivations.Expect` | nix/libutil/util.cc:1220-1226 | succeeds iff the text starts with the expected string, and takes just that |
| `Derivations.StringBack` | nix/libutil/util.cc:1229-1244 | every NUL-free string is read back from its printed form, whatever follows |
| `Derivations.ListBack` | nix/libutil/util.cc:1247-1258 | a printed list is read back item by item, with the commas and the bracket of endOfList |
| `Derivations.OutputBack` | nix/libstore/derivations.cc:72-80 | a printed output is read back |
| `Derivations.InputBack` | nix/libstore/derivations.cc:83-91 | a printed input derivation is read back |
| `Derivations.DerivationBack` | nix/libstore/derivations.cc:65-112 | a well-formed derivation is read back as it was written, and what follows is left alone |
| `Derivations.UnparseNulFree` | nix/libstore/derivations.cc:125-195 | the printed text never holds a NUL |
| `Derivations.ParsedIsWellFormed` | nix/libstore/derivations.cc:47-112 | whatever NUL-free text the parser accepts, the derivation is well-formed |
| `Derivations.RoundTrip` | nix/libstore/derivations.cc:65-195 | parsing undoes printing if and only if no string holds a NUL and all output, input and source paths are absolute |
| `Derivations.UnparseIsInjective` | nix/libstore/derivations.cc:151-195 | different well-formed derivations have different texts, neither a beginning of the other |
| `Formats.ItemLayout` | nix/libstore/derivations.cc:159-190 | the fields of an output, an input and a variable, in order |
| `Formats.DerivationLayout` | nix/libstore/derivations.cc:151-193 | a derivation is printed as outputs, input derivations, sources, platform, builder, arguments, environment |
| `DerivationText.InOrder` | nix/libstore/derivations.cc:158-174 | the order in which sets and maps are visited |
| `DerivationText.PrintString` | nix/libstore/derivations.cc:125-135 | appends the escaped string, up to a NUL |
| `DerivationText.PrintStrings` | nix/libstore/derivations.cc:139-148 | appends the bracketed list |
| `DerivationText.PrintOutputs` | nix/libstore/derivations.cc:157-165 | appends the outputs in order |
| `DerivationText.PrintInputs` | nix/libstore/derivations.cc:167-174 | appends the input derivations in order |
| `DerivationText.UnparseDerivation` | nix/libstore/derivations.cc:151-195 | the whole printer yields the text that RoundTrip is about |
| `DerivationText.Reader.Expect` | nix/libutil/util.cc:1220-1226 | advances past the expected string or fails |
| `DerivationText.Reader.ParseString` | nix/libutil/util.cc:1229-1244 | the loop reads the literal the specification reads, or fails at the end of input |
| `DerivationText.Reader.EndOfList` | nix/libutil/util.cc:1247-1258 | takes a comma or a bracket and tells which |
| `DerivationText.Reader.ParseStrings` | nix/libstore/derivations.cc:56-62 | the loop collects the set of strings or paths |
| `DerivationText.Reader.ParseOutputs` | nix/libstore/derivations.cc:72-80 | the loop fills the map, a later entry replacing an earlier one |
| `DerivationText.Reader.ParseInputs` | nix/libstore/derivations.cc:83-91 | the loop fills the map of input derivations |
| `DerivationText.Reader.ParseDerivation` | nix/libstore/derivations.cc:65-112 | the whole parser on a stream equals its specification |
| `DerivationText.WriteAndRead` | nix/libstore/derivations.cc:65-195 | the printer followed by the parser returns every well-formed derivation |
| `HashModulo.HashOfSub` | nix/libstore/derivations.cc:235-262 | the cache-free hash depends only on the derivation and its inputs |
| `HashModulo.AlikeHashAlike` | nix/libstore/derivations.cc:235-262 | derivations whose inputs are paired alike all the way down hash alike |
| `HashModulo.FixedOutputsDoNotMatter` | nix/libstore/derivations.cc:214-262 | input graphs that differ only in fixed-output derivations with equal algorithm, hash and path, and in the paths these change, give equal hashes, provided inputs that hash alike ask for the same outputs |
| `HashTexts.MaskedIsInjective` | nix/libstore/derivations.cc:255-262 | the text that is hashed, with hashes in place of input paths, determines the derivation |
| `HashTexts.EqualHashesExactly` | nix/libstore/derivations.cc:235-262 | with an ideal hash function, well-formed derivations that are not fixed-output hash alike if and only if they are the same once hashes stand for their inputs |
| `HashTexts.ReplacedExactly` | nix/libstore/derivations.cc:249-260 | the derivation that is hashed has exactly the hashes of its inputs |
| `HashTexts.LastInputCounts` | nix/libstore/derivations.cc:249-260 | each with the outputs asked for; where hashes are equal, the input with the greatest path counts |
| `HashTexts.FixedHashesExactly` | nix/libstore/derivations.cc:238-244 | with an ideal hash function and without colons in hashes and paths, two fixed-output derivations hash alike if and only if their outputs are the same, whatever their inputs are |
| `HashTexts.FixedDiffersFromOthers` | nix/libstore/derivations.cc:235-262 | with an ideal hash function a fixed-output derivation never has the hash of one that is not |
| `HashTexts.ColonsMatter` | nix/libstore/derivations.cc:240-243 | two different fixed outputs with the same text, one of them with a colon in its hash |
| `HashTexts.NamesMatter` | nix/libstore/derivations.cc:249-260 | two derivations of the same content, one asked for its output and one not: exchanging them changes the hash, because the last of equal hashes wins |
| `HashModulo.HashingStore.InputHash` | nix/libstore/derivations.cc:249-256 | the hash of an input, cached or not, is the cache-free one |
| `HashModulo.HashingStore.HashDerivationModulo` | nix/libstore/derivations.cc:235-262 | the memoised recursion equals the cache-free one, terminates, and keeps the cache right |
| `HashModulo.HashingStore.InvalidatePath` | nix/libstore/local-store.cc:991-1001 | forgetting the hash of an invalidated derivation keeps the cache right |
| `HashModulo.HashingStore.RegisterDerivation` | nix/libstore/local-store.cc:941-986 | a new derivation with valid inputs keeps the cache right |
| `Serialise.IntBack` | nix/libutil/serialise.cc:147-222 | every number below 2^32 is read back |
| `Serialise.LongLongBack` | nix/libutil/serialise.cc:159-238 | every number below 2^64 is read back |
| `Serialise.PaddingBack` | nix/libutil/serialise.cc:137-208 | padding is accepted and just it is taken |
| `Serialise.StringBack` | nix/libutil/serialise.cc:174-259 | every string below 2^32 bytes is read back and nothing after it is touched |
| `Archive.NodeBack` | nix/libutil/archive.cc:54-250 | every legal tree is restored from its text, whatever follows |
| `Archive.EntriesBack` | nix/libutil/archive.cc:78-240 | the entries of a directory are restored in order, by induction on what is left |
| `Archive.NodePrepends` | nix/libutil/archive.cc:54-104 | dumping only ever appends |
| `Archive.RoundTrip` | nix/libutil/archive.cc:107-265 | restoring a dump followed by any bytes rebuilds the tree and leaves exactly those bytes |
| `Archive.DumpIsPrefixFree` | nix/libutil/archive.cc:107-111 | different trees have different dumps, and no dump is the beginning of another |
| `Formats.StringLayout` | nix/libutil/serialise.cc:137-186 | a string is its length in eight bytes, its bytes, and zeros up to a multiple of eight |
| `Formats.ArchiveIsFlat` | nix/libutil/archive.cc:54-111 | an archive is the version and then the fields of the tree one after the other |
| `ArchiveStreams.Sink.WritePadding` | nix/libutil/serialise.cc:137-144 | appends zeros up to a multiple of eight |
| `ArchiveStreams.Sink.WriteInt` | nix/libutil/serialise.cc:147-156 | the shifted and masked bytes are the little-endian number modulo 2^32 |
| `ArchiveStreams.Sink.WriteLongLong` | nix/libutil/serialise.cc:159-171 | the shifted and masked bytes are the little-endian number modulo 2^64 |
| `ArchiveStreams.Sink.WriteString` | nix/libutil/serialise.cc:174-185 | length, bytes and padding |
| `ArchiveStreams.Sink.Copy` | nix/libutil/archive.cc:43-48 | the loop over buffers copies the whole contents |
| `ArchiveStreams.Sink.DumpEntries` | nix/libutil/archive.cc:82-91 | the loop dumps every entry, in order |
| `ArchiveStreams.Sink.DumpNode` | nix/libutil/archive.cc:54-104 | appends the text of the tree |
| `ArchiveStreams.Sink.DumpPath` | nix/libutil/archive.cc:107-111 | appends the dump that RoundTrip is about |
| `ArchiveStreams.Source.SkipPadding` | nix/libutil/serialise.cc:199-208 | fails on non-zero padding |
| `ArchiveStreams.Source.NextInt` | nix/libutil/serialise.cc:211-222 | fails iff the high bytes are set or the source ends |
| `ArchiveStreams.Source.NextLongLong` | nix/libutil/serialise.cc:225-238 | the little-endian number of the eight bytes |
| `ArchiveStreams.Source.NextString` | nix/libutil/serialise.cc:251-259 | reads the string its specification reads |
| `ArchiveStreams.Source.NextContents` | nix/libutil/archive.cc:131-150 | the loop over buffers reads the whole contents |
| `ArchiveStreams.Source.ParseEntryFields` | nix/libutil/archive.cc:214-240 | the loop over the fields of an entry |
| `ArchiveStreams.Source.ParseNamedNode` | nix/libutil/archive.cc:234-236 | the node of an entry, refused without a name or with one that exists |
| `ArchiveStreams.Source.ParseOneField` | nix/libutil/archive.cc:182-248 | one field of a node |
| `ArchiveStreams.Source.ParseTree` | nix/libutil/archive.cc:162-250 | the recursive parser equals its specification, on any input |
| `ArchiveStreams.Source.RestorePath` | nix/libutil/archive.cc:253-265 | a wrong version fails; otherwise the tree is parsed |
| `ArchiveStreams.DumpAndRestore` | nix/libutil/archive.cc:107-265 | the dumper followed by the restorer returns every legal tree |
| `Base32.HashLength32` | nix/libutil/hash.cc:97-100 | the least number of digits that hold all bits |
| `Base32.PickedIsDigit` | nix/libutil/hash.cc:116-123 | the two shifted and ORed bytes give the base-32 digit of the hash as an integer, all indices in bounds |
| `Base32.PrintHash32` | nix/libutil/hash.cc:107-126 | the loop prints the digits, most significant first |
| `Base32.DigitEnters` | nix/libutil/hash.cc:148-152 | ORing a digit into one byte or two adds it to the number the bytes hold |
| `Base32.FindDigit` | nix/libutil/hash.cc:143-147 | the loop finds the first place of a character |
| `Base32.EnterDigit` | nix/libutil/hash.cc:148-152 | after the step the bytes hold one digit more |
| `Base32.ParseHash32` | nix/libutil/hash.cc:135-156 | for every text: fails on a wrong length or character, else the bytes are the number modulo 256 to the size |
| `Base32.PrintedValue` | nix/libutil/hash.cc:107-126 | the printed digits are, in base 32, the little-endian integer of the hash |
| `Base32.RoundTrip` | nix/libutil/hash.cc:107-156 | parsing restores every byte of a printed hash |
| `Base32.ReprintedExactly` | nix/libutil/hash.cc:107-156 | printing the parsed bytes gives the text back if and only if its number is less than 256 to the number of bytes |
| `Base32.OverlongText` | nix/libutil/hash.cc:135-156 | a text that is accepted although its number does not fit |

## Left out

- Repair and check mode of derivation goals and repair of substitutes: only the normal mode is modelled.
- startBuilder, runChild, chroots, user switching, log files, agents and hash rewriting: system calls; how the builder ends and what is found at the output paths are answers.
- The parsing of the attributes on references, the closures compared with them, and keeping failed outputs for comparison; whether the database takes the outputs is an answer, and `Registration.dfy` has the rules.
- Sleepers.Mannered: which goal has which lock is not modelled; that a goal sleeps until another one ends only while another has a child is a hypothesis on the run, because goals that end by a timeout, by a cached failure or by a failed substitution keep their locks until they go away.
- The select() loop and the clocks of waitForInput: output, end of file, timeouts and polls are events in any order; a log that grows too long ends a goal like a timeout.
- Termination of a derivation goal over all calls: retrySubstitution is never cleared, so it is not claimed; every single call of work() is proved to return.
- Crashes between taking away the name of a stale file and writing its token, in both protocols.
- Permanent roots: findRoots, indirect roots and the roots of running programs are one given set.
- The trash directory and the links directory as such: how much deleting frees on the disk is an answer; byte counters do not wrap.
- Names ending in `.lock` or `.chroot` of paths being built are skipped as in the code, but their files are not modelled further.
- The path filter of dumpPath and the case hack: every entry is dumped.
- The events that the archive parser sends to a ParseSink: they are represented by the tree they create, with the errors of creating what exists.
- References.Search: lengths are unbounded, so the 32-bit length of a fragment is not modelled.
- The hashing part of RefScanSink, and hashes and registration times in the database rows.
- verifyStore, optimisePath, importing and exporting paths, the daemon's protocol, signatures, option parsing.
- Parsing of hexadecimal hashes and of derivation paths with outputs: only easy members.
