# A verified model of FLAPPY's scheduling, planning and indexing logic

FLAPPY is a binary package manager with a bulk builder.  This project models the parts of it that are hard to get
right and proves what they are for:

- **Bulk builds** (`Bulk*.dfy`).  flappy-fbulk reads dependency lists recursively while builds are forked, run and
  reaped in between.  `BulkState` gives its states and the events that change them; `BulkBuild.Builder` has the
  program's procedures over its lists and counters, each proved to perform a run of those events; the other files prove
  what holds in every state of every run on an acyclic graph.  Three findings are stated with the run that shows them:
  when a build is reaped while a dependency list is being read, the package of that list can be queued before all its
  dependencies are built, or the program can abort at one of its own assertions, and the final loop can stop while
  packages are queued.  For each the exact condition is proved.  Apart from that the exit codes alone decide which
  packages are built: two complete runs agree however they were interleaved.
- **The worker pool** (`WorkerPool.dfy`): threads with a first slice of their own that then share a cursor.
- **The dependency tree and orphans** (`FullDepTree.dfy`, `Orphans.dfy`): a depth-first walk with a shared table, the
  reverse dependency index, the automatic orphans and the recursive removal.
- **The files of a transaction** (`TransactionFiles.dfy`, `TransactionPlan.dfy`, `TransactionCommit.dfy`,
  `TransactionRun.dfy`): who gives a path up and who brings it, what is removed by whom and in which order, and the loop
  that carries the plan out.
- **Paths** (`PathClean.dfy`, `PathBuffer.dfy`, `PathRel.dfy`): cleaning a path in place and the relative path between
  two files.
- **The hash table** behind all lookups (`HashTable.dfy`), **publication of a repository stage** (`StageIndex.dfy`),
  the **registry of alternatives** (`Alternatives.dfy`) and **package versions and file names** (`PkgName.dfy`).

Where the program changes state step by step the model does too: objects with fields, loops with invariants, buffers
that are overwritten.  Forks, exit codes, the order of reaped builds, thread creation and interleaving, callbacks, hash
functions, the answers of the file system and the order of dictionary iterators are parameters or are left open, so
every statement holds for all of them.  `dafny verify dfyconfig.toml` checks everything.

## Model

| member | source | states |
|---|---|---|
| BulkTheorems.RunKeeps | bin/flappy-fbulk/main.c:152-532 | the scheduler's invariant holds after every run of events on an acyclic graph, whatever is reaped, when, and whichever forks fail |
| BulkTheorems.CounterTheorem | bin/flappy-fbulk/main.c:207-213 | between completions an item's dcount is the number, with multiplicity, of entries naming it on the lists of items that are not done |
| BulkTheorems.OnceEach | bin/flappy-fbulk/main.c:319-375 | no item is started twice or finishes twice, and exactly the done items have finished |
| BulkTheorems.Capacity | bin/flappy-fbulk/main.c:319-382 | no run raises the number of running builds above the number of jobs |
| BulkTheorems.QueuedDeps | bin/flappy-fbulk/main.c:146-160 | an item that was not queued while its list was read has only dependencies that were built and ended with code 0 |
| BulkTheorems.NothingFailedBelow | bin/flappy-fbulk/main.c:298-306 | if nothing was queued early, every transitive dependency of a queued item was built and ended with code 0 |
| BulkTheorems.Completeness | bin/flappy-fbulk/main.c:749-757 | when all lists were read and both lists are empty, every item is done and the counters agree |
| BulkTheorems.DrainedExactly | bin/flappy-fbulk/main.c:749-757 | when nothing runs any more, everything is done if and only if the build list is empty |
| BulkTheorems.Outcome | bin/flappy-fbulk/main.c:215-241 | after a complete run without early items exactly the items with only successful dependencies were started, and every other one carries the code of a started build among its transitive dependencies |
| BulkResults.ForkFails | bin/flappy-fbulk/main.c:358-366 | a build that cannot be forked ends with the code -98 and runs nothing |
| BulkResults.ForkRuns | bin/flappy-fbulk/main.c:319-382 | a build that was forked leaves the queue for the run list, and no other item changes |
| BulkResults.FailureStops | bin/flappy-fbulk/main.c:215-241 | once an item has failed, nothing that depends on it is queued or started in any later state, unless it was queued while its list was read |
| BulkResults.InQueueOrder | bin/flappy-fbulk/main.c:146-160 | builds are started in the order in which they were queued |
| BulkResults.RunRecords | bin/flappy-fbulk/main.c:276-291 | in every run whatever was started and is done has the code that its fork or its build gave |
| BulkResults.ResultsFixed | bin/flappy-fbulk/main.c:165-250 | after a complete run without early items a package ended with code 0 if and only if it and all that it depends on build, and was started if and only if all that it depends on builds |
| BulkResults.SameResults | bin/flappy-fbulk/main.c:464-532 | two such runs agree on what was started and what succeeded, however they were interleaved |
| BulkEarly.StepGrants | bin/flappy-fbulk/main.c:215-228 | every step queues only items all of whose dependencies registered so far are done with code 0 |
| BulkEarly.StepLasts | bin/flappy-fbulk/main.c:242-246 | what is done stays done with its code, and what was queued early stays so |
| BulkEarly.SafeExactlyWhenClosed | bin/flappy-fbulk/main.c:503-530 | in a run that gets past the item's list without an abort, it is queued with all its dependencies done and successful if and only if the list was fully read at that moment |
| BulkEarly.CalmRun | bin/flappy-fbulk/main.c:464-530 | a run that reaps nothing while a list is read queues nothing early and meets none of the program's aborts |
| BulkAborts.DeafWhenOvertaken | bin/flappy-fbulk/main.c:215-241 | a package whose list is read stops listening exactly when it is queued too early or done |
| BulkAborts.AbortsExactly | bin/flappy-fbulk/main.c:417-437 | an event aborts the program if and only if it registers a failed dependency for a package that was queued or done while its list was read, or ends the list of such a package when all its dependencies are done |
| BulkAborts.RunAborts | bin/flappy-fbulk/main.c:503-530 | a run ends in an abort exactly when its last event is one of these in the state that the others lead to |
| BulkExamples.QueuedTooEarly | bin/flappy-fbulk/main.c:464-530 | three packages suffice for a run that queues one before a dependency is built |
| BulkExamples.EndsInAbort | bin/flappy-fbulk/main.c:508-525 | with two jobs, three packages suffice for a run that aborts |
| BulkExamples.DrainStopsShort | bin/flappy-fbulk/main.c:749-757 | a run in which nothing is left to wait for while a package is queued |
| BulkCascade.CompleteKeeps | bin/flappy-fbulk/main.c:165-250 | a completion cascade, nested completions included, keeps the invariant, finishes its item and enters none twice |
| BulkBuild.Builder.ProcessCompletion | bin/flappy-fbulk/main.c:165-250 | the recursive procedure ends, performs exactly the cascade, and its two assertions never fire |
| BulkBuild.Builder.WaitRunning | bin/flappy-fbulk/main.c:259-296 | performs exactly the reaping of the build it returns, which ran and is done with the exit status that was received; a blocking wait returns none only when none runs |
| BulkBuild.Builder.RunBuilds | bin/flappy-fbulk/main.c:307-394 | forks until the pipeline is full or nothing is queued, then collects the builds that have exited, as a run of events; every build keeps the code of its fork or its exit |
| BulkBuild.Builder.StartBuild | bin/flappy-fbulk/main.c:319-382 | takes the head of the queue and performs the event of a fork that works or fails, as it does |
| BulkBuild.Builder.AddDepn | bin/flappy-fbulk/main.c:402-437 | registers one line of a dependency list as an event |
| BulkBuild.Builder.OrderedDepends | bin/flappy-fbulk/main.c:443-532 | reads a package's list, with all that it reaches, as a run of events, and leaves the pipeline full unless a build was collected last |
| BulkBuild.Builder.Drain | bin/flappy-fbulk/main.c:749-757 | ends with nothing running, as a run of events whose last part collects the builds of a full pipeline or of an empty queue |
| BulkBuild.Builder.BuildAll | bin/flappy-fbulk/main.c:742-757 | the whole program performs a run from the initial state; unless it aborts nothing runs at the end, everything is done exactly when the queue is empty, and queued is exactly what was queued when the last look at the builds began or waited for nothing but dependencies that had ended with code 0 or were found to by that look; when the queue is empty and nothing was queued early, the exit codes tell which packages succeeded and which were started |
| BulkDrain.StaysQueued | bin/flappy-fbulk/main.c:368-394 | after a look at the running builds exactly those packages are queued that were before, or waited only for dependencies done with code 0 or collected with code 0 |
| BulkDrain.EmptiedExactly | bin/flappy-fbulk/main.c:749-757 | so the last look leaves the queue empty if and only if it was empty when the look began and no package waited in this way |
| WorkerPool.PlanSized | lib/plist.c:130-141 | there are as many workers as processors, or as elements if these are fewer; slices are between 1 and 32 long, fit into the array, and could not be longer |
| WorkerPool.StepKeeps | lib/plist.c:70-96 | every step of every worker keeps the shares disjoint, visited indices included |
| WorkerPool.NoneTwice | lib/plist.c:60-98 | under every interleaving no index is visited twice and none is out of range |
| WorkerPool.CursorBound | lib/plist.c:90-95 | the cursor and every end of a slice are at most 2 * arraycount + slicecount - 1 |
| WorkerPool.NoWrap | lib/plist.c:90-95 | taking a slice does not wrap around the unsigned range |
| WorkerPool.StepHeard | lib/plist.c:70-96 | in every interleaving nobody goes past an element at which the callback halts, and exactly the workers that met one stop |
| WorkerPool.AllVisited | lib/plist.c:143-178 | when all workers were created and ran out of work, the visited indices are those of the sequential walk |
| WorkerPool.MissingSlices | lib/plist.c:155-161 | with only the first k workers exactly the slices of the others are missing |
| WorkerPool.RunsEnd | lib/plist.c:70-96 | no run, fair or not, is longer than a measure of its first state |
| WorkerPool.Stuck | lib/plist.c:143-178 | a pool in which nothing can happen has only workers that finished, stopped or were never created |
| WorkerPool.WorkerStep | lib/plist.c:70-96 | what a thread does next is a step of the protocol that does what the callback says |
| WorkerPool.RunPool | lib/plist.c:143-178 | creation and any interleaving of the threads is a run of the protocol that ends; all workers are created, or those before the first whose creation fails |
| WorkerPool.Foreach | lib/plist.c:199-229 | the single-threaded routine visits in order exactly the elements up to and including the first at which the callback halts, and returns its code |
| WorkerPool.ForeachMulti | lib/plist.c:101-197 | each element is visited at most once; with workers an element is visited if and only if its slice was a created worker's or was taken from the cursor and the callback halts nowhere before it in the slice; the cursor stops short only if every worker halted, so without a halt only the slices of missing workers are left out; the result is 0 exactly if no visited element gave a code, and otherwise such a code |
| FullDepTree.Tree.OrderedDepends | lib/package_fulldeptree.c:152-235 | walking a package keeps the table and the result sound, adds the package below the root, and fails only for a missing dependency in a repository |
| FullDepTree.Tree.AddDepsRecursive | lib/package_fulldeptree.c:106-133 | revisiting a package that is not in the result puts it in front, after what its reverse links lead to; only packages registered no later are added, and nothing moves |
| FullDepTree.WalkResult | lib/package_fulldeptree.c:152-235 | a finished walk has collected, without duplicates, exactly the packages reached in one or more steps, and on an acyclic graph each before its dependencies |
| FullDepTree.GetPkgFulldeptree | lib/package_fulldeptree.c:237-262 | the same of the whole routine on any graph, which fails exactly when there is no such package or the tree of a repository package names a missing one |
| Orphans.GenerateFullRevdepsTree | lib/pkgdb.c:411-487 | the index holds under each name exactly the packages that need it, once each, in iteration order |
| Orphans.Pass | lib/package_orphans.c:85-133 | a pass adds only automatic packages that nothing outside the list needs, and one that adds nothing has missed none |
| Orphans.FindOrphans | lib/package_orphans.c:75-138 | automatic mode ends with a list that absorbs every automatic package all of whose dependents it holds, each after its dependents |
| Orphans.OrphansLeast | lib/package_orphans.c:75-138 | that list is contained in every set that absorbs in this way |
| Orphans.OrphansUnique | lib/package_orphans.c:78-81 | the orphans do not depend on the order of iteration |
| Orphans.RemainingIntact | lib/package_orphans.c:109-131 | no package that stays needs an orphan |
| Orphans.DependenciesStay | lib/pkgdb.c:446-468 | a package that stays keeps for every name it depends on the package that the configuration gives for the name, or the one of that name |
| Orphans.Sweep | lib/package_orphans.c:154-200 | one package of the worklist adds only automatic packages all of whose dependents are listed already |
| Orphans.FindRecursive | lib/package_orphans.c:143-204 | the worklist ends; everything it appends is automatic, below a listed package, new, and listed after all its dependents; everything below a package that was freed by what was listed when its turn came is listed |
| Orphans.RecursiveComplete | lib/package_orphans.c:154-204 | no needed automatic package whose dependents are all listed is missing, if the tree of each dependent shows it |
| Orphans.RecursiveExactly | lib/package_orphans.c:143-204 | when the dependents of such a package are alike, and it was not given, it is listed if and only if some dependency tree has an edge to it |
| Orphans.SoleDependent | lib/package_orphans.c:186-196 | a single dependent is alike, if the configuration leaves the name alone |
| Orphans.ShownExactly | lib/package_fulldeptree.c:185-213 | a package has an edge to another in the tree exactly when it depends on its name and does not provide it |
| Orphans.RecursiveLeast | lib/package_orphans.c:143-204 | the result holds the given packages and every needed automatic package whose dependents it holds, and is contained in every set that does |
| Orphans.AppendedUnneeded | lib/package_orphans.c:189-200 | whatever needs an appended package was listed before it |
| Orphans.ProvidedForgotten | lib/package_fulldeptree.c:209-213 | in any database, a package that all its dependents provide themselves is never appended |
| Orphans.TwoForgotten | lib/package_fulldeptree.c:209-213 | two packages suffice for one to be left behind that nothing needs |
| TransactionFiles.FileTable.CollectFile | lib/transaction_files.c:433-570 | one manifest line updates the table as the specification says; it is refused exactly when it clashes |
| TransactionFiles.FileTable.CollectFiles | lib/transaction_files.c:573-663 | a manifest is collected without error exactly when none of its lines clashes; a line without a hash is recorded with the one found last |
| TransactionFiles.HashCarried | lib/transaction_files.c:573-663 | a file is recorded with a hash if and only if it or an earlier file of its manifest has one |
| TransactionFiles.CollectAll | lib/transaction_files.c:819-876 | a transaction is collected without error exactly when no line clashes, and then the table is that of all its lines |
| TransactionFiles.ProviderOnce | lib/transaction_files.c:496-524 | without the ignore flag, success means that no path is brought twice but for directories, and conversely |
| TransactionFiles.PreservedAlike | lib/transaction_files.c:450-489 | packages give up a path that is no directory without a clash if and only if all of them preserve it or none does |
| TransactionFiles.FirstProvider | lib/transaction_files.c:500-512 | the kept incoming record is the first |
| TransactionFiles.LastRemover | lib/transaction_files.c:457-472 | a directory that nobody preserves is recorded for the last package that gives it up |
| TransactionPlan.SortItems | lib/transaction_files.c:764-770 | sorting by length, longest first, keeps the paths |
| TransactionPlan.CanDeleteDirectory | lib/transaction_files.c:150-201 | true exactly when everything tracked beneath goes away and the number of entries does not exceed it |
| TransactionPlan.CollectObsoletes | lib/transaction_files.c:203-430 | the plan lists under each package exactly the paths it is to remove, in order; it fails exactly when a directory that has to make room cannot be cleared; the code is that of the last hash check |
| TransactionPlan.LastExamined | lib/transaction_files.c:318-357 | the code is that of the hash check of the last path that is given up or changes its type, unprotected and hashed, or 0 if that succeeds or there is none |
| TransactionCommit.FateExactly | lib/transaction_files.c:238-382 | a path is dropped if and only if it is given up, is not protected and not missing on the disk, and is no changed symlink that an unforced removal leaves; it counts as gone if and only if it is given up, unprotected, hashed and missing |
| TransactionCommit.OwnerFirst | lib/transaction_files.c:384-402 | of the two packages the earlier one owns the removal |
| TransactionCommit.RemovedExactly | lib/transaction_commit.c:307-378 | a package removes in its turn exactly the dropped paths that it owns, if it is removed and not quietly or is unpacked and preserves nothing, and unpacks exactly the files it brings |
| TransactionCommit.Commit | lib/transaction_commit.c:307-378 | carrying out a transaction logs exactly the turns of its packages, removals before unpacking |
| TransactionCommit.UnpackArchive | lib/package_unpack.c:208-242 | the files of an archive are unpacked in order, directories ignored |
| TransactionCommit.UnpackedInOrder | lib/package_unpack.c:208-242 | each line of an archive is unpacked at its place, unless it is a directory |
| TransactionCommit.LostExactly | lib/transaction_commit.c:307-378 | a path is removed after it was unpacked if and only if its provider is followed by a package that has it on its list |
| TransactionCommit.PlannedLoss | lib/transaction_commit.c:307-378 | in terms of the table: if and only if the path is to be dropped and a package that brings it is followed by one of the name of the package that owns the removal |
| TransactionCommit.NothingLost | lib/transaction_files.c:392-407 | if no two packages of a transaction share a name, no scheduled removal of a path comes after it was unpacked |
| TransactionCommit.NamedTwiceLoses | lib/package_unpack.c:121-142 | with a name that occurs twice a new file can be removed again |
| TransactionCommit.NeverRemoved | lib/transaction_files.c:238-380 | no transaction removes a path that is protected, preserved, brought again with the same type or as a configuration file, or modified unless its removal is forced |
| TransactionCommit.BottomUp | lib/transaction_files.c:450-472 | a scheduled directory that nobody brings again is removed after every scheduled path beneath it |
| TransactionRun.RunTransaction | lib/transaction_files.c:783-903 | a transaction as a whole: refused exactly on a clash; ended exactly when a directory has to make room and cannot be read, holds something that stays, or has more entries than are tracked, or with the code of a failed hash check; otherwise the log is the planned turns in order and says exactly which path is removed and unpacked in whose turn; with unique names nothing is lost, and with listed parents directories are removed from the bottom up |
| TransactionRun.GivenUpGoes | lib/transaction_files.c:203-430 | in terms of the manifests: a path that packages give up and nobody brings is removed in the turn of one of them, when nobody preserves it, nothing protects it and the disk has what was installed |
| TransactionRun.ModifiedStays | lib/transaction_files.c:330-352 | a hashed file whose contents were modified is never removed without force |
| TransactionRun.RemovedWasGivenUp | lib/transaction_files.c:203-430 | whatever is removed is on the manifest of an installed package, and not preserved by the administrator or a base symlink |
| PathBuffer.CleanInPlace | lib/util_path.c:66-128 | the buffer is overwritten with the text of the normalised component stack; a path that is too long is refused and left alone |
| PathBuffer.Backtrack | lib/util_path.c:94-100 | going back over an element leaves the text of the shorter stack |
| PathClean.Idempotent | lib/util_path.c:66-128 | cleaning twice is cleaning once |
| PathClean.NotLonger | lib/util_path.c:66-128 | the result is no longer than a non-empty input |
| PathClean.DotsInFront | lib/util_path.c:92-110 | ".." remains only in front of a relative path, and "." only as the whole |
| PathClean.SamePlace | lib/util_path.c:66-128 | from every absolute directory the cleaned path leads to the same place |
| PathRel.PathRel | lib/util_path.c:130-171 | writes as much of the relative path as fits, terminated, and returns its full length |
| PathRel.RelativeInverse | lib/util_path.c:130-171 | from the directory of the cleaned origin the relative path leads to the cleaned destination |
| PathRel.FewestSteps | lib/util_path.c:146-155 | the relative path has one ".." for every component of the origin's directory beyond those it shares with the destination's, and then the rest of the destination |
| PathRel.RawDirname | lib/util_path.c:141-145 | with the directory of the origin as given this holds for all other destinations if and only if cleaning that directory yields the directory of the cleaned origin |
| PathRel.RawDirnameFails | lib/util_path.c:141-145 | for "/x/.." it does not |
| HashTable.Table.Find | include/uthash.h:165-173 | finds exactly the element of the key |
| HashTable.Table.Add | include/uthash.h:396-422 | appends an element of an absent key; nothing else changes for any lookup; the buckets double exactly when the one that takes it comes to ten times its multiplier plus one, unless that is inhibited |
| HashTable.Table.Delete | include/uthash.h:450-477 | removes exactly the element of the key from table and list |
| HashTable.Table.ExpandBuckets | include/uthash.h:833-883 | doubling keeps the contents and counts, and computes the ideal length, the sum of the excess of all buckets, the multipliers and the inhibition of further doubling |
| HashTable.IdealIsCeiling | include/uthash.h:818-848 | the ideal length, in its form by quotient and remainder, is the least at which the buckets hold everything |
| HashTable.MultBounds | include/uthash.h:856-861 | the multiplier is zero exactly for an ideal bucket and otherwise its length in ideal lengths up to one |
| HashTable.ExcessBounds | include/uthash.h:851-861 | no excess is counted exactly when every bucket is ideal, and at least what ideal buckets cannot hold |
| HashTable.Run | include/uthash.h:153-477 | over any sequence of lookups, additions and deletions the table answers as a finite map, whatever the hash function |
| StageIndex.RepodataCommit | bin/flappy-rindex/index-add.c:42-197 | the stage is published exactly when no library that the index provided and still requires is lost; otherwise index and stage are unchanged |
| StageIndex.UsedShlibs | bin/flappy-rindex/index-add.c:74-103 | the used libraries are the old ones that some package of the updated index requires |
| StageIndex.ClosureExactly | bin/flappy-rindex/index-add.c:42-197 | when nothing is lost, the published index is closed if and only if those libraries are provided that a new package requires or that the old index did not provide |
| StageIndex.ClosureKept | bin/flappy-rindex/index-add.c:42-197 | publication keeps the library closure of the packages that are not staged, and the whole index is closed if and only if the staged packages find the libraries that are new to the index or asked for by a new package |
| StageIndex.NewPackageUnchecked | bin/flappy-rindex/index-add.c:77-103 | so a new package with a library nobody provides is published and leaves the index open |
| StageIndex.IndexAddPkg | bin/flappy-rindex/index-add.c:200-295 | a package enters the stage exactly if forced or unknown, if its version is higher and not reverted by the entry, or if it is lower and reverts it; other names keep their entries |
| StageIndex.NeverBoth | bin/flappy-rindex/index-add.c:246-262 | of two different versions exactly one replaces the other, whatever they revert |
| StageIndex.HighestWins | bin/flappy-rindex/index-add.c:233-268 | without reverts the merged index holds a highest version for every name, in whatever order packages are added |
| StageIndex.OwnName | bin/flappy-rindex/index-add.c:237-282 | what ends up under a name depends only on the packages of that name and their order |
| StageIndex.OrderDecides | bin/flappy-rindex/index-add.c:237-282 | whatever order the packages of a name are added in, one of them remains if and only if none replaces it and, unless it is the entry of the index already, it replaces each that can be current before it comes, by a chain of replacements among the others |
| StageIndex.EntryStays | bin/flappy-rindex/index-add.c:237-282 | the entry of the index stays in every order if and only if no package replaces it, another of the same version included |
| StageIndex.NewestStays | bin/flappy-rindex/index-add.c:237-282 | a package that comes remains in every order if and only if it is newer than every other candidate, where the index has no entry or no other candidate has its version |
| StageIndex.TwoAgree | bin/flappy-rindex/index-add.c:246-262 | two different versions never depend on the order |
| StageIndex.RevertsCycle | bin/flappy-rindex/index-add.c:246-262 | three can: when the lowest reverts the highest, no version is left by every order |
| Alternatives.Registry.AlternativesSet | lib/package_alternatives.c:243-318 | the package stands at the head of one or all of its groups, the others behind it in their order; nothing else changes |
| Alternatives.Registry.AlternativesUnregister | lib/package_alternatives.c:336-407 | takes the package out of every group unless it is updated; no group is left empty |
| Alternatives.Registry.PruneAltgroup | lib/package_alternatives.c:416-477 | takes the package out of one group; a current one is succeeded by the last provider of the list, or by the next if the new package is bare, the others keep their order; the successor is installed |
| Alternatives.Registry.RemoveObsoletes | lib/package_alternatives.c:480-533 | prunes exactly the groups that the new version no longer provides |
| Alternatives.Registry.AlternativesRegister | lib/package_alternatives.c:535-619 | every group becomes the specified list of the new version |
| Alternatives.Registry.Install | lib/package_alternatives.c:535-619 | after an installation or update each group lists, without duplicates, exactly the installed packages that provide it, and none is empty; a new provider comes last, a known one keeps its place, one that gives the group up is succeeded |
| Alternatives.Registry.Remove | lib/package_alternatives.c:336-407 | the same after a removal; the order of the others is kept |
| Alternatives.RegisteredHolds | lib/package_alternatives.c:480-619 | the list specified for a group has no duplicates and exactly its providers |
| PkgName.ScanVersion | lib/util.c:131-142 | the scan accepts exactly a text with a digit before the first underscore and a revision after it |
| PkgName.VersionSpelled | lib/util.c:131-142 | a version has an underscore, a decimal digit before the first one, and only decimal digits and underscores after it, at least one |
| PkgName.PkgVersion | lib/util.c:119-143 | yields the version after the last dash, if it is one |
| PkgName.VersionExactly | lib/util.c:119-143 | a version is found exactly when it follows a dash, has none in it and reads as a version |
| PkgName.PkgName | lib/util.c:248-282 | succeeds exactly when there is a version and the name fits; then name, dash and version are the whole |
| PkgName.BinpkgPkgver | lib/util.c:145-185 | the version and name part of a file name |
| PkgName.PathRoundTrip | lib/util.c:320-339 | the file name of a binary package ends in .flappy, and both parts are recovered from it |
| PkgName.PathOnly | lib/util.c:145-220 | any file name that yields both parts is a directory, the parts with a dot between them, and seven more characters |

## Left out

- Fork, wait, popen, pthread and mutex calls: they are events with any outcome; a wait is assumed to return a build that
  is tracked, fork and wait status are inputs, and moving the shared cursor is one step.
- Log files, messages, progress output and the counters that only feed them (NBuilt, NChecked).
- Cyclic build dependencies: all statements about bulk builds take a ranking of the packages as a witness that there is
  no cycle; the program itself does not check.
- Errors after an abort of the bulk builder: only the run up to the abort is described.
- WorkerPool.PlanSized: holds for arrays with 2 * arraycount + 31 within the unsigned range.
- WorkerPool.ForeachMulti: does not model arrays so long that 2 * arraycount + 31 exceeds the unsigned range, nor
  callbacks whose answer depends on what was visited before; entries skipped as internal count as visited.
- Pointers: linked lists and dictionaries are sequences and maps; the previous and next pointers of the hash table and
  the reuse of one buffer as a cached string (lib/pkgdb.c:459-466) are not modelled.
- Memory exhaustion everywhere; overflow of the counters and of the number of buckets of the hash table.
- FullDepTree: dependency names resolve to packages of that name, every run starts from an empty table, and virtual
  packages under another name are not followed.
- FullDepTree.Tree.OrderedDepends: resolves a dependency to the package of that name only.
- FullDepTree.GetPkgFulldeptree: does the same.
- Orphans: a package's name, its pkgver and its dictionary are one; pattern matching in lists is therefore equality.
- Orphans.RecursiveComplete: needs the tree of each dependent to show the package; where only some do, the order of the
  list decides, and only this direction is stated (`Orphans.RecursiveExactly` has both when they are alike).
- Orphans.RecursiveExactly: says nothing of packages whose dependents differ in whether their trees show it.
- Orphans.RecursiveLeast: needs the tree and the reverse index to agree on every dependency, which names mapped by the
  configuration and packages that provide their own dependencies can prevent.
- Archives and signatures: the manifest in an archive is taken as its contents; reading it does not fail.
- Whether a directory is really empty: the program compares direct entries with all tracked descendants, and the model
  follows it (lib/transaction_files.c:184-200).
- TransactionCommit: failing removals, files kept or skipped while unpacking, scripts, and the database written between.
- TransactionCommit.UnpackArchive: every line of the archive that is not a directory is logged as unpacked.
- TransactionCommit.BottomUp: requires unique names and manifests that list the directories above their paths.
- TransactionCommit.NothingLost: requires unique names, which the code that assembles transactions is to provide; that
  code is not part of this model.  `TransactionCommit.PlannedLoss` is exact without that.
- PathRel.PathRel: origin and destination are rooted and differ after cleaning; otherwise the program reads beyond its
  buffers.
- Joining, appending and prepending paths, and the older path routines of lib/package_alternatives.c.
- Package revisions and the names and versions in patterns (lib/util.c:222-246, 284-318): more scans of the same kind.
- StageIndex.TwoAgree: for names that the index does not hold; an entry is a third candidate.
- StageIndex.NewestStays: where the index has an entry of another version, no other candidate may have the version of
  the package in question; `StageIndex.OrderDecides` has the general condition.
- Hash functions, sorting, bloom filters and bit operations of the hash table: shifts and masks by a power of two are
  quotients and remainders.
- The order of versions: a rank is given; flappy_cmpver is not part of this model.
- StageIndex: locks, signatures, file sizes and hashes of packages, and writing the repository.
- Alternatives: the symbolic links themselves; link operations succeed.
- Command lines, configuration files, downloads, conflicts, replacements and checks of reverse dependencies.
