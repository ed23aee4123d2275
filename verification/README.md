# go-test, modelled and verified

This project models the parts of go-test that hold real protocols and algorithms, and proves
what they are for. It is checked with `dafny verify dfyconfig.toml`. One module stands for one
component; a component that changes state step by step is a state machine over its system calls
(when processes meet) or a class with the same fields and loops (when they do not), proved
against a specification whose own properties are then proved for all inputs and all runs.

**Concurrency.**
`BinaryCache` is the cache of linked test binaries: any number of runs lock, link, copy and unlock
while sweeps in other processes delete, with each system call one step and kills at any point.
`ScratchLock` is the second lock-by-file protocol, of mutation drills and the prunes that clean up
after them. `WorkQueues` is the work-stealing monitor and `JudgeAll` the workers, phases and stop
around it, with an explicit set of waiting workers. `CacheProgress`, `ScratchProgress` and
`JudgeStop` say what these protocols get done. The main results are mutual exclusion of validated
locks, stability of what a lock holder owns, evictions, prunes, runs and drills that go through to
their end when nobody else touches their key, no lost wakeup, a bound on every run, one verdict for
each mutant, and a stop that lets each worker finish one mutant at most.

**The fuzz fan compiler.**
`GoTypes` says which types are accepted, twice, and proves the two the same. `FuzzCodec` defines on
type shapes what fan-out, fan-in and the byte codec compute, and exactly when a value survives them.
`FuzzProgram` is the emitted code as a small language with a meaning. `TypeNames` is how the generator
tells types apart: by the string `types.TypeString` shows with package names for package paths, and by
the identifier `assignName` makes of it. `FuzzWalk` has the generator's walks as functions over those
strings with the theorems about them, `FuzzEmitter` the generator itself, whose methods with their memo
maps and stacks are proved to do what the walks say, and `FuzzTarget` a whole target. `ShownTypes`
proves that types are shown apart wherever their names are. Together: where the types a target leads to
are shown apart, the generator takes exactly the accepted ones, whatever it emits computes the codec,
and fan-in undoes fan-out up to the stated cuts.

**Analyses and bookkeeping.**
`LruCache` (heap structure against a recency sequence), `TopoSort` (Kahn's sort and its error),
`NilGuard` (what the nil-guard analysis accepts, and its soundness), `Census` with `CensusCut` (verdict
index, exit code, booked failures and units cut short) and `FileWrite` (all-or-none rewriting under failures at any byte).

**Codecs, readers, arithmetic.**
`FrameCodec`, `BehaviorNames` (subtest names split and refolded), `GoTestArgs` (two readers of one
argument list), `ShardPlan` (shard loads and the split check) and `EditDistance`. `StringOrder`, the
order of strings, and `Options` are shared.

Where the code does not do what its documentation or a natural reading promises, the model follows
the code and states the result:

- `evictLock` (internal/gotestrunner/bincache_evict.go:166-176) unlinks its lock path after a
  try-lock with no check that the path still names the file it locked. Two of them can let two runs
  hold one binary (`BinaryCache.StaleOrphanUnlinkBreaksExclusion` gives the interleaving); the safety
  theorems hold of every run in which each `evictLock` unlinks the file it holds, so of every run
  without any.
- The fuzz generator keys its memo maps and stacks by shown strings, which two packages of the same
  name share, though internal/gotestgen/imports.go:11-13 counts on such packages. With `a/v1` and `b/v1`
  both named v1, a channel in `b/v1.T` is accepted once `a/v1.T` has been
  (`FuzzWalk.UnacceptedIsTaken`), and `a/v1.T` with a field of type `b/v1.T` is refused as recursive
  (`FuzzWalk.AcceptedIsRefused`). `FuzzWalk.LiteralFormIff` says exactly when `literalSupported` takes
  a type, `FuzzWalk.FanTakes` that such a type is never refused a fan, and `FuzzWalk.FanIsRight` that
  with types shown apart the fan walk takes just the accepted ones. Beyond that the outcome depends on
  what was emitted before (`FuzzWalk.OrderDecides`).
- A slice of weightless elements such as `[]struct{}` loses its elements in the byte codec, because
  the reader clamps a count to the bytes left (`FuzzCodec.WeightlessSliceIsLost`). What survives is
  said exactly by `FuzzCodec.KeptUnchangedIff` and `FuzzCodec.FanUnchangedIff`.
- The subtest name round trip fails for a name such as `a/b/`, whose last slash the split drops
  (`BehaviorNames.FinalSlashIsLost`); `BehaviorNames.NamesComeBackIff` says when it holds.
- Siblings written `a`, `a` and `a#01` come out alike: uniquifying does not look at suffixes already
  given (`BehaviorNames.SuffixedTwice`); `BehaviorNames.UniquesDifferIff` says when names differ.
- Booking a missing fuzz target fails its suite, and a test that only the suite's whole skip covered
  is then missing (`Census.SkippedSuiteIsUncovered`); `Census.NothingMissingAfter` says when folding
  the booked events back leaves nothing missing.
- The error of a fixture cycle names every fixture left over, not only those on a cycle as the
  comment in internal/gotestgen/binding.go:925-990 says: with a depending on itself and b on a it names
  b (`TopoSort.OffCycleIsNamed`). `TopoSort.OnlyCyclesAreNamedIff` says when all it names are on cycles.
- The two argument readers disagree on some tokens with two dashes (`GoTestArgs.ReadersDisagree`);
  `GoTestArgs.SameStopsIff` says on which lists they look at the same tokens.

## Model

| member | source | states |
|---|---|---|
| BinaryCache.ValidatedLocksExclude | internal/gotestrunner/bincache_lock_unix.go:13-56 | in every interleaving of runs and sweeps, whoever owns a binary's entry while a run holds its validated lock is that run |
| BinaryCache.OwnedEntryIsStable | internal/gotestrunner/compile.go:50-89 | a step of another process leaves a lock holder's phase, lock name, binary and key directory as they are |
| BinaryCache.LockedEntryIsStable | internal/gotestrunner/compile.go:50-89 | so it is for whoever holds the lock file the path names, to its unlock |
| BinaryCache.HeldBinaryNeverDisappears | internal/gotestrunner/compile.go:50-89 | from a run's validated lock until its unlock, through link, copy and release, a binary at the path stays there, unchanged until the run links its own; only the run's own failed link can take it away |
| BinaryCache.LinkedBinaryIsCopied | internal/gotestrunner/bincache.go:97-115 | what a run copies out is a prefix of what it linked, and all of it once the copy ends |
| BinaryCache.EvictionIsValidated | internal/gotestrunner/bincache_evict.go:146-163 | a sweep whose time comparison matched holds the inode its lock path names, though it never asked |
| BinaryCache.ActorStaysOk | internal/gotestrunner/bincache_lock_unix.go:35-56 | a step brings the acting process into a phase whose claim on the tree holds, stale lock inodes included |
| BinaryCache.ChangeKeepsOthers | internal/gotestrunner/bincache.go:80-87 | whatever one process may change under its lock breaks no other process's claim |
| BinaryCache.StepKeepsInv | internal/gotestrunner/bincache_evict.go:146-163 | every step keeps the invariant |
| BinaryCache.RunKeepsInv | internal/gotestrunner/bincache_evict.go:47-88 | every reachable state, from any cache on disk, satisfies the invariant |
| BinaryCache.StaleOrphanUnlinkBreaksExclusion | internal/gotestrunner/bincache_evict.go:166-176 | a run of two evictLocks and two runs after which both runs hold a validated lock on one binary |
| CacheProgress.UndisturbedSweepEvicts | internal/gotestrunner/bincache_evict.go:146-163 | through any steps of others that leave its key alone, each next step of a sweep that scanned a binary is enabled, and once it has unlinked, binary and lock file are gone |
| CacheProgress.UndisturbedOrphanIsEvicted | internal/gotestrunner/bincache_evict.go:166-176 | likewise an evictLock, which leaves no lock file |
| CacheProgress.UndisturbedRunIsServed | internal/gotestrunner/compile.go:50-89 | likewise a run, which copies all it linked, and what it linked stays at the path |
| CacheProgress.SweepTakesWhatItScanned | internal/gotestrunner/bincache_evict.go:146-163 | the only binary a sweep removes is the very one it scanned, and the only lock file that of a key without a binary |
| CacheProgress.RelinkedSurvives | internal/gotestrunner/bincache_evict.go:146-163 | a binary linked after a sweep's scan is never removed by that sweep, nor is its lock file |
| ScratchLock.ValidatedLocksExclude | internal/drill/scratch.go:99-131 | no two processes own one scratch key |
| ScratchLock.LockAtReturnsFileOrError | internal/drill/scratch.go:99-124 | lockAt never returns without both a file and an error |
| ScratchLock.ValidatedPathKeepsNaming | internal/drill/scratch.go:99-131 | a validated lock's path names its inode, and goes on naming it through every other process's step |
| ScratchLock.WorkedScratchIsStable | internal/drill/scratch.go:161-200 | no other process's step, prunes included, moves, deletes or changes the scratch of a drill at work |
| ScratchLock.ScratchHoldsOnlyItsDrillsFiles | internal/drill/scratch.go:62-95 | from its making on, a scratch holds just the files its own drill wrote and did not delete |
| ScratchLock.OnlyUnusedScratchesArePruned | internal/drill/scratch.go:161-200 | a prune past its age check meets a key unused for a week and nobody at work in it |
| ScratchLock.ChangeKeepsOthers | internal/drill/scratch.go:161-200 | whatever one process may change under its lock breaks no other process's claim |
| ScratchLock.StepKeepsInv | internal/drill/scratch.go:62-124 | every step keeps the invariant |
| ScratchLock.RunKeepsInv | internal/drill/scratch.go:62-200 | every reachable state satisfies the invariant |
| ScratchProgress.PruneStatsAfterAWeek | internal/drill/scratch.go:161-200 | a prune goes for a lock file not used for seven days, and for no other |
| ScratchProgress.UndisturbedPruneRemoves | internal/drill/scratch.go:161-200 | through any steps of others that leave its key alone, each next step of such a prune is enabled, and in the end scratch and lock file are gone |
| ScratchProgress.UndisturbedDrillWorks | internal/drill/scratch.go:62-124 | likewise a drill, which comes to work in a new and empty scratch under its validated lock |
| WorkQueues.Queues.constructor | internal/drill/slots.go:31-49 | each slot's queue is, in order, the names whose hash prefers it |
| WorkQueues.PreferringIs | internal/drill/slots.go:31-49 | a slot's first queue is the names that prefer it, all of them and in their order |
| WorkQueues.Queues.Remaining | internal/drill/slots.go:97-103 | the sum of a queue's weights |
| WorkQueues.WeighIsSum | internal/drill/slots.go:97-103 | a queue weighs what its parts weigh, and a mutant its own weight |
| WorkQueues.Queues.NextPass | internal/drill/slots.go:53-86 | one critical section of Next does to board and caller what Attempt says |
| WorkQueues.Queues.Done | internal/drill/slots.go:90-95 | marks the slot done and changes nothing else |
| WorkQueues.HeaviestIsMost | internal/drill/slots.go:60-78 | the slot robbed has the greatest remaining weight among those that asked and have mutants, and is the first such |
| WorkQueues.AttemptTakesOne | internal/drill/slots.go:53-86 | a mutant handed out leaves the queues once; a slot is told to end only with all queues empty |
| WorkQueues.AttemptWithoutMutant | internal/drill/slots.go:53-86 | no mutant: own queue empty, nobody to rob, queues unchanged, and the end exactly when all are empty |
| WorkQueues.From | internal/drill/slots.go:53-86 | the mutant is the front of the slot's own queue or the back of one that has asked |
| WorkQueues.SpreadKeepsAll | internal/drill/slots.go:31-49 | the first queues hold the phase's names, each as often as it is named |
| JudgeAll.NoLostWakeup | internal/drill/slots.go:53-95 | whoever waits has an empty queue and nobody to rob, and somebody who does not wait has mutants and has not asked |
| JudgeAll.AlwaysAStep | internal/drill/supervision_linux.go:151-216 | until JudgeAll has returned, a step other than an outside stop is enabled |
| JudgeAll.StepsLowerMeasure | internal/drill/supervision_linux.go:173-215 | every step but an outside stop lowers a natural number |
| JudgeAll.RunsAreBounded | internal/drill/supervision_linux.go:151-216 | a bound, from the phases alone, on the steps of any run |
| JudgeAll.AtMostOneVerdictEach | internal/drill/supervision_linux.go:173-215 | at any time, stopped or not, a phase's verdicts are among its names, none too often |
| JudgeAll.ExactlyOneVerdictEach | internal/drill/supervision_linux.go:151-216 | without stop or error JudgeAll returns with each phase's verdicts exactly its names |
| JudgeAll.PhasesDoNotOverlap | internal/drill/supervision_linux.go:151-216 | a mutant being judged belongs to the phase under way, and a phase begins with every worker finished |
| JudgeAll.QueuesAreConserved | internal/drill/slots.go:53-86 | a slot's original queue is what its owner took from the front, what is left, and thieves' takings from the back reversed; only slots that asked are robbed |
| JudgeAll.StepKeepsAccounts | internal/drill/supervision_linux.go:173-215 | each step keeps every name queued, in hand, judged or lost as often as the phase has it |
| JudgeAll.StepKeepsInv | internal/drill/slots.go:53-95 | every step keeps the invariant |
| JudgeAll.RunKeepsInv | internal/drill/supervision_linux.go:151-216 | every reachable state satisfies the invariant |
| JudgeStop.StopEndsHandouts | internal/drill/supervision_linux.go:173-215 | after a stop a worker is handed one mutant at most, and only if it was in Next at the stop, in that phase |
| JudgeStop.ReadyJudgesNoMore | internal/drill/supervision_linux.go:173-215 | a worker at the head of its loop at the stop never judges again |
| JudgeStop.HandoutsAreFew | internal/drill/supervision_linux.go:173-215 | after a stop no more mutants are handed out than there were workers in Next |
| JudgeStop.StoppingIff | internal/drill/supervision_linux.go:151-216 | the drill stops exactly by an outside stop, a cleanup that could not kill or a worker's error joined, fails exactly by the last, and begins no phase after failing |
| JudgeStop.ErrsIff | internal/drill/supervision_linux.go:173-215 | a worker ends with an error exactly when a judgement of its own failed in the phase |
| JudgeStop.LogIsVerdicts | internal/drill/supervision_linux.go:151-171 | a phase has recorded exactly the mutants judged with a verdict while it was under way, in order |
| GoTypes.AcceptedIffPathsAreGood | internal/gotestgen/fuzzfan.go:315-335 | a type is accepted exactly when no path from it recurs or meets something unsupported |
| GoTypes.AcceptedPathsAreGood | internal/gotestgen/fuzzhelpers.go:227-253 | every leaf reachable from an accepted type is supported and no path recurs |
| GoTypes.FindBadPath | internal/gotestgen/fuzzfan.go:315-335 | a type not accepted has a recurring path or an unsupported leaf, found by the stack walk |
| GoTypes.CyclesDoNotUnfold | internal/gotestgen/fuzzhelpers.go:227-253 | a type on a cycle unfolds to no finite shape, at any depth |
| GoTypes.DeeperUnfoldsAlike | internal/gotestgen/fuzzfan.go:315-489 | an accepted type has one shape, however deep one unfolds |
| GoTypes.PartDescends | internal/gotestgen/fuzzhelpers.go:227-253 | each part of a type not on the stack is smaller in the walk's well-founded order, so the walk ends on every finite graph |
| FuzzCodec.ReadsBack | internal/gotestgen/fuzzhelpers.go:255-323 | reading what was written gives the kept value and leaves just the bytes that followed |
| FuzzCodec.KeptUnchangedIff | pkg/gotestfuzz/bytes.go:106-197 | the byte codec returns a value unchanged exactly when it survives: counts to 255, blobs to 65535, no empty non-nil slices, no clamped counts |
| FuzzCodec.ReadIsTotal | pkg/gotestfuzz/bytes.go:32-131 | any bytes at all decode to a value of the type |
| FuzzCodec.WeightlessSliceIsLost | pkg/gotestfuzz/bytes.go:125-131 | every slice of empty structs comes back empty |
| FuzzCodec.OutHasLeaves | internal/gotestgen/fuzzfan.go:315-489 | fan-out yields the declared number and kinds of leaves, nil pointers included |
| FuzzCodec.FansBack | internal/gotestgen/fuzzfan.go:315-489 | fan-in of fan-out is the kept value, for elementwise arrays, hybrid codecs, structs and pointers alike |
| FuzzCodec.FanUnchangedIff | internal/gotestgen/fuzzfan.go:495-537 | the fan returns a value unchanged exactly when it survives |
| FuzzCodec.InIsTotal | pkg/gotestfuzz/leaf.go:20-68 | any leaves of the declared kinds fan in to a value of the type |
| FuzzCodec.NilLeavesAreBlank | internal/gotestgen/fuzzfan.go:315-489 | a nil pointer fans out to false and the declared leaves, none of which holds anything |
| FuzzCodec.OnTheWire | pkg/gotestfuzz/bytes.go:106-197 | some values byte by byte |
| FuzzProgram.EmittedReads | internal/gotestgen/fuzzhelpers.go:137-168 | running an emitted reader computes the codec's Read |
| FuzzProgram.EmittedWrites | internal/gotestgen/fuzzhelpers.go:172-207 | running an emitted writer computes the codec's Write |
| FuzzProgram.EmittedFansOut | internal/gotestgen/fuzzfan.go:532-537 | running an emitted fan-out computes the codec's Out |
| FuzzProgram.EmittedFansIn | internal/gotestgen/fuzzfan.go:520-528 | running an emitted fan-in on its slice of the leaves computes the codec's In |
| FuzzProgram.EmittedFansBack | internal/gotestgen/fuzzfan.go:315-537 | running the emitted fan-in on the emitted fan-out's leaves gives the kept value |
| TypeNames.DecimalIsInjective | internal/gotestgen/fuzzhelpers.go:98-110 | two numbers in decimals are one number |
| TypeNames.CandidatesDiffer | internal/gotestgen/fuzzhelpers.go:98-110 | the identifiers tried for a string in turn all differ, so one is free |
| TypeNames.FreshNameKeeps | internal/gotestgen/fuzzhelpers.go:98-110 | a new identifier for a new string finds nothing emitted before |
| TypeNames.KeptForOne | internal/gotestgen/fuzzhelpers.go:98-110 | what is kept under a string's identifier is found for that string and no other |
| ShownTypes.ReadsAsOne | internal/gotestgen/fuzzhelpers.go:82-88 | a shown type can be read back from whatever starts with it, when its leaves are shown apart |
| ShownTypes.NamesTellApart | internal/gotestgen/fuzzhelpers.go:82-88 | types made of leaves that are shown apart are shown apart |
| FuzzWalk.VisitIsRight | internal/gotestgen/fuzzhelpers.go:227-253 | below a path of types shown apart, ReadCall and WriteStmt take exactly the accepted types, and the helper is then there |
| FuzzWalk.FanIsRight | internal/gotestgen/fuzzfan.go:315-335 | below a path of types shown apart, fan takes exactly the accepted types, finds their leaves and leaves a correct program with their fan |
| FuzzWalk.HybridIsRight | internal/gotestgen/fuzzfan.go:495-514 | a one-leaf codec exists exactly for accepted types |
| FuzzWalk.FreshFanIsRight | internal/gotestgen/fuzzfan.go:315-335 | a fresh generator takes a type whose reachable types are shown apart exactly when it is accepted |
| ShownTypes.NamedApartIsRight | internal/gotestgen/fuzzfan.go:315-335 | so it is when only the leaves, named types among them, are shown apart |
| FuzzWalk.StackedIsRecursive | internal/gotestgen/fuzzhelpers.go:227-253 | of types shown apart, one whose string is on the stack contains itself and is not accepted |
| FuzzWalk.LiteralFormIff | internal/gotestgen/fuzzhelpers.go:488-552 | literalSupported takes a type exactly when it is accepted and no walk from it shows two types alike |
| FuzzWalk.VisitTakes | internal/gotestgen/fuzzhelpers.go:137-207 | a type literalSupported takes is never refused a helper, whatever was emitted before |
| FuzzWalk.FanTakes | internal/gotestgen/fuzzfan.go:315-335 | nor a fan |
| FuzzWalk.ServesOneOfAlike | internal/gotestgen/fuzzhelpers.go:227-253 | of two types shown alike a program has the functions of one at most |
| FuzzWalk.SecondOfAlikeIsTaken | internal/gotestgen/fuzzfan.go:315-335 | the second of two types shown alike gets the first one's leaves and fan, accepted or not |
| FuzzWalk.UnacceptedIsTaken | internal/gotestgen/fuzzfan.go:315-335 | of two packages of one name: an unaccepted type that is taken |
| FuzzWalk.FieldShownAlikeIsRefused | internal/gotestgen/fuzzfan.go:315-335 | a struct with a field shown like itself is refused by every walk |
| FuzzWalk.AcceptedIsRefused | internal/gotestgen/fuzzfan.go:315-335 | of two packages of one name: an accepted type that is refused |
| FuzzWalk.OrderDecides | internal/gotestgen/fuzzfan.go:315-335 | a type refused at first that is taken after a target over its field's type |
| FuzzEmitter.Emitter.AssignName | internal/gotestgen/fuzzhelpers.go:98-110 | one identifier for one string, the first candidate not taken, and no identifier changes |
| FuzzEmitter.Emitter.ReadCall | internal/gotestgen/fuzzhelpers.go:137-168 | by maps keyed on identifiers and a stack of strings, what the walk Visit says: refusal, access and helpers emitted |
| FuzzEmitter.Emitter.WriteStmt | internal/gotestgen/fuzzhelpers.go:172-207 | takes exactly what ReadCall does and goes through the same access |
| FuzzEmitter.Emitter.Helper | internal/gotestgen/fuzzhelpers.go:227-253 | a helper kept is found again, a string on the stack is refused, otherwise the source is emitted and kept |
| FuzzEmitter.Emitter.HelperSource | internal/gotestgen/fuzzhelpers.go:255-323 | the loop over live fields emits the read and write of each part, stopping at the first refused |
| FuzzEmitter.Emitter.Fan | internal/gotestgen/fuzzfan.go:315-335 | by its memo and stack of strings, what the walk FanWalk says: leaves or refusal, and everything emitted on the way |
| FuzzEmitter.Emitter.FanSource | internal/gotestgen/fuzzfan.go:336-489 | the fan of each kind of type, with the walks of its parts |
| FuzzEmitter.Emitter.ArrayFan | internal/gotestgen/fuzzfan.go:336-489 | small arrays fan element by element, large ones ride as one codec leaf |
| FuzzEmitter.Emitter.StructFan | internal/gotestgen/fuzzfan.go:336-489 | fields fan in declaration order, each on its own leaves |
| FuzzEmitter.Emitter.HybridOf | internal/gotestgen/fuzzfan.go:495-514 | a one-leaf codec over the nested helper walk, kept by identifier |
| FuzzEmitter.Emitter.LiteralSupported | internal/gotestgen/fuzzhelpers.go:488-552 | with its own stack, whether the type has a literal form |
| FuzzTarget.EmitTarget | internal/gotestgen/fuzzfan.go:175-289 | fans every position, lays the leaves out in order and leaves the stacks empty, as TargetWalk says |
| FuzzTarget.TargetIsRight | internal/gotestgen/fuzzfan.go:175-289 | for types shown apart a target is emitted exactly when all positions are accepted and there is a leaf; its leaf tuple, slots and fans are those of the positions |
| FuzzTarget.FreshTargetIsRight | internal/gotestgen/fuzzfan.go:175-289 | so it is of a first target whose reachable types are shown apart, and what was emitted is correct |
| FuzzTarget.TargetFansBack | internal/gotestgen/fuzzfan.go:175-289 | exploding a seed and registering its leaves calls back with the seed's kept values |
| LruCache.Cache.Get | examples/benchmarking/cache.go:40-47 | the value stored, and the key moved to the front of the recency sequence |
| LruCache.Cache.Put | examples/benchmarking/cache.go:52-64 | the pair at the front, the last pair dropped past capacity |
| LruCache.Cache.Len | examples/benchmarking/cache.go:67-69 | the length of the sequence, never above capacity |
| LruCache.Cache.PushFront | examples/benchmarking/cache.go:71-81 | the linked list becomes the entry and then what it was, in both directions |
| LruCache.Cache.Unlink | examples/benchmarking/cache.go:83-95 | the linked list without the entry, in both directions |
| LruCache.Cache.MoveToFront | examples/benchmarking/cache.go:97-103 | the same entries with one moved to the front |
| LruCache.Cache.EvictTail | examples/benchmarking/cache.go:105-112 | drops just the last entry, from list and map |
| LruCache.Cache.Ahead | examples/benchmarking/cache.go:71-103 | following next from head reads the sequence and ends with it |
| LruCache.Cache.Back | examples/benchmarking/cache.go:71-103 | following prev from tail reads the sequence backwards |
| LruCache.RunKeepsBounds | examples/benchmarking/cache.go:29-69 | after any operations keys are distinct and within capacity |
| LruCache.GetKeepsAll | examples/benchmarking/cache.go:40-47 | a Get changes what no key finds |
| LruCache.PutDropsOnlyTheLast | examples/benchmarking/cache.go:52-64 | a Put loses at most the least recently used key, and that only when full and new |
| LruCache.RecentlyPutIsFound | examples/benchmarking/cache.go:52-112 | a key put is found as long as fewer than capacity other keys were used since |
| LruCache.FoundIs | examples/benchmarking/cache.go:40-64 | after any operations on an empty cache a key finds its last value exactly when fewer than capacity other keys were used, by a put or a get that found them, since it was |
| LruCache.LeastRecentlyUsedIsDropped | examples/benchmarking/cache.go:52-64 | a put drops a key exactly when its own is new and the cache full, and that key is the one whose last use is oldest |
| TopoSort.TopoSort | internal/gotestgen/binding.go:927-990 | all fixtures, in the order that always takes the least ready key, or the keys that order leaves out, ascending |
| TopoSort.OrderIsTopological | internal/gotestgen/binding.go:927-990 | the order has no key twice and each after its dependencies |
| TopoSort.AllOrderedIff | internal/gotestgen/binding.go:927-990 | every fixture is ordered exactly when the graph is dependency-closed and acyclic |
| TopoSort.OrderedIffNotBad | internal/gotestgen/binding.go:975-990 | one key is ordered exactly when no chain of dependencies from it cycles or leaves the graph |
| TopoSort.OnlyCyclesAreNamedIff | internal/gotestgen/binding.go:975-990 | every fixture left over is on a cycle exactly when whatever depends on a cycle or on a missing fixture is on a cycle itself |
| TopoSort.OffCycleIsNamed | internal/gotestgen/binding.go:975-990 | with a depending on itself and b on a, b is left over and on no cycle |
| TopoSort.CountsAll | internal/gotestgen/binding.go:975-990 | comparing lengths decides whether anything was left out |
| TopoSort.TakeLeast | internal/gotestgen/binding.go:945-972 | the front of the sorted queue is the least ready key and extends the order |
| TopoSort.Release | internal/gotestgen/binding.go:955-972 | counting a key's dependents off keeps each in-degree the number of unmet dependencies and the queue the ready keys |
| TopoSort.Children | internal/gotestgen/binding.go:927-945 | each key's dependents, as often as they name it, whatever the map order |
| TopoSort.SortedKeys | internal/gotestgen/binding.go:927-945 | the keys ascending, whatever the map order |
| StringOrder.BelowIff | internal/gotestgen/binding.go:927-945 | a string is below another when it is smaller where they first differ, or ends there |
| TopoSort.Leftover | internal/gotestgen/binding.go:975-990 | the keys with unmet dependencies are those the order left out |
| TopoSort.CollectTransitive | internal/gotestgen/binding.go:1139-1160 | exactly the fixtures reachable from a suite's bindings through parents |
| TopoSort.Visit | internal/gotestgen/binding.go:1139-1160 | adds only what is reachable, and everything below what it adds; ends on cyclic parents too |
| NilGuard.CheckedIsSafe | internal/gotestast/spec.go:1296-1319 | no execution with the subject nil reaches a place the analysis accepts |
| NilGuard.Checked | internal/gotestast/spec.go:1296-1319 | true exactly when on the way down to the place some step goes into the body or else of an if that tests the subject, the right operand of such a && or ||, or a statement after an early return |
| NilGuard.NonNilIffTests | internal/gotestast/spec.go:1278-1291 | nonNilIf accepts exactly the conditions with a != nil comparison under parentheses and && only, nonNilUnless those with an == nil one under parentheses and || only |
| NilGuard.AcceptedIff | internal/gotestast/spec.go:1296-1319 | the places accepted, outright and without naming the analysis |
| NilGuard.NonNilIfIsSound | internal/gotestast/spec.go:1278-1283 | such a condition is never true of a nil subject |
| NilGuard.NonNilUnlessIsSound | internal/gotestast/spec.go:1286-1291 | such a condition is never false of a nil subject |
| NilGuard.GuardLeaves | internal/gotestast/spec.go:1296-1319 | an early-return guard does not fall through with a nil subject |
| NilGuard.ReturnLeaves | internal/gotestast/spec.go:1321-1327 | a block that ends in return does not fall through |
| NilGuard.SeenIsPlace | internal/gotestast/spec.go:1296-1319 | executions reach only places of the body |
| NilGuard.FollowAliases | internal/gotestast/spec.go:1161-1196 | the names bound to the subject through any chain of assignments, whatever their order |
| Census.VerdictIndex.Write | internal/gotestrunner/census.go:102-113 | feeds the complete lines and keeps the rest, as the line-by-line fold does |
| Census.VerdictIndex.Observe | internal/gotestrunner/census.go:145-219 | one event's effect on every field of the index |
| Census.VerdictIndex.EndSuite | internal/gotestrunner/census.go:236-252 | the index at the end of a process, cut short or on its own, field by field |
| Census.VerdictIndex.CreditBenchmark | internal/gotestrunner/census.go:255-264 | a benchmark is credited once and settled |
| Census.CutsDoNotMatter | internal/gotestrunner/census.go:102-113 | the index after any chunks of a stream is that after the stream in one Write |
| Census.IndexIsLastVerdict | internal/gotestrunner/census.go:145-219 | the index holds the last verdict of each indexed unit, and the benchmarks some event credits |
| Census.OwnEndLeavesNothing | internal/gotestrunner/census.go:236-252 | a process that ended on its own leaves no unit of it running, waiting or cut |
| Census.NothingActiveAfter | internal/gotestrunner/census.go:221-252 | after any processes that ended on their own no unit is active, running or cut |
| Census.WaitingIs | internal/gotestrunner/census.go:145-219 | a unit waits exactly when the last event that paused, started or continued it was a pause |
| Census.HasSelectionFlag | internal/gotestrunner/census.go:45-54 | whether some argument selects, as a bare flag or with a value |
| Census.ExecutedTests | internal/gotestrunner/census.go:330-341 | the indexed tests with a verdict of their own, and suites skipped whole |
| Census.ExecutedFuzz | internal/gotestrunner/census.go:344-352 | the indexed fuzz targets |
| Census.MissingUnits | internal/gotestrunner/census.go:356-372 | the declared units neither executed nor under a suite skipped whole, in order |
| Census.TakeCensus | internal/gotestrunner/census.go:377-427 | exit and events change only on a clean unselected run; then exit 2 exactly when something is missing |
| Census.NothingMissingIff | internal/gotestrunner/census.go:356-427 | of the raw event stream: nothing is missing exactly when each declared test has a verdict or its suite's last verdict is a skip, and each fuzz target has one |
| Census.NoBenchmarkMissingIff | internal/gotestrunner/census.go:356-427 | of a benchmark run: nothing is missing exactly when each declared benchmark, or something below it, failed, was skipped, ended or printed a value per op |
| Census.HasResultIff | internal/gotestrunner/census.go:312-326 | a text settles a benchmark exactly when it holds a space, a value without spaces, /op, and a space or the end |
| Census.CreditsIff | internal/gotestrunner/census.go:145-219 | an event credits a benchmark exactly when it is its own or below it and settles it |
| CensusCut.CutIff | internal/gotestrunner/census.go:145-219 | a unit is cut short exactly when an event fails it after its last start, not waiting and with no result line of its own since |
| CensusCut.ResultLineIff | internal/gotestrunner/census.go:221-232 | a result line is any number of spaces and then the verdict and the test's own name |
| Census.BookedIs | internal/gotestrunner/census.go:431-462 | the booked events fail each missing unit, its suite if known, its package, and nothing else |
| Census.BookedFails | internal/gotestrunner/census.go:431-545 | folded back, fail is the last verdict of each missing unit, its known suite and its package, timed as they were |
| Census.FoldedIn | internal/gotestrunner/census.go:532-545 | folding failures back changes the last verdict of just what they fail |
| Census.NothingMissingAfter | internal/gotestrunner/census.go:377-462 | folded back, nothing is missing exactly when no test hung on the skip of a suite with a missing fuzz target |
| Census.NoBenchmarkMissingAfter | internal/gotestrunner/census.go:377-462 | folded back, no benchmark is missing |
| Census.SkippedSuiteUncovers | internal/gotestrunner/census.go:356-462 | every skipped suite with one test and one missing fuzz target is missing the test after the fold, not before |
| Census.SkippedSuiteIsUncovered | internal/gotestrunner/census.go:356-462 | a concrete such suite |
| FileWrite.Stage | internal/filewrite/filewrite.go:42-69 | a failed Stage leaves the disk as it was; a good one adds just the replacements and stages every change once |
| FileWrite.StageOne | internal/filewrite/filewrite.go:71-114 | refuses a file that does not hold Before; a failure leaves no file behind |
| FileWrite.Commit | internal/filewrite/filewrite.go:133-145 | after any failure the first files hold After, the rest Before but for one the error names, no replacement remains, and the names returned are those of the first |
| FileWrite.CommitOne | internal/filewrite/filewrite.go:133-145 | writes one file and keeps the rest ready, or drops every replacement left |
| FileWrite.Write | internal/filewrite/filewrite.go:147-181 | After, or Before put back, or partly written, whichever call fails and after any bytes |
| FileWrite.Overwrite | internal/filewrite/filewrite.go:147-181 | in place: After and nothing past it, or Before again unless putting it back failed |
| FileWrite.Discard | internal/filewrite/filewrite.go:183-198 | removes the replacements and nothing else |
| FileWrite.DiscardedIs | internal/filewrite/filewrite.go:183-198 | what is left is the base with the written files rewritten |
| FileWrite.AllOrNone | internal/filewrite/filewrite.go:42-145 | a change's name is returned exactly when its file was rewritten; then the file holds After, else Before unless the error names it |
| FileWrite.NamedIffServed | internal/filewrite/filewrite.go:42-145 | a name, linked or repeated, is returned exactly with its own file |
| FileWrite.OthersUntouched | internal/filewrite/filewrite.go:42-198 | a path no change leads to is as it was; no file is new or gone |
| FrameCodec.DecodesBack | examples/fuzzing/frame.go:56-111 | decoding an encoded frame, whatever follows, gives it with strings and headers cut at 65535, the payload at 2^32-1 and empty lists as nil |
| FrameCodec.KeptUnchangedIff | examples/fuzzing/frame.go:145-195 | a frame comes back unchanged exactly within those limits |
| FrameCodec.PrefixIsTruncated | examples/fuzzing/frame.go:70-111 | every strict prefix of an encoding is an error |
| FrameCodec.PairsBack | examples/fuzzing/frame.go:276-297 | the header loop reads back the pairs written and no more |
| FrameCodec.OnTheWire | examples/fuzzing/frame.go:56-64 | a frame byte by byte |
| FrameCodec.TraceOnTheWire | examples/fuzzing/frame.go:185-195 | a trace is its high word and then its low one, least significant byte first |
| FrameCodec.HeaderOnTheWire | examples/fuzzing/frame.go:169-183 | a header is its name and then its value |
| FrameCodec.Encode | examples/fuzzing/frame.go:56-64 | the fields of the frame in wire order |
| FrameCodec.Decode | examples/fuzzing/frame.go:70-111 | the frame at the front of the bytes or an error at the first short read |
| FrameCodec.PutHeaders | examples/fuzzing/frame.go:169-183 | the count cut to 16 bits and that many pairs |
| FrameCodec.PutString | examples/fuzzing/frame.go:145-155 | the length cut to 16 bits and that many bytes |
| FrameCodec.PutBytes | examples/fuzzing/frame.go:157-167 | the length cut to 32 bits and that many bytes |
| FrameCodec.PutTrace | examples/fuzzing/frame.go:185-195 | a presence byte and the two words |
| FrameCodec.Reader.NextHeaders | examples/fuzzing/frame.go:276-297 | consumes one header list, or fails |
| FrameCodec.Reader.NextBlob | examples/fuzzing/frame.go:259-274 | consumes one payload, empty as nil, or fails |
| FrameCodec.Reader.NextTrace | examples/fuzzing/frame.go:299-316 | consumes one optional trace, or fails |
| BehaviorNames.SplitTestPath | internal/protocol/protocol.go:68-84 | a path cut at lone slashes, runs of slashes kept |
| BehaviorNames.SplitJoins | internal/protocol/protocol.go:68-84 | joining the segments gives the path back, less a final lone slash |
| BehaviorNames.SegmentsAreWhole | internal/protocol/protocol.go:68-84 | no segment holds a slash that stands alone |
| BehaviorNames.SegmentsRefold | internal/gotestast/behaviors.go:189-195 | splitting and joining a name gives the refolded name |
| BehaviorNames.ResolveSiblings | internal/gotestast/behaviors.go:130-147 | uniquifies the siblings and inserts each along its segments |
| BehaviorNames.InsertPath | internal/gotestast/behaviors.go:154-183 | inserts one leaf, sharing only grouping nodes it made |
| BehaviorNames.ReportedBehaviors | cmd/gotest/declarations.go:105-120 | folds grouping nodes back into their children's names |
| BehaviorNames.InsertReports | internal/gotestast/behaviors.go:154-183 | inserting a leaf adds one reported behavior, with its own children, and changes no other |
| BehaviorNames.LevelsAreShared | internal/gotestast/behaviors.go:154-183 | siblings with one first segment share the one level made for it, at every depth |
| BehaviorNames.UniquesDifferIff | internal/gotestast/behaviors.go:130-147 | the uniquified siblings all differ exactly when none is written as another comes out with its suffix |
| BehaviorNames.SuffixIs | internal/gotestast/behaviors.go:130-147 | a suffix is # and the count in two digits at least |
| BehaviorNames.SuffixedTwice | internal/gotestast/behaviors.go:130-147 | a, a and a#01 come out with a#01 twice |
| BehaviorNames.EachIsReported | cmd/gotest/declarations.go:105-120 | the behaviors reported are the siblings declared, each with its own children, under its refolded name |
| BehaviorNames.NamesComeBackIff | cmd/gotest/declarations.go:105-120 | the reported names are the uniquified names exactly when none loses a final slash |
| BehaviorNames.FinalSlashIsLost | internal/protocol/protocol.go:68-84 | a/b/ is reported as a/b |
| GoTestArgs.Classify | internal/gotestrunner/args.go:103-207 | the loop collects, token by token, what its position in the grammar makes of each |
| GoTestArgs.PatternIndices | internal/gotestrunner/args.go:434-466 | the indices of the tokens that are neither flags nor flag values, before -args |
| GoTestArgs.SameStopsIff | internal/gotestrunner/args.go:103-207 | both readers look at the same tokens exactly when each two-dash token looked at is harmless: not --args, and no flag that only one of them reads as taking what follows |
| GoTestArgs.HarmlessIffSameStep | internal/gotestrunner/args.go:328-345 | a token is harmless, by the flag tables, exactly when it ends neither reader and both step over the same tokens |
| GoTestArgs.IndicesAreStops | internal/gotestrunner/args.go:434-466 | the pattern indices are the tokens looked at that are no flags |
| GoTestArgs.ReadersAgree | internal/gotestrunner/args.go:434-466 | both readers find the same patterns when they look at the same tokens |
| GoTestArgs.SingleDashesAreHarmless | internal/gotestrunner/args.go:434-466 | so they do when no token before -args starts with two dashes |
| GoTestArgs.TokensAreConserved | internal/gotestrunner/args.go:103-207 | the three lists hold every token as often as it was given, apart from -json, -args and an added -cover |
| GoTestArgs.DroppedIsJson | internal/gotestrunner/args.go:103-207 | only -json is dropped |
| GoTestArgs.Roles | internal/gotestrunner/args.go:103-207 | bare or with a value, a flag of the build tables goes to the build, one of the run tables to the run, -json nowhere and any other to the test binary |
| GoTestArgs.CoverIsBuilt | internal/gotestrunner/args.go:103-207 | the build has -cover whenever a coverage profile is asked for, and none is added otherwise |
| GoTestArgs.ReadersDisagree | internal/gotestrunner/args.go:103-207 | two arguments of which one reader takes the second for a pattern and the other for a value |
| GoTestArgs.TwoDashesAreUnknown | internal/gotestrunner/args.go:328-345 | one reader strips one dash, the other does not know the rest |
| ShardPlan.Schedule | internal/drill/plan.go:67-98 | longest first, each mutant to the least loaded shard |
| ShardPlan.SchedulePartitions | internal/drill/plan.go:67-98 | every mutant is in exactly one bucket |
| ShardPlan.PlanIsGreedy | internal/drill/plan.go:67-98 | in every bucket the mutants come heaviest first and then by name, and without its last no bucket is fuller than another |
| ShardPlan.ScheduleIgnoresOrder | internal/drill/plan.go:67-98 | the plan depends on which mutants there are, not on their order |
| ShardPlan.SortedIsUnique | internal/drill/plan.go:67-84 | weight and name leave one sorted order |
| ShardPlan.LoadIsBounded | internal/drill/plan.go:67-98 | a shard's load is at most the mean plus (1 - 1/n) times the largest weight |
| ShardPlan.SameMembers | internal/drill/plan.go:273-278 | the same names, each as often |
| ShardPlan.CheckShards | internal/drill/plan.go:210-248 | clean exactly when the shards agree, select their own buckets and are each there once |
| ShardPlan.CleanShardsSelect | internal/drill/plan.go:210-248 | over any clean shards a name is selected as often as it is in the buckets of the run's shards |
| ShardPlan.CleanShardsSplit | internal/drill/plan.go:210-248 | when the assignment is the schedule, each mutant is selected as often as it is named |
| ShardPlan.ExactlyOneShardSelects | internal/drill/plan.go:210-248 | over any clean shards, what those buckets hold once is selected by one shard and no other |
| ShardPlan.ExactlyOneShardTakes | internal/drill/plan.go:210-248 | so is each scheduled mutant |
| EditDistance.FreshRows | cmd/gotest/cli.go:124-143 | the distance, filling a fresh row each round |
| EditDistance.SwappedRows | internal/gotestast/warnings.go:155-183 | the distance, swapping two rows |
| EditDistance.DistanceIsReached | cmd/gotest/cli.go:124-143 | some edit script costs the distance |
| EditDistance.DistanceIsLeast | cmd/gotest/cli.go:124-143 | no edit script costs less |
| EditDistance.NextCell | internal/gotestast/warnings.go:155-183 | a table cell is the least of its three neighbours' extensions |
| EditDistance.TablesAgreeOnAscii | cmd/gotest/cli.go:124-143 | on ASCII the distance of bytes is that of runes |
| EditDistance.TablesDifferBeyondAscii | internal/gotestast/warnings.go:155-183 | beyond ASCII they differ |

## Left out

Stated less than a first reading might expect:

- BinaryCache.ValidatedLocksExclude: for runs in which every evictLock unlinks the file it holds; without that it is false, as StaleOrphanUnlinkBreaksExclusion shows.
- GoTestArgs.ReadersAgree: for lists on which the readers look at the same tokens, which SameStopsIff characterises; readers that look at different tokens may still find the same patterns.
- FuzzWalk.FanIsRight: for types shown apart, which by NamesTellApart only two leaves shown alike can prevent, where field names, leaves and struct types are shown as Go does. Of types shown alike FanTakes says what is still taken, SecondOfAlikeIsTaken and FieldShownAlikeIsRefused what goes wrong. No condition on a type alone is exact for them: OrderDecides has one type refused before another target and taken after it.
- BehaviorNames.NamesComeBackIff: names only; grouped siblings share the first one's display label, which is not modelled, and the tree is a value rather than nodes changed in place.
- NilGuard.CheckedIsSafe: in a language without goto whose subject is never reassigned; loops, switches, calls and closures run their parts in any order and number. `guarded` and `boundInIfInit` are not modelled.
- ShardPlan.LoadIsBounded: weights are exact reals, not float64.
- FileWrite.Commit: closing and removing never fail, no file has two paths but through links that resolve, nobody else writes meanwhile, and temporary names are new.
- EditDistance.TablesAgreeOnAscii: runes are encoded as UTF-8 (RFC 3629, section 3); decoding of malformed bytes is not modelled.
- ScratchProgress.UndisturbedPruneRemoves: of a prune that removes the lock file; one that finds something written in it keeps it, which is a step that may go either way here.
- ScratchLock.LockAtReturnsFileOrError: that a refused drill met another drill is not claimed; it may have met a prune.

Assumed of the system: an advisory lock belongs to an inode and goes with the last close; the time of
a newly linked binary is later than any before; a new file may get any inode nothing refers to.

Not part of this model:

- the Windows lock variant and the stubs for other systems;
- the size policy and scan order of sweepBinaryCache, and which keys removeEmptyKey may take: a sweep may try any binary at any time and a directory may vanish whenever it is empty;
- writing .cwd files, .heldBy notes, PID files and logs, and what a drill runs between its file operations;
- signals, timers and processes: a stop and a kill are steps that may happen at any time;
- JSON: decoding one event line is a parameter of the census, and the prefilter on raw lines, bookDeadline and runningUnits are not modelled;
- the Go type checker: types are a finite graph of named types, aliases are resolved, array lengths are unbounded integers, and struct tags and embedding do not show in a type's string;
- the cleaning of a string to the base of its identifier, which is a parameter; literal functions and the identifiers of targets;
- the text of generated code, error messages, field paths and rendered literals: generated functions are terms with a meaning;
- BoundFixture's topologicalSort, a second Kahn's sort, and the rest of the binder: easy members beside the first;
- Plan, WorkerCount, reading of plan and selection files, and messages of problems in ShardPlan;
- concurrent use of the LRU cache, which the cache does not allow;
- Welch's t-test and the incomplete beta function: floating-point numerics;
- templates, package loading, the command line, help text, rendering and the remaining small helpers: easy members.
