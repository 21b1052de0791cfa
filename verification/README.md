# Chaos Mesh: network rules, background processes, status checks

A Dafny model of four cores of Chaos Mesh and proofs about them.

**Network rules.** A PodNetworkChaos is a flat list of ip sets, partitions and traffic-control rules. The daemon turns
it into kernel state: named ip sets, iptables chains below CHAOS-INPUT and CHAOS-OUTPUT, and one qdisc tree per device.
The kernel is modelled as state (`IPSets.Kernel`, `Iptables.Kernel`, `Qdiscs.Kernel`), every shell command as a method on
it that may fail, and `faults` counts the commands that did. Go's map order is an arbitrary choice. The main results
are `PodNetwork.AppliedMeans` and `PodNetwork.HistoryDoesNotMatter`: after success every packet fares as the flat spec
says, whatever the kernel held before. `TcMeaning.CompilationPreservesMeaning` is the traffic-control part, and
`TcKeys.RightInEveryOrderIff` says exactly for which requests it holds. `GenerationGate` is the test by which the
reconciler skips an object.

**Background processes.** `ProcessManager` is the concurrent protocol of the process manager as a transition system: any
number of starts, one waiter per process, one consumer of the death channel, and Shutdown, in every interleaving.
`IOChaos` is a client of it.

**Status checks.** A worker counts equal outcomes, a cache keeps a bounded window of records, a reconciler rescans the
window. `StatusWorker` proves that the two agree, `StatusController` that a stopped worker leads to a completed check
that stays completed, `WorkerRegistry` what every interleaving of adding, deleting and exiting workers keeps,
`RecordSlices` that records handed out never change although appends share their backing array.

**Field walker.** `FieldWalker` and `FieldPaths`: the breadth-first walk behind every defaulting and validating webhook.

## Where the code does less than one might expect

Where the expected property holds only sometimes, the condition under which it does is exact and for all inputs; the
others are stated by what the code does instead, or by a run that shows it.

- A set name of 31 bytes is its own truncated temporary name, so the live set is emptied first (`IPSets.TargetSurvivesPreparation`).
- A set named like the temporary of a later one is taken away (`IPSets.AllHoldIff`, `IPSets.ClashTakesAway`).
- A chain whose name begins the name of an earlier chain is never linked (`ChainLinks.AllReachedIff`); generated names can do this (`Names.ChainNamePrefix`).
- The failure to link a CHAOS chain to its built-in chain is ignored (`Iptables.InitializeEnv`), and so is the failed flush of any interface but the last (`TrafficControl.FlushInterfaces`).
- The numbering of classifying chains restarts on every device, so a second filtered device takes over the chains of the first (`TcConflicts.RightExactlyWithOneFilteredDevice`).
- Two filters may share a key (`TrafficControl.KeysCollideIff`), and then packets get the rules of both or of neither (`TcKeys.RightExactlyWhenFaithful`, `TcKeys.RightInEveryOrderIff`).
- The generation gate is not sound with monotone reads alone (`GenerationGate.MonotoneReadsAreNotEnough`); it is exactly when no attempt stops part way while a version that may still be read says up to date (`GenerationGate.SoundExactlyWithoutHazards`).
- A start that overlaps Shutdown can panic, even one that registers between the end of the wait and the close (`ProcessManager.ShuttingDownIsUnsafeIff`, `ProcessManager.ClosingIsUnsafeIff`).
- With a history limit below a threshold the worker stops and no scan notices (`StatusWorker.AgreementIff`).
- The exit of a worker can take its successor, and two workers of one key can be active for a moment, although the reconciler works on one key at a time (`WorkerRegistry.ExitTakesItselfIff`, `WorkerRegistry.TwoCanBeActive`).
- A record that lands after a deletion, or an executor that cannot be built, leaves a check without a worker for good (`WorkerRegistry.LateRecordBlocks`, `WorkerRegistry.RevivableIff`, `StatusManager.Manager.FailedAddIsFinal`).
- A stale first read lets a completed check be written again, and possibly uncompleted (`StatusController.StaleReadRewrites`, `StatusController.StaleReadCanUndo`).

## Model

| member | source | states |
|---|---|---|
| `Text.ContainsInUnlines` | pkg/chaosdaemon/iptables_server.go:266 | searching a whole listing is the same as searching its lines one by one, for text without a newline |
| `Text.ValueOfDecimal` | pkg/chaosdaemon/tc_server.go:271 | the printed number reads back as the number |
| `Text.DecimalPrefix` | pkg/chaosdaemon/tc_server.go:271 | a printed number can begin another only if it is not larger, so writing the numbered chains in increasing order never hides a later one |
| `Names.CompressName` | controllers/podnetworkchaos/netutils/len.go:26-52 | a generated name is never longer than asked for and always ends in its postfix |
| `Names.SameNameIff` | controllers/podnetworkchaos/netutils/len.go:26-52 | two chaos names give the same name exactly if they are the same, or both have six letters or more and agree in the first five and in the kept part of the hash of the rest |
| `Names.IPSetNamesAreSafe` | controllers/podnetworkchaos/ipset/ipset.go:91-93 | a generated set name leaves room for the temporary twin and is never itself a twin; for long chaos names set and chain names have 27 letters |
| `Names.ChainNamePrefix` | controllers/podnetworkchaos/iptable/iptable.go:69-78 | one generated chain name is a proper prefix of another exactly for a five-letter chaos name and a longer one that begins with it |
| `IPSets.CreateIPSet` | pkg/chaosdaemon/ipset_server.go:115-153 | an existing set is emptied and keeps its type; an error is reported exactly when a command failed; no other table ever shows in between |
| `IPSets.CidrAndPortReadsBack` | pkg/chaosdaemon/ipset_server.go:88-93 | an element names its network and port: no two pairs are written alike |
| `IPSets.PortElements` | pkg/chaosdaemon/ipset_server.go:80-95 | a set of networks with ports is asked to hold exactly the pairs of the request, each recoverable from its text |
| `IPSets.ElementsAsAsked` | pkg/chaosdaemon/ipset_server.go:76-95 | list:set gives the names, hash:net the networks, hash:net,port the written pairs, and nothing else |
| `IPSets.AddToIPSet` | pkg/chaosdaemon/ipset_server.go:155-173 | all values end up in the set, duplicates or not; at every moment every set keeps its type and members but for members gained by the one named |
| `IPSets.RenameIPSet` | pkg/chaosdaemon/ipset_server.go:175-207 | rename, or swap when the target exists; in one command, so every table seen is the old one or the finished one |
| `IPSets.FlushIPSet` | pkg/chaosdaemon/ipset_server.go:74-113 | atomic replacement: after every single command the target holds all of the old or all of the requested elements and only it and its temporary twin differ; success means that it holds exactly what was asked for, by type: the member sets, the networks, or the pairs of network and port; and is reported exactly when no command failed and the type is known |
| `IPSets.TargetSurvivesPreparation` | pkg/chaosdaemon/ipset_server.go:115-119 | preparing the temporary set leaves the live set alone for every table exactly when its name is not 31 bytes long |
| `IPSets.InstalledType` | pkg/chaosdaemon/ipset_server.go:115-153 | the installed set has the requested type exactly when the temporary set was absent or already had it |
| `IPSets.FlushIPSets` | pkg/chaosdaemon/ipset_server.go:39-72 | the requests are applied in order; success exactly when no command failed and every type is known |
| `IPSets.LastingRequestsHold` | pkg/chaosdaemon/ipset_server.go:39-72 | from any earlier table, every request that no later one overwrites ends up installed |
| `IPSets.ClashTakesAway` | pkg/chaosdaemon/ipset_server.go:74-113 | from any table: a request whose temporary name is the name of an earlier set takes that set away; the name ends up with what stood under the request's own name, or with nothing |
| `IPSets.RequestedTypesHold` | pkg/chaosdaemon/ipset_server.go:39-153 | along the whole list every lasting request ends up with its type, if the sets already there, temporaries included, have it and the requests agree among themselves |
| `IPSets.AllHoldIff` | pkg/chaosdaemon/ipset_server.go:39-113 | a list of differently named requests is installed completely from every table exactly when no name is the temporary name of a later one |
| `Iptables.BuildIptablesRules` | pkg/chaosdaemon/iptables_server.go:126-194 | the rules of a chain: per ip set, or one for all, the target under protocol, ports and TCP flags and then the fallback without them; refused exactly for an unknown direction |
| `RuleReader.WordsReadBack` | pkg/chaosdaemon/iptables_server.go:126-194 | reading the options of a command one by one gives back chain and entry: direction, device, set and its match directions, protocol, single or several ports, flags and target |
| `RuleReader.GeneratedReadBack` | pkg/chaosdaemon/iptables_server.go:126-194 | every rule generated for a chain is read back from its words, for every request in which no TCP flag is the jump option |
| `Iptables.EnsureRule` | pkg/chaosdaemon/iptables_server.go:255-283 | appends unless the listing contains the text; an error is reported exactly when a command failed, and then nothing has changed |
| `Iptables.CreateNewChain` | pkg/chaosdaemon/iptables_server.go:217-253 | whatever the chain held, it is emptied and rewritten; no other chain is touched |
| `Iptables.SetIptablesChain` | pkg/chaosdaemon/iptables_server.go:98-124 | the chain is rewritten and linked to the hook of its direction; success exactly when the direction is known and no command failed |
| `Iptables.SetIptablesChains` | pkg/chaosdaemon/iptables_server.go:87-96 | the chains are installed in order, success under the same exact condition |
| `Iptables.InitializeEnv` | pkg/chaosdaemon/iptables_server.go:196-215 | both CHAOS chains end up empty and nothing but the built-in chains changes; a failed link to a built-in chain goes unreported, and without a failure both are linked |
| `ChainLinks.RuleIsAppended` | pkg/chaosdaemon/iptables_server.go:255-283 | a generated rule is always appended: its text carries the wait option, which no listing shows |
| `ChainLinks.LinkIsAppendedIff` | pkg/chaosdaemon/iptables_server.go:266 | for links the substring search is a prefix test on chain names |
| `ChainLinks.InstallationHolds` | pkg/chaosdaemon/iptables_server.go:87-124 | from any kernel with emptied hooks the installed chains hold exactly their rules and the hooks exactly the links that were not skipped |
| `ChainLinks.UnshadowedAreLinked` | pkg/chaosdaemon/iptables_server.go:255-283 | without shadowing names every chain is linked, in request order |
| `ChainLinks.ShadowedIsNotLinked` | pkg/chaosdaemon/iptables_server.go:255-283 | a chain whose name begins an earlier one in its direction is never linked |
| `ChainLinks.AllReachedIff` | pkg/chaosdaemon/iptables_server.go:87-124 | every requested chain is reached from its hook exactly when no name is a prefix of an earlier one in the same direction |
| `Partition.RulesMean` | pkg/chaosdaemon/iptables_server.go:126-194 | reading the generated rules top down with first match gives every packet the fate the chain asks for |
| `Partition.InstalledMeans` | pkg/chaosdaemon/iptables_server.go:87-124 | an installed request treats every packet as its chains say: the first that stops it decides |
| `Partition.HistoryIndependent` | pkg/chaosdaemon/iptables_server.go:196-253 | two kernels with any two histories treat every packet alike after the same request |
| `Partition.PartitionRules` | controllers/podnetworkchaos/controller.go:217-249 | a chain is built exactly for valid partitions, and its rules drop, or reset TCP and reject the rest, exactly the packets covered |
| `Partition.BuildIptablesChains` | controllers/podnetworkchaos/controller.go:204-215 | all chains or none: refused exactly when one partition is invalid |
| `Partition.PartitionsMean` | controllers/podnetworkchaos/controller.go:204-249 | the chains together give a packet the verdict of the first partition in the spec that covers it |
| `Partition.PartitionsEnforced` | controllers/podnetworkchaos/controller.go:204-249 | from any kernel state, that verdict is what the packet meets at its hook |
| `Netem.DurationReadsBack` | pkg/chaosdaemon/tc_server.go:460-475 | a printed duration reads back as the duration rounded up to a whole microsecond |
| `Netem.DurationIsMonotone` | pkg/chaosdaemon/tc_server.go:451-475 | longer durations never read back shorter, and equal texts mean equal microseconds |
| `Netem.EncodedReadsBack` | pkg/chaosdaemon/tc_server.go:477-553 | the argument list decodes to exactly the settings that take effect |
| `Netem.SettingsInEffect` | pkg/chaosdaemon/tc_server.go:477-553 | what takes effect, field by field: times rounded up to a microsecond, jitter, correlations, reordering and gap only beside the field that enables them |
| `Netem.ConvertNetemToArgs` | pkg/chaosdaemon/tc_server.go:477-553 | refused exactly for an unreadable or negative duration; otherwise the arguments decode to the effective settings |
| `Netem.ArgumentsDetermineSettings` | pkg/chaosdaemon/tc_server.go:477-553 | equal arguments mean equal effective settings |
| `Qdiscs.AddTc` | pkg/chaosdaemon/tc_server.go:327-355 | one command; fails exactly when the rule cannot be rendered or the command failed; on success the arguments it was given decode to the settings of the rule, which every qdisc of the kernel keeps |
| `Qdiscs.SetGlobalTcs` | pkg/chaosdaemon/tc_server.go:211-228 | unfiltered rules form a pipe from the root in request order; a command is invalid only on a device that is missing or not empty |
| `Qdiscs.AddPrio` | pkg/chaosdaemon/tc_server.go:357-391 | a prio qdisc with three sfq bands below the pipe; with a pipe in place no command is invalid |
| `Qdiscs.AddFilter` | pkg/chaosdaemon/tc_server.go:253-268 | the rules of one filter form a pipe below its class; every command is valid |
| `Qdiscs.AddFilters` | pkg/chaosdaemon/tc_server.go:230-294 | for every order of visiting the filters: the tree, the chains and the handle counter agree, and every command is valid |
| `Qdiscs.SetFilterTcs` | pkg/chaosdaemon/tc_server.go:230-294 | for every order of visiting: the device holds the compiled tree and the classifying chains are installed |
| `Qdiscs.HandlesAndClasses` | pkg/chaosdaemon/tc_server.go:211-294 | with n unfiltered rules, k > 0 filters and m filtered rules the handles are exactly 1..n+4+m in order, and the classes in use are exactly 1..3+k, once each: an sfq at the first three and the first rule of filter f at f+4 |
| `TrafficControl.KeysCollideIff` | pkg/chaosdaemon/tc_server.go:567-575 | two different filters share a key exactly when the ip set of one is that of the other, a dash, and the beginning of its protocol, for all names and protocols |
| `TrafficControl.DeviceIsNamed` | pkg/chaosdaemon/tc_server.go:200-209 | a rule is for eth0 exactly if it names no device or eth0, and else for the device it names |
| `TrafficControl.GroupRulesAccordingToDevices` | pkg/chaosdaemon/tc_server.go:200-209 | each device gets exactly its rules in request order, the default device filled in |
| `TrafficControl.SplitByFilter` | pkg/chaosdaemon/tc_server.go:169-179 | the rules of a device fall into the unfiltered ones and one list per key, all in order |
| `TrafficControl.FlushInterfaces` | pkg/chaosdaemon/tc_server.go:134-142 | an error is reported exactly when the flush of the last interface failed; every other failure leaves its device with the old tree unnoticed |
| `TrafficControl.SetDeviceTcs` | pkg/chaosdaemon/tc_server.go:144-195 | one device ends up with the compiled tree of its own rules, and no other device is touched |
| `TrafficControl.SetTcs` | pkg/chaosdaemon/tc_server.go:113-198 | for every order of devices and filters: success leaves on every device the compiled tree of its rules whatever was there before; a failure means an unrenderable rule, a failed command, or a device that is missing or could not be flushed |
| `TcMeaning.TreeMeans` | pkg/chaosdaemon/tc_server.go:211-294 | every packet passes the unfiltered rules in order and then exactly the rules of the filter whose class it carries |
| `TcMeaning.TcChainsMark` | pkg/chaosdaemon/tc_server.go:270-291 | the classifying chains leave on a packet the class of the last visited filter that matches it, or none |
| `TcMeaning.TcChainsFit` | pkg/chaosdaemon/tc_server.go:270-291 | the numbered chains neither overwrite nor hide one another or the partition chains |
| `TcMeaning.CompilationPreservesMeaning` | pkg/chaosdaemon/tc_server.go:144-294 | for every order of visiting: a packet passes the unfiltered rules of its device in request order and then exactly the rules of one matching filter in request order, or none if none matches |
| `TcMeaning.TablesKeepVerdicts` | pkg/chaosdaemon/tc_server.go:270-291 | classification changes nothing for packets that a partition stops, that come in, or that leave by a device without rules |
| `TcMeaning.RightfulIsUnique` | pkg/chaosdaemon/tc_server.go:230-294 | when all filters matching a packet are the same its way is determined, so no order of visiting can show |
| `TcConflicts.PacketGoesAstray` | pkg/chaosdaemon/tc_server.go:246-294 | a packet for the filter visited first on one device misses its rules once another filtered device is visited later |
| `TcConflicts.TwoFilteredDevicesGoWrong` | pkg/chaosdaemon/tc_server.go:246-294 | for every order of visiting there is such a packet |
| `TcConflicts.RightExactlyWithOneFilteredDevice` | pkg/chaosdaemon/tc_server.go:144-294 | for requests as the controller sends them, in every run and beside any partition chains for other traffic: all packets let through take a rightful way exactly when at most one device has filtered rules |
| `TcKeys.UnfaithfulGoesWrong` | pkg/chaosdaemon/tc_server.go:270-282 | when two filters of a device share a key, in every run some packet gets the rules of both or of neither |
| `TcKeys.RightExactlyWhenFaithful` | pkg/chaosdaemon/tc_server.go:144-294 | in every run over one filtered device all packets let through take a rightful way exactly when no two filters share a key, unless one protocol is another one behind a dash |
| `TcKeys.RightInEveryOrderIff` | pkg/chaosdaemon/tc_server.go:144-294 | for all ip sets and protocols: every packet let through takes a rightful way in every order of visiting devices and filters, if and only if at most one device has filtered rules and no two filters of it share a key |
| `PodNetwork.SetIptables` | controllers/podnetworkchaos/controller.go:204-215 | an invalid partition changes nothing; otherwise the chains stand on freshly emptied hooks; fails only for an invalid partition or a failed command |
| `PodNetwork.Apply` | controllers/podnetworkchaos/controller.go:146-178 | ip sets, then partitions, then traffic control; success leaves flushed devices without rules empty; a failure means an unacceptable spec or a failed command |
| `PodNetwork.AppliedMeans` | controllers/podnetworkchaos/controller.go:146-178 | after success every packet fares as the spec alone says: its verdict, its way through the rules of its device, and no class and no rule on a flushed device without rules; lasting ip sets hold the requested elements and type |
| `PodNetwork.HistoryDoesNotMatter` | controllers/podnetworkchaos/controller.go:146-178 | two applications of one spec, from any two kernels and in any two orders, give every packet the same verdict and, where its matching filters are the same, the same rules in the same order; the sets have the same members |
| `PodNetwork.ApplyTwice` | controllers/podnetworkchaos/controller.go:146-178 | applying again changes no packet's fate |
| `GenerationGate.StepKeepsInv` | controllers/podnetworkchaos/controller.go:69-106 | every edit, skip and attempt keeps generations ordered and every status at or behind what the reconciler has read |
| `GenerationGate.StepStaysSafeIff` | controllers/podnetworkchaos/controller.go:69-106 | a step from a state in which every possible skip is sound leads to such a state exactly when it is not an attempt that stops part way while a version that may still be read says up to date |
| `GenerationGate.SoundExactlyWithoutHazards` | controllers/podnetworkchaos/controller.go:69-106 | the exact condition over all runs with monotone reads and lost status writes: every possible skip is sound if and only if there is no such attempt |
| `GenerationGate.GateIsSound` | controllers/podnetworkchaos/controller.go:69-106 | if every attempt is made from a version at or after the reconciler's own last status write, an object is skipped only if the generation read is completely in the pod and nothing was applied since; skips may be stale |
| `GenerationGate.AppliedIsSkipped` | controllers/podnetworkchaos/controller.go:69-106 | once the newest generation is completely applied and that is recorded, every pass that sees the record skips the object until the next edit |
| `GenerationGate.MonotoneReadsAreNotEnough` | controllers/podnetworkchaos/controller.go:69-106 | a run with monotone reads that skips a broken pod |
| `ProcessManager.StepKeepsInv` | pkg/bpm/bpm.go:125-279 | every step of starts, failing starts, waiters, the consumer and Shutdown, whose wait and close are separate steps, keeps the ownership invariant of all tables |
| `ProcessManager.NeverTwoAlive` | pkg/bpm/bpm.go:125-263 | in every interleaving two processes with the same identifier are never alive at once, the failing start included |
| `ProcessManager.AliveIffSpawned` | pkg/bpm/bpm.go:125-263 | in every run a process is alive exactly from the step that spawned it to its death or the reaping of its failed start |
| `ProcessManager.StartAdmittedIff` | pkg/bpm/bpm.go:218-226 | in every run a start is refused exactly when another start owns its identifier; without an identifier never |
| `ProcessManager.FailingStartEnds` | pkg/bpm/bpm.go:125-172 | a failing start can run to its end whatever else goes on, and gives back its identifier and nothing else |
| `ProcessManager.TablesAgree` | pkg/bpm/bpm.go:190-263 | identifier set and pair index agree with the process table up to entries of starts or recycles in progress |
| `ProcessManager.TablesAgreeExactly` | pkg/bpm/bpm.go:190-263 | in quiescent states the three tables agree exactly |
| `ProcessManager.KilledIsGone` | pkg/bpm/bpm.go:304-327 | when a kill has returned without error the process is in none of the tables, and an identifier still taken is owned by another start |
| `ProcessManager.RestartRefusedIff` | pkg/bpm/bpm.go:218-327 | after a kill without error a start under the same identifier is refused exactly when a start other than the killed one owns it |
| `ProcessManager.RegisteredOnce` | pkg/bpm/bpm.go:218-286 | a registered process is the only one of its identifier and its pair leads back to it |
| `ProcessManager.Conservation` | pkg/bpm/bpm.go:190-263 | the wait group equals processes started minus processes recycled, and the number of those in between |
| `ProcessManager.ShutdownIsClean` | pkg/bpm/bpm.go:265-279 | if no start overlaps Shutdown, all tables are empty when the channel is closed and nothing sends on it afterwards |
| `ProcessManager.ClosingIsUnsafeIff` | pkg/bpm/bpm.go:243-279 | after the close some continuation of the calls already made panics exactly when a start that may still succeed is in flight or a waiter has not sent yet |
| `ProcessManager.ShuttingDownIsUnsafeIff` | pkg/bpm/bpm.go:218-279 | while Shutdown waits, some continuation of the calls already made panics exactly when a start that may still succeed is in flight: it can register between the end of the wait and the close |
| `IOChaos.StartedProcessResolves` | pkg/bpm/bpm.go:218-286 | from the return of a start and as long as the process lives, its pair resolves to it and its identifier is its own |
| `IOChaos.KilledForEver` | pkg/bpm/bpm.go:304-327 | a process whose kill returned without error stays in none of the tables for the rest of the run |
| `IOChaos.ApplyIOChaos` | pkg/chaosdaemon/iochaos_server.go:39-141 | over every run of the manager with any other calls and exits going on: once the kill has returned, and whatever comes of the call, the process referred to is released for good, so the start is not refused on its account; success with actions means the new one is alone under the container's identifier and is what the response leads to for as long as it lives; only these two are ever sent a signal |
| `StatusRecords.TrailingRunIs` | controllers/statuscheck/conditions.go:145-157 | the run at the end is the longest one of that outcome |
| `StatusRecords.IsThresholdExceed` | controllers/statuscheck/conditions.go:145-157 | the backward scan fires exactly when the last records, threshold many and at least one, all have the outcome, for every threshold |
| `StatusRecords.LimitOnceOrTwice` | controllers/statuscheck/manager.go:187-193 | trimming after every append is trimming once at the end |
| `StatusRecords.RunInWindow` | controllers/statuscheck/manager.go:187-193 | the window shows the run of the whole list, cut to the limit |
| `StatusRecords.ResultCache.Init` | controllers/statuscheck/manager.go:142-158 | an existing entry is left alone; without records the count starts at zero |
| `StatusRecords.ResultCache.Append` | controllers/statuscheck/manager.go:162-171 | appends to the entry of the key, a missing one standing for limit zero; no other entry changes |
| `StatusRecords.WindowIsExact` | controllers/statuscheck/manager.go:142-193 | after any appends the records are the last ones, up to the limit, of the initial records followed by all appended, and the count has grown by their number |
| `StatusRecords.LateAppendHoldsNothing` | controllers/statuscheck/manager.go:162-171 | appends to a deleted key bring it back with a count and never a record |
| `RecordSlices.GoAppend` | controllers/statuscheck/manager.go:167 | writes one cell behind the slice, or moves to a new array; no cell of the slice itself changes |
| `RecordSlices.Entry.Append` | controllers/statuscheck/manager.go:162-171 | the entry shows the trimmed window, and nothing up to its old end is overwritten |
| `RecordSlices.SnapshotSurvives` | controllers/statuscheck/manager.go:162-193 | a slice handed out earlier shows the same records after any number of appends, shared backing array or not |
| `StatusWorker.CounterAdvances` | controllers/statuscheck/worker.go:113-118 | the counter is the run of equal outcomes at the end, and reaching the threshold is a property of that run |
| `StatusWorker.Worker.Execute` | controllers/statuscheck/worker.go:104-160 | an executor error changes nothing; otherwise one record is appended and the worker goes on unless its run has reached the threshold |
| `StatusWorker.StopMeansScanFires` | controllers/statuscheck/worker.go:129-157 | for any earlier records, when the worker stops the scan of the window fires |
| `StatusWorker.CounterRefinesScan` | controllers/statuscheck/conditions.go:105-125 | from empty records the worker stops exactly when the scan fires |
| `StatusWorker.AgreementIff` | controllers/statuscheck/worker.go:129-157 | every stop is noticed by the scan exactly when the history limit is at least every threshold the mode uses |
| `StatusWorker.Run` | controllers/statuscheck/worker.go:71-93 | over a whole life of a worker: the cache holds the exact window, and a stop of its own makes the scan fire |
| `StatusManager.Manager.Add` | controllers/statuscheck/manager.go:65-84 | a check with an entry is left alone; otherwise the entry is made even when no worker follows |
| `StatusManager.Manager.Delete` | controllers/statuscheck/manager.go:95-98 | the results are forgotten and the worker is taken out and stopped, for this key only |
| `StatusManager.Manager.Complete` | controllers/statuscheck/manager.go:100-103 | the worker alone is taken out and stopped |
| `StatusManager.Manager.FailedAddIsFinal` | controllers/statuscheck/manager.go:65-84 | a check whose executor could not be built gets no worker however often it is added again |
| `WorkerRegistry.StepKeepsInv` | controllers/statuscheck/manager.go:95-125 | every step of Add, Delete, Complete and worker exit keeps each worker in one place |
| `WorkerRegistry.EachWorkerInOnePlace` | controllers/statuscheck/manager.go:105-125 | in every interleaving a stored worker is registered, or taken and about to be stopped, or stopped, exactly one of them; its channel is closed as often as stop is called, at most once |
| `WorkerRegistry.ActiveIsRegisteredIff` | controllers/statuscheck/worker.go:71-100 | an active worker is the registered one exactly when no stop for it is on its way |
| `WorkerRegistry.OneActivePerKey` | controllers/statuscheck/manager.go:111-125 | of two active workers of one key one is about to be stopped |
| `WorkerRegistry.TwoCanBeActive` | controllers/statuscheck/manager.go:118-125 | a run in which no two manager calls overlap and two workers of one key are active |
| `WorkerRegistry.ExitTakesItselfIff` | controllers/statuscheck/worker.go:75-81 | the exit of a worker removes the worker itself exactly when nobody took it before, and otherwise its successor |
| `WorkerRegistry.ExitCanTakeSuccessor` | controllers/statuscheck/worker.go:75-81 | a run in which no two manager calls overlap and a worker nobody asked to stop is taken by the exit of its predecessor |
| `WorkerRegistry.BlockedStaysIdle` | controllers/statuscheck/manager.go:65-69 | a key with an entry and no worker stays without one until the entry is forgotten |
| `WorkerRegistry.RevivableIff` | controllers/statuscheck/manager.go:65-84 | a key without a worker and with no Add under way can be given one, its entry not being forgotten, exactly when it has no entry |
| `WorkerRegistry.LateRecordBlocks` | controllers/statuscheck/manager.go:162-171 | a record that lands after a deletion brings that about |
| `StatusController.ConditionMap.SetCondition` | controllers/statuscheck/conditions.go:46-69 | the probe time always moves, the transition time exactly when the condition is new or its status flips; no other condition changes |
| `StatusController.ConditionMap.SetCompleted` | controllers/statuscheck/conditions.go:127-143 | duration, failure threshold and, in Synchronous mode, success threshold decide in this order |
| `StatusController.ConditionMap.ToList` | controllers/statuscheck/conditions.go:38-44 | each condition exactly once, in any order |
| `StatusController.GenerateConditions` | controllers/statuscheck/controller.go:128-141 | all four conditions follow from duration, records and what the check had before; fails exactly for a malformed duration of a started check |
| `StatusController.WhatIsWritten` | controllers/statuscheck/controller.go:85-141 | an update in terms of the check read, the result and the clock: completed exactly when start + duration is before now, or the last records reach the failure threshold or, in Synchronous mode, the success threshold; with no duration never by time; each condition, its reason and its transition time, start and completion time and records likewise |
| `StatusController.UpdateStatus` | controllers/statuscheck/controller.go:85-126 | one attempt: the check is completed exactly when its duration is over or the scan fires, its completion time is set once, and its worker is dropped exactly then, whether or not the write succeeds; each way it can end is exact |
| `StatusController.UpdateWithRetries` | controllers/statuscheck/controller.go:80 | attempts are repeated exactly after conflicts, and the first that is not decides |
| `StatusController.Reconcile` | controllers/statuscheck/controller.go:51-83 | a completed check is left alone, a deleted one forgotten, any other one updated from the version the deciding attempt read; a check without an entry gets a worker, and any attempt that finds it finished takes the worker away; a pass that fails leaves the check as it was read |
| `StatusController.PassIsStep` | controllers/statuscheck/controller.go:51-83 | a pass with up-to-date reads is one step of the runs below, and writes exactly when the check is open, has an entry or an executor, a readable duration and a successful write |
| `StatusController.CompletionIsPermanent` | controllers/statuscheck/controller.go:65-68 | with up-to-date reads no later pass changes a completed check |
| `StatusController.StoppedWorkerIsNoticed` | controllers/statuscheck/controller.go:51-126 | when a worker has stopped by itself, the next pass that writes completes the check, whatever records it began with, and it stays so |
| `StatusController.WorkThenReconcile` | controllers/statuscheck/controller.go:51-126 | a whole life of a worker on the manager's cache followed by a pass: a stop of its own completes the check and drops the worker, and the records written are the window of all that was executed |
| `StatusController.TimesAgree` | controllers/statuscheck/controller.go:92-109 | along every run of a new check, failing passes included and every reading of the clock its own, the completion time is there exactly when the check is completed, and its condition flipped no later than that |
| `StatusController.StaleReadRewrites` | controllers/statuscheck/controller.go:85-126 | after a stale first read a completed check stays completed exactly when the records now held finish it |
| `StatusController.StaleReadCanUndo` | controllers/statuscheck/controller.go:85-126 | such a rewrite that undoes a completion, with records that a worker leaves which has not stopped |
| `FieldWalker.NextIsSmaller` | api/genericwebhook/bfs.go:80-105 | the children of a node are together smaller than the node, which is why the queue empties |
| `FieldWalker.PushChildren` | api/genericwebhook/bfs.go:77-105 | exported fields or elements go to the back of the queue in order; a nil pointer, or a pointer behind a pointer, has none |
| `FieldWalker.Walk` | api/genericwebhook/bfs.go:45-108 | the loop ends on every finite object and the callbacks come level by level below the root |
| `FieldWalker.BfsIsLevels` | api/genericwebhook/bfs.go:45-108 | queue order is level order |
| `FieldPaths.WalkVisitsTheDue` | api/genericwebhook/bfs.go:45-108 | the callback is called exactly once on each exported node below the root all of whose ancestors below the root were accepted, on nothing else, never on a deeper node first; so on every exported field of an object passed by pointer |
| `FieldPaths.LevelsHoldTheDue` | api/genericwebhook/bfs.go:45-108 | a level and those below it hold exactly the due nodes from that depth on, once each |

## Left out

- Process execution, network namespaces, container lookup, gRPC, logging, events, metrics and the lock around the ip sets: a command is a method on modelled kernel state, its failure an arbitrary choice.
- RuleReader.GeneratedReadBack: a TCP flag that is the word -j is not read back; the joined text is split at blanks outside the model.
- Which packets meet a port or flag text is left to the packet: it carries the texts it meets.
- The numbers `tc` is given are printed in decimal; how `tc` reads them is outside the code, so handles and classes are integers here.
- The printing of floats, the parsing of durations and the trimming of blanks: percentages are `real` tokens, durations are already parsed.
- Token-bucket arguments: their text is carried to the command whole, it is not decoded.
- The device written back into a traffic-control rule is a new value instead of an update in place; the rules are not shared.
- mergeNetem, the conversions from NetworkChaos to PodNetworkChaos, and BuildIPSets: closed-form conversions that would only add easy members.
- GenerationGate.GateIsSound: speaks of the generation that was read; an edit not read yet is, as in the code, noticed by the next reconcile.
- GenerationGate.MonotoneReadsAreNotEnough: a witness, not a general statement; the general one is GenerationGate.SoundExactlyWithoutHazards.
- ProcessManager.ShutdownIsClean: Shutdown is called once; a second call would close the closed channel.
- ProcessManager.NeverTwoAlive: assumes that UIDs and (pid, create time) pairs never repeat.
- IOChaos.ApplyIOChaos: the pipes and the wait for the server's reply are arbitrary outcomes.
- StatusController.Reconcile: a condition is true or not (the third status value is never written by the code); how many attempts are allowed is left open.
- StatusRecords.ResultCache.Append: under its lock, so one step; the conversion of the limit between unsigned and signed is not modelled.
- RecordSlices.GoAppend: growth of a new backing array is arbitrary, as the language leaves it open.
- FieldWalker.Walk: the callback is a function and does not change the object while it is walked; the object passed in is a pointer, as its callers guarantee.
- Webhooks of single kinds, workflow validation, DNS mapping, schedules, clients and the other daemon servers: short checks or shell-outs.
- The podhttpchaos and podiochaos reconcilers: they have the same gate as podnetworkchaos.
