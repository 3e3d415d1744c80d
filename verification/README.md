# xk6-disruptor: a model of the agent, the disruptors and their promises

xk6-disruptor injects faults into pods, nodes, workloads and Istio resources and has to take them back. This project
models the parts where that is hard, in Dafny, one module for each source file or pair of files, and proves what they
promise: over every interleaving of processes and goroutines, over every subset of failing commands and requests, over
every input. `dafny verify dfyconfig.toml` checks everything.

How the source's forms appear here:

- A loop or an object that one goroutine changes step by step is a method or a class, proved against a specification
  function (`RuleSet`, `Redirector`, `WorkloadDisruptor`, `Nodes`, the crash loop, the pod wait, the CPU loop, the
  in-place taint filter, the page loop). Clocks, randomness and every answer of the outside are arbitrary values.
- Processes or goroutines that interleave are a labelled transition system: a `State`, an `Action`, `Enabled`, `Next`, and
  results about every run (`FileLock`, `GrpcForward`, `Lifetime`, `FanIn`). For the lock, `FileLockCalls` adds the
  bodies of `Acquire`, `Release` and `Agent.Start` as methods that branch on what their system calls return, with steps of all
  other processes in between, and proves that their answers are those of the system. For `ScaleReplicas`, the scheduler
  of the goroutines is a loop that picks any of them.
- The kernel, the cluster and the resource store are classes whose operations may fail. `iptables` and the
  Istio and node stores fail without effect; `Scale` may also be reported as failed after it was applied.

What the modules prove:

- `Netfilter`, `Iptables`, `Redirector`, `TcpConn`: the kernel's rules are the original ones plus exactly those remembered;
  Start/Stop cycles of the redirector; and a packet evaluator that says what the rules do to connections.
- `FileLock`, `FileLockCalls`: exactly when the file lock excludes, what is enough for it, and how it fails.
- `Lifetime`: no disruption outlives `ApplyDisruption`, which always returns.
- `GrpcForward`: in-order prefixes both ways, and what a nil result means.
- `Replica`, `Workload`: target counts with 32-bit arithmetic; every change of a workload is recorded and reverted.
- `Json`, `Istio`: the mutations change only what they name, and nil means that the snapshot is back.
- `Taints`, `PodWait`, `CrashLoop`, `FanIn`, `CpuStress`, `IntOrString`, `DurationText` (with `Decimal` and `Common`): the in-place
  filter, the wait without lost updates, the failure budget, the fan-in of results, the duty-cycle accounting, text and
  percentages.

## Where the code does not do what it says

The model follows the code. Each of these is stated and proved.

- `Agent.Start` calls the agent unique (pkg/agent/agent.go:34). `FileLock.ExclusiveIff` says in which runs that is so: exactly
  those in which nobody links into the free path while a process is alive whose lock file was removed while it held the lock.
  Two recoveries of the same abandoned lock break it (`OverlappingRecoveriesShare`), as does a recovery that read a dead
  owner before somebody else took the lock, also on the fast path (`StaleReadShares`), and one failed read of the lock
  file, which `Owner` reports as no owner (`FailedReadShares`, `FailedReadRun`). It is enough that a recovery removes only
  the lock file it read (`AtMostOneHolder`); ordinary hand-over is included.
- A nil result of the gRPC forwarder may hide a lost response: an end of stream from a *send* to the client counts as success
  (`GrpcForward.NilResult`, `LostResponse`). Whether the server's transport ever reports a failed send as `io.EOF` is not
  settled by this repository; what is modelled is that
  pkg/agent/protocol/grpc/handler.go:172-175 does not tell it from the end of a receive.
- A positive delta that leaves the int32 range wraps around and scales the workload to zero (`Replica.ResolveDelta`).
- `RemoveTaint` goes by key alone, so tainting a node and removing the taint again also removes an older taint with the same
  key (`Taints.AddRemoveRestores`).
- `Sample` rounds to the nearest, not up; `IntOrString.SampleRoundsUpIff` says exactly when the two agree. It takes one pod for
  a negative percentage (`SampleOtherPercentage`), and panics on some counts instead of returning an error;
  `SamplePanicsIff` says exactly on which, three billion among them (`LargeNumberPanics`).
- With autoRevert, the comment at pkg/disruptors/workload.go:79-81 has each workload restored before the call returns. If one
  target fails, the call returns before it restores the others (`Workload.WorkloadDisruptor.ScaleReplicas`).
- `RuleSet.Remove` deletes the first equal rule; if an equal rule was there before, the order of the chain may change
  (`Iptables.AddRemoveOrder` has the exact condition).
- The comment at pkg/agent/protocol/redirector.go:117-118 says that loopback traffic does not traverse INPUT; the rule
  next to it relies on it doing so, and so does the model.
- The comment at pkg/disruptors/istio.go:63-64 says that the original object is always restored. `Istio.RestoredIff` says
  exactly when it is; after a cancellation the read before the restore fails, and then no effective patch is taken back
  (`FailedRereadLeavesPatch`, `RestoreCanFail`).

## Model

| member | source | states |
|---|---|---|
| Netfilter.Kernel.Exec | pkg/iptables/iptables.go:24-51 | One iptables command: an append adds at the end, a delete takes the first equal rule and fails if there is none; any failure leaves the rules alone |
| Netfilter.DeleteFirstMultiset | pkg/iptables/iptables.go:117-119 | Deleting by value takes away exactly one copy of the rule, and nothing if there is none |
| Netfilter.DeleteFirstAppend | pkg/iptables/iptables.go:117-119 | Rules appended later are only reached by a delete when no earlier rule is equal |
| Netfilter.ReplayConserves | pkg/iptables/iptables.go:24-51 | After any commands with any failures the kernel holds of each rule as many as before, plus the appends and less the deletes that worked |
| Iptables.RuleSet.Add | pkg/iptables/iptables.go:66-76 | Issues one append; kernel and remembered rules both grow by the rule, or neither does |
| Iptables.RuleSet.Remove | pkg/iptables/iptables.go:78-99 | Tries every remembered rule whatever fails, keeps exactly the failed ones in order, nil iff none failed |
| Iptables.DeletesConserve | pkg/iptables/iptables.go:82-91 | At every point inside Remove the kernel holds the base, the rules kept so far and the rules not yet tried |
| Iptables.RunConserves | pkg/iptables/iptables.go:66-99 | After any sequence of Add and Remove with any failures the kernel's multiset is the original plus exactly the remembered rules |
| Iptables.RemovedAll | pkg/iptables/iptables.go:78-99 | Once a Remove returns nil, nothing is remembered and the kernel's multiset is the original one |
| Iptables.RemoveRestoresOrder | pkg/iptables/iptables.go:66-99 | If no added rule was present before, then after any calls with any failures a Remove that returns nil leaves the original chain in its original order |
| Iptables.AddRemoveOrder | pkg/iptables/iptables.go:113-119 | Add then remove of a rule restores the order iff only copies of the rule follow its first copy in the base |
| Redirector.NewTrafficRedirector | pkg/agent/protocol/redirector.go:24-45 | A redirector exists iff both ports are given and differ |
| Redirector.Redirector.Start | pkg/agent/protocol/redirector.go:144-158 | Issues the delete of the proxy-reset rule, ignores its result, and appends the four rules up to the first failure; nil iff all four were added |
| Redirector.Redirector.Stop | pkg/agent/protocol/redirector.go:160-182 | Issues all five commands whatever subset fails; nil iff all five worked |
| Redirector.FailureFreeStart | pkg/agent/protocol/redirector.go:144-158 | If only the delete of an absent rule fails, Start adds all four rules and the reset rule's first copy is gone |
| Redirector.FailureFreeStop | pkg/agent/protocol/redirector.go:160-182 | If only deletes of absent rules fail, Stop takes one copy of each of the four rules and appends the proxy-reset rule |
| Redirector.CyclesMultiset | pkg/agent/protocol/redirector.go:132-182 | Any positive number of failure-free Start/Stop cycles leaves the base without one proxy-reset rule plus one; exactly one remains iff there was at most one |
| Redirector.CyclesKeepOrder | pkg/agent/protocol/redirector.go:132-182 | If none of the four rules was there before, the cycles keep the order of all other rules |
| Redirector.BetweenStartAndStop | pkg/agent/protocol/redirector.go:144-158 | After any number of cycles and one more Start the four rules are there once more than in the base; the proxy-reset rule is absent iff the base had at most one |
| Redirector.StartStopConserves | pkg/agent/protocol/redirector.go:144-182 | After a Start and a Stop with any failures each of the five rules is there as often as before, plus one if it was added, less one if it was deleted; no other rule comes or goes |
| Redirector.NewConnectionVerdict | pkg/agent/protocol/redirector.go:47-130 | A new connection goes to the proxy iff it is TCP to the destination port from off lo or from 127/8 to 127.0.0.1; none is reset |
| Redirector.TrackedConnectionVerdict | pkg/agent/protocol/redirector.go:95-122 | An established packet is reset iff its connection still ends at the application's port and is not the proxy's own |
| Redirector.StoppedVerdict | pkg/agent/protocol/redirector.go:132-142 | After Stop every packet of every connection that ends at the proxy's port is reset, and no other |
| Redirector.ProxyConnectionUntouched | pkg/agent/protocol/redirector.go:54-68 | No packet of the proxy's connection to the pod IP is redirected or reset |
| Redirector.NoRedirectLoop | pkg/agent/protocol/redirector.go:68-130 | What was redirected matches no rule again when the ports differ |
| Redirector.EqualPortsReset | pkg/agent/protocol/redirector.go:29-39 | With equal ports, which the constructor refuses, redirected connections would be reset |
| Redirector.ConnectionLife | pkg/agent/protocol/redirector.go:47-182 | A connection that outlives the start or the end of the redirection is reset; otherwise it is served by the proxy exactly while redirection lasts |
| TcpConn.RandomNfqConfig | pkg/agent/tcpconn/disruptor.go:135-143 | Both numbers are odd and so never the special value 0, whatever the random source gives |
| TcpConn.Threshold | pkg/agent/tcpconn/dropper.go:46 | The threshold is the whole percentage at or below the drop rate |
| TcpConn.DropIff | pkg/agent/tcpconn/dropper.go:46 | A TCP packet is dropped iff its checksum's remainder plus one is at most a hundred times the rate |
| TcpConn.ConnectionIs | pkg/agent/tcpconn/dropper.go:38-40 | Two packets are of one connection iff both addresses and both ports agree |
| TcpConn.DropDecision | pkg/agent/tcpconn/dropper.go:38-46 | The decision depends on the 4-tuple alone; the dropped connections grow with the rate, none below one percent and all at 1 |
| TcpConn.DroppedShare | pkg/agent/tcpconn/dropper.go:42-46 | Of the checksums below any bound, 2^32 included, Drop holds for the whole percentage of the rate, never fewer and at most 25 more |
| TcpConn.QueueVerdict | pkg/agent/tcpconn/disruptor.go:72-123 | A packet that arrives without the reject mark visits the queue at most once and is rejected iff it is TCP to the port and the dropper says drop |
| TcpConn.LeftoverRules | pkg/agent/tcpconn/disruptor.go:100-123 | With nobody on the queue the rules reject nothing that does not already carry the reject mark |
| TcpConn.SwappedRulesLoop | pkg/agent/tcpconn/disruptor.go:100-123 | With the two rules in the other order a dropped packet is requeued for ever |
| TcpConn.ConnectionVerdict | pkg/agent/tcpconn/disruptor.go:72-123 | All packets of a connection share its verdict, rejected iff the port and the dropper say so |
| TcpConn.Install | pkg/agent/tcpconn/disruptor.go:42-48 | Adds the rules in order up to the first failure, and remembers exactly those added |
| TcpConn.InstalledAndRemoved | pkg/agent/tcpconn/disruptor.go:38-48 | After the deferred Remove the kernel holds the old rules plus exactly those whose delete failed; none failed means the old order if none was present before |
| TcpConn.Apply | pkg/agent/tcpconn/disruptor.go:32-98 | However it ends, every installed rule has been asked to be deleted; a too short duration touches nothing; each error comes from the step that failed |
| FileLock.OwnerOfPid | pkg/runtime/lock.go:122-139 | A whole pid written to the lock is read back |
| FileLock.AnyStepCanFail | pkg/runtime/lock.go:51-173 | A process can die at any point and any of its file-system steps can fail |
| FileLock.InvStep | pkg/runtime/lock.go:51-173 | Every step of every process keeps the invariant on names, files and phases |
| FileLock.SafeStep | pkg/runtime/lock.go:51-118 | Every step but the removal of a live holder's file keeps every live holder's file at the lock's path |
| FileLock.ExclusiveIff | pkg/runtime/lock.go:51-118 | Over every run of any number of processes: at most one live holder at every moment iff nobody links into the free path while a process lives whose lock file a recovery removed while it held the lock |
| FileLock.ExclusiveFrom | pkg/runtime/lock.go:51-118 | The same from any reachable state, with the victims so far |
| FileLock.VictimStep | pkg/runtime/lock.go:51-118 | Every other step keeps that a living victim still holds, that the path is free then, and that every other holder's file is the lock file |
| FileLock.NoStealNoSharing | pkg/runtime/lock.go:51-118 | In any run with no such removal at most one live process holds the lock, and its file is the lock file |
| FileLock.NoStealNoVictim | pkg/runtime/lock.go:80-99 | Runs with no such removal meet the exact condition |
| FileLock.GoodRecoveriesNeverSteal | pkg/runtime/lock.go:80-99 | In a run in which each recovery that removes a lock file removes the one it read, no live holder's file is removed |
| FileLock.CalmRunRecoversWell | pkg/runtime/lock.go:80-99 | Recoveries remove what they read if no read fails and nothing changes the lock's path while another process is between its read, of a live or a dead owner, and its removal |
| FileLock.AtMostOneHolder | pkg/runtime/lock.go:11-16 | Runs in which no recovery removes another lock file than the one it read meet the exact condition, with crashes, failures and releases at any time |
| FileLock.StaleReadShares | pkg/runtime/lock.go:80-99 | A recovery that has read a dead owner shares the lock with whoever holds it by then |
| FileLock.FailedReadShares | pkg/runtime/lock.go:122-126 | One failed read of a live holder's lock file ends in a shared lock |
| FileLock.FailedReadRun | pkg/runtime/lock.go:122-126 | A concrete run from an unused lock in which a failed read lets a second process acquire |
| FileLock.OverlappingRecoveriesShare | pkg/runtime/lock.go:80-99 | A concrete run from an abandoned lock file in which two processes both acquire |
| FileLock.LockShowsWholePids | pkg/runtime/lock.go:57-77 | In any run the path never shows part of a pid, a process that failed to acquire never gets to remove the lock, and leaves no temporary file |
| FileLock.AcquireAlone | pkg/runtime/lock.go:51-106 | A process that meets no failure and nobody else acquires iff no lock file names a live owner; it then leaves its own pid there, and otherwise every name as it was |
| FileLock.ReleaseAlone | pkg/runtime/lock.go:108-118 | One that stops frees the path iff the path shows its own pid |
| FileLockCalls.Machine.CreateTempLock | pkg/runtime/lock.go:156-173 | Writes the whole pid character by character while others run, or fails |
| FileLockCalls.Machine.CleanUp | pkg/runtime/lock.go:57-75 | A temporary file that is still there on return is the lock file; whether the lock is acquired stays |
| FileLockCalls.Machine.ChallengeOwner | pkg/runtime/lock.go:79-99 | Branching on the scanned pid, the signal, the removal and the link alone, answers true iff the model has the process acquire the lock |
| FileLockCalls.Machine.Acquire | pkg/runtime/lock.go:49-106 | Branching on the results of its system calls alone, answers true iff the model has the process acquire; and then, in runs that meet the exact condition, the process is the one live holder |
| FileLockCalls.Machine.ReleaseLock | pkg/runtime/lock.go:108-118 | True iff the process has released the lock, which then it had acquired; a process that had not acquired takes no release step |
| FileLockCalls.Machine.StartAgent | pkg/agent/agent.go:33-69 | A started agent holds the lock, and is the only one in runs that meet the exact condition; a failed start only releases what it had acquired |
| Lifetime.NothingOutlivesTheCall | pkg/agent/agent.go:71-98 | When ApplyDisruption has returned, Apply has; a started redirection was stopped once, before the proxy; the answer is Apply's unless cancelled or signalled |
| Lifetime.ApplyResultIff | pkg/agent/protocol/protocol.go:75-116 | Apply returns nil iff the duration passed and requests were seen or are not counted, and each error iff its own step ended the wait or kept it from beginning |
| Lifetime.ProxyReportIff | pkg/agent/protocol/protocol.go:80-83 | The report that Apply can take is how the proxy ended |
| Lifetime.AnswerIff | pkg/agent/agent.go:89-97 | ApplyDisruption answers with the context's error iff it saw the cancellation, with the signal iff it took one, and otherwise with what Apply returned |
| Lifetime.CausesFromOutside | pkg/agent/agent.go:89-97 | Before it leaves its select, the context is done iff the caller cancelled; a signal is there iff one arrived |
| Lifetime.EveryCauseCanBeTaken | pkg/agent/protocol/protocol.go:98-115 | Of the causes that are ready, each can be the one a select takes |
| Lifetime.AlwaysReturns | pkg/agent/agent.go:71-98 | Every run is bounded, and one that cannot go on has the agent returned and the worker's channel closed |
| Lifetime.RunsAreBounded | pkg/agent/agent.go:71-98 | Each step of a run lowers a bound, whatever the interleaving |
| Lifetime.AtMostTwoWaits | pkg/agent/protocol/protocol.go:98-115 | The select starts at most two timer waits, the second only after the proxy ended without error |
| Lifetime.LateReportStaysBlocked | pkg/agent/protocol/protocol.go:80-83 | Once Apply has left its select, the proxy goroutine's report is never received |
| GrpcForward.RunInv | pkg/agent/protocol/grpc/handler.go:92-197 | The invariant of the two pumps and the select loop holds in every state of every run |
| GrpcForward.PrefixesDelivered | pkg/agent/protocol/grpc/handler.go:149-197 | Each side has received an in-order prefix of what the other sent; one header comes before the first response |
| GrpcForward.SentIsDelivered | pkg/agent/protocol/grpc/handler.go:172-190 | Each side has received as many messages as were sent to it, in every state of every run |
| GrpcForward.AllCanBeDelivered | pkg/agent/protocol/grpc/handler.go:92-197 | For any requests and any responses there is a run that delivers all of both, closes the sending side and returns nil |
| GrpcForward.RequestsReportedIff | pkg/agent/protocol/grpc/handler.go:181-197 | The request pump reports exactly what the step that ended it met |
| GrpcForward.ResponsesReportedIff | pkg/agent/protocol/grpc/handler.go:149-179 | The response pump reports exactly what the step that ended it met |
| GrpcForward.ResultIff | pkg/agent/protocol/grpc/handler.go:120-145 | The call returns what the first report other than an end of the requests says |
| GrpcForward.AnyStepCanFail | pkg/agent/protocol/grpc/handler.go:149-197 | Every receive, header and send can fail at every point |
| GrpcForward.OwnStepsAreBounded | pkg/agent/protocol/grpc/handler.go:114-197 | Whatever the interleaving, the call takes at most two steps for each request, four for each response, and eight more |
| GrpcForward.StuckWaitsForBackend | pkg/agent/protocol/grpc/handler.go:120-145 | A call that cannot go on and has not returned has delivered all responses so far and waits for a backend that has not finished |
| GrpcForward.NilResult | pkg/agent/protocol/grpc/handler.go:134-143 | A nil result means everything upstream was delivered iff its end of stream came from a receive |
| GrpcForward.LostResponse | pkg/agent/protocol/grpc/handler.go:172-175 | A run with a nil result and a lost response exists |
| GrpcForward.CloseSendAfterLastRequest | pkg/agent/protocol/grpc/handler.go:122-126 | CloseSend follows the delivery of all requests iff its end of stream came from the client |
| GrpcForward.LoopEnds | pkg/agent/protocol/grpc/handler.go:114-146 | The statement after the loop is never reached, the loop is never stuck behind a finished response pump, no report blocks |
| Replica.Resolve | pkg/disruptors/replica.go:61-77 | The target is never negative; an absolute count is taken as it is |
| Replica.ValidateIff | pkg/disruptors/replica.go:33-59 | Valid iff exactly one of the three counts is set, a percentage is not negative, and a revert has a duration to wait |
| Replica.ResolveDelta | pkg/disruptors/replica.go:68-76 | A delta gives the exact sum floored at zero iff the sum is an int32; beyond, it gives zero |
| Replica.ResolvePercentage | pkg/disruptors/replica.go:70-76 | A percentage gives the exact floor iff that is an int32, always so up to 100, and then at most the current count |
| Workload.Cluster.GetReplicas | pkg/kubernetes/helpers/workloads.go:93-119 | Answers the stored count of a supported kind, one if unset, or an error |
| Workload.CountIs | pkg/kubernetes/helpers/workloads.go:104-107 | An unset count is one |
| Workload.SupportedKinds | pkg/kubernetes/helpers/workloads.go:94-98 | Deployments and StatefulSets, and nothing else |
| Workload.Cluster.Scale | pkg/kubernetes/helpers/workloads.go:121-152 | Sets the count of one workload, clamped at zero; a failure leaves it old or new and touches no other |
| Workload.WorkloadDisruptor.Step | pkg/disruptors/workload.go:136-159 | Each atomic step makes exactly its request, fails only if that does, and keeps the books: a changed count is recorded with its starting value |
| Workload.WorkloadDisruptor.ScaleAll | pkg/disruptors/workload.go:102-118 | Under any interleaving a target is reported failed iff one of its requests failed; every other is supported, has had its resolved count written if that differs, and has it; no other workload changes |
| Workload.WorkloadDisruptor.ScaleReplicas | pkg/disruptors/workload.go:79-134 | Invalid faults touch nothing; every other call scales all targets first, autoRevert or not; with autoRevert every recorded workload is then restored once, nil iff all were; nil without it means every target is at its resolved count and recorded; a partly failed call leaves the other targets so and restores none |
| Workload.WorkloadDisruptor.RevertAll | pkg/disruptors/workload.go:161-181 | Scale is called exactly once for each recorded workload, with its recorded count; exactly those whose call failed stay recorded; nil iff none is left, and then all counts are the starting ones |
| Workload.WorkloadDisruptor.Cleanup | pkg/disruptors/workload.go:72-77 | Tries every recorded workload once; nil iff nothing is left recorded, and then every count is restored |
| Workload.Session | pkg/disruptors/workload.go:72-181 | After any sequence of calls with any failures, a final Cleanup that returns nil leaves every workload at the count it had before the first call |
| Json.AtPut | pkg/disruptors/istio.go:232 | A written path has the value written |
| Json.PutElsewhere | pkg/disruptors/istio.go:232 | A write leaves every path apart from it as it was |
| Json.PutBelow | pkg/disruptors/istio.go:274-278 | Rewriting a node in memory and writing it back is one write below the node |
| Json.NestedIsAt | pkg/disruptors/istio.go:179 | A nested lookup finds exactly what is at the path of its fields |
| Json.SetNestedIsPut | pkg/disruptors/istio.go:332 | A nested set is a write at the path of its fields, and works wherever that write is possible |
| Istio.HttpRouteIs | pkg/disruptors/istio.go:178-191 | httpRouteAt succeeds iff there is an object at spec.http[index], and returns it with its list |
| Istio.MisrouteWritesDestination | pkg/disruptors/istio.go:245-279 | InjectMisroute's mutation succeeds iff the two indices name a route entry whose destination, if any, is an object, and is one write at that destination |
| Istio.MisrouteChangesOnlyHostAndSubset | pkg/disruptors/istio.go:236-280 | It sets the host, the subset if given, and leaves every other path of the tree equal |
| Istio.InjectChangesOnlyFault | pkg/disruptors/istio.go:193-234 | Fault injection succeeds iff the http route exists, sets its fault and leaves every other path equal |
| Istio.InjectSetsDelay | pkg/disruptors/istio.go:208-218 | The fault holds the delay in milliseconds iff one is asked for, for the given share or all requests, and nothing beside delay and abort |
| Istio.InjectSetsAbort | pkg/disruptors/istio.go:219-228 | The fault holds the abort status iff one is asked for, for the given share or all requests |
| Istio.SetNestedChangesOnlyField | pkg/disruptors/istio.go:331-333 | The TLS mutation, and likewise the mTLS and authorization ones, sets its field and leaves every other path equal |
| Istio.ApplyPatchForDuration | pkg/disruptors/istio.go:69-100 | Whatever the API takes and others write, the outcome and the store are those of Patch |
| Istio.OutcomeMeans | pkg/disruptors/istio.go:77-99 | Nil means that the snapshot was the last write and the store held it; without a patch nothing was written; a failed restore leaves the patch as the last write; each error says which request failed |
| Istio.RestoredIff | pkg/disruptors/istio.go:93-99 | The restore of an applied patch is accepted iff the API takes it and nobody changes the resource after a re-read that worked, or nothing at all changed since the first read |
| Istio.FailedRereadLeavesPatch | pkg/disruptors/istio.go:93-98 | If the read before the restore fails, an effective patch is not taken back by the call, whoever writes; it stays in place if nobody else does |
| Istio.RestoreCanFail | pkg/disruptors/istio.go:93-98 | For every effective mutation there is such a call |
| Taints.FilterInPlace | pkg/kubernetes/helpers/nodes.go:131-137 | The filter that reuses the slice's own array equals the order-preserving filter by key |
| Taints.WithoutKeyContents | pkg/kubernetes/helpers/nodes.go:131-136 | Exactly the taints with the key go; each other one keeps its multiplicity |
| Taints.AddRemoveRestores | pkg/disruptors/node.go:281-294 | Add then remove restores the exact list iff no taint had the key before |
| Taints.Nodes.AddTaint | pkg/kubernetes/helpers/nodes.go:108-123 | Nil means that the node has a taint with the key and effect: its old list if that had one, else the old list followed by the taint |
| Taints.Nodes.RemoveTaint | pkg/kubernetes/helpers/nodes.go:125-141 | The node keeps exactly its taints with other keys, in order |
| Taints.Nodes.TaintNode | pkg/disruptors/node.go:269-295 | The taint is on the node when the wait begins; whatever others write during it, nil means that the node has what was there then, save the taints with the fault's key; a failure leaves the old taints, or the added one and what others wrote |
| Taints.UndisturbedTaint | pkg/disruptors/node.go:269-295 | If nobody else wrote to the node, nil leaves its old taints save those with the key, and all of them iff none had it |
| PodWait.WaitForCondition | pkg/kubernetes/helpers/pods.go:89-149 | Checks the pod read and then the modified ones in order, up to the first that decides; true iff the last one checked satisfied the condition |
| PodWait.WaitDecided | pkg/kubernetes/helpers/pods.go:101-126 | No watch or no pod is an error; the pod read decides if the checker does not say no |
| PodWait.ScanDecidedAt | pkg/kubernetes/helpers/pods.go:128-148 | The first input that does not pass decides: expiry times out, an error of watch, object or checker fails, a satisfied checker succeeds |
| PodWait.FindIs | pkg/kubernetes/helpers/pods.go:176-180 | The container looked at is the first with the name |
| PodWait.ConditionsAre | pkg/kubernetes/helpers/pods.go:175-214 | Running and restarted are what that container shows, and never an error |
| PodWait.ConditionsWithoutContainer | pkg/kubernetes/helpers/pods.go:181-214 | Without such a container both go on waiting |
| PodWait.NoLostUpdate | pkg/kubernetes/helpers/pods.go:101-148 | As the watch is opened before the read, a satisfying version that is read or delivered without earlier error or timeout makes the wait succeed |
| PodWait.SatisfiedByVersion | pkg/kubernetes/helpers/pods.go:123-146 | Success comes with a version of the pod, read or delivered, that satisfied the condition |
| PodWait.ReadBeforeWatchLoses | pkg/kubernetes/helpers/pods.go:112-117 | Reading before opening the watch would lose updates in between |
| PodWait.WaitContainerRunning | pkg/kubernetes/helpers/pods.go:169-184 | True iff the last pod checked, and none before, has the container running |
| PodWait.WaitContainerRestart | pkg/kubernetes/helpers/pods.go:200-221 | A reported restart comes with a count above the given one that some offered version of the pod shows; no restart, no such count |
| CrashLoop.WaitTimeout | pkg/disruptors/pod.go:199-205 | A wait is the restart timeout, or thirty seconds if none is given, or what remains to the deadline if that is less |
| CrashLoop.CrashLoopPod | pkg/disruptors/pod.go:176-284 | Ends; an error iff the last five attempts failed; crashes counts the observed restarts; each wait ends by the deadline |
| CrashLoop.ClassifyIs | pkg/disruptors/pod.go:183-282 | An attempt stops the loop iff cancelled, out of time or at the count; it is a crash only if every helper succeeded and the restart was seen |
| CrashLoop.FailuresAre | pkg/disruptors/pod.go:206-281 | The failures in a row are the last steps, up to one that is none |
| CrashLoop.ReachesCount | pkg/disruptors/pod.go:190-192 | A loop that ends well, not cancelled and with time left, has crashed the container as often as asked |
| CrashLoop.LengthBound | pkg/disruptors/pod.go:206-281 | At most four failures precede each crash, so iterations are at most five times the crashes plus the trailing failures |
| CrashLoop.IterationsBounded | pkg/disruptors/pod.go:190-192 | With a positive count, at most that many crashes and five times as many iterations |
| CrashLoop.CrashesAreRestarts | pkg/disruptors/pod.go:223-274 | Under a growing counter the crashes reported are at most its growth |
| CrashLoop.CrashesArePodRestarts | pkg/disruptors/pod.go:223-274 | For a pod whose restart count never goes back from version to version, and restarts reported as WaitContainerRestart does, the crashes are at most what the count grew by |
| FanIn.VisitResult | pkg/disruptors/controller.go:31-65 | Nil only after every visitor returned nil, and then once all are received; any error but the context's is one a visitor returned |
| FanIn.ResultIsItsOwn | pkg/disruptors/controller.go:44-48 | What a worker sends is what it finished with |
| FanIn.ReceiveDecides | pkg/disruptors/controller.go:53-60 | The first error received is returned at once; the last success received returns nil |
| FanIn.ContextIsSeen | pkg/disruptors/controller.go:61-62 | A waiting collector can always answer the end of the context |
| FanIn.AlwaysReturns | pkg/disruptors/controller.go:41-64 | Runs are bounded, and one whose workers have finished and that cannot go on has returned and left no sender behind |
| FanIn.SendersNeverBlock | pkg/disruptors/controller.go:41-48 | No sender blocks, also after an early return |
| FanIn.CollectorNotStuck | pkg/disruptors/controller.go:50-64 | The collector can always receive while it waits, or some worker has still to send |
| FanIn.StressorResult | pkg/agent/stressors/disk.go:141-171 | Nil means all workers ended without error, or the time was up and at most one has not reported |
| CpuStress.Apply | pkg/agent/stressors/resource.go:29-78 | The loop's totals are those of the run of its cycles |
| CpuStress.SlackStep | pkg/agent/stressors/resource.go:58-75 | A turn that sleeps keeps the slack; one that does not enlarges it by what is missing |
| CpuStress.Accounting | pkg/agent/stressors/resource.go:29-78 | Load times wall time, less the oversleep, is at least a hundred times busy time, with equality iff no turn overran |
| CpuStress.LoadNotExceeded | pkg/agent/stressors/resource.go:58-75 | The achieved load exceeds the target by less than one nanosecond of wall time |
| CpuStress.TouchPages | pkg/agent/stressors/resource.go:101-107 | Writes the first byte of every page and no other |
| IntOrString.FromInt32RoundTrip | pkg/types/intstr/intstr.go:67-87 | Every int32 is read back from its text |
| IntOrString.PercentageRoundTrip | pkg/types/intstr/intstr.go:39-55 | Any int32 followed by a percent sign is that percentage |
| IntOrString.AsPercentageExactly | pkg/types/intstr/intstr.go:39-55 | A percentage is an int followed by one percent sign and nothing else; it panics iff the int is no int32 |
| IntOrString.SamplePercentage | pkg/utils/kubernetes.go:94-119 | For 1 to 100 percent of a non-empty list, a prefix of 1 to all pods, within half a pod unless the minimum applies, monotone |
| IntOrString.SampleRoundsUpIff | pkg/utils/kubernetes.go:94-118 | For 1 to 100 percent the sample has the rounded-up size iff the share is below one pod, a whole number of pods, or at least half a pod past one |
| IntOrString.SampleRoundsDown | pkg/utils/kubernetes.go:95-112 | A quarter of five pods is one pod, not two |
| IntOrString.SampleOtherPercentage | pkg/utils/kubernetes.go:103-118 | Zero percent takes nothing, a negative percentage one pod, an empty list is refused, more than 100 percent is refused unless it rounds to the whole list |
| IntOrString.SampleNumber | pkg/utils/kubernetes.go:100-118 | Every integer: that many pods, refused beyond the list, but a panic if negative or beyond 32 bits, and refused again beyond 64 bits |
| IntOrString.SamplePanicsIff | pkg/utils/kubernetes.go:98-118 | Over every text of a count, Sample panics iff it is a negative int, an int beyond 32 bits, or an int beyond 32 bits followed by a percent sign |
| IntOrString.SampleRefusesOtherText | pkg/utils/kubernetes.go:103-106 | A text that is neither an int nor one followed by a percent sign is refused |
| IntOrString.IntsAreDigits | pkg/types/intstr/intstr.go:26-32 | An int's text is digits, at least one, behind at most one sign |
| IntOrString.ReadsSignAndZeros | pkg/types/intstr/intstr.go:67-76 | A leading plus sign and leading zeros are read as well |
| IntOrString.LargeNumberPanics | pkg/utils/kubernetes.go:100-101 | Three billion panics |
| DurationText.SecondsTextIs | pkg/utils/strings.go:11-13 | Trimming zeros never eats an integer digit |
| DurationText.SecondsRoundTrip | pkg/utils/strings.go:9-13 | The printed text reads back as the rounded hundredths |
| DurationText.SecondsWithinFiveMillis | pkg/utils/strings.go:9-13 | Reading back is within 5 ms, exact on multiples of 10 ms |
| DurationText.MillisLoseLessThanOne | pkg/utils/strings.go:15-18 | Milliseconds lose less than one, toward zero |
| Decimal.ValueOfText | pkg/utils/strings.go:17 | A number printed with %d reads back as itself |

## Left out

- FileLock.ExclusiveIff: one Acquire per process, and no reuse of pids.
- FileLockCalls.Machine.CleanUp: the removal of the temporary file, whose error the code ignores, is taken to work, also
  after a failed write.
- FileLock.OwnerOfPid: a process that refuses signal 0 for lack of permission, and a negative number in an abandoned lock file,
  which names a process group, are taken as not alive and as dead; the panic on an unexpected stat error in the
  clean-up is not modelled.
- Lifetime.AlwaysReturns: does not say that the proxy goroutine ends, because it need not (see LateReportStaysBlocked).
- Redirector.Redirector.Start: the rules added before a failed Start stay, because nothing is deferred by then;
  no clean-up after a failed Start is claimed.
- Redirector.CyclesMultiset: is about failure-free cycles; StartStopConserves is what holds with failures.
- Workload.Session: Cleanup does not run at the same time as ScaleReplicas, and nobody else writes the counts.
- CpuStress.Accounting: in exact reals, and for a load above zero; a load of zero divides by zero in the source.
- TcpConn.DropDecision: the CRC-32 is any function of the 4-tuple, packets are already decoded, the rate is real and not negative.
- DurationText.SecondsWithinFiveMillis: which of two equally near hundredths `%.2f` takes is left open; durations are not
  negative.
- Istio.ApplyPatchForDuration: of the metadata only the resource version is modelled; a request that fails has no effect.
- CrashLoop.CrashesArePodRestarts: that the attempts see the pod's versions in order, and that Kubernetes never counts
  restarts down, are hypotheses.
- The Validate methods of the Istio faults and the default effect of a node taint: single comparisons.
- The state of goroutines, channels and streams in FileLock, GrpcForward, Lifetime and FanIn is a value that steps replace,
  not objects updated in place.
- The text of iptables rules and how it is split into arguments: rules are structured values here; netfilter is chain order,
  match, redirect, reject, queue and repeat, with one mapped port per tracked connection.
- The fault selection and delay in front of transparentForward, opening the client stream, metadata and trailers' contents.
- InjectCrashLoopFault's aggregation, PodAgentVisitor.Visit, ResourceStressor, the disk writing loops, FindPort and GetTargetPort:
  little beside what is modelled.
- WaitPodRunning and GetContainerRestartCount: one more condition of the same wait, and one lookup.
- Replica.Resolve: a negative current count, which the cluster does not hold.
- HTTP proxy and its response rewriting, DNS, the profiler, the k6 and JavaScript layer, commands and flags, SPDY exec and the
  Kubernetes clients.
